/** The labelled fields the upload route of backend/routes/parse.js reads
    straight off the cleaned text: vendor (lines 369-382), invoice number
    (386-401), date (404-412) and GSTIN (416-423). */
module Fields {
  import opened JsText
  import opened Optional
  import opened Patterns
  import Gstin
  import DateText
  import InvoiceDate
  import JsNumber

  // ---------------------------------------------------------------------
  // Vendor
  // ---------------------------------------------------------------------

  /** The labels OCR glues onto a vendor name. */
  datatype GluedLabel = InvoiceOrBillNo | GstinWord

  predicate StartsWithIgnoreCase(s: string, w: string) {
    |w| <= |s| && Lower(s[..|w|]) == w
  }

  /** After `\s*`, the word "no" in any case. */
  predicate NoWordAfterSpaces(r: string) {
    StartsWithIgnoreCase(r[SpaceRun(r)..], "no")
  }

  /** Where `/\s+(Invoice|Bill)\s*No\.?.*$/i` or `/\s+GSTIN.*$/i` can
      start a match: a `\s` whose run is followed by the label, with no
      line terminator from there to the end. */
  predicate GluedAt(s: string, i: nat, l: GluedLabel) {
    && i < |s| && IsSpace(s[i])
    && (forall j | i <= j < |s| :: !IsLineTerminator(s[j]))
    && var r := s[i..][SpaceRun(s[i..])..];
       match l
       case InvoiceOrBillNo =>
         (StartsWithIgnoreCase(r, "invoice") && NoWordAfterSpaces(r[7..]))
         || (StartsWithIgnoreCase(r, "bill") && NoWordAfterSpaces(r[4..]))
       case GstinWord => StartsWithIgnoreCase(r, "gstin")
  }

  function FirstGluedFrom(s: string, l: GluedLabel, i: nat): (r: Option<nat>)
    ensures r.Some? ==> i <= r.value < |s| && GluedAt(s, r.value, l)
    ensures r.Some? ==> forall j | i <= j < r.value :: !GluedAt(s, j, l)
    ensures r.None? ==> forall j | i <= j :: !GluedAt(s, j, l)
    decreases |s| - i
  {
    if i >= |s| then None
    else if GluedAt(s, i, l) then Some(i)
    else FirstGluedFrom(s, l, i + 1)
  }

  /** `replace(label.*$, "")`: the text before the first glued label. */
  function CutGlued(s: string, l: GluedLabel): (r: string)
    ensures StartsWith(s, r)
  {
    match FirstGluedFrom(s, l, 0)
    case Some(i) => s[..i]
    case None => s
  }

  /** The capture of the first vendor label that matches. */
  function VendorCapture(re: Regex, text: string): (r: Option<string>)
    ensures r.Some? ==> forall i | 0 <= i < |r.value| :: VendorChar(r.value[i])
    ensures r.Some? <==>
      (re(VendorLabel, text).Some? || re(SupplierLabel, text).Some? || re(CompanyLabel, text).Some?)
    ensures re(VendorLabel, text).Some? ==> r == Capture(re, VendorLabel, text, 1)
    ensures re(VendorLabel, text).None? && re(SupplierLabel, text).Some? ==> r == Capture(re, SupplierLabel, text, 1)
    ensures re(VendorLabel, text).None? && re(SupplierLabel, text).None? ==> r == Capture(re, CompanyLabel, text, 1)
  {
    if re(VendorLabel, text).Some? then Capture(re, VendorLabel, text, 1)
    else if re(SupplierLabel, text).Some? then Capture(re, SupplierLabel, text, 1)
    else Capture(re, CompanyLabel, text, 1)
  }

  /** The labels cut off and the ends trimmed. */
  function CleanVendor(c: string): (r: string)
    ensures forall x :: x in r ==> x in c
    ensures |r| > 0 ==> !IsSpace(r[0]) && !IsSpace(r[|r| - 1])
  {
    var a := CutGlued(c, InvoiceOrBillNo);
    var b := CutGlued(a, GstinWord);
    assert forall x :: x in b ==> x in a;
    Trim(b)
  }

  /** The vendor name: the first of the Vendor, Supplier and Company
      labels that matches, cut before a glued invoice/bill number label
      and a glued GSTIN label, then trimmed; "Not found" without a label. */
  function ExtractVendor(re: Regex, text: string): (r: string)
    ensures r != NotFound ==>
      (re(VendorLabel, text).Some? || re(SupplierLabel, text).Some? || re(CompanyLabel, text).Some?)
    ensures r != NotFound ==> forall i | 0 <= i < |r| :: VendorChar(r[i])
    ensures r != NotFound && |r| > 0 ==> !IsSpace(r[0]) && !IsSpace(r[|r| - 1])
    ensures VendorCapture(re, text).Some? ==> r == CleanVendor(VendorCapture(re, text).value)
    ensures VendorCapture(re, text).None? ==> r == NotFound
  {
    match VendorCapture(re, text)
    case None => NotFound
    case Some(c) =>
      CleanVendorChars(c);
      CleanVendor(c)
  }

  lemma CleanVendorChars(c: string)
    requires forall i | 0 <= i < |c| :: VendorChar(c[i])
    ensures var v := CleanVendor(c); forall i | 0 <= i < |v| :: VendorChar(v[i])
  {
    var v := CleanVendor(c);
    forall i | 0 <= i < |v| ensures VendorChar(v[i]) {
      assert v[i] in c;
    }
  }

  /** Cutting before the first glued label leaves none behind, when the
      text has no line terminators (a vendor capture never has). */
  lemma CutGluedRemovesLabel(s: string, l: GluedLabel, i: nat)
    requires forall j | 0 <= j < |s| :: !IsLineTerminator(s[j])
    ensures !GluedAt(CutGlued(s, l), i, l)
  {
    match FirstGluedFrom(s, l, 0)
    case None =>
    case Some(k) =>
      var r := s[..k];
      if i < k {
        GluedPrefix(s, k, i, l);
      }
  }

  /** A label found in a prefix is a label of the whole text. */
  lemma GluedPrefix(s: string, k: nat, i: nat, l: GluedLabel)
    requires i < k <= |s|
    requires forall j | 0 <= j < |s| :: !IsLineTerminator(s[j])
    requires !GluedAt(s, i, l)
    ensures !GluedAt(s[..k], i, l)
  {
    var p := s[..k];
    var rp := p[i..][SpaceRun(p[i..])..];
    var rs := s[i..][SpaceRun(s[i..])..];
    SpaceRunOfPrefix(s[i..], p[i..]);
    assert StartsWith(rs, rp) by {
      assert p[i..] == s[i..][..k - i];
    }
    if GluedAt(p, i, l) {
      StartsWithIgnoreCasePrefix(rs, rp, l);
    }
  }

  lemma StartsWithIgnoreCasePrefix(rs: string, rp: string, l: GluedLabel)
    requires StartsWith(rs, rp)
    ensures StartsWithIgnoreCase(rp, "invoice") && NoWordAfterSpaces(rp[7..])
      ==> StartsWithIgnoreCase(rs, "invoice") && NoWordAfterSpaces(rs[7..])
    ensures StartsWithIgnoreCase(rp, "bill") && NoWordAfterSpaces(rp[4..])
      ==> StartsWithIgnoreCase(rs, "bill") && NoWordAfterSpaces(rs[4..])
    ensures StartsWithIgnoreCase(rp, "gstin") ==> StartsWithIgnoreCase(rs, "gstin")
  {
    if |rp| >= 7 {
      NoWordPrefix(rs[7..], rp[7..]);
    }
    if |rp| >= 4 {
      NoWordPrefix(rs[4..], rp[4..]);
    }
  }

  lemma NoWordPrefix(rs: string, rp: string)
    requires StartsWith(rs, rp)
    ensures NoWordAfterSpaces(rp) ==> NoWordAfterSpaces(rs)
  {
    SpaceRunOfPrefix(rs, rp);
  }

  /** Within a prefix the leading `\s` run is the same, unless the prefix
      ends inside it. */
  lemma {:induction false} SpaceRunOfPrefix(s: string, p: string)
    requires StartsWith(s, p)
    ensures SpaceRun(p) <= SpaceRun(s)
    ensures SpaceRun(p) < |p| ==> SpaceRun(p) == SpaceRun(s)
    decreases |p|
  {
    if |p| > 0 && IsSpace(p[0]) {
      SpaceRunOfPrefix(s[1..], p[1..]);
    }
  }

  // ---------------------------------------------------------------------
  // Invoice number
  // ---------------------------------------------------------------------

  /** The capture of an "Invoice No" or "Bill No" label. */
  function InvoiceLabelCapture(re: Regex, text: string): (r: Option<string>)
    ensures r.Some? ==> Occurs(r.value, text) && AllChars(r.value, 3, 40, InvoiceNoChar)
    ensures r.Some? <==> re(InvoiceNoLabel, text).Some? || re(BillNoLabel, text).Some?
    ensures re(InvoiceNoLabel, text).Some? ==> r == Capture(re, InvoiceNoLabel, text, 1)
    ensures re(InvoiceNoLabel, text).None? ==> r == Capture(re, BillNoLabel, text, 1)
  {
    if re(InvoiceNoLabel, text).Some? then Capture(re, InvoiceNoLabel, text, 1)
    else Capture(re, BillNoLabel, text, 1)
  }

  /** The `INV…` code: its first three characters are letters. */
  lemma LooseInvoiceChars(c: string)
    requires LooseInvoiceShape(c, InvoiceNoChar)
    ensures AllChars(c, 3, |c|, InvoiceNoChar)
  {
    forall i | 0 <= i < 3 ensures InvoiceNoChar(c[i]) {
      assert Lower(c[..3])[i] == LowerChar(c[i]);
    }
  }

  /** The invoice number: an "Invoice No" or "Bill No" label, else (only
      then) an `INV…` code anywhere; "Not found" otherwise. */
  function ExtractInvoiceNo(re: Regex, text: string): (r: string)
    ensures r != NotFound ==>
      (Occurs(r, text) && |r| >= 3 && forall i | 0 <= i < |r| :: InvoiceNoChar(r[i]))
    ensures r == NotFound <==>
      re(InvoiceNoLabel, text).None? && re(BillNoLabel, text).None? && re(InvoiceNoLoose, text).None?
    ensures InvoiceLabelCapture(re, text).Some? ==> r == InvoiceLabelCapture(re, text).value
    ensures re(InvoiceNoLabel, text).None? && re(BillNoLabel, text).None? && re(InvoiceNoLoose, text).Some? ==>
      r == Capture(re, InvoiceNoLoose, text, 1).value
  {
    match InvoiceLabelCapture(re, text)
    case Some(c) =>
      NotPlaceholder(c);
      c
    case None =>
      match Capture(re, InvoiceNoLoose, text, 1)
      case Some(c) =>
        LooseInvoiceChars(c);
        NotPlaceholder(c);
        c
      case None => NotFound
  }

  /** The placeholder has a space in it, so no invoice number is it. */
  lemma NotPlaceholder(c: string)
    requires forall i | 0 <= i < |c| :: InvoiceNoChar(c[i])
    ensures c != NotFound
  {
    assert !InvoiceNoChar(NotFound[3]);
  }

  // ---------------------------------------------------------------------
  // Date
  // ---------------------------------------------------------------------

  /** The date text: after a "Date" label, else the first numeric or
      `DD Mon YYYY` date anywhere; "Not found" otherwise. */
  function ExtractDateText(re: Regex, text: string): (r: string)
    ensures r != NotFound ==>
      (Occurs(r, text) && (DateText.MatchDmy(r).Some? || DateText.MatchDayMonth(r, false).Some?))
  {
    match Capture(re, DateLabel, text, 1)
    case Some(c) => assert CaptureShape(DateLabel, 1, c); c
    case None =>
      match Whole(re, DateAnywhere, text)
      case Some(w) => assert CaptureShape(DateAnywhere, 1, w); w
      case None => NotFound
  }

  lemma MatchDmyNoSpace(s: string)
    requires DateText.MatchDmy(s).Some?
    ensures NoSpace(s)
  {
    var a := DigitRun(s);
    var rest := s[a + 1..];
    var b := DigitRun(rest);
    forall i | 0 <= i < |s| ensures !IsSpace(s[i]) {
      if i < a {
        assert IsDigit(s[..a][i]);
      } else if i == a {
      } else if i < a + 1 + b {
        assert s[i] == rest[..b][i - a - 1];
      } else if i == a + 1 + b {
        assert s[i] == rest[b];
      } else {
        assert s[i] == rest[b + 1..][i - a - 2 - b];
      }
    }
  }

  /** The short month layout is also a long month layout: with no extra
      letters after the abbreviation, `[a-z]*` matches nothing. */
  lemma DayMonthShortIsLong(s: string)
    requires DateText.MatchDayMonth(s, false).Some?
    ensures DateText.MatchDayMonth(s, true) == DateText.MatchDayMonth(s, false)
  {
    var a := DigitRun(s);
    var r := s[a..];
    var w := SpaceRun(r);
    var m := r[w..];
    assert IsSpace(m[3]);
    assert DateText.LetterRun(m[3..]) == 0;
  }

  lemma DayMonthUnpadded(s: string, longNames: bool)
    requires DateText.MatchDayMonth(s, longNames).Some?
    ensures |s| > 0 && !IsSpace(s[0]) && !IsSpace(s[|s| - 1])
  {
    DayMonthStartsWithDigit(s, longNames);
    DayMonthEndsInDigit(s, longNames);
    DigitNotSpace(s[0]);
    DigitNotSpace(s[|s| - 1]);
  }

  lemma DigitNotSpace(c: char)
    requires IsDigit(c)
    ensures !IsSpace(c)
  {
  }

  lemma DayMonthStartsWithDigit(s: string, longNames: bool)
    requires DateText.MatchDayMonth(s, longNames).Some?
    ensures |s| > 0 && IsDigit(s[0])
  {
    var a := DigitRun(s);
    assert IsDigit(s[..a][0]);
  }

  lemma DayMonthEndsInDigit(s: string, longNames: bool)
    requires DateText.MatchDayMonth(s, longNames).Some?
    ensures |s| > 0 && IsDigit(s[|s| - 1])
  {
    var a := DigitRun(s);
    var r := s[a..];
    var w := SpaceRun(r);
    var m := r[w..];
    var l := if longNames then DateText.LetterRun(m[3..]) else 0;
    var r2 := m[3 + l..];
    var w2 := SpaceRun(r2);
    var y := r2[w2..];
    assert IsDigit(y[3]) && r2[|r2| - 1] == y[3];
    assert m[|m| - 1] == r2[|r2| - 1];
    assert r[|r| - 1] == m[|m| - 1];
    assert s[|s| - 1] == r[|r| - 1];
  }

  lemma NumericDateParses(s: string, platformParse: string -> Option<InvoiceDate.Date>)
    requires s != NotFound && DateText.MatchDmy(s).Some?
    ensures InvoiceDate.ParseInvoiceDate(s, platformParse) == InvoiceDate.ParseInvoiceDate(s, _ => None)
  {
    MatchDmyNoSpace(s);
    assert Trim(s) == s;
  }

  /** A date text of either layout is read by `parseInvoiceDate`'s own
      layouts, never by the platform fallback. */
  lemma DateTextParses(s: string, platformParse: string -> Option<InvoiceDate.Date>)
    requires s != NotFound
    requires DateText.MatchDmy(s).Some? || DateText.MatchDayMonth(s, false).Some?
    ensures var r := InvoiceDate.ParseInvoiceDate(s, platformParse);
      r.Some? && InvoiceDate.Valid(r.value)
      && r == InvoiceDate.ParseInvoiceDate(s, _ => None)
  {
    if DateText.MatchDmy(s).Some? {
      MatchDmyNoSpace(s);
      assert Trim(s) == s;
      NumericDateParses(s, platformParse);
    } else {
      DayMonthUnpadded(s, false);
      assert Trim(s) == s;
      DayMonthShortIsLong(s);
      var (d, mon, y) := DateText.MatchDayMonth(s, true).value;
      var k := DateText.MonthIndex(Lower(mon));
      assert k.Some?;
      var date := InvoiceDate.NewDate(JsNumber.DigitsValue(y), k.value, JsNumber.DigitsValue(d));
      assert InvoiceDate.ParseInvoiceDate(s, platformParse) == Some(date);
      assert InvoiceDate.ParseInvoiceDate(s, _ => None) == Some(date);
    }
  }

  /** Whatever date text the upload route finds is read without the
      platform parser: the stored `invoiceDate` is always a valid date when
      a date text was found. */
  lemma FoundDateParses(re: Regex, text: string, platformParse: string -> Option<InvoiceDate.Date>)
    requires ExtractDateText(re, text) != NotFound
    ensures var r := InvoiceDate.ParseInvoiceDate(ExtractDateText(re, text), platformParse);
      r.Some? && InvoiceDate.Valid(r.value)
      && r == InvoiceDate.ParseInvoiceDate(ExtractDateText(re, text), _ => None)
  {
    DateTextParses(ExtractDateText(re, text), platformParse);
  }

  // ---------------------------------------------------------------------
  // GSTIN
  // ---------------------------------------------------------------------

  /** The GSTIN on the invoice: after a "GSTIN" label (any case), else the
      first unlabelled upper-case GSTIN; "Not found" otherwise. */
  function ExtractGstin(re: Regex, text: string): (r: string)
    ensures r != NotFound ==> Gstin.GstinShape(Upper(r)) && Occurs(r, text)
    ensures r == NotFound <==> re(GstinLabel, text).None? && Gstin.AllStrict(text) == []
    ensures re(GstinLabel, text).Some? ==> r == Capture(re, GstinLabel, text, 1).value
    ensures re(GstinLabel, text).None? && |Gstin.FirstStrict(text)| == 1 ==> r == Gstin.FirstStrict(text)[0]
  {
    match Capture(re, GstinLabel, text, 1)
    case Some(c) =>
      GstinNotPlaceholder(c);
      c
    case None =>
      var s := Gstin.FirstStrict(text);
      if |s| == 1 then
        UpperOfUpperShape(s[0]);
        GstinNotPlaceholder(s[0]);
        s[0]
      else NotFound
  }

  lemma UpperOfUpperShape(t: string)
    requires Gstin.GstinShape(t)
    ensures Upper(t) == t
  {
  }

  lemma GstinNotPlaceholder(c: string)
    requires Gstin.GstinShape(Upper(c))
    ensures c != NotFound
  {
    assert IsDigit(Upper(c)[0]);
    assert Upper(NotFound)[0] == 'N';
  }
}
