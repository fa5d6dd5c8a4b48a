/** `extractFromText` of frontend/app/voice-entry/page.tsx (lines 31-164):
    invoice fields read from dictated text, and the list of fields still
    missing. The regular expressions are the `Patterns` oracle. */
module VoiceEntry {
  import opened JsText
  import opened JsNumber
  import opened Optional
  import opened Patterns
  import Gstin
  import Fields

  /** The fields read; a field the text does not give is `None`. */
  datatype SpokenFields = SpokenFields(
    vendor: Option<string>,
    invoiceNo: Option<string>,
    date: Option<string>,
    gstin: Option<string>,
    hsn: Option<string>,
    total: Option<real>,
    gstRate: Option<real>)

  /** The fields, in the order the missing list names them. */
  datatype Field = Vendor | InvoiceNo | Date | GstinField | Hsn | Total | GstRate

  /** `m1 || m2`: the first pattern's match if it has one. */
  function FirstOf(re: Regex, p: Pat, q: Pat, text: string): (r: Option<string>)
    requires GroupCount(p) == 1 && GroupCount(q) == 1
    ensures re(p, text).Some? ==> r == Capture(re, p, text, 1)
    ensures re(p, text).None? ==> r == Capture(re, q, text, 1)
    ensures r.Some? ==> Occurs(r.value, text)
    ensures r.Some? ==> CaptureShape(p, 1, r.value) || CaptureShape(q, 1, r.value)
  {
    if re(p, text).Some? then Capture(re, p, text, 1) else Capture(re, q, text, 1)
  }

  // ---------------------------------------------------------------------
  // Vendor, invoice number, date (lines 41-84)
  // ---------------------------------------------------------------------

  /** "vendor …" or else "from …", trimmed. A capture of nothing but
      spaces leaves an empty vendor, which the missing list reports. */
  function VendorOf(re: Regex, text: string): (r: Option<string>)
    ensures r.Some? <==> re(SpokenVendor, text).Some? || re(SpokenFrom, text).Some?
    ensures r.Some? ==> forall i | 0 <= i < |r.value| :: SpokenVendorChar(r.value[i])
    ensures r.Some? && |r.value| > 0 ==> !IsSpace(r.value[0]) && !IsSpace(r.value[|r.value| - 1])
    ensures re(SpokenVendor, text).Some? ==> r == Some(Trim(Capture(re, SpokenVendor, text, 1).value))
    ensures re(SpokenVendor, text).None? && re(SpokenFrom, text).Some? ==>
      r == Some(Trim(Capture(re, SpokenFrom, text, 1).value))
  {
    match FirstOf(re, SpokenVendor, SpokenFrom, text)
    case None => None
    case Some(c) =>
      VendorCaptureTrimmed(c);
      Some(Trim(c))
  }

  /** A spoken vendor capture, trimmed, keeps only the vendor characters. */
  lemma VendorCaptureTrimmed(c: string)
    requires CaptureShape(SpokenVendor, 1, c) || CaptureShape(SpokenFrom, 1, c)
    ensures forall i | 0 <= i < |Trim(c)| :: SpokenVendorChar(Trim(c)[i])
  {
    var v := Trim(c);
    assert forall i | 0 <= i < |c| :: SpokenVendorChar(c[i]);
    forall i | 0 <= i < |v| ensures SpokenVendorChar(v[i]) {
      assert v[i] in c;
    }
  }

  /** The labelled invoice number ("invoice number …", else "bill no …")
      with its white space removed; only when neither label occurs, the
      loose "INV…" token. */
  function InvoiceNoOf(re: Regex, text: string): (r: Option<string>)
    ensures r.Some? ==> NoSpace(r.value)
    ensures r.Some? ==> forall i | 0 <= i < |r.value| :: InvoiceNoChar(r.value[i])
    ensures (re(SpokenInvoiceLabel, text).Some? || re(SpokenBillLabel, text).Some?) ==>
      r == Some(RemoveSpaces(FirstOf(re, SpokenInvoiceLabel, SpokenBillLabel, text).value))
    ensures re(SpokenInvoiceLabel, text).None? && re(SpokenBillLabel, text).None? && re(SpokenInvoiceLoose, text).Some? ==>
      r == Some(RemoveSpaces(Capture(re, SpokenInvoiceLoose, text, 1).value))
    ensures r.None? <==>
      re(SpokenInvoiceLabel, text).None? && re(SpokenBillLabel, text).None? && re(SpokenInvoiceLoose, text).None?
  {
    match FirstOf(re, SpokenInvoiceLabel, SpokenBillLabel, text)
    case Some(c) =>
      InvoiceCaptureChars(c);
      Some(CompactInvoiceNo(c))
    case None =>
      match Capture(re, SpokenInvoiceLoose, text, 1)
      case Some(c) =>
        InvoiceCaptureChars(c);
        Some(CompactInvoiceNo(c))
      case None => None
  }

  /** Every spoken invoice-number capture is made of invoice-number
      characters and spaces. */
  lemma InvoiceCaptureChars(c: string)
    requires || CaptureShape(SpokenInvoiceLabel, 1, c) || CaptureShape(SpokenBillLabel, 1, c)
             || CaptureShape(SpokenInvoiceLoose, 1, c)
    ensures forall i | 0 <= i < |c| :: SpokenInvoiceNoChar(c[i])
  {
  }

  /** An invoice number's characters with the spaces taken out. */
  function CompactInvoiceNo(c: string): (r: string)
    requires forall i | 0 <= i < |c| :: SpokenInvoiceNoChar(c[i])
    ensures r == RemoveSpaces(c)
    ensures forall i | 0 <= i < |r| :: InvoiceNoChar(r[i])
  {
    var r := RemoveSpaces(c);
    assert forall i | 0 <= i < |r| :: InvoiceNoChar(r[i]) by {
      forall i | 0 <= i < |r| ensures InvoiceNoChar(r[i]) {
        assert r[i] in c;
        var j :| 0 <= j < |c| && c[j] == r[i];
        assert SpokenInvoiceNoChar(c[j]);
        assert !IsSpace(r[i]) && r[i] != ' ';
      }
    }
    r
  }

  /** "date DD/MM/YY(YY)", else "date D Mon(th) YYYY", else a bare
      DD/MM/YY(YY) anywhere. */
  function DateOf(re: Regex, text: string): (r: Option<string>)
    ensures r.Some? ==> DateText.MatchDmy(r.value).Some? || DateText.MatchDayMonth(r.value, true).Some?
    ensures r.None? <==>
      re(SpokenDateLabel, text).None? && re(SpokenDateMonth, text).None? && re(SpokenDateBare, text).None?
    ensures re(SpokenDateLabel, text).Some? ==> r == Capture(re, SpokenDateLabel, text, 1)
    ensures re(SpokenDateLabel, text).None? && re(SpokenDateMonth, text).Some? ==>
      r == Capture(re, SpokenDateMonth, text, 1)
    ensures re(SpokenDateLabel, text).None? && re(SpokenDateMonth, text).None? ==>
      r == Capture(re, SpokenDateBare, text, 1)
  {
    var c :=
      if re(SpokenDateLabel, text).Some? then Capture(re, SpokenDateLabel, text, 1)
      else if re(SpokenDateMonth, text).Some? then Capture(re, SpokenDateMonth, text, 1)
      else Capture(re, SpokenDateBare, text, 1);
    match c
    case None => None
    case Some(d) =>
      DateCaptureTrimmed(d);
      Some(Trim(d))
  }

  /** A spoken date capture has a date shape, which trimming keeps. */
  lemma DateCaptureTrimmed(d: string)
    ensures DateCapture(d) ==> DateText.MatchDmy(d).Some? || DateText.MatchDayMonth(d, true).Some?
    ensures DateCapture(d) ==> Trim(d) == d
  {
    DateCaptureShape(d);
    DateShapeUnpadded(d);
  }

  /** The shape of a capture of one of the three date patterns. */
  predicate DateCapture(d: string) {
    || CaptureShape(SpokenDateLabel, 1, d) || CaptureShape(SpokenDateMonth, 1, d)
    || CaptureShape(SpokenDateBare, 1, d)
  }

  lemma DateCaptureShape(d: string)
    ensures DateCapture(d) ==> DateText.MatchDmy(d).Some? || DateText.MatchDayMonth(d, true).Some?
  {
  }

  /** A date shape starts and ends with a digit, so trimming keeps it. */
  lemma DateShapeUnpadded(d: string)
    ensures DateText.MatchDmy(d).Some? || DateText.MatchDayMonth(d, true).Some? ==> Trim(d) == d
  {
    if DateText.MatchDmy(d).Some? {
      Fields.MatchDmyNoSpace(d);
    } else if DateText.MatchDayMonth(d, true).Some? {
      Fields.DayMonthUnpadded(d, true);
    }
  }

  // ---------------------------------------------------------------------
  // GSTIN (lines 88-108)
  // ---------------------------------------------------------------------

  /** When the labelled block ("gstin …" or "g s t i n …") occurs, its
      characters without spaces, upper-cased, if they have the loose shape,
      and nothing otherwise; only when there is no block, the first match
      written out in one piece, upper-cased. (The block's second
      alternative has no second group, so a match of it also falls through
      to the scan.) `full` picks the loose shape as written or as
      intended. */
  function ReadGstin(re: Regex, text: string, full: bool): (r: Option<string>)
    ensures r.Some? ==> Gstin.LooseShape(r.value, full) && NoSpace(r.value)
    ensures re(SpokenGstinBlock, text).Some? ==>
      var c := Upper(RemoveSpaces(SpokenBlock(re, text).value));
      r == (if Gstin.LooseShape(c, full) then Some(c) else None)
    ensures re(SpokenGstinBlock, text).None? ==>
      (r.Some? <==> exists j | 0 <= j :: Gstin.SpokenAt(text, j, full))
    ensures re(SpokenGstinBlock, text).None? && r.Some? ==>
      exists j | 0 <= j :: Gstin.SpokenAt(text, j, full) && r.value == Upper(text[j..j + Gstin.LooseWidth(full)])
    ensures re(SpokenGstinBlock, text).None? ==>
      forall j | 0 <= j && Gstin.SpokenAt(text, j, full) && (forall k | 0 <= k < j :: !Gstin.SpokenAt(text, k, full)) ::
        r == Some(Upper(text[j..j + Gstin.LooseWidth(full)]))
  {
    match SpokenBlock(re, text)
    case Some(block) => BlockGstin(block, full)
    case None => ScannedGstin(text, full)
  }

  /** The characters after a spoken "GSTIN" label, when the label is there. */
  function SpokenBlock(re: Regex, text: string): (r: Option<string>)
    ensures r.Some? <==> re(SpokenGstinBlock, text).Some?
    ensures r.Some? ==> Occurs(r.value, text)
  {
    Capture(re, SpokenGstinBlock, text, 2)
  }

  /** The labelled block read as a GSTIN. */
  function BlockGstin(block: string, full: bool): (r: Option<string>)
    ensures r.Some? ==> Gstin.LooseShape(r.value, full) && NoSpace(r.value)
    ensures var c := Upper(RemoveSpaces(block));
      r == (if Gstin.LooseShape(c, full) then Some(c) else None)
  {
    var c := Upper(RemoveSpaces(block));
    if Gstin.LooseShape(c, full) then
      Gstin.LooseShapeWordChars(c, full);
      Some(c)
    else None
  }

  /** The first GSTIN-shaped word of the text, upper-cased. */
  function ScannedGstin(text: string, full: bool): (r: Option<string>)
    ensures r.Some? ==> Gstin.LooseShape(r.value, full) && NoSpace(r.value)
    ensures r.Some? <==> exists j | 0 <= j :: Gstin.SpokenAt(text, j, full)
    ensures r.Some? ==>
      exists j | 0 <= j :: Gstin.SpokenAt(text, j, full) && r.value == Upper(text[j..j + Gstin.LooseWidth(full)])
    ensures forall j | 0 <= j && Gstin.SpokenAt(text, j, full) && (forall k | 0 <= k < j :: !Gstin.SpokenAt(text, k, full)) ::
      r == Some(Upper(text[j..j + Gstin.LooseWidth(full)]))
  {
    Gstin.FirstSpokenFromFinds(text, 0, full);
    Gstin.FirstSpokenIsLeftmost(text, full);
    var found := Gstin.FirstSpokenFrom(text, 0, full);
    if |found| == 1 then
      var g := Upper(found[0]);
      Gstin.LooseShapeWordChars(g, full);
      Some(g)
    else None
  }

  /** The GSTIN as the page reads it: only fourteen-character strings are
      accepted, so never a GSTIN. */
  function GstinAsWritten(re: Regex, text: string): (r: Option<string>)
    ensures r.Some? ==> Gstin.SpokenGstinShape(r.value) && |r.value| == 14
    ensures r.Some? ==> !Gstin.GstinShape(r.value)
  {
    ReadGstin(re, text, false)
  }

  /** The GSTIN as intended: fifteen characters of the loose shape. */
  function GstinOf(re: Regex, text: string): (r: Option<string>)
    ensures r.Some? ==> Gstin.FullSpokenGstinShape(r.value) && |r.value| == 15
  {
    ReadGstin(re, text, true)
  }

  /** Saying a GSTIN after its label loses it as written, and keeps it as
      intended, whatever engine reads the text. */
  lemma LabelledGstinIsLost(re: Regex, text: string)
    requires Capture(re, SpokenGstinBlock, text, 2).Some?
    requires Gstin.GstinShape(Upper(RemoveSpaces(Capture(re, SpokenGstinBlock, text, 2).value)))
    ensures GstinAsWritten(re, text).None?
    ensures GstinOf(re, text) == Some(Upper(RemoveSpaces(Capture(re, SpokenGstinBlock, text, 2).value)))
  {
    Gstin.StrictIsFullSpoken(Upper(RemoveSpaces(Capture(re, SpokenGstinBlock, text, 2).value)));
  }

  /** A text that is one GSTIN and no label: lost as written, read as
      intended. */
  lemma BareGstinIsLost(re: Regex, g: string)
    requires Gstin.GstinShape(g) && re(SpokenGstinBlock, g).None?
    ensures GstinAsWritten(re, g).None?
    ensures GstinOf(re, g) == Some(g)
  {
    assert g[0..15] == g;
    assert Gstin.StrictAt(g, 0);
    Gstin.StrictAtIsSpoken(g, 0);
    assert !Gstin.SpokenAt(g, 1, false) by {
      assert IsWordChar(g[0]);
    }
    assert forall j | 0 <= j :: !Gstin.SpokenAt(g, j, false) by {
      forall j | 0 <= j ensures !Gstin.SpokenAt(g, j, false) {
        if j >= 2 {
          assert j + 14 > |g|;
        }
      }
    }
    assert Upper(g) == g;
    assert Gstin.FirstSpokenFrom(g, 0, true) == [g];
  }

  // ---------------------------------------------------------------------
  // HSN, total, rate (lines 111-151)
  // ---------------------------------------------------------------------

  /** "hsn (code) NNNN", else "hsn NNNN" between word boundaries. */
  function HsnOf(re: Regex, text: string): (r: Option<string>)
    ensures r.Some? ==> HsnShape(r.value) && Occurs(r.value, text)
    ensures r.None? <==> re(SpokenHsnLabel, text).None? && re(SpokenHsnBare, text).None?
    ensures re(SpokenHsnLabel, text).Some? ==> r == Capture(re, SpokenHsnLabel, text, 1)
    ensures re(SpokenHsnLabel, text).None? ==> r == Capture(re, SpokenHsnBare, text, 1)
  {
    match FirstOf(re, SpokenHsnLabel, SpokenHsnBare, text)
    case None => None
    case Some(c) =>
      HsnCaptureTrimmed(c);
      Some(Trim(c))
  }

  /** A spoken HSN capture is a code of digits, which trimming keeps. */
  lemma HsnCaptureTrimmed(c: string)
    requires CaptureShape(SpokenHsnLabel, 1, c) || CaptureShape(SpokenHsnBare, 1, c)
    ensures HsnShape(c) && Trim(c) == c
  {
    assert HsnShape(c);
    assert NoSpace(c);
  }

  /** The amount, commas removed, kept when it is a positive number. */
  function PositiveAmount(numStr: string): (r: Option<real>)
    ensures r.Some? ==> r.value > 0.0 && ParseJsNumber(Remove(numStr, ',')) == Fin(r.value)
    ensures r.None? <==> !ParseJsNumber(Remove(numStr, ',')).Positive()
  {
    var n := ParseJsNumber(Remove(numStr, ','));
    if n.Positive() then Some(n.val) else None
  }

  /** The total as the page computes it: `(m[2] || m[1])` of "total …
      amount" or else of "rupees amount … total". In the second pattern
      group 2 is the keyword, so the text read is "total", "invoice" or
      "amount" and never a number. */
  function TotalAsWritten(re: Regex, text: string): (r: Option<real>)
    ensures re(SpokenTotalLabel, text).None? ==> r.None?
  {
    match re(SpokenTotalLabel, text)
    case Some(_) => PositiveAmount(Capture(re, SpokenTotalLabel, text, 2).value)
    case None =>
      match re(SpokenTotalRupees, text)
      case Some(_) =>
        var keyword := Capture(re, SpokenTotalRupees, text, 2).value;
        KeywordIsNaN(keyword);
        PositiveAmount(keyword)
      case None => None
  }

  /** A keyword of letters is not a number. */
  lemma KeywordIsNaN(w: string)
    requires Lower(w) == "total" || Lower(w) == "invoice" || Lower(w) == "amount"
    ensures !ParseJsNumber(Remove(w, ',')).Positive()
  {
    KeywordLetters(w);
    LettersAreNaN(w);
  }

  lemma KeywordLetters(w: string)
    requires Lower(w) == "total" || Lower(w) == "invoice" || Lower(w) == "amount"
    ensures |w| > 0 && forall i | 0 <= i < |w| :: IsLetter(w[i])
  {
    var k := Lower(w);
    assert forall i | 0 <= i < |k| :: IsLower(k[i]);
    forall i | 0 <= i < |w| ensures IsLetter(w[i]) {
      assert k[i] == LowerChar(w[i]);
    }
  }

  /** `Number` of a word of letters is `NaN`. */
  lemma LettersAreNaN(w: string)
    requires |w| > 0 && forall i | 0 <= i < |w| :: IsLetter(w[i])
    ensures ParseJsNumber(Remove(w, ',')) == NaN
  {
    assert ',' !in w;
    assert NoSpace(w);
    assert Trim(w) == w;
    assert DigitRun(w) == 0;
  }

  /** The total as intended: the amount group of whichever pattern
      matched (group 2 of the first, group 1 of the second). */
  function TotalOf(re: Regex, text: string): (r: Option<real>)
    ensures r.Some? ==> r.value > 0.0
    ensures re(SpokenTotalLabel, text).Some? ==>
      r == PositiveAmount(Capture(re, SpokenTotalLabel, text, 2).value)
    ensures re(SpokenTotalLabel, text).None? && re(SpokenTotalRupees, text).Some? ==>
      r == PositiveAmount(Capture(re, SpokenTotalRupees, text, 1).value)
    ensures re(SpokenTotalLabel, text).None? && re(SpokenTotalRupees, text).None? ==> r.None?
  {
    match re(SpokenTotalLabel, text)
    case Some(_) => PositiveAmount(Capture(re, SpokenTotalLabel, text, 2).value)
    case None =>
      match re(SpokenTotalRupees, text)
      case Some(_) => PositiveAmount(Capture(re, SpokenTotalRupees, text, 1).value)
      case None => None
  }

  /** "gst rate N%", else "N percent": the rate, always a number below 100
      since the pattern allows two digits before the point. */
  function RateOf(re: Regex, text: string): (r: Option<real>)
    ensures r.Some? ==> 0.0 <= r.value < 100.0
    ensures r.None? <==> re(SpokenRateLabel, text).None? && re(SpokenRatePercent, text).None?
    ensures r.Some? ==> exists c | RateShape(c) :: ParseJsNumber(c) == Fin(r.value)
    ensures re(SpokenRateLabel, text).Some? ==>
      r.Some? && ParseJsNumber(Capture(re, SpokenRateLabel, text, 1).value) == Fin(r.value)
    ensures re(SpokenRateLabel, text).None? && re(SpokenRatePercent, text).Some? ==>
      r.Some? && ParseJsNumber(Capture(re, SpokenRatePercent, text, 1).value) == Fin(r.value)
  {
    match FirstOf(re, SpokenRateLabel, SpokenRatePercent, text)
    case None => None
    case Some(c) =>
      RateValue(c);
      Some(ParseJsNumber(c).val)
  }

  /** `Number` reads a rate-shaped string as a number below 100. */
  lemma RateValue(c: string)
    requires RateShape(c)
    ensures ParseJsNumber(c).Fin? && 0.0 <= ParseJsNumber(c).val < 100.0
  {
    var n := DigitRun(c);
    assert NoSpace(c) by {
      forall i | 0 <= i < |c| ensures !IsSpace(c[i]) {
        if i < n { assert c[..n][i] == c[i]; }
        else if i > n { assert c[n + 1..][i - n - 1] == c[i]; }
      }
    }
    assert Trim(c) == c;
    assert c[0] == c[..n][0];
    DigitsValueBound(c[..n]);
    assert Pow10(n) <= 100 by {
      assert Pow10(1) == 10;
      assert Pow10(2) == 100;
    }
    if n == |c| {
      assert c[..n] == c;
    } else {
      var rest := c[n + 1..];
      DigitRunAll(rest);
    }
  }

  // ---------------------------------------------------------------------
  // The missing list (lines 154-161)
  // ---------------------------------------------------------------------

  /** A field is missing when it is absent or (for the text fields) empty;
      a total or rate of 0 is present. */
  predicate Absent(f: SpokenFields, which: Field) {
    match which
    case Vendor => f.vendor.None? || f.vendor.value == ""
    case InvoiceNo => f.invoiceNo.None? || f.invoiceNo.value == ""
    case Date => f.date.None? || f.date.value == ""
    case GstinField => f.gstin.None? || f.gstin.value == ""
    case Hsn => f.hsn.None? || f.hsn.value == ""
    case Total => f.total.None?
    case GstRate => f.gstRate.None?
  }

  function Ordinal(which: Field): nat {
    match which
    case Vendor => 0
    case InvoiceNo => 1
    case Date => 2
    case GstinField => 3
    case Hsn => 4
    case Total => 5
    case GstRate => 6
  }

  /** The fields in the order the page checks them. */
  const AllFields: seq<Field> := [Vendor, InvoiceNo, Date, GstinField, Hsn, Total, GstRate]

  predicate Increasing(ws: seq<Field>) {
    forall i, j | 0 <= i < j < |ws| :: Ordinal(ws[i]) < Ordinal(ws[j])
  }

  /** The checks of `ws`, in order: each absent field is pushed. */
  function Checks(f: SpokenFields, ws: seq<Field>): (r: seq<Field>)
    requires Increasing(ws)
    ensures forall w :: w in r <==> w in ws && Absent(f, w)
    ensures Increasing(r)
    decreases |ws|
  {
    if ws == [] then []
    else
      var rest := Checks(f, ws[1..]);
      assert forall i | 0 <= i < |rest| :: Ordinal(ws[0]) < Ordinal(rest[i]) by {
        forall i | 0 <= i < |rest| ensures Ordinal(ws[0]) < Ordinal(rest[i]) {
          assert rest[i] in ws[1..];
          var k :| 0 <= k < |ws[1..]| && ws[1..][k] == rest[i];
          assert ws[k + 1] == rest[i];
        }
      }
      (if Absent(f, ws[0]) then [ws[0]] else []) + rest
  }

  /** The seven checks in order. The list names exactly the absent
      fields, each once, in the fixed order of the form. */
  function Missing(f: SpokenFields): (r: seq<Field>)
    ensures forall w :: w in r <==> Absent(f, w)
    ensures forall i, j | 0 <= i < j < |r| :: Ordinal(r[i]) < Ordinal(r[j])
  {
    assert forall w :: w in AllFields by {
      forall w ensures w in AllFields {
        assert AllFields[Ordinal(w)] == w;
      }
    }
    AllFieldsIncreasing();
    Checks(f, AllFields)
  }

  lemma AllFieldsIncreasing()
    ensures Increasing(AllFields)
  {
    assert forall i | 0 <= i < |AllFields| :: Ordinal(AllFields[i]) == i;
  }

  /** `extractFromText`, with the total and the GSTIN read as intended
      (`TotalOf` and `GstinOf`, not `TotalAsWritten` and `GstinAsWritten`). */
  function ExtractFromText(re: Regex, text: string): (r: (SpokenFields, seq<Field>))
    ensures r.1 == Missing(r.0)
    ensures r.0.vendor == VendorOf(re, text) && r.0.invoiceNo == InvoiceNoOf(re, text) && r.0.date == DateOf(re, text)
    ensures r.0.total == TotalOf(re, text) && r.0.gstRate == RateOf(re, text)
    ensures r.0.gstin == GstinOf(re, text) && r.0.hsn == HsnOf(re, text)
  {
    var f := SpokenFields(
      VendorOf(re, text), InvoiceNoOf(re, text), DateOf(re, text), GstinOf(re, text),
      HsnOf(re, text), TotalOf(re, text), RateOf(re, text));
    (f, Missing(f))
  }

  /** Nothing said: every field is reported missing, in the form's order. */
  lemma NothingSaidAllMissing(re: Regex)
    ensures ExtractFromText(re, "").1 == AllFields
  {
    var f := ExtractFromText(re, "").0;
    NothingSaidAllAbsent(re, "");
    AllFieldsIncreasing();
    ChecksAllAbsent(f, AllFields);
  }

  lemma NothingSaidAllAbsent(re: Regex, text: string)
    requires |text| == 0
    ensures forall w :: Absent(ExtractFromText(re, text).0, w)
  {
    var f := ExtractFromText(re, text).0;
    EmptyTextFieldsAbsent(re, text);
  }

  lemma EmptyTextFieldsAbsent(re: Regex, text: string)
    requires |text| == 0
    ensures var f := ExtractFromText(re, text).0;
      && f.vendor.None? && f.invoiceNo.None? && f.date.None? && f.gstin.None?
      && f.hsn.None? && f.total.None? && f.gstRate.None?
  {
    EmptyVendor(re, text);
    EmptyInvoiceNo(re, text);
    EmptyDate(re, text);
    EmptyGstin(re, text);
    EmptyHsn(re, text);
    EmptyTotal(re, text);
    EmptyRate(re, text);
  }

  lemma EmptyVendor(re: Regex, text: string)
    requires |text| == 0
    ensures VendorOf(re, text).None?
  {
    NoMatchInEmpty(re, SpokenVendor, text);
    NoMatchInEmpty(re, SpokenFrom, text);
  }

  lemma EmptyInvoiceNo(re: Regex, text: string)
    requires |text| == 0
    ensures InvoiceNoOf(re, text).None?
  {
    NoMatchInEmpty(re, SpokenInvoiceLabel, text);
    NoMatchInEmpty(re, SpokenBillLabel, text);
    NoMatchInEmpty(re, SpokenInvoiceLoose, text);
  }

  lemma EmptyDate(re: Regex, text: string)
    requires |text| == 0
    ensures DateOf(re, text).None?
  {
    NoMatchInEmpty(re, SpokenDateLabel, text);
    NoMatchInEmpty(re, SpokenDateMonth, text);
    NoMatchInEmpty(re, SpokenDateBare, text);
  }

  lemma EmptyGstin(re: Regex, text: string)
    requires |text| == 0
    ensures GstinOf(re, text).None?
  {
    NoMatchInEmpty(re, SpokenGstinBlock, text);
    assert Gstin.FirstSpokenFrom(text, 0, true) == [];
  }

  lemma EmptyHsn(re: Regex, text: string)
    requires |text| == 0
    ensures HsnOf(re, text).None?
  {
    NoMatchInEmpty(re, SpokenHsnLabel, text);
    NoMatchInEmpty(re, SpokenHsnBare, text);
  }

  lemma EmptyTotal(re: Regex, text: string)
    requires |text| == 0
    ensures TotalOf(re, text).None?
  {
    NoMatchInEmpty(re, SpokenTotalLabel, text);
    NoMatchInEmpty(re, SpokenTotalRupees, text);
  }

  lemma EmptyRate(re: Regex, text: string)
    requires |text| == 0
    ensures RateOf(re, text).None?
  {
    NoMatchInEmpty(re, SpokenRateLabel, text);
    NoMatchInEmpty(re, SpokenRatePercent, text);
  }

  lemma {:induction false} ChecksAllAbsent(f: SpokenFields, ws: seq<Field>)
    requires Increasing(ws)
    requires forall w | w in ws :: Absent(f, w)
    ensures Checks(f, ws) == ws
    decreases |ws|
  {
    if ws != [] {
      assert Increasing(ws[1..]);
      ChecksAllAbsent(f, ws[1..]);
      assert ws == [ws[0]] + ws[1..];
    }
  }

  // ---------------------------------------------------------------------
  // The "rupees … total" order loses the total
  // ---------------------------------------------------------------------

  const RupeesFirst: string := "rupees 500 total"

  /** An engine that answers the second total pattern on `RupeesFirst` as
      a real engine does, and finds nothing else. */
  function RupeesFirstEngine(p: Pat, t: string): Option<seq<string>> {
    if p == SpokenTotalRupees && t == RupeesFirst then Some([RupeesFirst, "500", "total"]) else None
  }

  lemma RupeesFirstEngineSound()
    ensures forall p, t :: Sound(p, t, RupeesFirstEngine(p, t))
  {
    RupeesFirstAnswerSound();
  }

  function RupeesFirstRegex(): (re: Regex)
    ensures re(SpokenTotalLabel, RupeesFirst).None?
    ensures re(SpokenTotalRupees, RupeesFirst) == Some([RupeesFirst, "500", "total"])
  {
    RupeesFirstEngineSound();
    RupeesFirstEngine
  }

  lemma RupeesFirstAnswerSound()
    ensures Sound(SpokenTotalRupees, RupeesFirst, Some([RupeesFirst, "500", "total"]))
  {
    RupeesFirstPieces();
    FiveHundredShape();
    TotalKeywordLower();
    RupeesAnswerSound(RupeesFirst, RupeesFirst, "500", "total");
  }

  lemma RupeesFirstPieces()
    ensures Occurs(RupeesFirst, RupeesFirst) && Occurs("500", RupeesFirst) && Occurs("total", RupeesFirst)
  {
    var t := RupeesFirst;
    OccursSlice(t, 0, 16);
    OccursSlice(t, 7, 10);
    OccursSlice(t, 11, 16);
    assert t[0..16] == RupeesFirst;
    assert t[7..10] == "500";
    assert t[11..16] == "total";
  }

  lemma TotalKeywordLower()
    ensures Lower("total") == "total"
  {
    LowerOfLower("total");
  }

  lemma FiveHundredShape()
    ensures AmountShape("500")
  {
    assert DigitCommaRun("500") == 3 by {
      assert "500"[1..] == "00" && "00"[1..] == "0" && "0"[1..] == "";
    }
  }

  /** The conditions on an answer to the second total pattern. */
  lemma RupeesAnswerSound(t: string, whole: string, amount: string, keyword: string)
    requires |whole| > 0 && Occurs(whole, t) && Occurs(amount, t) && Occurs(keyword, t)
    requires AmountShape(amount) && Lower(keyword) == "total"
    ensures Sound(SpokenTotalRupees, t, Some([whole, amount, keyword]))
  {
  }

  /** A positive run of digits is read as its value. */
  lemma PositiveDigits(s: string)
    requires |s| > 0 && AllDigits(s) && DigitsValue(s) > 0
    ensures PositiveAmount(s) == Some(DigitsValue(s) as real)
  {
    assert ',' !in s;
    ParseJsNumberOfDigits(s);
  }

  /** Saying "rupees 500 total" gives no total as written, and 500 as
      intended. */
  lemma RupeesFirstTotalIsLost()
    ensures TotalAsWritten(RupeesFirstRegex(), RupeesFirst).None?
    ensures TotalOf(RupeesFirstRegex(), RupeesFirst) == Some(500.0)
  {
    RupeesFirstTotalRead();
  }

  lemma RupeesFirstTotalRead()
    ensures TotalOf(RupeesFirstRegex(), RupeesFirst) == Some(500.0)
  {
    RupeesFirstCapture();
    FiveHundred();
  }

  lemma RupeesFirstCapture()
    ensures var re := RupeesFirstRegex();
      && re(SpokenTotalLabel, RupeesFirst).None? && re(SpokenTotalRupees, RupeesFirst).Some?
      && Capture(re, SpokenTotalRupees, RupeesFirst, 1) == Some("500")
  {
  }

  lemma FiveHundred()
    ensures PositiveAmount("500") == Some(500.0)
  {
    assert DigitsValue("500") == 500 by {
      assert "500"[..2] == "50" && "50"[..1] == "5";
    }
    PositiveDigits("500");
  }
}
