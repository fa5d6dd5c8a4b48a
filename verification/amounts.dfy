/** The money and rate extractors of backend/routes/parse.js:
    `extractTotal` (lines 33-62), `detectGSTRate` (65-87) and the four
    component readers (90-105). */
module Amounts {
  import opened JsText
  import opened JsNumber
  import opened Optional
  import opened Patterns

  // ---------------------------------------------------------------------
  // The unlabelled rupee amounts: `/(?:₹|Rs\.?)\s*([\d,]+(?:\.\d{1,2})?)/g`
  // ---------------------------------------------------------------------

  /** Length of the currency prefix `₹|Rs\.?` at the start of `s`, or 0. */
  function CurrencyPrefix(s: string): (p: nat)
    ensures p <= |s| && p <= 3
    ensures p > 0 ==> s[0] == '₹' || s[0] == 'R'
    ensures forall i | 0 < i < p :: s[i] == 's' || s[i] == '.'
  {
    if |s| >= 1 && s[0] == '₹' then 1
    else if |s| >= 2 && s[0] == 'R' && s[1] == 's' then
      (if |s| >= 3 && s[2] == '.' then 3 else 2)
    else 0
  }

  /** Length of the optional `\.\d{1,2}` after the digits ending at `e`:
      0, or the point and one or two digits (greedy). */
  function DecimalTail(s: string, e: nat): (f: nat)
    requires e <= |s|
    ensures e + f <= |s|
    ensures f == 0 || f == 2 || f == 3
    ensures f > 0 ==> s[e] == '.' && forall i | e < i < e + f :: IsDigit(s[i])
  {
    if e + 1 < |s| && s[e] == '.' && IsDigit(s[e + 1]) then
      (if e + 2 < |s| && IsDigit(s[e + 2]) then 3 else 2)
    else 0
  }

  /** The match of the rupee pattern anchored at the start of `s`: the
      captured amount and the length of the whole match. The match ends
      on a digit or comma and holds no `₹` after its first character. */
  function RupeeAt(s: string): (r: Option<(string, nat)>)
    ensures r.Some? ==> var (g, n) := r.value;
      && 2 <= n <= |s|
      && AmountShape(g) && Occurs(g, s)
      && (IsDigit(s[n - 1]) || s[n - 1] == ',')
      && (forall i | 0 < i < n :: s[i] != '₹')
  {
    var p := CurrencyPrefix(s);
    if p == 0 then None
    else
      var q := p + SpaceRun(s[p..]);
      var k := DigitCommaRun(s[q..]);
      if k == 0 then None
      else Some(RupeeMatch(s, p, q, k))
  }

  /** The capture and the length of a match whose prefix, spaces and
      digits have been measured. */
  function RupeeMatch(s: string, p: nat, q: nat, k: nat): (r: (string, nat))
    requires p == CurrencyPrefix(s) && p > 0
    requires q == p + SpaceRun(s[p..])
    requires k == DigitCommaRun(s[q..]) && k > 0
    ensures 2 <= r.1 <= |s|
    ensures AmountShape(r.0) && Occurs(r.0, s)
    ensures IsDigit(s[r.1 - 1]) || s[r.1 - 1] == ','
    ensures forall i | 0 < i < r.1 :: s[i] != '₹'
  {
    var f := DecimalTail(s, q + k);
    RupeeMatchFacts(s, p, q, k, f);
    (s[q..q + k + f], q + k + f)
  }

  lemma RupeeMatchFacts(s: string, p: nat, q: nat, k: nat, f: nat)
    requires p == CurrencyPrefix(s) && p > 0
    requires q == p + SpaceRun(s[p..])
    requires k == DigitCommaRun(s[q..]) && k > 0
    requires f == DecimalTail(s, q + k)
    ensures 2 <= q + k + f <= |s|
    ensures AmountShape(s[q..q + k + f]) && Occurs(s[q..q + k + f], s)
    ensures IsDigit(s[q + k + f - 1]) || s[q + k + f - 1] == ','
    ensures forall i | 0 < i < q + k + f :: s[i] != '₹'
  {
    assert q <= |s| && q + k <= |s|;
    RupeeMatchShape(s, q, k, f);
    OccursSlice(s, q, q + k + f);
    RupeeMatchNoSign(s, p, q, k, f);
  }

  lemma RupeeMatchShape(s: string, q: nat, k: nat, f: nat)
    requires q <= |s| && k == DigitCommaRun(s[q..]) && k > 0
    requires f == DecimalTail(s, q + k)
    ensures AmountShape(s[q..q + k + f])
    ensures IsDigit(s[q + k + f - 1]) || s[q + k + f - 1] == ','
  {
    var e := q + k;
    var g := s[q..e + f];
    var t := s[q..];
    assert g == t[..k + f];
    assert t[k - 1] == s[e - 1];
    if f > 0 {
      assert g[k] == '.';
      assert g[k + 1..] == s[e + 1..e + f];
    }
    DigitCommaRunPrefix(t, g, k);
  }

  lemma RupeeMatchNoSign(s: string, p: nat, q: nat, k: nat, f: nat)
    requires p == CurrencyPrefix(s) && p > 0
    requires q == p + SpaceRun(s[p..])
    requires k == DigitCommaRun(s[q..])
    requires f == DecimalTail(s, q + k)
    ensures forall i | 0 < i < q + k + f :: s[i] != '₹'
  {
    RunNoSign(s, p, q - p);
    RunNoSign(s, q, k);
    forall i | 0 < i < q + k + f
      ensures s[i] != '₹'
    {
      if i < p {
      } else if i < q {
      } else if i < q + k {
      }
    }
  }

  /** Spaces, digits and commas are not the rupee sign. */
  lemma RunNoSign(s: string, a: nat, n: nat)
    requires a + n <= |s|
    requires forall i | 0 <= i < n :: IsSpace(s[a..][i]) || IsDigit(s[a..][i]) || s[a..][i] == ','
    ensures forall i | a <= i < a + n :: s[i] != '₹'
  {
    forall i | a <= i < a + n
      ensures s[i] != '₹'
    {
      assert s[a..][i - a] == s[i];
    }
  }

  lemma {:induction false} DigitCommaRunPrefix(s: string, g: string, k: nat)
    requires k == DigitCommaRun(s) && k <= |g| <= |s| && g == s[..|g|]
    requires k < |g| ==> !(IsDigit(g[k]) || g[k] == ',')
    ensures DigitCommaRun(g) == k
    decreases k
  {
    if k > 0 {
      DigitCommaRunPrefix(s[1..], g[1..], k - 1);
    }
  }

  /** The capture of the last match of the global rupee pattern. A match
      is taken where one starts and scanning resumes after it, as
      `matchAll` does. */
  function LastRupee(s: string): (r: Option<string>)
    ensures r.Some? ==> AmountShape(r.value) && Occurs(r.value, s)
    decreases |s|
  {
    if s == [] then None
    else match RupeeAt(s)
      case Some((g, n)) =>
        var later := LastRupee(s[n..]);
        if later.Some? then
          OccursInSuffix(later.value, s, n);
          later
        else Some(g)
      case None =>
        var later := LastRupee(s[1..]);
        if later.Some? then
          OccursInSuffix(later.value, s, 1);
          later
        else None
  }

  /** The fallback reads the amount after the last rupee sign: whatever
      precedes ` ₹<digits>`, no earlier match reaches into it. */
  lemma {:induction false} LastRupeeReadsFinalAmount(x: string, d: string)
    requires |d| > 0 && AllDigits(d)
    ensures LastRupee(x + " ₹" + d) == Some(d)
    decreases |x|
  {
    var t := x + " ₹" + d;
    if x == [] {
      assert t == " ₹" + d;
      SpacedRupee(d);
    } else {
      var n := ResumeAt(t);
      ResumeWithinPrefix(x, d);
      SuffixAfterResume(x, d, n);
      LastRupeeReadsFinalAmount(x[n..], d);
      LastRupeeLater(t);
    }
  }

  /** ` ₹<digits>` on its own is read in full. */
  lemma SpacedRupee(d: string)
    requires |d| > 0 && AllDigits(d)
    ensures LastRupee(" ₹" + d) == Some(d)
  {
    var t := " ₹" + d;
    assert t[0] == ' ';
    assert ResumeAt(t) == 1;
    assert t[1..] == "₹" + d;
    LoneRupee(d);
    LastRupeeLater(t);
  }

  /** Scanning a text that goes on with ` ₹<digits>` resumes no later
      than the space. */
  lemma ResumeWithinPrefix(x: string, d: string)
    requires |x| > 0
    ensures ResumeAt(x + " ₹" + d) <= |x|
  {
    var t := x + " ₹" + d;
    assert t[|x|] == ' ' && t[|x| + 1] == '₹';
    if RupeeAt(t).Some? {
      MatchEndsBeforeSign(t, |x|);
    }
  }

  lemma SuffixAfterResume(x: string, d: string, n: nat)
    requires n <= |x|
    ensures (x + " ₹" + d)[n..] == x[n..] + " ₹" + d
  {
  }

  /** Where scanning resumes: after a match, else one character on. */
  function ResumeAt(t: string): (n: nat)
    requires |t| > 0
    ensures 1 <= n <= |t|
  {
    if RupeeAt(t).Some? then RupeeAt(t).value.1 else 1
  }

  /** A match found later in the text is the last one. */
  lemma LastRupeeLater(t: string)
    requires |t| > 0
    ensures LastRupee(t[ResumeAt(t)..]).Some? ==> LastRupee(t) == LastRupee(t[ResumeAt(t)..])
  {
  }

  /** A match cannot run past a space followed by a rupee sign. */
  lemma MatchEndsBeforeSign(t: string, m: nat)
    requires m + 1 < |t| && t[m] == ' ' && t[m + 1] == '₹'
    requires RupeeAt(t).Some?
    ensures RupeeAt(t).value.1 <= m
  {
    assert !IsDigit(t[m]) && t[m] != ',';
    assert !IsDigit(t[m + 1]) && t[m + 1] != ',';
  }

  /** `₹<digits>` on its own is read in full. */
  lemma LoneRupee(d: string)
    requires |d| > 0 && AllDigits(d)
    ensures LastRupee("₹" + d) == Some(d)
  {
    var t := "₹" + d;
    LoneRupeeMatch(d);
    assert LastRupee(t[|t|..]) == None by { assert t[|t|..] == []; }
  }

  lemma LoneRupeeMatch(d: string)
    requires |d| > 0 && AllDigits(d)
    ensures RupeeAt("₹" + d) == Some((d, |d| + 1))
  {
    var t := "₹" + d;
    assert CurrencyPrefix(t) == 1;
    assert t[1..] == d;
    assert SpaceRun(d) == 0;
    DigitCommaRunAll(d);
    assert DecimalTail(t, |t|) == 0;
    assert t[1..|t|] == d;
  }

  lemma {:induction false} DigitCommaRunAll(d: string)
    requires AllDigits(d)
    ensures DigitCommaRun(d) == |d|
    decreases |d|
  {
    if |d| > 0 {
      DigitCommaRunAll(d[1..]);
    }
  }

  // ---------------------------------------------------------------------
  // extractTotal
  // ---------------------------------------------------------------------

  /** The labelled total patterns, tried in this order. */
  const TotalPatterns: seq<Pat> :=
    [GrandTotal, TotalAmountDue, NetTotal, TotalInclGstParen, TotalInclGst, AmountPayable]

  predicate IsAmountOf(c: string, text: string, v: real) {
    Occurs(c, text) && AmountShape(c) && ParseAmount(c) == Fin(v)
  }

  /** The group of every labelled total is an amount. */
  lemma TotalCaptureShape(k: nat, c: string)
    requires k < |TotalPatterns| && CaptureShape(TotalPatterns[k], 1, c)
    ensures AmountShape(c)
  { }

  /** The positive amount labelled pattern `j` captures, if any: what the
      loop of `extractTotal` accepts from `patterns[j]`. */
  function LabelAmount(re: Regex, text: string, j: nat): (r: Option<real>)
    requires j < |TotalPatterns|
    ensures r.Some? ==> r.value > 0.0 && exists c :: IsAmountOf(c, text, r.value)
    ensures r.Some? <==> re(TotalPatterns[j], text).Some? && ParseAmount(Capture(re, TotalPatterns[j], text, 1).value).Positive()
    ensures r.Some? ==> r.value == ParseAmount(Capture(re, TotalPatterns[j], text, 1).value).val
  {
    match Capture(re, TotalPatterns[j], text, 1)
    case Some(c) =>
      TotalCaptureShape(j, c);
      var n := ParseAmount(c);
      if n.Positive() then
        assert IsAmountOf(c, text, n.val);
        Some(n.val)
      else None
    case None => None
  }

  /** Index of the first labelled pattern, from `patterns[k]` on, whose
      amount reads as a positive number, or `|TotalPatterns|` when there
      is none: the patterns are tried in the listed order and the first
      acceptable one wins. */
  function FirstLabel(re: Regex, text: string, k: nat): (j: nat)
    requires k <= |TotalPatterns|
    ensures k <= j <= |TotalPatterns|
    ensures j < |TotalPatterns| ==> LabelAmount(re, text, j).Some?
    ensures forall i | k <= i < j :: LabelAmount(re, text, i).None?
    decreases |TotalPatterns| - k
  {
    if k == |TotalPatterns| then k
    else if LabelAmount(re, text, k).Some? then k
    else
      var j := FirstLabel(re, text, k + 1);
      assert LabelAmount(re, text, k).None?;
      j
  }

  /** The index `FirstLabel` finds from 0 is the one pattern with a
      positive amount that no earlier pattern precedes. */
  lemma FirstLabelIsFirst(re: Regex, text: string)
    ensures forall j | 0 <= j < |TotalPatterns| ::
      LabelAmount(re, text, j).Some? && (forall i | 0 <= i < j :: LabelAmount(re, text, i).None?)
      ==> FirstLabel(re, text, 0) == j
    ensures (forall j | 0 <= j < |TotalPatterns| :: LabelAmount(re, text, j).None?) ==>
      FirstLabel(re, text, 0) == |TotalPatterns|
  { }

  /** The fallback of `extractTotal`: the amount after the last rupee
      sign when it reads as a number, else 0. */
  function RupeeTotal(text: string): (r: real)
    ensures r >= 0.0
    ensures r != 0.0 ==> exists c :: IsAmountOf(c, text, r)
    ensures LastRupee(text).Some? && ParseAmount(LastRupee(text).value).Fin? ==>
      r == ParseAmount(LastRupee(text).value).val
    ensures LastRupee(text).None? ==> r == 0.0
  {
    match LastRupee(text)
    case Some(c) =>
      var v := ParseAmount(c);
      if v.Fin? then
        assert IsAmountOf(c, text, v.val);
        v.val
      else 0.0
    case None => 0.0
  }

  /** `extractTotal`: the first labelled total with a positive amount,
      else the amount after the last rupee sign, else 0. The result is
      never negative and, when not 0, is the value of an amount written
      in the text. */
  function ExtractTotal(re: Regex, text: string): (r: real)
    ensures r >= 0.0
    ensures r != 0.0 ==> exists c :: IsAmountOf(c, text, r)
    ensures text == "" ==> r == 0.0
    ensures forall j | 0 <= j < |TotalPatterns| ::
      LabelAmount(re, text, j).Some? && (forall i | 0 <= i < j :: LabelAmount(re, text, i).None?)
      ==> r == LabelAmount(re, text, j).value
    ensures text != "" && (forall j | 0 <= j < |TotalPatterns| :: LabelAmount(re, text, j).None?) ==>
      r == RupeeTotal(text)
  {
    FirstLabelIsFirst(re, text);
    var j := FirstLabel(re, text, 0);
    if text == "" then 0.0
    else if j < |TotalPatterns| then LabelAmount(re, text, j).value
    else RupeeTotal(text)
  }

  /** With no labelled total, a bill ending in ` ₹<digits>` totals to that
      amount. */
  lemma ExtractTotalFallsBackToLastRupee(re: Regex, x: string, d: string, text: string)
    requires |d| > 0 && AllDigits(d) && text == x + " ₹" + d
    requires forall p | p in TotalPatterns :: re(p, text).None?
    ensures ExtractTotal(re, text) == DigitsValue(d) as real
  {
    LastRupeeReadsFinalAmount(x, d);
    TotalFromRupee(re, text);
  }

  /** With no labelled total, a last rupee amount of plain digits is the
      total. */
  lemma TotalFromRupee(re: Regex, text: string)
    requires forall p | p in TotalPatterns :: re(p, text).None?
    ensures LastRupee(text).Some? && |LastRupee(text).value| > 0 && AllDigits(LastRupee(text).value) ==>
      ExtractTotal(re, text) == DigitsValue(LastRupee(text).value) as real
  {
    forall i | 0 <= i < |TotalPatterns|
      ensures re(TotalPatterns[i], text).None?
    {
      assert TotalPatterns[i] in TotalPatterns;
    }
    NoLabelNoTotal(re, text, 0);
    if LastRupee(text).Some? && |LastRupee(text).value| > 0 && AllDigits(LastRupee(text).value) {
      ParseAmountOfDigits(LastRupee(text).value);
    }
  }

  /** When none of the labelled patterns from `k` on matches, the search
      finds no labelled total. */
  lemma {:induction false} NoLabelNoTotal(re: Regex, text: string, k: nat)
    requires k <= |TotalPatterns|
    requires forall i | k <= i < |TotalPatterns| :: re(TotalPatterns[i], text).None?
    ensures FirstLabel(re, text, k) == |TotalPatterns|
    decreases |TotalPatterns| - k
  {
    if k < |TotalPatterns| {
      NoCaptureAt(re, text, k);
      NoLabelNoTotal(re, text, k + 1);
    }
  }

  lemma NoCaptureAt(re: Regex, text: string, k: nat)
    requires k < |TotalPatterns| && re(TotalPatterns[k], text).None?
    ensures Capture(re, TotalPatterns[k], text, 1).None?
  {
  }

  lemma ParseAmountOfDigits(d: string)
    requires |d| > 0 && AllDigits(d)
    ensures ParseAmount(d) == Fin(DigitsValue(d) as real)
  {
    assert Remove(d, ',') == d;
    DigitRunAll(d);
    assert d[..|d|] == d;
  }

  // ---------------------------------------------------------------------
  // detectGSTRate
  // ---------------------------------------------------------------------

  /** Where the rate came from (`type` in the source). */
  datatype RateSource = Labelled | IgstOnly | CgstPlusSgst | Generic

  datatype DetectedRate = DetectedRate(rate: real, source: RateSource)

  /** A rate captured by `\d{1,2}(?:\.\d{1,2})?` reads as a number in
      `[0, 100)`. */
  lemma RateShapeBelowHundred(c: string)
    requires RateShape(c)
    ensures ParseFloat(c).Fin? && 0.0 <= ParseFloat(c).val < 100.0
  {
    var n := DigitRun(c);
    DigitsValueBound(c[..n]);
    assert Pow10(n) <= 100 by {
      assert Pow10(1) == 10;
      assert Pow10(2) == 100;
    }
  }

  function RateOf(c: string): (r: real)
    requires RateShape(c)
    ensures 0.0 <= r < 100.0
  {
    RateShapeBelowHundred(c);
    ParseFloat(c).val
  }

  /** `detectGSTRate`: an explicit "GST Rate" label, else an IGST
      percentage, else CGST and SGST percentages added, else the first bare
      percentage, else 18. */
  function DetectGstRate(re: Regex, text: string): (r: DetectedRate)
    ensures 0.0 <= r.rate < 200.0
    ensures r.source != CgstPlusSgst ==> r.rate < 100.0
    ensures r.source == Labelled <==> re(GstRateLabel, text).Some?
    ensures r.source == IgstOnly ==> re(IgstRate, text).Some?
    ensures r.source == CgstPlusSgst ==> re(CgstRate, text).Some? && re(SgstRate, text).Some?
    ensures re(GstRateLabel, text).Some? ==>
      r == DetectedRate(RateOf(Capture(re, GstRateLabel, text, 1).value), Labelled)
    ensures re(GstRateLabel, text).None? && re(IgstRate, text).Some? ==>
      r == DetectedRate(RateOf(Capture(re, IgstRate, text, 1).value), IgstOnly)
    ensures (re(GstRateLabel, text).None? && re(IgstRate, text).None?
             && re(CgstRate, text).Some? && re(SgstRate, text).Some?) ==>
      r == DetectedRate(RateOf(Capture(re, CgstRate, text, 1).value) + RateOf(Capture(re, SgstRate, text, 1).value), CgstPlusSgst)
    ensures (re(GstRateLabel, text).None? && re(IgstRate, text).None?
             && (re(CgstRate, text).None? || re(SgstRate, text).None?)) ==>
      r.source == Generic
      && (re(BareRate, text).Some? ==> r.rate == RateOf(Capture(re, BareRate, text, 1).value))
      && (re(BareRate, text).None? ==> r.rate == 18.0)
  {
    match Capture(re, GstRateLabel, text, 1)
    case Some(c) => DetectedRate(RateOf(c), Labelled)
    case None =>
      var igst := Capture(re, IgstRate, text, 1);
      var cgst := Capture(re, CgstRate, text, 1);
      var sgst := Capture(re, SgstRate, text, 1);
      if igst.Some? then DetectedRate(RateOf(igst.value), IgstOnly)
      else if cgst.Some? && sgst.Some? then
        DetectedRate(RateOf(cgst.value) + RateOf(sgst.value), CgstPlusSgst)
      else
        match Capture(re, BareRate, text, 1)
        case Some(c) => DetectedRate(RateOf(c), Generic)
        case None => DetectedRate(18.0, Generic)
  }

  /** A text without any percentage pattern gets the default 18%. */
  lemma DetectGstRateDefault(re: Regex, text: string)
    requires forall p | p in [GstRateLabel, IgstRate, CgstRate, SgstRate, BareRate] :: re(p, text).None?
    ensures DetectGstRate(re, text) == DetectedRate(18.0, Generic)
  {
    assert re(GstRateLabel, text).None?;
    assert re(IgstRate, text).None?;
    assert re(BareRate, text).None?;
  }

  // ---------------------------------------------------------------------
  // extractCGST, extractSGST, extractIGST, extractTotalGST
  // ---------------------------------------------------------------------

  /** The amount a component label carries, or 0 when there is none;
      `NaN` when the digits are only commas. */
  function ExtractComponent(re: Regex, p: Pat, text: string): (r: Num)
    requires p in {CgstAmount, SgstAmount, IgstAmount, TotalGstAmount}
    ensures re(p, text).None? ==> r == Fin(0.0)
    ensures r.Fin? ==> r.val >= 0.0
    ensures r.Fin? && r.val != 0.0 ==> exists c :: IsAmountOf(c, text, r.val)
    ensures re(p, text).Some? ==> r == ParseAmount(Capture(re, p, text, 1).value)
  {
    match Capture(re, p, text, 1)
    case Some(c) =>
      var n := ParseAmount(c);
      assert n.Fin? ==> IsAmountOf(c, text, n.val);
      n
    case None => Fin(0.0)
  }
}
