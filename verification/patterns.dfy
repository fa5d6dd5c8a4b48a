/** The labelled regular expressions of the extractors, as an oracle.

    A `Regex` answers `text.match(pattern)` for each named pattern with the
    array of groups (`m[0]` the whole match, `m[1]`, … the captures) or
    `None`. It is any function that is `Sound`: the match has the
    pattern's number of groups, every group is a piece of the text, the
    whole match is not empty, and every capture the code reads has the
    shape the pattern's capturing group forces. Which occurrence the
    engine picks (the leftmost) is not constrained. */
module Patterns {
  import opened JsText
  import opened Optional
  import DateText
  import Gstin

  datatype Pat =
    // backend/routes/parse.js:37-43, the labelled totals, in order
    | GrandTotal | TotalAmountDue | NetTotal | TotalInclGstParen | TotalInclGst | AmountPayable
    // backend/routes/parse.js:67-85, rates
    | GstRateLabel | IgstRate | CgstRate | SgstRate | BareRate
    // backend/routes/parse.js:91-103, component amounts
    | CgstAmount | SgstAmount | IgstAmount | TotalGstAmount
    // backend/routes/parse.js:109, 129, 146, 177, 190
    | HsnLabel | HsnAfterHeader | ProductLabel | TaxInvoiceText | ProductKeyword
    // backend/routes/parse.js:370-372, 389-394, 406-409, 418
    | VendorLabel | SupplierLabel | CompanyLabel
    | InvoiceNoLabel | BillNoLabel | InvoiceNoLoose
    | DateLabel | DateAnywhere | GstinLabel
    // frontend/app/voice-entry/page.tsx:42-143
    | SpokenVendor | SpokenFrom
    | SpokenInvoiceLabel | SpokenBillLabel | SpokenInvoiceLoose
    | SpokenDateLabel | SpokenDateMonth | SpokenDateBare
    | SpokenGstinBlock
    | SpokenHsnLabel | SpokenHsnBare
    | SpokenTotalLabel | SpokenTotalRupees
    | SpokenRateLabel | SpokenRatePercent

  /** The placeholder every extractor of the upload route returns when it
      finds nothing. */
  const NotFound: string := "Not found"

  /** Number of capturing groups of each pattern. */
  function GroupCount(p: Pat): nat {
    match p
    case SpokenDateMonth | SpokenGstinBlock | SpokenTotalLabel | SpokenTotalRupees => 2
    case _ => 1
  }

  /** `[\d,]+(\.\d{1,2})?`: digits and commas, then at most two decimals. */
  predicate AmountShape(c: string) {
    var k := DigitCommaRun(c);
    k > 0 && (k == |c| || (c[k] == '.' && 2 <= |c| - k <= 3 && AllDigits(c[k + 1..])))
  }

  function DigitCommaRun(s: string): (n: nat)
    ensures n <= |s|
    ensures forall i | 0 <= i < n :: IsDigit(s[i]) || s[i] == ','
    ensures n < |s| ==> !(IsDigit(s[n]) || s[n] == ',')
    decreases |s|
  {
    if |s| > 0 && (IsDigit(s[0]) || s[0] == ',') then 1 + DigitCommaRun(s[1..]) else 0
  }

  /** `\d{1,2}(\.\d{1,2})?`: a rate below one hundred. */
  predicate RateShape(c: string) {
    var n := DigitRun(c);
    1 <= n <= 2 && (n == |c| || (c[n] == '.' && 2 <= |c| - n <= 3 && AllDigits(c[n + 1..])))
  }

  /** `\d{4,8}`. */
  predicate HsnShape(c: string) {
    4 <= |c| <= 8 && AllDigits(c)
  }

  /** `[A-Za-z0-9\s,.\-]`. */
  predicate ProductChar(c: char) { IsAlnum(c) || IsSpace(c) || c == ',' || c == '.' || c == '-' }
  /** `[A-Za-z0-9 &.,\-]`. */
  predicate VendorChar(c: char) { IsAlnum(c) || c == ' ' || c == '&' || c == '.' || c == ',' || c == '-' }
  /** `[A-Za-z0-9&.,\-\s]`. */
  predicate SpokenVendorChar(c: char) { IsAlnum(c) || IsSpace(c) || c == '&' || c == '.' || c == ',' || c == '-' }
  /** `[A-Z0-9\-\/]` under the `i` flag. */
  predicate InvoiceNoChar(c: char) { IsAlnum(c) || c == '-' || c == '/' }
  /** `[A-Za-z0-9\-\/ ]`. */
  predicate SpokenInvoiceNoChar(c: char) { InvoiceNoChar(c) || c == ' ' }

  predicate AllChars(s: string, lo: nat, hi: nat, ok: char -> bool) {
    lo <= |s| <= hi && forall i | 0 <= i < |s| :: ok(s[i])
  }

  /** `INV` (any case) then at least three further characters of `ok`. */
  predicate LooseInvoiceShape(c: string, ok: char -> bool) {
    |c| >= 6 && Lower(c[..3]) == "inv" && forall i | 3 <= i < |c| :: ok(c[i])
  }

  /** The words of the product keyword fallback (backend/routes/parse.js:190). */
  predicate IsProductKeyword(w: string) {
    || w == "laptop" || w == "mobile" || w == "phone" || w == "website" || w == "design"
    || w == "software" || w == "monitor" || w == "printer" || w == "table" || w == "chair"
    || w == "furniture" || w == "freight" || w == "transport" || w == "courier"
  }

  /** `a\s*b` under the `i` flag. */
  predicate SpacedPhrase(g: string, a: string, b: string) {
    && |g| >= |a| + |b|
    && Lower(g[..|a|]) == a
    && Lower(g[|g| - |b|..]) == b
    && forall i | |a| <= i < |g| - |b| :: IsSpace(g[i])
  }

  /** The shape of capture `k` (`k >= 1`) of pattern `p`. */
  predicate CaptureShape(p: Pat, k: nat, c: string) {
    match p
    case GrandTotal | TotalAmountDue | NetTotal | TotalInclGstParen | TotalInclGst | AmountPayable
      | CgstAmount | SgstAmount | IgstAmount | TotalGstAmount => AmountShape(c)
    case GstRateLabel | IgstRate | CgstRate | SgstRate | BareRate
      | SpokenRateLabel | SpokenRatePercent => RateShape(c)
    case HsnLabel | HsnAfterHeader | SpokenHsnLabel | SpokenHsnBare => HsnShape(c)
    case ProductLabel => AllChars(c, 3, 160, ProductChar)
    case TaxInvoiceText => AllChars(c, 3, 60, ProductChar)
    case ProductKeyword => IsProductKeyword(Lower(c))
    case VendorLabel | SupplierLabel | CompanyLabel => AllChars(c, 2, 160, VendorChar)
    case InvoiceNoLabel | BillNoLabel => AllChars(c, 3, 40, InvoiceNoChar)
    case InvoiceNoLoose => LooseInvoiceShape(c, InvoiceNoChar)
    case DateLabel | SpokenDateLabel | SpokenDateBare => DateText.MatchDmy(c).Some?
    case DateAnywhere => DateText.MatchDmy(c).Some? || DateText.MatchDayMonth(c, false).Some?
    case GstinLabel => Gstin.GstinShape(Upper(c))
    case SpokenVendor | SpokenFrom => AllChars(c, 2, 80, SpokenVendorChar)
    case SpokenInvoiceLabel | SpokenBillLabel => AllChars(c, 3, 40, SpokenInvoiceNoChar)
    case SpokenInvoiceLoose => LooseInvoiceShape(c, SpokenInvoiceNoChar)
    case SpokenDateMonth =>
      if k == 1 then DateText.MatchDayMonth(c, true).Some?
      else |c| == 3 && Lower(c) in DateText.MonthAbbrevs
    case SpokenGstinBlock =>
      if k == 1 then Lower(c) == "gstin" || Lower(c) == "g s t i n"
      else AllChars(c, 10, 30, (x: char) => IsAlnum(x) || IsSpace(x))
    case SpokenTotalLabel =>
      if k == 1 then Lower(c) == "total" || SpacedPhrase(c, "invoice", "value") || SpacedPhrase(c, "amount", "payable")
      else AmountShape(c)
    case SpokenTotalRupees =>
      if k == 1 then AmountShape(c)
      else Lower(c) == "total" || Lower(c) == "invoice" || Lower(c) == "amount"
  }

  /** The patterns whose one group spans the whole match (`\b(…)\b`),
      among those whose whole match the code reads. */
  predicate WholeIsGroup(p: Pat) {
    p == ProductKeyword || p == DateAnywhere
  }

  /** What any correct regex engine's answer satisfies. */
  predicate Sound(p: Pat, text: string, m: Option<seq<string>>) {
    m.Some? ==>
      && |m.value| == GroupCount(p) + 1
      && |m.value[0]| > 0
      && (WholeIsGroup(p) ==> m.value[0] == m.value[1])
      && (forall k | 0 <= k < |m.value| :: Occurs(m.value[k], text))
      && (forall k | 1 <= k < |m.value| :: CaptureShape(p, k, m.value[k]))
  }

  /** `text.match(pattern)` for every pattern of the extractors. */
  type Regex = f: (Pat, string) -> Option<seq<string>> | forall p, t :: Sound(p, t, f(p, t))
    witness (p: Pat, t: string) => None

  /** The whole first match of a `\b(…)\b` pattern, when there is one;
      nothing for a pattern whose whole match the code never reads. */
  function Whole(re: Regex, p: Pat, text: string): (r: Option<string>)
    ensures r.Some? ==> Occurs(r.value, text) && CaptureShape(p, 1, r.value)
    ensures r.Some? <==> WholeIsGroup(p) && re(p, text).Some?
  {
    if !WholeIsGroup(p) then None
    else
      match re(p, text)
      case None => None
      case Some(g) =>
        assert Sound(p, text, re(p, text));
        Some(g[0])
  }

  /** No pattern matches the empty text: a match is a non-empty piece of
      it. */
  lemma NoMatchInEmpty(re: Regex, p: Pat, text: string)
    ensures text == "" ==> re(p, text).None?
  {
    if text == "" && re(p, text).Some? {
      assert Sound(p, text, re(p, text));
      OccursWithin(re(p, text).value[0], text);
    }
  }

  /** Capture `k` of the first match of `p`, when there is one; like
      `m[k]` in JavaScript, nothing for a group the pattern does not
      have. */
  function Capture(re: Regex, p: Pat, text: string, k: nat): (r: Option<string>)
    ensures r.Some? ==> Occurs(r.value, text) && CaptureShape(p, k, r.value)
    ensures text == "" ==> r.None?
    ensures r.Some? <==> 1 <= k <= GroupCount(p) && re(p, text).Some?
  {
    if !(1 <= k <= GroupCount(p)) then None
    else
      match re(p, text)
      case None => None
      case Some(g) =>
        assert Sound(p, text, re(p, text));
        NoMatchInEmpty(re, p, text);
        Some(g[k])
  }
}
