/** `extractProduct` of backend/routes/parse.js (lines 144-193): the text
    after a "Description/Item/Product/Particulars" label, cleaned up and cut
    short; else the text after "Tax Invoice"; else a product word from a
    small dictionary. */
module Product {
  import opened JsText
  import opened Optional
  import opened Patterns
  import TextCleaning

  /** `.*$` can match all of `s`: it holds no line terminator. */
  predicate OneLine(s: string) {
    forall j | 0 <= j < |s| :: !IsLineTerminator(s[j])
  }

  /** `\.?\s*GST` (any case) from `k` on: the end of the match, if any.
      The dot is taken when present and the white space greedily; since
      "GST" starts with neither, no other split can match. */
  function InclTail(s: string, k: nat): (r: Option<nat>)
    requires k <= |s|
    ensures r.Some? ==> k + 3 <= r.value <= |s| && Lower(s[r.value - 3..r.value]) == "gst"
  {
    var d := if k < |s| && s[k] == '.' then k + 1 else k;
    var g := d + SpaceRun(s[d..]);
    if g + 3 <= |s| && Lower(s[g..g + 3]) == "gst" then Some(g + 3) else None
  }

  /** `(?:incl\.?\s*GST|\(incl\.?\s*GST\))` (any case) at the start of
      `s`: the length of the match, if any. */
  function InclGst(s: string): (r: Option<nat>)
    ensures r.Some? ==> 7 <= r.value <= |s|
    ensures r.Some? ==> Lower(s[..4]) == "incl" || (s[0] == '(' && Lower(s[1..5]) == "incl" && s[r.value - 1] == ')')
  {
    if |s| >= 4 && Lower(s[..4]) == "incl" then InclTail(s, 4)
    else if |s| >= 5 && s[0] == '(' && Lower(s[1..5]) == "incl" then
      match InclTail(s, 5)
      case Some(n) => if n < |s| && s[n] == ')' then Some(n + 1) else None
      case None => None
    else None
  }

  /** `\bTotal` (any case) at `i`, at the start of a word. */
  predicate TotalWordAt(p: string, i: nat) {
    && i + 5 <= |p|
    && Lower(p[i..i + 5]) == "total"
    && (i == 0 || !IsWordChar(p[i - 1]))
  }

  /** Where `/\bTotal\s*(?:incl\.?\s*GST|\(incl\.?\s*GST\))?.*$/i` can
      match: "Total" at a word start, the white space after it (line
      terminators included), optionally the incl-GST group, and then a
      rest with no line terminator up to the end. Taking the whole white
      space run is never worse: `.*` would have to cover what `\s*` left,
      and the group starts with a non-space. */
  predicate TotalAt(p: string, i: nat) {
    && TotalWordAt(p, i)
    && var g := i + 5 + SpaceRun(p[i + 5..]);
       || OneLine(p[g..])
       || (InclGst(p[g..]).Some? && OneLine(p[g + InclGst(p[g..]).value..]))
  }

  /** The position where the first such match starts, from `i` on. */
  function FirstTotalFrom(p: string, i: nat): (r: Option<nat>)
    ensures r.Some? ==> i <= r.value && TotalAt(p, r.value)
    ensures r.Some? ==> forall j | i <= j < r.value :: !TotalAt(p, j)
    ensures r.None? ==> forall j | i <= j :: !TotalAt(p, j)
    decreases |p| - i
  {
    if i + 5 > |p| then None
    else if TotalAt(p, i) then Some(i)
    else FirstTotalFrom(p, i + 1)
  }

  /** `replace(/\bTotal\s*(?:incl\.?\s*GST|\(incl\.?\s*GST\))?.*$/i, "")`:
      everything from the first word-initial "total" on is dropped. */
  function CutTotal(p: string): (r: string)
    ensures StartsWith(p, r)
  {
    match FirstTotalFrom(p, 0)
    case Some(i) => p[..i]
    case None => p
  }

  /** On a single line every "Total" at a word start matches. */
  lemma TotalAtOnOneLine(p: string, i: nat)
    requires OneLine(p)
    ensures TotalAt(p, i) <==> TotalWordAt(p, i)
  {
    if TotalWordAt(p, i) {
      var g := i + 5 + SpaceRun(p[i + 5..]);
      assert forall j | 0 <= j < |p[g..]| :: p[g..][j] == p[g + j];
    }
  }

  /** When the text has no line terminators, no "total" is left at the
      start of a word. */
  lemma CutTotalRemovesTotal(p: string, i: nat)
    requires OneLine(p)
    ensures !TotalWordAt(CutTotal(p), i)
  {
    match FirstTotalFrom(p, 0)
    case None =>
      TotalAtOnOneLine(p, i);
    case Some(k) =>
      var r := p[..k];
      assert CutTotal(p) == r;
      if i + 5 <= k {
        assert r[i..i + 5] == p[i..i + 5];
        assert i > 0 ==> r[i - 1] == p[i - 1];
        TotalAtOnOneLine(p, i);
        assert !TotalAt(p, i);
      }
  }

  /** White space after "Total" may span a line separator: the product
      text "Laptop Total", a line separator, then "X", is cut to
      "Laptop ". */
  lemma CutTotalAcrossLineSeparator()
    ensures CutTotal("Laptop Total\U{2028}X") == "Laptop "
  {
    var p := "Laptop Total\U{2028}X";
    assert Lower(p[0..5])[0] == 'l';
    assert forall i | 0 <= i < 6 :: IsWordChar(p[i]);
    assert Lower(p[7..12]) == "total";
    assert p[12..] == "\U{2028}X";
    assert SpaceRun(p[12..]) == 1;
    assert p[13..] == "X";
    assert TotalAt(p, 7);
    assert FirstTotalFrom(p, 0) == Some(7);
  }

  /** The first six words of a label's text, or all of it when shorter. */
  function FirstSixWords(p: string): (r: string)
    requires |p| > 0 ==> !IsSpace(p[0]) && !IsSpace(p[|p| - 1])
    ensures |Words(p)| <= 6 ==> r == p
    ensures |Words(p)| > 6 ==> Words(r) == Words(p)[..6]
  {
    var ws := Words(p);
    if |ws| > 6 then
      WordsOfJoin(ws[..6]);
      JoinWords(ws[..6])
    else p
  }

  /** A label's text with runs of `\s` collapsed, trimmed, cut before a
      "Total" and trimmed again, so no white space is left at either end. */
  function DescriptionText(c: string): (q: string)
    ensures |q| > 0 ==> !IsSpace(q[0]) && !IsSpace(q[|q| - 1])
  {
    Trim(CutTotal(Trim(TextCleaning.CollapseSpaces(c))))
  }

  /** The product text after a description label: the cleaned text kept to
      its first six words. The two label-stripping replacements of the
      source end in `$ ` (end of input, then a space), which can never
      match, so they are no-ops and are not modelled. */
  function FromDescription(c: string): (r: string)
    ensures |Words(r)| <= 6
    ensures |r| > 0 ==> !IsSpace(r[0]) && !IsSpace(r[|r| - 1])
  {
    var q := DescriptionText(c);
    var r := FirstSixWords(q);
    if |Words(q)| > 6 then
      SixWordsUnpadded(q);
      r
    else r
  }

  lemma SixWordsUnpadded(q: string)
    requires |q| > 0 ==> !IsSpace(q[0]) && !IsSpace(q[|q| - 1])
    requires |Words(q)| > 6
    ensures var r := FirstSixWords(q); |r| > 0 && !IsSpace(r[0]) && !IsSpace(r[|r| - 1])
  {
    var ws := Words(q)[..6];
    JoinUnpadded(ws);
  }

  lemma {:induction false} JoinUnpadded(ws: seq<string>)
    requires |ws| > 0
    requires forall k | 0 <= k < |ws| :: |ws[k]| > 0 && NoSpace(ws[k])
    ensures var j := JoinWords(ws); |j| > 0 && !IsSpace(j[0]) && !IsSpace(j[|j| - 1])
    decreases |ws|
  {
    if |ws| > 1 {
      JoinUnpadded(ws[1..]);
      var j := JoinWords(ws);
      assert j == ws[0] + " " + JoinWords(ws[1..]);
      assert j[0] == ws[0][0];
      assert j[|j| - 1] == JoinWords(ws[1..])[|JoinWords(ws[1..])| - 1];
    } else {
      assert JoinWords(ws) == ws[0];
    }
  }

  /** Where the product text came from. */
  datatype ProductSource = FromLabel | AfterTaxInvoice | Keyword | Missing

  lemma KeywordIsNotPlaceholder(w: string)
    requires IsProductKeyword(Lower(w))
    ensures w != NotFound
  {
    assert Lower(NotFound)[0] == 'n';
  }

  /** The product text a description label supplies, "" without one. */
  function LabelText(re: Regex, text: string): (r: string)
    ensures |Words(r)| <= 6
    ensures re(ProductLabel, text).None? ==> r == ""
    ensures re(ProductLabel, text).Some? ==> r == FromDescription(Capture(re, ProductLabel, text, 1).value)
  {
    match Capture(re, ProductLabel, text, 1)
    case Some(c) => FromDescription(c)
    case None => ""
  }

  /** The product text after "Tax Invoice", "" without one. */
  function InvoiceText(re: Regex, text: string): (r: string)
    ensures re(TaxInvoiceText, text).None? ==> r == ""
    ensures re(TaxInvoiceText, text).Some? ==> r == Trim(TextCleaning.CollapseSpaces(Capture(re, TaxInvoiceText, text, 1).value))
  {
    match Capture(re, TaxInvoiceText, text, 1)
    case Some(c) => Trim(TextCleaning.CollapseSpaces(c))
    case None => ""
  }

  /** `extractProduct`, with the branch that produced the answer: a
      non-empty label text wins, then a non-empty text after "Tax
      Invoice", then the first product keyword, then the placeholder. */
  function ExtractProductWithSource(re: Regex, text: string): (r: (string, ProductSource))
    ensures r.0 != ""
    ensures LabelText(re, text) != "" ==> r == (LabelText(re, text), FromLabel)
    ensures LabelText(re, text) == "" && InvoiceText(re, text) != "" ==> r == (InvoiceText(re, text), AfterTaxInvoice)
    ensures LabelText(re, text) == "" && InvoiceText(re, text) == "" ==>
      (re(ProductKeyword, text).Some? ==> r == (Whole(re, ProductKeyword, text).value, Keyword))
      && (re(ProductKeyword, text).None? ==> r == (NotFound, Missing))
    ensures r.1 == FromLabel ==> |Words(r.0)| <= 6 && re(ProductLabel, text).Some?
    ensures r.1 == AfterTaxInvoice ==> re(TaxInvoiceText, text).Some?
    ensures r.1 == Keyword ==> IsProductKeyword(Lower(r.0)) && Occurs(r.0, text) && r.0 != NotFound
    ensures r.1 == Missing ==> r.0 == NotFound && re(ProductKeyword, text).None?
  {
    var fromLabel := LabelText(re, text);
    if fromLabel != "" then (fromLabel, FromLabel)
    else
      var fromInvoice := InvoiceText(re, text);
      if fromInvoice != "" then (fromInvoice, AfterTaxInvoice)
      else match Whole(re, ProductKeyword, text)
        case Some(w) =>
          KeywordIsNotPlaceholder(w);
          (w, Keyword)
        case None => (NotFound, Missing)
  }

  /** `extractProduct`: never empty, and the placeholder only when no
      pattern matched that could have supplied a product. */
  function ExtractProduct(re: Regex, text: string): (r: string)
    ensures r != ""
    ensures r == NotFound ==>
      re(ProductKeyword, text).None? || re(ProductLabel, text).Some? || re(TaxInvoiceText, text).Some?
    ensures LabelText(re, text) != "" ==> r == LabelText(re, text)
  {
    ExtractProductWithSource(re, text).0
  }
}
