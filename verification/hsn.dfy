/** `extractHSN` of backend/routes/parse.js (lines 108-133): a labelled
    HSN code, else a word-bounded 4 to 8 digit number chosen among the
    numbers of the text, avoiding six-digit PIN codes when the top of the
    invoice looks like an address. */
module Hsn {
  import opened JsText
  import opened JsNumber
  import opened Optional
  import opened Patterns

  /** Length of the leading run of `\w` characters. */
  function WordCharRun(s: string): (n: nat)
    ensures n <= |s|
    ensures forall i | 0 <= i < n :: IsWordChar(s[i])
    ensures n < |s| ==> !IsWordChar(s[n])
    decreases |s|
  {
    if |s| > 0 && IsWordChar(s[0]) then 1 + WordCharRun(s[1..]) else 0
  }

  /** `[...text.matchAll(/\b(\d{4,8})\b/g)].map(m => m[1])`: the maximal
      runs of word characters that are 4 to 8 digits long, in order. */
  function Candidates(s: string): (r: seq<string>)
    ensures forall k | 0 <= k < |r| :: HsnShape(r[k]) && Occurs(r[k], s)
    decreases |s|
  {
    if s == [] then []
    else if !IsWordChar(s[0]) then
      var rest := Candidates(s[1..]);
      OccursInTail(rest, s, 1);
      rest
    else
      var n := WordCharRun(s);
      var tok := s[..n];
      var rest := Candidates(s[n..]);
      OccursInTail(rest, s, n);
      OccursSlice(s, 0, n);
      (if 4 <= n <= 8 && AllDigits(tok) then [tok] else []) + rest
  }

  lemma OccursInTail(xs: seq<string>, s: string, n: nat)
    requires 0 < n <= |s|
    requires forall k | 0 <= k < |xs| :: Occurs(xs[k], s[n..])
    ensures forall k | 0 <= k < |xs| :: Occurs(xs[k], s)
  {
    forall k | 0 <= k < |xs| ensures Occurs(xs[k], s) {
      OccursInSuffix(xs[k], s, n);
    }
  }

  lemma {:induction false} WordCharRunBeforeSeparator(a: string, c: char, b: string)
    requires !IsWordChar(c)
    ensures WordCharRun(a + [c] + b) == WordCharRun(a)
    decreases |a|
  {
    if a == [] {
      assert (a + [c] + b)[0] == c;
    } else if IsWordChar(a[0]) {
      assert (a + [c] + b)[1..] == a[1..] + [c] + b;
      WordCharRunBeforeSeparator(a[1..], c, b);
    }
  }

  /** The numbers on either side of a separator that is not a word
      character are found separately: scanning never joins them. */
  lemma {:induction false} CandidatesSplit(a: string, c: char, b: string)
    requires !IsWordChar(c)
    ensures Candidates(a + [c] + b) == Candidates(a) + Candidates(b)
    decreases |a|
  {
    var s := a + [c] + b;
    if a == [] {
      assert s[0] == c && s[1..] == b;
    } else if !IsWordChar(a[0]) {
      assert s[1..] == a[1..] + [c] + b;
      CandidatesSplit(a[1..], c, b);
    } else {
      var n := WordCharRun(s);
      WordCharRunBeforeSeparator(a, c, b);
      assert n == WordCharRun(a);
      assert s[..n] == a[..n];
      assert s[n..] == a[n..] + [c] + b;
      CandidatesSplit(a[n..], c, b);
    }
  }

  /** A lone code of 4 to 8 digits is the one candidate of its text. */
  lemma CandidatesOfCode(d: string)
    requires HsnShape(d)
    ensures Candidates(d) == [d]
  {
    assert WordCharRun(d) == |d| by { WordCharRunAll(d); }
    assert d[..|d|] == d;
    assert d[|d|..] == [];
  }

  lemma {:induction false} WordCharRunAll(d: string)
    requires AllDigits(d)
    ensures WordCharRun(d) == |d|
    decreases |d|
  {
    if |d| > 0 {
      WordCharRunAll(d[1..]);
    }
  }

  /** A six-digit value, as `parseInt(num, 10)` reads it: the shape of an
      Indian PIN code. */
  predicate PincodeLike(num: string)
    requires AllDigits(num)
  {
    100000 <= DigitsValue(num) <= 999999
  }

  /** `/pune|maharashtra|address|street|road/i.test(text.slice(0, 300))`. */
  predicate AddressNearTop(text: string) {
    var w := Lower(text[..if |text| < 300 then |text| else 300]);
    Occurs("pune", w) || Occurs("maharashtra", w) || Occurs("address", w)
    || Occurs("street", w) || Occurs("road", w)
  }

  /** `candidates.filter(...)`: the PIN-code-like numbers are dropped, but
      only when the top of the text mentions an address. */
  function Filtered(cands: seq<string>, addressy: bool): (r: seq<string>)
    requires forall k | 0 <= k < |cands| :: AllDigits(cands[k])
    ensures forall k | 0 <= k < |r| :: r[k] in cands && !(addressy && PincodeLike(r[k]))
    ensures (exists k | 0 <= k < |cands| :: !(addressy && PincodeLike(cands[k]))) ==> |r| > 0
  {
    if cands == [] then []
    else
      var rest := Filtered(cands[1..], addressy);
      assert forall k | 0 <= k < |rest| :: rest[k] in cands;
      if addressy && PincodeLike(cands[0]) then rest else [cands[0]] + rest
  }

  /** Length of the leading run of characters that are not digits. */
  function NonDigitRun(s: string): (n: nat)
    ensures n <= |s|
    ensures forall i | 0 <= i < n :: !IsDigit(s[i])
    ensures n < |s| ==> IsDigit(s[n])
    decreases |s|
  {
    if |s| > 0 && !IsDigit(s[0]) then 1 + NonDigitRun(s[1..]) else 0
  }

  /** `new RegExp("HSN[^0-9]{0,40}" + num, "i").test(text)`, from position
      `i` on: an "HSN" in any case, at most 40 non-digits, then `num`.
      Since `num` starts with a digit, the non-digits in between are
      exactly the run that follows "HSN". */
  predicate NearHsnFrom(text: string, num: string, i: nat)
    decreases |text| - i
  {
    i + 3 <= |text|
    && ((Lower(text[i..i + 3]) == "hsn"
         && var gap := NonDigitRun(text[i + 3..]);
            gap <= 40 && StartsWith(text[i + 3 + gap..], num))
        || NearHsnFrom(text, num, i + 1))
  }

  /** The first candidate that follows an "HSN" mention. */
  function FirstNearHsn(text: string, cands: seq<string>): (r: Option<string>)
    ensures r.Some? ==> r.value in cands && NearHsnFrom(text, r.value, 0)
    ensures r.None? ==> forall k | 0 <= k < |cands| :: !NearHsnFrom(text, cands[k], 0)
    ensures forall k | 0 <= k < |cands| ::
      NearHsnFrom(text, cands[k], 0) && (forall i | 0 <= i < k :: !NearHsnFrom(text, cands[i], 0))
      ==> r == Some(cands[k])
  {
    if cands == [] then None
    else if NearHsnFrom(text, cands[0], 0) then Some(cands[0])
    else FirstNearHsn(text, cands[1..])
  }

  /** `extractHSN`: a labelled code; else, among the word-bounded numbers
      of the text, the first that follows an "HSN" mention; else a code
      after a table header; else the first number that is not a PIN code
      under an address heading, or the first number at all. */
  function ExtractHsn(re: Regex, text: string): (r: string)
    ensures r == NotFound || (HsnShape(r) && Occurs(r, text))
    ensures re(HsnLabel, text).Some? ==> r == Capture(re, HsnLabel, text, 1).value
    ensures re(HsnLabel, text).None? && FirstNearHsn(text, Candidates(text)).Some?
      ==> r == FirstNearHsn(text, Candidates(text)).value
  {
    match Capture(re, HsnLabel, text, 1)
    case Some(c) => c
    case None =>
      var cands := Candidates(text);
      if cands == [] then NotFound
      else Choose(re, text, cands)
  }

  /** The choice among the numbers of the text, once there is one. */
  function Choose(re: Regex, text: string, cands: seq<string>): (r: string)
    requires cands == Candidates(text) && cands != []
    ensures HsnShape(r) && Occurs(r, text)
    ensures FirstNearHsn(text, cands).None? && re(HsnAfterHeader, text).Some?
      ==> r == Capture(re, HsnAfterHeader, text, 1).value
  {
    match FirstNearHsn(text, cands)
    case Some(n) => n
    case None =>
      match Capture(re, HsnAfterHeader, text, 1)
      case Some(c) => c
      case None =>
        var f := Filtered(cands, AddressNearTop(text));
        if f != [] then
          assert f[0] in cands;
          f[0]
        else cands[0]
  }

  /** Nothing is found exactly when there is no HSN label and no
      word-bounded number of 4 to 8 digits. */
  lemma ExtractHsnNotFound(re: Regex, text: string)
    ensures ExtractHsn(re, text) == NotFound <==>
      re(HsnLabel, text).None? && Candidates(text) == []
  {
    if re(HsnLabel, text).Some? {
      LabelledHsnFound(re, text);
    } else if Candidates(text) != [] {
      CandidateHsnFound(re, text);
    }
  }

  lemma LabelledHsnFound(re: Regex, text: string)
    requires re(HsnLabel, text).Some?
    ensures ExtractHsn(re, text) == Capture(re, HsnLabel, text, 1).value
    ensures ExtractHsn(re, text) != NotFound
  {
    var c := Capture(re, HsnLabel, text, 1);
    assert c.Some? && HsnShape(c.value);
    assert c.value != NotFound;
  }

  lemma CandidateHsnFound(re: Regex, text: string)
    requires re(HsnLabel, text).None? && Candidates(text) != []
    ensures ExtractHsn(re, text) != NotFound
  {
    var r := ExtractHsn(re, text);
    assert HsnShape(r);
    assert r != NotFound;
  }

  /** Under an address heading, the last-resort choice skips PIN codes
      whenever the text has any other number. */
  lemma ExtractHsnAvoidsPincode(re: Regex, text: string)
    requires re(HsnLabel, text).None? && re(HsnAfterHeader, text).None?
    ensures AddressNearTop(text)
      && (forall j | 0 <= j < |Candidates(text)| :: !NearHsnFrom(text, Candidates(text)[j], 0))
      && (exists k | 0 <= k < |Candidates(text)| :: !PincodeLike(Candidates(text)[k]))
      ==> !PincodeLike(ExtractHsn(re, text))
  {
    var cands := Candidates(text);
    if && AddressNearTop(text)
       && (forall j | 0 <= j < |cands| :: !NearHsnFrom(text, cands[j], 0))
       && (exists k | 0 <= k < |cands| :: !PincodeLike(cands[k]))
    {
      assert FirstNearHsn(text, cands).None?;
      var f := Filtered(cands, true);
      assert |f| > 0;
    }
  }
}
