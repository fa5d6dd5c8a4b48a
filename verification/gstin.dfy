/** GSTIN shapes and the two word-bounded scanners for them: the
    case-sensitive one of backend/routes/parse.js (`extractAllGSTINs` and
    the unlabelled fallback of the upload route) and the case-insensitive
    one of the voice entry page. */
module Gstin {
  import opened JsText
  import SeqUtil

  /** `\d{2}[A-Z]{5}\d{4}[A-Z0-9][A-Z0-9]Z[A-Z0-9]`, the fifteen characters
      of a GSTIN with the fixed `Z` in position 14. */
  predicate GstinShape(t: string) {
    && |t| == 15
    && IsDigit(t[0]) && IsDigit(t[1])
    && IsUpper(t[2]) && IsUpper(t[3]) && IsUpper(t[4]) && IsUpper(t[5]) && IsUpper(t[6])
    && IsDigit(t[7]) && IsDigit(t[8]) && IsDigit(t[9]) && IsDigit(t[10])
    && (IsUpper(t[11]) || IsDigit(t[11])) && (IsUpper(t[12]) || IsDigit(t[12]))
    && t[13] == 'Z'
    && (IsUpper(t[14]) || IsDigit(t[14]))
  }

  /** `^\d{2}[A-Z]{5}\d{4}[A-Z0-9]{3}$`, the looser shape the voice entry
      page tests (no fixed `Z`). As written it has fourteen characters, one
      short of a GSTIN. */
  predicate SpokenGstinShape(t: string) {
    && |t| == 14
    && IsDigit(t[0]) && IsDigit(t[1])
    && IsUpper(t[2]) && IsUpper(t[3]) && IsUpper(t[4]) && IsUpper(t[5]) && IsUpper(t[6])
    && IsDigit(t[7]) && IsDigit(t[8]) && IsDigit(t[9]) && IsDigit(t[10])
    && (IsUpper(t[11]) || IsDigit(t[11])) && (IsUpper(t[12]) || IsDigit(t[12]))
    && (IsUpper(t[13]) || IsDigit(t[13]))
  }

  /** The loose shape with the fifteenth character its comment promises:
      `^\d{2}[A-Z]{5}\d{4}[A-Z0-9]{4}$`. */
  predicate FullSpokenGstinShape(t: string) {
    && |t| == 15
    && SpokenGstinShape(t[..14])
    && (IsUpper(t[14]) || IsDigit(t[14]))
  }

  /** The loose shape the page tests: as written (`full` false) or with
      the missing character (`full` true). */
  predicate LooseShape(t: string, full: bool) {
    if full then FullSpokenGstinShape(t) else SpokenGstinShape(t)
  }

  function LooseWidth(full: bool): nat {
    if full then 15 else 14
  }

  /** Every GSTIN has the full loose shape, and none has the shape as
      written. */
  lemma StrictIsFullSpoken(t: string)
    requires GstinShape(t)
    ensures FullSpokenGstinShape(t) && !SpokenGstinShape(t)
  {
    assert t[..14][13] == t[13];
  }

  /** A loose match is made of word characters only. */
  lemma LooseShapeWordChars(t: string, full: bool)
    requires LooseShape(t, full)
    ensures |t| == LooseWidth(full)
    ensures forall i | 0 <= i < |t| :: IsWordChar(t[i]) && !IsSpace(t[i])
  {
    var h := if full then t[..14] else t;
    assert SpokenGstinShape(h);
    forall i | 0 <= i < |t| ensures IsWordChar(t[i]) && !IsSpace(t[i]) {
      if i < 14 {
        assert h[i] == t[i];
        assert IsDigit(h[i]) || IsUpper(h[i]);
      }
    }
  }

  /** `\b` before position `i` and after position `j`, for a match whose
      first and last characters are word characters. */
  predicate Bounded(s: string, i: nat, j: nat)
    requires i <= j <= |s|
  {
    (i == 0 || !IsWordChar(s[i - 1])) && (j == |s| || !IsWordChar(s[j]))
  }

  /** A match of `\b\d{2}[A-Z]{5}\d{4}[A-Z0-9][A-Z0-9]Z[A-Z0-9]\b` at `i`. */
  predicate StrictAt(s: string, i: nat) {
    i + 15 <= |s| && GstinShape(s[i..i + 15]) && Bounded(s, i, i + 15)
  }

  /** Every match at position `i` or later, left to right. Matches of this
      pattern cannot overlap (a match is all word characters, and the next
      one needs a non-word character before it), so scanning one position
      at a time finds exactly what a global match does. */
  function StrictFrom(s: string, i: nat): (r: seq<string>)
    ensures forall k | 0 <= k < |r| :: GstinShape(r[k]) && Occurs(r[k], s)
    decreases |s| - i
  {
    if i + 15 > |s| then []
    else if StrictAt(s, i) then
      OccursSlice(s, i, i + 15);
      [s[i..i + 15]] + StrictFrom(s, i + 1)
    else StrictFrom(s, i + 1)
  }

  /** `[...text.matchAll(strict)].map(m => m[0])`. */
  function AllStrict(s: string): (r: seq<string>)
    ensures forall k | 0 <= k < |r| :: GstinShape(r[k]) && Occurs(r[k], s)
  {
    StrictFrom(s, 0)
  }

  /** The first match the scan lists is the leftmost one, and it lists
      none exactly when there is none. */
  lemma {:induction false} StrictFromFirst(s: string, i: nat)
    ensures |StrictFrom(s, i)| == 0 <==> forall j | i <= j :: !StrictAt(s, j)
    ensures |StrictFrom(s, i)| > 0 ==>
      exists j | i <= j :: StrictAt(s, j) && StrictFrom(s, i)[0] == s[j..j + 15]
        && forall k | i <= k < j :: !StrictAt(s, k)
    decreases |s| - i
  {
    if i + 15 > |s| {
      forall j | i <= j ensures !StrictAt(s, j) {
        assert j + 15 > |s|;
      }
    } else if StrictAt(s, i) {
      assert StrictFrom(s, i)[0] == s[i..i + 15];
    } else {
      StrictFromFirst(s, i + 1);
      assert StrictFrom(s, i) == StrictFrom(s, i + 1);
      if |StrictFrom(s, i + 1)| == 0 {
        forall j | i <= j ensures !StrictAt(s, j) {
          if j > i { assert i + 1 <= j; }
        }
      } else {
        var j :| i + 1 <= j && StrictAt(s, j) && StrictFrom(s, i + 1)[0] == s[j..j + 15]
          && forall k | i + 1 <= k < j :: !StrictAt(s, k);
        assert forall k | i <= k < j :: !StrictAt(s, k);
      }
    }
  }

  /** `text.match(strict)?.[0]`: the leftmost match, or nothing exactly
      when the text has no match. */
  function FirstStrict(s: string): (r: seq<string>)
    ensures |r| <= 1
    ensures |r| == 1 ==> GstinShape(r[0]) && Occurs(r[0], s)
    ensures |r| == 0 <==> forall j | 0 <= j :: !StrictAt(s, j)
    ensures |r| == 1 ==>
      exists j | 0 <= j :: StrictAt(s, j) && r[0] == s[j..j + 15] && forall k | 0 <= k < j :: !StrictAt(s, k)
  {
    StrictFromFirst(s, 0);
    var all := AllStrict(s);
    if |all| == 0 then [] else [all[0]]
  }

  /** Every word-bounded strict match is found. */
  lemma {:induction false} StrictFromComplete(s: string, i: nat, j: nat)
    requires i <= j && StrictAt(s, j)
    ensures s[j..j + 15] in StrictFrom(s, i)
    decreases j - i
  {
    if i < j {
      StrictFromComplete(s, i + 1, j);
    }
  }

  /** `extractAllGSTINs`: the distinct GSTINs of the text, each once, in
      order of first appearance. */
  function ExtractAllGstins(text: string): (r: seq<string>)
    ensures SeqUtil.NoDup(r)
    ensures forall k | 0 <= k < |r| :: GstinShape(r[k]) && Occurs(r[k], text)
  {
    var all := AllStrict(text);
    var r := SeqUtil.Distinct(all);
    assert forall k | 0 <= k < |r| :: r[k] in all;
    r
  }

  /** Every GSTIN written in the text between word boundaries is listed. */
  lemma ExtractAllGstinsComplete(text: string, i: nat)
    requires StrictAt(text, i)
    ensures text[i..i + 15] in ExtractAllGstins(text)
  {
    StrictFromComplete(text, 0, i);
  }

  /** A match of `\b(\d{2}[A-Z]{5}\d{4}[A-Z0-9]{3})\b` under the `i` flag
      at `i` (`full` false), or of the same pattern with `{4}` (`full`
      true). */
  predicate SpokenAt(s: string, i: nat, full: bool) {
    var w := LooseWidth(full);
    i + w <= |s| && LooseShape(Upper(s[i..i + w]), full) && Bounded(s, i, i + w)
  }

  /** The leftmost such match, from position `i` on. */
  function FirstSpokenFrom(s: string, i: nat, full: bool): (r: seq<string>)
    ensures |r| <= 1
    decreases |s| - i
  {
    var w := LooseWidth(full);
    if i + w > |s| then []
    else if SpokenAt(s, i, full) then [s[i..i + w]]
    else FirstSpokenFrom(s, i + 1, full)
  }

  /** The scan finds a match exactly when there is one, and what it finds
      is the text of a match. */
  lemma {:induction false} FirstSpokenFromFinds(s: string, i: nat, full: bool)
    ensures var r := FirstSpokenFrom(s, i, full);
      && (|r| == 1 ==> exists j | i <= j :: SpokenAt(s, j, full) && r[0] == s[j..j + LooseWidth(full)])
      && (|r| == 0 <==> forall j | i <= j :: !SpokenAt(s, j, full))
    decreases |s| - i
  {
    var w := LooseWidth(full);
    if i + w > |s| {
      NoSpokenPastEnd(s, i, full);
    } else if SpokenAt(s, i, full) {
      assert SpokenAt(s, i, full) && FirstSpokenFrom(s, i, full)[0] == s[i..i + w];
    } else {
      FirstSpokenFromFinds(s, i + 1, full);
      if |FirstSpokenFrom(s, i + 1, full)| == 0 {
        NoSpokenFrom(s, i, full);
      }
    }
  }

  /** The scan finds the leftmost match: the one at `j` when none starts
      between `i` and `j`. */
  lemma {:induction false} FirstSpokenLeftmost(s: string, i: nat, j: nat, full: bool)
    requires i <= j && SpokenAt(s, j, full)
    requires forall k | i <= k < j :: !SpokenAt(s, k, full)
    ensures FirstSpokenFrom(s, i, full) == [s[j..j + LooseWidth(full)]]
    decreases j - i
  {
    if i < j {
      FirstSpokenLeftmost(s, i + 1, j, full);
    }
  }

  /** The same, for every leftmost match of the text. */
  lemma FirstSpokenIsLeftmost(s: string, full: bool)
    ensures forall j | 0 <= j && SpokenAt(s, j, full) && (forall k | 0 <= k < j :: !SpokenAt(s, k, full)) ::
      FirstSpokenFrom(s, 0, full) == [s[j..j + LooseWidth(full)]]
  {
    forall j | 0 <= j && SpokenAt(s, j, full) && (forall k | 0 <= k < j :: !SpokenAt(s, k, full))
      ensures FirstSpokenFrom(s, 0, full) == [s[j..j + LooseWidth(full)]]
    {
      FirstSpokenLeftmost(s, 0, j, full);
    }
  }

  /** No match starts where the rest of the text is too short. */
  lemma NoSpokenPastEnd(s: string, i: nat, full: bool)
    requires i + LooseWidth(full) > |s|
    ensures forall j | i <= j :: !SpokenAt(s, j, full)
  {
    forall j | i <= j ensures !SpokenAt(s, j, full) {
      assert j + LooseWidth(full) > |s|;
    }
  }

  /** No match at `i` and none after it: none from `i` on. */
  lemma NoSpokenFrom(s: string, i: nat, full: bool)
    requires !SpokenAt(s, i, full)
    requires forall j | i + 1 <= j :: !SpokenAt(s, j, full)
    ensures forall j | i <= j :: !SpokenAt(s, j, full)
  {
    forall j | i <= j ensures !SpokenAt(s, j, full) {
      if j > i {
        assert i + 1 <= j;
      }
    }
  }

  /** A GSTIN written in one piece between word boundaries is a match of
      the full pattern, but no match of the pattern as written starts
      there: fourteen characters in, the next character is still a word
      character, so `\b` fails. */
  lemma StrictAtIsSpoken(s: string, i: nat)
    requires StrictAt(s, i)
    ensures SpokenAt(s, i, true) && !SpokenAt(s, i, false)
  {
    var g := s[i..i + 15];
    assert Upper(g) == g;
    StrictIsFullSpoken(g);
    assert s[i + 14] == g[14];
    assert IsWordChar(g[14]);
  }
}
