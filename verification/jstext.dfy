/** Character classes and string primitives of JavaScript, as the invoice
    parsers use them. Strings are sequences of code points; every
    character the parsers keep lies in the Basic Multilingual Plane, where
    this agrees with JavaScript's UTF-16 code units. */
module JsText {

  predicate IsDigit(c: char) { '0' <= c <= '9' }
  predicate IsUpper(c: char) { 'A' <= c <= 'Z' }
  predicate IsLower(c: char) { 'a' <= c <= 'z' }
  predicate IsLetter(c: char) { IsUpper(c) || IsLower(c) }
  predicate IsAlnum(c: char) { IsLetter(c) || IsDigit(c) }

  /** `\w` of a regular expression without the `u` flag. */
  predicate IsWordChar(c: char) { IsAlnum(c) || c == '_' }

  /** `\s`: the WhiteSpace and LineTerminator code points of ECMA-262,
      which is also the set `String.prototype.trim` removes. */
  predicate IsSpace(c: char) {
    || c == '\t' || c == '\n' || c == '\U{000B}' || c == '\U{000C}' || c == '\r'
    || c == ' ' || c == '\U{00A0}' || c == '\U{1680}'
    || ('\U{2000}' <= c <= '\U{200A}')
    || c == '\U{2028}' || c == '\U{2029}' || c == '\U{202F}' || c == '\U{205F}'
    || c == '\U{3000}' || c == '\U{FEFF}'
  }

  /** The code points `.` does not match. */
  predicate IsLineTerminator(c: char) {
    c == '\n' || c == '\r' || c == '\U{2028}' || c == '\U{2029}'
  }

  predicate AllDigits(s: string) { forall i | 0 <= i < |s| :: IsDigit(s[i]) }
  predicate NoSpace(s: string) { forall i | 0 <= i < |s| :: !IsSpace(s[i]) }

  function LowerChar(c: char): (r: char)
    ensures IsUpper(c) ==> IsLower(r)
    ensures !IsUpper(c) ==> r == c
  {
    if IsUpper(c) then (c as int + 32) as char else c
  }

  function UpperChar(c: char): (r: char)
    ensures IsLower(c) ==> IsUpper(r)
    ensures !IsLower(c) ==> r == c
  {
    if IsLower(c) then (c as int - 32) as char else c
  }

  /** `toLowerCase`, restricted to the ASCII letters. */
  function Lower(s: string): (r: string)
    ensures |r| == |s|
    ensures forall i | 0 <= i < |s| :: r[i] == LowerChar(s[i])
  {
    seq(|s|, i requires 0 <= i < |s| => LowerChar(s[i]))
  }

  /** Lower-casing leaves a text without capitals as it is. */
  lemma LowerOfLower(s: string)
    requires forall i | 0 <= i < |s| :: !IsUpper(s[i])
    ensures Lower(s) == s
  {
  }

  /** `toUpperCase`, restricted to the ASCII letters. */
  function Upper(s: string): (r: string)
    ensures |r| == |s|
    ensures forall i | 0 <= i < |s| :: r[i] == UpperChar(s[i])
  {
    seq(|s|, i requires 0 <= i < |s| => UpperChar(s[i]))
  }

  /** Case-insensitive equality of two strings, as a regex with the `i`
      flag compares an ASCII literal. */
  predicate EqualsIgnoreCase(a: string, b: string) {
    Lower(a) == Lower(b)
  }

  predicate StartsWith(s: string, prefix: string) {
    |prefix| <= |s| && s[..|prefix|] == prefix
  }

  /** `s.includes(p)`. */
  predicate Occurs(p: string, s: string)
    decreases |s|
  {
    StartsWith(s, p) || (|s| > 0 && Occurs(p, s[1..]))
  }

  lemma {:induction false} OccursSlice(s: string, i: nat, j: nat)
    requires i <= j <= |s|
    ensures Occurs(s[i..j], s)
    decreases i
  {
    if i == 0 {
      assert s[..j - i] == s[i..j];
    } else {
      assert s[1..][i - 1..j - 1] == s[i..j];
      OccursSlice(s[1..], i - 1, j - 1);
    }
  }

  /** What occurs in a suffix occurs in the whole text. */
  lemma {:induction false} OccursInSuffix(p: string, s: string, n: nat)
    requires n <= |s| && Occurs(p, s[n..])
    ensures Occurs(p, s)
    decreases n
  {
    if n > 0 {
      assert s[1..][n - 1..] == s[n..];
      OccursInSuffix(p, s[1..], n - 1);
    }
  }

  lemma {:induction false} OccursWithin(p: string, s: string)
    requires Occurs(p, s)
    ensures |p| <= |s|
    decreases |s|
  {
    if !StartsWith(s, p) {
      OccursWithin(p, s[1..]);
    }
  }

  /** Length of the leading run of `\s`. */
  function SpaceRun(s: string): (n: nat)
    ensures n <= |s|
    ensures forall i | 0 <= i < n :: IsSpace(s[i])
    ensures n < |s| ==> !IsSpace(s[n])
    decreases |s|
  {
    if |s| > 0 && IsSpace(s[0]) then 1 + SpaceRun(s[1..]) else 0
  }

  /** Length of the leading run of characters that are not `\s`. */
  function WordRun(s: string): (n: nat)
    ensures n <= |s|
    ensures forall i | 0 <= i < n :: !IsSpace(s[i])
    ensures n < |s| ==> IsSpace(s[n])
    decreases |s|
  {
    if |s| > 0 && !IsSpace(s[0]) then 1 + WordRun(s[1..]) else 0
  }

  /** Length of the leading run of decimal digits. */
  function DigitRun(s: string): (n: nat)
    ensures n <= |s|
    ensures AllDigits(s[..n])
    ensures n < |s| ==> !IsDigit(s[n])
    decreases |s|
  {
    if |s| > 0 && IsDigit(s[0]) then 1 + DigitRun(s[1..]) else 0
  }

  /** Digits, then a non-digit: the digit run stops at the non-digit. */
  lemma {:induction false} DigitRunBeforeSeparator(a: string, c: char, b: string)
    requires AllDigits(a) && !IsDigit(c)
    ensures DigitRun(a + [c] + b) == |a|
    decreases |a|
  {
    if |a| == 0 {
      assert (a + [c] + b)[0] == c;
    } else {
      assert (a + [c] + b)[1..] == a[1..] + [c] + b;
      DigitRunBeforeSeparator(a[1..], c, b);
    }
  }

  function TrimStart(s: string): (r: string)
    ensures r == s[SpaceRun(s)..]
  {
    s[SpaceRun(s)..]
  }

  /** Length of the trailing run of `\s`. */
  function TrailingSpaceRun(s: string): (n: nat)
    ensures n <= |s|
    ensures forall i | |s| - n <= i < |s| :: IsSpace(s[i])
    ensures n < |s| ==> !IsSpace(s[|s| - n - 1])
    decreases |s|
  {
    if |s| > 0 && IsSpace(s[|s| - 1]) then 1 + TrailingSpaceRun(s[..|s| - 1]) else 0
  }

  function TrimEnd(s: string): (r: string)
    ensures r == s[..|s| - TrailingSpaceRun(s)]
  {
    s[..|s| - TrailingSpaceRun(s)]
  }

  /** `String.prototype.trim`: the result is the slice of `s` left after
      dropping the `\s` characters at both ends, and it has none at either
      end. */
  function Trim(s: string): (r: string)
    ensures |r| > 0 ==> !IsSpace(r[0]) && !IsSpace(r[|r| - 1])
    ensures |r| <= |s|
    ensures forall c :: c in r ==> c in s
    ensures NoSpace(s) ==> r == s
    ensures |s| > 0 && !IsSpace(s[0]) && !IsSpace(s[|s| - 1]) ==> r == s
  {
    var a := SpaceRun(s);
    var t := s[a..];
    var b := TrailingSpaceRun(t);
    assert t[..|t| - b] == s[a..|s| - b];
    assert |t| - b > 0 ==> !IsSpace(t[|t| - b - 1]) && !IsSpace(t[0]);
    t[..|t| - b]
  }

  /** Every occurrence of `c` removed (`replace(/c/g, "")`). */
  function Remove(s: string, c: char): (r: string)
    ensures c !in r
    ensures |r| <= |s|
    ensures forall x :: x in r ==> x in s
    ensures c !in s ==> r == s
  {
    if s == [] then []
    else if s[0] == c then Remove(s[1..], c)
    else [s[0]] + Remove(s[1..], c)
  }

  /** Every `\s` character removed (`replace(/\s+/g, "")`). */
  function RemoveSpaces(s: string): (r: string)
    ensures NoSpace(r)
    ensures |r| <= |s|
    ensures forall x :: x in r ==> x in s
  {
    if s == [] then []
    else if IsSpace(s[0]) then RemoveSpaces(s[1..])
    else [s[0]] + RemoveSpaces(s[1..])
  }

  /** The first occurrence of `c` removed (`replace("c", "")` with a
      string pattern). */
  function RemoveFirst(s: string, c: char): (r: string)
    ensures c in s ==> |r| == |s| - 1
    ensures c !in s ==> r == s
  {
    if s == [] then []
    else if s[0] == c then s[1..]
    else [s[0]] + RemoveFirst(s[1..], c)
  }

  /** The pieces of `s.split(/\s+/)` for a string with no `\s` at either
      end: the maximal runs of non-`\s` characters, in order. */
  function Words(s: string): (ws: seq<string>)
    ensures forall k | 0 <= k < |ws| :: |ws[k]| > 0 && NoSpace(ws[k])
    decreases |s|
  {
    if s == [] then []
    else if IsSpace(s[0]) then Words(s[1..])
    else
      var n := WordRun(s);
      [s[..n]] + Words(s[n..])
  }

  /** `ws.join(" ")`. */
  function JoinWords(ws: seq<string>): string {
    if ws == [] then ""
    else if |ws| == 1 then ws[0]
    else ws[0] + " " + JoinWords(ws[1..])
  }

  lemma {:induction false} WordsOfWordThenRest(w: string, rest: string)
    requires |w| > 0 && NoSpace(w)
    requires |rest| == 0 || IsSpace(rest[0])
    ensures Words(w + rest) == [w] + Words(rest[SpaceRun(rest)..])
  {
    var s := w + rest;
    assert s[..|w|] == w;
    WordRunOfPrefix(w, rest);
    assert s[|w|..] == rest;
    WordsSkipsSpaces(rest);
  }

  lemma {:induction false} WordRunOfPrefix(w: string, rest: string)
    requires NoSpace(w)
    requires |rest| == 0 || IsSpace(rest[0])
    ensures WordRun(w + rest) == |w|
    decreases |w|
  {
    if |w| > 0 {
      assert (w + rest)[1..] == w[1..] + rest;
      WordRunOfPrefix(w[1..], rest);
    } else {
      assert w + rest == rest;
    }
  }

  lemma {:induction false} WordsSkipsSpaces(s: string)
    ensures Words(s) == Words(s[SpaceRun(s)..])
    decreases |s|
  {
    if |s| > 0 && IsSpace(s[0]) {
      WordsSkipsSpaces(s[1..]);
      assert s[1..][SpaceRun(s[1..])..] == s[SpaceRun(s)..];
    }
  }

  /** Splitting a space-joined list of space-free words gives the words
      back. */
  lemma {:induction false} WordsOfJoin(ws: seq<string>)
    requires forall k | 0 <= k < |ws| :: |ws[k]| > 0 && NoSpace(ws[k])
    ensures Words(JoinWords(ws)) == ws
    decreases |ws|
  {
    if |ws| == 0 {
    } else if |ws| == 1 {
      WordsOfWordThenRest(ws[0], "");
      assert ws[0] + "" == ws[0];
    } else {
      var rest := " " + JoinWords(ws[1..]);
      assert JoinWords(ws) == ws[0] + rest;
      WordsOfWordThenRest(ws[0], rest);
      assert SpaceRun(rest) >= 1;
      var tail := JoinWords(ws[1..]);
      assert rest[1..] == tail;
      SpaceRunOfJoin(ws[1..]);
      assert rest[SpaceRun(rest)..] == tail;
      WordsOfJoin(ws[1..]);
    }
  }

  lemma SpaceRunOfJoin(ws: seq<string>)
    requires |ws| > 0
    requires forall k | 0 <= k < |ws| :: |ws[k]| > 0 && NoSpace(ws[k])
    ensures |JoinWords(ws)| > 0 && !IsSpace(JoinWords(ws)[0])
    ensures SpaceRun(" " + JoinWords(ws)) == 1
  {
    if |ws| > 1 {
      assert JoinWords(ws) == ws[0] + " " + JoinWords(ws[1..]);
      assert JoinWords(ws)[0] == ws[0][0];
    }
    var s := " " + JoinWords(ws);
    assert s[1..] == JoinWords(ws);
  }

  /** Decimal digits of a natural number, without leading zeros. */
  function NatToString(n: nat): (s: string)
    ensures |s| > 0 && AllDigits(s)
    decreases n
  {
    var d := ['0' + (n % 10) as char];
    if n < 10 then d else NatToString(n / 10) + d
  }

  /** `String(n).padStart(2, "0")`. */
  function Pad2(n: nat): (s: string)
    ensures |s| >= 2 && AllDigits(s)
  {
    if n < 10 then "0" + NatToString(n) else NatToString(n)
  }
}
