/** `cleanText` of backend/routes/parse.js: the normalisation every
    extractor of an uploaded invoice reads its text through. */
module TextCleaning {
  import opened JsText

  /** The characters the third step keeps: `[\w\s₹%\-:.,/]`. */
  predicate Kept(c: char) {
    IsWordChar(c) || IsSpace(c) || c == '₹' || c == '%' || c == '-' || c == ':'
    || c == '.' || c == ',' || c == '/'
  }

  /** `replace(/\r?\n|\r/g, " ")`: every line break, `\r\n` included,
      becomes one space. */
  function BreakLines(s: string): (r: string)
    ensures '\r' !in r && '\n' !in r
    decreases |s|
  {
    if s == [] then []
    else if |s| >= 2 && s[0] == '\r' && s[1] == '\n' then " " + BreakLines(s[2..])
    else if s[0] == '\r' || s[0] == '\n' then " " + BreakLines(s[1..])
    else [s[0]] + BreakLines(s[1..])
  }

  /** `replace(/\s{2,}/g, " ")`: every run of two or more `\s` becomes one
      space; a lone `\s` is kept as it is. */
  function CollapseSpaces(s: string): (r: string)
    ensures forall c :: c in r ==> c in s || c == ' '
    decreases |s|
  {
    if s == [] then []
    else if IsSpace(s[0]) then
      var n := SpaceRun(s);
      (if n >= 2 then " " else [s[0]]) + CollapseSpaces(s[n..])
    else [s[0]] + CollapseSpaces(s[1..])
  }

  /** `replace(/[^\w\s₹%\-:.,/]/g, "")`. */
  function Strip(s: string): (r: string)
    ensures forall i | 0 <= i < |r| :: Kept(r[i])
    ensures forall c :: c in r ==> c in s
    decreases |s|
  {
    if s == [] then []
    else if Kept(s[0]) then [s[0]] + Strip(s[1..])
    else Strip(s[1..])
  }

  /** `cleanText`: line breaks to spaces, long runs of `\s` to one space,
      everything outside `[\w\s₹%\-:.,/]` dropped, then trimmed. */
  function CleanText(s: string): (r: string)
    ensures '\r' !in r && '\n' !in r
    ensures forall i | 0 <= i < |r| :: Kept(r[i])
    ensures |r| > 0 ==> !IsSpace(r[0]) && !IsSpace(r[|r| - 1])
  {
    var b := BreakLines(s);
    var c := CollapseSpaces(b);
    var t := Strip(c);
    var r := Trim(t);
    assert forall x :: x in c ==> x in b || x == ' ';
    r
  }

  /** The word characters of a string, in order. */
  function WordChars(s: string): (r: string)
    ensures forall i | 0 <= i < |r| :: IsWordChar(r[i])
    decreases |s|
  {
    if s == [] then []
    else if IsWordChar(s[0]) then [s[0]] + WordChars(s[1..])
    else WordChars(s[1..])
  }

  lemma {:induction false} WordCharsAppend(a: string, b: string)
    ensures WordChars(a + b) == WordChars(a) + WordChars(b)
    decreases |a|
  {
    if a == [] {
      assert a + b == b;
    } else {
      assert (a + b)[1..] == a[1..] + b;
      WordCharsAppend(a[1..], b);
    }
  }

  lemma {:induction false} WordCharsOfSpaces(s: string)
    requires forall i | 0 <= i < |s| :: IsSpace(s[i])
    ensures WordChars(s) == []
    decreases |s|
  {
    if s != [] {
      WordCharsOfSpaces(s[1..]);
    }
  }

  lemma {:induction false} WordCharsBreakLines(s: string)
    ensures WordChars(BreakLines(s)) == WordChars(s)
    decreases |s|
  {
    if s == [] {
    } else if |s| >= 2 && s[0] == '\r' && s[1] == '\n' {
      WordCharsBreakLines(s[2..]);
      WordCharsAppend(" ", BreakLines(s[2..]));
      assert s[1..][1..] == s[2..];
    } else if s[0] == '\r' || s[0] == '\n' {
      WordCharsBreakLines(s[1..]);
      WordCharsAppend(" ", BreakLines(s[1..]));
    } else {
      WordCharsBreakLines(s[1..]);
      WordCharsAppend([s[0]], BreakLines(s[1..]));
    }
  }

  lemma {:induction false} WordCharsCollapse(s: string)
    ensures WordChars(CollapseSpaces(s)) == WordChars(s)
    decreases |s|
  {
    if s == [] {
    } else if IsSpace(s[0]) {
      var n := SpaceRun(s);
      WordCharsCollapse(s[n..]);
      var head: string := if n >= 2 then " " else [s[0]];
      WordCharsAppend(head, CollapseSpaces(s[n..]));
      assert s == s[..n] + s[n..];
      WordCharsAppend(s[..n], s[n..]);
      WordCharsOfSpaces(s[..n]);
      WordCharsOfSpaces(head);
    } else {
      WordCharsCollapse(s[1..]);
      WordCharsAppend([s[0]], CollapseSpaces(s[1..]));
    }
  }

  lemma {:induction false} WordCharsStrip(s: string)
    ensures WordChars(Strip(s)) == WordChars(s)
    decreases |s|
  {
    if s != [] {
      WordCharsStrip(s[1..]);
      if Kept(s[0]) {
        WordCharsAppend([s[0]], Strip(s[1..]));
      }
    }
  }

  lemma WordCharsTrim(s: string)
    ensures WordChars(Trim(s)) == WordChars(s)
  {
    var a := SpaceRun(s);
    var t := s[a..];
    var b := TrailingSpaceRun(t);
    assert s == s[..a] + t;
    assert t == t[..|t| - b] + t[|t| - b..];
    WordCharsAppend(s[..a], t);
    WordCharsAppend(t[..|t| - b], t[|t| - b..]);
    WordCharsOfSpaces(s[..a]);
    WordCharsOfSpaces(t[|t| - b..]);
    assert Trim(s) == t[..|t| - b];
  }

  /** Cleaning never loses, adds or reorders a letter, digit or `_`: the
      words a label regex looks for survive it. */
  lemma CleanTextKeepsWordChars(s: string)
    ensures WordChars(CleanText(s)) == WordChars(s)
  {
    var b := BreakLines(s);
    var c := CollapseSpaces(b);
    var t := Strip(c);
    WordCharsBreakLines(s);
    WordCharsCollapse(b);
    WordCharsStrip(c);
    WordCharsTrim(t);
  }

  /** Text already in cleaned form: only kept characters, no line breaks,
      no two `\s` in a row and none at either end. */
  predicate IsClean(s: string) {
    && (forall i | 0 <= i < |s| :: Kept(s[i]) && s[i] != '\r' && s[i] != '\n')
    && (forall i | 0 <= i < |s| - 1 :: !(IsSpace(s[i]) && IsSpace(s[i + 1])))
    && (|s| > 0 ==> !IsSpace(s[0]) && !IsSpace(s[|s| - 1]))
  }

  lemma {:induction false} BreakLinesNoBreaks(s: string)
    requires forall i | 0 <= i < |s| :: s[i] != '\r' && s[i] != '\n'
    ensures BreakLines(s) == s
    decreases |s|
  {
    if s != [] {
      BreakLinesNoBreaks(s[1..]);
    }
  }

  lemma {:induction false} CollapseNoRuns(s: string)
    requires forall i | 0 <= i < |s| - 1 :: !(IsSpace(s[i]) && IsSpace(s[i + 1]))
    ensures CollapseSpaces(s) == s
    decreases |s|
  {
    if s != [] {
      if IsSpace(s[0]) {
        assert SpaceRun(s) == 1 by {
          if |s| > 1 {
            assert !IsSpace(s[1]);
            assert SpaceRun(s[1..]) == 0;
          }
        }
      }
      CollapseNoRuns(s[1..]);
    }
  }

  lemma {:induction false} StripAllKept(s: string)
    requires forall i | 0 <= i < |s| :: Kept(s[i])
    ensures Strip(s) == s
    decreases |s|
  {
    if s != [] {
      StripAllKept(s[1..]);
    }
  }

  /** Cleaned text is left alone by a second cleaning. */
  lemma CleanTextOfClean(s: string)
    requires IsClean(s)
    ensures CleanText(s) == s
  {
    BreakLinesNoBreaks(s);
    CollapseNoRuns(s);
    StripAllKept(s);
  }

  /** …but the output of a cleaning need not be clean: dropping a
      character between two spaces leaves a double space behind, so
      `cleanText` is not idempotent. */
  lemma CleanTextNotIdempotent()
    ensures CleanText("a @ b") == "a  b"
    ensures CleanText("a  b") == "a b"
  {
    CleanFirstPass();
    CleanSecondPass();
  }

  lemma CleanFirstPass()
    ensures CleanText("a @ b") == "a  b"
  {
    NoBreaksInAtText();
    NoRunsInAtText();
    StripDropsAt();
    CleanTextOfSteps("a @ b", "a  b");
  }

  /** Cleaning is the trimmed strip when the first two steps change
      nothing. */
  lemma CleanTextOfSteps(s: string, t: string)
    requires BreakLines(s) == s && CollapseSpaces(s) == s && Strip(s) == t
    requires |t| > 0 && !IsSpace(t[0]) && !IsSpace(t[|t| - 1])
    ensures CleanText(s) == t
  {
  }

  lemma NoBreaksInAtText()
    ensures BreakLines("a @ b") == "a @ b"
  {
    BreakLinesNoBreaks("a @ b");
  }

  lemma NoRunsInAtText()
    ensures CollapseSpaces("a @ b") == "a @ b"
  {
    CollapseNoRuns("a @ b");
  }

  lemma StripDropsAt()
    ensures Strip("a @ b") == "a  b"
  {
    assert "a @ b"[1..] == " @ b";
    assert " @ b"[1..] == "@ b";
    assert "@ b"[1..] == " b";
    StripAllKept(" b");
    assert Strip("@ b") == " b";
  }

  lemma CleanSecondPass()
    ensures CleanText("a  b") == "a b"
  {
    NoBreaksInSpacedText();
    CollapseDoubleSpace();
    KeptSpacedText();
    assert CleanText("a  b") == Trim("a b");
  }

  lemma NoBreaksInSpacedText()
    ensures BreakLines("a  b") == "a  b"
  {
    BreakLinesNoBreaks("a  b");
  }

  lemma KeptSpacedText()
    ensures Strip("a b") == "a b"
  {
    StripAllKept("a b");
  }

  lemma CollapseDoubleSpace()
    ensures CollapseSpaces("a  b") == "a b"
  {
    assert "a  b"[1..] == "  b";
    assert SpaceRun("  b") == 2 by {
      assert "  b"[1..] == " b";
      assert " b"[1..] == "b";
    }
    assert "  b"[2..] == "b";
    assert CollapseSpaces("b") == "b" by { CollapseNoRuns("b"); }
  }
}
