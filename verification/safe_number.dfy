/** `toNumSafe` of the two GSTR-1 filing screens
    (frontend/app/gst-filing/page.tsx and
    frontend/app/components/dashboard/gstFiling.tsx): any value the invoice
    API returns, read as a finite number, with 0 for anything unreadable.
    The two copies differ only in the tokens stripped from a string, which
    are a parameter here. */
module SafeNumber {
  import opened JsText
  import opened JsNumber
  import opened JsValues

  // ---------------------------------------------------------------------
  // Stripping currency marks, commas and white space
  // ---------------------------------------------------------------------

  /** The rupee sign, U+20B9. */
  const Rupee: string := "\U{20B9}"

  /** The literal alternatives of a strip pattern such as
      `/₹|Rs\.?|,|\s/g`, in the order the alternation tries them (`Rs\.?`
      is greedy, so `Rs.` comes before `Rs`); `\s` is always the last
      alternative and is not listed. */
  predicate Tokens(lits: seq<string>) {
    forall i | 0 <= i < |lits| :: |lits[i]| > 0
  }

  /** Index of the first token `s` starts with, or `|lits|`. */
  function FirstToken(s: string, lits: seq<string>, k: nat): (r: nat)
    requires k <= |lits|
    ensures k <= r <= |lits|
    ensures r < |lits| ==> StartsWith(s, lits[r])
    ensures forall i | k <= i < r :: !StartsWith(s, lits[i])
    decreases |lits| - k
  {
    if k == |lits| then k
    else if StartsWith(s, lits[k]) then k
    else FirstToken(s, lits, k + 1)
  }

  /** `s.replace(pattern, "")`: scanning left to right, the first token
      that starts at the current position is dropped, else a `\s`
      character is dropped, else the character is kept. */
  function Strip(s: string, lits: seq<string>): (r: string)
    requires Tokens(lits)
    ensures NoSpace(r)
    ensures |r| <= |s|
    ensures forall c :: c in r ==> c in s
    ensures forall i | 0 <= i < |lits| && |lits[i]| == 1 :: lits[i][0] !in r
    ensures Plain(s, lits) ==> r == s
    decreases |s|
  {
    if s == [] then []
    else
      var k := FirstToken(s, lits, 0);
      SingleTokenMatches(s, lits);
      if k < |lits| then Strip(s[|lits[k]|..], lits)
      else if IsSpace(s[0]) then Strip(s[1..], lits)
      else [s[0]] + Strip(s[1..], lits)
  }

  /** No white space and no character that starts a token: nothing to
      strip. */
  predicate Plain(s: string, lits: seq<string>)
    requires Tokens(lits)
  {
    forall i | 0 <= i < |s| :: !IsSpace(s[i]) && forall j | 0 <= j < |lits| :: lits[j][0] != s[i]
  }

  /** A one-character token at the front is always matched by some
      token. */
  lemma SingleTokenMatches(s: string, lits: seq<string>)
    requires Tokens(lits) && |s| > 0
    ensures (exists i | 0 <= i < |lits| :: lits[i] == [s[0]]) ==> FirstToken(s, lits, 0) < |lits|
    ensures Plain(s, lits) ==> FirstToken(s, lits, 0) == |lits| && Plain(s[1..], lits)
  {
    if i :| 0 <= i < |lits| && lits[i] == [s[0]] {
      assert StartsWith(s, lits[i]);
    }
    if Plain(s, lits) {
      forall j | 0 <= j < |lits| ensures !StartsWith(s, lits[j]) {
        assert lits[j][0] != s[0];
      }
    }
  }

  // ---------------------------------------------------------------------
  // toNumSafe
  // ---------------------------------------------------------------------

  /** The Extended-JSON wrappers unwrapped, in the order they are tried. */
  const ExtKeys: seq<string> := ["$numberInt", "$numberDouble", "$numberLong", "$numberDecimal", "$number"]

  /** Index of the first wrapper key the object has, or 5. */
  function FirstExtKey(v: JsValue, k: nat): (r: nat)
    requires k <= |ExtKeys|
    ensures k <= r <= |ExtKeys|
    ensures r < |ExtKeys| ==> Has(v, ExtKeys[r])
    ensures forall i | k <= i < r :: !Has(v, ExtKeys[i])
    decreases |ExtKeys| - k
  {
    if k == |ExtKeys| then k
    else if Has(v, ExtKeys[k]) then k
    else FirstExtKey(v, k + 1)
  }

  /** A property's value is smaller than its object. */
  lemma GetIsSmaller(v: JsValue, key: string)
    requires Has(v, key)
    ensures Get(v, key) < v
  {
    var i := IndexOf(v.entries, key);
    assert v.entries[i] in v.entries;
  }

  /** `Number(cleaned)` made finite: `NaN` becomes 0. */
  function FiniteOr0(n: Num): (r: real)
    ensures n.Fin? ==> r == n.val
    ensures n.NaN? ==> r == 0.0
  {
    if n.Fin? then n.val else 0.0
  }

  /** `toNumSafe(v)`. Objects are unwrapped through the first wrapper key
      they have, else through their only property; any other object is 0.
      A JSON object is taken to have distinct keys, so `Object.values`
      has one value per entry. */
  function ToNumSafe(v: JsValue, lits: seq<string>): (r: real)
    requires Tokens(lits)
    ensures IsNullish(v) ==> r == 0.0
    ensures v.Number? && v.n.Fin? ==> r == v.n.val
    ensures v == Number(NaN) ==> r == 0.0
    ensures v.Bool? ==> r == (if v.b then 1.0 else 0.0)
    ensures v.Str? && Plain(v.s, lits) ==> r == FiniteOr0(ParseJsNumber(v.s))
    decreases v
  {
    match v
    case Undefined => 0.0
    case Null => 0.0
    case Bool(b) => if b then 1.0 else 0.0
    case Number(n) => FiniteOr0(n)
    case Str(s) => FiniteOr0(ParseJsNumber(Strip(s, lits)))
    case Object(entries) =>
      var k := FirstExtKey(v, 0);
      if k < |ExtKeys| then
        GetIsSmaller(v, ExtKeys[k]);
        ToNumSafe(Get(v, ExtKeys[k]), lits)
      else if |entries| == 1 then
        assert entries[0] in entries;
        ToNumSafe(entries[0].1, lits)
      else 0.0
  }

  // ---------------------------------------------------------------------
  // What toNumSafe promises
  // ---------------------------------------------------------------------

  /** Reading a number back: the result, stored as a number, reads as
      itself. */
  lemma ToNumSafeIdempotent(v: JsValue, lits: seq<string>)
    requires Tokens(lits)
    ensures ToNumSafe(Number(Fin(ToNumSafe(v, lits))), lits) == ToNumSafe(v, lits)
  {
  }

  /** An Extended-JSON wrapper, such as `{ $numberInt: "2800" }`, reads as
      what it wraps, whatever else the object holds. */
  lemma WrapperUnwraps(v: JsValue, k: nat, lits: seq<string>)
    requires Tokens(lits)
    requires k < |ExtKeys| && Has(v, ExtKeys[k])
    requires forall j | 0 <= j < k :: !Has(v, ExtKeys[j])
    ensures ToNumSafe(v, lits) == ToNumSafe(Get(v, ExtKeys[k]), lits)
  {
    assert FirstExtKey(v, 0) == k by {
      FirstExtKeyIs(v, 0, k);
    }
  }

  lemma {:induction false} FirstExtKeyIs(v: JsValue, i: nat, k: nat)
    requires i <= k < |ExtKeys| && Has(v, ExtKeys[k])
    requires forall j | i <= j < k :: !Has(v, ExtKeys[j])
    ensures FirstExtKey(v, i) == k
    decreases k - i
  {
    if i < k {
      FirstExtKeyIs(v, i + 1, k);
    }
  }

  /** An object with one property reads as that property's value, under
      any key. */
  lemma SinglePropertyUnwraps(key: string, x: JsValue, lits: seq<string>)
    requires Tokens(lits)
    ensures ToNumSafe(Object([(key, x)]), lits) == ToNumSafe(x, lits)
  {
    var v := Object([(key, x)]);
    var k := FirstExtKey(v, 0);
    if k < |ExtKeys| {
      assert v.entries[IndexOf(v.entries, ExtKeys[k])] == (key, x);
    }
  }

  /** An object with two or more properties and no wrapper key is 0. */
  lemma PlainObjectIsZero(v: JsValue, lits: seq<string>)
    requires Tokens(lits) && v.Object? && |v.entries| != 1
    requires forall j | 0 <= j < |ExtKeys| :: !Has(v, ExtKeys[j])
    ensures ToNumSafe(v, lits) == 0.0
  {
    assert FirstExtKey(v, 0) == |ExtKeys| by {
      FirstExtKeyNone(v, 0);
    }
  }

  lemma {:induction false} FirstExtKeyNone(v: JsValue, i: nat)
    requires i <= |ExtKeys|
    requires forall j | i <= j < |ExtKeys| :: !Has(v, ExtKeys[j])
    ensures FirstExtKey(v, i) == |ExtKeys|
    decreases |ExtKeys| - i
  {
    if i < |ExtKeys| {
      FirstExtKeyNone(v, i + 1);
    }
  }

  // ---------------------------------------------------------------------
  // Amounts written with a currency mark and digit grouping
  // ---------------------------------------------------------------------

  /** Digits with grouping commas, starting with a digit: "1,25,000". */
  predicate GroupedDigits(g: string) {
    && |g| > 0 && IsDigit(g[0])
    && forall i | 0 <= i < |g| :: IsDigit(g[i]) || g[i] == ','
  }

  /** Token lists whose only token that can start inside grouped digits
      is the comma itself. */
  predicate CommaIsOnlyDigitToken(lits: seq<string>)
    requires Tokens(lits)
  {
    && "," in lits
    && forall i | 0 <= i < |lits| :: lits[i] == "," || (lits[i][0] != ',' && !IsDigit(lits[i][0]))
  }

  /** Stripping grouped digits removes exactly the commas. */
  lemma {:induction false} StripGroupedDigits(g: string, lits: seq<string>)
    requires Tokens(lits) && CommaIsOnlyDigitToken(lits)
    requires forall i | 0 <= i < |g| :: IsDigit(g[i]) || g[i] == ','
    ensures Strip(g, lits) == Remove(g, ',')
    decreases |g|
  {
    if g != [] {
      StripGroupedDigits(g[1..], lits);
      var k := FirstToken(g, lits, 0);
      if g[0] == ',' {
        var c :| 0 <= c < |lits| && lits[c] == ",";
        SingleTokenMatches(g, lits);
        assert lits[k] == "," by {
          assert StartsWith(g, lits[k]);
          assert lits[k][0] == g[0];
        }
      } else {
        forall j | 0 <= j < |lits| ensures !StartsWith(g, lits[j]) {
          assert lits[j][0] != g[0];
          StartsWithFirst(g, lits[j]);
        }
      }
    }
  }

  /** A string starts with its prefix's first character. */
  lemma StartsWithFirst(s: string, p: string)
    requires |p| > 0
    ensures StartsWith(s, p) ==> |s| > 0 && s[0] == p[0]
  {
    if StartsWith(s, p) {
      assert s[..|p|][0] == s[0];
    }
  }

  /** The value of grouped digits: the digits read with the commas
      dropped. */
  function GroupedValue(g: string): nat
    requires GroupedDigits(g)
  {
    GroupedDigitsValue(g);
    DigitsValue(Remove(g, ','))
  }

  /** The amount in grouped digits reads as its value once the commas are
      gone. */
  lemma GroupedDigitsValue(g: string)
    requires GroupedDigits(g)
    ensures var d := Remove(g, ',');
      |d| > 0 && AllDigits(d) && ParseJsNumber(d) == Fin(DigitsValue(d) as real)
  {
    var d := Remove(g, ',');
    RemoveKeepsFirst(g, ',');
    assert forall x | x in d :: IsDigit(x) by {
      forall x | x in d ensures IsDigit(x) {
        assert x in g && x != ',';
      }
    }
    assert AllDigits(d) by {
      forall i | 0 <= i < |d| ensures IsDigit(d[i]) {
        assert d[i] in d;
      }
    }
    ParseJsNumberOfDigits(d);
  }

  /** Removing a character keeps a first character that differs from
      it. */
  lemma RemoveKeepsFirst(s: string, c: char)
    requires |s| > 0 && s[0] != c
    ensures |Remove(s, c)| > 0 && Remove(s, c)[0] == s[0]
  {
  }

  /** "₹1,25,000" and the like: a currency token in front of grouped
      digits reads as the digits' value. */
  lemma MarkedAmountRoundTrip(mark: string, g: string, lits: seq<string>)
    requires Tokens(lits) && CommaIsOnlyDigitToken(lits)
    requires |lits| > 0 && lits[0] == mark
    requires GroupedDigits(g)
    ensures ToNumSafe(Str(mark + g), lits) == GroupedValue(g) as real
  {
    var s := mark + g;
    assert StartsWith(s, lits[0]) by {
      assert s[..|mark|] == mark;
    }
    assert FirstToken(s, lits, 0) == 0;
    assert s[|mark|..] == g;
    assert Strip(s, lits) == Strip(g, lits);
    StripGroupedDigits(g, lits);
    GroupedDigitsValue(g);
  }

  /** A character no token starts with, kept in front of grouped digits,
      makes the whole string unreadable: 0. */
  lemma UnstrippedMarkIsZero(mark: char, g: string, lits: seq<string>)
    requires Tokens(lits) && CommaIsOnlyDigitToken(lits)
    requires !IsSpace(mark) && !IsDigit(mark) && mark != '-' && mark != '+' && mark != '.'
    requires forall i | 0 <= i < |lits| :: lits[i][0] != mark
    requires GroupedDigits(g)
    ensures ToNumSafe(Str([mark] + g), lits) == 0.0
  {
    MarkKeptByStrip(mark, g, lits);
    GroupedDigitsValue(g);
    MarkedDigitsNaN(mark, Remove(g, ','));
  }

  /** Stripping keeps a mark no token starts with, and drops the commas
      after it. */
  lemma MarkKeptByStrip(mark: char, g: string, lits: seq<string>)
    requires Tokens(lits) && CommaIsOnlyDigitToken(lits)
    requires !IsSpace(mark) && forall i | 0 <= i < |lits| :: lits[i][0] != mark
    requires GroupedDigits(g)
    ensures Strip([mark] + g, lits) == [mark] + Remove(g, ',')
  {
    var s := [mark] + g;
    forall j | 0 <= j < |lits| ensures !StartsWith(s, lits[j]) {
      assert lits[j][0] != s[0];
      StartsWithFirst(s, lits[j]);
    }
    assert FirstToken(s, lits, 0) == |lits|;
    assert s[1..] == g;
    StripGroupedDigits(g, lits);
  }

  /** A mark that is neither space, sign, point nor digit, in front of
      digits, is not a number. */
  lemma MarkedDigitsNaN(mark: char, d: string)
    requires !IsSpace(mark) && !IsDigit(mark) && mark != '-' && mark != '+' && mark != '.'
    requires |d| > 0 && AllDigits(d)
    ensures ParseJsNumber([mark] + d) == NaN
  {
    var t := [mark] + d;
    assert Trim(t) == t by {
      assert !IsSpace(t[0]);
      assert !IsSpace(t[|t| - 1]) by {
        assert t[|t| - 1] == d[|d| - 1];
      }
    }
    assert DigitRun(t) == 0;
  }
}
