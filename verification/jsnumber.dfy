/** JavaScript numbers as the invoice code computes with them: money and
    rates are exact reals, `NaN` is a value of its own, and `toFixed(2)`
    is rounding to the nearest hundredth. */
module JsNumber {
  import opened JsText
  import opened Optional

  /** A number the parsers can produce: finite, or `NaN`. */
  datatype Num = Fin(val: real) | NaN {

    /** JavaScript truthiness: `0` and `NaN` are falsy. */
    predicate Truthy() { Fin? && val != 0.0 }

    /** `n > 0`, which is false for `NaN`. */
    predicate Positive() { Fin? && val > 0.0 }

    /** `n || other`. */
    function Or(other: Num): (r: Num)
      ensures Truthy() ==> r == this
      ensures !Truthy() ==> r == other
    {
      if Truthy() then this else other
    }

    /** `n || 0`, which is always a finite number. */
    function OrZero(): (r: real)
      ensures Truthy() ==> r == val
      ensures !Truthy() ==> r == 0.0
    {
      if Truthy() then val else 0.0
    }
  }

  /** `a + b`: `NaN` absorbs. */
  function Add(a: Num, b: Num): (r: Num)
    ensures r.Fin? <==> a.Fin? && b.Fin?
    ensures r.Fin? ==> r.val == a.val + b.val
  {
    if a.Fin? && b.Fin? then Fin(a.val + b.val) else NaN
  }

  /** `a === b` on numbers: `NaN` equals nothing. */
  predicate StrictEq(a: Num, b: Num) {
    a.Fin? && b.Fin? && a.val == b.val
  }

  function Pow10(n: nat): (r: nat)
    ensures r >= 1
  {
    if n == 0 then 1 else 10 * Pow10(n - 1)
  }

  function DigitVal(c: char): (d: nat)
    requires IsDigit(c)
    ensures d < 10
  {
    (c as int - '0' as int) as nat
  }

  /** The value of a string of decimal digits, read left to right. */
  function DigitsValue(s: string): (v: nat)
    requires AllDigits(s)
    decreases |s|
  {
    if |s| == 0 then 0
    else DigitsValue(s[..|s| - 1]) * 10 + DigitVal(s[|s| - 1])
  }

  lemma {:induction false} DigitsValueBound(s: string)
    requires AllDigits(s)
    ensures DigitsValue(s) < Pow10(|s|)
    decreases |s|
  {
    if |s| > 0 {
      DigitsValueBound(s[..|s| - 1]);
    }
  }

  /** The value of the digits after a decimal point. */
  function Fraction(s: string): (v: real)
    requires AllDigits(s)
    ensures 0.0 <= v < 1.0
  {
    DigitsValueBound(s);
    QuotientBelowOne(DigitsValue(s) as real, Pow10(|s|) as real);
    (DigitsValue(s) as real) / (Pow10(|s|) as real)
  }

  lemma QuotientBelowOne(d: real, p: real)
    requires 0.0 <= d < p
    ensures 0.0 <= d / p < 1.0
  {
    assert d / p * p == d;
  }

  /** `parseFloat` of a string made of digits, commas and points (the only
      strings the extractors hand it): the longest prefix of the form
      `\d*(\.\d*)?` with at least one digit, or `NaN` when there is none. */
  function ParseFloat(s: string): (r: Num)
    ensures r.Fin? ==> r.val >= 0.0
    ensures |s| > 0 && IsDigit(s[0]) ==> r.Fin?
  {
    var n := DigitRun(s);
    if n < |s| && s[n] == '.' then
      var rest := s[n + 1..];
      var f := DigitRun(rest);
      if n + f == 0 then NaN
      else Fin(DigitsValue(s[..n]) as real + Fraction(rest[..f]))
    else if n == 0 then NaN
    else Fin(DigitsValue(s[..n]) as real)
  }

  /** `parseFloat(c.replace(/,/g, ""))`, how every labelled money amount is
      read. */
  function ParseAmount(c: string): (r: Num)
    ensures r.Fin? ==> r.val >= 0.0
  {
    ParseFloat(Remove(c, ','))
  }

  /** The whole of `b` as an unsigned decimal literal `\d+(\.\d*)?|\.\d+`. */
  function DecimalLiteral(b: string): (r: Option<real>)
    ensures r.Some? ==> r.value >= 0.0
  {
    var n := DigitRun(b);
    if n == |b| then (if n > 0 then Some(DigitsValue(b) as real) else None)
    else if b[n] == '.' then
      var rest := b[n + 1..];
      var f := DigitRun(rest);
      if f == |rest| && n + f > 0 then Some(DigitsValue(b[..n]) as real + Fraction(rest))
      else None
    else None
  }

  /** `Number(s)` for a string: surrounding `\s` is ignored, the empty
      string is 0, an optionally signed decimal literal is its value, and
      anything else is `NaN`. */
  function ParseJsNumber(s: string): (r: Num)
    ensures Trim(s) == "" ==> r == Fin(0.0)
  {
    var t := Trim(s);
    if t == "" then Fin(0.0)
    else
      var neg := t[0] == '-';
      var body := if t[0] == '-' || t[0] == '+' then t[1..] else t;
      match DecimalLiteral(body)
      case Some(v) => Fin(if neg then -v else v)
      case None => NaN
  }

  /** A string of digits is read by `Number` as its decimal value. */
  lemma ParseJsNumberOfDigits(s: string)
    requires |s| > 0 && AllDigits(s)
    ensures ParseJsNumber(s) == Fin(DigitsValue(s) as real)
  {
    assert NoSpace(s);
    assert Trim(s) == s;
    assert s[0] != '-' && s[0] != '+';
    assert DigitRun(s) == |s| by { DigitRunAll(s); }
  }

  lemma {:induction false} DigitRunAll(s: string)
    requires AllDigits(s)
    ensures DigitRun(s) == |s|
    decreases |s|
  {
    if |s| > 0 {
      DigitRunAll(s[1..]);
    }
  }

  /** `+x.toFixed(2)` for `x >= 0`: the nearest hundredth, halves up. */
  function RoundHalfUp(x: real): real
    requires x >= 0.0
  {
    ((x * 100.0 + 0.5).Floor as real) / 100.0
  }

  /** `+x.toFixed(2)`: rounds the magnitude to the nearest hundredth with
      halves away from zero, and keeps the sign. */
  function Round2(x: real): real {
    if x < 0.0 then -RoundHalfUp(-x) else RoundHalfUp(x)
  }

  lemma Round2Bounds(x: real)
    requires x >= 0.0
    ensures Round2(x) >= 0.0
    ensures x - 0.005 < Round2(x) <= x + 0.005
  {
    var k := (x * 100.0 + 0.5).Floor;
    assert (k as real) <= x * 100.0 + 0.5 < (k as real) + 1.0;
  }

  /** A value already on the hundredths grid is left alone. */
  lemma Round2OfHundredths(k: nat)
    ensures Round2((k as real) / 100.0) == (k as real) / 100.0
  {
    var x := (k as real) / 100.0;
    assert x * 100.0 + 0.5 == (k as real) + 0.5;
    assert (x * 100.0 + 0.5).Floor == k;
  }

  /** Splitting a rounded amount into two rounded halves: the halves add
      up to the amount or to one paisa more, never less. */
  lemma HalvesOfRounded(y: real)
    requires y >= 0.0
    ensures var a := Round2(y); var h := Round2(a / 2.0);
      0.0 <= h + h - a <= 0.01
  {
    var k := (y * 100.0 + 0.5).Floor;
    assert k >= 0;
    var a := Round2(y);
    assert a == (k as real) / 100.0;
    var q := k / 2;
    if k % 2 == 0 {
      assert k == 2 * q;
      assert a / 2.0 * 100.0 + 0.5 == (q as real) + 0.5;
      assert (a / 2.0 * 100.0 + 0.5).Floor == q;
      assert Round2(a / 2.0) == (q as real) / 100.0;
    } else {
      assert k == 2 * q + 1;
      assert a / 2.0 * 100.0 + 0.5 == (q as real) + 1.0;
      assert (a / 2.0 * 100.0 + 0.5).Floor == q + 1;
      assert Round2(a / 2.0) == ((q + 1) as real) / 100.0;
    }
  }
}
