/** Running totals as JavaScript's `+=` computes them: from 0, left to
    right, `NaN` absorbing. */
module Sums {
  import opened JsNumber

  /** `xs.reduce((a, x) => a + x, 0)`. */
  function SumNums(xs: seq<Num>): (r: Num)
    ensures xs == [] ==> r == Fin(0.0)
    ensures r.Fin? <==> forall i | 0 <= i < |xs| :: xs[i].Fin?
    decreases |xs|
  {
    if xs == [] then Fin(0.0)
    else Add(SumNums(xs[..|xs| - 1]), xs[|xs| - 1])
  }

  /** The same over plain reals. */
  function SumReals(xs: seq<real>): (r: real)
    decreases |xs|
  {
    if xs == [] then 0.0
    else SumReals(xs[..|xs| - 1]) + xs[|xs| - 1]
  }

  /** `+` on numbers is associative, `NaN` included. */
  lemma AddAssoc(a: Num, b: Num, c: Num)
    ensures Add(Add(a, b), c) == Add(a, Add(b, c))
  {
  }

  /** The total of two lists one after the other is the sum of their
      totals. */
  lemma {:induction false} SumNumsAppend(xs: seq<Num>, ys: seq<Num>)
    ensures SumNums(xs + ys) == Add(SumNums(xs), SumNums(ys))
    decreases |ys|
  {
    if ys == [] {
      assert xs + ys == xs;
    } else {
      var n := |ys| - 1;
      var zs := xs + ys;
      assert zs[..|zs| - 1] == xs + ys[..n];
      assert zs[|zs| - 1] == ys[n];
      assert SumNums(zs) == Add(SumNums(xs + ys[..n]), ys[n]);
      assert SumNums(ys) == Add(SumNums(ys[..n]), ys[n]);
      SumNumsAppend(xs, ys[..n]);
      AddAssoc(SumNums(xs), SumNums(ys[..n]), ys[n]);
    }
  }

  lemma {:induction false} SumRealsAppend(xs: seq<real>, ys: seq<real>)
    ensures SumReals(xs + ys) == SumReals(xs) + SumReals(ys)
    decreases |ys|
  {
    if ys == [] {
      assert xs + ys == xs;
    } else {
      var n := |ys| - 1;
      assert (xs + ys)[..|xs + ys| - 1] == xs + ys[..n];
      SumRealsAppend(xs, ys[..n]);
    }
  }

  /** A sum of non-negative terms is non-negative. */
  lemma {:induction false} SumRealsNonNegative(xs: seq<real>)
    requires forall i | 0 <= i < |xs| :: xs[i] >= 0.0
    ensures SumReals(xs) >= 0.0
    decreases |xs|
  {
    if xs != [] {
      SumRealsNonNegative(xs[..|xs| - 1]);
    }
  }
}
