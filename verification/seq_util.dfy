/** List helpers: a table's column, and `[...new Set(xs)]`, the distinct
    elements of a list in order of first appearance. */
module SeqUtil {

  /** One column of a table: the cell of each row, in row order. */
  function Cells<T, C, U>(rows: seq<T>, c: C, cell: (T, C) -> U): (r: seq<U>)
    ensures |r| == |rows|
    ensures forall i | 0 <= i < |rows| :: r[i] == cell(rows[i], c)
    decreases |rows|
  {
    if rows == [] then []
    else Cells(rows[..|rows| - 1], c, cell) + [cell(rows[|rows| - 1], c)]
  }

  predicate NoDup<T(==,!new)>(xs: seq<T>) {
    forall i, j | 0 <= i < j < |xs| :: xs[i] != xs[j]
  }

  /** `xs.indexOf(x)`: the position of the first appearance of `x`. */
  function IndexOf<T(==,!new)>(xs: seq<T>, x: T): (i: nat)
    requires x in xs
    ensures i < |xs| && xs[i] == x
    ensures forall j | 0 <= j < i :: xs[j] != x
  {
    if xs[0] == x then 0 else 1 + IndexOf(xs[1..], x)
  }

  /** A `Set` keeps the elements in the order they were first inserted:
      the result lists each element of `xs` once, and an element listed
      earlier first appears earlier in `xs`. */
  function Distinct<T(==,!new)>(xs: seq<T>): (r: seq<T>)
    ensures NoDup(r)
    ensures forall x :: x in r <==> x in xs
    ensures forall i, j | 0 <= i < j < |r| :: IndexOf(xs, r[i]) < IndexOf(xs, r[j])
    ensures |xs| > 0 ==> |r| > 0 && r[0] == xs[0]
    decreases |xs|
  {
    if xs == [] then []
    else DistinctAfter(xs, 0, {})
  }

  /** The elements of `xs[k..]` outside `seen`, first appearances only,
      where `seen` holds exactly the elements of `xs[..k]`. */
  function DistinctAfter<T(==,!new)>(xs: seq<T>, k: nat, seen: set<T>): (r: seq<T>)
    requires k <= |xs|
    requires seen == set j | 0 <= j < k :: xs[j]
    ensures NoDup(r)
    ensures forall x :: x in r <==> x in xs[k..] && x !in seen
    ensures forall i | 0 <= i < |r| :: r[i] in xs && k <= IndexOf(xs, r[i])
    ensures forall i, j | 0 <= i < j < |r| :: IndexOf(xs, r[i]) < IndexOf(xs, r[j])
    ensures k < |xs| && xs[k] !in seen ==> |r| > 0 && r[0] == xs[k]
    decreases |xs| - k
  {
    if k == |xs| then []
    else
      assert forall x :: x in xs[k..] <==> x == xs[k] || x in xs[k + 1..];
      var seen' := seen + {xs[k]};
      assert seen' == set j | 0 <= j < k + 1 :: xs[j];
      if xs[k] in seen then
        assert seen' == seen;
        DistinctAfter(xs, k + 1, seen)
      else
        var rest := DistinctAfter(xs, k + 1, seen');
        [xs[k]] + rest
  }
}
