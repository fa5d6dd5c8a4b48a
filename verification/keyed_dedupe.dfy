/** Keeping the first item per key, as an object filled with
    `if (!unique[key]) unique[key] = it` and read back with
    `Object.values(unique)` does: the reference definition `FirstPerKey`
    and the scan `Dedupe` that the dashboard's load runs
    (frontend/app/components/dashboard/gstFiling.tsx, lines 95-101). */
module KeyedDedupe {
  /** The keys of a list of items. */
  function KeysOf<T>(items: seq<T>, key: T -> string): (r: set<string>)
    ensures forall i | 0 <= i < |items| :: key(items[i]) in r
    decreases |items|
  {
    if items == [] then {}
    else
      var front := items[..|items| - 1];
      var r := KeysOf(front, key) + {key(items[|items| - 1])};
      assert forall i | 0 <= i < |front| :: front[i] == items[i];
      r
  }

  predicate DistinctKeys<T>(r: seq<T>, key: T -> string) {
    forall i, j | 0 <= i < j < |r| :: key(r[i]) != key(r[j])
  }

  /** The reference: each item whose key no earlier item has, in order. */
  function FirstPerKey<T>(items: seq<T>, key: T -> string): seq<T>
    decreases |items|
  {
    if items == [] then []
    else
      var front := items[..|items| - 1];
      var last := items[|items| - 1];
      if key(last) in KeysOf(front, key) then FirstPerKey(front, key)
      else FirstPerKey(front, key) + [last]
  }

  /** The reference keeps one item per key, every key, each item one of
      the input's. */
  lemma FirstPerKeyProps<T>(items: seq<T>, key: T -> string)
    ensures var r := FirstPerKey(items, key);
      && (forall i | 0 <= i < |r| :: r[i] in items)
      && DistinctKeys(r, key)
      && KeysOf(r, key) == KeysOf(items, key)
      && |r| == |KeysOf(items, key)|
  {
    FirstPerKeyWithin(items, key);
    FirstPerKeyKeys(items, key);
  }

  lemma {:induction false} FirstPerKeyWithin<T>(items: seq<T>, key: T -> string)
    ensures forall i | 0 <= i < |FirstPerKey(items, key)| :: FirstPerKey(items, key)[i] in items
    decreases |items|
  {
    if items != [] {
      var front := items[..|items| - 1];
      var last := items[|items| - 1];
      FirstPerKeyWithin(front, key);
      var r := FirstPerKey(front, key);
      assert forall i | 0 <= i < |r| :: r[i] in items by {
        forall i | 0 <= i < |r| ensures r[i] in items {
          var j :| 0 <= j < |front| && front[j] == r[i];
          assert items[j] == front[j];
        }
      }
      if key(last) !in KeysOf(front, key) {
        var r2 := r + [last];
        assert forall i | 0 <= i < |r2| :: r2[i] == if i < |r| then r[i] else last;
      }
    }
  }

  lemma {:induction false} FirstPerKeyKeys<T>(items: seq<T>, key: T -> string)
    ensures var r := FirstPerKey(items, key);
      && DistinctKeys(r, key)
      && KeysOf(r, key) == KeysOf(items, key)
      && |r| == |KeysOf(items, key)|
    decreases |items|
  {
    if items != [] {
      var front := items[..|items| - 1];
      var last := items[|items| - 1];
      var r := FirstPerKey(front, key);
      FirstPerKeyKeys(front, key);
      if key(last) !in KeysOf(front, key) {
        var r2 := r + [last];
        assert r2[..|r2| - 1] == r;
        assert forall i | 0 <= i < |r| :: key(r[i]) in KeysOf(r, key);
      }
    }
  }

  /** One more item adds its key. */
  lemma KeysOfStep<T>(items: seq<T>, key: T -> string, i: nat)
    requires i < |items|
    ensures KeysOf(items[..i + 1], key) == KeysOf(items[..i], key) + {key(items[i])}
  {
    assert items[..i + 1][..i] == items[..i];
  }

  /** One more item is kept exactly when its key is new. */
  lemma FirstPerKeyStep<T>(items: seq<T>, key: T -> string, i: nat)
    requires i < |items|
    ensures key(items[i]) in KeysOf(items[..i], key) ==>
      FirstPerKey(items[..i + 1], key) == FirstPerKey(items[..i], key)
    ensures key(items[i]) !in KeysOf(items[..i], key) ==>
      FirstPerKey(items[..i + 1], key) == FirstPerKey(items[..i], key) + [items[i]]
  {
    assert items[..i + 1][..i] == items[..i];
  }

  /** `at` maps each key of `kept` to its place there, and back. */
  ghost predicate Placed<T>(key: T -> string, at: map<string, nat>, kept: seq<T>) {
    && (forall k | k in at :: at[k] < |kept| && key(kept[at[k]]) == k)
    && (forall a | 0 <= a < |kept| :: key(kept[a]) in at && at[key(kept[a])] == a)
  }

  /** Each kept value is one of the first `i` items, the `src[a]`-th. */
  ghost predicate Sourced<T>(items: seq<T>, i: nat, kept: seq<T>, src: seq<nat>) {
    |src| == |kept| && forall a | 0 <= a < |kept| :: src[a] < i && src[a] < |items| && kept[a] == items[src[a]]
  }

  /** With the first `i` items all truthy, `kept` is the reference. */
  ghost predicate FollowsReference<T>(items: seq<T>, key: T -> string, truthy: T -> bool, i: nat, kept: seq<T>)
    requires i <= |items|
  {
    (forall j | 0 <= j < i :: truthy(items[j])) ==> kept == FirstPerKey(items[..i], key)
  }

  /** What holds after the first `i` items. */
  ghost predicate Scanned<T>(items: seq<T>, key: T -> string, truthy: T -> bool, i: nat,
                             at: map<string, nat>, kept: seq<T>, src: seq<nat>)
  {
    && i <= |items|
    && at.Keys == KeysOf(items[..i], key)
    && Placed(key, at, kept)
    && |kept| == |at.Keys|
    && Sourced(items, i, kept, src)
    && FollowsReference(items, key, truthy, i, kept)
  }

  lemma ScanStart<T>(items: seq<T>, key: T -> string, truthy: T -> bool)
    ensures Scanned(items, key, truthy, 0, map[], [], [])
  {
  }

  /** An item with a new key is appended. */
  lemma ScanNew<T>(items: seq<T>, key: T -> string, truthy: T -> bool, i: nat,
                   at: map<string, nat>, kept: seq<T>, src: seq<nat>)
    requires i < |items| && Scanned(items, key, truthy, i, at, kept, src)
    requires key(items[i]) !in at
    ensures Scanned(items, key, truthy, i + 1, at[key(items[i]) := |kept|], kept + [items[i]], src + [i])
  {
    KeysOfStep(items, key, i);
    KeysAppend(at, key(items[i]), |kept|);
    PlacedAppend(key, at, kept, items[i]);
    SourcedAppend(items, i, kept, src);
    FollowsAppend(items, key, truthy, i, kept);
  }

  lemma KeysAppend(at: map<string, nat>, k: string, n: nat)
    requires k !in at
    ensures at[k := n].Keys == at.Keys + {k} && |at[k := n].Keys| == |at.Keys| + 1
  {
  }

  lemma FollowsAppend<T>(items: seq<T>, key: T -> string, truthy: T -> bool, i: nat, kept: seq<T>)
    requires i < |items| && FollowsReference(items, key, truthy, i, kept)
    requires key(items[i]) !in KeysOf(items[..i], key)
    ensures FollowsReference(items, key, truthy, i + 1, kept + [items[i]])
  {
    FirstPerKeyStep(items, key, i);
  }

  lemma PlacedAppend<T>(key: T -> string, at: map<string, nat>, kept: seq<T>, x: T)
    requires Placed(key, at, kept) && key(x) !in at
    ensures Placed(key, at[key(x) := |kept|], kept + [x])
  {
    var k := key(x);
    var at2 := at[k := |kept|];
    var kept2 := kept + [x];
    assert forall a | 0 <= a < |kept| :: kept2[a] == kept[a];
    forall a | 0 <= a < |kept2| ensures key(kept2[a]) in at2 && at2[key(kept2[a])] == a {
      if a < |kept| {
        assert kept2[a] == kept[a] && key(kept[a]) != k;
      }
    }
  }

  lemma SourcedAppend<T>(items: seq<T>, i: nat, kept: seq<T>, src: seq<nat>)
    requires i < |items| && Sourced(items, i, kept, src)
    ensures Sourced(items, i + 1, kept + [items[i]], src + [i])
  {
  }

  /** An item whose key is already stored is dropped. */
  lemma ScanSkip<T>(items: seq<T>, key: T -> string, truthy: T -> bool, i: nat,
                    at: map<string, nat>, kept: seq<T>, src: seq<nat>)
    requires i < |items| && Scanned(items, key, truthy, i, at, kept, src)
    requires key(items[i]) in at
    ensures Scanned(items, key, truthy, i + 1, at, kept, src)
  {
    KeysOfStep(items, key, i);
    FirstPerKeyStep(items, key, i);
    assert Sourced(items, i + 1, kept, src);
    assert FollowsReference(items, key, truthy, i + 1, kept);
  }

  /** An item whose key holds something falsy takes its place; no run of
      all-truthy items has such an item. */
  lemma ScanReplace<T>(items: seq<T>, key: T -> string, truthy: T -> bool, i: nat,
                       at: map<string, nat>, kept: seq<T>, src: seq<nat>)
    requires i < |items| && Scanned(items, key, truthy, i, at, kept, src)
    requires key(items[i]) in at && !truthy(kept[at[key(items[i])]])
    ensures var p := at[key(items[i])];
      Scanned(items, key, truthy, i + 1, at, kept[p := items[i]], src[p := i])
  {
    KeysOfStep(items, key, i);
    var p := at[key(items[i])];
    assert !truthy(items[src[p]]);
    PlacedReplace(key, at, kept, p, items[i]);
    SourcedReplace(items, i, kept, src, p);
    assert FollowsReference(items, key, truthy, i + 1, kept[p := items[i]]);
  }

  lemma PlacedReplace<T>(key: T -> string, at: map<string, nat>, kept: seq<T>, p: nat, x: T)
    requires Placed(key, at, kept) && p < |kept| && key(x) == key(kept[p])
    ensures Placed(key, at, kept[p := x])
  {
    var kept2 := kept[p := x];
    forall a | 0 <= a < |kept2| ensures key(kept2[a]) in at && at[key(kept2[a])] == a {
      if a != p {
        assert kept2[a] == kept[a];
      }
    }
  }

  lemma SourcedReplace<T>(items: seq<T>, i: nat, kept: seq<T>, src: seq<nat>, p: nat)
    requires i < |items| && Sourced(items, i, kept, src) && p < |kept|
    ensures Sourced(items, i + 1, kept[p := items[i]], src[p := i])
  {
  }

  /** The `forEach` into `unique` and `Object.values(unique)`: an item is
      stored when nothing truthy is stored under its key yet, and a key
      keeps the place of its first insertion. When every item is truthy
      (the API returns objects) this is the first item per key. */
  method Dedupe<T>(items: seq<T>, key: T -> string, truthy: T -> bool) returns (kept: seq<T>)
    ensures (forall i | 0 <= i < |items| :: truthy(items[i])) ==> kept == FirstPerKey(items, key)
    ensures DistinctKeys(kept, key)
    ensures |kept| == |KeysOf(items, key)|
    ensures forall a | 0 <= a < |kept| :: kept[a] in items
  {
    var at: map<string, nat> := map[];
    ghost var src: seq<nat> := [];
    kept := [];
    var i := 0;
    ScanStart(items, key, truthy);
    while i < |items|
      invariant i <= |items|
      invariant Scanned(items, key, truthy, i, at, kept, src)
    {
      ScanStep(items, key, truthy, i, at, kept, src);
      src := StepSources(key, truthy, at, kept, src, items[i], i);
      var next := Step(key, truthy, at, kept, items[i]);
      at, kept := next.0, next.1;
      i := i + 1;
    }
    ScanDone(items, key, truthy, at, kept, src);
  }

  /** One item of the `forEach`: stored under a new key at the end, over
      a falsy value in that value's place, or dropped. */
  function Step<T>(key: T -> string, truthy: T -> bool, at: map<string, nat>, kept: seq<T>, x: T):
    (r: (map<string, nat>, seq<T>))
    requires Placed(key, at, kept)
  {
    var k := key(x);
    if k !in at then (at[k := |kept|], kept + [x])
    else if truthy(kept[at[k]]) then (at, kept)
    else (at, kept[at[k] := x])
  }

  ghost function StepSources<T>(key: T -> string, truthy: T -> bool, at: map<string, nat>, kept: seq<T>,
                                src: seq<nat>, x: T, i: nat): seq<nat>
    requires Placed(key, at, kept) && |src| == |kept|
  {
    var k := key(x);
    if k !in at then src + [i]
    else if truthy(kept[at[k]]) then src
    else src[at[k] := i]
  }

  lemma ScanStep<T>(items: seq<T>, key: T -> string, truthy: T -> bool, i: nat,
                    at: map<string, nat>, kept: seq<T>, src: seq<nat>)
    requires i < |items| && Scanned(items, key, truthy, i, at, kept, src)
    ensures Placed(key, at, kept) && |src| == |kept|
    ensures var r := Step(key, truthy, at, kept, items[i]);
      Scanned(items, key, truthy, i + 1, r.0, r.1, StepSources(key, truthy, at, kept, src, items[i], i))
  {
    var k := key(items[i]);
    if k !in at {
      ScanNew(items, key, truthy, i, at, kept, src);
    } else if truthy(kept[at[k]]) {
      ScanSkip(items, key, truthy, i, at, kept, src);
    } else {
      ScanReplace(items, key, truthy, i, at, kept, src);
    }
  }

  /** After the last item the scan is the reference, when every item is
      truthy, and holds one item per key otherwise too. */
  lemma ScanDone<T>(items: seq<T>, key: T -> string, truthy: T -> bool,
                    at: map<string, nat>, kept: seq<T>, src: seq<nat>)
    requires Scanned(items, key, truthy, |items|, at, kept, src)
    ensures (forall i | 0 <= i < |items| :: truthy(items[i])) ==> kept == FirstPerKey(items, key)
    ensures DistinctKeys(kept, key)
    ensures |kept| == |KeysOf(items, key)|
    ensures forall a | 0 <= a < |kept| :: kept[a] in items
  {
    assert items[..|items|] == items;
    forall a, b | 0 <= a < b < |kept| ensures key(kept[a]) != key(kept[b]) {
      assert at[key(kept[a])] == a && at[key(kept[b])] == b;
    }
  }
}
