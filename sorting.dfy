/**
 * Stable sorting by an integer key. The server sorts filter results with
 * `.sort({ week: 1 })` and the dashboard sorts fetched rows with
 * `Array.prototype.sort`, which is stable; both are modelled by `SortBy`.
 */
module Sorting {

  /** Ascending by `key`. */
  ghost predicate SortedBy<T>(xs: seq<T>, key: T -> int) {
    forall i, j :: 0 <= i < j < |xs| ==> key(xs[i]) <= key(xs[j])
  }

  /** Inserts `x` before the first element whose key is not smaller, so that `x` precedes its equals. */
  function InsertBy<T>(x: T, xs: seq<T>, key: T -> int): (r: seq<T>)
    requires SortedBy(xs, key)
    ensures SortedBy(r, key)
    ensures |r| == |xs| + 1 && r[0] == if xs == [] || key(x) <= key(xs[0]) then x else xs[0]
  {
    if xs == [] || key(x) <= key(xs[0]) then [x] + xs
    else
      var rest := InsertBy(x, xs[1..], key);
      assert key(xs[0]) <= key(rest[0]);
      [xs[0]] + rest
  }

  /** Inserting adds `x` and loses nothing. */
  lemma {:induction false} InsertByPermutes<T>(x: T, xs: seq<T>, key: T -> int)
    requires SortedBy(xs, key)
    ensures multiset(InsertBy(x, xs, key)) == multiset(xs) + multiset{x}
  {
    if xs == [] || key(x) <= key(xs[0]) {
      assert InsertBy(x, xs, key) == [x] + xs;
    } else {
      var rest := InsertBy(x, xs[1..], key);
      InsertByPermutes(x, xs[1..], key);
      assert InsertBy(x, xs, key) == [xs[0]] + rest;
      assert xs == [xs[0]] + xs[1..];
    }
  }

  /** Insertion sort: `xs` ascending by `key`; `SortByPermutes` and `SortByStable` say what else it keeps. */
  function SortBy<T>(xs: seq<T>, key: T -> int): (r: seq<T>)
    ensures SortedBy(r, key)
    ensures |r| == |xs|
  {
    if xs == [] then [] else InsertBy(xs[0], SortBy(xs[1..], key), key)
  }

  /** Inserting `x` into any sorted permutation of `tail` gives a permutation of `[x] + tail`. */
  lemma InsertPermutesStep<T>(x: T, tail: seq<T>, sorted: seq<T>, key: T -> int)
    requires SortedBy(sorted, key) && multiset(sorted) == multiset(tail)
    ensures multiset(InsertBy(x, sorted, key)) == multiset([x] + tail)
  {
    InsertByPermutes(x, sorted, key);
    assert multiset([x] + tail) == multiset([x]) + multiset(tail);
  }

  /** Sorting loses and adds nothing: the result is a permutation of the input. */
  lemma {:induction false} SortByPermutes<T>(xs: seq<T>, key: T -> int)
    ensures multiset(SortBy(xs, key)) == multiset(xs)
  {
    if xs != [] {
      SortByPermutes(xs[1..], key);
      InsertPermutesStep(xs[0], xs[1..], SortBy(xs[1..], key), key);
      assert [xs[0]] + xs[1..] == xs;
    }
  }

  /** The elements of `xs` whose key is `k`, in their order in `xs`. */
  function WithKey<T>(xs: seq<T>, key: T -> int, k: int): (r: seq<T>)
    ensures |r| <= |xs|
  {
    if xs == [] then []
    else (if key(xs[0]) == k then [xs[0]] else []) + WithKey(xs[1..], key, k)
  }

  /** `x` goes in front of every element of `xs` that has its key. */
  lemma {:induction false} InsertByWithKey<T>(x: T, xs: seq<T>, key: T -> int, k: int)
    requires SortedBy(xs, key)
    ensures WithKey(InsertBy(x, xs, key), key, k)
         == (if key(x) == k then [x] else []) + WithKey(xs, key, k)
  {
    if xs == [] || key(x) <= key(xs[0]) {
      assert ([x] + xs)[1..] == xs;
    } else {
      var rest := InsertBy(x, xs[1..], key);
      InsertByWithKey(x, xs[1..], key, k);
      assert ([xs[0]] + rest)[1..] == rest;
      var head := if key(xs[0]) == k then [xs[0]] else [];
      var own := if key(x) == k then [x] else [];
      assert head == [] || own == [];
      assert head + (own + WithKey(xs[1..], key, k)) == own + (head + WithKey(xs[1..], key, k));
    }
  }

  /** The sort is stable: for every key, the elements with that key keep their order. */
  lemma {:induction false} SortByStable<T>(xs: seq<T>, key: T -> int, k: int)
    ensures WithKey(SortBy(xs, key), key, k) == WithKey(xs, key, k)
  {
    if xs != [] {
      SortByStable(xs[1..], key, k);
      InsertByWithKey(xs[0], SortBy(xs[1..], key), key, k);
    }
  }
}
