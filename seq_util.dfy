/**
 * The array operations the controllers and the document store use:
 * finding the first matching element, filtering, reversing, and the
 * descending sort of `.sort({ field: -1 })` on a numeric key.
 */
module Seqs {
  import opened Wrappers

  /** The index of the first element satisfying `p`, if there is one. */
  function FirstIndex<T>(xs: seq<T>, p: T -> bool): (r: Option<nat>)
    ensures r.None? <==> forall i :: 0 <= i < |xs| ==> !p(xs[i])
    ensures r.Some? ==> r.value < |xs| && p(xs[r.value])
                        && forall j :: 0 <= j < r.value ==> !p(xs[j])
  {
    if xs == [] then None
    else if p(xs[0]) then Some(0)
    else
      var r := FirstIndex(xs[1..], p);
      if r.None? then None
      else
        assert forall j :: 1 <= j <= r.value ==> xs[j] == xs[1..][j - 1];
        Some(r.value + 1)
  }

  /** `xs.filter(p)`: the elements satisfying `p`, in their original order. */
  function Filter<T(!new)>(xs: seq<T>, p: T -> bool): (r: seq<T>)
    ensures |r| <= |xs|
    ensures forall x :: x in r <==> x in xs && p(x)
  {
    if xs == [] then []
    else
      var rest := Filter(xs[1..], p);
      assert forall x :: x in xs <==> x == xs[0] || x in xs[1..];
      if p(xs[0]) then [xs[0]] + rest else rest
  }

  /** Filtering distributes over concatenation, so it keeps the relative order. */
  lemma {:induction false} FilterAppend<T(!new)>(a: seq<T>, b: seq<T>, p: T -> bool)
    ensures Filter(a + b, p) == Filter(a, p) + Filter(b, p)
    decreases |a|
  {
    if a == [] {
      assert a + b == b;
    } else {
      assert (a + b)[1..] == a[1..] + b;
      FilterAppend(a[1..], b, p);
    }
  }

  /** Filters that agree on every element give the same result. */
  lemma {:induction false} FilterSamePredicate<T(!new)>(xs: seq<T>, p: T -> bool, q: T -> bool)
    requires forall x :: x in xs ==> p(x) == q(x)
    ensures Filter(xs, p) == Filter(xs, q)
    decreases |xs|
  {
    if xs != [] {
      assert xs[0] in xs;
      assert forall x :: x in xs[1..] ==> x in xs;
      FilterSamePredicate(xs[1..], p, q);
    }
  }

  /** The elements in the opposite order. */
  function Reverse<T>(xs: seq<T>): (r: seq<T>)
    ensures |r| == |xs|
    ensures forall i :: 0 <= i < |xs| ==> r[i] == xs[|xs| - 1 - i]
  {
    if xs == [] then [] else Reverse(xs[1..]) + [xs[0]]
  }

  /** Reversing keeps exactly the same elements. */
  lemma ReverseSameElements<T>(xs: seq<T>)
    ensures forall x :: x in Reverse(xs) <==> x in xs
    ensures multiset(Reverse(xs)) == multiset(xs)
  {
    var r := Reverse(xs);
    forall x | x in xs ensures x in r {
      var i :| 0 <= i < |xs| && xs[i] == x;
      assert r[|xs| - 1 - i] == x;
    }
    if xs != [] {
      ReverseSameElements(xs[1..]);
      assert xs == [xs[0]] + xs[1..];
    }
  }

  /** Non-increasing in `key`: the order of `.sort({ key: -1 })`. */
  predicate SortedDescending<T>(xs: seq<T>, key: T -> int) {
    forall i, j :: 0 <= i < j < |xs| ==> key(xs[i]) >= key(xs[j])
  }

  /** Insert `x` in front of the first element whose key is strictly smaller. */
  function InsertDescending<T>(x: T, xs: seq<T>, key: T -> int): (r: seq<T>)
    ensures multiset(r) == multiset(xs) + multiset{x}
  {
    if xs == [] || key(x) > key(xs[0]) then [x] + xs
    else
      assert xs == [xs[0]] + xs[1..];
      [xs[0]] + InsertDescending(x, xs[1..], key)
  }

  /** Inserting an element under a bound into a list under that bound stays under it. */
  lemma InsertBounded<T>(x: T, xs: seq<T>, key: T -> int, bound: int)
    requires key(x) <= bound
    requires forall k :: 0 <= k < |xs| ==> key(xs[k]) <= bound
    ensures forall k :: 0 <= k < |InsertDescending(x, xs, key)| ==> key(InsertDescending(x, xs, key)[k]) <= bound
  {
    var r := InsertDescending(x, xs, key);
    forall k | 0 <= k < |r| ensures key(r[k]) <= bound {
      assert r[k] in multiset(r);
      if r[k] != x {
        assert r[k] in multiset(xs);
      }
    }
  }

  /** Inserting into a sorted list keeps it sorted. */
  lemma {:induction false} InsertKeepsSorted<T>(x: T, xs: seq<T>, key: T -> int)
    requires SortedDescending(xs, key)
    ensures SortedDescending(InsertDescending(x, xs, key), key)
    decreases |xs|
  {
    if xs != [] && key(x) <= key(xs[0]) {
      var tail := xs[1..];
      var rest := InsertDescending(x, tail, key);
      InsertKeepsSorted(x, tail, key);
      assert forall k :: 0 <= k < |tail| ==> key(tail[k]) <= key(xs[0]) by {
        forall k | 0 <= k < |tail| ensures key(tail[k]) <= key(xs[0]) {
          assert tail[k] == xs[k + 1];
        }
      }
      InsertBounded(x, tail, key, key(xs[0]));
      var r := [xs[0]] + rest;
      assert InsertDescending(x, xs, key) == r;
      forall i, j | 0 <= i < j < |r| ensures key(r[i]) >= key(r[j]) {
        assert r[j] == rest[j - 1];
        if i > 0 {
          assert r[i] == rest[i - 1];
        }
      }
    }
  }

  /**
   * A sort on `key`, largest first. The result is sorted and a permutation
   * of `xs`. The store leaves the order of equal keys unspecified; this sort
   * fixes one: it inserts each element behind the later elements with the
   * same key, so equal keys come out in the reverse of their order in `xs`.
   */
  function SortDescending<T>(xs: seq<T>, key: T -> int): (r: seq<T>)
    ensures SortedDescending(r, key)
    ensures multiset(r) == multiset(xs)
  {
    if xs == [] then []
    else
      assert xs == [xs[0]] + xs[1..];
      var rest := SortDescending(xs[1..], key);
      InsertKeepsSorted(xs[0], rest, key);
      InsertDescending(xs[0], rest, key)
  }
}
