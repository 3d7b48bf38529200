/** Comparison-based sorting on sequences, and the fact that a sorted
    permutation of keys that are pairwise ordered is unique. */
module Sorting {

  /** `less` is a strict weak order: irreflexive, transitive, and its
      incomparability is transitive (the requirement std::sort places on its comparator). */
  ghost predicate StrictWeakOrder<T(!new)>(less: (T, T) -> bool) {
    && (forall x :: !less(x, x))
    && (forall x, y, z :: less(x, y) && less(y, z) ==> less(x, z))
    && (forall x, y, z :: less(x, z) ==> less(x, y) || less(y, z))
  }

  /** No later element is strictly less than an earlier one. */
  predicate SortedBy<T>(s: seq<T>, less: (T, T) -> bool) {
    forall i, j | 0 <= i < j < |s| :: !less(s[j], s[i])
  }

  /** Every earlier element is strictly less than every later one. */
  predicate StrictlySortedBy<T>(s: seq<T>, less: (T, T) -> bool) {
    forall i, j | 0 <= i < j < |s| :: less(s[i], s[j])
  }

  lemma SortedByTail<T>(s: seq<T>, less: (T, T) -> bool)
    requires SortedBy(s, less) && |s| > 0
    ensures SortedBy(s[1..], less)
  {
    forall i, j | 0 <= i < j < |s| - 1
      ensures !less(s[1..][j], s[1..][i])
    {
      assert s[1..][j] == s[j + 1] && s[1..][i] == s[i + 1];
    }
  }

  /** Inserts `x` before the first element that is not less than it. */
  function Insert<T(!new)>(x: T, s: seq<T>, less: (T, T) -> bool): (r: seq<T>)
    requires StrictWeakOrder(less)
    requires SortedBy(s, less)
    ensures |r| == |s| + 1
    ensures multiset(r) == multiset(s) + multiset{x}
    ensures forall k | 0 <= k < |r| :: r[k] == x || r[k] in s
    ensures SortedBy(r, less)
    decreases |s|
  {
    if |s| == 0 then [x]
    else if !less(s[0], x) then
      SortedConsSmaller(x, s, less);
      [x] + s
    else
      var rest := Insert(x, s[1..], less);
      assert s == [s[0]] + s[1..];
      SortedConsAfter(s[0], rest, x, s[1..], less);
      [s[0]] + rest
  }

  /** `x`, no greater than the first element, can go in front. */
  lemma SortedConsSmaller<T(!new)>(x: T, s: seq<T>, less: (T, T) -> bool)
    requires StrictWeakOrder(less) && SortedBy(s, less)
    requires |s| > 0 && !less(s[0], x)
    ensures SortedBy([x] + s, less)
  {
    var r := [x] + s;
    forall i, j | 0 <= i < j < |r|
      ensures !less(r[j], r[i])
    {
      assert r[j] == s[j - 1];
      if i > 0 {
        assert r[i] == s[i - 1];
      } else {
        assert !less(s[j - 1], s[0]);
      }
    }
  }

  /** `h` can go in front of `rest`, whose elements are `x` (above `h`) or
      elements of a tail `h` already precedes. */
  lemma SortedConsAfter<T(!new)>(h: T, rest: seq<T>, x: T, tail: seq<T>, less: (T, T) -> bool)
    requires StrictWeakOrder(less) && SortedBy(rest, less) && SortedBy([h] + tail, less)
    requires less(h, x)
    requires forall k | 0 <= k < |rest| :: rest[k] == x || rest[k] in tail
    ensures SortedBy([h] + rest, less)
  {
    var r := [h] + rest;
    forall i, j | 0 <= i < j < |r|
      ensures !less(r[j], r[i])
    {
      assert r[j] == rest[j - 1];
      if i > 0 {
        assert r[i] == rest[i - 1];
      } else if rest[j - 1] == x {
        assert less(h, x) && less(x, h) ==> less(h, h);
      } else {
        var k :| 0 <= k < |tail| && tail[k] == rest[j - 1];
        var ht := [h] + tail;
        assert ht[0] == h && ht[k + 1] == tail[k];
        assert !less(ht[k + 1], ht[0]);
      }
    }
  }

  /** Insertion sort: a sorted permutation of `s`. */
  function InsertionSort<T(!new)>(s: seq<T>, less: (T, T) -> bool): (r: seq<T>)
    requires StrictWeakOrder(less)
    ensures SortedBy(r, less)
    ensures multiset(r) == multiset(s)
    decreases |s|
  {
    if |s| == 0 then []
    else
      assert s == [s[0]] + s[1..];
      Insert(s[0], InsertionSort(s[1..], less), less)
  }

  /** A strictly sorted sequence is the only sorted arrangement of its elements. */
  lemma {:induction false} SortedUnique<T(!new)>(a: seq<T>, b: seq<T>, less: (T, T) -> bool)
    requires StrictWeakOrder(less)
    requires StrictlySortedBy(a, less)
    requires SortedBy(b, less)
    requires multiset(a) == multiset(b)
    ensures a == b
    decreases |a|
  {
    if |a| == 0 {
      assert |multiset(b)| == 0;
    } else {
      assert |b| == |multiset(b)| == |multiset(a)| == |a|;
      SameFirst(a, b, less);
      TailsAgree(a, b);
      StrictlySortedTail(a, less);
      SortedByTail(b, less);
      SortedUnique(a[1..], b[1..], less);
      assert a == [a[0]] + a[1..] && b == [b[0]] + b[1..];
    }
  }

  /** A strictly sorted sequence and a sorted permutation of it start alike. */
  lemma SameFirst<T(!new)>(a: seq<T>, b: seq<T>, less: (T, T) -> bool)
    requires StrictWeakOrder(less) && StrictlySortedBy(a, less) && SortedBy(b, less)
    requires multiset(a) == multiset(b) && |a| > 0 && |b| > 0
    ensures a[0] == b[0]
  {
    assert a[0] in multiset(b);
    var j :| 0 <= j < |b| && b[j] == a[0];
    assert b[0] in multiset(a);
    var i :| 0 <= i < |a| && a[i] == b[0];
    assert i > 0 ==> less(a[0], a[i]);
    assert j > 0 ==> !less(b[j], b[0]);
  }

  lemma TailsAgree<T>(a: seq<T>, b: seq<T>)
    requires multiset(a) == multiset(b) && |a| > 0 && |b| > 0 && a[0] == b[0]
    ensures multiset(a[1..]) == multiset(b[1..])
  {
    assert a == [a[0]] + a[1..];
    assert b == [b[0]] + b[1..];
    assert multiset(a) == multiset{a[0]} + multiset(a[1..]);
    assert multiset(b) == multiset{a[0]} + multiset(b[1..]);
    assert multiset(a[1..]) == multiset(a) - multiset{a[0]};
    assert multiset(b[1..]) == multiset(b) - multiset{a[0]};
  }

  lemma StrictlySortedTail<T>(s: seq<T>, less: (T, T) -> bool)
    requires StrictlySortedBy(s, less) && |s| > 0
    ensures StrictlySortedBy(s[1..], less)
  {
    forall i, j | 0 <= i < j < |s| - 1
      ensures less(s[1..][i], s[1..][j])
    {
      assert s[1..][j] == s[j + 1] && s[1..][i] == s[i + 1];
    }
  }
}
