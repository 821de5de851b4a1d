/**
 * Stable sorting by an integer key.
 *
 * Both sorts the price code relies on are stable: JavaScript's
 * `Array.prototype.sort` (since ES2019) and Python's `sorted`. The result of a
 * stable sort is fully determined by its input, so it is specified here by one
 * function, a straight insertion sort, and the in-place array sort is proved
 * to produce exactly that sequence.
 */
module Sorting {

  /** The elements of `s` appear in non-decreasing key order. */
  ghost predicate SortedBy<T>(s: seq<T>, key: T -> int) {
    forall i, j :: 0 <= i < j < |s| ==> key(s[i]) <= key(s[j])
  }

  /** The elements of `s` whose key is exactly `k`, in their order in `s`. */
  function WithKey<T>(s: seq<T>, key: T -> int, k: int): seq<T> {
    if |s| == 0 then []
    else if key(s[|s| - 1]) == k then WithKey(s[..|s| - 1], key, k) + [s[|s| - 1]]
    else WithKey(s[..|s| - 1], key, k)
  }

  /**
   * Inserts `x` into `t` after every element whose key is not larger than
   * `x`'s, scanning from the back.
   */
  function Insert<T>(t: seq<T>, x: T, key: T -> int): (r: seq<T>)
    ensures |r| == |t| + 1
    decreases |t|
  {
    if |t| == 0 || key(t[|t| - 1]) <= key(x) then t + [x]
    else Insert(t[..|t| - 1], x, key) + [t[|t| - 1]]
  }

  lemma {:induction false} InsertPermutation<T>(t: seq<T>, x: T, key: T -> int)
    ensures multiset(Insert(t, x, key)) == multiset(t) + multiset{x}
    decreases |t|
  {
    if |t| > 0 && key(t[|t| - 1]) > key(x) {
      var init := t[..|t| - 1];
      InsertPermutation(init, x, key);
      assert t == init + [t[|t| - 1]];
    }
  }

  lemma {:induction false} InsertSorted<T>(t: seq<T>, x: T, key: T -> int)
    requires SortedBy(t, key)
    ensures SortedBy(Insert(t, x, key), key)
    decreases |t|
  {
    if |t| > 0 && key(t[|t| - 1]) > key(x) {
      var init := t[..|t| - 1];
      var last := t[|t| - 1];
      assert SortedBy(init, key);
      InsertSorted(init, x, key);
      forall y | y in init ensures key(y) <= key(last) {
        var i :| 0 <= i < |init| && init[i] == y;
        assert t[i] == y;
      }
      InsertBound(init, x, key, key(last));
      SortedSnoc(Insert(init, x, key), last, key);
    }
  }

  /** Inserting an element no larger than `b` into elements no larger than `b` keeps them all no larger than `b`. */
  lemma InsertBound<T>(t: seq<T>, x: T, key: T -> int, b: int)
    requires key(x) <= b && forall y :: y in t ==> key(y) <= b
    ensures forall y :: y in Insert(t, x, key) ==> key(y) <= b
  {
    InsertPermutation(t, x, key);
    forall y | y in Insert(t, x, key) ensures key(y) <= b {
      assert y in multiset(Insert(t, x, key));
    }
  }

  /** Appending an element no smaller than every element of a sorted sequence keeps it sorted. */
  lemma SortedSnoc<T>(r: seq<T>, y: T, key: T -> int)
    requires SortedBy(r, key) && forall z :: z in r ==> key(z) <= key(y)
    ensures SortedBy(r + [y], key)
  {
    var s := r + [y];
    forall i, j | 0 <= i < j < |s| ensures key(s[i]) <= key(s[j]) {
      if j == |r| {
        assert s[i] in r;
      } else {
        assert s[i] == r[i] && s[j] == r[j];
      }
    }
  }

  /** The stable sort of `s` by `key`. */
  function SortBy<T>(s: seq<T>, key: T -> int): (r: seq<T>)
    ensures |r| == |s|
  {
    if |s| == 0 then []
    else Insert(SortBy(s[..|s| - 1], key), s[|s| - 1], key)
  }

  /** The sort only reorders: the result is a permutation of the input. */
  lemma {:induction false} SortByPermutation<T>(s: seq<T>, key: T -> int)
    ensures multiset(SortBy(s, key)) == multiset(s)
  {
    if |s| > 0 {
      var init := s[..|s| - 1];
      SortByPermutation(init, key);
      InsertPermutation(SortBy(init, key), s[|s| - 1], key);
      assert s == init + [s[|s| - 1]];
    }
  }

  /** The sort puts its result in key order. */
  lemma {:induction false} SortBySorted<T>(s: seq<T>, key: T -> int)
    ensures SortedBy(SortBy(s, key), key)
  {
    if |s| > 0 {
      SortBySorted(s[..|s| - 1], key);
      InsertSorted(SortBy(s[..|s| - 1], key), s[|s| - 1], key);
    }
  }

  lemma {:induction false} InsertWithKey<T>(t: seq<T>, x: T, key: T -> int, k: int)
    requires SortedBy(t, key)
    ensures WithKey(Insert(t, x, key), key, k)
         == if key(x) == k then WithKey(t, key, k) + [x] else WithKey(t, key, k)
    decreases |t|
  {
    if |t| == 0 || key(t[|t| - 1]) <= key(x) {
      assert (t + [x])[..|t|] == t;
    } else {
      var init := t[..|t| - 1];
      var last := t[|t| - 1];
      InsertWithKey(init, x, key, k);
      var r := Insert(init, x, key) + [last];
      assert r[..|r| - 1] == Insert(init, x, key);
      assert t[..|t| - 1] == init;
      if key(last) == k {
        // every element of `init` with key k sits before `x` only if key(x) > k,
        // and key(x) < key(last) == k rules that case out
        assert key(x) != k;
      }
    }
  }

  /** The sort is stable: elements with equal keys keep their relative order. */
  lemma {:induction false} SortByStable<T>(s: seq<T>, key: T -> int, k: int)
    ensures WithKey(SortBy(s, key), key, k) == WithKey(s, key, k)
  {
    if |s| > 0 {
      var init := s[..|s| - 1];
      SortByStable(init, key, k);
      SortBySorted(init, key);
      InsertWithKey(SortBy(init, key), s[|s| - 1], key, k);
    }
  }

  /** Sorting a sequence that is already in key order changes nothing. */
  lemma {:induction false} SortByOfSorted<T>(s: seq<T>, key: T -> int)
    requires SortedBy(s, key)
    ensures SortBy(s, key) == s
  {
    if |s| > 0 {
      var init := s[..|s| - 1];
      assert SortedBy(init, key);
      SortByOfSorted(init, key);
      assert s == init + [s[|s| - 1]];
    }
  }

  /** `Insert` places `x` just after the last element whose key does not exceed `x`'s. */
  lemma {:induction false} InsertSplit<T>(t: seq<T>, x: T, key: T -> int, j: nat)
    requires j <= |t|
    requires j == 0 || key(t[j - 1]) <= key(x)
    requires forall k :: j <= k < |t| ==> key(t[k]) > key(x)
    ensures Insert(t, x, key) == t[..j] + [x] + t[j..]
    decreases |t|
  {
    if j < |t| {
      var init := t[..|t| - 1];
      InsertSplit(init, x, key, j);
      assert init[..j] == t[..j];
      assert init[j..] + [t[|t| - 1]] == t[j..];
    }
  }

  /** Moves `a[i]` left past every larger-keyed element of `a[..i]`. */
  method InsertInPlace<T>(a: array<T>, i: nat, key: T -> int)
    requires i < a.Length
    modifies a
    ensures a[..i + 1] == Insert(old(a[..i]), old(a[i]), key)
    ensures a[i + 1..] == old(a[i + 1..])
  {
    ghost var t := a[..i];
    var x := a[i];
    var j := i;
    while j > 0 && key(a[j - 1]) > key(x)
      invariant 0 <= j <= i
      invariant forall k :: 0 <= k < j ==> a[k] == t[k]
      invariant forall k :: j < k <= i ==> a[k] == t[k - 1]
      invariant forall k :: j <= k < i ==> key(t[k]) > key(x)
      invariant forall k :: i < k < a.Length ==> a[k] == old(a[k])
    {
      a[j] := a[j - 1];
      j := j - 1;
    }
    a[j] := x;
    InsertSplit(t, x, key, j);
    assert a[..i + 1] == t[..j] + [x] + t[j..];
  }

  /** Sorting one more element of `s` inserts it into the sorted shorter prefix. */
  lemma SortByPrefix<T>(s: seq<T>, i: nat, key: T -> int)
    requires i < |s|
    ensures SortBy(s[..i + 1], key) == Insert(SortBy(s[..i], key), s[i], key)
  {
    assert s[..i + 1][..i] == s[..i];
  }

  /** Sorts `a` in place by insertion; the result is the stable sort of the old contents. */
  method SortInPlace<T>(a: array<T>, key: T -> int)
    modifies a
    ensures a[..] == SortBy(old(a[..]), key)
  {
    ghost var orig := a[..];
    var i := 0;
    while i < a.Length
      invariant 0 <= i <= a.Length
      invariant a[..i] == SortBy(orig[..i], key)
      invariant a[i..] == orig[i..]
    {
      assert a[i] == orig[i];
      InsertInPlace(a, i, key);
      SortByPrefix(orig, i, key);
      i := i + 1;
    }
    assert a[..] == a[..a.Length];
    assert orig == orig[..a.Length];
  }
}
