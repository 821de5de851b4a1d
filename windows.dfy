/**
 * Fixed-width contiguous windows over a series of price values, and the
 * first-occurrence extremum among them.
 *
 * Both the TypeScript and the Python scanners keep a running best and replace
 * it only when a window is strictly better, so the earliest optimal window
 * wins ties. `FirstMinStart`/`FirstMaxStart` give that start index, and their
 * contracts say what it means: optimal over every window, strictly better
 * than every earlier one.
 */
module Windows {

  /** Sum of `v[lo..hi]`, added left to right. */
  function SumRange(v: seq<real>, lo: nat, hi: nat): real
    requires lo <= hi <= |v|
    decreases hi - lo
  {
    if lo == hi then 0.0 else SumRange(v, lo, hi - 1) + v[hi - 1]
  }

  /** Sum of the width-`n` window of `v` that starts at `i`. */
  function WindowSum(v: seq<real>, i: nat, n: nat): real
    requires i + n <= |v|
  {
    SumRange(v, i, i + n)
  }

  /**
   * `i` is the earliest start, among the first `m` starts, of a window with
   * the least sum.
   */
  ghost predicate IsFirstMinStart(v: seq<real>, n: nat, m: nat, i: int)
    requires n <= |v| && m <= |v| - n + 1
  {
    && 0 <= i < m
    && (forall j :: 0 <= j < m ==> WindowSum(v, i, n) <= WindowSum(v, j, n))
    && (forall j :: 0 <= j < i ==> WindowSum(v, i, n) < WindowSum(v, j, n))
  }

  /** Mirror image of `IsFirstMinStart`: earliest start of a largest-sum window. */
  ghost predicate IsFirstMaxStart(v: seq<real>, n: nat, m: nat, i: int)
    requires n <= |v| && m <= |v| - n + 1
  {
    && 0 <= i < m
    && (forall j :: 0 <= j < m ==> WindowSum(v, i, n) >= WindowSum(v, j, n))
    && (forall j :: 0 <= j < i ==> WindowSum(v, i, n) > WindowSum(v, j, n))
  }

  /**
   * The start kept by a scan of the first `m` starts that replaces its best
   * only on a strictly smaller sum.
   */
  function FirstMinStart(v: seq<real>, n: nat, m: nat): (i: nat)
    requires n <= |v| && 1 <= m <= |v| - n + 1
    ensures IsFirstMinStart(v, n, m, i)
  {
    if m == 1 then 0
    else
      var best := FirstMinStart(v, n, m - 1);
      if WindowSum(v, m - 1, n) < WindowSum(v, best, n) then m - 1 else best
  }

  /** The start kept by a scan that replaces its best only on a strictly larger sum. */
  function FirstMaxStart(v: seq<real>, n: nat, m: nat): (i: nat)
    requires n <= |v| && 1 <= m <= |v| - n + 1
    ensures IsFirstMaxStart(v, n, m, i)
  {
    if m == 1 then 0
    else
      var best := FirstMaxStart(v, n, m - 1);
      if WindowSum(v, m - 1, n) > WindowSum(v, best, n) then m - 1 else best
  }

  /** One more start scanned: a strictly smaller sum takes over, anything else keeps the best. */
  lemma FirstMinStep(v: seq<real>, n: nat, m: nat, best: nat)
    requires n <= |v| && m + 1 <= |v| - n + 1
    requires m == 0 || IsFirstMinStart(v, n, m, best)
    ensures IsFirstMinStart(v, n, m + 1,
              if m == 0 || WindowSum(v, m, n) < WindowSum(v, best, n) then m else best)
  {
  }

  lemma FirstMaxStep(v: seq<real>, n: nat, m: nat, best: nat)
    requires n <= |v| && m + 1 <= |v| - n + 1
    requires m == 0 || IsFirstMaxStart(v, n, m, best)
    ensures IsFirstMaxStart(v, n, m + 1,
              if m == 0 || WindowSum(v, m, n) > WindowSum(v, best, n) then m else best)
  {
  }

  /** The earliest least-sum start is unique, so any scan that finds one finds this one. */
  lemma FirstMinStartUnique(v: seq<real>, n: nat, m: nat, i: int, k: int)
    requires n <= |v| && m <= |v| - n + 1
    requires IsFirstMinStart(v, n, m, i) && IsFirstMinStart(v, n, m, k)
    ensures i == k
  {
    assert WindowSum(v, i, n) <= WindowSum(v, k, n);
    assert WindowSum(v, k, n) <= WindowSum(v, i, n);
  }

  lemma FirstMaxStartUnique(v: seq<real>, n: nat, m: nat, i: int, k: int)
    requires n <= |v| && m <= |v| - n + 1
    requires IsFirstMaxStart(v, n, m, i) && IsFirstMaxStart(v, n, m, k)
    ensures i == k
  {
    assert WindowSum(v, i, n) >= WindowSum(v, k, n);
    assert WindowSum(v, k, n) >= WindowSum(v, i, n);
  }

  /** A width-1 window holds exactly one entry. */
  lemma SingleWindows(v: seq<real>)
    ensures forall i :: 0 <= i < |v| ==> WindowSum(v, i, 1) == v[i]
  {
    forall i | 0 <= i < |v| ensures WindowSum(v, i, 1) == v[i] {
      assert SumRange(v, i, i + 1) == SumRange(v, i, i) + v[i];
    }
  }

  /** The earliest position of a least entry (the first-min width-1 window). */
  function FirstMinIndex(v: seq<real>): (i: nat)
    requires |v| > 0
    ensures i < |v|
    ensures forall j :: 0 <= j < |v| ==> v[i] <= v[j]
    ensures forall j :: 0 <= j < i ==> v[i] < v[j]
  {
    SingleWindows(v);
    FirstMinStart(v, 1, |v|)
  }

  /** The earliest position of a greatest entry (the first-max width-1 window). */
  function FirstMaxIndex(v: seq<real>): (i: nat)
    requires |v| > 0
    ensures i < |v|
    ensures forall j :: 0 <= j < |v| ==> v[i] >= v[j]
    ensures forall j :: 0 <= j < i ==> v[i] > v[j]
  {
    SingleWindows(v);
    FirstMaxStart(v, 1, |v|)
  }

  /** A sum of entries that all lie in `[a, b]` lies between `(hi - lo)·a` and `(hi - lo)·b`. */
  lemma {:induction false} SumRangeBounds(v: seq<real>, lo: nat, hi: nat, a: real, b: real)
    requires lo <= hi <= |v|
    requires forall k :: lo <= k < hi ==> a <= v[k] <= b
    ensures (hi - lo) as real * a <= SumRange(v, lo, hi) <= (hi - lo) as real * b
    decreases hi - lo
  {
    if lo < hi {
      SumRangeBounds(v, lo, hi - 1, a, b);
      var c := (hi - 1 - lo) as real;
      assert (hi - lo) as real * a == c * a + a && (hi - lo) as real * b == c * b + b;
    }
  }

  /** A total between `c·lo` and `c·hi`, shared among `c > 0`, gives a share between `lo` and `hi`. */
  lemma MeanBounds(total: real, c: real, lo: real, hi: real)
    requires c > 0.0 && c * lo <= total <= c * hi
    ensures lo <= total / c <= hi
  {
    var q := total / c;
    assert q * c == total;
    assert (q - lo) * c >= 0.0;
    assert (hi - q) * c >= 0.0;
  }

  /** Sharing two totals among the same `c > 0` keeps their order. */
  lemma DivOrder(x: real, y: real, c: real)
    requires c > 0.0
    ensures x / c <= y / c <==> x <= y
    ensures x / c < y / c <==> x < y
  {
    assert (y / c - x / c) * c == y - x;
  }
}
