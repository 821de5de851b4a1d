/**
 * The window search, the two-cheap-periods selector, averaging and the day
 * rating of the web dashboard (src/utils/PriceUtils.ts).
 */
module PriceUtils {

  import opened Models
  import opened Sorting
  import opened Windows
  import opened Wrappers

  /** Tolerance of the similarity gate and of the rating bands. */
  const Variance: real := 0.02

  /** The series in ascending `dateTime` order, as the stable library sort leaves it. */
  function SortByDate(prices: seq<Price>): seq<Price> {
    SortBy(prices, DateKey)
  }

  /** The series is in ascending `dateTime` order. */
  ghost predicate ChronologicalOrder(s: seq<Price>) {
    forall i, j :: 0 <= i < j < |s| ==> s[i].dateTime <= s[j].dateTime
  }

  /** The date sort leaves the series in chronological order. */
  lemma SortByDateChronological(prices: seq<Price>)
    ensures ChronologicalOrder(SortByDate(prices))
  {
    var s := SortByDate(prices);
    SortBySorted(prices, DateKey);
    forall i, j | 0 <= i < j < |s| ensures s[i].dateTime <= s[j].dateTime {
      assert DateKey(s[i]) <= DateKey(s[j]);
    }
  }

  /** A chronological series is already date-sorted. */
  lemma SortByDateOfChronological(s: seq<Price>)
    requires ChronologicalOrder(s)
    ensures SortByDate(s) == s
  {
    forall i, j | 0 <= i < j < |s| ensures DateKey(s[i]) <= DateKey(s[j]) {
    }
    SortByOfSorted(s, DateKey);
  }

  /** The `reduce` that adds up the prices of a window. */
  function SumPrices(w: seq<Price>): real {
    if |w| == 0 then 0.0 else SumPrices(w[..|w| - 1]) + w[|w| - 1].price
  }

  /** The width-`n` window of `s` that starts at `i`: `s.slice(i, i + n)`. */
  function Window(s: seq<Price>, i: nat, n: nat): (w: seq<Price>)
    requires i + n <= |s|
  {
    s[i..i + n]
  }

  /** `sortPricesByDate`: sorts the caller's array in place. */
  method SortPricesByDate(a: array<Price>)
    modifies a
    ensures a[..] == SortByDate(old(a[..]))
  {
    SortInPlace(a, DateKey);
  }

  /**
   * The value `getCheapestPeriod` returns: nothing when there are fewer than
   * `n` entries, otherwise the earliest least-sum width-`n` window of the
   * date-sorted series.
   */
  function CheapestPeriod(prices: seq<Price>, n: nat): (r: seq<Price>)
    ensures |prices| < n ==> r == []
    ensures |prices| >= n ==> |r| == n
  {
    if |prices| < n then [] else CheapestWindow(SortByDate(prices), n)
  }

  /** The window the cheapest-period scan keeps on the sorted series `s`. */
  function CheapestWindow(s: seq<Price>, n: nat): (w: seq<Price>)
    requires n <= |s|
    ensures |w| == n
  {
    var i := FirstMinStart(Values(s), n, |s| - n + 1);
    s[i..i + n]
  }

  /** The value `getMostExpensivePeriod` returns: the earliest largest-sum window. */
  function MostExpensivePeriod(prices: seq<Price>, n: nat): (r: seq<Price>)
    ensures |prices| < n ==> r == []
    ensures |prices| >= n ==> |r| == n
  {
    if |prices| < n then [] else MostExpensiveWindow(SortByDate(prices), n)
  }

  /** The window the most-expensive-period scan keeps on the sorted series `s`. */
  function MostExpensiveWindow(s: seq<Price>, n: nat): (w: seq<Price>)
    requires n <= |s|
    ensures |w| == n
  {
    var i := FirstMaxStart(Values(s), n, |s| - n + 1);
    s[i..i + n]
  }

  /**
   * The loop of `getCheapestPeriod` over the sorted series: every start from 0
   * to `|sorted| - n`, replacing the kept window only on a strictly smaller sum.
   */
  method ScanCheapest(sorted: seq<Price>, n: nat) returns (window: seq<Price>)
    requires n <= |sorted|
    ensures window == CheapestWindow(sorted, n)
  {
    ghost var v := Values(sorted);
    var minSum: Option<real> := None;  // None stands for Number.POSITIVE_INFINITY
    window := [];
    ghost var best := 0;
    var i := 0;
    while i <= |sorted| - n
      invariant 0 <= i <= |sorted| - n + 1
      invariant i == 0 ==> minSum == None
      invariant i > 0 ==> IsFirstMinStart(v, n, i, best)
      invariant i > 0 ==> minSum == Some(WindowSum(v, best, n)) && window == Window(sorted, best, n)
    {
      var windowSum := SumPrices(Window(sorted, i, n));
      SumPricesWindow(sorted, i, n);
      FirstMinStep(v, n, i, best);
      if minSum.None? || windowSum < minSum.value {
        minSum := Some(windowSum);
        window := Window(sorted, i, n);
        best := i;
      }
      i := i + 1;
    }
    FirstMinStartUnique(v, n, i, best, FirstMinStart(v, n, i));
  }

  /** The loop of `getMostExpensivePeriod`: as `ScanCheapest`, keeping strictly larger sums. */
  method ScanMostExpensive(sorted: seq<Price>, n: nat) returns (window: seq<Price>)
    requires n <= |sorted|
    ensures window == MostExpensiveWindow(sorted, n)
  {
    ghost var v := Values(sorted);
    var maxSum: Option<real> := None;  // None stands for Number.NEGATIVE_INFINITY
    window := [];
    ghost var best := 0;
    var i := 0;
    while i <= |sorted| - n
      invariant 0 <= i <= |sorted| - n + 1
      invariant i == 0 ==> maxSum == None
      invariant i > 0 ==> IsFirstMaxStart(v, n, i, best)
      invariant i > 0 ==> maxSum == Some(WindowSum(v, best, n)) && window == Window(sorted, best, n)
    {
      var windowSum := SumPrices(Window(sorted, i, n));
      SumPricesWindow(sorted, i, n);
      FirstMaxStep(v, n, i, best);
      if maxSum.None? || windowSum > maxSum.value {
        maxSum := Some(windowSum);
        window := Window(sorted, i, n);
        best := i;
      }
      i := i + 1;
    }
    FirstMaxStartUnique(v, n, i, best, FirstMaxStart(v, n, i));
  }

  /**
   * `getCheapestPeriod`: returns early, leaving `a` alone, when it holds fewer
   * than `n` entries; otherwise sorts `a` in place and scans the sorted series.
   */
  method GetCheapestPeriod(a: array<Price>, n: nat) returns (window: seq<Price>)
    modifies a
    ensures window == CheapestPeriod(old(a[..]), n)
    ensures a[..] == if a.Length < n then old(a[..]) else SortByDate(old(a[..]))
  {
    if a.Length < n {
      return [];
    }
    SortPricesByDate(a);
    var sorted := a[..];
    window := ScanCheapest(sorted, n);
  }

  /** `getMostExpensivePeriod`: as `GetCheapestPeriod`, with the largest-sum scan. */
  method GetMostExpensivePeriod(a: array<Price>, n: nat) returns (window: seq<Price>)
    modifies a
    ensures window == MostExpensivePeriod(old(a[..]), n)
    ensures a[..] == if a.Length < n then old(a[..]) else SortByDate(old(a[..]))
  {
    if a.Length < n {
      return [];
    }
    SortPricesByDate(a);
    var sorted := a[..];
    window := ScanMostExpensive(sorted, n);
  }

  /** Every entry of the series earlier than instant `c`, in series order (the first `filter`). */
  function Before(s: seq<Price>, c: int): (r: seq<Price>)
    ensures |r| <= |s|
    ensures forall i :: 0 <= i < |r| ==> r[i].dateTime < c
  {
    if |s| == 0 then []
    else if s[|s| - 1].dateTime < c then Before(s[..|s| - 1], c) + [s[|s| - 1]]
    else Before(s[..|s| - 1], c)
  }

  /** Every entry of the series later than instant `c`, in series order (the second `filter`). */
  function After(s: seq<Price>, c: int): (r: seq<Price>)
    ensures |r| <= |s|
    ensures forall i :: 0 <= i < |r| ==> r[i].dateTime > c
  {
    if |s| == 0 then []
    else if s[|s| - 1].dateTime > c then After(s[..|s| - 1], c) + [s[|s| - 1]]
    else After(s[..|s| - 1], c)
  }

  /** `calculateAverage` on a non-empty series: the sum of the prices over their count. */
  function CalculateAverage(prices: seq<Price>): (r: real)
    requires |prices| > 0
    ensures |prices| == 1 ==> r == prices[0].price
  {
    assert |prices| == 1 ==> SumPrices(prices) == prices[0].price by {
      if |prices| == 1 {
        assert SumPrices(prices[..0]) == 0.0;
      }
    }
    SumPrices(prices) / |prices| as real
  }

  /** `Math.abs`. */
  function Abs(x: real): real {
    if x < 0.0 then -x else x
  }

  /**
   * The choice between the best window before the first period and the best
   * window after it: "before" only when both are full and it is strictly
   * cheaper on average, or when it alone is full.
   */
  function ChooseSecond(before: seq<Price>, after: seq<Price>, n: nat): (r: seq<Price>)
    requires n >= 1
    ensures r == before || r == after
    ensures |before| == n && |after| == n ==>
      CalculateAverage(r) <= CalculateAverage(before) && CalculateAverage(r) <= CalculateAverage(after)
    ensures |before| == n && |after| == n && CalculateAverage(before) == CalculateAverage(after) ==> r == after
    ensures |before| == n && |after| != n ==> r == before
    ensures |before| != n ==> r == after
  {
    if |before| == n && |after| == n then
      if CalculateAverage(before) < CalculateAverage(after) then before else after
    else if |before| == n then before
    else after
  }

  /**
   * The second-period candidate of `getTwoCheapestPeriods`, before the
   * variance gate: the cheapest period among the entries strictly earlier
   * than the first period and the one among those strictly later, chosen by
   * `ChooseSecond`. The first call of `getCheapestPeriod` sorts `prices` in
   * place, so both filters run over the date-sorted series.
   */
  function SecondCandidate(prices: seq<Price>, n: nat): (r: seq<Price>)
    requires 1 <= n <= |prices|
    ensures r == [] || |r| == n
  {
    var first := CheapestPeriod(prices, n);
    var sorted := SortByDate(prices);
    var before := CheapestPeriod(Before(sorted, first[0].dateTime), n);
    var after := CheapestPeriod(After(sorted, first[n - 1].dateTime), n);
    ChooseSecond(before, after, n)
  }

  /**
   * `getTwoCheapestPeriods`. The second period is dropped when its average is
   * more than `Variance` away from the first's; an empty candidate has no
   * average (NaN in the source, which fails the comparison) and stays empty.
   */
  function TwoCheapestPeriods(prices: seq<Price>, n: nat): (r: (seq<Price>, seq<Price>))
    requires n >= 1
    ensures |prices| < n ==> r == ([], [])
    ensures |prices| >= n ==> r.0 == CheapestPeriod(prices, n)
  {
    if |prices| < n then ([], [])
    else
      var first := CheapestPeriod(prices, n);
      var second := SecondCandidate(prices, n);
      if |second| > 0 && Abs(CalculateAverage(first) - CalculateAverage(second)) > Variance then (first, [])
      else (first, second)
  }

  /** Summing a window of the series equals the window sum of its values. */
  lemma {:induction false} SumPricesWindow(s: seq<Price>, j: nat, n: nat)
    requires j + n <= |s|
    ensures SumPrices(Window(s, j, n)) == WindowSum(Values(s), j, n)
  {
    if n > 0 {
      SumPricesWindow(s, j, n - 1);
      assert Window(s, j, n)[..n - 1] == Window(s, j, n - 1);
    }
  }

  /** The cheapest period is the window of the date-sorted series at its first least-sum start. */
  lemma CheapestPeriodAt(prices: seq<Price>, n: nat) returns (i: nat)
    requires n <= |prices|
    ensures i + n <= |prices| && CheapestPeriod(prices, n) == Window(SortByDate(prices), i, n)
    ensures IsFirstMinStart(Values(SortByDate(prices)), n, |prices| - n + 1, i)
  {
    i := FirstMinStart(Values(SortByDate(prices)), n, |prices| - n + 1);
  }

  /** The most expensive period is the window of the date-sorted series at its first greatest-sum start. */
  lemma MostExpensivePeriodAt(prices: seq<Price>, n: nat) returns (i: nat)
    requires n <= |prices|
    ensures i + n <= |prices| && MostExpensivePeriod(prices, n) == Window(SortByDate(prices), i, n)
    ensures IsFirstMaxStart(Values(SortByDate(prices)), n, |prices| - n + 1, i)
  {
    i := FirstMaxStart(Values(SortByDate(prices)), n, |prices| - n + 1);
  }

  /** The first least-sum start, restated with the windows' `reduce` sums. */
  lemma FirstMinWindowLeast(s: seq<Price>, n: nat, i: nat)
    requires n <= |s| && IsFirstMinStart(Values(s), n, |s| - n + 1, i)
    ensures forall j :: 0 <= j <= |s| - n ==> SumPrices(Window(s, i, n)) <= SumPrices(Window(s, j, n))
    ensures forall j :: 0 <= j < i ==> SumPrices(Window(s, i, n)) < SumPrices(Window(s, j, n))
  {
    forall j | 0 <= j <= |s| - n ensures SumPrices(Window(s, j, n)) == WindowSum(Values(s), j, n) {
      SumPricesWindow(s, j, n);
    }
  }

  /** The first greatest-sum start, restated with the windows' `reduce` sums. */
  lemma FirstMaxWindowGreatest(s: seq<Price>, n: nat, i: nat)
    requires n <= |s| && IsFirstMaxStart(Values(s), n, |s| - n + 1, i)
    ensures forall j :: 0 <= j <= |s| - n ==> SumPrices(Window(s, i, n)) >= SumPrices(Window(s, j, n))
    ensures forall j :: 0 <= j < i ==> SumPrices(Window(s, i, n)) > SumPrices(Window(s, j, n))
  {
    forall j | 0 <= j <= |s| - n ensures SumPrices(Window(s, j, n)) == WindowSum(Values(s), j, n) {
      SumPricesWindow(s, j, n);
    }
  }

  /**
   * `getCheapestPeriod` returns `n` consecutive entries of the date-sorted
   * series whose sum is at most that of every width-`n` window and strictly
   * below that of every earlier one.
   */
  lemma CheapestPeriodIsFirstCheapestWindow(prices: seq<Price>, n: nat)
    requires n <= |prices|
    ensures var s := SortByDate(prices);
      exists i :: 0 <= i <= |s| - n && CheapestPeriod(prices, n) == Window(s, i, n)
        && (forall j :: 0 <= j <= |s| - n ==> SumPrices(Window(s, i, n)) <= SumPrices(Window(s, j, n)))
        && (forall j :: 0 <= j < i ==> SumPrices(Window(s, i, n)) < SumPrices(Window(s, j, n)))
  {
    var i := CheapestPeriodAt(prices, n);
    FirstMinWindowLeast(SortByDate(prices), n, i);
  }

  /** `getMostExpensivePeriod` returns the earliest largest-sum width-`n` window. */
  lemma MostExpensivePeriodIsFirstDearestWindow(prices: seq<Price>, n: nat)
    requires n <= |prices|
    ensures var s := SortByDate(prices);
      exists i :: 0 <= i <= |s| - n && MostExpensivePeriod(prices, n) == Window(s, i, n)
        && (forall j :: 0 <= j <= |s| - n ==> SumPrices(Window(s, i, n)) >= SumPrices(Window(s, j, n)))
        && (forall j :: 0 <= j < i ==> SumPrices(Window(s, i, n)) > SumPrices(Window(s, j, n)))
  {
    var i := MostExpensivePeriodAt(prices, n);
    FirstMaxWindowGreatest(SortByDate(prices), n, i);
  }

  /** With `n` equal to the series length the whole date-sorted series comes back. */
  lemma CheapestPeriodWholeSeries(prices: seq<Price>)
    ensures CheapestPeriod(prices, |prices|) == SortByDate(prices)
  {
  }

  /** A window of the sorted series holds only entries of the input. */
  lemma SortedWindowFromInput(prices: seq<Price>, i: nat, n: nat)
    requires i + n <= |prices|
    ensures forall p :: p in Window(SortByDate(prices), i, n) ==> p in prices
  {
    var s := SortByDate(prices);
    SortByPermutation(prices, DateKey);
    forall p | p in Window(s, i, n) ensures p in prices {
      assert p in s;
      assert p in multiset(s);
    }
  }

  /** A window of a slice is the window of the whole series shifted by the slice's start. */
  lemma WindowOfSlice(s: seq<Price>, lo: nat, hi: nat, j: nat, n: nat)
    requires lo <= hi <= |s| && j + n <= hi - lo
    ensures Window(s[lo..hi], j, n) == Window(s, lo + j, n)
  {
    var a := Window(s[lo..hi], j, n);
    var b := Window(s, lo + j, n);
    forall k | 0 <= k < n ensures a[k] == b[k] {
      assert a[k] == s[lo..hi][j + k] == s[lo + j + k];
    }
  }

  /** Any window of a chronological series is chronological. */
  lemma WindowChronological(s: seq<Price>, i: nat, n: nat)
    requires ChronologicalOrder(s) && i + n <= |s|
    ensures ChronologicalOrder(Window(s, i, n))
  {
    var w := Window(s, i, n);
    forall k, l | 0 <= k < l < |w| ensures w[k].dateTime <= w[l].dateTime {
      assert w[k] == s[i + k] && w[l] == s[i + l];
    }
  }

  /** The returned window is drawn from the input and is in ascending date order. */
  lemma CheapestPeriodFromInput(prices: seq<Price>, n: nat)
    ensures forall p :: p in CheapestPeriod(prices, n) ==> p in prices
    ensures ChronologicalOrder(CheapestPeriod(prices, n))
  {
    if n <= |prices| {
      var s := SortByDate(prices);
      var i := FirstMinStart(Values(s), n, |s| - n + 1);
      assert CheapestPeriod(prices, n) == Window(s, i, n);
      SortedWindowFromInput(prices, i, n);
      SortByDateChronological(prices);
      WindowChronological(s, i, n);
    }
  }

  /** With `n = 1` the result is a single entry whose price is the lowest of the day. */
  lemma CheapestPeriodSingleHour(prices: seq<Price>)
    requires |prices| >= 1
    ensures |CheapestPeriod(prices, 1)| == 1
    ensures CheapestPeriod(prices, 1)[0] in prices
    ensures forall q :: q in prices ==> CheapestPeriod(prices, 1)[0].price <= q.price
  {
    var s := SortByDate(prices);
    var i := CheapestPeriodAt(prices, 1);
    FirstMinWindowLeast(s, 1, i);
    SortedWindowFromInput(prices, i, 1);
    LeastSingleWindow(s, i);
    SortByPermutation(prices, DateKey);
    forall q | q in prices ensures q in s {
      assert q in multiset(s);
    }
  }

  /** A width-1 window with the least sum holds an entry no dearer than any entry. */
  lemma LeastSingleWindow(s: seq<Price>, i: nat)
    requires i < |s|
    requires forall j :: 0 <= j <= |s| - 1 ==> SumPrices(Window(s, i, 1)) <= SumPrices(Window(s, j, 1))
    ensures Window(s, i, 1) == [s[i]]
    ensures forall q :: q in s ==> s[i].price <= q.price
  {
    assert Window(s, i, 1) == [s[i]];
    forall q | q in s ensures s[i].price <= q.price {
      var j :| 0 <= j < |s| && s[j] == q;
      assert Window(s, j, 1) == [q];
      assert SumPrices(Window(s, i, 1)) <= SumPrices(Window(s, j, 1));
    }
  }

  /** Filtering a date-sorted series for "earlier than `c`" keeps a prefix. */
  lemma BeforeOfSorted(s: seq<Price>, c: int) returns (k: nat)
    requires ChronologicalOrder(s)
    ensures k <= |s| && Before(s, c) == s[..k]
    ensures forall j :: 0 <= j < |s| ==> (j < k <==> s[j].dateTime < c)
  {
    k := 0;
    while k < |s| && s[k].dateTime < c
      invariant k <= |s| && forall j :: 0 <= j < k ==> s[j].dateTime < c
    {
      k := k + 1;
    }
    forall j | k <= j < |s| ensures s[j].dateTime >= c {
      assert s[k].dateTime <= s[j].dateTime;
    }
    BeforePrefix(s, c, k);
  }

  /** When exactly the entries before position `k` are earlier than `c`, the filter keeps `s[..k]`. */
  lemma {:induction false} BeforePrefix(s: seq<Price>, c: int, k: nat)
    requires k <= |s| && forall j :: 0 <= j < |s| ==> (j < k <==> s[j].dateTime < c)
    ensures Before(s, c) == s[..k]
  {
    if |s| > 0 {
      var init := s[..|s| - 1];
      var k' := if k == |s| then k - 1 else k;
      forall j | 0 <= j < |init| ensures j < k' <==> init[j].dateTime < c {
        assert init[j] == s[j];
      }
      BeforePrefix(init, c, k');
      if k == |s| {
        assert s == init + [s[|s| - 1]];
      } else {
        assert s[..k] == init[..k];
      }
    }
  }

  /** Filtering a date-sorted series for "later than `c`" keeps a suffix. */
  lemma AfterOfSorted(s: seq<Price>, c: int) returns (k: nat)
    requires ChronologicalOrder(s)
    ensures k <= |s| && After(s, c) == s[k..]
    ensures forall j :: 0 <= j < |s| ==> (j >= k <==> s[j].dateTime > c)
  {
    k := 0;
    while k < |s| && s[k].dateTime <= c
      invariant k <= |s| && forall j :: 0 <= j < k ==> s[j].dateTime <= c
    {
      k := k + 1;
    }
    forall j | k <= j < |s| ensures s[j].dateTime > c {
      assert s[k].dateTime <= s[j].dateTime;
    }
    AfterSuffix(s, c, k);
  }

  /** When exactly the entries from position `k` on are later than `c`, the filter keeps `s[k..]`. */
  lemma {:induction false} AfterSuffix(s: seq<Price>, c: int, k: nat)
    requires k <= |s| && forall j :: 0 <= j < |s| ==> (j >= k <==> s[j].dateTime > c)
    ensures After(s, c) == s[k..]
  {
    if |s| > 0 {
      var init := s[..|s| - 1];
      var k' := if k == |s| then k - 1 else k;
      forall j | 0 <= j < |init| ensures j >= k' <==> init[j].dateTime > c {
        assert init[j] == s[j];
      }
      AfterSuffix(init, c, k');
      if k < |s| {
        assert s[|s| - 1].dateTime > c;
        assert After(s, c) == After(init, c) + [s[|s| - 1]];
        assert s[k..] == init[k..] + [s[|s| - 1]];
      } else {
        assert s[|s| - 1].dateTime <= c;
        assert After(s, c) == After(init, c);
      }
    }
  }

  /** A slice of a chronological series is chronological. */
  lemma SliceChronological(s: seq<Price>, lo: nat, hi: nat)
    requires ChronologicalOrder(s) && lo <= hi <= |s|
    ensures ChronologicalOrder(s[lo..hi])
  {
    var t := s[lo..hi];
    forall a, b | 0 <= a < b < |t| ensures t[a].dateTime <= t[b].dateTime {
      assert t[a] == s[lo + a] && t[b] == s[lo + b];
    }
  }

  /** On a chronological series the cheapest period is its own least-sum window. */
  lemma CheapestOfChronological(t: seq<Price>, n: nat) returns (i: nat)
    requires ChronologicalOrder(t) && n <= |t|
    ensures i + n <= |t| && CheapestPeriod(t, n) == Window(t, i, n)
    ensures forall j :: 0 <= j && j + n <= |t| ==> SumPrices(Window(t, i, n)) <= SumPrices(Window(t, j, n))
    ensures forall j :: 0 <= j < i ==> SumPrices(Window(t, i, n)) < SumPrices(Window(t, j, n))
  {
    SortByDateOfChronological(t);
    i := CheapestPeriodAt(t, n);
    FirstMinWindowLeast(t, n, i);
  }

  /**
   * The cheapest period of a slice `s[lo..hi]` of a chronological series is a
   * window of `s` inside the slice, no dearer than any other such window
   * and strictly cheaper than every earlier one.
   */
  lemma CheapestOfSortedSlice(s: seq<Price>, lo: nat, hi: nat, n: nat) returns (i: nat)
    requires ChronologicalOrder(s)
    requires lo <= hi <= |s| && n <= hi - lo
    ensures lo <= i && i + n <= hi
    ensures CheapestPeriod(s[lo..hi], n) == Window(s, i, n)
    ensures forall j :: lo <= j && j + n <= hi ==> SumPrices(Window(s, i, n)) <= SumPrices(Window(s, j, n))
    ensures forall j :: lo <= j < i ==> SumPrices(Window(s, i, n)) < SumPrices(Window(s, j, n))
  {
    SliceChronological(s, lo, hi);
    var i' := CheapestOfChronological(s[lo..hi], n);
    LeastWindowOfSlice(s, lo, hi, n, i');
    FirstWindowOfSlice(s, lo, hi, n, i');
    i := lo + i';
  }

  /** A least-sum window of a slice `s[lo..hi]` is, shifted by `lo`, a least-sum window of `s` inside the slice. */
  lemma LeastWindowOfSlice(s: seq<Price>, lo: nat, hi: nat, n: nat, i: nat)
    requires lo <= hi <= |s| && i + n <= hi - lo
    requires forall j :: 0 <= j && j + n <= hi - lo ==>
      SumPrices(Window(s[lo..hi], i, n)) <= SumPrices(Window(s[lo..hi], j, n))
    ensures Window(s[lo..hi], i, n) == Window(s, lo + i, n)
    ensures forall j :: lo <= j && j + n <= hi ==> SumPrices(Window(s, lo + i, n)) <= SumPrices(Window(s, j, n))
  {
    WindowOfSlice(s, lo, hi, i, n);
    forall j | lo <= j && j + n <= hi
      ensures SumPrices(Window(s, lo + i, n)) <= SumPrices(Window(s, j, n))
    {
      WindowOfSlice(s, lo, hi, j - lo, n);
      assert SumPrices(Window(s[lo..hi], i, n)) <= SumPrices(Window(s[lo..hi], j - lo, n));
    }
  }

  /**
   * A window of a slice `s[lo..hi]` strictly cheaper than every earlier one
   * is, shifted by `lo`, strictly cheaper than every earlier window of `s`
   * inside the slice.
   */
  lemma FirstWindowOfSlice(s: seq<Price>, lo: nat, hi: nat, n: nat, i: nat)
    requires lo <= hi <= |s| && i + n <= hi - lo
    requires forall j :: 0 <= j < i ==> SumPrices(Window(s[lo..hi], i, n)) < SumPrices(Window(s[lo..hi], j, n))
    ensures forall j :: lo <= j < lo + i ==> SumPrices(Window(s, lo + i, n)) < SumPrices(Window(s, j, n))
  {
    WindowOfSlice(s, lo, hi, i, n);
    forall j | lo <= j < lo + i
      ensures SumPrices(Window(s, lo + i, n)) < SumPrices(Window(s, j, n))
    {
      WindowOfSlice(s, lo, hi, j - lo, n);
      assert SumPrices(Window(s[lo..hi], i, n)) < SumPrices(Window(s[lo..hi], j - lo, n));
    }
  }

  /**
   * Window `j` of the date-sorted series `s` lies wholly outside `first`:
   * it ends before `first` starts or starts after `first` ends.
   */
  ghost predicate OutsideWindow(s: seq<Price>, n: nat, first: seq<Price>, j: int)
    requires n >= 1 && |first| == n
  {
    0 <= j && j + n <= |s|
    && (s[j + n - 1].dateTime < first[0].dateTime || s[j].dateTime > first[n - 1].dateTime)
  }

  /**
   * `second` is empty exactly when no window lies outside `first`; otherwise
   * it is the outside window `j` with the least sum, and when it lies before
   * `first` it is strictly cheaper than every outside window after `first`.
   */
  ghost predicate CheapestOutside(s: seq<Price>, n: nat, first: seq<Price>, second: seq<Price>, j: int)
    requires n >= 1 && |first| == n
  {
    && (second == [] <==> forall k :: !OutsideWindow(s, n, first, k))
    && (second != [] ==>
          && OutsideWindow(s, n, first, j) && second == Window(s, j, n)
          && forall k :: OutsideWindow(s, n, first, k) ==> SumPrices(second) <= SumPrices(Window(s, k, n)))
    && (second != [] && s[j + n - 1].dateTime < first[0].dateTime ==>
          forall k :: OutsideWindow(s, n, first, k) && s[k].dateTime > first[n - 1].dateTime ==>
            SumPrices(second) < SumPrices(Window(s, k, n)))
  }

  /**
   * The tie-break within a side: a non-empty `second`, the outside window
   * `j`, is strictly cheaper than every earlier outside window on its own side
   * of `first`.
   */
  ghost predicate EarliestOutside(s: seq<Price>, n: nat, first: seq<Price>, second: seq<Price>, j: int)
    requires n >= 1 && |first| == n
  {
    second != [] && OutsideWindow(s, n, first, j) ==>
      && (s[j + n - 1].dateTime < first[0].dateTime ==>
            forall k :: OutsideWindow(s, n, first, k) && k < j ==> SumPrices(second) < SumPrices(Window(s, k, n)))
      && (s[j].dateTime > first[n - 1].dateTime ==>
            forall k :: OutsideWindow(s, n, first, k) && s[k].dateTime > first[n - 1].dateTime && k < j ==>
              SumPrices(second) < SumPrices(Window(s, k, n)))
  }

  /** Averages of two periods of equal length compare as their sums do. */
  lemma AverageOrder(a: seq<Price>, b: seq<Price>)
    requires |a| == |b| > 0
    ensures CalculateAverage(a) <= CalculateAverage(b) <==> SumPrices(a) <= SumPrices(b)
    ensures CalculateAverage(a) < CalculateAverage(b) <==> SumPrices(a) < SumPrices(b)
  {
    DivOrder(SumPrices(a), SumPrices(b), |a| as real);
  }

  /** The first period is the least-sum window `f` of the date-sorted series. */
  lemma FirstOfTwo(prices: seq<Price>, n: nat) returns (f: nat)
    requires n <= |prices|
    ensures var s := SortByDate(prices);
      f + n <= |s| && CheapestPeriod(prices, n) == Window(s, f, n)
      && forall j :: 0 <= j && j + n <= |s| ==> SumPrices(Window(s, f, n)) <= SumPrices(Window(s, j, n))
  {
    f := CheapestPeriodAt(prices, n);
    FirstMinWindowLeast(SortByDate(prices), n, f);
  }

  /**
   * The two filters cut the date-sorted series into the prefix `s[..kb]`
   * before the first period and the suffix `s[ka..]` after it, and the
   * windows outside the first period are exactly the windows of those.
   */
  lemma OutsideSplit(prices: seq<Price>, n: nat, f: nat) returns (kb: nat, ka: nat)
    requires 1 <= n && f + n <= |prices|
    requires CheapestPeriod(prices, n) == Window(SortByDate(prices), f, n)
    ensures var s := SortByDate(prices); var first := CheapestPeriod(prices, n);
      kb <= f && f + n <= ka <= |s|
      && Before(s, first[0].dateTime) == s[..kb]
      && After(s, first[n - 1].dateTime) == s[ka..]
      && (forall j :: 0 <= j < |s| ==> (j < kb <==> s[j].dateTime < first[0].dateTime))
      && (forall j :: 0 <= j < |s| ==> (j >= ka <==> s[j].dateTime > first[n - 1].dateTime))
      && forall j :: OutsideWindow(s, n, first, j) <==> (0 <= j && j + n <= kb) || (ka <= j && j + n <= |s|)
  {
    SortByDateChronological(prices);
    kb, ka := SplitAround(SortByDate(prices), n, CheapestPeriod(prices, n), f);
  }

  /** `OutsideSplit` for a chronological series `s` whose window `f` is `first`. */
  lemma SplitAround(s: seq<Price>, n: nat, first: seq<Price>, f: nat) returns (kb: nat, ka: nat)
    requires 1 <= n && f + n <= |s| && ChronologicalOrder(s) && first == Window(s, f, n)
    ensures kb <= f && f + n <= ka <= |s|
      && Before(s, first[0].dateTime) == s[..kb]
      && After(s, first[n - 1].dateTime) == s[ka..]
      && (forall j :: 0 <= j < |s| ==> (j < kb <==> s[j].dateTime < first[0].dateTime))
      && (forall j :: 0 <= j < |s| ==> (j >= ka <==> s[j].dateTime > first[n - 1].dateTime))
      && forall j :: OutsideWindow(s, n, first, j) <==> (0 <= j && j + n <= kb) || (ka <= j && j + n <= |s|)
  {
    assert first[0] == s[f] && first[n - 1] == s[f + n - 1];
    kb := BeforeOfSorted(s, first[0].dateTime);
    ka := AfterOfSorted(s, first[n - 1].dateTime);
    forall j ensures OutsideWindow(s, n, first, j) <==> (0 <= j && j + n <= kb) || (ka <= j && j + n <= |s|) {
      if 0 <= j && j + n <= |s| {
        assert j + n - 1 < kb <==> s[j + n - 1].dateTime < first[0].dateTime;
        assert j >= ka <==> s[j].dateTime > first[n - 1].dateTime;
      }
    }
  }

  /**
   * `ChooseSecond` in terms of windows: given the least-sum window `bi` of
   * the prefix `s[..kb]` and `ai` of the suffix `s[ka..]` (each present only
   * when the part is long enough), the choice is a least-sum window of the
   * two parts together, strictly cheaper than every earlier window of its own
   * part, and a choice from the prefix is strictly cheaper than every window
   * of the suffix.
   */
  lemma ChooseSecondWindow(s: seq<Price>, n: nat, kb: nat, ka: nat, bi: nat, ai: nat,
                           before: seq<Price>, after: seq<Price>) returns (j: int)
    requires 1 <= n && kb <= ka <= |s|
    requires n <= kb ==>
      (bi + n <= kb && before == Window(s, bi, n)
       && (forall k :: 0 <= k && k + n <= kb ==> SumPrices(before) <= SumPrices(Window(s, k, n)))
       && forall k :: 0 <= k < bi ==> SumPrices(before) < SumPrices(Window(s, k, n)))
    requires n > kb ==> before == []
    requires ka + n <= |s| ==>
      (ka <= ai && ai + n <= |s| && after == Window(s, ai, n)
       && (forall k :: ka <= k && k + n <= |s| ==> SumPrices(after) <= SumPrices(Window(s, k, n)))
       && forall k :: ka <= k < ai ==> SumPrices(after) < SumPrices(Window(s, k, n)))
    requires ka + n > |s| ==> after == []
    ensures var second := ChooseSecond(before, after, n);
      && (second == [] <==> kb < n && |s| < ka + n)
      && (second != [] ==>
            && ((0 <= j && j + n <= kb) || (ka <= j && j + n <= |s|)) && second == Window(s, j, n)
            && forall k :: (0 <= k && k + n <= kb) || (ka <= k && k + n <= |s|) ==>
                 SumPrices(second) <= SumPrices(Window(s, k, n)))
      && (second != [] && j < kb ==>
            forall k :: ka <= k && k + n <= |s| ==> SumPrices(second) < SumPrices(Window(s, k, n)))
      && (second != [] && j < kb ==> forall k :: 0 <= k < j ==> SumPrices(second) < SumPrices(Window(s, k, n)))
      && (second != [] && j >= ka ==> forall k :: ka <= k < j ==> SumPrices(second) < SumPrices(Window(s, k, n)))
  {
    if n <= kb && ka + n <= |s| {
      AverageOrder(before, after);
      j := if CalculateAverage(before) < CalculateAverage(after) then bi else ai;
    } else if n <= kb {
      j := bi;
    } else {
      j := ai;
    }
  }

  /**
   * The candidate is empty exactly when no window lies outside the first
   * period; otherwise it is such a window with the least sum, and when it
   * lies before the first period it is strictly cheaper than every window
   * after it (ties go to the later window); within its side it is the
   * earliest such window.
   */
  lemma SecondCandidateWindow(prices: seq<Price>, n: nat) returns (j: int)
    requires 1 <= n <= |prices|
    ensures CheapestOutside(SortByDate(prices), n, CheapestPeriod(prices, n), SecondCandidate(prices, n), j)
    ensures EarliestOutside(SortByDate(prices), n, CheapestPeriod(prices, n), SecondCandidate(prices, n), j)
  {
    var s := SortByDate(prices);
    var first := CheapestPeriod(prices, n);
    SortByDateChronological(prices);
    var f := FirstOfTwo(prices, n);
    var kb, ka := OutsideSplit(prices, n, f);
    var before := CheapestPeriod(s[..kb], n);
    var after := CheapestPeriod(s[ka..], n);
    assert SecondCandidate(prices, n) == ChooseSecond(before, after, n);
    var bi := CheapestOfPrefix(s, kb, n);
    var ai := CheapestOfSuffix(s, ka, n);
    j := ChooseSecondWindow(s, n, kb, ka, bi, ai, before, after);
    OutsideOfSplit(s, n, first, kb, ka, j, SecondCandidate(prices, n));
  }

  /** The cheapest period of the prefix `s[..kb]`: empty when it is too short. */
  lemma CheapestOfPrefix(s: seq<Price>, kb: nat, n: nat) returns (bi: nat)
    requires ChronologicalOrder(s) && kb <= |s|
    ensures n <= kb ==>
      (bi + n <= kb && CheapestPeriod(s[..kb], n) == Window(s, bi, n)
       && (forall k :: 0 <= k && k + n <= kb ==> SumPrices(CheapestPeriod(s[..kb], n)) <= SumPrices(Window(s, k, n)))
       && forall k :: 0 <= k < bi ==> SumPrices(CheapestPeriod(s[..kb], n)) < SumPrices(Window(s, k, n)))
    ensures n > kb ==> CheapestPeriod(s[..kb], n) == []
  {
    bi := 0;
    if n <= kb {
      bi := CheapestOfSortedSlice(s, 0, kb, n);
    }
  }

  /** The cheapest period of the suffix `s[ka..]`: empty when it is too short. */
  lemma CheapestOfSuffix(s: seq<Price>, ka: nat, n: nat) returns (ai: nat)
    requires ChronologicalOrder(s) && ka <= |s|
    ensures ka + n <= |s| ==>
      (ka <= ai && ai + n <= |s| && CheapestPeriod(s[ka..], n) == Window(s, ai, n)
       && (forall k :: ka <= k && k + n <= |s| ==> SumPrices(CheapestPeriod(s[ka..], n)) <= SumPrices(Window(s, k, n)))
       && forall k :: ka <= k < ai ==> SumPrices(CheapestPeriod(s[ka..], n)) < SumPrices(Window(s, k, n)))
    ensures ka + n > |s| ==> CheapestPeriod(s[ka..], n) == []
  {
    ai := ka;
    if ka + n <= |s| {
      assert s[ka..|s|] == s[ka..];
      ai := CheapestOfSortedSlice(s, ka, |s|, n);
    }
  }

  /** Restates the index ranges of `ChooseSecondWindow` as windows outside the first period. */
  lemma OutsideOfSplit(s: seq<Price>, n: nat, first: seq<Price>, kb: nat, ka: nat, j: int, second: seq<Price>)
    requires 1 <= n && |first| == n && kb <= ka <= |s|
    requires forall k :: 0 <= k < |s| ==> (k < kb <==> s[k].dateTime < first[0].dateTime)
    requires forall k :: 0 <= k < |s| ==> (k >= ka <==> s[k].dateTime > first[n - 1].dateTime)
    requires forall k :: OutsideWindow(s, n, first, k) <==> (0 <= k && k + n <= kb) || (ka <= k && k + n <= |s|)
    requires second == [] <==> kb < n && |s| < ka + n
    requires second != [] ==>
      && ((0 <= j && j + n <= kb) || (ka <= j && j + n <= |s|)) && second == Window(s, j, n)
      && forall k :: (0 <= k && k + n <= kb) || (ka <= k && k + n <= |s|) ==>
           SumPrices(second) <= SumPrices(Window(s, k, n))
    requires second != [] && j < kb ==>
      forall k :: ka <= k && k + n <= |s| ==> SumPrices(second) < SumPrices(Window(s, k, n))
    requires second != [] && j < kb ==> forall k :: 0 <= k < j ==> SumPrices(second) < SumPrices(Window(s, k, n))
    requires second != [] && j >= ka ==> forall k :: ka <= k < j ==> SumPrices(second) < SumPrices(Window(s, k, n))
    ensures CheapestOutside(s, n, first, second, j)
    ensures EarliestOutside(s, n, first, second, j)
  {
    if second == [] {
      forall k ensures !OutsideWindow(s, n, first, k) {
      }
    } else {
      assert OutsideWindow(s, n, first, j);
      if s[j + n - 1].dateTime < first[0].dateTime {
        assert j < kb;
        forall k | OutsideWindow(s, n, first, k) && s[k].dateTime > first[n - 1].dateTime
          ensures SumPrices(second) < SumPrices(Window(s, k, n))
        {
          assert ka <= k;
        }
        forall k | OutsideWindow(s, n, first, k) && k < j
          ensures SumPrices(second) < SumPrices(Window(s, k, n))
        {
          assert k < kb;
        }
      }
      if s[j].dateTime > first[n - 1].dateTime {
        assert j >= ka;
        forall k | OutsideWindow(s, n, first, k) && s[k].dateTime > first[n - 1].dateTime && k < j
          ensures SumPrices(second) < SumPrices(Window(s, k, n))
        {
          assert ka <= k;
        }
      }
    }
  }

  /**
   * A second period of `getTwoCheapestPeriods`, when there is one, is a
   * window of the date-sorted series outside the first period with the least
   * sum among those and strictly cheaper than every earlier outside window on
   * its own side, and it lies before the first period only when it is
   * strictly cheaper than every window after it.
   */
  lemma TwoCheapestSecondOutside(prices: seq<Price>, n: nat) returns (j: int)
    requires 1 <= n <= |prices|
    ensures var s := SortByDate(prices); var r := TwoCheapestPeriods(prices, n);
      r.1 != [] ==> OutsideWindow(s, n, r.0, j) && r.1 == Window(s, j, n)
    ensures var s := SortByDate(prices); var r := TwoCheapestPeriods(prices, n);
      r.1 != [] ==> forall k :: OutsideWindow(s, n, r.0, k) ==> SumPrices(r.1) <= SumPrices(Window(s, k, n))
    ensures var s := SortByDate(prices); var r := TwoCheapestPeriods(prices, n);
      r.1 != [] && r.1[n - 1].dateTime < r.0[0].dateTime ==>
        forall k :: OutsideWindow(s, n, r.0, k) && s[k].dateTime > r.0[n - 1].dateTime ==>
          SumPrices(r.1) < SumPrices(Window(s, k, n))
    ensures var s := SortByDate(prices); var r := TwoCheapestPeriods(prices, n);
      r.1 != [] && r.1[n - 1].dateTime < r.0[0].dateTime ==>
        forall k :: OutsideWindow(s, n, r.0, k) && k < j ==> SumPrices(r.1) < SumPrices(Window(s, k, n))
    ensures var s := SortByDate(prices); var r := TwoCheapestPeriods(prices, n);
      r.1 != [] && r.1[0].dateTime > r.0[n - 1].dateTime ==>
        forall k :: OutsideWindow(s, n, r.0, k) && s[k].dateTime > r.0[n - 1].dateTime && k < j ==>
          SumPrices(r.1) < SumPrices(Window(s, k, n))
  {
    var s := SortByDate(prices);
    var r := TwoCheapestPeriods(prices, n);
    j := SecondCandidateWindow(prices, n);
    if r.1 != [] {
      assert r.0 == CheapestPeriod(prices, n) && r.1 == SecondCandidate(prices, n);
      OutsideSides(s, n, r.0, r.1, j);
    }
  }

  /** `CheapestOutside` for a non-empty `second`, with its side read off its own entries. */
  lemma CheapestOutsideSides(s: seq<Price>, n: nat, first: seq<Price>, second: seq<Price>, j: int)
    requires n >= 1 && |first| == n && second != [] && CheapestOutside(s, n, first, second, j)
    ensures OutsideWindow(s, n, first, j) && second == Window(s, j, n)
    ensures forall k :: OutsideWindow(s, n, first, k) ==> SumPrices(second) <= SumPrices(Window(s, k, n))
    ensures second[n - 1].dateTime < first[0].dateTime ==>
      forall k :: OutsideWindow(s, n, first, k) && s[k].dateTime > first[n - 1].dateTime ==>
        SumPrices(second) < SumPrices(Window(s, k, n))
  {
    assert second[n - 1] == s[j + n - 1];
  }

  /** `EarliestOutside` for the outside window `second`, with its side read off its own entries. */
  lemma EarliestOutsideSides(s: seq<Price>, n: nat, first: seq<Price>, second: seq<Price>, j: int)
    requires n >= 1 && |first| == n && OutsideWindow(s, n, first, j) && second == Window(s, j, n)
    requires EarliestOutside(s, n, first, second, j)
    ensures second[n - 1].dateTime < first[0].dateTime ==>
      forall k :: OutsideWindow(s, n, first, k) && k < j ==> SumPrices(second) < SumPrices(Window(s, k, n))
    ensures second[0].dateTime > first[n - 1].dateTime ==>
      forall k :: OutsideWindow(s, n, first, k) && s[k].dateTime > first[n - 1].dateTime && k < j ==>
        SumPrices(second) < SumPrices(Window(s, k, n))
  {
    assert second[0] == s[j] && second[n - 1] == s[j + n - 1];
  }

  /** `CheapestOutside` and `EarliestOutside` for a non-empty `second`, with its sides read off its own entries. */
  lemma OutsideSides(s: seq<Price>, n: nat, first: seq<Price>, second: seq<Price>, j: int)
    requires n >= 1 && |first| == n && second != []
    requires CheapestOutside(s, n, first, second, j) && EarliestOutside(s, n, first, second, j)
    ensures OutsideWindow(s, n, first, j) && second == Window(s, j, n)
    ensures forall k :: OutsideWindow(s, n, first, k) ==> SumPrices(second) <= SumPrices(Window(s, k, n))
    ensures second[n - 1].dateTime < first[0].dateTime ==>
      forall k :: OutsideWindow(s, n, first, k) && s[k].dateTime > first[n - 1].dateTime ==>
        SumPrices(second) < SumPrices(Window(s, k, n))
    ensures second[n - 1].dateTime < first[0].dateTime ==>
      forall k :: OutsideWindow(s, n, first, k) && k < j ==> SumPrices(second) < SumPrices(Window(s, k, n))
    ensures second[0].dateTime > first[n - 1].dateTime ==>
      forall k :: OutsideWindow(s, n, first, k) && s[k].dateTime > first[n - 1].dateTime && k < j ==>
        SumPrices(second) < SumPrices(Window(s, k, n))
  {
    CheapestOutsideSides(s, n, first, second, j);
    EarliestOutsideSides(s, n, first, second, j);
  }

  /**
   * Every entry of a second period comes from the input and lies strictly
   * before or strictly after the first period, so the two never overlap.
   */
  lemma TwoCheapestDisjoint(prices: seq<Price>, n: nat)
    requires 1 <= n <= |prices|
    ensures var r := TwoCheapestPeriods(prices, n);
      forall p :: p in r.1 ==> p in prices && (p.dateTime < r.0[0].dateTime || p.dateTime > r.0[n - 1].dateTime)
  {
    var s := SortByDate(prices);
    var r := TwoCheapestPeriods(prices, n);
    var j := SecondCandidateWindow(prices, n);
    if r.1 != [] {
      assert r.1 == SecondCandidate(prices, n);
      assert OutsideWindow(s, n, r.0, j) && r.1 == Window(s, j, n);
      SortByDateChronological(prices);
      SortedWindowFromInput(prices, j, n);
      OutsideWindowEntries(s, n, r.0, j);
    }
  }

  /** Every entry of a window outside `first` of a chronological series lies before or after `first`. */
  lemma OutsideWindowEntries(s: seq<Price>, n: nat, first: seq<Price>, j: int)
    requires n >= 1 && |first| == n
    requires ChronologicalOrder(s) && OutsideWindow(s, n, first, j)
    ensures forall p :: p in Window(s, j, n) ==> p.dateTime < first[0].dateTime || p.dateTime > first[n - 1].dateTime
  {
    var w := Window(s, j, n);
    forall p | p in w ensures p.dateTime < first[0].dateTime || p.dateTime > first[n - 1].dateTime {
      var t :| 0 <= t < n && w[t] == p;
      assert p == s[j + t];
      if s[j + n - 1].dateTime < first[0].dateTime {
        assert s[j + t].dateTime <= s[j + n - 1].dateTime;
      } else {
        assert s[j].dateTime <= s[j + t].dateTime;
      }
    }
  }

  /**
   * The variance gate: a second period is kept exactly when some window
   * outside the first period averages at most `Variance` above the first;
   * a kept second period averages no less than the first and at most
   * `Variance` above it.
   */
  lemma TwoCheapestGate(prices: seq<Price>, n: nat)
    requires 1 <= n <= |prices|
    ensures var s := SortByDate(prices); var r := TwoCheapestPeriods(prices, n);
      r.1 != [] <==>
        exists k :: OutsideWindow(s, n, r.0, k)
          && CalculateAverage(Window(s, k, n)) <= CalculateAverage(r.0) + Variance
    ensures var r := TwoCheapestPeriods(prices, n);
      r.1 != [] ==>
        CalculateAverage(r.0) <= CalculateAverage(r.1) <= CalculateAverage(r.0) + Variance
  {
    var s := SortByDate(prices);
    var r := TwoCheapestPeriods(prices, n);
    var first := r.0;
    var second := SecondCandidate(prices, n);
    var j := SecondCandidateWindow(prices, n);
    var f := FirstOfTwo(prices, n);
    if second != [] {
      assert second == Window(s, j, n);
      AverageOrder(first, second);
      assert CalculateAverage(first) <= CalculateAverage(second);
      assert r.1 != [] <==> CalculateAverage(second) <= CalculateAverage(first) + Variance;
      forall k | OutsideWindow(s, n, first, k)
        ensures CalculateAverage(second) <= CalculateAverage(Window(s, k, n))
      {
        AverageOrder(second, Window(s, k, n));
      }
    }
  }

  /** Sums of prices that all lie in `[lo, hi]` lie between `|w|·lo` and `|w|·hi`. */
  lemma {:induction false} SumPricesBounds(w: seq<Price>, lo: real, hi: real)
    requires forall p :: p in w ==> lo <= p.price <= hi
    ensures |w| as real * lo <= SumPrices(w) <= |w| as real * hi
  {
    var v := Values(w);
    forall k | 0 <= k < |v| ensures lo <= v[k] <= hi {
      assert w[k] in w;
    }
    SumRangeBounds(v, 0, |v|, lo, hi);
    SumPricesWindow(w, 0, |w|);
    assert Window(w, 0, |w|) == w;
  }

  /** `calculateAverage` lies between the least and the greatest price of the series. */
  lemma AverageBounds(prices: seq<Price>, lo: real, hi: real)
    requires |prices| > 0
    requires forall p :: p in prices ==> lo <= p.price <= hi
    ensures lo <= CalculateAverage(prices) <= hi
  {
    SumPricesBounds(prices, lo, hi);
    MeanBounds(SumPrices(prices), |prices| as real, lo, hi);
  }

  /**
   * `calculateRating`: "BUENO" below `median - Variance`, "NORMAL" within
   * `Variance` of the median either way, "MALO" above. An empty day has no
   * average (NaN), fails both comparisons and is rated "MALO".
   */
  function CalculateRating(prices: seq<Price>, median: real): (r: DayRating)
    ensures |prices| == 0 ==> r == Malo
    ensures |prices| > 0 ==>
      && (r == Bueno <==> CalculateAverage(prices) < median - Variance)
      && (r == Normal <==> Abs(CalculateAverage(prices) - median) <= Variance)
      && (r == Malo <==> CalculateAverage(prices) > median + Variance)
  {
    if |prices| == 0 then Malo
    else
      var currMedian := CalculateAverage(prices);
      var lowLine := median - Variance;
      var highLine := median + Variance;
      if currMedian < lowLine then Bueno
      else if currMedian >= lowLine && currMedian <= highLine then Normal
      else Malo
  }

  /** A dearer day never gets a better rating against the same median. */
  lemma RatingMonotone(a: seq<Price>, b: seq<Price>, median: real)
    requires |a| > 0 && |b| > 0
    requires CalculateAverage(a) <= CalculateAverage(b)
    ensures Rank(CalculateRating(a, median)) <= Rank(CalculateRating(b, median))
  {
  }
}
