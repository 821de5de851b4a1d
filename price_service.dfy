/**
 * The Python price service: the cheapest-period scan over a copy sorted by
 * hour, first-min/first-max selection, the mean, and the two day-rating
 * rules. Fetching prices over HTTP is not modelled; the averages the rating
 * rules would fetch are parameters.
 *
 * `hour` is the observation's hour of day. The source compares the
 * zero-padded two-digit `'%H'` strings, which order exactly as the numbers
 * 0..23 do.
 */
module PriceService {
  import opened Wrappers
  import opened Sorting
  import opened Windows
  import Models
  import PriceUtils

  const Variance: real := 0.02

  /** A `Price` object, reduced to the fields the analysis reads. */
  datatype Price = Price(value: real, hour: int)

  function HourKey(p: Price): int {
    p.hour
  }

  /** `sorted(prices, key=lambda x: x.hour)`: a new, stably sorted list. */
  function SortByHour(prices: seq<Price>): (r: seq<Price>)
    ensures multiset(r) == multiset(prices)
  {
    SortByPermutation(prices, HourKey);
    SortBy(prices, HourKey)
  }

  /** The values of a list, position by position. */
  function Values(s: seq<Price>): seq<real> {
    seq(|s|, i requires 0 <= i < |s| => s[i].value)
  }

  /** The slice `s[i:i+n]`. */
  function Window(s: seq<Price>, i: nat, n: nat): (w: seq<Price>)
    requires i + n <= |s|
    ensures |w| == n
  {
    s[i..i + n]
  }

  /**
   * What `get_cheapest_period` returns: `None` when the list is shorter than
   * `n` (the loop never runs), otherwise the earliest least-sum width-`n`
   * slice of the hour-sorted copy.
   */
  function CheapestPeriod(prices: seq<Price>, n: nat): (r: Option<seq<Price>>)
    ensures r.None? <==> |prices| < n
    ensures r.Some? ==>
      var s := SortByHour(prices); var v := Values(s);
      exists i :: 0 <= i <= |s| - n && r.value == Window(s, i, n)
        && (forall j :: 0 <= j <= |s| - n ==> WindowSum(v, i, n) <= WindowSum(v, j, n))
        && (forall j :: 0 <= j < i ==> WindowSum(v, i, n) < WindowSum(v, j, n))
  {
    if |prices| < n then None
    else
      var s := SortByHour(prices);
      var i := FirstMinStart(Values(s), n, |s| - n + 1);
      Some(Window(s, i, n))
  }

  /**
   * `get_cheapest_period`: scans every start of the sorted copy, keeping a
   * slice only when its sum is strictly below the best so far.
   */
  method GetCheapestPeriod(prices: seq<Price>, n: nat) returns (minWindow: Option<seq<Price>>)
    ensures minWindow == CheapestPeriod(prices, n)
  {
    var pricesSorted := SortByHour(prices);
    ghost var v := Values(pricesSorted);
    var minSum: Option<real> := None;  // None stands for float('inf')
    minWindow := None;
    ghost var best: nat := 0;
    var i := 0;
    while i < |pricesSorted| - n + 1
      invariant 0 <= i && (i == 0 || i <= |pricesSorted| - n + 1)
      invariant i == 0 ==> minSum.None? && minWindow.None?
      invariant i > 0 ==> n <= |pricesSorted| && IsFirstMinStart(v, n, i, best)
      invariant i > 0 ==> minSum == Some(WindowSum(v, best, n)) && minWindow == Some(Window(pricesSorted, best, n))
    {
      var windowSum := WindowSum(Values(pricesSorted), i, n);
      FirstMinStep(v, n, i, best);
      if minSum.None? || windowSum < minSum.value {
        minSum := Some(windowSum);
        minWindow := Some(Window(pricesSorted, i, n));
        best := i;
      }
      i := i + 1;
    }
    if i > 0 {
      FirstMinStartUnique(v, n, i, best, FirstMinStart(v, n, i));
    }
  }

  /** `get_cheapest_period` leaves the caller's list alone and returns entries of it. */
  lemma CheapestPeriodFromInput(prices: seq<Price>, n: nat)
    requires n <= |prices|
    ensures forall p :: p in CheapestPeriod(prices, n).value ==> p in prices
  {
    var s := SortByHour(prices);
    SortByPermutation(prices, HourKey);
    forall p | p in CheapestPeriod(prices, n).value ensures p in prices {
      assert p in s;
      assert p in multiset(s);
    }
  }

  /**
   * Entries with the same hour keep their order in the sorted copy, and
   * the copy is ordered by hour.
   */
  lemma SortByHourStableSorted(prices: seq<Price>, h: int)
    ensures SortedBy(SortByHour(prices), HourKey)
    ensures WithKey(SortByHour(prices), HourKey, h) == WithKey(prices, HourKey, h)
  {
    SortBySorted(prices, HourKey);
    SortByStable(prices, HourKey, h);
  }

  /**
   * `get_min_price`: the first entry with the least value. `min` raises on
   * an empty list, so the list must not be empty.
   */
  function GetMinPrice(prices: seq<Price>): (p: Price)
    requires |prices| > 0
    ensures p in prices
    ensures forall q :: q in prices ==> p.value <= q.value
    ensures exists i ::
      0 <= i < |prices| && prices[i] == p && forall j :: 0 <= j < i ==> prices[j].value > p.value
  {
    var v := Values(prices);
    var i := FirstMinIndex(v);
    assert forall j :: 0 <= j < |prices| ==> v[j] == prices[j].value;
    prices[i]
  }

  /** `get_max_price`: the first entry with the greatest value; raises on an empty list. */
  function GetMaxPrice(prices: seq<Price>): (p: Price)
    requires |prices| > 0
    ensures p in prices
    ensures forall q :: q in prices ==> p.value >= q.value
    ensures exists i ::
      0 <= i < |prices| && prices[i] == p && forall j :: 0 <= j < i ==> prices[j].value < p.value
  {
    var v := Values(prices);
    var i := FirstMaxIndex(v);
    assert forall j :: 0 <= j < |prices| ==> v[j] == prices[j].value;
    prices[i]
  }

  /** `calculate_average`; dividing by `len` raises on an empty list. */
  function CalculateAverage(prices: seq<Price>): (r: real)
    requires |prices| > 0
    ensures r * |prices| as real == SumRange(Values(prices), 0, |prices|)
    ensures |prices| == 1 ==> r == prices[0].value
  {
    assert |prices| == 1 ==> SumRange(Values(prices), 0, 1) == prices[0].value by {
      if |prices| == 1 {
        assert SumRange(Values(prices), 0, 0) == 0.0;
      }
    }
    SumRange(Values(prices), 0, |prices|) / |prices| as real
  }

  /** The mean lies between the least and the greatest value. */
  lemma AverageBetweenMinAndMax(prices: seq<Price>)
    requires |prices| > 0
    ensures GetMinPrice(prices).value <= CalculateAverage(prices) <= GetMaxPrice(prices).value
  {
    AverageWithin(prices, GetMinPrice(prices).value, GetMaxPrice(prices).value);
  }

  /** Values that all lie in `[lo, hi]` have a mean in `[lo, hi]`. */
  lemma AverageWithin(prices: seq<Price>, lo: real, hi: real)
    requires |prices| > 0
    requires forall q :: q in prices ==> lo <= q.value <= hi
    ensures lo <= CalculateAverage(prices) <= hi
  {
    var v := Values(prices);
    forall k | 0 <= k < |v| ensures lo <= v[k] <= hi {
      assert prices[k] in prices;
    }
    SumRangeBounds(v, 0, |v|, lo, hi);
    MeanBounds(SumRange(v, 0, |v|), |prices| as real, lo, hi);
  }

  /**
   * `get_date_health` as written, with the day's average as a parameter.
   * The second test joins its two comparisons with `or`, which every number
   * satisfies once the first test has failed.
   */
  function GetDateHealthAsWritten(averageDate: real, globalAverage: real): (r: Models.DayRating)
    ensures r == Models.Bueno <==> averageDate < globalAverage - Variance
    ensures r == Models.Normal <==> averageDate >= globalAverage - Variance
  {
    var lowLine := globalAverage - Variance;
    var highLine := globalAverage + Variance;
    if averageDate < lowLine then Models.Bueno
    else if averageDate >= lowLine || averageDate <= highLine then Models.Normal
    else Models.Malo
  }

  /** As written, "MALO" is never returned: a day far above the average is "NORMAL". */
  lemma DateHealthAsWrittenNeverMalo(averageDate: real, globalAverage: real)
    ensures GetDateHealthAsWritten(averageDate, globalAverage) != Models.Malo
    ensures GetDateHealthAsWritten(globalAverage + 1.0, globalAverage) == Models.Normal
  {
  }

  /**
   * `get_date_health` with the evidently intended `and`: the same three
   * bands as the dashboard's `calculateRating`.
   */
  function GetDateHealth(averageDate: real, globalAverage: real): (r: Models.DayRating)
    ensures r == Models.Bueno <==> averageDate < globalAverage - Variance
    ensures r == Models.Normal <==> PriceUtils.Abs(averageDate - globalAverage) <= Variance
    ensures r == Models.Malo <==> averageDate > globalAverage + Variance
  {
    var lowLine := globalAverage - Variance;
    var highLine := globalAverage + Variance;
    if averageDate < lowLine then Models.Bueno
    else if averageDate >= lowLine && averageDate <= highLine then Models.Normal
    else Models.Malo
  }

  /** The two versions part ways exactly on the days above the upper line. */
  lemma DateHealthAsWrittenDiffers(averageDate: real, globalAverage: real)
    ensures GetDateHealthAsWritten(averageDate, globalAverage) == GetDateHealth(averageDate, globalAverage)
      <==> averageDate <= globalAverage + Variance
  {
  }

  /** The corrected rule is the dashboard's `calculateRating` applied to the day's mean. */
  lemma DateHealthIsCalculateRating(prices: seq<Models.Price>, globalAverage: real)
    requires |prices| > 0
    ensures GetDateHealth(PriceUtils.CalculateAverage(prices), globalAverage)
      == PriceUtils.CalculateRating(prices, globalAverage)
  {
  }

  /**
   * `calculate_day_rating`, with the 30-day recent average as a parameter:
   * "BUENO" when the day's cheapest period beats it by more than `Variance`,
   * "MALO" when it is dearer by more than `Variance`, "NORMAL" in between,
   * boundaries included.
   */
  function CalculateDayRating(recentAverage: real, cheapestPeriodAvg: real): (r: Models.DayRating)
    ensures r == Models.Bueno <==> cheapestPeriodAvg < recentAverage - Variance
    ensures r == Models.Malo <==> cheapestPeriodAvg > recentAverage + Variance
    ensures r == Models.Normal <==> PriceUtils.Abs(cheapestPeriodAvg - recentAverage) <= Variance
  {
    if recentAverage - cheapestPeriodAvg > Variance then Models.Bueno
    else if recentAverage - cheapestPeriodAvg < -Variance then Models.Malo
    else Models.Normal
  }

  /** Both rules classify by the same bands: the day rating is the corrected health of the period's mean. */
  lemma DayRatingIsDateHealth(recentAverage: real, cheapestPeriodAvg: real)
    ensures CalculateDayRating(recentAverage, cheapestPeriodAvg) == GetDateHealth(cheapestPeriodAvg, recentAverage)
  {
  }

  /** A dearer cheapest period never gets a better day rating. */
  lemma DayRatingMonotone(recentAverage: real, a: real, b: real)
    requires a <= b
    ensures Models.Rank(CalculateDayRating(recentAverage, a)) <= Models.Rank(CalculateDayRating(recentAverage, b))
  {
  }
}
