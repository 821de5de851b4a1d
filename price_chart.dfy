/**
 * The datasets the daily price chart derives from a day's prices: the
 * highlight masks for the cheapest and the most expensive period, and the
 * flat median line. The chart fetches each period from a service that is not
 * part of this model, so the period is a parameter. `None` stands for a
 * `null` point, which the chart leaves undrawn.
 */
module PriceChart {
  import opened Wrappers
  import opened Models
  import opened Search

  /** Some entry of `period` has the instant `t`. */
  ghost predicate InPeriod(period: seq<Price>, t: int) {
    exists q :: q in period && q.dateTime == t
  }

  /**
   * `cheapPeriod` / `expensivePeriod`: all `null` when the period is hidden;
   * otherwise each hour shows its own price exactly when the period has an
   * entry at the same instant.
   */
  function PeriodMask(prices: seq<Price>, show: bool, period: seq<Price>): (mask: seq<Option<real>>)
    ensures |mask| == |prices|
    ensures !show ==> forall i :: 0 <= i < |mask| ==> mask[i].None?
    ensures show ==> forall i :: 0 <= i < |mask| ==>
      (mask[i].Some? <==> InPeriod(period, prices[i].dateTime))
    ensures forall i :: 0 <= i < |mask| && mask[i].Some? ==> mask[i].value == prices[i].price
  {
    if !show then seq(|prices|, i => None)
    else
      seq(|prices|, i requires 0 <= i < |prices| =>
        var t := prices[i].dateTime;
        if Find(period, (q: Price) => q.dateTime == t).Some? then Some(prices[i].price) else None)
  }

  /** The number of points the mask draws. */
  function Drawn(mask: seq<Option<real>>): nat {
    if |mask| == 0 then 0
    else Drawn(mask[..|mask| - 1]) + (if mask[|mask| - 1].Some? then 1 else 0)
  }

  /** The instants of a series. */
  ghost function Times(s: seq<Price>): set<int> {
    set q | q in s :: q.dateTime
  }

  /** Instants pairwise distinct. */
  ghost predicate DistinctTimes(s: seq<Price>) {
    forall i, j :: 0 <= i < j < |s| ==> s[i].dateTime != s[j].dateTime
  }

  /**
   * When the day's instants are distinct and the period's entries are
   * distinct hours of the day, the highlight draws exactly one point per
   * period entry.
   */
  lemma MaskDrawsPeriod(prices: seq<Price>, period: seq<Price>)
    requires DistinctTimes(prices) && DistinctTimes(period)
    requires forall q :: q in period ==> q in prices
    ensures Drawn(PeriodMask(prices, true, period)) == |period|
  {
    var mask := PeriodMask(prices, true, period);
    forall i | 0 <= i < |mask| ensures mask[i].Some? <==> prices[i].dateTime in Times(period) {
      if prices[i].dateTime in Times(period) {
        var q :| q in period && q.dateTime == prices[i].dateTime;
        assert InPeriod(period, prices[i].dateTime);
      }
    }
    MaskCount(prices, mask, Times(period), |prices|);
    assert mask[..|prices|] == mask;
    assert prices[..|prices|] == prices;
    assert Times(period) * Times(prices) == Times(period) by {
      forall t | t in Times(period) ensures t in Times(prices) {
        var q :| q in period && q.dateTime == t;
      }
    }
    DistinctCard(period);
  }

  /** The instants of the first `k + 1` entries: those of the first `k`, and one more. */
  lemma TimesSnoc(s: seq<Price>, k: nat)
    requires k < |s|
    ensures Times(s[..k + 1]) == Times(s[..k]) + {s[k].dateTime}
  {
    assert s[..k + 1] == s[..k] + [s[k]];
  }

  /** A series with pairwise distinct instants has as many instants as entries. */
  lemma {:induction false} DistinctCard(s: seq<Price>)
    requires DistinctTimes(s)
    ensures |Times(s)| == |s|
  {
    if |s| > 0 {
      var k := |s| - 1;
      assert DistinctTimes(s[..k]);
      DistinctCard(s[..k]);
      TimesSnoc(s, k);
      assert s[..k + 1] == s;
      forall q | q in s[..k] ensures q.dateTime != s[k].dateTime {
        var j :| 0 <= j < k && s[..k][j] == q;
      }
    }
  }

  /**
   * Over the first `k` hours, a mask that draws exactly the hours whose
   * instant is in `times` draws one point per instant of `times` among them.
   */
  lemma {:induction false} MaskCount(prices: seq<Price>, mask: seq<Option<real>>, times: set<int>, k: nat)
    requires k <= |prices| == |mask| && DistinctTimes(prices)
    requires forall i :: 0 <= i < |mask| ==> (mask[i].Some? <==> prices[i].dateTime in times)
    ensures Drawn(mask[..k]) == |times * Times(prices[..k])|
  {
    if k > 0 {
      MaskCount(prices, mask, times, k - 1);
      DrawnSnoc(mask, k - 1);
      CountSnoc(prices, times, k - 1);
      assert mask[k - 1].Some? <==> prices[k - 1].dateTime in times;
    } else {
      assert Times(prices[..0]) == {};
    }
  }

  /** The points drawn over the first `k + 1` hours: those over the first `k`, and hour `k`'s. */
  lemma DrawnSnoc(mask: seq<Option<real>>, k: nat)
    requires k < |mask|
    ensures Drawn(mask[..k + 1]) == Drawn(mask[..k]) + (if mask[k].Some? then 1 else 0)
  {
    assert mask[..k + 1][..k] == mask[..k];
  }

  /** With distinct instants, hour `k` adds one instant of `times` exactly when its own instant is in `times`. */
  lemma CountSnoc(prices: seq<Price>, times: set<int>, k: nat)
    requires k < |prices| && DistinctTimes(prices)
    ensures |times * Times(prices[..k + 1])|
      == |times * Times(prices[..k])| + (if prices[k].dateTime in times then 1 else 0)
  {
    FreshTime(prices, k);
    TimesSnoc(prices, k);
    CountStep(times, Times(prices[..k]), prices[k].dateTime);
  }

  /** With distinct instants, hour `k`'s instant is not among those of the earlier hours. */
  lemma FreshTime(s: seq<Price>, k: nat)
    requires k < |s| && DistinctTimes(s)
    ensures s[k].dateTime !in Times(s[..k])
  {
    forall q | q in s[..k] ensures q.dateTime != s[k].dateTime {
      var j :| 0 <= j < k && s[..k][j] == q;
    }
  }

  /** Adding a new instant `t` to `seen` adds one to the instants of `times` among them exactly when `t` is in `times`. */
  lemma CountStep(times: set<int>, seen: set<int>, t: int)
    requires t !in seen
    ensures |times * (seen + {t})| == |times * seen| + (if t in times then 1 else 0)
  {
    if t in times {
      assert times * (seen + {t}) == times * seen + {t};
    } else {
      assert times * (seen + {t}) == times * seen;
    }
  }

  /** `averageDataset`: the median repeated once per hour. */
  function AverageDataset(prices: seq<Price>, median: real): (r: seq<real>)
    ensures |r| == |prices|
    ensures forall i :: 0 <= i < |r| ==> r[i] == median
  {
    seq(|prices|, i => median)
  }
}
