/**
 * The day summary card: whether the shown day is today, the current hour's
 * price, and the cheapest and dearest hours. The clock reading `now` and the
 * Europe/Madrid conversion are not modelled: `now` is a parameter, an
 * instant counted in whole local hours like `dateTime`.
 */
module DailyInfo {
  import opened Wrappers
  import opened Models
  import opened Search
  import opened Windows
  import PriceUtils

  /** The local calendar day of an hour instant. */
  function Day(t: int): int {
    t / 24
  }

  /** `isToday`: an empty day is never today; otherwise its first hour decides. */
  function IsToday(prices: seq<Price>, now: int): (r: bool)
    ensures |prices| == 0 ==> !r
    ensures r <==> |prices| > 0 && Day(prices[0].dateTime) == Day(now)
  {
    if |prices| == 0 then false
    else Day(prices[0].dateTime) == Day(now)
  }

  /**
   * `currentPrice`: `null` unless the day is today; otherwise the first
   * entry for the current hour, or `null` when there is none.
   */
  function CurrentPrice(prices: seq<Price>, now: int): (r: Option<Price>)
    ensures !IsToday(prices, now) ==> r.None?
    ensures r.Some? ==> r.value in prices && r.value.dateTime == now
    ensures IsToday(prices, now) && (exists i :: 0 <= i < |prices| && prices[i].dateTime == now) ==> r.Some?
    ensures r.Some? ==>
      exists i :: 0 <= i < |prices| && prices[i] == r.value && forall j :: 0 <= j < i ==> prices[j].dateTime != now
  {
    if !IsToday(prices, now) then None
    else Find(prices, (p: Price) => p.dateTime == now)
  }

  /** `Math.min(...values)` for a non-empty list. */
  function MinOf(v: seq<real>): (m: real)
    requires |v| > 0
    ensures forall i :: 0 <= i < |v| ==> m <= v[i]
    ensures exists i :: 0 <= i < |v| && v[i] == m
  {
    if |v| == 1 then v[0]
    else
      var m := MinOf(v[..|v| - 1]);
      assert forall i :: 0 <= i < |v| - 1 ==> v[..|v| - 1][i] == v[i];
      if v[|v| - 1] < m then v[|v| - 1] else m
  }

  /** `Math.max(...values)` for a non-empty list. */
  function MaxOf(v: seq<real>): (m: real)
    requires |v| > 0
    ensures forall i :: 0 <= i < |v| ==> m >= v[i]
    ensures exists i :: 0 <= i < |v| && v[i] == m
  {
    if |v| == 1 then v[0]
    else
      var m := MaxOf(v[..|v| - 1]);
      assert forall i :: 0 <= i < |v| - 1 ==> v[..|v| - 1][i] == v[i];
      if v[|v| - 1] > m then v[|v| - 1] else m
  }

  /**
   * `minPrice`: `null` for an empty day; otherwise the first entry whose
   * price equals the least price, which is the first least entry.
   */
  function MinPrice(prices: seq<Price>): (r: Option<Price>)
    ensures r.None? <==> |prices| == 0
    ensures r.Some? ==> r.value == prices[FirstMinIndex(Values(prices))]
  {
    if |prices| == 0 then None
    else
      var v := Values(prices);
      var min := MinOf(v);
      var matches := (p: Price) => p.price == min;
      var i := FirstMinIndex(v);
      assert forall j :: 0 <= j < |prices| ==> v[j] == prices[j].price;
      FindFirst(prices, matches, i);
      Find(prices, matches)
  }

  /** `maxPrice`: `null` for an empty day; otherwise the first greatest entry. */
  function MaxPrice(prices: seq<Price>): (r: Option<Price>)
    ensures r.None? <==> |prices| == 0
    ensures r.Some? ==> r.value == prices[FirstMaxIndex(Values(prices))]
  {
    if |prices| == 0 then None
    else
      var v := Values(prices);
      var max := MaxOf(v);
      var matches := (p: Price) => p.price == max;
      var i := FirstMaxIndex(v);
      assert forall j :: 0 <= j < |prices| ==> v[j] == prices[j].price;
      FindFirst(prices, matches, i);
      Find(prices, matches)
  }

  /** The card's cheapest hour: an entry of the day, no dearer than any, and the first such. */
  lemma MinPriceIsFirstLeast(prices: seq<Price>)
    requires |prices| > 0
    ensures MinPrice(prices).Some? && MinPrice(prices).value in prices
    ensures forall q :: q in prices ==> MinPrice(prices).value.price <= q.price
    ensures exists i ::
      0 <= i < |prices| && prices[i] == MinPrice(prices).value
      && forall j :: 0 <= j < i ==> prices[j].price > MinPrice(prices).value.price
  {
    var v := Values(prices);
    var i := FirstMinIndex(v);
    assert forall j :: 0 <= j < |prices| ==> v[j] == prices[j].price;
    forall q | q in prices ensures prices[i].price <= q.price {
      var j :| 0 <= j < |prices| && prices[j] == q;
    }
  }

  /** The card's dearest hour: an entry of the day, no cheaper than any, and the first such. */
  lemma MaxPriceIsFirstGreatest(prices: seq<Price>)
    requires |prices| > 0
    ensures MaxPrice(prices).Some? && MaxPrice(prices).value in prices
    ensures forall q :: q in prices ==> MaxPrice(prices).value.price >= q.price
    ensures exists i ::
      0 <= i < |prices| && prices[i] == MaxPrice(prices).value
      && forall j :: 0 <= j < i ==> prices[j].price < MaxPrice(prices).value.price
  {
    var v := Values(prices);
    var i := FirstMaxIndex(v);
    assert forall j :: 0 <= j < |prices| ==> v[j] == prices[j].price;
    forall q | q in prices ensures prices[i].price >= q.price {
      var j :| 0 <= j < |prices| && prices[j] == q;
    }
  }

  /**
   * On a day listed in time order, the card's cheapest hour is the
   * one-hour cheapest period of `getCheapestPeriod`.
   */
  lemma MinPriceIsCheapestHour(prices: seq<Price>)
    requires |prices| > 0 && PriceUtils.ChronologicalOrder(prices)
    ensures MinPrice(prices) == Some(PriceUtils.CheapestPeriod(prices, 1)[0])
  {
    PriceUtils.SortByDateOfChronological(prices);
  }

  /** Likewise the card's dearest hour is the one-hour most expensive period. */
  lemma MaxPriceIsDearestHour(prices: seq<Price>)
    requires |prices| > 0 && PriceUtils.ChronologicalOrder(prices)
    ensures MaxPrice(prices) == Some(PriceUtils.MostExpensivePeriod(prices, 1)[0])
  {
    PriceUtils.SortByDateOfChronological(prices);
  }
}
