# Electricity prices: period analysis, in Dafny

This project models the price-period analysis of the electricity-prices
dashboard and of its Python companion service, and proves what each piece
promises. The inputs are one day's hourly prices:

- the cheapest and the most expensive run of `n` consecutive hours, found by
  a sliding-window scan over the date-sorted series, ties going to the
  earliest window;
- the two-cheapest-periods selector, which looks for a second cheap run
  strictly before or strictly after the first and keeps it only when its
  average is within `0.02` of the first's;
- the mean of a series and the three-way day ratings ("BUENO", "NORMAL",
  "MALO") of the dashboard and of the Python service;
- the first cheapest and first dearest hour, as the Python service and the
  day-summary card each compute them;
- the chart's highlight masks for a period and its flat median line;
- the day-summary card's "is today" and "current price" guards.

Modules, one per source file plus shared pieces:

| file | module | models |
|---|---|---|
| `wrappers.dfy` | `Wrappers` | `Option`, standing for `null` / `undefined` / `None` |
| `models.dfy` | `Models` | the `Price` record and the `DayRating` values |
| `sorting.dfy` | `Sorting` | the stable library sort, as a functional insertion sort, and an in-place array insertion sort proved equal to it |
| `windows.dfy` | `Windows` | window sums and the first least-sum / greatest-sum window start |
| `search.dfy` | `Search` | `Array.prototype.find` |
| `price_utils.dfy` | `PriceUtils` | `src/utils/PriceUtils.ts` |
| `price_service.dfy` | `PriceService` | `services/PriceService.py` |
| `price_chart.dfy` | `PriceChart` | the masks and median line of `src/components/PriceChart.tsx` |
| `daily_info.dfy` | `DailyInfo` | the selections of `src/components/DailyInfo.tsx` |

Representation choices:

- A `dateTime` is an `int` instant, counted in whole local hours. It stands
  for the ISO 8601 local date-time string. Comparing `getTime()` values, or
  comparing the strings with `===`, becomes comparing these integers. This
  assumes each instant has exactly one string spelling: the chart compares the
  strings (src/components/PriceChart.tsx:116), while the utilities compare
  `getTime()` values (src/utils/PriceUtils.ts:45).
- The Python `hour` is the hour of day as an `int`. The source compares
  zero-padded two-digit `'%H'` strings, which order exactly as the numbers
  0..23 do.
- Prices are exact `real`s.
- `Number.POSITIVE_INFINITY`, `Number.NEGATIVE_INFINITY` and `float('inf')`
  as the starting best sum are `None` of an `Option<real>`.

Behaviour of the code worth knowing:

- `getCheapestPeriod` and `getMostExpensivePeriod` sort the caller's array in
  place, rather than a copy. `PriceUtils.GetCheapestPeriod` states this new
  array state. `getTwoCheapestPeriods` filters that sorted array.
- When the before and after candidates have equal averages, the second period
  comes from after the first. The comparison is strict (src/utils/PriceUtils.ts:65).
- `calculateRating` on an empty day returns "MALO". The average is NaN, which
  fails both comparisons (src/utils/PriceUtils.ts:120-126).

## Model

| member | source | states |
|---|---|---|
| Sorting.SortBy | src/utils/PriceUtils.ts:8-11 | the stable sort that stands for both library sorts keeps the length; permutation, key order and stability are proved in SortByPermutation, SortBySorted and SortByStable |
| Sorting.SortInPlace | src/utils/PriceUtils.ts:7-12 | sorting an array in place leaves exactly the stable sort of its old contents (`a[..] == SortBy(old(a[..]), key)`) |
| Sorting.SortByPermutation | src/utils/PriceUtils.ts:7-12 | the sort is a permutation of its input (same multiset) |
| Sorting.SortBySorted | src/utils/PriceUtils.ts:7-12 | the sort's output is ordered by the key |
| Sorting.SortByStable | services/PriceService.py:80 | entries with equal keys keep their original relative order |
| Sorting.SortByOfSorted | src/utils/PriceUtils.ts:7-12 | an already ordered series is left as it is |
| PriceUtils.SortPricesByDate | src/utils/PriceUtils.ts:7-12 | `sortPricesByDate` reorders the caller's array into the date sort of its old contents |
| PriceUtils.SortByDateChronological | src/utils/PriceUtils.ts:7-12 | after the date sort, every earlier position has an earlier or equal `dateTime` |
| PriceUtils.CheapestPeriod | src/utils/PriceUtils.ts:14-33 | `[]` when there are fewer than `n` entries, otherwise exactly `n` entries |
| PriceUtils.ScanCheapest | src/utils/PriceUtils.ts:19-32 | the scan with a strict `<` update returns the window at the first least-sum start of the sorted series |
| PriceUtils.GetCheapestPeriod | src/utils/PriceUtils.ts:14-33 | returns `CheapestPeriod` of the old array; the array is left alone when shorter than `n` and is otherwise sorted by date in place |
| PriceUtils.CheapestPeriodIsFirstCheapestWindow | src/utils/PriceUtils.ts:22-30 | the result is a contiguous width-`n` window of the date-sorted series whose sum is no higher than any window's and strictly lower than every earlier window's |
| PriceUtils.CheapestPeriodFromInput | src/utils/PriceUtils.ts:17-28 | every entry of the cheapest period comes from the input, and the period is in chronological order |
| PriceUtils.CheapestPeriodSingleHour | src/utils/PriceUtils.spec.ts:50-58 | for `n = 1` the result is one input entry whose price is no higher than any entry's |
| PriceUtils.CheapestPeriodWholeSeries | src/utils/PriceUtils.spec.ts:60-62 | for `n` equal to the length, the result is the whole date-sorted series |
| PriceUtils.MostExpensivePeriod | src/utils/PriceUtils.ts:87-106 | `[]` when there are fewer than `n` entries, otherwise exactly `n` entries |
| PriceUtils.ScanMostExpensive | src/utils/PriceUtils.ts:92-105 | the scan with a strict `>` update returns the window at the first greatest-sum start |
| PriceUtils.GetMostExpensivePeriod | src/utils/PriceUtils.ts:87-106 | returns `MostExpensivePeriod` of the old array, with the same in-place sorting as `getCheapestPeriod` |
| PriceUtils.MostExpensivePeriodIsFirstDearestWindow | src/utils/PriceUtils.ts:95-103 | the result is a width-`n` window whose sum is no lower than any window's and strictly higher than every earlier window's |
| PriceUtils.TwoCheapestPeriods | src/utils/PriceUtils.ts:39-41 | `([], [])` when there are fewer than `n` entries; otherwise the first component is `getCheapestPeriod(prices, n)` |
| PriceUtils.BeforeOfSorted | src/utils/PriceUtils.ts:43-47 | on a date-sorted series, the "earlier than" filter keeps exactly the prefix of entries before the instant |
| PriceUtils.AfterOfSorted | src/utils/PriceUtils.ts:49-53 | on a date-sorted series, the "later than" filter keeps exactly the suffix of entries after the instant |
| PriceUtils.Before | src/utils/PriceUtils.ts:43-47 | the "earlier than" filter keeps only entries strictly before the instant and is no longer than its input |
| PriceUtils.After | src/utils/PriceUtils.ts:49-53 | the "later than" filter keeps only entries strictly after the instant and is no longer than its input |
| PriceUtils.ChooseSecond | src/utils/PriceUtils.ts:58-73 | the choice is one of the two candidates; when both have `n` entries it has the lower average, and after wins a tie; when only one has `n` entries it is that one |
| PriceUtils.SecondCandidate | src/utils/PriceUtils.ts:43-73 | the second-period candidate is empty or has exactly `n` entries |
| PriceUtils.ChooseSecondWindow | src/utils/PriceUtils.ts:55-73 | the choice is empty exactly when neither side has `n` entries; otherwise it is a least-sum window of the two sides together, strictly cheaper than every earlier window of its own side, and a pick from before is strictly cheaper than every window after |
| PriceUtils.SecondCandidateWindow | src/utils/PriceUtils.ts:43-73 | the second-period candidate is empty exactly when no width-`n` window lies wholly outside the first period; otherwise it is such a window with the least sum, strictly cheaper than every earlier outside window on its own side; on a tie between the sides it comes from after the first period |
| PriceUtils.TwoCheapestSecondOutside | src/utils/PriceUtils.ts:43-84 | a kept second period is a window of the sorted series outside the first period, with a sum no higher than any other outside window's and strictly lower than every earlier outside window's on its own side; it lies before the first period only if it is strictly cheaper than every window after it |
| PriceUtils.TwoCheapestDisjoint | src/utils/PriceUtils.ts:43-53 | every entry of the second period comes from the input and lies strictly before the first period's first hour or strictly after its last hour |
| PriceUtils.TwoCheapestGate | src/utils/PriceUtils.ts:75-82 | a second period is kept exactly when some outside window averages at most `0.02` above the first period; when kept, its average lies between the first's and the first's plus `0.02` |
| PriceUtils.AverageOrder | src/utils/PriceUtils.ts:60-67 | for equal-length periods, comparing averages is the same as comparing sums |
| PriceUtils.AverageBounds | src/utils/PriceUtils.ts:108-113 | the average lies between any lower and upper bound of the prices |
| PriceUtils.CalculateAverage | src/utils/PriceUtils.ts:108-113 | a single hour averages to its own price (sum over count is its definition; the bounds are in AverageBounds) |
| PriceUtils.CalculateRating | src/utils/PriceUtils.ts:115-127 | "BUENO" exactly when the average is below `median - 0.02`; "NORMAL" exactly when it is within `0.02` of the median; "MALO" exactly when it is above `median + 0.02`, and also for an empty day |
| PriceUtils.RatingMonotone | src/utils/PriceUtils.ts:115-127 | a day with a higher or equal average never gets a better rating against the same median |
| Windows.FirstMinStart | src/utils/PriceUtils.ts:22-30 | the start kept by the strict-`<` scan is optimal over all starts and strictly better than every earlier start |
| Windows.FirstMaxStart | src/utils/PriceUtils.ts:95-103 | the start kept by the strict-`>` scan is optimal over all starts and strictly better than every earlier start |
| Windows.FirstMinStartUnique | src/utils/PriceUtils.ts:26-29 | there is exactly one earliest least-sum start |
| Windows.FirstMinIndex | services/PriceService.py:70-71 | the first position holding a least value: no entry is lower, and every earlier entry is strictly higher |
| Windows.FirstMaxIndex | services/PriceService.py:74-75 | the first position holding a greatest value: no entry is higher, and every earlier entry is strictly lower |
| Search.Find | src/components/DailyInfo.tsx:41 | `None` exactly when no element passes the test; otherwise the first element that does |
| Search.FindFirst | src/components/DailyInfo.tsx:41 | when an element passes the test and none before it does, `find` returns that element |
| PriceService.CheapestPeriod | services/PriceService.py:78-90 | `None` exactly when the list is shorter than `n`; otherwise a width-`n` slice of the hour-sorted copy with the least sum, strictly cheaper than every earlier slice |
| PriceService.GetCheapestPeriod | services/PriceService.py:78-90 | the scan loop, starting from `float('inf')` with a strict `<` update, returns `CheapestPeriod` |
| PriceService.CheapestPeriodFromInput | services/PriceService.py:80-88 | every entry of the returned slice comes from the caller's list |
| PriceService.SortByHour | services/PriceService.py:80 | the hour-sorted copy is a permutation of the list; order and stability are proved in SortByHourStableSorted |
| PriceService.SortByHourStableSorted | services/PriceService.py:80 | the sorted copy is ordered by hour, and entries with equal hours keep their order |
| PriceService.GetMinPrice | services/PriceService.py:70-71 | an entry of the list with a value no higher than any entry's, and every earlier entry is strictly dearer |
| PriceService.GetMaxPrice | services/PriceService.py:74-75 | an entry of the list with a value no lower than any entry's, and every earlier entry is strictly cheaper |
| PriceService.CalculateAverage | services/PriceService.py:108-109 | the mean times the count equals the sum of the values, and a single entry averages to its own value (the bounds are in AverageBetweenMinAndMax) |
| PriceService.AverageBetweenMinAndMax | services/PriceService.py:108-109 | `calculate_average` lies between `get_min_price` and `get_max_price` |
| PriceService.GetDateHealthAsWritten | services/PriceService.py:116-126 | as written: 'BUENO' exactly below `globalAverage - 0.02`, 'NORMAL' exactly at or above it |
| PriceService.DateHealthAsWrittenNeverMalo | services/PriceService.py:116-126 | as written, `get_date_health` never returns 'MALO'; a day `1.0` above the global average is 'NORMAL' |
| PriceService.GetDateHealth | services/PriceService.py:116-126 | with `and` in the second test: 'BUENO' exactly below `globalAverage - 0.02`, 'NORMAL' exactly within `0.02`, 'MALO' exactly above `globalAverage + 0.02` |
| PriceService.DateHealthAsWrittenDiffers | services/PriceService.py:123 | the as-written and corrected rules agree exactly on days at or below the upper line |
| PriceService.DateHealthIsCalculateRating | services/PriceService.py:116-126 | the corrected rule applied to a day's mean is the dashboard's `calculateRating` |
| PriceService.CalculateDayRating | services/PriceService.py:129-137 | 'BUENO' exactly when the period average is more than `0.02` below the recent average; 'MALO' exactly when it is more than `0.02` above; 'NORMAL' otherwise, boundaries included |
| PriceService.DayRatingIsDateHealth | services/PriceService.py:129-137 | `calculate_day_rating(r, c)` is the corrected `get_date_health(c, r)` |
| PriceService.DayRatingMonotone | services/PriceService.py:132-137 | a dearer cheapest period never gets a better day rating |
| PriceChart.PeriodMask | src/components/PriceChart.tsx:110-136 | the mask has one entry per hour; all `null` when the period is hidden; otherwise an hour shows a value exactly when the period has an entry at the same instant, and that value is the hour's own price |
| PriceChart.MaskDrawsPeriod | src/components/PriceChart.tsx:113-121 | with pairwise distinct instants and a period taken from the day, the mask draws exactly as many points as the period has entries |
| PriceChart.AverageDataset | src/components/PriceChart.tsx:156-159 | one entry per hour, every entry equal to the median |
| DailyInfo.IsToday | src/components/DailyInfo.tsx:20-24 | false for an empty day; otherwise true exactly when the first hour falls on the same calendar day as `now` |
| DailyInfo.CurrentPrice | src/components/DailyInfo.tsx:26-36 | `null` whenever the day is not today; otherwise the first entry of the day at the current hour, present whenever the day has one |
| DailyInfo.MinOf | src/components/DailyInfo.tsx:40 | `Math.min` of the prices is a value of the list no higher than any entry |
| DailyInfo.MaxOf | src/components/DailyInfo.tsx:46 | `Math.max` of the prices is a value of the list no lower than any entry |
| DailyInfo.MinPrice | src/components/DailyInfo.tsx:38-42 | `null` exactly for an empty day; otherwise the entry that the first-least selection picks |
| DailyInfo.MaxPrice | src/components/DailyInfo.tsx:44-48 | `null` exactly for an empty day; otherwise the entry that the first-greatest selection picks |
| DailyInfo.MinPriceIsFirstLeast | src/components/DailyInfo.tsx:38-42 | the card's cheapest hour is an entry of the day, no dearer than any, and the first such |
| DailyInfo.MaxPriceIsFirstGreatest | src/components/DailyInfo.tsx:44-48 | the card's dearest hour is an entry of the day, no cheaper than any, and the first such |
| DailyInfo.MinPriceIsCheapestHour | src/components/DailyInfo.tsx:38-42 | on a day listed in time order, the card's cheapest hour is `getCheapestPeriod(prices, 1)[0]` |
| DailyInfo.MaxPriceIsDearestHour | src/components/DailyInfo.tsx:44-48 | on a day listed in time order, the card's dearest hour is `getMostExpensivePeriod(prices, 1)[0]` |

## Left out

- Network I/O is not modelled. This covers the dashboard's axios service, `get_prices`, `get_today`, `get_tomorrow`, `get_date_days_ago` and `get_cheap_period_recent_average`. Averages that these would fetch are parameters instead.
- The wall clock and the Europe/Madrid conversion are not modelled. `now` is a parameter, and a calendar day is `instant / 24` of a local hour instant. `get_current_price`, `get_price_hour` and the chart's `currentPriceDataset` are left out for the same reason.
- Timestamp parsing and formatting are not modelled: `new Date`, `fromISO`, `strftime`, `formatEuro` and `format_euro`. The model works on integer instants and hours.
- Floating point is not modelled. Prices are exact reals, so rounding and NaN do not arise.
- PriceUtils.CalculateAverage: defined only for non-empty series. The empty case, NaN in the source, is handled where the source meets it: in `CalculateRating` ("MALO") and in the gate of `TwoCheapestPeriods`, which keeps an empty second period.
- PriceUtils.TwoCheapestPeriods: requires `n >= 1`. With `n = 0` and a non-empty list, the filter callback reads `.dateTime` of `firstPeriod[0]`, which is undefined, and throws; the width's domain is `n >= 1`. With an empty list `getTwoCheapestPeriods([], 0)` returns `[[], []]`, which the model does not cover.
- PriceUtils.TwoCheapestPeriods: the pure function does not model that `getTwoCheapestPeriods` leaves the caller's array sorted by date through its first `getCheapestPeriod` call (src/utils/PriceUtils.ts:41). `PriceUtils.GetCheapestPeriod` models that mutation.
- PriceService.GetMinPrice: requires a non-empty list, because `min` raises `ValueError` on an empty one. The same holds for PriceService.GetMaxPrice.
- PriceService.CalculateAverage: requires a non-empty list, because the division raises `ZeroDivisionError` on an empty one.
- PriceService.GetCheapestPeriod: the window width is a `nat`. A negative `n` in Python slices backwards, and that is not modelled.
- The expiry filtering and 24/25-slot padding of `filterAndPadPrices` are not modelled. No shown source defines that function.
- PriceChart.PeriodMask: the period is a parameter. The chart gets it from a service function that no shown source defines.
- React state, memoisation, chart configuration, theming and translations are not modelled.

## Findings

| source | as written | input that shows it | evidently intended | confidence | as-written member | corrected member |
|---|---|---|---|---|---|---|
| services/PriceService.py:123 | the "NORMAL" test joins `average_date>=lowLine` and `average_date<=highLine` with `or`; every average that reaches it is at or above the low line, so it always passes and the "MALO" branch is dead | `average_date = globalAverage + 1.0` gives 'NORMAL' | `and`: 'NORMAL' only within `0.02` of the global average, 'MALO' above it, as `calculateRating` in src/utils/PriceUtils.ts:115-127 does | high; not executed | PriceService.GetDateHealthAsWritten, PriceService.DateHealthAsWrittenNeverMalo | PriceService.GetDateHealth |
