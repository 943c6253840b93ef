# Cost calculator core, modelled in Dafny

This project models the computing core of the `td-cost-calcultaror` Laravel plugin. The plugin tracks cost items such as licences and servers and allocates them to products. It also forecasts monthly costs. The model covers six pieces of the plugin:

- **Forecast engine** (`ForecastService`):
  - month-by-month history of the cost items;
  - a least-squares trend over that history;
  - projected future months with seasonal and random factors;
  - per-month and overall confidence.
- **Allocation cost** (`CostAllocation::calculateCost`): what one allocation of a cost item to a product costs, by allocation type.
- **Product totals** (`Product`):
  - the total over a product's allocations, behind a cache;
  - the monthly total, with each price converted to a month;
  - the yearly total;
  - one allocation's cost under default parameters.
- **Change log** (`CostItemLog`):
  - the description of what an update changed;
  - the message chosen by the logged action;
  - the formatted old and new values.
- **Locale middleware** (`SetLocale`): picks the locale from the request, the user or the session, in that order.
- **Dashboard** (`DashboardController`):
  - the cyclic chart colours;
  - the split of the per-category rows into named categories and an uncategorised total;
  - the category chart arrays;
  - the twelve-month cost trend;
  - the `date_range` guard.

Modules, one per source file plus shared vocabulary:

- `Common`: Option, PHP truthiness, `implode`, `explode`.
- `Calendar`: year/month arithmetic and Carbon's month steps on full dates.
- `Numerics`: `round` and `intval`.
- `CostRecords`: the cost items, the month query, and the clock.
- `Regression`: the least-squares slope and its sign.
- `Forecast`, `CostAllocations`, `Products`, `CostItemLogs`, `Locales`, `Dashboards`: one per source file.

How the source is represented:

- **Money and statistics** are `real`.
- **The database queries** ("sum and count of the cost items created in a month that match the filters") are functions over a sequence of cost items.
- **The clock** is a `CostRecords.Clock` value with four parts:
  - the `now()` timestamp;
  - the first timestamp of each month;
  - the month a timestamp falls in;
  - Carbon's `addMonths`.
- **Randomness, `sqrt`, translation and JSON encoding** are parameters.
- **Loops and state changes** in the source are methods, each proved equal to a specification function. The properties are lemmas about those functions.
- **The cache and the locale state** are classes whose methods change their fields.

## Model

| member | source | states |
|---|---|---|
| Common.Implode | src/Models/CostItemLog.php:108 | `implode`: no parts give "", one part is itself, and n parts are at least n − 1 separators long |
| Common.ImplodeCons | src/Models/CostItemLog.php:108 | a separator stands between the first part and the join of the rest |
| Common.ImplodeEnds | src/Models/CostItemLog.php:108 | with two or more parts, the first part and a separator open the result; the last part closes it |
| Common.Find | src/Http/Controllers/DashboardController.php:87 | the first occurrence of the separator from a position, no earlier occurrence, and `None` only when it does not occur at all |
| Common.Explode | src/Http/Controllers/DashboardController.php:87 | `explode` yields at least one piece, and exactly the input when the separator does not occur |
| Common.ExplodeJoin | src/Http/Controllers/DashboardController.php:87 | joining the pieces of `explode` with the separator gives the input back |
| Common.ExplodePieces | src/Http/Controllers/DashboardController.php:87 | no piece of `explode` contains the separator |
| Calendar.FromIndex | src/Services/ForecastService.php:53 | the month at a position on the month line has that position |
| Calendar.AddMonths | src/Services/ForecastService.php:53 | moving k months moves the month's position by exactly k |
| Calendar.AddMonthsCompose | src/Services/ForecastService.php:53 | moving 0 months stays put, and moving a then b months is moving a + b |
| Calendar.IndexInjective | src/Services/ForecastService.php:54 | two months at the same position are the same `Y-m` month |
| Calendar.IndexOrderIsCalendarOrder | src/Services/ForecastService.php:53 | `lte` on month starts is the (year, month) order |
| Calendar.NextMonth | src/Services/ForecastService.php:53 | `addMonth` goes to the next month, and from December to January of the next year |
| Calendar.MonthSpan | src/Services/ForecastService.php:47-53 | the number of iterations of a month loop from a start month through an end month, 0 when the start is later |
| Calendar.DaysIn | src/Http/Controllers/DashboardController.php:140 | month lengths from 28 to 31, with 29 in February exactly in Gregorian leap years |
| Calendar.CarbonAddMonths | src/Http/Controllers/DashboardController.php:140 | Carbon's overflowing `subMonths`/`addMonths` keeps the day when the target month has it; otherwise the excess days run into the following month |
| Calendar.CarbonAddMonthsExactUpTo28 | src/Services/ForecastService.php:146 | from a day up to the 28th, Carbon's month step lands in the k-th month |
| Calendar.CarbonLeapDayOverflow | src/Services/ForecastService.php:47 | `subMonths(12)` from 29 February 2024 lands on 1 March 2023, so a history from that start holds 12 months, not 13 |
| Calendar.AddMonthsNoOverflow | src/Http/Controllers/DashboardController.php:140 | clamping the day always lands in the k-th month |
| Numerics.Max | src/Services/ForecastService.php:165 | `max` is an upper bound equal to one of its arguments |
| Numerics.Min | src/Services/ForecastService.php:120 | `min` is a lower bound equal to one of its arguments |
| Numerics.Abs | src/Services/ForecastService.php:120 | `abs` is non-negative and is x or -x |
| Numerics.RoundInt | src/Services/ForecastService.php:211 | `round` is within one half of x; non-negative for non-negative x, non-positive for negative x |
| Numerics.Round2 | src/Services/ForecastService.php:169 | `round(x, 2)` is within 0.005 of x and is non-negative for non-negative x |
| Numerics.IntVal | src/Models/Product.php:203 | `intval` truncates toward zero |
| CostRecords.ActiveFilter | src/Services/ForecastService.php:61-66 | the period filter applies exactly when the period is truthy, and the category filter exactly when it is non-null and non-zero |
| CostRecords.CountItems | src/Services/ForecastService.php:71 | the count never exceeds the number of items |
| CostRecords.SumPriceNonNegative | src/Services/ForecastService.php:70 | with non-negative prices, a month's sum is non-negative |
| CostRecords.CountItemsExtremes | src/Services/ForecastService.php:71 | no item selected gives count 0, and every item selected gives the number of items |
| CostRecords.MonthWindowIsTheMonth | src/Services/ForecastService.php:57-60 | an item is in a month's window exactly when it was created in that month |
| CostRecords.MonthWindowsDisjoint | src/Services/ForecastService.php:53-60 | with timestamps increasing by month, no item falls in two months' windows |
| CostRecords.AsWrittenWindowMissesLastDay | src/Services/ForecastService.php:57-60 | an item created on the last day of a month, after midnight, is outside the as-written window and inside the intended one (see Findings) |
| Regression.MaxOf | src/Services/ForecastService.php:120 | `max($values)` is at least every value and is one of them |
| Regression.SlopeOfNumerators | src/Services/ForecastService.php:108-113 | the coefficient is 0 when n·Σx² − (Σx)² is 0, and (n·Σxy − Σx·Σy)/(n·Σx² − (Σx)²) otherwise |
| Regression.NumeratorPositive | src/Services/ForecastService.php:112 | strictly increasing x and y make n·Σxy − Σx·Σy positive from two points on |
| Regression.NumeratorNegative | src/Services/ForecastService.php:112 | strictly increasing x with strictly decreasing y make it negative |
| Regression.NumeratorZero | src/Services/ForecastService.php:112 | constant y makes it zero |
| Regression.CrossExpand | src/Services/ForecastService.php:98-106 | the pairwise-difference form of the sums equals the accumulated sums form |
| Regression.SlopeSign | src/Services/ForecastService.php:96-116 | over strictly increasing timestamps: increasing totals give a positive slope, decreasing ones a negative slope, constant ones a slope of 0 |
| Forecast.Totals | src/Services/ForecastService.php:84 | `array_column(..., 'total')`, entry by entry |
| Forecast.Stamps | src/Services/ForecastService.php:85 | `array_column(..., 'timestamp')`, entry by entry |
| Forecast.HistoricalCostData | src/Services/ForecastService.php:45-77 | one bucket per month from `now()->subMonths(m)` through the current month, in order; each bucket is its month's sum and count under the filters, with strictly increasing timestamps |
| Forecast.DirectionOf | src/Services/ForecastService.php:116 | `increasing` iff the coefficient is > 0, `decreasing` iff < 0, `stable` iff 0 |
| Forecast.Trend | src/Services/ForecastService.php:82-127 | fewer than two buckets give (stable, 0, 0); otherwise the coefficient is the least-squares slope; the direction follows its sign, and the strength is in [0, 1] |
| Forecast.CalculateTrendFactors | src/Services/ForecastService.php:82-127 | the accumulating loop computes exactly `Trend` |
| Forecast.TrendFollowsTotals | src/Services/ForecastService.php:96-116 | over increasing timestamps, increasing totals report `increasing`, decreasing totals `decreasing`, and constant totals `stable` |
| Forecast.ConfidenceForMonth | src/Services/ForecastService.php:182-186 | max(0.5, 1 − i/20): at least 0.5, at most 1 ahead of now, and 0.5 from ten months on |
| Forecast.ConfidenceNonIncreasing | src/Services/ForecastService.php:182-186 | confidence never rises with the months ahead |
| Forecast.Seasonal | src/Services/ForecastService.php:154-161 | 1.05 exactly for months 10-12, 0.95 exactly for 1-3, 1 exactly for 4-9 |
| Forecast.Recent | src/Services/ForecastService.php:139 | `array_slice(h, -3)`: the last min(3, n) buckets |
| Forecast.MeanOfFewBounds | src/Services/ForecastService.php:140 | the mean of one to three values lies between their bounds |
| Forecast.BaseValueBounds | src/Services/ForecastService.php:139-140 | the base value lies between any bounds on the last three totals |
| Forecast.ProjectedCost | src/Services/ForecastService.php:151-165 | max(0, (base + base·coef·i)·season·rand/100) is never negative, and is the base itself when there is no trend, no season and no variation |
| Forecast.ForecastEntryProperties | src/Services/ForecastService.php:145-171 | each forecast total is non-negative, its confidence is in [0.5, 1], and entry i falls in the i-th month after the last bucket's |
| Forecast.FlatForecast | src/Services/ForecastService.php:151-169 | with no trend, a mid-year month and no variation, the forecast is the rounded base value |
| Forecast.PredictFutureCosts | src/Services/ForecastService.php:132-176 | max(k, 0) entries; entry i is month i+1 ahead with the projected total and that month's confidence; the months strictly increase |
| Forecast.DataPointsFactor | src/Services/ForecastService.php:194 | min(1, n/12), in [0, 1] |
| Forecast.VariationFactor | src/Services/ForecastService.php:205 | at most 1; 0.5 for a non-positive mean; 1 without deviation; non-negative while the deviation is at most twice the mean |
| Forecast.Percent | src/Services/ForecastService.php:211 | `min(100, round(c·100))`: at most 100, non-negative for non-negative c |
| Forecast.ConfidenceScore | src/Services/ForecastService.php:191-212 | the overall confidence level never exceeds 100 (the lower bound for forecast histories is Forecast.ConfidenceNonNegativeForTotals) |
| Forecast.CalculateConfidenceLevel | src/Services/ForecastService.php:191-212 | the variance loop computes exactly the confidence score of the totals |
| Forecast.EmptyHistoryConfidence | src/Services/ForecastService.php:194-211 | an empty history scores 15 |
| Forecast.SumOfConstant | src/Services/ForecastService.php:198 | n equal values sum to n times the value |
| Forecast.NoDeviation | src/Services/ForecastService.php:200-203 | equal values have zero variance |
| Forecast.SteadyHistoryConfidence | src/Services/ForecastService.php:194-211 | twelve or more equal positive totals score 100 |
| Forecast.ConfidenceNonNegative | src/Services/ForecastService.php:205-211 | unless the deviation exceeds twice the mean, the score is non-negative |
| Forecast.SquaredDeviationExpand | src/Services/ForecastService.php:200-203 | the sum of squared deviations about m is Σv² − 2m·Σv + n·m² |
| Forecast.SumSquaresBound | src/Services/ForecastService.php:198-203 | for non-negative values the sum of squares is at most the square of the sum |
| Forecast.DeviationAtMostForSum | src/Services/ForecastService.php:198-203 | non-negative values whose sum is n·m deviate about m by at most n(n − 1)m² in squares |
| Forecast.PopulationVarianceAtMost | src/Services/ForecastService.php:200-204 | the variance under the square root lies in [0, (n − 1)·m²] for non-negative values |
| Forecast.StdDevAtMost | src/Services/ForecastService.php:198-204 | with a positive mean and a sound square root, the deviation is non-negative and its square is at most (n − 1)·mean² |
| Forecast.FactorsNonNegative | src/Services/ForecastService.php:194-208 | for 1 to 13 points with sd² ≤ (n − 1)·mean², the weighted factors are non-negative |
| Forecast.ConfidenceNonNegativeForTotals | src/Services/ForecastService.php:191-212 | up to 13 non-negative totals score in [0, 100] under a sound square root |
| Forecast.GenerateCostForecast | src/Services/ForecastService.php:19-40 | the history, the forecast from its trend and the metadata; 13 history buckets when `subMonths(12)` lands twelve months back, at most 13 and a confidence level in [0, 100] (for non-negative prices and a sound square root) when it lands no earlier, and forecast month i+1 after the current month |
| CostAllocations.ParamOrOne | src/Models/CostAllocation.php:69-73 | `$parameters[key] ?? 1`: the value when present and non-null, 1 otherwise |
| CostAllocations.CostOfPrice | src/Models/CostAllocation.php:62-78 | `fixed` price·value; `per_user` price·value·user_count; `per_resource_unit` price·value·resource_units; any other type the bare price |
| CostAllocations.CalculateCost | src/Models/CostAllocation.php:56-79 | no cost item costs 0; otherwise the switch on the item's price |
| CostAllocations.CostIgnoresParameters | src/Models/CostAllocation.php:65-77 | `fixed` and unscaled types cost the same under any parameters |
| CostAllocations.UnscaledIgnoresValue | src/Models/CostAllocation.php:76-77 | an unscaled type ignores the allocation value |
| CostAllocations.EmptyParametersCostAsFixed | src/Models/CostAllocation.php:65-74 | without parameters, `per_user` and `per_resource_unit` cost what `fixed` costs |
| CostAllocations.NullParameterIsOne | src/Models/CostAllocation.php:69-74 | an explicit null parameter costs the same as an absent one |
| Products.TotalAppend | src/Models/Product.php:89-116 | the total over two runs of allocations is the sum of their totals |
| Products.MissingItemAddsNothing | src/Models/Product.php:91-93 | an allocation without a cost item adds nothing wherever it sits |
| Products.SumAllocationCosts | src/Models/Product.php:84-116 | the loop computes the sum of `calculateCost` over the allocations |
| Products.CalculateTotalCost | src/Models/Product.php:75-122 | a hit returns the stored total and leaves the cache alone; a miss computes the total and stores it under (id, parameters), changing no other entry; a consistent cache stays consistent |
| Products.MonthlyPrice | src/Models/Product.php:142-155 | minute ×43200, hour ×720, day ×30, year ÷12, any other period unchanged |
| Products.Monthly | src/Models/Product.php:134-155 | the allocation with its price per month, a null period counting as `month` |
| Products.CalculateMonthlyTotalCost | src/Models/Product.php:128-176 | the loop computes the total over the monthly-priced allocations |
| Products.MonthlyTotalOfMonthlyItems | src/Models/Product.php:138-172 | when no price needs converting, the monthly total is the plain total |
| Products.CalculateYearlyTotalCost | src/Models/Product.php:182-186 | twelve times the monthly total |
| Products.AllocationParameters | src/Models/Product.php:198-206 | empty parameters become user_count = intval(expected_users ?? 1) and resource_units = 1; others pass through |
| Products.CalculateCostItemAllocation | src/Models/Product.php:195-210 | with parameters, the allocation's own cost; without them, `per_user` scales by intval(expected_users ?? 1) and `per_resource_unit` by 1 |
| Products.DefaultAllocationParameters | src/Models/Product.php:198-209 | without expected users, an empty call costs as if no parameters were needed |
| CostItemLogs.Lookup | src/Models/CostItemLog.php:98-99 | `$array[$key]` is present exactly when the key is, with the value stored under it |
| CostItemLogs.LookupAt | src/Models/CostItemLog.php:98 | with distinct keys, looking up an entry's key finds its value |
| CostItemLogs.ChangesSnoc | src/Models/CostItemLog.php:97-106 | each entry of the new value adds its change when it changed, and nothing otherwise |
| CostItemLogs.ChangesAppend | src/Models/CostItemLog.php:97-108 | the changes follow the key order of the new value |
| CostItemLogs.ChangedIsReported | src/Models/CostItemLog.php:97-106 | every changed entry is reported, with its `??` old value |
| CostItemLogs.ReportedIsChanged | src/Models/CostItemLog.php:97-106 | every reported change is that of a changed entry of the new value |
| CostItemLogs.ChangedFieldsExactly | src/Models/CostItemLog.php:97-98 | a field is reported iff it is a key of the new value unset in, or strictly different from, the old value; keys only in the old value are never reported |
| CostItemLogs.NullFieldReported | src/Models/CostItemLog.php:98-99 | a null field is reported even when unchanged, shown as `not_set` |
| CostItemLogs.UnchangedNotReported | src/Models/CostItemLog.php:97-98 | identical old and new values without nulls report nothing |
| CostItemLogs.ChangesDescription | src/Models/CostItemLog.php:89-109 | '' when either value is falsy; otherwise the rendered changes joined with ", " |
| CostItemLogs.Rendered | src/Models/CostItemLog.php:100-104 | one `field_changed` text per change, in order |
| CostItemLogs.FormatMessage | src/Models/CostItemLog.php:61-84 | `create`, `update`, `delete` get their own message key and any other action `log_modified`; only `update` carries the description |
| CostItemLogs.FormattedValue | src/Models/CostItemLog.php:116-145 | '' for a falsy value, the pretty JSON of an array, the string cast of anything else |
| Locales.AvailableLocales | src/Http/Middleware/SetLocale.php:27 | the configured locales, `en` alone when none are configured |
| Locales.Decide | src/Http/Middleware/SetLocale.php:20-47 | the session is written iff the request names an available locale; an unavailable request locale changes nothing; otherwise a truthy user locale wins unchecked; otherwise the session's available locale |
| Locales.RequestLocaleDecidesAlone | src/Http/Middleware/SetLocale.php:23-33 | with a request locale, neither the user nor the session is consulted |
| Locales.UserLocaleBeatsSession | src/Http/Middleware/SetLocale.php:35-38 | without a request locale, a user's truthy locale wins over the session |
| Locales.SessionLocaleWhenAvailable | src/Http/Middleware/SetLocale.php:40-47 | the session branch applies the session's locale exactly when it is available, and never writes the session |
| Locales.LocaleState.Handle | src/Http/Middleware/SetLocale.php:20-50 | the new app and session locales are those `Decide` gives, and the next handler runs once on the same request under the new locale |
| Dashboards.ColorCount | src/Http/Controllers/DashboardController.php:41 | the loop runs max(n, 0) times |
| Dashboards.ChartColors | src/Http/Controllers/DashboardController.php:26-46 | exactly max(n, 0) colours |
| Dashboards.GenerateChartColors | src/Http/Controllers/DashboardController.php:26-46 | the loop yields `ChartColors(count)` |
| Dashboards.ChartColorsCycle | src/Http/Controllers/DashboardController.php:28-43 | the colours start with the palette in order, repeat with period 7, and fewer colours are a prefix of more |
| Dashboards.Position | src/Http/Controllers/DashboardController.php:127 | the position of a key, `None` exactly when it is not a key |
| Dashboards.Put | src/Http/Controllers/DashboardController.php:127 | `$m[$name] = ...`: an existing key keeps its place and takes the value, a new key goes last, other keys are unaffected, and keys stay distinct |
| Dashboards.PositionIsLast | src/Http/Controllers/DashboardController.php:127 | a key's position is its last occurrence |
| Dashboards.PartitionDistinct | src/Http/Controllers/DashboardController.php:125-135 | each category name appears once |
| Dashboards.PartitionKeys | src/Http/Controllers/DashboardController.php:125-135 | a name is a key iff some row carries it as a truthy name |
| Dashboards.PartitionLastWins | src/Http/Controllers/DashboardController.php:126-131 | a name's entry holds the last such row's total, count and id |
| Dashboards.PartitionWithout | src/Http/Controllers/DashboardController.php:100-134 | the uncategorised total is 0 with no unnamed row, otherwise the last unnamed row's total |
| Dashboards.PartitionCategories | src/Http/Controllers/DashboardController.php:99-136 | the loop computes the partition, and an absent category module gives ([], 0) |
| Dashboards.ChartOf | src/Http/Controllers/DashboardController.php:228-230 | labels, data and colours have the same length, entry by entry, with distinct labels |
| Dashboards.TrendStart | src/Http/Controllers/DashboardController.php:140-143 | the intended trend start leaves exactly 12 months through the current one |
| Dashboards.TrendShortOnMonthEnd | src/Http/Controllers/DashboardController.php:140 | on 31 March 2025 the as-written start is May 2024, an 11-month trend (see Findings) |
| Dashboards.TrendStartWithoutOverflow | src/Http/Controllers/DashboardController.php:140 | `subMonthsNoOverflow(11)` gives the intended start |
| Dashboards.CostTrend | src/Http/Controllers/DashboardController.php:139-159 | twelve consecutive months ending with the current month, each once, each with its month's filtered sum |
| Dashboards.DateRange | src/Http/Controllers/DashboardController.php:86-94 | the date filter applies iff the input is non-empty and splits on " - " into exactly two parts, which join back to the input and don't contain the separator |
| Dashboards.DateRangeNeedsSeparator | src/Http/Controllers/DashboardController.php:86-88 | an input without " - " applies no date filter |

## Left out

- I/O, persistence and Eloquent: queries are functions over a sequence of cost items.
- Query details: `groupBy`, `latest()`, `take(5)`, product statistics and the most-expensive products (src/Http/Controllers/DashboardController.php:161-208) are plain queries and are not modelled.
- The view and its data: the Blade views, the `M Y` and `Y-m` labels (months are `YearMonth` values), translations (a `render` parameter) and JSON encoding (a parameter).
- Floating point: money, the regression and the confidence are over `real`, so overflow and rounding error are not modelled. `sqrt` is a parameter.
- `rand(95, 105)` is a parameter giving one roll per month ahead.
- Forecast.PredictFutureCosts: requires a non-empty history. On an empty one the source fails in `end([])` and divides by `count([])` (src/Services/ForecastService.php:135-140).
- Forecast.GenerateCostForecast: requires the clock's month twelve back to be no later than now, which holds for any Carbon clock. Its 13-bucket length is proved when `subMonths(12)` from now lands in the month twelve back, which fails only on 29 February (Calendar.CarbonLeapDayOverflow); the month of each forecast entry is proved under `ShiftExact` from the first of the current month, where Carbon's month step never overflows. The default of six forecast months (src/Services/ForecastService.php:19) is not modelled: the caller passes the count.
- Forecast.HistoricalCostData: uses the as-written `subMonths` through the clock's abstract `shift`. It states its length as the month span from that start, not as m + 1.
- Forecast.ConfidenceScore: the lower bound 0 is proved only for at most 13 non-negative totals under a sound square root, which covers every forecast history with non-negative prices. For longer inputs or negative totals it is not proved. The source only caps at 100, and the non-negativity of prices comes from request validation (src/Http/Controllers/CostItemController.php:140,205), which is not part of this model.
- Forecast.ConfidenceForMonth: non-increasing, not strictly decreasing; it is 0.5 from ten months ahead.
- The engine does not validate the number of forecast months (any integer; none for k ≤ 0).
- The cache of `Products.ProductCache` is a map keyed by (product id, parameters). Not modelled:
  - the time to live;
  - the md5 keys;
  - the clearing hooks in the models' `boot` methods (src/Models/Product.php:217-236, src/Models/CostAllocation.php:86-120), which delegate to a cache store not part of this model;
  - the order of the parameter keys, which the map ignores while `serialize` keeps it.
- Products.CalculateCostItemAllocation: `expected_users` is a number. Non-numeric meta values and `intval` on strings are not modelled.
- Locales.Decide: `in_array` is loose in PHP; the model uses exact string membership. A null request locale value is treated as no match.
- CostItemLogs.OldEntries: an old value that is a scalar rather than an array has no entries, so every field shows `not_set`. String offsets on such a value are not modelled.
- JSON arrays: a `VArray` has string keys in insertion order. A JSON list's integer keys are modelled as their decimal strings.
- `Carbon::createFromFormat` parsing of the two date strings (src/Http/Controllers/DashboardController.php:89-90) is not modelled. The model decides only whether the filter applies and with which two strings.

## Findings

| source | as written | input that shows it | evidently intended | confidence | as-written member | corrected member |
|---|---|---|---|---|---|---|
| src/Services/ForecastService.php:57-60 | `whereBetween('created_at', [start->toDateString(), end->toDateString()])`: the upper bound is the last day's date, which the database compares as 00:00 of that day | a cost item created at 23:00 on the last day of a month | the month's bucket counts every item created during the month | not executed | CostRecords.AsWrittenWindowMissesLastDay | CostRecords.MonthUpper, CostRecords.MonthWindowIsTheMonth, CostRecords.MonthWindowsDisjoint, Forecast.HistoricalCostData |
| src/Http/Controllers/DashboardController.php:147-150 | the same `toDateString()` bounds for each month of the dashboard trend | a cost item created at 23:00 on the last day of a month | the month's trend value sums every item created during the month | not executed | CostRecords.AsWrittenWindowMissesLastDay | CostRecords.MonthUpper, CostRecords.MonthWindowIsTheMonth, Dashboards.CostTrend |
| src/Http/Controllers/DashboardController.php:140 | `now()->subMonths(11)->startOfMonth()` with Carbon's default overflow: a day that the month eleven back lacks runs into the month after | `now()` on 31 March 2025: eleven months back is "31 April 2024", i.e. 1 May 2024, so the trend covers May 2024 to March 2025 | twelve months ending with the current month (`subMonthsNoOverflow(11)` or `startOfMonth()` first) | not executed | Dashboards.TrendShortOnMonthEnd | Dashboards.TrendStart, Dashboards.TrendStartWithoutOverflow, Dashboards.CostTrend |
