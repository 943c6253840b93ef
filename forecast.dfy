/**
 * `ForecastService`: the historical month buckets, the least-squares trend over them, the
 * projected future months and the confidence scores, assembled by `generateCostForecast`.
 */
module Forecast {
  import opened Common
  import opened Calendar
  import opened Numerics
  import opened CostRecords
  import opened Regression

  /** One entry of the historical data, keyed by its `Y-m` month. */
  datatype Bucket = Bucket(month: YearMonth, total: real, count: nat, timestamp: int)

  datatype Direction = Increasing | Decreasing | Stable

  datatype TrendFactors = TrendFactors(direction: Direction, strength: real, coefficient: real)

  /** One projected month, keyed by its `Y-m` month. */
  datatype ForecastBucket = ForecastBucket(month: YearMonth, forecastedTotal: real, confidence: real, timestamp: int)

  datatype Metadata = Metadata(confidenceLevel: int, trendDirection: Direction, trendStrength: real, forecastMonths: int)

  datatype ForecastResult = ForecastResult(historical: seq<Bucket>, forecast: seq<ForecastBucket>, metadata: Metadata)

  /** What `rand(95, 105)` can return. */
  type Roll = r: int | 95 <= r <= 105 witness 100

  /** `array_column($historicalData, 'total')`. */
  function Totals(h: seq<Bucket>): (r: seq<real>)
    ensures |r| == |h| && forall i :: 0 <= i < |h| ==> r[i] == h[i].total
  {
    seq(|h|, i requires 0 <= i < |h| => h[i].total)
  }

  /** `array_column($historicalData, 'timestamp')`. */
  function Stamps(h: seq<Bucket>): (r: seq<real>)
    ensures |r| == |h| && forall i :: 0 <= i < |h| ==> r[i] == h[i].timestamp as real
  {
    seq(|h|, i requires 0 <= i < |h| => h[i].timestamp as real)
  }

  // ----- getHistoricalCostData -----

  /** The first month of the history: `now()->subMonths($months)->startOfMonth()`. */
  function HistoryStart(c: Clock, months: int): YearMonth {
    c.monthOf(c.shift(c.nowStamp, -months))
  }

  /** The bucket of one month: the sum and count of the items created in it, and its start timestamp. */
  function MonthBucket(items: seq<CostItem>, f: Filter, c: Clock, ym: YearMonth): Bucket {
    Bucket(ym, SumPrice(items, c.stamp(ym), MonthUpper(c, ym), f),
           CountItems(items, c.stamp(ym), MonthUpper(c, ym), f), c.stamp(ym))
  }

  /**
   * One bucket per month from `months` months ago through the current month, in order;
   * with increasing stamps the timestamps strictly increase.
   */
  method HistoricalCostData(months: int, period: Option<string>, categoryId: Option<int>,
                            items: seq<CostItem>, c: Clock) returns (r: seq<Bucket>)
    ensures |r| == MonthSpan(HistoryStart(c, months), Now(c))
    ensures forall i :: 0 <= i < |r| ==>
              r[i] == MonthBucket(items, ActiveFilter(period, categoryId), c, AddMonths(HistoryStart(c, months), i))
    ensures StampsIncrease(c) ==> StrictlyIncreasing(Stamps(r))
  {
    var start := HistoryStart(c, months);
    var end := Now(c);
    var f := ActiveFilter(period, categoryId);
    r := [];
    var date := start;
    AddMonthsCompose(start, 0, 0);
    while Index(date) <= Index(end)
      invariant date == AddMonths(start, |r|)
      invariant if Index(start) <= Index(end) then Index(date) <= Index(end) + 1 else r == []
      invariant forall i :: 0 <= i < |r| ==> r[i] == MonthBucket(items, f, c, AddMonths(start, i))
      decreases Index(end) - Index(date)
    {
      r := r + [MonthBucket(items, f, c, date)];
      AddMonthsCompose(start, |r| - 1, 1);
      date := AddMonths(date, 1);
    }
    if StampsIncrease(c) {
      forall i, j | 0 <= i < j < |r|
        ensures Stamps(r)[i] < Stamps(r)[j]
      {
        assert Index(AddMonths(start, i)) < Index(AddMonths(start, j));
      }
    }
  }

  // ----- calculateTrendFactors -----

  /** The direction of a coefficient: `increasing` above 0, `decreasing` below, `stable` at 0. */
  function DirectionOf(coefficient: real): (d: Direction)
    ensures d == Increasing <==> coefficient > 0.0
    ensures d == Decreasing <==> coefficient < 0.0
    ensures d == Stable <==> coefficient == 0.0
  {
    if coefficient > 0.0 then Increasing else if coefficient < 0.0 then Decreasing else Stable
  }

  lemma QuotientNonNegative(a: real, d: real)
    requires a >= 0.0 && d > 0.0
    ensures a / d >= 0.0
  {
  }

  /**
   * The trend of a history: stable with strength and coefficient 0 below two points;
   * otherwise the least-squares slope of the totals over the timestamps, its direction by
   * sign, and a strength scaled into [0, 1].
   */
  function Trend(h: seq<Bucket>): (t: TrendFactors)
    ensures |h| < 2 ==> t == TrendFactors(Stable, 0.0, 0.0)
    ensures |h| >= 2 ==> t.coefficient == OlsSlope(Stamps(h), Totals(h))
    ensures t.direction == DirectionOf(t.coefficient)
    ensures 0.0 <= t.strength <= 1.0
  {
    if |h| < 2 then TrendFactors(Stable, 0.0, 0.0)
    else
      var coefficient := OlsSlope(Stamps(h), Totals(h));
      QuotientNonNegative(Abs(coefficient), Max(1.0, MaxOf(Totals(h))));
      TrendFactors(DirectionOf(coefficient), Min(1.0, Abs(coefficient) / Max(1.0, MaxOf(Totals(h)))), coefficient)
  }

  /** The sums at a prefix grow by the next point's products. */
  lemma ProductsPrefixStep(xs: seq<real>, ys: seq<real>, i: nat)
    requires |xs| == |ys| && i < |xs|
    ensures SumProducts(xs[..i + 1], ys[..i + 1]) == SumProducts(xs[..i], ys[..i]) + xs[i] * ys[i]
  {
    assert xs[..i + 1][..i] == xs[..i];
    assert ys[..i + 1][..i] == ys[..i];
  }

  /** The loop of `calculateTrendFactors`: `$sum_xy` and `$sum_xx` accumulated point by point. */
  method CalculateTrendFactors(h: seq<Bucket>) returns (t: TrendFactors)
    ensures t == Trend(h)
  {
    var values := Totals(h);
    var timestamps := Stamps(h);
    if |values| < 2 {
      return TrendFactors(Stable, 0.0, 0.0);
    }
    var n := |values|;
    var sumX := SumOf(timestamps);
    var sumY := SumOf(values);
    var sumXY := 0.0;
    var sumXX := 0.0;
    var i := 0;
    while i < n
      invariant 0 <= i <= n
      invariant sumXY == SumProducts(timestamps[..i], values[..i])
      invariant sumXX == SumProducts(timestamps[..i], timestamps[..i])
    {
      ProductsPrefixStep(timestamps, values, i);
      ProductsPrefixStep(timestamps, timestamps, i);
      sumXY := sumXY + timestamps[i] * values[i];
      sumXX := sumXX + timestamps[i] * timestamps[i];
      i := i + 1;
    }
    assert timestamps[..n] == timestamps && values[..n] == values;
    var coefficient := SlopeFromSums(n as real, sumX, sumY, sumXY, sumXX);
    var direction := if coefficient > 0.0 then Increasing else if coefficient < 0.0 then Decreasing else Stable;
    var strength := Min(1.0, Abs(coefficient) / Max(1.0, MaxOf(values)));
    t := TrendFactors(direction, strength, coefficient);
  }

  /**
   * With timestamps strictly increasing, strictly increasing totals trend up, strictly
   * decreasing totals trend down, and constant totals are stable.
   */
  lemma TrendFollowsTotals(h: seq<Bucket>)
    requires |h| >= 2 && StrictlyIncreasing(Stamps(h))
    ensures StrictlyIncreasing(Totals(h)) ==> Trend(h).direction == Increasing && Trend(h).coefficient > 0.0
    ensures StrictlyDecreasing(Totals(h)) ==> Trend(h).direction == Decreasing && Trend(h).coefficient < 0.0
    ensures Constant(Totals(h)) ==> Trend(h).direction == Stable && Trend(h).coefficient == 0.0
  {
    SlopeSign(Stamps(h), Totals(h));
  }

  // ----- getConfidenceForMonth, predictFutureCosts -----

  /** Confidence `i` months ahead: 1 − i/20, never below 0.5. */
  function ConfidenceForMonth(monthsAhead: int): (r: real)
    ensures r >= 0.5
    ensures monthsAhead >= 0 ==> r <= 1.0
    ensures monthsAhead >= 10 ==> r == 0.5
    ensures monthsAhead <= 10 ==> r == 1.0 - monthsAhead as real / 20.0
  {
    Max(0.5, 1.0 - monthsAhead as real / 20.0)
  }

  /** Confidence never grows with the distance into the future. */
  lemma ConfidenceNonIncreasing(i: int, j: int)
    requires i <= j
    ensures ConfidenceForMonth(j) <= ConfidenceForMonth(i)
  {
  }

  /** The seasonal factor: 5% up in October to December, 5% down in January to March. */
  function Seasonal(month: Month): (r: real)
    ensures month >= 10 <==> r == 1.05
    ensures month <= 3 <==> r == 0.95
    ensures 4 <= month <= 9 <==> r == 1.0
  {
    if month >= 10 then 1.05 else if month <= 3 then 0.95 else 1.0
  }

  /** `array_slice($historicalData, -3)`: the last three buckets, or all of them when fewer. */
  function Recent(h: seq<Bucket>): (r: seq<Bucket>)
    ensures |r| == if |h| < 3 then |h| else 3
    ensures r == h[|h| - |r|..]
  {
    if |h| < 3 then h else h[|h| - 3..]
  }

  /** The mean of the recent totals, the base of every projection. */
  function BaseValue(h: seq<Bucket>): real
    requires |h| > 0
  {
    SumOf(Totals(Recent(h))) / (|Recent(h)| as real)
  }

  /** The mean of one to three values lies within any bounds that hold for each of them. */
  lemma MeanOfFewBounds(s: seq<real>, lo: real, hi: real)
    requires 1 <= |s| <= 3
    ensures (forall k :: 0 <= k < |s| ==> lo <= s[k]) ==> lo <= SumOf(s) / (|s| as real)
    ensures (forall k :: 0 <= k < |s| ==> s[k] <= hi) ==> SumOf(s) / (|s| as real) <= hi
  {
    assert s[..1][..0] == [] && s[..1][0] == s[0];
    assert SumOf(s[..1]) == s[0];
    if |s| == 2 {
      assert SumOf(s) / (|s| as real) == (s[0] + s[1]) / 2.0;
    } else if |s| == 3 {
      assert s[..2][..1] == s[..1] && s[..2][1] == s[1];
      assert SumOf(s[..2]) == s[0] + s[1];
      assert SumOf(s) / (|s| as real) == (s[0] + s[1] + s[2]) / 3.0;
    }
  }

  /** The base value, a mean, lies within any bounds that hold for each of the recent totals. */
  lemma BaseValueBounds(h: seq<Bucket>, lo: real, hi: real)
    requires |h| > 0
    ensures (forall i :: |h| - |Recent(h)| <= i < |h| ==> lo <= h[i].total) ==> lo <= BaseValue(h)
    ensures (forall i :: |h| - |Recent(h)| <= i < |h| ==> h[i].total <= hi) ==> BaseValue(h) <= hi
  {
    assert forall k :: 0 <= k < |Recent(h)| ==> Totals(Recent(h))[k] == h[|h| - |Recent(h)| + k].total;
    MeanOfFewBounds(Totals(Recent(h)), lo, hi);
  }

  /** `max(0, ($baseValue + $trendEffect) * $seasonalFactor * $randomVariation)` for month i ahead. */
  function ProjectedCost(base: real, coefficient: real, i: int, seasonalFactor: real, roll: Roll): (r: real)
    ensures r >= 0.0
    ensures coefficient == 0.0 && seasonalFactor == 1.0 && roll == 100 && base >= 0.0 ==> r == base
  {
    var trendEffect := base * coefficient * i as real;
    Max(0.0, (base + trendEffect) * seasonalFactor * (roll as real / 100.0))
  }

  /** The projection `i` months after the last historical bucket. */
  function ForecastEntry(h: seq<Bucket>, t: TrendFactors, i: int, c: Clock, roll: int -> Roll): ForecastBucket
    requires |h| > 0
  {
    var date := c.shift(h[|h| - 1].timestamp, i);
    var month := c.monthOf(date);
    var cost := ProjectedCost(BaseValue(h), t.coefficient, i, Seasonal(month.month), roll(i));
    ForecastBucket(month, Round2(cost), ConfidenceForMonth(i), date)
  }

  /**
   * Every projection has a non-negative total and a confidence in [0.5, 1]; when moving
   * from the last timestamp is exact, it is keyed by the month `i` months after the last
   * bucket's month.
   */
  lemma ForecastEntryProperties(h: seq<Bucket>, t: TrendFactors, i: int, c: Clock, roll: int -> Roll)
    requires |h| > 0 && i >= 1
    ensures ForecastEntry(h, t, i, c, roll).forecastedTotal >= 0.0
    ensures 0.5 <= ForecastEntry(h, t, i, c, roll).confidence <= 1.0
    ensures ShiftExact(c, h[|h| - 1].timestamp) ==>
              ForecastEntry(h, t, i, c, roll).month == AddMonths(c.monthOf(h[|h| - 1].timestamp), i)
  {
  }

  /**
   * With no trend, a middle-of-the-year month and a roll of 100, the projection is the
   * rounded base value.
   */
  lemma FlatForecast(h: seq<Bucket>, t: TrendFactors, i: int, c: Clock, roll: int -> Roll)
    requires |h| > 0 && t.coefficient == 0.0 && roll(i) == 100
    requires 4 <= c.monthOf(c.shift(h[|h| - 1].timestamp, i)).month <= 9
    requires forall k :: |h| - |Recent(h)| <= k < |h| ==> h[k].total >= 0.0
    ensures ForecastEntry(h, t, i, c, roll).forecastedTotal == Round2(BaseValue(h))
  {
    BaseValueBounds(h, 0.0, 0.0);
    assert Seasonal(c.monthOf(c.shift(h[|h| - 1].timestamp, i)).month) == 1.0;
  }

  /** The loop of `predictFutureCosts`: one projection for each of the months 1 .. `months`. */
  method PredictFutureCosts(h: seq<Bucket>, t: TrendFactors, months: int, c: Clock, roll: int -> Roll)
    returns (r: seq<ForecastBucket>)
    requires |h| > 0
    ensures |r| == if months > 0 then months else 0
    ensures forall i :: 0 <= i < |r| ==> r[i] == ForecastEntry(h, t, i + 1, c, roll)
    ensures ShiftExact(c, h[|h| - 1].timestamp) ==>
              forall i, j :: 0 <= i < j < |r| ==> Index(r[i].month) < Index(r[j].month)
  {
    var last := h[|h| - 1];
    var recent := Recent(h);
    var baseValue := SumOf(Totals(recent)) / (|recent| as real);
    assert baseValue == BaseValue(h);
    r := [];
    var i := 1;
    while i <= months
      invariant 1 <= i <= if months >= 1 then months + 1 else 1
      invariant |r| == i - 1
      invariant forall k :: 0 <= k < |r| ==> r[k] == ForecastEntry(h, t, k + 1, c, roll)
    {
      var forecastDate := c.shift(last.timestamp, i);
      var month := c.monthOf(forecastDate);
      var seasonalFactor := 1.0;
      if month.month >= 10 {
        seasonalFactor := 1.05;
      } else if month.month <= 3 {
        seasonalFactor := 0.95;
      }
      assert seasonalFactor == Seasonal(month.month);
      var forecastedCost := ProjectedCost(baseValue, t.coefficient, i, seasonalFactor, roll(i));
      r := r + [ForecastBucket(month, Round2(forecastedCost), ConfidenceForMonth(i), forecastDate)];
      i := i + 1;
    }
    if ShiftExact(c, last.timestamp) {
      forall i, j | 0 <= i < j < |r|
        ensures Index(r[i].month) < Index(r[j].month)
      {
        ForecastEntryProperties(h, t, i + 1, c, roll);
        ForecastEntryProperties(h, t, j + 1, c, roll);
      }
    }
  }

  // ----- calculateConfidenceLevel -----

  /** `Σ (v − mean)²`, the `$variance` accumulator before it is divided by the count. */
  function SquaredDeviation(values: seq<real>, mean: real): real
  {
    if values == [] then 0.0
    else SquaredDeviation(values[..|values| - 1], mean)
         + (values[|values| - 1] - mean) * (values[|values| - 1] - mean)
  }

  /** The mean of the totals, over at least one. */
  function Mean(values: seq<real>): real {
    SumOf(values) / Max(1.0, |values| as real)
  }

  /** `min(1, count / 12)`: how close the history is to a full year of points. */
  function DataPointsFactor(n: nat): (r: real)
    ensures 0.0 <= r <= 1.0
    ensures n >= 12 ==> r == 1.0
    ensures n < 12 ==> r == n as real / 12.0
  {
    Min(1.0, n as real / 12.0)
  }

  /**
   * How small the standard deviation is against the mean: `min(1, 1 − (sd / mean) / 2)`,
   * and 0.5 when the mean is not positive. It is never above 1, 1 for no deviation, and
   * not negative while the deviation is at most twice the mean.
   */
  function VariationFactor(mean: real, stdDev: real): (r: real)
    ensures r <= 1.0
    ensures mean <= 0.0 ==> r == 0.5
    ensures mean > 0.0 && stdDev == 0.0 ==> r == 1.0
    ensures mean > 0.0 && stdDev <= 2.0 * mean ==> r >= 0.0
  {
    if mean > 0.0 then
      assert stdDev <= 2.0 * mean ==> stdDev / mean <= 2.0;
      Min(1.0, 1.0 - (stdDev / mean) / 2.0)
    else 0.5
  }

  /** `min(100, round($confidence * 100))`. */
  function Percent(confidence: real): (r: int)
    ensures r <= 100
    ensures confidence >= 0.0 ==> r >= 0
    ensures confidence <= 1.0 ==> confidence * 100.0 - 0.5 <= r as real
  {
    if RoundInt(confidence * 100.0) < 100 then RoundInt(confidence * 100.0) else 100
  }

  /** The standard deviation of the totals, `sqrt($variance / max(1, count))`, for a square root `sqrt`. */
  function StdDev(values: seq<real>, sqrt: real -> real): real {
    sqrt(SquaredDeviation(values, Mean(values)) / Max(1.0, |values| as real))
  }

  /**
   * The overall confidence in percent: 70% weight on how close the history is to 12
   * points and 30% on its variation, rounded and capped at 100.
   */
  function ConfidenceScore(values: seq<real>, sqrt: real -> real): (r: int)
    ensures r <= 100
  {
    Percent(DataPointsFactor(|values|) * 0.7 + VariationFactor(Mean(values), StdDev(values, sqrt)) * 0.3)
  }

  /** The `foreach` of `calculateConfidenceLevel`, accumulating the squared deviations. */
  method CalculateConfidenceLevel(h: seq<Bucket>, sqrt: real -> real) returns (level: int)
    ensures level == ConfidenceScore(Totals(h), sqrt)
  {
    var n := |h|;
    var dataPointsFactor := DataPointsFactor(n);
    var values := Totals(h);
    var mean := SumOf(values) / Max(1.0, n as real);
    var variance := 0.0;
    var i := 0;
    while i < |values|
      invariant 0 <= i <= |values|
      invariant variance == SquaredDeviation(values[..i], mean)
    {
      assert values[..i + 1][..i] == values[..i];
      variance := variance + (values[i] - mean) * (values[i] - mean);
      i := i + 1;
    }
    assert values[..|values|] == values;
    var stdDev := sqrt(variance / Max(1.0, n as real));
    var variationFactor := VariationFactor(mean, stdDev);
    var confidence := dataPointsFactor * 0.7 + variationFactor * 0.3;
    level := RoundInt(confidence * 100.0);
    if level > 100 {
      level := 100;
    }
  }

  /** With no history the score is 15: no data points, and the variation factor 0.5. */
  lemma EmptyHistoryConfidence(sqrt: real -> real)
    ensures ConfidenceScore([], sqrt) == 15
  {
  }

  lemma {:induction false} SumOfConstant(s: seq<real>, v: real)
    requires forall i :: 0 <= i < |s| ==> s[i] == v
    ensures SumOf(s) == |s| as real * v
  {
    if s != [] {
      assert forall i :: 0 <= i < |s| - 1 ==> s[..|s| - 1][i] == s[i];
      SumOfConstant(s[..|s| - 1], v);
    }
  }

  lemma {:induction false} NoDeviation(s: seq<real>, v: real)
    requires forall i :: 0 <= i < |s| ==> s[i] == v
    ensures SquaredDeviation(s, v) == 0.0
  {
    if s != [] {
      assert forall i :: 0 <= i < |s| - 1 ==> s[..|s| - 1][i] == s[i];
      NoDeviation(s[..|s| - 1], v);
    }
  }

  /** A full year or more of equal positive totals scores 100. */
  lemma SteadyHistoryConfidence(values: seq<real>, v: real, sqrt: real -> real)
    requires |values| >= 12 && v > 0.0 && sqrt(0.0) == 0.0
    requires forall i :: 0 <= i < |values| ==> values[i] == v
    ensures ConfidenceScore(values, sqrt) == 100
  {
    SumOfConstant(values, v);
    assert Mean(values) == v;
    NoDeviation(values, v);
    assert StdDev(values, sqrt) == 0.0;
  }

  /** The score is non-negative when the standard deviation is at most twice a positive mean. */
  lemma ConfidenceNonNegative(values: seq<real>, sqrt: real -> real)
    requires Mean(values) > 0.0 ==> StdDev(values, sqrt) <= 2.0 * Mean(values)
    ensures ConfidenceScore(values, sqrt) >= 0
  {
  }

  /** A square root that never overshoots: non-negative, and its square at most its argument. */
  ghost predicate SqrtSound(sqrt: real -> real) {
    forall x :: x >= 0.0 ==> sqrt(x) >= 0.0 && sqrt(x) * sqrt(x) <= x
  }

  /** `Σ v²`. */
  function SumSquares(s: seq<real>): real {
    if s == [] then 0.0 else SumSquares(s[..|s| - 1]) + s[|s| - 1] * s[|s| - 1]
  }

  lemma SquareNonNegative(x: real)
    ensures x * x >= 0.0
  {
    if x < 0.0 {
      assert x * x == (-x) * (-x);
    }
  }

  /** One more value keeps the expanded form of the squared deviations. */
  lemma ExpandStep(deviation: real, squares: real, sum: real, n: real, x: real, m: real,
                   deviation1: real, squares1: real, sum1: real, n1: real)
    requires deviation == squares - 2.0 * m * sum + n * m * m
    requires deviation1 == deviation + (x - m) * (x - m) && squares1 == squares + x * x
    requires sum1 == sum + x && n1 == n + 1.0
    ensures deviation1 == squares1 - 2.0 * m * sum1 + n1 * m * m
  {
  }

  lemma {:induction false} SquaredDeviationNonNegative(s: seq<real>, m: real)
    ensures SquaredDeviation(s, m) >= 0.0
  {
    if s != [] {
      SquaredDeviationNonNegative(s[..|s| - 1], m);
      SquareNonNegative(s[|s| - 1] - m);
    }
  }

  /** `Σ (v − m)² = Σ v² − 2·m·Σ v + n·m²`. */
  lemma {:induction false} SquaredDeviationExpand(s: seq<real>, m: real)
    ensures SquaredDeviation(s, m) == SumSquares(s) - 2.0 * m * SumOf(s) + |s| as real * m * m
  {
    if s != [] {
      SquaredDeviationExpand(s[..|s| - 1], m);
      ExpandStep(SquaredDeviation(s[..|s| - 1], m), SumSquares(s[..|s| - 1]), SumOf(s[..|s| - 1]), |s[..|s| - 1]| as real, s[|s| - 1], m,
                 SquaredDeviation(s, m), SumSquares(s), SumOf(s), |s| as real);
    }
  }

  /** Non-negative values have a non-negative sum whose square bounds their sum of squares. */
  lemma {:induction false} SumSquaresBound(s: seq<real>)
    requires forall i :: 0 <= i < |s| ==> s[i] >= 0.0
    ensures 0.0 <= SumOf(s)
    ensures SumSquares(s) <= SumOf(s) * SumOf(s)
  {
    if s != [] {
      assert forall i :: 0 <= i < |s| - 1 ==> s[..|s| - 1][i] == s[i];
      SumSquaresBound(s[..|s| - 1]);
      assert 0.0 <= SumOf(s[..|s| - 1]) * s[|s| - 1];
    }
  }

  /** The population variance of values with sum S = n·m and Σ v² ≤ S² is at most (n − 1)·m². */
  lemma VarianceBound(n: real, sum: real, squares: real, m: real, deviation: real)
    requires sum == n * m && squares <= sum * sum && deviation == squares - 2.0 * m * sum + n * m * m
    ensures deviation <= n * ((n - 1.0) * m * m)
  {
    assert deviation == squares - n * m * m;
    assert squares <= n * n * m * m;
  }

  /** A non-negative number whose square is at most b² is at most b. */
  lemma SquareRootBound(s: real, b: real)
    requires s >= 0.0 && b > 0.0 && s * s <= b * b
    ensures s <= b
  {
    assert (s - b) * (s + b) <= 0.0;
  }

  lemma ScaleSquare(k: real, c: real, m: real)
    requires k <= c
    ensures k * m * m <= c * m * m
  {
    assert (c - k) * (m * m) >= 0.0;
  }

  lemma QuotientAtMost(sd: real, m: real, b: real)
    requires m > 0.0 && sd <= b * m
    ensures sd / m <= b
  {
    assert sd / m * m == sd;
  }

  lemma DivideAtMost(x: real, n: real, c: real)
    requires n > 0.0 && x <= n * c
    ensures x / n <= c
  {
    assert x / n * n == x;
  }

  /** A deviation with sd² ≤ k·m² and k ≤ b² is at most b means. */
  lemma DeviationAtMost(sd: real, m: real, k: real, b: real)
    requires m > 0.0 && sd >= 0.0 && b > 0.0 && sd * sd <= k * m * m && k <= b * b
    ensures sd / m <= b
  {
    ScaleSquare(k, b * b, m);
    assert b * b * m * m == (b * m) * (b * m);
    SquareRootBound(sd, b * m);
    QuotientAtMost(sd, m, b);
  }

  /**
   * From one to thirteen points, a deviation sd with sd² ≤ (n − 1)·mean² keeps the
   * combined confidence non-negative.
   */
  lemma FactorsNonNegative(n: nat, m: real, sd: real)
    requires 1 <= n <= 13 && m > 0.0 && sd >= 0.0 && sd * sd <= (n as real - 1.0) * m * m
    ensures DataPointsFactor(n) * 0.7 + VariationFactor(m, sd) * 0.3 >= 0.0
  {
    if n <= 5 {
      DeviationAtMost(sd, m, n as real - 1.0, 2.0);
    } else {
      DeviationAtMost(sd, m, n as real - 1.0, 4.0);
    }
  }

  /** The mean of at least one value, times their count, is their sum. */
  lemma MeanTimesCount(values: seq<real>)
    requires values != []
    ensures SumOf(values) == |values| as real * Mean(values)
  {
    assert Max(1.0, |values| as real) == |values| as real;
  }

  /** Non-negative values whose sum is n·m deviate from m by at most n·(n − 1)·m² in total. */
  lemma DeviationAtMostForSum(values: seq<real>, m: real)
    requires forall i :: 0 <= i < |values| ==> values[i] >= 0.0
    requires SumOf(values) == |values| as real * m
    ensures SquaredDeviation(values, m) <= |values| as real * ((|values| as real - 1.0) * m * m)
  {
    SumSquaresBound(values);
    SquaredDeviationExpand(values, m);
    VarianceBound(|values| as real, SumOf(values), SumSquares(values), m, SquaredDeviation(values, m));
  }

  /** The population variance about m of non-negative values whose sum is n·m lies in [0, (n − 1)·m²]. */
  lemma PopulationVarianceAtMost(values: seq<real>, m: real)
    requires values != [] && forall i :: 0 <= i < |values| ==> values[i] >= 0.0
    requires SumOf(values) == |values| as real * m
    ensures 0.0 <= SquaredDeviation(values, m) / (|values| as real) <= (|values| as real - 1.0) * m * m
  {
    DeviationAtMostForSum(values, m);
    DivideAtMost(SquaredDeviation(values, m), |values| as real, (|values| as real - 1.0) * m * m);
    SquaredDeviationNonNegative(values, m);
    QuotientNonNegative(SquaredDeviation(values, m), |values| as real);
  }

  /** Under a sound square root, the deviation of non-negative values is at most √(n − 1) means. */
  lemma StdDevAtMost(values: seq<real>, sqrt: real -> real)
    requires SqrtSound(sqrt)
    requires forall i :: 0 <= i < |values| ==> values[i] >= 0.0
    requires Mean(values) > 0.0
    ensures values != []
    ensures StdDev(values, sqrt) >= 0.0
    ensures StdDev(values, sqrt) * StdDev(values, sqrt) <= (|values| as real - 1.0) * Mean(values) * Mean(values)
  {
    assert values != [];
    MeanTimesCount(values);
    PopulationVarianceAtMost(values, Mean(values));
    assert Max(1.0, |values| as real) == |values| as real;
  }

  /**
   * Up to thirteen non-negative totals (the history `generateCostForecast` passes has at
   * most 13), under a sound square root, never score below 0: with non-negative values
   * the population variance is at most (n − 1)·mean².
   */
  lemma ConfidenceNonNegativeForTotals(values: seq<real>, sqrt: real -> real)
    requires |values| <= 13 && SqrtSound(sqrt)
    requires forall i :: 0 <= i < |values| ==> values[i] >= 0.0
    ensures 0 <= ConfidenceScore(values, sqrt) <= 100
  {
    if Mean(values) > 0.0 {
      StdDevAtMost(values, sqrt);
      FactorsNonNegative(|values|, Mean(values), StdDev(values, sqrt));
    }
  }

  // ----- generateCostForecast -----

  /**
   * The forecast for the next `months` months: the history of the last 12 months plus the
   * current one, the projections, and the metadata.
   */
  method GenerateCostForecast(months: int, period: Option<string>, categoryId: Option<int>,
                              items: seq<CostItem>, c: Clock, sqrt: real -> real, roll: int -> Roll)
    returns (res: ForecastResult)
    requires Index(HistoryStart(c, 12)) <= Index(Now(c))
    ensures |res.historical| == MonthSpan(HistoryStart(c, 12), Now(c))
    ensures forall i :: 0 <= i < |res.historical| ==>
              res.historical[i] == MonthBucket(items, ActiveFilter(period, categoryId), c, AddMonths(HistoryStart(c, 12), i))
    ensures HistoryStart(c, 12) == AddMonths(Now(c), -12) ==> |res.historical| == 13
    ensures Index(AddMonths(Now(c), -12)) <= Index(HistoryStart(c, 12)) ==> |res.historical| <= 13
    ensures |res.forecast| == if months > 0 then months else 0
    ensures forall i :: 0 <= i < |res.forecast| ==>
              res.forecast[i] == ForecastEntry(res.historical, Trend(res.historical), i + 1, c, roll)
    ensures MonthOfStamp(c) && ShiftExact(c, c.stamp(Now(c))) ==>
              forall i :: 0 <= i < |res.forecast| ==> res.forecast[i].month == AddMonths(Now(c), i + 1)
    ensures res.metadata == Metadata(ConfidenceScore(Totals(res.historical), sqrt),
                                     Trend(res.historical).direction, Trend(res.historical).strength, months)
    ensures Index(AddMonths(Now(c), -12)) <= Index(HistoryStart(c, 12)) && SqrtSound(sqrt) &&
            (forall i :: 0 <= i < |items| ==> items[i].price >= 0.0) ==>
              0 <= res.metadata.confidenceLevel <= 100
  {
    var historicalData := HistoricalCostData(12, period, categoryId, items, c);
    var trendFactors := CalculateTrendFactors(historicalData);
    var forecastData := PredictFutureCosts(historicalData, trendFactors, months, c, roll);
    var confidence := CalculateConfidenceLevel(historicalData, sqrt);
    res := ForecastResult(historicalData, forecastData,
                          Metadata(confidence, trendFactors.direction, trendFactors.strength, months));
    var last := |historicalData| - 1;
    AddMonthsCompose(HistoryStart(c, 12), 0, 0);
    if Index(AddMonths(Now(c), -12)) <= Index(HistoryStart(c, 12)) && SqrtSound(sqrt) &&
       (forall i :: 0 <= i < |items| ==> items[i].price >= 0.0) {
      forall i | 0 <= i < |historicalData|
        ensures Totals(historicalData)[i] >= 0.0
      {
        var ym := AddMonths(HistoryStart(c, 12), i);
        SumPriceNonNegative(items, c.stamp(ym), MonthUpper(c, ym), ActiveFilter(period, categoryId));
      }
      ConfidenceNonNegativeForTotals(Totals(historicalData), sqrt);
    }
    if MonthOfStamp(c) && ShiftExact(c, c.stamp(Now(c))) {
      assert AddMonths(HistoryStart(c, 12), last) == Now(c) by {
        IndexInjective(AddMonths(HistoryStart(c, 12), last), Now(c));
      }
      forall i | 0 <= i < |res.forecast|
        ensures res.forecast[i].month == AddMonths(Now(c), i + 1)
      {
        ForecastEntryProperties(historicalData, trendFactors, i + 1, c, roll);
      }
    }
  }
}
