/**
 * The computations of `DashboardController::index` that are more than a query: the chart
 * colours, the split of the per-category rows into named categories and the uncategorised
 * rest, the category chart arrays, the twelve-month cost trend and the `date_range` filter.
 */
module Dashboards {
  import opened Common
  import opened Calendar
  import opened CostRecords

  // ----- generateChartColors -----

  /** The palette, in order: red, blue, yellow, green, purple, orange, grey. */
  const BaseColors: seq<string> := [
    "rgba(255, 99, 132, 0.7)",
    "rgba(54, 162, 235, 0.7)",
    "rgba(255, 206, 86, 0.7)",
    "rgba(75, 192, 192, 0.7)",
    "rgba(153, 102, 255, 0.7)",
    "rgba(255, 159, 64, 0.7)",
    "rgba(201, 203, 207, 0.7)"
  ]

  /** The number of iterations of `for ($i = 0; $i < $count; $i++)`. */
  function ColorCount(n: int): (r: nat)
    ensures n >= 0 ==> r == n
    ensures n < 0 ==> r == 0
  {
    if n > 0 then n else 0
  }

  /** n colours, the palette repeated: colour i is palette entry i mod 7. */
  function ChartColors(n: int): (r: seq<string>)
    ensures |r| == ColorCount(n)
  {
    seq(ColorCount(n), i requires 0 <= i => BaseColors[i % |BaseColors|])
  }

  /** `generateChartColors`: the `for` loop appending palette entries. */
  method GenerateChartColors(count: int) returns (colors: seq<string>)
    ensures colors == ChartColors(count)
  {
    colors := [];
    var i := 0;
    while i < count
      invariant 0 <= i <= ColorCount(count)
      invariant colors == ChartColors(i)
    {
      assert ChartColors(i + 1) == ChartColors(i) + [BaseColors[i % |BaseColors|]];
      colors := colors + [BaseColors[i % |BaseColors|]];
      i := i + 1;
    }
  }

  /** The colours start with the palette in order and repeat it with period 7; fewer colours are a prefix of more. */
  lemma {:induction false} ChartColorsCycle(n: int, m: int)
    requires n <= m
    ensures forall i :: 0 <= i < ColorCount(n) && i < 7 ==> ChartColors(n)[i] == BaseColors[i]
    ensures forall i :: 0 <= i < ColorCount(n) - 7 ==> ChartColors(n)[i + 7] == ChartColors(n)[i]
    ensures ChartColors(n) <= ChartColors(m)
  {
    forall i | 0 <= i < ColorCount(n) - 7
      ensures ChartColors(n)[i + 7] == ChartColors(n)[i]
    {
      assert (i + 7) % 7 == i % 7;
    }
  }

  // ----- the category partition -----

  /** One row of the per-category query: the category's name and id (null for items without one), the sum and the count. */
  datatype CategoryRow = CategoryRow(category: Option<string>, categoryId: Option<int>, total: real, count: nat)

  /** The `['total', 'count', 'id']` stored for a named category. */
  datatype CategoryStats = CategoryStats(total: real, count: nat, id: Option<int>)

  /** A PHP array from category names: its entries in insertion order. */
  type Categories = seq<(string, CategoryStats)>

  ghost predicate DistinctNames(m: Categories) {
    forall i, j :: 0 <= i < j < |m| ==> m[i].0 != m[j].0
  }

  /** The position of a name in the array, `None` when it is not a key. */
  function Position(m: Categories, name: string): (r: Option<nat>)
    ensures r.Some? ==> r.value < |m| && m[r.value].0 == name && forall i :: r.value < i < |m| ==> m[i].0 != name
    ensures r.None? <==> forall i :: 0 <= i < |m| ==> m[i].0 != name
  {
    if m == [] then None
    else if m[|m| - 1].0 == name then Some(|m| - 1)
    else
      var r := Position(m[..|m| - 1], name);
      assert forall i :: 0 <= i < |m| - 1 ==> m[..|m| - 1][i] == m[i];
      r
  }

  /** `$m[$name] = $stats`: an existing key keeps its place and takes the new value; a new key goes last. */
  function Put(m: Categories, name: string, stats: CategoryStats): (r: Categories)
    ensures |r| == (if Position(m, name).Some? then |m| else |m| + 1)
    ensures forall i :: 0 <= i < |m| ==> r[i].0 == m[i].0
    ensures forall i :: 0 <= i < |m| && m[i].0 != name ==> r[i] == m[i]
    ensures Position(m, name).None? ==> r[|m|] == (name, stats)
    ensures DistinctNames(m) ==> DistinctNames(r)
    ensures forall other :: other != name ==> Position(r, other) == Position(m, other)
    ensures Position(r, name).Some? && r[Position(r, name).value] == (name, stats)
  {
    match Position(m, name)
    case None =>
      var r := m + [(name, stats)];
      PositionIsLast(r, name, |m|);
      forall other | other != name
        ensures Position(r, other) == Position(m, other)
      {
        if Position(m, other).Some? {
          PositionIsLast(r, other, Position(m, other).value);
        }
      }
      r
    case Some(p) =>
      var r := m[p := (name, stats)];
      PositionIsLast(r, name, p);
      forall other | other != name
        ensures Position(r, other) == Position(m, other)
      {
        if Position(m, other).Some? {
          PositionIsLast(r, other, Position(m, other).value);
        }
      }
      r
  }

  /** A position holding the name with no later one holding it is the name's position. */
  lemma {:induction false} PositionIsLast(m: Categories, name: string, p: nat)
    requires p < |m| && m[p].0 == name && forall i :: p < i < |m| ==> m[i].0 != name
    ensures Position(m, name) == Some(p)
  {
    if p < |m| - 1 {
      assert forall i :: 0 <= i < |m| - 1 ==> m[..|m| - 1][i] == m[i];
      PositionIsLast(m[..|m| - 1], name, p);
    }
  }

  /** The array and the uncategorised total after the given rows. */
  datatype Split = Split(byCategory: Categories, withoutCategory: real)

  /**
   * The `foreach` over the rows as a function: a row with a truthy name is stored under it,
   * any other row's total replaces the uncategorised total.
   */
  function Partition(rows: seq<CategoryRow>): Split
  {
    if rows == [] then Split([], 0.0)
    else
      var before := Partition(rows[..|rows| - 1]);
      var row := rows[|rows| - 1];
      if TruthyOpt(row.category) then
        Split(Put(before.byCategory, row.category.value, CategoryStats(row.total, row.count, row.categoryId)), before.withoutCategory)
      else Split(before.byCategory, row.total)
  }

  /** The stats a row contributes. */
  function StatsOf(row: CategoryRow): CategoryStats {
    CategoryStats(row.total, row.count, row.categoryId)
  }

  /** The split's array has each name once. */
  lemma {:induction false} PartitionDistinct(rows: seq<CategoryRow>)
    ensures DistinctNames(Partition(rows).byCategory)
  {
    if rows != [] {
      PartitionDistinct(rows[..|rows| - 1]);
    }
  }

  /** A name is a key of the split's array exactly when some row carries it. */
  lemma {:induction false} PartitionKeys(rows: seq<CategoryRow>, name: string)
    ensures Position(Partition(rows).byCategory, name).Some?
        <==> exists i :: 0 <= i < |rows| && TruthyOpt(rows[i].category) && rows[i].category.value == name
  {
    if rows != [] {
      var init := rows[..|rows| - 1];
      assert forall i :: 0 <= i < |init| ==> init[i] == rows[i];
      PartitionKeys(init, name);
      var row := rows[|rows| - 1];
      if TruthyOpt(row.category) && row.category.value == name {
        assert TruthyOpt(rows[|rows| - 1].category) && rows[|rows| - 1].category.value == name;
      }
    }
  }

  /** The value stored under a name is the stats of the last row carrying it. */
  lemma {:induction false} PartitionLastWins(rows: seq<CategoryRow>, name: string, i: int)
    requires 0 <= i < |rows| && TruthyOpt(rows[i].category) && rows[i].category.value == name
    requires forall j :: i < j < |rows| ==> rows[j].category != Some(name)
    ensures Position(Partition(rows).byCategory, name).Some?
    ensures Partition(rows).byCategory[Position(Partition(rows).byCategory, name).value] == (name, StatsOf(rows[i]))
  {
    if i < |rows| - 1 {
      var init := rows[..|rows| - 1];
      assert init[i] == rows[i];
      assert forall j :: i < j < |init| ==> init[j] == rows[j];
      PartitionLastWins(init, name, i);
    }
  }

  /**
   * The uncategorised total is 0 when every row has a truthy name, and otherwise the total of
   * the last row without one.
   */
  lemma {:induction false} PartitionWithout(rows: seq<CategoryRow>)
    ensures (forall i :: 0 <= i < |rows| ==> TruthyOpt(rows[i].category)) ==> Partition(rows).withoutCategory == 0.0
    ensures forall i :: 0 <= i < |rows| && !TruthyOpt(rows[i].category) &&
                        (forall j :: i < j < |rows| ==> TruthyOpt(rows[j].category)) ==>
              Partition(rows).withoutCategory == rows[i].total
  {
    if rows != [] {
      var init := rows[..|rows| - 1];
      assert forall i :: 0 <= i < |init| ==> init[i] == rows[i];
      PartitionWithout(init);
    }
  }

  /**
   * The partition loop, skipped (empty array, 0) when the category module is absent.
   */
  method PartitionCategories(rows: seq<CategoryRow>, categoryModuleAvailable: bool) returns (split: Split)
    ensures categoryModuleAvailable ==> split == Partition(rows)
    ensures !categoryModuleAvailable ==> split == Split([], 0.0)
  {
    var costsByCategory: Categories := [];
    var costsWithoutCategory := 0.0;
    if categoryModuleAvailable {
      var i := 0;
      while i < |rows|
        invariant 0 <= i <= |rows|
        invariant Split(costsByCategory, costsWithoutCategory) == Partition(rows[..i])
      {
        assert rows[..i + 1][..i] == rows[..i];
        var item := rows[i];
        if item.category.Some? && Truthy(item.category.value) {
          costsByCategory := Put(costsByCategory, item.category.value, CategoryStats(item.total, item.count, item.categoryId));
        } else {
          costsWithoutCategory := item.total;
        }
        i := i + 1;
      }
      assert rows[..|rows|] == rows;
    }
    split := Split(costsByCategory, costsWithoutCategory);
  }

  /** The `categoryLabels`, `categoryData` and `categoryColors` of the view. */
  datatype CategoryChart = CategoryChart(labels: seq<string>, data: seq<real>, colors: seq<string>)

  /**
   * `array_keys`, the `total` of each entry, and one colour per entry: three arrays of the
   * same length, entry by entry, the labels distinct.
   */
  function ChartOf(byCategory: Categories): (r: CategoryChart)
    ensures |r.labels| == |r.data| == |r.colors| == |byCategory|
    ensures forall i :: 0 <= i < |byCategory| ==> r.labels[i] == byCategory[i].0 && r.data[i] == byCategory[i].1.total
    ensures r.colors == ChartColors(|byCategory|)
    ensures DistinctNames(byCategory) ==> forall i, j :: 0 <= i < j < |r.labels| ==> r.labels[i] != r.labels[j]
  {
    CategoryChart(seq(|byCategory|, i requires 0 <= i < |byCategory| => byCategory[i].0),
                  seq(|byCategory|, i requires 0 <= i < |byCategory| => byCategory[i].1.total),
                  ChartColors(|byCategory|))
  }

  // ----- the twelve-month trend -----

  /** The first month of the trend: eleven months before the current one. */
  function TrendStart(now: YearMonth): (r: YearMonth)
    ensures MonthSpan(r, now) == 12
  {
    AddMonths(now, -11)
  }

  /** The month the trend starts in as written: `now()->subMonths(11)`, with Carbon's day overflow. */
  function TrendStartAsWritten(now: Date): YearMonth
    requires ValidDate(now)
  {
    CarbonAddMonths(now, -11).ym
  }

  /**
   * As written the trend is one month short when the day of `now()` is past the end of the
   * month eleven months back: on 31 March 2025 `subMonths(11)` reaches "31 April 2024", which
   * is 1 May 2024, so the trend runs from May 2024 to March 2025, eleven months.
   */
  lemma TrendShortOnMonthEnd()
    ensures var now := Date(YearMonth(2025, 3), 31);
            ValidDate(now) && TrendStartAsWritten(now) == YearMonth(2024, 5) &&
            MonthSpan(TrendStartAsWritten(now), now.ym) == 11
  {
    var now := Date(YearMonth(2025, 3), 31);
    assert AddMonths(YearMonth(2025, 3), -11) == YearMonth(2024, 4) by {
      IndexInjective(AddMonths(YearMonth(2025, 3), -11), YearMonth(2024, 4));
    }
    assert AddMonths(YearMonth(2025, 3), -10) == YearMonth(2024, 5) by {
      IndexInjective(AddMonths(YearMonth(2025, 3), -10), YearMonth(2024, 5));
    }
  }

  /** Stepping back without overflow (`subMonthsNoOverflow(11)`) starts the trend where it is meant to. */
  lemma TrendStartWithoutOverflow(now: Date)
    requires ValidDate(now)
    ensures AddMonthsNoOverflow(now, -11).ym == TrendStart(now.ym)
  {
  }

  /**
   * The trend loop: for each of the twelve months ending with the current one, keyed by the
   * month, the sum of the prices of the matching items created in it. Consecutive months,
   * each key once, the current month last.
   */
  method CostTrend(items: seq<CostItem>, period: Option<string>, categoryId: Option<int>, c: Clock)
    returns (trend: seq<(YearMonth, real)>)
    ensures |trend| == 12
    ensures forall i :: 0 <= i < 12 ==> trend[i].0 == AddMonths(Now(c), i - 11)
    ensures forall i :: 0 <= i < 12 ==>
              trend[i].1 == SumPrice(items, c.stamp(trend[i].0), MonthUpper(c, trend[i].0), ActiveFilter(period, categoryId))
    ensures trend[11].0 == Now(c)
    ensures forall i :: 0 <= i < 11 ==> trend[i + 1].0 == AddMonths(trend[i].0, 1)
    ensures forall i, j :: 0 <= i < j < 12 ==> trend[i].0 != trend[j].0
  {
    var f := ActiveFilter(period, categoryId);
    var start := TrendStart(Now(c));
    trend := [];
    var date := start;
    while Index(date) <= Index(Now(c))
      invariant |trend| <= 12 && date == AddMonths(start, |trend|)
      invariant forall i :: 0 <= i < |trend| ==> trend[i].0 == AddMonths(start, i)
      invariant forall i :: 0 <= i < |trend| ==> trend[i].1 == SumPrice(items, c.stamp(trend[i].0), MonthUpper(c, trend[i].0), f)
      decreases Index(Now(c)) - Index(date)
    {
      trend := trend + [(date, SumPrice(items, c.stamp(date), MonthUpper(c, date), f))];
      AddMonthsCompose(start, |trend| - 1, 1);
      date := AddMonths(date, 1);
    }
    forall i | 0 <= i < 12
      ensures trend[i].0 == AddMonths(Now(c), i - 11)
    {
      AddMonthsCompose(Now(c), -11, i);
    }
    AddMonthsCompose(Now(c), 0, 0);
    forall i | 0 <= i < 11
      ensures trend[i + 1].0 == AddMonths(trend[i].0, 1)
    {
      AddMonthsCompose(start, i, 1);
    }
  }

  // ----- the date_range filter -----

  /** The separator of the `date_range` input. */
  const RangeSeparator := " - "

  /**
   * The `date_range` guard: the created_at filter is applied, with these two dates, exactly
   * when the input is non-empty and splits on " - " into two parts; joined back they give the input.
   */
  function DateRange(dateRange: Option<string>): (r: Option<(string, string)>)
    ensures r.Some? <==> TruthyOpt(dateRange) && |Explode(dateRange.value, RangeSeparator)| == 2
    ensures r.Some? ==> r.value.0 + RangeSeparator + r.value.1 == dateRange.value
    ensures r.Some? ==> !Contains(r.value.0, RangeSeparator) && !Contains(r.value.1, RangeSeparator)
  {
    if !TruthyOpt(dateRange) then None
    else
      var parts := Explode(dateRange.value, RangeSeparator);
      ExplodeJoin(dateRange.value, RangeSeparator);
      ExplodePieces(dateRange.value, RangeSeparator);
      if |parts| == 2 then
        assert Implode(parts, RangeSeparator) == parts[0] + RangeSeparator + Implode(parts[1..], RangeSeparator);
        Some((parts[0], parts[1]))
      else None
  }

  /** An input without the separator applies no date filter. */
  lemma DateRangeNeedsSeparator(dateRange: string)
    requires !Contains(dateRange, RangeSeparator)
    ensures DateRange(Some(dateRange)).None?
  {
  }
}
