/**
 * The data the forecast reads but does not own: the cost items with their creation times,
 * the month-by-month `SUM(price)` / `COUNT(*)` query over them, and the clock (`now()`,
 * Carbon timestamps and Carbon's month arithmetic).
 */
module CostRecords {
  import opened Common
  import opened Calendar

  /** The columns of a cost item the month query reads. */
  datatype CostItem = CostItem(createdAt: int, price: real, period: Option<string>, categoryId: Option<int>)

  /** The filters a month query applies: an exact period and an exact category id. */
  datatype Filter = Filter(period: Option<string>, categoryId: Option<int>)

  /**
   * `->when($period, ...)->when($categoryId, ...)`: each filter is applied only when the
   * value the caller gave is truthy (a null, "", "0" period or a null, 0 category is ignored).
   */
  function ActiveFilter(period: Option<string>, categoryId: Option<int>): (f: Filter)
    ensures f.period.Some? <==> TruthyOpt(period)
    ensures f.period.Some? ==> f.period == period
    ensures f.categoryId.Some? <==> (categoryId.Some? && categoryId.value != 0)
    ensures f.categoryId.Some? ==> f.categoryId == categoryId
  {
    Filter(if TruthyOpt(period) then period else None,
           if categoryId.Some? && categoryId.value != 0 then categoryId else None)
  }

  /** `where('period', ..)` and `where('category_id', ..)` for the filters that are set. */
  predicate Passes(item: CostItem, f: Filter) {
    (f.period.None? || item.period == f.period) && (f.categoryId.None? || item.categoryId == f.categoryId)
  }

  /** `whereBetween('created_at', [lo, hi])`: both bounds inclusive. */
  predicate Between(item: CostItem, lo: int, hi: int) {
    lo <= item.createdAt <= hi
  }

  predicate Selected(item: CostItem, lo: int, hi: int, f: Filter) {
    Between(item, lo, hi) && Passes(item, f)
  }

  /** `->sum('price')` of the selected items (0 when there are none). */
  function SumPrice(items: seq<CostItem>, lo: int, hi: int, f: Filter): real
  {
    if items == [] then 0.0
    else SumPrice(items[..|items| - 1], lo, hi, f)
         + (if Selected(items[|items| - 1], lo, hi, f) then items[|items| - 1].price else 0.0)
  }

  /** `->count()` of the selected items. */
  function CountItems(items: seq<CostItem>, lo: int, hi: int, f: Filter): (r: nat)
    ensures r <= |items|
  {
    if items == [] then 0
    else CountItems(items[..|items| - 1], lo, hi, f) + (if Selected(items[|items| - 1], lo, hi, f) then 1 else 0)
  }

  /** A month sum of items with non-negative prices is non-negative. */
  lemma {:induction false} SumPriceNonNegative(items: seq<CostItem>, lo: int, hi: int, f: Filter)
    requires forall i :: 0 <= i < |items| ==> items[i].price >= 0.0
    ensures SumPrice(items, lo, hi, f) >= 0.0
  {
    if items != [] {
      assert forall i :: 0 <= i < |items| - 1 ==> items[..|items| - 1][i] == items[i];
      SumPriceNonNegative(items[..|items| - 1], lo, hi, f);
    }
  }

  /** The count is the number of items the query selects: none selected gives 0, all selected gives |items|. */
  lemma {:induction false} CountItemsExtremes(items: seq<CostItem>, lo: int, hi: int, f: Filter)
    ensures (forall i :: 0 <= i < |items| ==> !Selected(items[i], lo, hi, f)) ==> CountItems(items, lo, hi, f) == 0
    ensures (forall i :: 0 <= i < |items| ==> Selected(items[i], lo, hi, f)) ==> CountItems(items, lo, hi, f) == |items|
  {
    if items != [] {
      assert forall i :: 0 <= i < |items| - 1 ==> items[..|items| - 1][i] == items[i];
      CountItemsExtremes(items[..|items| - 1], lo, hi, f);
    }
  }

  /**
   * The clock: the Unix timestamp of `now()`, the timestamp of the first moment of a month
   * (a start-of-month Carbon date's `->timestamp`), the month a timestamp falls in
   * (`Carbon::createFromTimestamp($t)` read to the month), and Carbon's `addMonths(k)` on a
   * timestamp (day-of-month overflow included; a negative k is `subMonths(-k)`).
   */
  datatype Clock = Clock(nowStamp: int, stamp: YearMonth -> int, monthOf: int -> YearMonth, shift: (int, int) -> int)

  /** The current month, `now()` read to the month. */
  function Now(c: Clock): YearMonth {
    c.monthOf(c.nowStamp)
  }

  /** Reading the month back from a month's own start timestamp gives that month. */
  ghost predicate MonthOfStamp(c: Clock) {
    forall ym :: c.monthOf(c.stamp(ym)) == ym
  }

  /** Timestamps grow with the month. */
  ghost predicate StampsIncrease(c: Clock) {
    forall a, b :: Index(a) < Index(b) ==> c.stamp(a) < c.stamp(b)
  }

  /**
   * Moving the timestamp t by k months lands in the k-th month after t's month: Carbon's
   * day-of-month overflow does not occur from t (it never does from a day up to the 28th).
   */
  ghost predicate ShiftExact(c: Clock, t: int) {
    forall k :: c.monthOf(c.shift(t, k)) == AddMonths(c.monthOf(t), k)
  }

  /** Seconds in a day; the store's dates are in UTC, where every day has this length. */
  const SecondsPerDay := 86400

  /**
   * The window the month query uses as written: from the month's first day to
   * `endOfMonth()->toDateString()`, a date that compares with a timestamp as 00:00 of the last day.
   */
  function AsWrittenUpper(c: Clock, ym: YearMonth): int {
    c.stamp(AddMonths(ym, 1)) - SecondsPerDay
  }

  /** The window the month query is meant to cover: up to the last second of the month. */
  function MonthUpper(c: Clock, ym: YearMonth): int {
    c.stamp(AddMonths(ym, 1)) - 1
  }

  /** An item is in a month's window exactly when it was created during that month. */
  lemma MonthWindowIsTheMonth(c: Clock, ym: YearMonth, item: CostItem)
    ensures Between(item, c.stamp(ym), MonthUpper(c, ym))
        <==> c.stamp(ym) <= item.createdAt < c.stamp(AddMonths(ym, 1))
  {
  }

  /** With increasing stamps, the month windows do not overlap: an item is counted in one month at most. */
  lemma MonthWindowsDisjoint(c: Clock, a: YearMonth, b: YearMonth, item: CostItem)
    requires StampsIncrease(c)
    requires Between(item, c.stamp(a), MonthUpper(c, a)) && Between(item, c.stamp(b), MonthUpper(c, b))
    ensures a == b
  {
    if Index(a) < Index(b) {
      if Index(AddMonths(a, 1)) == Index(b) {
        IndexInjective(AddMonths(a, 1), b);
      }
      assert false;
    } else if Index(b) < Index(a) {
      if Index(AddMonths(b, 1)) == Index(a) {
        IndexInjective(AddMonths(b, 1), a);
      }
      assert false;
    } else {
      IndexInjective(a, b);
    }
  }

  /**
   * The window as written misses the last day of the month after midnight: an item created
   * one hour before the next month starts is in the month but outside its as-written window,
   * so the month's count omits it, while the intended window counts it.
   */
  lemma AsWrittenWindowMissesLastDay(c: Clock, ym: YearMonth)
    ensures var item := CostItem(c.stamp(AddMonths(ym, 1)) - 3600, 10.0, None, None);
            var f := Filter(None, None);
            CountItems([item], c.stamp(ym), AsWrittenUpper(c, ym), f) == 0 &&
            (c.stamp(ym) <= item.createdAt ==> CountItems([item], c.stamp(ym), MonthUpper(c, ym), f) == 1)
  {
    var item := CostItem(c.stamp(AddMonths(ym, 1)) - 3600, 10.0, None, None);
    assert [item][..0] == [];
  }
}
