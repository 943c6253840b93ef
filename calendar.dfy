/**
 * Calendar months as Carbon steps through them: a date is kept only to the month,
 * `addMonths(k)` / `subMonths(k)` move k months, and months are compared in time order.
 */
module Calendar {

  type Month = m: int | 1 <= m <= 12 witness 1

  /** A calendar month, the `Y-m` key of a bucket. */
  datatype YearMonth = YearMonth(year: int, month: Month)

  /** Months since January of year 0: a month's position on the time line. */
  function Index(ym: YearMonth): int {
    ym.year * 12 + (ym.month - 1)
  }

  /** The month at a position on the time line. */
  function FromIndex(k: int): (ym: YearMonth)
    ensures Index(ym) == k
  {
    YearMonth(k / 12, k % 12 + 1)
  }

  /** Carbon `addMonths(k)` (a negative k is `subMonths(-k)`) on the first of a month. */
  function AddMonths(ym: YearMonth, k: int): (r: YearMonth)
    ensures Index(r) == Index(ym) + k
  {
    FromIndex(Index(ym) + k)
  }

  /** `a` is an earlier month than `b`, in the (year, month) order. */
  predicate Before(a: YearMonth, b: YearMonth) {
    a.year < b.year || (a.year == b.year && a.month < b.month)
  }

  /** The year and month can be read back from the position. */
  lemma IndexDivMod(ym: YearMonth)
    ensures Index(ym) / 12 == ym.year && Index(ym) % 12 == ym.month - 1
  {
    var k := Index(ym);
    assert k == ym.year * 12 + (ym.month - 1);
  }

  /** A month is determined by its position: Index is injective. */
  lemma IndexInjective(a: YearMonth, b: YearMonth)
    requires Index(a) == Index(b)
    ensures a == b
  {
    IndexDivMod(a);
    IndexDivMod(b);
  }

  /** Index then FromIndex gives the month back. */
  lemma FromIndexIndex(ym: YearMonth)
    ensures FromIndex(Index(ym)) == ym
  {
    IndexInjective(FromIndex(Index(ym)), ym);
  }

  /** Moving zero months stays put; moving a then b months is moving a + b months. */
  lemma AddMonthsCompose(ym: YearMonth, a: int, b: int)
    ensures AddMonths(ym, 0) == ym
    ensures AddMonths(AddMonths(ym, a), b) == AddMonths(ym, a + b)
  {
    FromIndexIndex(ym);
    IndexInjective(AddMonths(AddMonths(ym, a), b), AddMonths(ym, a + b));
  }

  /** The position order is the calendar order. */
  lemma IndexOrderIsCalendarOrder(a: YearMonth, b: YearMonth)
    ensures Index(a) < Index(b) <==> Before(a, b)
  {
    if a.year < b.year {
      assert Index(a) <= a.year * 12 + 11 < (a.year + 1) * 12 <= Index(b);
    } else if b.year < a.year {
      assert Index(b) <= b.year * 12 + 11 < (b.year + 1) * 12 <= Index(a);
    }
  }

  /** One month after December is January of the next year; otherwise the year stays. */
  lemma NextMonth(ym: YearMonth)
    ensures ym.month < 12 ==> AddMonths(ym, 1) == YearMonth(ym.year, ym.month + 1)
    ensures ym.month == 12 ==> AddMonths(ym, 1) == YearMonth(ym.year + 1, 1)
  {
    if ym.month < 12 {
      IndexInjective(AddMonths(ym, 1), YearMonth(ym.year, ym.month + 1));
    } else {
      IndexInjective(AddMonths(ym, 1), YearMonth(ym.year + 1, 1));
    }
  }

  /** The number of months from `start` through `end`, both included; none when `start` is later. */
  function MonthSpan(start: YearMonth, end: YearMonth): (r: nat)
    ensures Index(start) <= Index(end) ==> r == Index(end) - Index(start) + 1
    ensures Index(end) < Index(start) ==> r == 0
  {
    if Index(start) <= Index(end) then Index(end) - Index(start) + 1 else 0
  }

  // ----- days: Carbon's month arithmetic on a full date -----

  /** Gregorian leap years. */
  predicate LeapYear(y: int) {
    y % 4 == 0 && (y % 100 != 0 || y % 400 == 0)
  }

  /** The number of days in a month. */
  function DaysIn(ym: YearMonth): (r: int)
    ensures 28 <= r <= 31
    ensures ym.month == 2 ==> (r == 29 <==> LeapYear(ym.year))
  {
    if ym.month == 2 then (if LeapYear(ym.year) then 29 else 28)
    else if ym.month in {4, 6, 9, 11} then 30
    else 31
  }

  /** A calendar date: a month and a day of it. */
  datatype Date = Date(ym: YearMonth, day: int)

  predicate ValidDate(d: Date) {
    1 <= d.day <= DaysIn(d.ym)
  }

  /**
   * Carbon's default `addMonths(k)` / `subMonths(-k)`: the day is kept, and a day the target
   * month lacks runs on into the month after (31 March 2025 minus one month is 3 March 2025).
   */
  function CarbonAddMonths(d: Date, k: int): (r: Date)
    requires ValidDate(d)
    ensures ValidDate(r)
    ensures d.day <= DaysIn(AddMonths(d.ym, k)) ==> r == Date(AddMonths(d.ym, k), d.day)
    ensures d.day > DaysIn(AddMonths(d.ym, k)) ==>
              r == Date(AddMonths(d.ym, k + 1), d.day - DaysIn(AddMonths(d.ym, k)))
  {
    var target := AddMonths(d.ym, k);
    if d.day <= DaysIn(target) then Date(target, d.day)
    else
      AddMonthsCompose(d.ym, k, 1);
      Date(AddMonths(target, 1), d.day - DaysIn(target))
  }

  /** From a day every month has (up to the 28th) Carbon's month step lands in the k-th month. */
  lemma CarbonAddMonthsExactUpTo28(d: Date, k: int)
    requires ValidDate(d) && d.day <= 28
    ensures CarbonAddMonths(d, k).ym == AddMonths(d.ym, k)
  {
  }

  lemma LeapYears()
    ensures LeapYear(2024) && !LeapYear(2023) && DaysIn(YearMonth(2023, 2)) == 28
  {
    assert 2024 == 4 * 506 && 2024 == 100 * 20 + 24;
    assert 2023 == 4 * 505 + 3;
  }

  /** Twelve months back from 29 February 2024 is "29 February 2023", that is 1 March 2023. */
  lemma CarbonLeapDayOverflow()
    ensures ValidDate(Date(YearMonth(2024, 2), 29))
    ensures CarbonAddMonths(Date(YearMonth(2024, 2), 29), -12) == Date(YearMonth(2023, 3), 1)
    ensures MonthSpan(YearMonth(2023, 3), YearMonth(2024, 2)) == 12
  {
    LeapYears();
    var d := Date(YearMonth(2024, 2), 29);
    assert AddMonths(d.ym, -12) == YearMonth(2023, 2) by {
      IndexInjective(AddMonths(d.ym, -12), YearMonth(2023, 2));
    }
    assert AddMonths(d.ym, -11) == YearMonth(2023, 3) by {
      IndexInjective(AddMonths(d.ym, -11), YearMonth(2023, 3));
    }
    assert d.day > DaysIn(AddMonths(d.ym, -12));
  }

  /** Carbon's `addMonthsNoOverflow(k)`: the day is clamped to the target month's last day. */
  function AddMonthsNoOverflow(d: Date, k: int): (r: Date)
    requires ValidDate(d)
    ensures ValidDate(r) && r.ym == AddMonths(d.ym, k)
    ensures r.day == if d.day <= DaysIn(r.ym) then d.day else DaysIn(r.ym)
  {
    var target := AddMonths(d.ym, k);
    Date(target, if d.day <= DaysIn(target) then d.day else DaysIn(target))
  }
}
