/**
 * Calendar dates as the handlers use them: the first and last day of a month
 * (the last day as `calendar.monthrange` gives it, proleptic Gregorian) and
 * the `start_date <= date <= end_date` windows of the expense queries.
 */
module Calendar {

  datatype Date = Date(year: int, month: int, day: int)

  /** Chronological order: by year, then month, then day (Python's `date` comparison). */
  predicate DateLe(a: Date, b: Date) {
    a.year < b.year
    || (a.year == b.year && (a.month < b.month || (a.month == b.month && a.day <= b.day)))
  }

  /** Gregorian leap years, as `calendar.isleap`. */
  predicate IsLeapYear(y: int) {
    y % 4 == 0 && (y % 100 != 0 || y % 400 == 0)
  }

  /** Number of days of month `m` of year `y`: `calendar.monthrange(y, m)[1]`. */
  function DaysInMonth(y: int, m: int): (n: int)
    requires 1 <= m <= 12
    ensures 28 <= n <= 31
    ensures m == 2 ==> (n == 29 <==> IsLeapYear(y)) && n <= 29
    ensures m != 2 ==> (n == 30 <==> m == 4 || m == 6 || m == 9 || m == 11) && n >= 30
  {
    if m == 2 then (if IsLeapYear(y) then 29 else 28)
    else if m == 4 || m == 6 || m == 9 || m == 11 then 30
    else 31
  }

  /** A date Python's `datetime.date` can represent (years MINYEAR..MAXYEAR). */
  predicate ValidDate(d: Date) {
    1 <= d.year <= 9999 && 1 <= d.month <= 12 && 1 <= d.day <= DaysInMonth(d.year, d.month)
  }

  /** `datetime(year, month, 1).date()` */
  function MonthStart(y: int, m: int): (d: Date)
    requires 1 <= y <= 9999 && 1 <= m <= 12
    ensures ValidDate(d) && d.year == y && d.month == m
  {
    Date(y, m, 1)
  }

  /** `datetime(year, month, calendar.monthrange(year, month)[1]).date()` */
  function MonthEnd(y: int, m: int): (d: Date)
    requires 1 <= y <= 9999 && 1 <= m <= 12
    ensures ValidDate(d) && d.year == y && d.month == m
    ensures !ValidDate(Date(y, m, d.day + 1))
  {
    Date(y, m, DaysInMonth(y, m))
  }

  /** The closed window `lo <= d <= hi` of the date filters. */
  predicate InPeriod(d: Date, lo: Date, hi: Date) {
    DateLe(lo, d) && DateLe(d, hi)
  }

  /** A valid date lies in the window of month `m` of year `y` exactly when it is in that month. */
  lemma MonthWindow(d: Date, y: int, m: int)
    requires ValidDate(d) && 1 <= y <= 9999 && 1 <= m <= 12
    ensures InPeriod(d, MonthStart(y, m), MonthEnd(y, m)) <==> d.year == y && d.month == m
  {
  }

  /** A valid date lies between January 1 and December 31 of `y` exactly when its year is `y`. */
  lemma YearWindow(d: Date, y: int)
    requires ValidDate(d)
    ensures InPeriod(d, Date(y, 1, 1), Date(y, 12, 31)) <==> d.year == y
  {
  }

  /** Days in the first `k` months of year `y`. */
  function DaysBefore(y: int, k: int): int
    requires 0 <= k <= 12
  {
    if k == 0 then 0 else DaysBefore(y, k - 1) + DaysInMonth(y, k)
  }

  /** The twelve months cover a year of 365 days, or 366 in a leap year. */
  lemma YearLength(y: int)
    ensures DaysBefore(y, 12) == if IsLeapYear(y) then 366 else 365
  {
    var feb := if IsLeapYear(y) then 29 else 28;
    assert DaysBefore(y, 1) == 31;
    assert DaysInMonth(y, 2) == feb;
    assert DaysBefore(y, 2) == 31 + feb;
    assert DaysBefore(y, 4) == DaysBefore(y, 2) + 31 + 30;
    assert DaysBefore(y, 6) == DaysBefore(y, 4) + 31 + 30;
    assert DaysBefore(y, 8) == DaysBefore(y, 6) + 31 + 31;
    assert DaysBefore(y, 10) == DaysBefore(y, 8) + 30 + 31;
    assert DaysBefore(y, 12) == DaysBefore(y, 10) + 30 + 31;
  }
}
