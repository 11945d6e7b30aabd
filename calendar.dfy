/**
 * Civil date-times in the server's zone, and the two calendar steps the
 * recurring-invoice job takes: `setMonth(getMonth() + 1)` and
 * `setFullYear(getFullYear() + 1)`.  JavaScript keeps the day of the month and
 * lets any days beyond the end of the target month spill into the next month,
 * so 31 January plus one month is 2 March in a leap year and 3 March otherwise,
 * and 29 February plus one year is 1 March.
 */
module Calendar {

  const MsPerDay: int := 86_400_000

  /** `month` runs 1..12 (JavaScript's 0..11 shifted by one); `ms` is the time of day. */
  datatype DateTime = DateTime(year: int, month: int, day: int, ms: int)

  predicate IsLeapYear(y: int) {
    y % 4 == 0 && (y % 100 != 0 || y % 400 == 0)
  }

  function DaysInMonth(y: int, m: int): (n: int)
    requires 1 <= m <= 12
    ensures 28 <= n <= 31
    ensures n == 31 <==> m in {1, 3, 5, 7, 8, 10, 12}
    ensures n == 28 <==> m == 2 && !IsLeapYear(y)
  {
    if m == 2 then (if IsLeapYear(y) then 29 else 28)
    else if m in {4, 6, 9, 11} then 30
    else 31
  }

  predicate IsValid(d: DateTime) {
    && 1 <= d.month <= 12
    && 1 <= d.day <= DaysInMonth(d.year, d.month)
    && 0 <= d.ms < MsPerDay
  }

  /** A date-time that names a real instant. */
  type Date = d: DateTime | IsValid(d) witness DateTime(1970, 1, 1, 0)

  /** Strict chronological order: by year, then month, then day, then time of day. */
  predicate Before(a: DateTime, b: DateTime) {
    || a.year < b.year
    || (a.year == b.year && a.month < b.month)
    || (a.year == b.year && a.month == b.month && a.day < b.day)
    || (a.year == b.year && a.month == b.month && a.day == b.day && a.ms < b.ms)
  }

  /** The `$lte` comparison of two timestamps. */
  predicate AtOrBefore(a: DateTime, b: DateTime) {
    a == b || Before(a, b)
  }

  /** `AtOrBefore` is a total order, so it can be used to sort and to scan. */
  lemma AtOrBeforeTotalOrder(a: DateTime, b: DateTime, c: DateTime)
    ensures AtOrBefore(a, b) || AtOrBefore(b, a)
    ensures AtOrBefore(a, b) && AtOrBefore(b, a) ==> a == b
    ensures AtOrBefore(a, b) && AtOrBefore(b, c) ==> AtOrBefore(a, c)
    ensures !Before(a, a)
  {
  }

  /** The month after (y, m), carrying into the next year after December. */
  function NextMonth(y: int, m: int): (ym: (int, int))
    requires 1 <= m <= 12
    ensures 1 <= ym.1 <= 12
    ensures ym.0 * 12 + ym.1 == y * 12 + m + 1
  {
    if m == 12 then (y + 1, 1) else (y, m + 1)
  }

  /**
   * Day `day` of month (y, m), where `day` may exceed the month's length by less
   * than a month: the excess spills into the following month.
   */
  function SpillDay(y: int, m: int, day: int, ms: int): (r: Date)
    requires 1 <= m <= 12 && 1 <= day <= 31 && 0 <= ms < MsPerDay
    requires day > DaysInMonth(y, m) ==> m < 12
    ensures r.ms == ms
  {
    if day <= DaysInMonth(y, m) then DateTime(y, m, day, ms)
    else DateTime(y, m + 1, day - DaysInMonth(y, m), ms)
  }

  /** `d.setMonth(d.getMonth() + 1)`. */
  function AddMonth(d: Date): (r: Date)
    ensures Before(d, r)
    ensures r.ms == d.ms
  {
    var (y, m) := NextMonth(d.year, d.month);
    SpillDay(y, m, d.day, d.ms)
  }

  /** `d.setFullYear(d.getFullYear() + 1)`. */
  function AddYear(d: Date): (r: Date)
    ensures Before(d, r)
    ensures r.ms == d.ms
  {
    SpillDay(d.year + 1, d.month, d.day, d.ms)
  }

  /** Days in the months of year y before month m. */
  function DaysBeforeMonth(y: int, m: int): int
    requires 1 <= m <= 13
  {
    if m == 1 then 0 else DaysBeforeMonth(y, m - 1) + DaysInMonth(y, m - 1)
  }

  /** 1-based ordinal of the day within its year. */
  function DayOfYear(d: Date): int {
    DaysBeforeMonth(d.year, d.month) + d.day
  }

  /**
   * ECMAScript's MakeDay: the new date is exactly `d.day - 1` days after the
   * first of the following month, in that month's year, at the same time of day.
   */
  lemma AddMonthIsMakeDay(d: Date)
    ensures var (y, m) := NextMonth(d.year, d.month);
      && AddMonth(d).year == y
      && DayOfYear(AddMonth(d)) == DaysBeforeMonth(y, m) + d.day
  {
  }

  /** The same for a year: `d.day - 1` days after the first of the same month a year later. */
  lemma AddYearIsMakeDay(d: Date)
    ensures AddYear(d).year == d.year + 1
    ensures DayOfYear(AddYear(d)) == DaysBeforeMonth(d.year + 1, d.month) + d.day
  {
  }

  /** When the day exists in the target month, only the month changes. */
  lemma AddMonthKeepsDay(d: Date)
    requires var (y, m) := NextMonth(d.year, d.month); d.day <= DaysInMonth(y, m)
    ensures AddMonth(d) == DateTime(NextMonth(d.year, d.month).0, NextMonth(d.year, d.month).1, d.day, d.ms)
  {
  }

  /** Only 29 February moves off its day when a year is added, and it moves to 1 March. */
  lemma AddYearKeepsDayUnlessLeapDay(d: Date)
    ensures AddYear(d) == if d.month == 2 && d.day == 29 && !IsLeapYear(d.year + 1)
                          then DateTime(d.year + 1, 3, 1, d.ms)
                          else DateTime(d.year + 1, d.month, d.day, d.ms)
  {
  }

  /** 31 January 2024 plus one month is 2 March 2024; 31 January 2023 plus one month is 3 March 2023. */
  lemma AddMonthFromJanuary31()
    ensures AddMonth(DateTime(2024, 1, 31, 0)) == DateTime(2024, 3, 2, 0)
    ensures AddMonth(DateTime(2023, 1, 31, 0)) == DateTime(2023, 3, 3, 0)
    ensures AddMonth(DateTime(2024, 12, 31, 0)) == DateTime(2025, 1, 31, 0)
  {
  }

  /** 29 February 2024 plus one year is 1 March 2025; 2028 is a leap year again. */
  lemma AddYearFromLeapDay()
    ensures AddYear(DateTime(2024, 2, 29, 0)) == DateTime(2025, 3, 1, 0)
    ensures AddYear(DateTime(2027, 2, 28, 0)) == DateTime(2028, 2, 28, 0)
  {
  }
}
