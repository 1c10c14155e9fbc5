/**
 * Calendar dates as Python's `datetime.date` represents them: proleptic
 * Gregorian dates from year 1 to year 9999, compared chronologically.
 */
module Calendar {

  /** The Gregorian leap-year rule (`calendar.isleap`). */
  predicate IsLeapYear(year: int)
  {
    year % 4 == 0 && (year % 100 != 0 || year % 400 == 0)
  }

  /** Number of days in a month (the second half of `calendar.monthrange`). */
  function DaysInMonth(year: int, month: int): (n: int)
    requires 1 <= month <= 12
    ensures 28 <= n <= 31
  {
    if month == 2 then (if IsLeapYear(year) then 29 else 28)
    else if month == 4 || month == 6 || month == 9 || month == 11 then 30
    else 31
  }

  datatype Date = Date(year: int, month: int, day: int)

  /** The triples `datetime.date(year, month, day)` accepts. */
  predicate IsValidDate(d: Date)
  {
    1 <= d.year <= 9999 && 1 <= d.month <= 12 && 1 <= d.day <= DaysInMonth(d.year, d.month)
  }

  /** A value of Python's `datetime.date`. */
  type ValidDate = d: Date | IsValidDate(d) witness Date(2000, 1, 1)

  /** Chronological order `a < b`. */
  predicate Before(a: Date, b: Date)
  {
    || a.year < b.year
    || (a.year == b.year && a.month < b.month)
    || (a.year == b.year && a.month == b.month && a.day < b.day)
  }

  /** Chronological order `a <= b`. */
  predicate NotAfter(a: Date, b: Date)
  {
    !Before(b, a)
  }
}
