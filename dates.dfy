/**
 * Timestamps as the ledger uses them: a full .NET `DateTime`, compared as a
 * whole instant, from which only the calendar year and month are projected.
 */
module Dates {

  /**
   * A `DateTime` split into its calendar fields. `timeOfDay` stands for the
   * ticks since midnight, so two expenses added on the same day at different
   * moments are different, ordered timestamps.
   */
  datatype DateTime = DateTime(year: int, month: int, day: int, timeOfDay: int)

  /** `default(DateTime)`, i.e. `DateTime.MinValue`: what a failed `TryParse` leaves in its out-parameter. */
  const MinValue := DateTime(1, 1, 1, 0)

  const TicksPerDay := 864_000_000_000

  /** Within the range a `DateTime` can hold: years 1 to 9999, months 1 to 12, days 1 to 31. */
  predicate IsValid(d: DateTime) {
    1 <= d.year <= 9999 && 1 <= d.month <= 12 && 1 <= d.day <= 31 && 0 <= d.timeOfDay < TicksPerDay
  }

  /** `a <= b` on `DateTime`: chronological order, field by field. */
  predicate AtOrBefore(a: DateTime, b: DateTime) {
    || a.year < b.year
    || (a.year == b.year && a.month < b.month)
    || (a.year == b.year && a.month == b.month && a.day < b.day)
    || (a.year == b.year && a.month == b.month && a.day == b.day && a.timeOfDay <= b.timeOfDay)
  }

  /** The order is total, antisymmetric and transitive, as `DateTime` comparison is. */
  lemma AtOrBeforeIsTotalOrder(a: DateTime, b: DateTime, c: DateTime)
    ensures AtOrBefore(a, b) || AtOrBefore(b, a)
    ensures AtOrBefore(a, b) && AtOrBefore(b, a) ==> a == b
    ensures AtOrBefore(a, b) && AtOrBefore(b, c) ==> AtOrBefore(a, c)
  {
  }

  /** The key `new { e.Date.Year, e.Date.Month }` used to group and compare by month. */
  datatype YearMonth = YearMonth(year: int, month: int)

  function MonthOf(d: DateTime): YearMonth {
    YearMonth(d.year, d.month)
  }

  /** `a` comes strictly after `b` in (year, month) order. */
  predicate LaterMonth(a: YearMonth, b: YearMonth) {
    a.year > b.year || (a.year == b.year && a.month > b.month)
  }
}
