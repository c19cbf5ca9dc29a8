/** Proleptic Gregorian calendar dates in the range a date value of the
    importers' host language can hold (years 1 through 9999). The importers
    parse dates from their inputs and, for the prepaid account's balance
    assertions, add one day to a date. */
module Calendar {

  datatype Date = Date(year: int, month: int, day: int)

  const MinYear := 1
  const MaxYear := 9999

  predicate IsLeapYear(y: int) {
    y % 4 == 0 && (y % 100 != 0 || y % 400 == 0)
  }

  function DaysInMonth(y: int, m: int): (n: int)
    requires 1 <= m <= 12
    ensures 28 <= n <= 31
    ensures n == 29 <==> m == 2 && IsLeapYear(y)
  {
    if m == 2 then (if IsLeapYear(y) then 29 else 28)
    else if m == 4 || m == 6 || m == 9 || m == 11 then 30
    else 31
  }

  predicate Valid(d: Date) {
    && MinYear <= d.year <= MaxYear
    && 1 <= d.month <= 12
    && 1 <= d.day <= DaysInMonth(d.year, d.month)
  }

  /** A date that exists in the calendar. */
  type Day = d: Date | Valid(d) witness Date(1970, 1, 1)

  const LastDay: Day := Date(MaxYear, 12, 31)

  /** Chronological order: `a` comes strictly before `b`. */
  predicate Before(a: Date, b: Date) {
    || a.year < b.year
    || (a.year == b.year && a.month < b.month)
    || (a.year == b.year && a.month == b.month && a.day < b.day)
  }

  /** The following calendar day; there is none after the last representable day. */
  function NextDay(d: Day): (r: Day)
    requires d != LastDay
    ensures Before(d, r)
  {
    if d.day < DaysInMonth(d.year, d.month) then Date(d.year, d.month, d.day + 1)
    else if d.month < 12 then Date(d.year, d.month + 1, 1)
    else Date(d.year + 1, 1, 1)
  }

  /** No calendar day lies strictly between a day and the next one. */
  lemma NextDayIsNext(d: Day, e: Day)
    requires d != LastDay
    ensures !(Before(d, e) && Before(e, NextDay(d)))
  {
  }

}
