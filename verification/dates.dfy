/**
 * Calendar dates as Python's `datetime.date` holds them (proleptic Gregorian,
 * years 1 to 9999), and the month step the schedule uses to go from one
 * payment date to the next.
 */
module Dates {

  const MinYear: int := 1
  const MaxYear: int := 9999

  datatype Date = Date(year: int, month: int, day: int)

  predicate IsLeapYear(y: int) {
    y % 4 == 0 && (y % 100 != 0 || y % 400 == 0)
  }

  function DaysInMonth(y: int, m: int): (n: int)
    requires 1 <= m <= 12
    ensures 28 <= n <= 31
    ensures m == 2 ==> (n == 29 <==> IsLeapYear(y))
  {
    if m == 2 then (if IsLeapYear(y) then 29 else 28)
    else if m == 4 || m == 6 || m == 9 || m == 11 then 30
    else 31
  }

  /** The dates that `datetime.date` accepts. */
  predicate ValidDate(d: Date) {
    MinYear <= d.year <= MaxYear && 1 <= d.month <= 12 && 1 <= d.day <= DaysInMonth(d.year, d.month)
  }

  /** Months elapsed since January of year 0: consecutive months have consecutive indices. */
  function MonthIndex(d: Date): int {
    d.year * 12 + (d.month - 1)
  }

  /** Python's `<` on dates: by year, then month, then day. */
  predicate Before(a: Date, b: Date) {
    a.year < b.year || (a.year == b.year && (a.month < b.month || (a.month == b.month && a.day < b.day)))
  }

  function Min(a: int, b: int): int {
    if a <= b then a else b
  }

  /**
   * The date one month later with the day clamped to 28, using floor division
   * and modulo on the month as the source does.
   */
  function NextDate(d: Date): (r: Date)
    ensures r.day == Min(d.day, 28)
    ensures 1 <= d.month <= 12 ==> 1 <= r.month <= 12 && MonthIndex(r) == MonthIndex(d) + 1
    ensures 1 <= d.month <= 12 ==> Before(d, r)
    ensures ValidDate(d) && (d.year < MaxYear || d.month < 12) ==> ValidDate(r)
  {
    Date(d.year + d.month / 12, d.month % 12 + 1, Min(d.day, 28))
  }

  /** On dates with a month in 1..12, the month index orders dates as `Before` does. */
  lemma MonthIndexOrdersDates(a: Date, b: Date)
    requires 1 <= a.month <= 12 && 1 <= b.month <= 12
    requires MonthIndex(a) < MonthIndex(b)
    ensures Before(a, b)
  {
  }
}
