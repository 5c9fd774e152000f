/**
 * Time as the source's runtime keeps it: a DateTime is a count of 100 ns
 * ticks, a TimeSpan the difference of two such counts.
 */
module Time {

  /** A DateTime or TimeSpan, in ticks of 100 nanoseconds. */
  type Ticks = int

  const TicksPerSecond: int := 10_000_000
  const TicksPerMinute: int := 60 * TicksPerSecond
  const TicksPerHour: int := 60 * TicksPerMinute
  const TicksPerDay: int := 24 * TicksPerHour

  /** A calendar date (the `Month` column keeps year, month and day). */
  datatype CalendarDate = CalendarDate(year: int, month: int, day: int)

  /** A year and month, as parsed from a "yyyy-MM" filter value. */
  datatype YearMonth = YearMonth(year: int, month: int)

  /**
   * C#'s `(int)` cast of a double truncates toward zero; Dafny's `/` is
   * Euclidean. This is the truncating quotient.
   */
  function TruncDiv(a: int, b: int): (q: int)
    requires b > 0
    ensures a >= 0 ==> q == a / b
    ensures a >= 0 ==> q * b <= a < (q + 1) * b
    ensures a < 0 ==> q == -((-a) / b)
    ensures a < 0 ==> q <= 0 && (q - 1) * b < a <= q * b
  {
    if a >= 0 then a / b else -((-a) / b)
  }

  /** `(int)span.TotalDays`: whole days of a span, truncated toward zero. */
  function WholeDays(span: Ticks): int {
    TruncDiv(span, TicksPerDay)
  }
}
