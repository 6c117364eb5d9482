/**
 * Naive `datetime` values as integer microseconds since 0001-01-01T00:00:00,
 * with the pieces of `timedelta` and `date` arithmetic the pipeline uses.
 */
module Time {

  type Timestamp = int

  const MICROS_PER_SECOND: int := 1000000
  const MICROS_PER_DAY: int := 86400 * 1000000

  /** `(a - b).days`: a timedelta keeps its days rounded towards minus infinity. */
  function TimedeltaDays(delta: int): (d: int)
    ensures d * MICROS_PER_DAY <= delta < (d + 1) * MICROS_PER_DAY
  {
    delta / MICROS_PER_DAY
  }

  /** `(a - b).total_seconds()`, exact. */
  function TotalSeconds(delta: int): real
  {
    delta as real / MICROS_PER_SECOND as real
  }

  predicate IsLeapYear(y: int)
  {
    y % 4 == 0 && (y % 100 != 0 || y % 400 == 0)
  }

  function DaysInMonth(y: int, m: int): int
    requires 1 <= m <= 12
  {
    if m == 2 then (if IsLeapYear(y) then 29 else 28)
    else if m == 4 || m == 6 || m == 9 || m == 11 then 30
    else 31
  }

  /** The dates `datetime` accepts: MINYEAR 1 to MAXYEAR 9999, a real month and day. */
  predicate ValidDate(y: int, m: int, d: int)
  {
    1 <= y <= 9999 && 1 <= m <= 12 && 1 <= d <= DaysInMonth(y, m)
  }

  function DaysBeforeYear(y: int): int
  {
    var p := y - 1;
    p * 365 + p / 4 - p / 100 + p / 400
  }

  function DaysBeforeMonth(y: int, m: int): int
    requires 1 <= m <= 12
    decreases m
  {
    if m == 1 then 0 else DaysBeforeMonth(y, m - 1) + DaysInMonth(y, m - 1)
  }

  /** `datetime(y, m, d)`: midnight of a valid date. */
  function Midnight(y: int, m: int, d: int): Timestamp
    requires ValidDate(y, m, d)
  {
    (DaysBeforeYear(y) + DaysBeforeMonth(y, m) + d - 1) * MICROS_PER_DAY
  }
}
