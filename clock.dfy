/**
 * Instants are integer milliseconds since 1970-01-01T00:00Z. Local time is taken to be UTC with
 * fixed-length days, so midnight of an instant's day is a multiple of DAY_MS.
 */
module Clock {

  const MINUTE_MS: int := 60_000
  const HOUR_MS: int := 3_600_000
  const DAY_MS: int := 86_400_000

  /** The calendar day an instant falls on (`Math.floor(t / DAY_MS)`; Dafny's `/` floors here). */
  function DayNumber(t: int): int {
    t / DAY_MS
  }

  /** `d.setHours(0, 0, 0, 0)`: midnight at the start of the instant's day. */
  function StartOfDay(t: int): (r: int)
    ensures r <= t < r + DAY_MS
    ensures r % DAY_MS == 0 && r / DAY_MS == DayNumber(t)
  {
    DayNumber(t) * DAY_MS
  }

  /** `d.getDay()`: 0 is Sunday; 1970-01-01 was a Thursday. */
  function DayOfWeek(t: int): (r: int)
    ensures 0 <= r < 7
  {
    (DayNumber(t) + 4) % 7
  }
}
