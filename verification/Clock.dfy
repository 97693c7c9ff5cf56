/** Instants, durations and the fixed limits of the broker. */
module Clock {

  /** Nanoseconds since Go's zero time, so that `IsZero` is `== 0`. */
  type Instant = int

  /** A signed count of nanoseconds; Go keeps it in 64 bits. */
  type Duration = int

  const SECOND: Duration := 1_000_000_000
  const MINUTE: Duration := 60 * SECOND
  const HOUR: Duration := 60 * MINUTE

  const MAX_TTL: Duration := 60 * MINUTE
  const MAX_SESSION: Duration := 4 * HOUR
  const DEFAULT_WARNING: Duration := 15 * MINUTE

  const MIN_INT64 := -0x8000_0000_0000_0000
  const MAX_INT64 := 0x7FFF_FFFF_FFFF_FFFF

  /** `a.Sub(b)` and `time.Until`: the difference, saturated to 64 bits. */
  function Sub(a: Instant, b: Instant): (d: Duration)
    ensures MIN_INT64 <= d <= MAX_INT64
    ensures MIN_INT64 <= a - b <= MAX_INT64 ==> d == a - b
    ensures a - b > MAX_INT64 ==> d == MAX_INT64
    ensures a - b < MIN_INT64 ==> d == MIN_INT64
    ensures b <= a ==> 0 <= d <= a - b
    ensures a - MAX_INT64 <= b <= a ==> b + d == a
    ensures d > 0 <==> a > b
  {
    if a - b > MAX_INT64 then MAX_INT64
    else if a - b < MIN_INT64 then MIN_INT64
    else a - b
  }

  /** The value a 64-bit signed register holds after computing `x`. */
  function Wrap64(x: int): (w: int)
    ensures MIN_INT64 <= w <= MAX_INT64
    ensures MIN_INT64 <= x <= MAX_INT64 ==> w == x
    ensures MIN_INT64 <= x ==> w <= x
    ensures (x - w) % 0x1_0000_0000_0000_0000 == 0
  {
    (x - MIN_INT64) % 0x1_0000_0000_0000_0000 + MIN_INT64
  }
}
