/** Wall-clock instants. Every `datetime` of the core is an instant of one
    fixed local zone, counted in microseconds from the epoch; the text a
    `datetime` prints as (`isoformat()`) travels with it. */
module Time {

  const MicrosPerSecond: int := 1000000
  const MicrosPerMinute: int := 60 * MicrosPerSecond
  const MicrosPerHour: int := 60 * MicrosPerMinute
  const MicrosPerDay: int := 24 * MicrosPerHour

  /** A `datetime`: its `isoformat()` text and its position on the time line. */
  datatype Instant = Instant(iso: string, micros: int)

  /** `int(dt.timestamp())`: whole seconds, truncated toward zero as Python's
      `int` of a float does. */
  function Seconds(us: int): (s: int)
    ensures us >= 0 ==> 0 <= s && s * MicrosPerSecond <= us < (s + 1) * MicrosPerSecond
    ensures us < 0 ==> s <= 0 && (s - 1) * MicrosPerSecond < us <= s * MicrosPerSecond
  {
    if us >= 0 then us / MicrosPerSecond else -((-us) / MicrosPerSecond)
  }

  /** `dt.replace(hour=0, minute=0, second=0, microsecond=0)`. */
  function StartOfDay(us: int): (r: int)
    ensures r <= us < r + MicrosPerDay
    ensures r % MicrosPerDay == 0
  {
    us - us % MicrosPerDay
  }

  /** `dt.replace(hour=h, minute=0, second=0, microsecond=0)`. */
  function AtHour(us: int, h: int): (r: int)
    requires 0 <= h < 24
    ensures StartOfDay(r) == StartOfDay(us)
    ensures r - StartOfDay(us) == h * MicrosPerHour
  {
    var d := StartOfDay(us);
    WithinDay(d / MicrosPerDay, h * MicrosPerHour);
    d + h * MicrosPerHour
  }

  /** `dt.replace(hour=23, minute=59, second=59, microsecond=999999)`. */
  function EndOfDay(us: int): (r: int)
    ensures StartOfDay(r) == StartOfDay(us)
    ensures r == StartOfDay(us) + MicrosPerDay - 1
  {
    var d := StartOfDay(us);
    WithinDay(d / MicrosPerDay, MicrosPerDay - 1);
    d + MicrosPerDay - 1
  }

  /** An offset of less than a day from a midnight stays in that day. */
  lemma WithinDay(q: int, x: int)
    requires 0 <= x < MicrosPerDay
    ensures (q * MicrosPerDay + x) % MicrosPerDay == x
  {
    var a := q * MicrosPerDay + x;
    var k := a / MicrosPerDay;
    var m := a % MicrosPerDay;
    assert a == k * MicrosPerDay + m && 0 <= m < MicrosPerDay;
    assert (k - q) * MicrosPerDay == x - m;
  }
}
