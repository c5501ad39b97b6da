/** Date-times on the wall clock and on the time line.  A date is its ordinal: day 1 is 0001-01-01, a
    Monday. */
module DateTimes {
  import opened Options

  const MAX_ORDINAL := 3652059  // 9999-12-31
  const DAY_MICROS := 86400 * 1000000
  const MINUTE_MICROS := 60 * 1000000

  /** A `datetime`; `offset` is the UTC offset in minutes, `None` for a naive value. */
  datatype DateTime = DateTime(day: int, hour: int, minute: int, second: int, micro: int, offset: Option<int>)

  predicate ValidOffset(o: Option<int>) {
    o.Some? ==> -1440 < o.value < 1440
  }

  predicate Valid(t: DateTime) {
    && 1 <= t.day <= MAX_ORDINAL && ValidOffset(t.offset)
    && 0 <= t.hour < 24 && 0 <= t.minute < 60 && 0 <= t.second < 60 && 0 <= t.micro < 1000000
  }

  /** 0 for Monday to 6 for Sunday. */
  function DayOfWeek(n: int): int {
    (n + 6) % 7
  }

  function ClockMicros(t: DateTime): int {
    ((t.hour * 60 + t.minute) * 60 + t.second) * 1000000 + t.micro
  }

  /** Microseconds on the wall clock, ignoring the offset. */
  function Wall(t: DateTime): int {
    t.day * DAY_MICROS + ClockMicros(t)
  }

  const MIN_WALL := DAY_MICROS
  const END_WALL := (MAX_ORDINAL + 1) * DAY_MICROS

  function AtClock(day: int, c: int, offset: Option<int>): (t: DateTime)
    requires 1 <= day <= MAX_ORDINAL && 0 <= c < DAY_MICROS && ValidOffset(offset)
    ensures Valid(t) && t.day == day && t.offset == offset && ClockMicros(t) == c
  {
    var s := c / 1000000;
    var m := s / 60;
    DateTime(day, m / 60, m % 60, s % 60, c % 1000000, offset)
  }

  function FromWall(w: int, offset: Option<int>): (t: DateTime)
    requires MIN_WALL <= w < END_WALL && ValidOffset(offset)
    ensures Valid(t) && t.offset == offset && Wall(t) == w
  {
    AtClock(w / DAY_MICROS, w % DAY_MICROS, offset)
  }

  lemma ClockRange(t: DateTime)
    requires Valid(t)
    ensures 0 <= ClockMicros(t) < DAY_MICROS
    ensures MIN_WALL <= Wall(t) < END_WALL
  {}

  /** `datetime + timedelta`; `None` is the OverflowError past year 9999 or before year 1. */
  function Plus(t: DateTime, micros: int): (r: Option<DateTime>)
    requires Valid(t)
    ensures r.Some? <==> MIN_WALL <= Wall(t) + micros < END_WALL
    ensures r.Some? ==> Valid(r.value) && Wall(r.value) == Wall(t) + micros && r.value.offset == t.offset
  {
    var w := Wall(t) + micros;
    if MIN_WALL <= w < END_WALL then Some(FromWall(w, t.offset)) else None
  }

  /** The point in time in UTC microseconds. */
  function Instant(t: DateTime): int
    requires t.offset.Some?
  {
    Wall(t) - t.offset.value * MINUTE_MICROS
  }

  /** What a `timestamp with time zone` column gives back: the instant, in UTC. */
  function InUtc(instant: int): (t: DateTime)
    requires MIN_WALL <= instant < END_WALL
    ensures Valid(t) && t.offset == Some(0) && Instant(t) == instant
  {
    FromWall(instant, Some(0))
  }
}
