/** The next given weekday, as the relative parser and the prompt loader both compute it. */
module Weekdays {
  import opened Options
  import opened DateTimes

  /** The least positive number of days to the next `weekday`. */
  function DaysAhead(t: DateTime, weekday: int): int
  {
    if weekday - DayOfWeek(t.day) <= 0 then weekday - DayOfWeek(t.day) + 7 else weekday - DayOfWeek(t.day)
  }

  lemma WholeDays(n: int, c: int, n': int, c': int, days: int)
    requires 0 <= c < DAY_MICROS && 0 <= c' < DAY_MICROS
    requires n' * DAY_MICROS + c' == n * DAY_MICROS + c + days * DAY_MICROS
    ensures n' == n + days && c' == c
  {}

  /** Moving the wall clock by whole days moves the date and keeps the time of day. */
  lemma MovedByDays(t: DateTime, r: DateTime, days: int)
    requires Valid(t) && Valid(r) && Wall(r) == Wall(t) + days * DAY_MICROS
    ensures r.day == t.day + days && ClockMicros(r) == ClockMicros(t)
  {
    ClockRange(t);
    ClockRange(r);
    WholeDays(t.day, ClockMicros(t), r.day, ClockMicros(r), days);
  }

  /** One to seven days ahead is the weekday asked for, and no day between is one. */
  lemma DaysAheadIsLeast(t: DateTime, weekday: int)
    requires Valid(t) && 0 <= weekday < 7
    ensures var n := t.day;
            && 1 <= DaysAhead(t, weekday) <= 7
            && DayOfWeek(n + DaysAhead(t, weekday)) == weekday
            && forall k :: n < k < n + DaysAhead(t, weekday) ==> DayOfWeek(k) != weekday
  {
    LeastAhead(t.day, weekday);
  }

  lemma LeastAhead(n: int, weekday: int)
    requires 0 <= weekday < 7
    ensures var d := if weekday - DayOfWeek(n) <= 0 then weekday - DayOfWeek(n) + 7 else weekday - DayOfWeek(n);
            1 <= d <= 7 && DayOfWeek(n + d) == weekday && forall k :: n < k < n + d ==> DayOfWeek(k) != weekday
  {}

  /** `_next_weekday` of the prompt loader; `None` is an overflow past year 9999. */
  method NextWeekday(from: DateTime, weekday: int) returns (r: Option<DateTime>)
    requires Valid(from) && 0 <= weekday < 7
    ensures r == Plus(from, DaysAhead(from, weekday) * DAY_MICROS)
    ensures r.Some? ==>
      && DayOfWeek(r.value.day) == weekday
      && 1 <= r.value.day - from.day <= 7
      && ClockMicros(r.value) == ClockMicros(from)
  {
    var daysAhead := weekday - DayOfWeek(from.day);
    if daysAhead <= 0 {
      daysAhead := daysAhead + 7;
    }
    r := Plus(from, daysAhead * DAY_MICROS);
    if r.Some? {
      DaysAheadIsLeast(from, weekday);
      MovedByDays(from, r.value, daysAhead);
    }
  }
}
