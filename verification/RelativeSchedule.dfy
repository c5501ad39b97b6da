/** Relative phrases such as "in 30 minutes", "tomorrow at 8:15 am" or "next friday at 5pm", read by
    leftmost pattern search.  Characters are ASCII. */
module RelativeSchedule {
  import opened Options
  import opened DateTimes
  import opened Weekdays
  import opened Text
  import IsoFormat

  // ---------------------------------------------------------------- characters and words

  predicate IsLetter(c: char) {
    'a' <= c <= 'z' || 'A' <= c <= 'Z'
  }

  predicate IsDigit(c: char) {
    IsoFormat.IsDigit(c)
  }

  predicate IsWord(c: char) {
    IsLetter(c) || IsDigit(c) || c == '_'
  }

  function Lower(c: char): char {
    if 'A' <= c <= 'Z' then (c as int + 32) as char else c
  }

  /** `\b` before position `i`. */
  predicate Boundary(s: string, i: nat)
    requires i <= |s|
  {
    (i > 0 && IsWord(s[i - 1])) != (i < |s| && IsWord(s[i]))
  }

  /** The lower-case word `w` stands at `i`, in any case. */
  predicate WordAt(s: string, i: nat, w: string) {
    i + |w| <= |s| && forall k :: 0 <= k < |w| ==> Lower(s[i + k]) == w[k]
  }

  predicate KeywordAt(s: string, i: nat, w: string) {
    WordAt(s, i, w) && Boundary(s, i) && Boundary(s, i + |w|)
  }

  /** `\bw\b` is found somewhere. */
  predicate HasKeyword(s: string, w: string) {
    exists i: nat :: i <= |s| && KeywordAt(s, i, w)
  }

  function SkipSpaces(s: string, i: nat): (j: nat)
    requires i <= |s|
    ensures i <= j <= |s|
    ensures forall k :: i <= k < j ==> IsSpace(s[k])
    ensures j < |s| ==> !IsSpace(s[j])
    decreases |s| - i
  {
    if i < |s| && IsSpace(s[i]) then SkipSpaces(s, i + 1) else i
  }

  function SkipLetters(s: string, i: nat): (j: nat)
    requires i <= |s|
    ensures i <= j <= |s|
    ensures forall k :: i <= k < j ==> IsLetter(s[k])
    ensures j < |s| ==> !IsLetter(s[j])
    decreases |s| - i
  {
    if i < |s| && IsLetter(s[i]) then SkipLetters(s, i + 1) else i
  }

  function SkipDigits(s: string, i: nat): (j: nat)
    requires i <= |s|
    ensures i <= j <= |s|
    ensures forall k :: i <= k < j ==> IsDigit(s[k])
    ensures j < |s| ==> !IsDigit(s[j])
    decreases |s| - i
  {
    if i < |s| && IsDigit(s[i]) then SkipDigits(s, i + 1) else i
  }

  /** A word at a boundary followed by white space; the result is where the white space ends. */
  function WordThenSpaces(s: string, i: nat, w: string): (j: Option<nat>)
    requires i <= |s|
    ensures j.Some? ==> i < j.value <= |s|
    ensures j.Some? ==> forall k :: i + |w| <= k < j.value ==> IsSpace(s[k])
  {
    if WordAt(s, i, w) && Boundary(s, i) && i + |w| < |s| && IsSpace(s[i + |w|])
    then Some(SkipSpaces(s, i + |w|))
    else None
  }

  const RECURRING := ["every", "each", "daily", "weekly", "hourly", "biweekly", "fortnightly",
    "weekday", "weekdays", "weekend", "weekends"]

  predicate IsRecurring(s: string) {
    exists k :: 0 <= k < |RECURRING| && HasKeyword(s, RECURRING[k])
  }

  // ---------------------------------------------------------------- clock times

  datatype ClockTime = ClockTime(hour: int, minute: int)

  /** Hour and minute as written, with the meridiem. */
  datatype Written = Written(hour: nat, minute: nat, pm: bool)

  function MeridiemAt(s: string, i: nat): Option<bool>
    requires i <= |s|
  {
    var j := SkipSpaces(s, i);
    if WordAt(s, j, "am") && Boundary(s, j + 2) then Some(false)
    else if WordAt(s, j, "pm") && Boundary(s, j + 2) then Some(true)
    else None
  }

  predicate DigitsAt(s: string, i: nat, n: nat) {
    i + n <= |s| && forall k :: i <= k < i + n ==> IsDigit(s[k])
  }

  function NumberAt(s: string, i: nat, n: nat): nat
    requires DigitsAt(s, i, n)
  {
    IsoFormat.Number(s[i..i + n])
  }

  /** The pattern after an hour that was read up to `i`: minutes if they are there, else none. */
  function AfterHour(s: string, i: nat, hour: nat): Option<Written>
    requires i <= |s|
  {
    if i < |s| && s[i] == ':' && DigitsAt(s, i + 1, 2) && MeridiemAt(s, i + 3).Some? then
      Some(Written(hour, NumberAt(s, i + 1, 2), MeridiemAt(s, i + 3).value))
    else if MeridiemAt(s, i).Some? then Some(Written(hour, 0, MeridiemAt(s, i).value))
    else None
  }

  /** Two digits if the rest of the pattern follows them, else one. */
  function HourAt(s: string, i: nat): Option<Written>
    requires i <= |s|
  {
    if DigitsAt(s, i, 2) && AfterHour(s, i + 2, NumberAt(s, i, 2)).Some? then AfterHour(s, i + 2, NumberAt(s, i, 2))
    else if DigitsAt(s, i, 1) then AfterHour(s, i + 1, NumberAt(s, i, 1))
    else None
  }

  /** The whole pattern at `i`, with its optional leading "at". */
  function AtTimeAt(s: string, i: nat): Option<Written>
    requires i <= |s|
  {
    var start := WordThenSpaces(s, i, "at");
    if start.Some? && HourAt(s, start.value).Some? then HourAt(s, start.value) else HourAt(s, i)
  }

  function SearchAtTime(s: string, i: nat): Option<Written>
    requires i <= |s|
    decreases |s| - i
  {
    if AtTimeAt(s, i).Some? then AtTimeAt(s, i) else if i < |s| then SearchAtTime(s, i + 1) else None
  }

  /** The search without the optional "at". */
  function SearchHour(s: string, i: nat): Option<Written>
    requires i <= |s|
    decreases |s| - i
  {
    if HourAt(s, i).Some? then HourAt(s, i) else if i < |s| then SearchHour(s, i + 1) else None
  }

  lemma {:induction false} SearchHourSkips(s: string, i: nat, j: nat)
    requires i <= j <= |s| && forall k :: i <= k < j ==> !IsDigit(s[k])
    ensures SearchHour(s, i) == SearchHour(s, j)
    decreases j - i
  {
    if i < j {
      assert !IsDigit(s[i]) && !DigitsAt(s, i, 1) && !DigitsAt(s, i, 2);
      SearchHourSkips(s, i + 1, j);
    }
  }

  /** The optional "at" never changes what the search returns. */
  lemma {:induction false} AtIsIdle(s: string, i: nat)
    requires i <= |s|
    ensures SearchAtTime(s, i) == SearchHour(s, i)
    decreases |s| - i
  {
    var start := WordThenSpaces(s, i, "at");
    if start.Some? && HourAt(s, start.value).Some? {
      var j := start.value;
      forall k | i <= k < j ensures !IsDigit(s[k]) {
        if k < i + 2 { assert Lower(s[i + (k - i)]) == "at"[k - i]; }
      }
      SearchHourSkips(s, i, j);
    } else if HourAt(s, i).None? && i < |s| {
      AtIsIdle(s, i + 1);
    }
  }

  /** 12-hour to 24-hour; `None` when the result is no time of day. */
  function ToClock(w: Written): Option<ClockTime> {
    var hour := if w.pm && w.hour != 12 then w.hour + 12 else if !w.pm && w.hour == 12 then 0 else w.hour;
    if hour <= 23 && w.minute <= 59 then Some(ClockTime(hour, w.minute)) else None
  }

  function AtTime(s: string): (r: Option<ClockTime>)
    ensures r.Some? ==> 0 <= r.value.hour <= 23 && 0 <= r.value.minute <= 59
  {
    match SearchAtTime(s, 0)
    case None => None
    case Some(w) => ToClock(w)
  }

  /** `_parse_at_time`. */
  method ParseAtTime(s: string) returns (r: Option<ClockTime>)
    ensures r == AtTime(s)
    ensures r.Some? ==> 0 <= r.value.hour <= 23 && 0 <= r.value.minute <= 59
  {
    var m := SearchAtTime(s, 0);
    if m.None? { return None; }
    var hour: int := m.value.hour;
    var minute := m.value.minute;
    if m.value.pm && hour != 12 {
      hour := hour + 12;
    } else if !m.value.pm && hour == 12 {
      hour := 0;
    }
    if !(0 <= hour <= 23 && 0 <= minute <= 59) { return None; }
    return Some(ClockTime(hour, minute));
  }

  datatype Named = Named(keyword: string, time: ClockTime)

  const TIME_OF_DAY := [
    Named("morning", ClockTime(9, 0)), Named("noon", ClockTime(12, 0)), Named("afternoon", ClockTime(14, 0)),
    Named("evening", ClockTime(18, 0)), Named("midnight", ClockTime(0, 0))]

  const DEFAULT_TIME := ClockTime(9, 0)

  /** The first keyword of the table, in table order, that the text holds; else a written time. */
  function TimeOfDayFrom(s: string, k: nat): Option<ClockTime>
    requires k <= |TIME_OF_DAY|
    decreases |TIME_OF_DAY| - k
  {
    if k == |TIME_OF_DAY| then AtTime(s)
    else if HasKeyword(s, TIME_OF_DAY[k].keyword) then Some(TIME_OF_DAY[k].time)
    else TimeOfDayFrom(s, k + 1)
  }

  function TimeOfDay(s: string): Option<ClockTime> {
    TimeOfDayFrom(s, 0)
  }

  lemma {:induction false} TimeOfDayInRange(s: string, k: nat)
    requires k <= |TIME_OF_DAY| && TimeOfDayFrom(s, k).Some?
    ensures var t := TimeOfDayFrom(s, k).value; 0 <= t.hour <= 23 && 0 <= t.minute <= 59
    decreases |TIME_OF_DAY| - k
  {
    if k < |TIME_OF_DAY| && !HasKeyword(s, TIME_OF_DAY[k].keyword) { TimeOfDayInRange(s, k + 1); }
  }

  /** `_parse_time_of_day`; every result is a time of day. */
  method ParseTimeOfDay(s: string) returns (r: Option<ClockTime>)
    ensures r == TimeOfDay(s)
    ensures r.Some? ==> 0 <= r.value.hour <= 23 && 0 <= r.value.minute <= 59
  {
    if TimeOfDay(s).Some? { TimeOfDayInRange(s, 0); }
    var k := 0;
    while k < |TIME_OF_DAY|
      invariant 0 <= k <= |TIME_OF_DAY| && TimeOfDayFrom(s, k) == TimeOfDay(s)
    {
      if HasKeyword(s, TIME_OF_DAY[k].keyword) { return Some(TIME_OF_DAY[k].time); }
      k := k + 1;
    }
    r := ParseAtTime(s);
  }

  // ---------------------------------------------------------------- durations and weekdays

  const UNITS := ["second", "seconds", "minute", "minutes", "hour", "hours", "day", "days"]

  function UnitMicros(k: nat): int {
    if k < 2 then 1000000 else if k < 4 then MINUTE_MICROS else if k < 6 then 60 * MINUTE_MICROS else DAY_MICROS
  }

  const NUMBER_WORDS := ["one", "two", "three", "four", "five", "six", "seven", "eight", "nine", "ten"]

  function WordAtEnd(s: string, i: nat, names: seq<string>, k: nat): (r: Option<nat>)
    requires i <= |s| && k <= |names|
    ensures r.Some? ==> r.value < |names|
    ensures r.Some? ==> WordAt(s, i, names[r.value]) && Boundary(s, i + |names[r.value]|)
    ensures r.None? ==> forall n :: k <= n < |names| ==> !(WordAt(s, i, names[n]) && Boundary(s, i + |names[n]|))
    decreases |names| - k
  {
    if k == |names| then None
    else if WordAt(s, i, names[k]) && Boundary(s, i + |names[k]|) then Some(k)
    else WordAtEnd(s, i, names, k + 1)
  }

  /** `WORD_NUMBERS.get` of the letters of `s` from `i` to `j`. */
  function WordNumber(s: string, i: nat, j: nat): Option<nat>
    requires i <= j <= |s|
  {
    if j - i == 1 && WordAt(s, i, "a") then Some(1)
    else if j - i == 2 && WordAt(s, i, "an") then Some(1)
    else NumberWordFrom(s, i, j, 0)
  }

  function NumberWordFrom(s: string, i: nat, j: nat, k: nat): Option<nat>
    requires i <= j <= |s| && k <= |NUMBER_WORDS|
    decreases |NUMBER_WORDS| - k
  {
    if k == |NUMBER_WORDS| then None
    else if j - i == |NUMBER_WORDS[k]| && WordAt(s, i, NUMBER_WORDS[k]) then Some(k + 1)
    else NumberWordFrom(s, i, j, k + 1)
  }

  /** A matched duration; the amount is `None` for a word that names no number. */
  datatype Duration = Duration(amount: Option<nat>, unit: nat)

  function InDurationAt(s: string, i: nat): Option<Duration>
    requires i <= |s|
  {
    var start := WordThenSpaces(s, i, "in");
    if start.None? then None
    else
      var a := start.value;
      var b := if SkipLetters(s, a) > a then SkipLetters(s, a) else SkipDigits(s, a);
      if a == b || b == |s| || !IsSpace(s[b]) then None
      else
        match WordAtEnd(s, SkipSpaces(s, b), UNITS, 0)
        case None => None
        case Some(u) =>
          Some(Duration(if SkipLetters(s, a) > a then WordNumber(s, a, b) else Some(NumberAt(s, a, b - a)), u))
  }

  function SearchInDuration(s: string, i: nat): Option<Duration>
    requires i <= |s|
    decreases |s| - i
  {
    if InDurationAt(s, i).Some? then InDurationAt(s, i)
    else if i < |s| then SearchInDuration(s, i + 1)
    else None
  }

  const WEEKDAY_NAMES := ["monday", "tuesday", "wednesday", "thursday", "friday", "saturday", "sunday"]

  function NextWeekdayAt(s: string, i: nat): (r: Option<nat>)
    requires i <= |s|
    ensures r.Some? ==> r.value < 7
  {
    var start := WordThenSpaces(s, i, "next");
    if start.None? then None else WordAtEnd(s, start.value, WEEKDAY_NAMES, 0)
  }

  function SearchNextWeekday(s: string, i: nat): (r: Option<nat>)
    requires i <= |s|
    ensures r.Some? ==> r.value < 7
    decreases |s| - i
  {
    if NextWeekdayAt(s, i).Some? then NextWeekdayAt(s, i)
    else if i < |s| then SearchNextWeekday(s, i + 1)
    else None
  }

  // ---------------------------------------------------------------- the parser

  /** No phrase, a phrase, or a phrase whose date lies past year 9999. */
  datatype Parsed = NoPhrase | Phrase(runAt: DateTime) | OverflowError

  function ApplyTime(t: DateTime, c: ClockTime): DateTime {
    t.(hour := c.hour, minute := c.minute, second := 0, micro := 0)
  }

  function OnDay(text: string, now: DateTime, days: int): Parsed
    requires Valid(now)
  {
    match Plus(now, days * DAY_MICROS)
    case None => OverflowError
    case Some(target) =>
      Phrase(ApplyTime(target, if TimeOfDay(text).Some? then TimeOfDay(text).value else DEFAULT_TIME))
  }

  /** What `try_parse_once_schedule` computes from a text and the current local time. */
  function Parse(text: string, now: DateTime): Parsed
    requires Valid(now)
  {
    if IsRecurring(text) then NoPhrase
    else
      match SearchInDuration(text, 0)
      case Some(d) =>
        (if d.amount.None? then NoPhrase
         else
           match Plus(now, d.amount.value * UnitMicros(d.unit))
           case None => OverflowError
           case Some(t) => Phrase(t))
      case None =>
        if HasKeyword(text, "tomorrow") then OnDay(text, now, 1)
        else
          match SearchNextWeekday(text, 0)
          case None => NoPhrase
          case Some(w) => OnDay(text, now, DaysAhead(now, w))
  }

  // ---------------------------------------------------------------- what a phrase gives

  lemma SetClockIsLater(now: DateTime, target: DateTime, c: ClockTime, days: int)
    requires Valid(now) && Valid(target) && days >= 1
    requires Wall(target) == Wall(now) + days * DAY_MICROS
    requires 0 <= c.hour <= 23 && 0 <= c.minute <= 59
    ensures var t := ApplyTime(target, c);
            Valid(t) && Wall(now) < Wall(t) && t.day == now.day + days
  {
    MovedByDays(now, target, days);
    ClockRange(now);
    ClockRange(ApplyTime(target, c));
  }

  lemma OnDayIsLater(text: string, now: DateTime, days: int)
    requires Valid(now) && days >= 1 && OnDay(text, now, days).Phrase?
    ensures var t := OnDay(text, now, days).runAt;
            && Valid(t) && Wall(now) < Wall(t)
            && t.day == now.day + days
            && t.day == Plus(now, days * DAY_MICROS).value.day
            && t.second == 0 && t.micro == 0
  {
    if TimeOfDay(text).Some? { TimeOfDayInRange(text, 0); }
    SetClockIsLater(now, Plus(now, days * DAY_MICROS).value,
                    if TimeOfDay(text).Some? then TimeOfDay(text).value else DEFAULT_TIME, days);
  }

  /** The text is a duration of zero. */
  predicate ZeroDuration(text: string) {
    SearchInDuration(text, 0).Some? && SearchInDuration(text, 0).value.amount == Some(0)
  }

  /** A parsed phrase is never before now on the zone's wall clock, and it equals now exactly for
      durations of zero. */
  lemma PhraseIsNotPast(text: string, now: DateTime)
    requires Valid(now)
    ensures var p := Parse(text, now);
            p.Phrase? ==>
              && Valid(p.runAt) && Wall(now) <= Wall(p.runAt)
              && (Wall(p.runAt) == Wall(now) <==> ZeroDuration(text))
  {
    var d := SearchInDuration(text, 0);
    if d.Some? && d.value.amount.Some? {
      var n, u := d.value.amount.value, UnitMicros(d.value.unit);
      assert n > 0 ==> n * u > 0;
    } else if d.None? && !IsRecurring(text) {
      var w := SearchNextWeekday(text, 0);
      if HasKeyword(text, "tomorrow") {
        if OnDay(text, now, 1).Phrase? { OnDayIsLater(text, now, 1); }
      } else if w.Some? {
        DaysAheadIsLeast(now, w.value);
        if OnDay(text, now, DaysAhead(now, w.value)).Phrase? { OnDayIsLater(text, now, DaysAhead(now, w.value)); }
      }
    }
  }

  /** "next <weekday>" lands on that weekday, at the least positive distance, on the very date the
      prompt loader's `_next_weekday` gives. */
  lemma NextWeekdayLands(text: string, now: DateTime)
    requires Valid(now) && !IsRecurring(text) && SearchInDuration(text, 0).None?
    requires !HasKeyword(text, "tomorrow") && SearchNextWeekday(text, 0).Some?
    ensures var w := SearchNextWeekday(text, 0).value;
            var loader := Plus(now, DaysAhead(now, w) * DAY_MICROS);  // see Weekdays.NextWeekday
            var p := Parse(text, now);
            && (p.OverflowError? <==> loader.None?)
            && (p.Phrase? ==>
                  && p.runAt.day == loader.value.day && DayOfWeek(p.runAt.day) == w
                  && 1 <= p.runAt.day - now.day <= 7
                  && forall n :: now.day < n < p.runAt.day ==> DayOfWeek(n) != w)
  {
    hide IsRecurring, SearchInDuration, SearchNextWeekday, HasKeyword, TimeOfDay;
    var w := SearchNextWeekday(text, 0).value;
    var days := DaysAhead(now, w);
    assert Parse(text, now) == OnDay(text, now, days);
    DaysAheadIsLeast(now, w);
    if Parse(text, now).Phrase? { OnDayIsLater(text, now, days); }
  }

  /** The date-time on the day `days` ahead at the time of day the text names. */
  method TargetOnDay(text: string, localized: DateTime, days: int) returns (r: Parsed)
    requires Valid(localized)
    ensures r == OnDay(text, localized, days)
    ensures r.OverflowError? <==> !(MIN_WALL <= Wall(localized) + days * DAY_MICROS < END_WALL)
    ensures r.Phrase? && days >= 1 ==>
      && Valid(r.runAt) && Wall(localized) < Wall(r.runAt)
      && r.runAt.day == localized.day + days && r.runAt.second == 0 && r.runAt.micro == 0
  {
    if days >= 1 && OnDay(text, localized, days).Phrase? { OnDayIsLater(text, localized, days); }
    var target := Plus(localized, days * DAY_MICROS);
    if target.None? { return OverflowError; }
    var hourMinute := ParseTimeOfDay(text);
    return Phrase(ApplyTime(target.value, if hourMinute.Some? then hourMinute.value else DEFAULT_TIME));
  }

  /** `try_parse_once_schedule`. */
  method TryParseOnceSchedule(text: string, localized: DateTime) returns (r: Parsed)
    requires Valid(localized)
    ensures r == Parse(text, localized)
    ensures r.Phrase? ==> Valid(r.runAt) && Wall(localized) <= Wall(r.runAt)
  {
    hide IsRecurring, HasKeyword, TimeOfDay, SearchInDuration, SearchNextWeekday, UnitMicros;
    PhraseIsNotPast(text, localized);
    if IsRecurring(text) { return NoPhrase; }
    var inMatch := SearchInDuration(text, 0);
    if inMatch.Some? {
      var amount := inMatch.value.amount;
      if amount.None? { return NoPhrase; }
      var runAt := Plus(localized, amount.value * UnitMicros(inMatch.value.unit));
      return if runAt.Some? then Phrase(runAt.value) else OverflowError;
    }
    if HasKeyword(text, "tomorrow") {
      r := TargetOnDay(text, localized, 1);
      return;
    }
    var nextWeekday := SearchNextWeekday(text, 0);
    if nextWeekday.None? { return NoPhrase; }
    var daysAhead := nextWeekday.value - DayOfWeek(localized.day);
    if daysAhead <= 0 {
      daysAhead := daysAhead + 7;
    }
    r := TargetOnDay(text, localized, daysAhead);
  }

  // ---------------------------------------------------------------- printing a time, then scanning

  function Hour12(h: nat): nat {
    if h % 12 == 0 then 12 else h % 12
  }

  /** The hour with one digit or two, as people write it. */
  function HourText(h: nat): string
    requires h < 24
  {
    if Hour12(h) < 10 then IsoFormat.Pad(Hour12(h), 1) else IsoFormat.Pad(Hour12(h), 2)
  }

  function Meridiem(h: nat): string {
    if h < 12 then "am" else "pm"
  }

  /** A 24-hour time in 12-hour form, with the white space `gap` before the meridiem. */
  function Print12(h: nat, m: nat, gap: string): string
    requires h < 24 && m < 60
  {
    HourText(h) + (":" + (IsoFormat.Pad(m, 2) + (gap + Meridiem(h))))
  }

  lemma {:induction false} SkipSpacesTo(s: string, i: nat, j: nat)
    requires i <= j <= |s| && (forall k :: i <= k < j ==> IsSpace(s[k])) && (j < |s| ==> !IsSpace(s[j]))
    ensures SkipSpaces(s, i) == j
    decreases j - i
  {
    if i < j { SkipSpacesTo(s, i + 1, j); }
  }

  /** The text holds a printed time from `i`: hour to `a`, minutes, white space, meridiem at `j`. */
  ghost predicate TimeAt(s: string, i: nat, a: nat, j: nat, h: nat, m: nat)
    requires h < 24 && m < 60
  {
    && i < a && a + 3 <= j && j + 2 <= |s|
    && s[i..a] == HourText(h) && s[a] == ':' && s[a + 1..a + 3] == IsoFormat.Pad(m, 2)
    && (forall k :: a + 3 <= k < j ==> IsSpace(s[k]))
    && s[j..j + 2] == Meridiem(h)
    && (j + 2 < |s| ==> !IsWord(s[j + 2]))
  }

  lemma MeridiemFound(s: string, i: nat, a: nat, j: nat, h: nat, m: nat)
    requires h < 24 && m < 60 && TimeAt(s, i, a, j, h, m)
    ensures MeridiemAt(s, a + 3) == Some(h >= 12)
  {
    var t := s[j..j + 2];
    assert s[j] == t[0] && s[j + 1] == t[1];
    SkipSpacesTo(s, a + 3, j);
    assert Boundary(s, j + 2);
    if h >= 12 {
      assert Lower(s[j + 0]) == 'p' && "am"[0] == 'a';
      assert !WordAt(s, j, "am") && WordAt(s, j, "pm");
    } else {
      assert WordAt(s, j, "am");
    }
  }

  lemma HourNumber(h: nat)
    requires h < 24
    ensures IsoFormat.AllDigits(HourText(h)) && IsoFormat.Number(HourText(h)) == Hour12(h)
    ensures 1 <= |HourText(h)| <= 2
  {
    IsoFormat.Powers();
    assert IsoFormat.Power10(1) == 10;
    if Hour12(h) < 10 { IsoFormat.NumberOfPad(Hour12(h), 1); } else { IsoFormat.NumberOfPad(Hour12(h), 2); }
  }

  lemma MinutesFound(s: string, i: nat, a: nat, j: nat, h: nat, m: nat, hour: nat)
    requires h < 24 && m < 60 && TimeAt(s, i, a, j, h, m)
    ensures AfterHour(s, a, hour) == Some(Written(hour, m, h >= 12))
  {
    MeridiemFound(s, i, a, j, h, m);
    var t := s[a + 1..a + 3];
    IsoFormat.Powers();
    IsoFormat.NumberOfPad(m, 2);
    assert IsoFormat.AllDigits(t);
    assert s[a + 1] == t[0] && s[a + 2] == t[1];
    assert DigitsAt(s, a + 1, 2);
  }

  lemma HourFound(s: string, i: nat, a: nat, j: nat, h: nat, m: nat)
    requires h < 24 && m < 60 && TimeAt(s, i, a, j, h, m)
    ensures HourAt(s, i) == Some(Written(Hour12(h), m, h >= 12))
  {
    HourNumber(h);
    var t := s[i..a];
    assert forall k :: i <= k < a ==> s[k] == t[k - i];
    assert DigitsAt(s, i, a - i) && NumberAt(s, i, a - i) == Hour12(h);
    MinutesFound(s, i, a, j, h, m, Hour12(h));
    if a == i + 1 { assert !IsDigit(s[i + 1]) && !DigitsAt(s, i, 2); }
  }

  lemma ClockOfWritten(h: nat, m: nat)
    requires h < 24 && m < 60
    ensures ToClock(Written(Hour12(h), m, h >= 12)) == Some(ClockTime(h, m))
  {}

  /** Hour text `a`, ":", minutes `b`, white space `g` and meridiem `t` stand from `i` in `s`. */
  ghost predicate PartsStand(s: string, i: nat, a: string, b: string, g: string, t: string) {
    var c, j := i + |a|, i + |a| + 3 + |g|;
    && |b| == 2 && |t| == 2 && j + 2 <= |s|
    && s[i..c] == a && s[c] == ':' && s[c + 1..c + 3] == b
    && (forall k :: c + 3 <= k < j ==> s[k] == g[k - c - 3])
    && s[j..j + 2] == t
  }

  lemma PartsStandAt(p: string, a: string, b: string, g: string, t: string, r: string)
    requires |b| == 2 && |t| == 2
    ensures var s := p + (a + (":" + (b + (g + t)))) + r;
            var e := |p| + |a| + 5 + |g|;
            |s| == e + |r| && PartsStand(s, |p|, a, b, g, t) && (r != "" ==> s[e] == r[0])
  {
    var w4 := g + t;
    var w3 := b + w4;
    var w2 := ":" + w3;
    var w1 := a + w2;
    var s := p + w1 + r;
    var c := |p| + |a|;
    assert s[|p|..|p| + |w1|] == w1;
    assert w1[|a|..] == w2;
    assert s[c..c + |w2|] == w2;
    assert s[c + 1..c + |w2|] == w3;
    assert w3[2..] == w4;
    assert s[c + 3..c + |w2|] == w4;
    assert forall k :: c + 3 <= k < c + |w2| ==> s[k] == w4[k - c - 3];
  }

  lemma PartsAreTime(s: string, i: nat, h: nat, m: nat, gap: string)
    requires h < 24 && m < 60 && (forall k :: 0 <= k < |gap| ==> IsSpace(gap[k]))
    requires PartsStand(s, i, HourText(h), IsoFormat.Pad(m, 2), gap, Meridiem(h))
    requires var e := i + |HourText(h)| + 5 + |gap|; e < |s| ==> !IsWord(s[e])
    ensures var a := i + |HourText(h)|; TimeAt(s, i, a, a + 3 + |gap|, h, m)
  {
    HourNumber(h);
    hide IsoFormat.Pad, HourText, IsSpace, IsWord, Meridiem;
  }

  lemma PrintedStandsAt(prefix: string, h: nat, m: nat, gap: string, rest: string, s: string)
    requires h < 24 && m < 60 && (forall k :: 0 <= k < |gap| ==> IsSpace(gap[k]))
    requires s == prefix + Print12(h, m, gap) + rest
    requires rest != "" ==> !IsWord(rest[0])
    ensures var a := |prefix| + |HourText(h)|;
            TimeAt(s, |prefix|, a, a + 3 + |gap|, h, m)
  {
    PartsStandAt(prefix, HourText(h), IsoFormat.Pad(m, 2), gap, Meridiem(h), rest);
    hide PartsStand, TimeAt, IsSpace, IsWord, HourText, IsoFormat.Pad;
    PartsAreTime(s, |prefix|, h, m, gap);
  }

  /** The scan of a text with no digit before a printed time reads that time. */
  lemma ScanReadsTimeAt(s: string, i: nat, a: nat, j: nat, h: nat, m: nat)
    requires h < 24 && m < 60 && TimeAt(s, i, a, j, h, m)
    requires forall k :: 0 <= k < i ==> !IsDigit(s[k])
    ensures AtTime(s) == Some(ClockTime(h, m))
  {
    AtIsIdle(s, 0);
    SearchHourSkips(s, 0, i);
    HourFound(s, i, a, j, h, m);
    ClockOfWritten(h, m);
  }

  predicate NamesNoTimeOfDay(s: string) {
    forall k :: 0 <= k < |TIME_OF_DAY| ==> !HasKeyword(s, TIME_OF_DAY[k].keyword)
  }

  lemma {:induction false} NoKeyword(s: string, k: nat)
    requires k <= |TIME_OF_DAY| && NamesNoTimeOfDay(s)
    ensures TimeOfDayFrom(s, k) == AtTime(s)
    decreases |TIME_OF_DAY| - k
  {
    if k < |TIME_OF_DAY| { NoKeyword(s, k + 1); }
  }

  lemma PrefixHasNoDigit(prefix: string, s: string)
    requires prefix <= s && forall k :: 0 <= k < |prefix| ==> !IsDigit(prefix[k])
    ensures forall k :: 0 <= k < |prefix| ==> !IsDigit(s[k])
  {
    assert forall k :: 0 <= k < |prefix| ==> s[k] == prefix[k];
  }

  /** Any 24-hour time written in 12-hour form, after any text without digits and before any text
      that does not continue the word, is read back as the original hour and minute, unless a
      time-of-day keyword stands somewhere. */
  lemma ScanReadsPrintedTime(prefix: string, h: nat, m: nat, gap: string, rest: string, s: string)
    requires h < 24 && m < 60
    requires s == prefix + Print12(h, m, gap) + rest
    requires forall k :: 0 <= k < |prefix| ==> !IsDigit(prefix[k])
    requires forall k :: 0 <= k < |gap| ==> IsSpace(gap[k])
    requires rest != "" ==> !IsWord(rest[0])
    requires NamesNoTimeOfDay(s)
    ensures TimeOfDay(s) == Some(ClockTime(h, m))
  {
    hide NamesNoTimeOfDay, TimeAt, HourText, HasKeyword;
    PrintedStandsAt(prefix, h, m, gap, rest, s);
    PrefixHasNoDigit(prefix, s);
    var a := |prefix| + |HourText(h)|;
    ScanReadsTimeAt(s, |prefix|, a, a + 3 + |gap|, h, m);
    NoKeyword(s, 0);
  }
}
