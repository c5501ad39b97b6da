/** The eight placeholders of the trigger-parsing prompt and the values they get. */
module PromptPlaceholders {
  import opened Options
  import opened Text
  import opened DateTimes
  import opened Weekdays
  import opened Prompts
  import Calendar
  import IsoFormat

  // ---------------------------------------------------------------- the names

  /** The place of the zone name among the eight. */
  const DEFAULT_TIMEZONE := 1

  /** The marker of each placeholder, in the order of the passes. */
  function Name(k: nat): string
    requires k < 8
  {
    match k
    case 0 => "[INJECT_CURRENT_ISO_DATETIME]"
    case 1 => "[INJECT_DEFAULT_TIMEZONE]"
    case 2 => "[INJECT_CURRENT_DATE]"
    case 3 => "[INJECT_TOMORROW_MORNING_ISO]"
    case 4 => "[INJECT_TOMORROW_0815_ISO]"
    case 5 => "[INJECT_NEXT_FRIDAY_5PM_ISO]"
    case 6 => "[INJECT_ONE_HOUR_LATER_ISO]"
    case _ => "[INJECT_NEXT_TUESDAY_9AM_ISO]"
  }

  predicate NameChar(c: char) {
    'A' <= c <= 'Z' || '0' <= c <= '9' || c == '_'
  }

  /** "[INJECT_", some name characters, "]". */
  predicate NameShape(s: string) {
    && INJECT <= s && |s| > |INJECT| + 1 && s[|s| - 1] == ']'
    && forall k :: |INJECT| <= k < |s| - 1 ==> NameChar(s[k])
  }

  lemma Names01()
    ensures NameShape(Name(0)) && NameShape(Name(1))
  {}

  lemma Names23()
    ensures NameShape(Name(2)) && NameShape(Name(3))
  {}

  lemma Names45()
    ensures NameShape(Name(4)) && NameShape(Name(5))
  {}

  lemma Names67()
    ensures NameShape(Name(6)) && NameShape(Name(7))
  {}

  /** Their lengths differ, or their first letters do. */
  lemma NamesDiffer(i: nat, j: nat)
    requires i < j < 8
    ensures Name(i) != Name(j)
  {
    assert |Name(i)| != |Name(j)| || Name(i)[|INJECT|] != Name(j)[|INJECT|];
  }

  /** What the theorems need of a name. */
  predicate IsName(s: string) {
    INJECT <= s && IsMarker(s) && Lacks('-', s)
  }

  lemma ShapeIsName(s: string)
    requires NameShape(s)
    ensures IsName(s)
  {
    assert s[..|INJECT|] == INJECT;
    assert forall k :: 0 <= k < |INJECT| ==> s[k] == INJECT[k];
    assert forall k :: 0 < k < |INJECT| ==> INJECT[k] != '[' && INJECT[k] != ']' && INJECT[k] != '-';
  }

  lemma NamesHold()
    ensures forall k :: 0 <= k < 8 ==> IsName(Name(k))
  {
    Names01();
    Names23();
    Names45();
    Names67();
    hide Name;
    forall k | 0 <= k < 8 ensures IsName(Name(k)) { ShapeIsName(Name(k)); }
  }

  // ---------------------------------------------------------------- the values

  /** A time zone: its name and its UTC offset, in minutes, at each wall-clock time. */
  datatype Zone = Zone(name: string, utcOffset: int -> int)

  ghost predicate ValidZone(z: Zone) {
    forall w :: -1440 < z.utcOffset(w) < 1440
  }

  /** A date or a date-time: without brackets, a digit first, a '-' somewhere. */
  predicate IsStamp(v: string) {
    Bracketless(v) && |v| > 4 && IsoFormat.IsDigit(v[0]) && v[4] == '-'
  }

  /** `isoformat` of a wall-clock time in the zone. */
  function IsoIn(t: DateTime, z: Zone): (v: string)
    requires Valid(t) && ValidZone(z)
    ensures IsStamp(v)
  {
    var local := t.(offset := Some(z.utcOffset(Wall(t))));
    IsoFormat.PrintedChars(local);
    IsoFormat.Print(local)
  }

  /** `isoformat` of a date. */
  function IsoDate(day: int): (v: string)
    requires 1 <= day <= MAX_ORDINAL
    ensures IsStamp(v)
  {
    IsoFormat.PrintedDateChars(Calendar.FromOrdinal(day));
    IsoFormat.PrintDate(Calendar.FromOrdinal(day))
  }

  function AtTime(t: DateTime, hour: int, minute: int): (r: DateTime)
    requires Valid(t) && 0 <= hour < 24 && 0 <= minute < 60
    ensures Valid(r)
  {
    t.(hour := hour, minute := minute, second := 0, micro := 0)
  }

  /** The wall-clock times the values are made of. */
  datatype Moments = Moments(
    now: DateTime, tomorrow: DateTime, nextFriday: DateTime, hourLater: DateTime, nextTuesday: DateTime)

  predicate ValidMoments(m: Moments) {
    Valid(m.now) && Valid(m.tomorrow) && Valid(m.nextFriday) && Valid(m.hourLater) && Valid(m.nextTuesday)
  }

  /** `None` is an overflow past year 9999. */
  function MomentsFrom(now: DateTime): (m: Option<Moments>)
    requires Valid(now)
    ensures m.Some? ==> ValidMoments(m.value)
  {
    var tomorrow := Plus(now, DAY_MICROS);
    var friday := Plus(now, DaysAhead(now, 4) * DAY_MICROS);
    var later := Plus(now, 60 * MINUTE_MICROS);
    var tuesday := Plus(now, DaysAhead(now, 1) * DAY_MICROS);
    if tomorrow.Some? && friday.Some? && later.Some? && tuesday.Some?
    then Some(Moments(now, tomorrow.value, friday.value, later.value, tuesday.value))
    else None
  }

  /** The values, in the order of the names. */
  function Values(m: Moments, z: Zone): (vs: seq<string>)
    requires ValidMoments(m) && ValidZone(z)
    ensures |vs| == 8
  {
    [IsoIn(m.now, z),
     z.name,
     IsoDate(m.now.day),
     IsoIn(AtTime(m.tomorrow, 9, 0), z),
     IsoIn(AtTime(m.tomorrow, 8, 15), z),
     IsoIn(AtTime(m.nextFriday, 17, 0), z),
     IsoIn(m.hourLater, z),
     IsoIn(AtTime(m.nextTuesday, 9, 0), z)]
  }

  lemma ValuesAreStamps(m: Moments, z: Zone)
    requires ValidMoments(m) && ValidZone(z)
    ensures var vs := Values(m, z); vs[1] == z.name && forall k :: 0 <= k < 8 && k != 1 ==> IsStamp(vs[k])
  {
    hide IsStamp, IsoIn, IsoDate;
  }

  /** `build_trigger_parse_placeholders`. */
  function BuildPlaceholders(now: DateTime, z: Zone): Option<seq<Placeholder>>
    requires Valid(now) && ValidZone(z)
  {
    match MomentsFrom(now)
    case None => None
    case Some(m) => Some(seq(8, k requires 0 <= k < 8 => Placeholder(Name(k), Values(m, z)[k])))
  }

  // ---------------------------------------------------------------- what the values say

  /** The value of this marker reads back as the wall-clock time `wall`, with the zone's offset there. */
  ghost predicate ReadsBack(ps: seq<Placeholder>, marker: string, z: Zone, wall: int) {
    exists v :: Placeholder(marker, v) in ps && SaysTime(v, z, wall)
  }

  predicate SaysTime(v: string, z: Zone, wall: int) {
    && IsoFormat.Parse(v).Some?
    && Wall(IsoFormat.Parse(v).value) == wall && IsoFormat.Parse(v).value.offset == Some(z.utcOffset(wall))
  }

  lemma IsoInSays(t: DateTime, z: Zone)
    requires Valid(t) && ValidZone(z)
    ensures SaysTime(IsoIn(t, z), z, Wall(t))
  {
    IsoFormat.ParsePrint(t.(offset := Some(z.utcOffset(Wall(t)))));
  }

  lemma PlaceholderIs(now: DateTime, z: Zone, m: Moments, k: nat)
    requires Valid(now) && ValidZone(z) && MomentsFrom(now) == Some(m) && k < 8
    ensures Placeholder(Name(k), Values(m, z)[k]) in BuildPlaceholders(now, z).value
  {
    hide Values, Name, MomentsFrom;
    assert BuildPlaceholders(now, z).value[k] == Placeholder(Name(k), Values(m, z)[k]);
  }

  lemma ReadsBackAt(now: DateTime, z: Zone, m: Moments, k: nat, t: DateTime)
    requires Valid(now) && ValidZone(z) && MomentsFrom(now) == Some(m) && k < 8
    requires Valid(t) && Values(m, z)[k] == IsoIn(t, z)
    ensures ReadsBack(BuildPlaceholders(now, z).value, Name(k), z, Wall(t))
  {
    hide Values, Name, MomentsFrom, SaysTime, BuildPlaceholders, IsoIn;
    PlaceholderIs(now, z, m, k);
    IsoInSays(t, z);
  }

  lemma AtTimeWall(t: DateTime, hour: int, minute: int)
    requires Valid(t) && 0 <= hour < 24 && 0 <= minute < 60
    ensures Wall(AtTime(t, hour, minute)) == (t.day * 86400 + hour * 3600 + minute * 60) * 1000000
  {}

  /** Whole days ahead stay in year 9999 if the date does. */
  lemma DaysFit(now: DateTime, days: int)
    requires Valid(now) && days >= 1
    ensures Plus(now, days * DAY_MICROS).Some? <==> now.day + days <= MAX_ORDINAL
    ensures Plus(now, days * DAY_MICROS).Some? ==> Plus(now, days * DAY_MICROS).value.day == now.day + days
  {
    ClockRange(now);
    if Plus(now, days * DAY_MICROS).Some? { MovedByDays(now, Plus(now, days * DAY_MICROS).value, days); }
  }

  /** The values cannot be made from 9999-12-28, the last Tuesday of the calendar, on. */
  lemma PlaceholdersFailIff(now: DateTime, z: Zone)
    requires Valid(now) && ValidZone(z)
    ensures BuildPlaceholders(now, z).None? <==> now.day >= 3652056
  {
    DaysAheadIsLeast(now, 4);
    DaysAheadIsLeast(now, 1);
    DaysFit(now, 1);
    DaysFit(now, DaysAhead(now, 4));
    DaysFit(now, DaysAhead(now, 1));
    ClockRange(now);
    hide Plus, Values, Name;
  }

  lemma MomentsAre(now: DateTime, m: Moments)
    requires Valid(now) && MomentsFrom(now) == Some(m)
    ensures m.now == now && m.tomorrow.day == now.day + 1 && Wall(m.hourLater) == Wall(now) + 3600 * 1000000
    ensures now.day < m.nextFriday.day <= now.day + 7 && DayOfWeek(m.nextFriday.day) == 4
    ensures now.day < m.nextTuesday.day <= now.day + 7 && DayOfWeek(m.nextTuesday.day) == 1
  {
    DaysAheadIsLeast(now, 4);
    DaysAheadIsLeast(now, 1);
    DaysFit(now, 1);
    DaysFit(now, DaysAhead(now, 4));
    DaysFit(now, DaysAhead(now, 1));
    hide DaysAhead, DayOfWeek, Wall;
  }

  lemma IsoDateSays(day: int)
    requires 1 <= day <= MAX_ORDINAL
    ensures IsoFormat.ParseDate(IsoDate(day)) == Some(Calendar.FromOrdinal(day))
  {
    hide IsoFormat.ParseDate, IsoFormat.PrintDate;
    IsoFormat.ParsePrintedDate(Calendar.FromOrdinal(day));
  }

  lemma ValuesAre(m: Moments, z: Zone)
    requires ValidMoments(m) && ValidZone(z)
    ensures var vs := Values(m, z);
            && vs[0] == IsoIn(m.now, z) && vs[1] == z.name && vs[2] == IsoDate(m.now.day)
            && vs[3] == IsoIn(AtTime(m.tomorrow, 9, 0), z) && vs[4] == IsoIn(AtTime(m.tomorrow, 8, 15), z)
            && vs[5] == IsoIn(AtTime(m.nextFriday, 17, 0), z) && vs[6] == IsoIn(m.hourLater, z)
            && vs[7] == IsoIn(AtTime(m.nextTuesday, 9, 0), z)
  {
    hide IsoIn, IsoDate, AtTime;
  }

  lemma DateReadsBack(now: DateTime, z: Zone, m: Moments)
    requires Valid(now) && ValidZone(z) && MomentsFrom(now) == Some(m)
    ensures exists v :: Placeholder(Name(2), v) in BuildPlaceholders(now, z).value
              && IsoFormat.ParseDate(v) == Some(Calendar.FromOrdinal(now.day))
  {
    hide IsoFormat.ParseDate, BuildPlaceholders, Name, Values, IsoDate, MomentsFrom;
    PlaceholderIs(now, z, m, 2);
    MomentsAre(now, m);
    ValuesAre(m, z);
    IsoDateSays(now.day);
  }

  lemma ValuesByPlace(now: DateTime, z: Zone, m: Moments)
    requires Valid(now) && ValidZone(z) && MomentsFrom(now) == Some(m)
    ensures var ps := BuildPlaceholders(now, z).value;
            && ReadsBack(ps, Name(0), z, Wall(now))
            && Placeholder(Name(1), z.name) in ps
            && ReadsBack(ps, Name(3), z, ((now.day + 1) * 86400 + 9 * 3600) * 1000000)
            && ReadsBack(ps, Name(4), z, ((now.day + 1) * 86400 + 8 * 3600 + 15 * 60) * 1000000)
            && ReadsBack(ps, Name(5), z, (m.nextFriday.day * 86400 + 17 * 3600) * 1000000)
            && ReadsBack(ps, Name(6), z, Wall(now) + 3600 * 1000000)
            && ReadsBack(ps, Name(7), z, (m.nextTuesday.day * 86400 + 9 * 3600) * 1000000)
  {
    hide Name;
    MomentsAre(now, m);
    ValuesAre(m, z);
    hide MomentsFrom, Wall, DayOfWeek, ReadsBack, BuildPlaceholders, IsoIn, IsoDate, AtTime, Values;
    ReadsBackAt(now, z, m, 0, m.now);
    PlaceholderIs(now, z, m, 1);
    AtTimeWall(m.tomorrow, 9, 0);
    ReadsBackAt(now, z, m, 3, AtTime(m.tomorrow, 9, 0));
    AtTimeWall(m.tomorrow, 8, 15);
    ReadsBackAt(now, z, m, 4, AtTime(m.tomorrow, 8, 15));
    AtTimeWall(m.nextFriday, 17, 0);
    ReadsBackAt(now, z, m, 5, AtTime(m.nextFriday, 17, 0));
    ReadsBackAt(now, z, m, 6, m.hourLater);
    AtTimeWall(m.nextTuesday, 9, 0);
    ReadsBackAt(now, z, m, 7, AtTime(m.nextTuesday, 9, 0));
  }

  lemma NameTexts()
    ensures Name(0) == "[INJECT_CURRENT_ISO_DATETIME]" && Name(1) == "[INJECT_DEFAULT_TIMEZONE]"
    ensures Name(2) == "[INJECT_CURRENT_DATE]" && Name(3) == "[INJECT_TOMORROW_MORNING_ISO]"
    ensures Name(4) == "[INJECT_TOMORROW_0815_ISO]" && Name(5) == "[INJECT_NEXT_FRIDAY_5PM_ISO]"
    ensures Name(6) == "[INJECT_ONE_HOUR_LATER_ISO]" && Name(7) == "[INJECT_NEXT_TUESDAY_9AM_ISO]"
  {}

  /** Each marker gets what its name says, read back from the text that is put in its place: the times
      of now, tomorrow and an hour later. */
  lemma PlaceholderValues(now: DateTime, z: Zone)
    requires Valid(now) && ValidZone(z) && BuildPlaceholders(now, z).Some?
    ensures var ps := BuildPlaceholders(now, z).value;
            && ReadsBack(ps, "[INJECT_CURRENT_ISO_DATETIME]", z, Wall(now))
            && ReadsBack(ps, "[INJECT_TOMORROW_MORNING_ISO]", z, ((now.day + 1) * 86400 + 9 * 3600) * 1000000)
            && ReadsBack(ps, "[INJECT_TOMORROW_0815_ISO]", z, ((now.day + 1) * 86400 + 8 * 3600 + 15 * 60) * 1000000)
            && ReadsBack(ps, "[INJECT_ONE_HOUR_LATER_ISO]", z, Wall(now) + 3600 * 1000000)
  {
    hide Name, ReadsBack, BuildPlaceholders, DayOfWeek, Wall, MomentsFrom;
    var m := MomentsOf(now, z);
    ValuesByPlace(now, z, m);
    NameTexts();
  }

  /** The zone and the date. */
  lemma ZoneAndDateValues(now: DateTime, z: Zone)
    requires Valid(now) && ValidZone(z) && BuildPlaceholders(now, z).Some?
    ensures var ps := BuildPlaceholders(now, z).value;
            && Placeholder("[INJECT_DEFAULT_TIMEZONE]", z.name) in ps
            && exists v :: Placeholder("[INJECT_CURRENT_DATE]", v) in ps
                 && IsoFormat.ParseDate(v) == Some(Calendar.FromOrdinal(now.day))
  {
    hide Name, ReadsBack, BuildPlaceholders, DayOfWeek, Wall, MomentsFrom, IsoFormat.ParseDate;
    var m := MomentsOf(now, z);
    ValuesByPlace(now, z, m);
    DateReadsBack(now, z, m);
    NameTexts();
  }

  /** The next Friday, 4, at 17:00 and the next Tuesday, 1, at 9:00, each one to seven days ahead. */
  lemma WeekdayValues(now: DateTime, z: Zone) returns (friday: int, tuesday: int)
    requires Valid(now) && ValidZone(z) && BuildPlaceholders(now, z).Some?
    ensures var ps := BuildPlaceholders(now, z).value;
            && ReadsBack(ps, "[INJECT_NEXT_FRIDAY_5PM_ISO]", z, (friday * 86400 + 17 * 3600) * 1000000)
            && ReadsBack(ps, "[INJECT_NEXT_TUESDAY_9AM_ISO]", z, (tuesday * 86400 + 9 * 3600) * 1000000)
    ensures now.day < friday <= now.day + 7 && DayOfWeek(friday) == 4
    ensures now.day < tuesday <= now.day + 7 && DayOfWeek(tuesday) == 1
  {
    hide Name, ReadsBack, BuildPlaceholders, DayOfWeek, Wall, MomentsFrom;
    var m := MomentsOf(now, z);
    friday, tuesday := m.nextFriday.day, m.nextTuesday.day;
    MomentsAre(now, m);
    ValuesByPlace(now, z, m);
    NameTexts();
  }

  lemma MomentsOf(now: DateTime, z: Zone) returns (m: Moments)
    requires Valid(now) && ValidZone(z) && BuildPlaceholders(now, z).Some?
    ensures MomentsFrom(now) == Some(m)
  {
    m := MomentsFrom(now).value;
  }

  // ---------------------------------------------------------------- the passes

  lemma StampIsClear(v: string, name: string)
    requires IsStamp(v) && IsName(name)
    ensures !Within(v, name) && !Completes(v)
  {
    forall i | 0 <= i <= |name| ensures !(v <= name[i..]) {
      if i + 4 < |name| { assert name[i..][4] == name[i + 4]; }
    }
    forall i | 0 <= i <= |INJECT| ensures !(v <= INJECT[i..]) {
      if i + 4 < |INJECT| { assert INJECT[i..][4] == INJECT[i + 4]; }
    }
    forall k | 1 <= k < |INJECT| ensures !(INJECT[k..] <= v) {
      assert !IsoFormat.IsDigit(INJECT[k..][0]);
    }
  }

  /** Every value but the zone name is a date or a date-time. */
  predicate Shape(ps: seq<Placeholder>, zoneName: string) {
    && |ps| == 8
    && (forall k :: 0 <= k < 8 ==> ps[k].marker == Name(k))
    && (forall k :: 0 <= k < 8 && k != DEFAULT_TIMEZONE ==> IsStamp(ps[k].value))
    && ps[DEFAULT_TIMEZONE].value == zoneName
  }

  lemma BuiltShape(now: DateTime, z: Zone)
    requires Valid(now) && ValidZone(z) && BuildPlaceholders(now, z).Some?
    ensures Shape(BuildPlaceholders(now, z).value, z.name)
  {
    hide Values, Name, IsStamp, MomentsFrom;
    ValuesAreStamps(MomentsFrom(now).value, z);
  }

  lemma ShapeIsWellFormed(ps: seq<Placeholder>, zoneName: string)
    requires Shape(ps, zoneName)
    ensures WellFormed(ps) && AllInject(ps)
    ensures Bracketless(zoneName) ==> BracketlessValues(ps)
  {
    NamesHold();
    forall i, j | 0 <= i < j < 8 ensures ps[i].marker != ps[j].marker { NamesDiffer(i, j); }
    hide Name;
  }

  lemma BuiltIsWellFormed(now: DateTime, z: Zone)
    requires Valid(now) && ValidZone(z) && BuildPlaceholders(now, z).Some?
    ensures WellFormed(BuildPlaceholders(now, z).value)
  {
    BuiltShape(now, z);
    ShapeIsWellFormed(BuildPlaceholders(now, z).value, z.name);
  }

  /** The zone name lies inside the name of no placeholder from `k` on. */
  ghost predicate ClearOfNames(zoneName: string, k: nat) {
    forall j :: k <= j < 8 ==> !Within(zoneName, Name(j))
  }

  lemma SafeOrderIff(ps: seq<Placeholder>, zoneName: string)
    requires Shape(ps, zoneName)
    ensures SafeOrder(ps) <==> ClearOfNames(zoneName, 2)
  {
    NamesHold();
    hide Name, IsName, IsStamp, Within;
    forall i, j | 0 <= i < j < 8 && i != 1 ensures !Within(ps[i].value, ps[j].marker) {
      StampIsClear(ps[i].value, Name(j));
    }
    if SafeOrder(ps) {
      forall j | 2 <= j < 8 ensures !Within(zoneName, Name(j)) {
        assert !Within(ps[1].value, ps[j].marker);
      }
    }
  }

  /** The eight passes are one simultaneous substitution, for every template and every time: if and
      only if the zone name lies inside none of the six names replaced after it. */
  lemma RenderingIsSubstitutionIff(now: DateTime, z: Zone)
    requires Valid(now) && ValidZone(z) && BuildPlaceholders(now, z).Some? && Bracketless(z.name)
    ensures var ps := BuildPlaceholders(now, z).value;
            WellFormed(ps) && ((forall t :: Successive(ps, t) == Substitute(ps, t)) <==> ClearOfNames(z.name, 2))
  {
    var ps := BuildPlaceholders(now, z).value;
    BuiltShape(now, z);
    ShapeIsWellFormed(ps, z.name);
    SafeOrderIff(ps, z.name);
    SuccessiveIsSubstituteIff(ps);
  }

  /** For a zone name inside none of the six later names, the final check is right about every template
      if and only if the zone name cannot make up an "[INJECT_" with what stands around it. */
  lemma RenderingCheckIsRightIff(now: DateTime, z: Zone)
    requires Valid(now) && ValidZone(z) && BuildPlaceholders(now, z).Some?
    requires Bracketless(z.name) && ClearOfNames(z.name, 2)
    ensures var ps := BuildPlaceholders(now, z).value;
            WellFormed(ps) &&
            ((forall t :: !Within(INJECT, Successive(ps, t)) <==> AllKnown(ps, t)) <==> !Completes(z.name))
  {
    var ps := BuildPlaceholders(now, z).value;
    BuiltShape(now, z);
    ShapeIsWellFormed(ps, z.name);
    SafeOrderIff(ps, z.name);
    OnlyZoneCompletes(ps, z.name);
    CheckIsRightIff(ps);
  }

  lemma OnlyZoneCompletes(ps: seq<Placeholder>, zoneName: string)
    requires Shape(ps, zoneName)
    ensures (forall p :: p in ps ==> !Completes(p.value)) <==> !Completes(zoneName)
  {
    NamesHold();
    hide Name, IsName, IsStamp, Within, Completes;
    forall k | 0 <= k < 8 && k != DEFAULT_TIMEZONE ensures !Completes(ps[k].value) {
      StampIsClear(ps[k].value, Name(k));
    }
    assert ps[DEFAULT_TIMEZONE] in ps;
  }

  // ---------------------------------------------------------------- the default zone

  predicate NoUt(s: string) {
    forall k :: 0 <= k < |s| - 1 ==> s[k] != 'U' || s[k + 1] != 'T'
  }

  lemma NoUtEarly()
    ensures NoUt(Name(0)) && NoUt(Name(1)) && NoUt(Name(2)) && NoUt(Name(3))
  {}

  lemma NoUtMiddle()
    ensures NoUt(Name(4)) && NoUt(Name(5))
  {}

  lemma NoUtLate()
    ensures NoUt(Name(6)) && NoUt(Name(7))
  {}

  /** The default zone meets every condition, so its rendering is the substitution and its check is
      right, whatever the template and the time. */
  lemma UtcIsClear()
    ensures Bracketless("UTC") && ClearOfNames("UTC", 2) && !Completes("UTC")
  {
    NoUtEarly();
    NoUtMiddle();
    NoUtLate();
    hide Name;
    forall j | 0 <= j < 8 ensures !Within("UTC", Name(j)) {
      var name := Name(j);
      assert NoUt(name);
      forall i | 0 <= i <= |name| ensures !("UTC" <= name[i..]) {
        if i + 1 < |name| { assert name[i..][0] == name[i] && name[i..][1] == name[i + 1]; }
      }
    }
    forall i | 0 <= i <= |INJECT| ensures !("UTC" <= INJECT[i..]) {
      if i < |INJECT| { assert INJECT[i..][0] == INJECT[i] != 'U'; }
    }
    forall k | 1 <= k < |INJECT| ensures !(INJECT[k..] <= "UTC") {
      assert INJECT[k..][0] == INJECT[k] != 'U';
    }
  }
}
