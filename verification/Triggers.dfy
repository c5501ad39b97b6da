/** Trigger specifications, the dictionary a task row stores for one, and the way back. */
module Triggers {
  import opened Options
  import opened DateTimes
  import IsoFormat

  datatype TriggerType = OnceType | CronType | IntervalType

  /** A structured specification as a request carries it; `runAt` may be naive. */
  datatype TriggerSpec =
    | OnceTrigger(runAt: DateTime)
    | CronTriggerSpec(expression: string, timezone: string)
    | IntervalTriggerSpec(seconds: int)

  datatype TriggerConfig =
    | OnceTriggerConfig(runAtText: string)
    | CronTriggerConfig(expression: string, timezone: string)
    | IntervalTriggerConfig(seconds: int)

  /** The `trigger_config` JSON object of a row; an absent key is `None`. */
  datatype ConfigDict = ConfigDict(
    runAt: Option<string>, expression: Option<string>, timezone: Option<string>, seconds: Option<int>)

  /** The scheduler library's trigger objects, by their constructor arguments. */
  datatype Trigger =
    | DateTrigger(at: DateTime)
    | CronTrigger(crontab: string, zone: string)
    | IntervalTrigger(period: int)

  /** What the field validators let through: a real date-time, a zone name (never the empty
      string), a positive number of seconds. */
  predicate ValidSpec(spec: TriggerSpec) {
    match spec
    case OnceTrigger(t) => Valid(t)
    case CronTriggerSpec(_, tz) => tz != ""
    case IntervalTriggerSpec(n) => n > 0
  }

  function TypeOf(spec: TriggerSpec): TriggerType {
    match spec
    case OnceTrigger(_) => OnceType
    case CronTriggerSpec(_, _) => CronType
    case IntervalTriggerSpec(_) => IntervalType
  }

  /** A naive date-time is taken as UTC. */
  function AsAware(t: DateTime): (r: DateTime)
    ensures r.offset.Some? && (Valid(t) ==> Valid(r))
  {
    if t.offset.None? then t.(offset := Some(0)) else t
  }

  function BuildTrigger(spec: TriggerSpec): Trigger {
    match spec
    case OnceTrigger(t) => DateTrigger(AsAware(t))
    case CronTriggerSpec(e, tz) => CronTrigger(e, tz)
    case IntervalTriggerSpec(n) => IntervalTrigger(n)
  }

  function TriggerConfigFromSpec(spec: TriggerSpec): TriggerConfig
    requires ValidSpec(spec)
  {
    match spec
    case OnceTrigger(t) => OnceTriggerConfig(IsoFormat.Print(AsAware(t)))
    case CronTriggerSpec(e, tz) => CronTriggerConfig(e, tz)
    case IntervalTriggerSpec(n) => IntervalTriggerConfig(n)
  }

  /** `model_dump`. */
  function Dump(config: TriggerConfig): ConfigDict {
    match config
    case OnceTriggerConfig(s) => ConfigDict(Some(s), None, None, None)
    case CronTriggerConfig(e, tz) => ConfigDict(None, Some(e), Some(tz), None)
    case IntervalTriggerConfig(n) => ConfigDict(None, None, None, Some(n))
  }

  /** `_task_to_trigger_spec`; `None` is a missing key or an unreadable date-time. */
  function TaskToTriggerSpec(kind: TriggerType, config: ConfigDict): Option<TriggerSpec> {
    match kind
    case OnceType =>
      if config.runAt.None? then None
      else
        (match IsoFormat.Parse(config.runAt.value)
         case None => None
         case Some(t) => Some(OnceTrigger(t)))
    case CronType =>
      if config.expression.None? then None
      else Some(CronTriggerSpec(config.expression.value,
                                if config.timezone.Some? then config.timezone.value else "UTC"))
    case IntervalType =>
      if config.seconds.None? then None else Some(IntervalTriggerSpec(config.seconds.value))
  }

  function Stored(spec: TriggerSpec): ConfigDict
    requires ValidSpec(spec)
  {
    Dump(TriggerConfigFromSpec(spec))
  }

  /** The keys of the stored object: the once-time as an aware ISO text, the others as they are. */
  lemma StoredKeys(spec: TriggerSpec)
    requires ValidSpec(spec)
    ensures match spec
            case OnceTrigger(t) =>
              var d := Stored(spec);
              var aware := if t.offset.None? then t.(offset := Some(0)) else t;
              d.runAt.Some? && IsoFormat.Parse(d.runAt.value) == Some(aware)
              && d.expression.None? && d.timezone.None? && d.seconds.None?
            case CronTriggerSpec(e, tz) =>
              Stored(spec) == ConfigDict(None, Some(e), Some(tz), None)
            case IntervalTriggerSpec(n) =>
              Stored(spec) == ConfigDict(None, None, None, Some(n))
  {
    if spec.OnceTrigger? { IsoFormat.ParsePrint(AsAware(spec.runAt)); }
  }

  /** Storing a trigger and rebuilding it gives the trigger built directly. */
  lemma StoreAndRebuild(spec: TriggerSpec)
    requires ValidSpec(spec)
    ensures var back := TaskToTriggerSpec(TypeOf(spec), Stored(spec));
            back.Some? && ValidSpec(back.value) && BuildTrigger(back.value) == BuildTrigger(spec)
  {
    if spec.OnceTrigger? { IsoFormat.ParsePrint(AsAware(spec.runAt)); }
  }

  /** Two specifications are stored alike exactly when they build the same trigger. */
  lemma StoredAlikeIff(a: TriggerSpec, b: TriggerSpec)
    requires ValidSpec(a) && ValidSpec(b)
    ensures TypeOf(a) == TypeOf(b) && Stored(a) == Stored(b) <==> BuildTrigger(a) == BuildTrigger(b)
  {
    StoreAndRebuild(a);
    StoreAndRebuild(b);
  }

  // ---------------------------------------------------------------- the next run

  /** A trigger reduced to what the task lifecycle depends on. */
  datatype Schedule = Once(runAt: int) | Cron(expression: string, timezone: string) | Interval(seconds: int)

  function Meaning(trigger: Trigger): Schedule
    requires trigger.DateTrigger? ==> Valid(trigger.at) && trigger.at.offset.Some?
  {
    match trigger
    case DateTrigger(t) => Once(Instant(t))
    case CronTrigger(e, tz) => Cron(e, tz)
    case IntervalTrigger(n) => Interval(n)
  }

  function ScheduleOf(spec: TriggerSpec): Schedule
    requires ValidSpec(spec)
  {
    Meaning(BuildTrigger(spec))
  }

  /** The schedules of valid specifications. */
  predicate ValidSchedule(s: Schedule) {
    match s
    case Once(_) => true
    case Cron(_, tz) => tz != ""
    case Interval(n) => n > 0
  }

  /** What the history table can hold: a 32-bit interval, an instant between year 1 and year 9999. */
  predicate Storable(s: Schedule) {
    match s
    case Once(t) => MIN_WALL <= t < END_WALL
    case Cron(_, _) => true
    case Interval(n) => n < 0x8000_0000
  }

  /** The longest `timedelta`, in seconds. */
  const MAX_INTERVAL := 86399999999999

  /** An interval that the library can build but the history's column cannot hold. */
  predicate TooLong(s: Schedule) {
    s.Interval? && 0x8000_0000 <= s.seconds <= MAX_INTERVAL
  }

  /** How the scheduler library takes a recurring trigger: it refuses to build it, or it looks for its
      first fire. */
  datatype Library = Refuses | Finds(fire: Option<int>) {
    function Fire(): Option<int> {
      if Finds? then fire else None
    }
  }

  /** Whether a trigger can be built: a cron expression is up to the library, an interval to its length. */
  predicate Builds(s: Schedule, library: Library) {
    match s
    case Once(_) => true
    case Cron(_, _) => library.Finds?
    case Interval(n) => n <= MAX_INTERVAL
  }

  /** The first `next()` of a fresh trigger; a recurring one answers whatever the library finds. */
  function FirstFire(s: Schedule, library: Option<int>): Option<int> {
    match s
    case Once(t) => Some(t)
    case _ => library
  }

  /** `compute_next_run_at`: the given instant of a once-trigger, a date-time without an offset being in
      UTC, and what the library finds for the others. */
  lemma NextRunIs(spec: TriggerSpec, library: Option<int>)
    requires ValidSpec(spec)
    ensures match spec
            case OnceTrigger(t) =>
              var minutes := if t.offset.Some? then t.offset.value else 0;
              ScheduleOf(spec).Once?
              && FirstFire(ScheduleOf(spec), library) == Some(Wall(t) - minutes * 60 * 1000000)
            case CronTriggerSpec(e, tz) =>
              ScheduleOf(spec) == Cron(e, tz) && FirstFire(ScheduleOf(spec), library) == library
            case IntervalTriggerSpec(n) =>
              ScheduleOf(spec) == Interval(n) && FirstFire(ScheduleOf(spec), library) == library
  {}

  /** It gives the same answer from the stored row. */
  lemma NextRunFromRow(spec: TriggerSpec, library: Option<int>)
    requires ValidSpec(spec)
    ensures var back := TaskToTriggerSpec(TypeOf(spec), Stored(spec));
            back.Some? && ValidSpec(back.value) && ScheduleOf(back.value) == ScheduleOf(spec)
            && FirstFire(ScheduleOf(back.value), library) == FirstFire(ScheduleOf(spec), library)
  {
    StoreAndRebuild(spec);
  }
}
