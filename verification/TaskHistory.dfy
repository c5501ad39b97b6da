/** The history table: the recorders that fill a row, the CHECK constraint that guards it and the
    decoder that reads it back. */
module TaskHistory {
  import opened Options
  import opened DateTimes
  import opened Text
  import opened Triggers
  import opened Webhook
  import opened Calendar
  import IsoFormat

  datatype EventType = TASK_CREATED | TASK_ACTIVATED | TASK_DEACTIVATED | TASK_DELETED | EXECUTION

  /** One row; a `None` column is NULL. */
  datatype HistoryRow = HistoryRow(
    userId: string,
    taskId: nat,
    eventType: EventType,
    webhookUrl: Option<string>,
    triggerType: Option<TriggerType>,
    cronExpression: Option<string>,
    cronTimezone: Option<string>,
    intervalSeconds: Option<int>,
    onceRunAt: Option<DateTime>,
    executionSource: Option<Source>,
    httpStatus: Option<int>,
    errorMessage: Option<string>,
    success: Option<bool>)

  /** The columns of a scheduled task that the history copies. */
  datatype TaskRow = TaskRow(id: nat, webhookUrl: string, triggerType: TriggerType, triggerConfig: ConfigDict)

  datatype TriggerColumns = TriggerColumns(
    cronExpression: Option<string>, cronTimezone: Option<string>,
    intervalSeconds: Option<int>, onceRunAt: Option<DateTime>)

  /** `_trigger_columns`; `None` is a missing key or an unreadable date-time. */
  function TriggerColumnsOf(kind: TriggerType, config: ConfigDict): Option<TriggerColumns> {
    match kind
    case CronType =>
      if config.expression.None? then None
      else Some(TriggerColumns(Some(config.expression.value),
                               Some(if config.timezone.Some? then config.timezone.value else "UTC"), None, None))
    case IntervalType =>
      if config.seconds.None? then None
      else Some(TriggerColumns(None, None, Some(config.seconds.value), None))
    case OnceType =>
      if config.runAt.None? then None
      else
        match IsoFormat.Parse(Replace(config.runAt.value, "Z", "+00:00"))
        case None => None
        case Some(t) => Some(TriggerColumns(None, None, None, Some(t)))
  }

  function Bare(userId: string, taskId: nat, eventType: EventType): HistoryRow {
    HistoryRow(userId, taskId, eventType, None, None, None, None, None, None, None, None, None, None)
  }

  /** `record_task_created` and `record_task_deleted`: the event with a snapshot of the task. */
  function RecordSnapshot(userId: string, task: TaskRow, eventType: EventType): Option<HistoryRow> {
    match TriggerColumnsOf(task.triggerType, task.triggerConfig)
    case None => None
    case Some(c) =>
      Some(Bare(userId, task.id, eventType).(
        webhookUrl := Some(task.webhookUrl), triggerType := Some(task.triggerType),
        cronExpression := c.cronExpression, cronTimezone := c.cronTimezone,
        intervalSeconds := c.intervalSeconds, onceRunAt := c.onceRunAt))
  }

  function RecordTaskLifecycle(userId: string, taskId: nat, eventType: EventType): HistoryRow {
    Bare(userId, taskId, eventType)
  }

  function RecordExecution(userId: string, taskId: nat, source: Source, url: string, o: Outcome): HistoryRow {
    Bare(userId, taskId, EXECUTION).(
      webhookUrl := Some(url), executionSource := Some(source), httpStatus := o.httpStatus,
      errorMessage := o.errorMessage, success := Some(o.success))
  }

  // ---------------------------------------------------------------- the table

  /** The `task_history_event_shape` constraint.  No disjunct evaluates to NULL: every comparison
      with a nullable column stands beside an IS NOT NULL test of that column. */
  predicate EventShape(r: HistoryRow) {
    || (&& (r.eventType == TASK_CREATED || r.eventType == TASK_DELETED)
        && r.webhookUrl.Some? && r.triggerType.Some?
        && r.executionSource.None? && r.httpStatus.None? && r.errorMessage.None? && r.success.None?
        && (|| (r.triggerType == Some(CronType) && r.cronExpression.Some? && r.cronTimezone.Some?
                && r.intervalSeconds.None? && r.onceRunAt.None?)
            || (r.triggerType == Some(IntervalType) && r.intervalSeconds.Some?
                && r.cronExpression.None? && r.cronTimezone.None? && r.onceRunAt.None?)
            || (r.triggerType == Some(OnceType) && r.onceRunAt.Some?
                && r.cronExpression.None? && r.cronTimezone.None? && r.intervalSeconds.None?)))
    || (&& (r.eventType == TASK_ACTIVATED || r.eventType == TASK_DEACTIVATED)
        && r.webhookUrl.None? && r.triggerType.None? && r.cronExpression.None? && r.cronTimezone.None?
        && r.intervalSeconds.None? && r.onceRunAt.None? && r.executionSource.None?
        && r.httpStatus.None? && r.errorMessage.None? && r.success.None?)
    || (&& r.eventType == EXECUTION
        && r.webhookUrl.Some? && r.executionSource.Some? && r.success.Some?
        && r.triggerType.None? && r.cronExpression.None? && r.cronTimezone.None?
        && r.intervalSeconds.None? && r.onceRunAt.None?
        && (r.success == Some(false) || r.httpStatus.Some?))
  }

  /** The constraint lets in exactly the rows that the recorders write: snapshots, bare events, and
      executions that have a status if they succeeded. */
  lemma ShapeIff(r: HistoryRow)
    requires r.onceRunAt.Some? ==> Valid(r.onceRunAt.value)
    ensures EventShape(r) <==>
      || ((r.eventType == TASK_CREATED || r.eventType == TASK_DELETED)
          && exists task :: RecordSnapshot(r.userId, task, r.eventType) == Some(r))
      || ((r.eventType == TASK_ACTIVATED || r.eventType == TASK_DEACTIVATED)
          && r == RecordTaskLifecycle(r.userId, r.taskId, r.eventType))
      || exists source, url, o: Outcome :: (o.success ==> o.httpStatus.Some?)
           && r == RecordExecution(r.userId, r.taskId, source, url, o)
  {
    if EventShape(r) && (r.eventType == TASK_CREATED || r.eventType == TASK_DELETED) {
      var config := ConfigDict(
        if r.onceRunAt.Some? then Some(IsoFormat.Print(r.onceRunAt.value)) else None,
        r.cronExpression, r.cronTimezone, r.intervalSeconds);
      if r.onceRunAt.Some? { RecorderReads(r.onceRunAt.value); }
      var task := TaskRow(r.taskId, r.webhookUrl.value, r.triggerType.value, config);
      assert RecordSnapshot(r.userId, task, r.eventType) == Some(r);
    }
    if EventShape(r) && r.eventType == EXECUTION {
      var o := Outcome(r.httpStatus, r.errorMessage, r.success.value);
      assert r == RecordExecution(r.userId, r.taskId, r.executionSource.value, r.webhookUrl.value, o);
    }
  }

  lemma RecorderReads(t: DateTime)
    requires Valid(t)
    ensures IsoFormat.Parse(Replace(IsoFormat.Print(t), "Z", "+00:00")) == Some(t)
  {
    IsoFormat.PrintedChars(t);
    ReplaceAbsentChar(IsoFormat.Print(t), 'Z', "+00:00");
    IsoFormat.ParsePrint(t);
  }

  predicate Int32(n: Option<int>) {
    n.Some? ==> -0x8000_0000 <= n.value < 0x8000_0000
  }

  /** The instant has a UTC date between year 1 and year 9999. */
  predicate HasUtcDate(t: DateTime) {
    Valid(t) && t.offset.Some? && MIN_WALL <= Instant(t) < END_WALL
  }

  /** INSERT followed by SELECT: constraints and column types are checked, and a date-time comes
      back as the same instant in UTC.  `None` is a failed INSERT. */
  function InsertAndRead(r: HistoryRow): Option<HistoryRow> {
    if EventShape(r) && Int32(r.intervalSeconds) && Int32(r.httpStatus)
       && (r.onceRunAt.Some? ==> HasUtcDate(r.onceRunAt.value))
    then Some(if r.onceRunAt.Some? then r.(onceRunAt := Some(InUtc(Instant(r.onceRunAt.value)))) else r)
    else None
  }

  // ---------------------------------------------------------------- the decoder

  datatype HistoryEntry =
    | TaskCreatedHistoryEntry(url: string, triggerType: TriggerType, triggerConfig: TriggerConfig)
    | TaskActivatedHistoryEntry
    | TaskDeactivatedHistoryEntry
    | TaskDeletedHistoryEntry(url: string, triggerType: TriggerType, triggerConfig: TriggerConfig)
    | ExecutionHistoryEntry(source: Source, url: string, outcome: Outcome)

  const DATETIME_MIN := DateTime(1, 0, 0, 0, 0, None)

  function TextOr(s: Option<string>, default_: string): string {
    if s.Some? && s.value != "" then s.value else default_
  }

  function TriggerConfigFromRow(r: HistoryRow): Option<TriggerConfig>
    requires r.onceRunAt.Some? ==> Valid(r.onceRunAt.value)
  {
    if r.triggerType.None? then None
    else
      match r.triggerType.value
      case CronType => Some(CronTriggerConfig(TextOr(r.cronExpression, ""), TextOr(r.cronTimezone, "UTC")))
      case IntervalType => Some(IntervalTriggerConfig(if r.intervalSeconds.Some? then r.intervalSeconds.value else 0))
      case OnceType =>
        Some(OnceTriggerConfig(IsoFormat.Print(if r.onceRunAt.Some? then r.onceRunAt.value else DATETIME_MIN)))
  }

  /** What the decoder puts for columns that are NULL or empty. */
  lemma NullColumns(r: HistoryRow)
    requires r.onceRunAt.Some? ==> Valid(r.onceRunAt.value)
    ensures var c := TriggerConfigFromRow(r);
            && (r.triggerType == Some(CronType) ==>
                  c == Some(CronTriggerConfig(if r.cronExpression.Some? then r.cronExpression.value else "",
                                              if r.cronTimezone.Some? && r.cronTimezone.value != ""
                                              then r.cronTimezone.value else "UTC")))
            && (r.triggerType == Some(IntervalType) && r.intervalSeconds.None? ==>
                  c == Some(IntervalTriggerConfig(0)))
            && (r.triggerType == Some(OnceType) && r.onceRunAt.None? ==>
                  c.Some? && c.value.OnceTriggerConfig?
                  && IsoFormat.Parse(c.value.runAtText) == Some(DateTime(1, 0, 0, 0, 0, None)))
  {
    hide IsoFormat.Print, IsoFormat.Parse;
    if r.triggerType == Some(OnceType) && r.onceRunAt.None? { IsoFormat.ParsePrint(DATETIME_MIN); }
  }

  /** `entry_from_row`; `None` is a validation error. */
  function EntryFromRow(r: HistoryRow): Option<HistoryEntry>
    requires r.onceRunAt.Some? ==> Valid(r.onceRunAt.value)
  {
    match r.eventType
    case TASK_CREATED =>
      (match TriggerConfigFromRow(r)
       case None => None
       case Some(c) => Some(TaskCreatedHistoryEntry(TextOr(r.webhookUrl, ""), r.triggerType.value, c)))
    case TASK_ACTIVATED => Some(TaskActivatedHistoryEntry)
    case TASK_DEACTIVATED => Some(TaskDeactivatedHistoryEntry)
    case TASK_DELETED =>
      (match TriggerConfigFromRow(r)
       case None => None
       case Some(c) => Some(TaskDeletedHistoryEntry(TextOr(r.webhookUrl, ""), r.triggerType.value, c)))
    case EXECUTION =>
      if r.executionSource.None? then None
      else Some(ExecutionHistoryEntry(r.executionSource.value, TextOr(r.webhookUrl, ""),
        Outcome(r.httpStatus, r.errorMessage, if r.success.Some? then r.success.value else false)))
  }

  // ---------------------------------------------------------------- what survives the table

  function TaskRowFor(id: nat, url: string, spec: TriggerSpec): TaskRow
    requires ValidSpec(spec)
  {
    TaskRow(id, url, TypeOf(spec), Stored(spec))
  }

  /** The recorder's reading of a stored once-trigger agrees with the scheduler's. */
  lemma ColumnsOfStored(spec: TriggerSpec)
    requires ValidSpec(spec)
    ensures var c := TriggerColumnsOf(TypeOf(spec), Stored(spec));
            c.Some? && c.value ==
              match spec
              case OnceTrigger(t) => TriggerColumns(None, None, None, Some(AsAware(t)))
              case CronTriggerSpec(e, tz) => TriggerColumns(Some(e), Some(tz), None, None)
              case IntervalTriggerSpec(n) => TriggerColumns(None, None, Some(n), None)
  {
    if spec.OnceTrigger? {
      RecorderReads(AsAware(spec.runAt));
    }
  }

  /** The configuration decoded from a snapshot means what the task's trigger means. */
  ghost predicate SameSchedule(kind: TriggerType, config: TriggerConfig, spec: TriggerSpec)
    requires ValidSpec(spec)
  {
    var back := TaskToTriggerSpec(kind, Dump(config));
    back.Some? && ValidSpec(back.value) && ScheduleOf(back.value) == ScheduleOf(spec)
  }

  /** The row of a snapshot, column by column. */
  lemma SnapshotRow(userId: string, id: nat, url: string, spec: TriggerSpec, event: EventType)
    requires ValidSpec(spec)
    ensures RecordSnapshot(userId, TaskRowFor(id, url, spec), event) ==
      Some(Bare(userId, id, event).(
        webhookUrl := Some(url), triggerType := Some(TypeOf(spec)),
        cronExpression := if spec.CronTriggerSpec? then Some(spec.expression) else None,
        cronTimezone := if spec.CronTriggerSpec? then Some(spec.timezone) else None,
        intervalSeconds := if spec.IntervalTriggerSpec? then Some(spec.seconds) else None,
        onceRunAt := if spec.OnceTrigger? then Some(AsAware(spec.runAt)) else None))
  {
    ColumnsOfStored(spec);
  }

  /** A snapshot of a valid task always has the shape the constraint asks for, and it is accepted
      exactly when the table can hold its schedule. */
  lemma SnapshotAccepted(userId: string, id: nat, url: string, spec: TriggerSpec, event: EventType)
    requires ValidSpec(spec) && (event == TASK_CREATED || event == TASK_DELETED)
    ensures var row := RecordSnapshot(userId, TaskRowFor(id, url, spec), event);
            row.Some? && EventShape(row.value) && (InsertAndRead(row.value).Some? <==> Storable(ScheduleOf(spec)))
  {
    SnapshotRow(userId, id, url, spec, event);
  }

  /** What the decoder makes of a row read back: same URL, same schedule. */
  ghost predicate IsSnapshotOf(e: HistoryEntry, event: EventType, url: string, spec: TriggerSpec)
    requires ValidSpec(spec)
  {
    match e
    case TaskCreatedHistoryEntry(u, k, c) => event == TASK_CREATED && u == url && SameSchedule(k, c, spec)
    case TaskDeletedHistoryEntry(u, k, c) => event == TASK_DELETED && u == url && SameSchedule(k, c, spec)
    case _ => false
  }

  /** The row as it comes back: the once-time in UTC, everything else unchanged. */
  lemma SnapshotBack(userId: string, id: nat, url: string, spec: TriggerSpec, event: EventType)
    requires ValidSpec(spec) && (event == TASK_CREATED || event == TASK_DELETED) && Storable(ScheduleOf(spec))
    ensures var row := RecordSnapshot(userId, TaskRowFor(id, url, spec), event);
            row.Some? && InsertAndRead(row.value) ==
              Some(Bare(userId, id, event).(
                webhookUrl := Some(url), triggerType := Some(TypeOf(spec)),
                cronExpression := if spec.CronTriggerSpec? then Some(spec.expression) else None,
                cronTimezone := if spec.CronTriggerSpec? then Some(spec.timezone) else None,
                intervalSeconds := if spec.IntervalTriggerSpec? then Some(spec.seconds) else None,
                onceRunAt := if spec.OnceTrigger? then Some(InUtc(Instant(AsAware(spec.runAt)))) else None))
  {
    SnapshotRow(userId, id, url, spec, event);
    SnapshotAccepted(userId, id, url, spec, event);
    hide RecordSnapshot, EventShape, InUtc;
  }

  lemma EntryOfSnapshot(back: HistoryRow, event: EventType, url: string, spec: TriggerSpec)
    requires ValidSpec(spec) && back.eventType == event && (event == TASK_CREATED || event == TASK_DELETED)
    requires back.webhookUrl == Some(url) && back.triggerType.Some?
    requires back.onceRunAt.Some? ==> Valid(back.onceRunAt.value)
    requires TriggerConfigFromRow(back).Some?
    requires SameSchedule(back.triggerType.value, TriggerConfigFromRow(back).value, spec)
    ensures EntryFromRow(back).Some? && IsSnapshotOf(EntryFromRow(back).value, event, url, spec)
  {
    hide SameSchedule, TriggerConfigFromRow;
  }

  /** Reading an accepted snapshot back gives the recorded event: the cron expression and zone, the
      interval, or the same instant. */
  lemma SnapshotSurvives(userId: string, id: nat, url: string, spec: TriggerSpec, event: EventType)
    requires ValidSpec(spec) && (event == TASK_CREATED || event == TASK_DELETED) && Storable(ScheduleOf(spec))
    ensures var row := RecordSnapshot(userId, TaskRowFor(id, url, spec), event);
            row.Some? && InsertAndRead(row.value).Some? &&
            var entry := EntryFromRow(InsertAndRead(row.value).value);
            entry.Some? && IsSnapshotOf(entry.value, event, url, spec)
  {
    SnapshotBack(userId, id, url, spec, event);
    var back := InsertAndRead(RecordSnapshot(userId, TaskRowFor(id, url, spec), event).value).value;
    ConfigSurvives(back, spec);
    EntryOfSnapshot(back, event, url, spec);
  }

  lemma ConfigSurvives(back: HistoryRow, spec: TriggerSpec)
    requires ValidSpec(spec) && Storable(ScheduleOf(spec)) && back.triggerType == Some(TypeOf(spec))
    requires spec.CronTriggerSpec? ==>
      back.cronExpression == Some(spec.expression) && back.cronTimezone == Some(spec.timezone)
    requires spec.IntervalTriggerSpec? ==> back.intervalSeconds == Some(spec.seconds)
    requires back.onceRunAt == if spec.OnceTrigger? then Some(InUtc(Instant(AsAware(spec.runAt)))) else None
    ensures TriggerConfigFromRow(back).Some? && SameSchedule(TypeOf(spec), TriggerConfigFromRow(back).value, spec)
  {
    if spec.OnceTrigger? { IsoFormat.ParsePrint(back.onceRunAt.value); }
  }

  lemma LifecycleSurvives(userId: string, id: nat, event: EventType)
    requires event == TASK_ACTIVATED || event == TASK_DEACTIVATED
    ensures var back := InsertAndRead(RecordTaskLifecycle(userId, id, event));
            back.Some? && EntryFromRow(back.value) ==
              Some(if event == TASK_ACTIVATED then TaskActivatedHistoryEntry else TaskDeactivatedHistoryEntry)
  {}

  /** Every outcome the executor can produce is accepted and read back unchanged. */
  lemma ExecutionSurvives(userId: string, id: nat, source: Source, url: string, reply: Reply)
    ensures var o := FireTaskWebhook(reply);
            var back := InsertAndRead(RecordExecution(userId, id, source, url, o));
            back.Some? && EntryFromRow(back.value) == Some(ExecutionHistoryEntry(source, url, o))
  {}
}
