/** The history of a run as the table holds it: every entry of every run becomes a row that the table
    accepts and that reads back as the recorded event, and the rows alone tell the state of a task. */
module StoredHistory {
  import opened Options
  import opened DateTimes
  import opened Triggers
  import opened Webhook
  import opened Lifecycle
  import opened LifecycleInvariants
  import opened LifecycleTheorems
  import opened TaskHistory

  /** A specification with the given schedule. */
  function SpecFor(s: Schedule): (spec: TriggerSpec)
    requires Acceptable(s)
    ensures ValidSpec(spec) && ScheduleOf(spec) == s
  {
    match s
    case Once(t) => OnceTrigger(InUtc(t))
    case Cron(e, tz) => CronTriggerSpec(e, tz)
    case Interval(n) => IntervalTriggerSpec(n)
  }

  /** The specification belongs to the schedule a snapshot names. */
  predicate SpecFits(e: Event, spec: TriggerSpec) {
    && ValidSpec(spec)
    && (e.TaskCreated? || e.TaskDeleted? ==> ScheduleOf(spec) == e.schedule && Storable(e.schedule))
  }

  function EventTypeOf(e: Event): EventType {
    match e
    case TaskCreated(_, _) => TASK_CREATED
    case TaskActivated => TASK_ACTIVATED
    case TaskDeactivated => TASK_DEACTIVATED
    case TaskDeleted(_, _) => TASK_DELETED
    case Execution(_, _, _) => EXECUTION
  }

  /** The row the recorder of the event adds, for a task stored with `spec`. */
  function RowOf(e: Entry, spec: TriggerSpec): Option<HistoryRow>
    requires SpecFits(e.event, spec)
  {
    match e.event
    case TaskCreated(url, _) => RecordSnapshot(e.owner, TaskRowFor(e.task, url, spec), TASK_CREATED)
    case TaskDeleted(url, _) => RecordSnapshot(e.owner, TaskRowFor(e.task, url, spec), TASK_DELETED)
    case Execution(source, url, o) => Some(RecordExecution(e.owner, e.task, source, url, o))
    case _ => Some(RecordTaskLifecycle(e.owner, e.task, EventTypeOf(e.event)))
  }

  /** The decoded entry tells the event. */
  ghost predicate Tells(entry: HistoryEntry, e: Event, spec: TriggerSpec)
    requires SpecFits(e, spec)
  {
    match e
    case TaskCreated(url, _) => IsSnapshotOf(entry, TASK_CREATED, url, spec)
    case TaskDeleted(url, _) => IsSnapshotOf(entry, TASK_DELETED, url, spec)
    case TaskActivated => entry == TaskActivatedHistoryEntry
    case TaskDeactivated => entry == TaskDeactivatedHistoryEntry
    case Execution(source, url, o) => entry == ExecutionHistoryEntry(source, url, o)
  }

  /** The row is accepted and reads back as the event of the entry. */
  ghost predicate Survives(e: Entry, spec: TriggerSpec)
    requires SpecFits(e.event, spec)
  {
    var row := RowOf(e, spec);
    && row.Some? && InsertAndRead(row.value).Some?
    && var back := InsertAndRead(row.value).value;
    && back.userId == e.owner && back.taskId == e.task && back.eventType == EventTypeOf(e.event)
    && EntryFromRow(back).Some? && Tells(EntryFromRow(back).value, e.event, spec)
  }

  lemma ExecutionRowSurvives(userId: string, id: nat, source: Source, url: string, o: Outcome)
    requires GoodOutcome(o)
    ensures var back := InsertAndRead(RecordExecution(userId, id, source, url, o));
            back == Some(RecordExecution(userId, id, source, url, o))
            && EntryFromRow(back.value) == Some(ExecutionHistoryEntry(source, url, o))
  {}

  lemma SnapshotEntrySurvives(e: Entry, spec: TriggerSpec, url: string)
    requires SpecFits(e.event, spec)
    requires (e.event.TaskCreated? || e.event.TaskDeleted?) && url == e.event.url
    ensures Survives(e, spec)
  {
    hide RecordSnapshot, SameSchedule, Storable, ScheduleOf, TriggerConfigFromRow;
    SnapshotRow(e.owner, e.task, url, spec, EventTypeOf(e.event));
    SnapshotSurvives(e.owner, e.task, url, spec, EventTypeOf(e.event));
  }

  lemma EntrySurvives(e: Entry, spec: TriggerSpec)
    requires SpecFits(e.event, spec) && (e.event.Execution? ==> GoodOutcome(e.event.outcome))
    ensures Survives(e, spec)
  {
    match e.event {
      case TaskCreated(url, _) => SnapshotEntrySurvives(e, spec, url);
      case TaskDeleted(url, _) => SnapshotEntrySurvives(e, spec, url);
      case Execution(source, url, o) => ExecutionRowSurvives(e.owner, e.task, source, url, o);
      case _ =>
    }
  }

  lemma EntryIsSound(es: seq<Step>, k: nat)
    requires k < |Run(INITIAL, es).db.history|
    ensures var e := Run(INITIAL, es).db.history[k].event;
            && (e.TaskCreated? || e.TaskDeleted? ==> Acceptable(e.schedule))
            && (e.Execution? ==> GoodOutcome(e.outcome))
  {
    Reachable(es);
    var h := Run(INITIAL, es).db.history;
    assert EntryAgrees(h, h[k]);
  }

  /** Whatever happens in a run, each of its history entries is stored and reads back as what was
      recorded, for every specification with the schedule of the task. */
  lemma RunsAreStored(es: seq<Step>, k: nat, spec: TriggerSpec)
    requires k < |Run(INITIAL, es).db.history| && ValidSpec(spec)
    requires var e := Run(INITIAL, es).db.history[k].event;
             e.TaskCreated? || e.TaskDeleted? ==> e.schedule == ScheduleOf(spec)
    ensures var e := Run(INITIAL, es).db.history[k]; SpecFits(e.event, spec) && Survives(e, spec)
  {
    EntryIsSound(es, k);
    EntrySurvives(Run(INITIAL, es).db.history[k], spec);
  }

  // ---------------------------------------------------------------- replaying the table

  /** The replay of one row, by its columns. */
  function ReplayRow(r: Replayed, row: HistoryRow): Replayed {
    match row.eventType
    case TASK_CREATED => Live(true, row.triggerType == Some(OnceType))
    case TASK_ACTIVATED => Live(true, IsOnce(r))
    case TASK_DEACTIVATED => Live(false, IsOnce(r))
    case TASK_DELETED => Gone
    case EXECUTION =>
      if row.executionSource == Some(Scheduled) && row.success == Some(true) && IsOnce(r) then Live(false, true) else r
  }

  function ReplayTable(table: seq<HistoryRow>, t: TaskId): Replayed {
    if table == [] then Unborn
    else
      var before := ReplayTable(table[..|table| - 1], t);
      if table[|table| - 1].taskId == t then ReplayRow(before, table[|table| - 1]) else before
  }

  /** Each row of the table is what was inserted for the entry at its place. */
  ghost predicate TableOf(table: seq<HistoryRow>, h: seq<Entry>, specs: seq<TriggerSpec>) {
    && |table| == |h| == |specs|
    && forall k :: 0 <= k < |h| ==>
         && SpecFits(h[k].event, specs[k]) && RowOf(h[k], specs[k]).Some?
         && InsertAndRead(RowOf(h[k], specs[k]).value) == Some(table[k])
  }

  lemma RowReplaysEvent(r: Replayed, e: Entry, spec: TriggerSpec, row: HistoryRow)
    requires SpecFits(e.event, spec) && RowOf(e, spec).Some? && InsertAndRead(RowOf(e, spec).value) == Some(row)
    ensures row.taskId == e.task && ReplayRow(r, row) == ReplayEvent(r, e.event)
  {
    match e.event {
      case TaskCreated(url, _) => SnapshotRow(e.owner, e.task, url, spec, TASK_CREATED);
      case TaskDeleted(url, _) => SnapshotRow(e.owner, e.task, url, spec, TASK_DELETED);
      case _ =>
    }
  }

  lemma {:induction false} TableReplays(table: seq<HistoryRow>, h: seq<Entry>, specs: seq<TriggerSpec>, t: TaskId)
    requires TableOf(table, h, specs)
    ensures ReplayTable(table, t) == Replay(h, t)
    decreases |h|
  {
    if h != [] {
      var n := |h| - 1;
      TableReplays(table[..n], h[..n], specs[..n], t);
      RowReplaysEvent(Replay(h[..n], t), h[n], specs[n], table[n]);
    }
  }

  /** In every state of every run the stored rows of a task, replayed, say whether the task has a row
      and whether it is active. */
  lemma TableTellsState(es: seq<Step>, table: seq<HistoryRow>, specs: seq<TriggerSpec>, t: TaskId)
    requires TableOf(table, Run(INITIAL, es).db.history, specs)
    ensures var s := Run(INITIAL, es);
            && (t in s.db.rows <==> ReplayTable(table, t).Live?)
            && (t in s.db.rows ==> ReplayTable(table, t).active == s.db.rows[t].active)
  {
    HistoryReplaysToRows(es, t);
    TableReplays(table, Run(INITIAL, es).db.history, specs, t);
  }

  lemma RowForEntry(es: seq<Step>, n: nat) returns (row: HistoryRow, spec: TriggerSpec)
    requires n < |Run(INITIAL, es).db.history|
    ensures var e := Run(INITIAL, es).db.history[n];
            SpecFits(e.event, spec) && RowOf(e, spec).Some? && InsertAndRead(RowOf(e, spec).value) == Some(row)
  {
    var e := Run(INITIAL, es).db.history[n];
    EntryIsSound(es, n);
    spec := if e.event.TaskCreated? || e.event.TaskDeleted? then SpecFor(e.event.schedule) else IntervalTriggerSpec(1);
    EntrySurvives(e, spec);
    row := InsertAndRead(RowOf(e, spec).value).value;
  }

  /** Such a table exists for every run. */
  lemma TableExists(es: seq<Step>) returns (table: seq<HistoryRow>, specs: seq<TriggerSpec>)
    ensures TableOf(table, Run(INITIAL, es).db.history, specs)
  {
    var h := Run(INITIAL, es).db.history;
    table, specs := [], [];
    hide RowOf, InsertAndRead, SpecFits, Run;
    for n := 0 to |h|
      invariant TableOf(table, h[..n], specs)
    {
      var row, spec := RowForEntry(es, n);
      assert h[..n + 1] == h[..n] + [h[n]];
      table, specs := table + [row], specs + [spec];
    }
    assert h[..|h|] == h;
  }
}
