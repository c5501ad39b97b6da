/** The task lifecycle as a state machine.  Requests, manual runs, scheduled executors and the
    scheduler itself all write to one database; every step below is one of their atomic actions, and a
    run is any sequence of steps. */
module Lifecycle {
  import opened Options
  import opened Triggers
  import opened Webhook

  type TaskId = nat
  type Ticket = nat  // names an in-flight request, manual run or executor

  // ---------------------------------------------------------------- the database

  datatype Row = Row(owner: string, url: string, schedule: Schedule, nextRunAt: Option<int>, active: bool)

  datatype Event =
    | TaskCreated(url: string, schedule: Schedule)
    | TaskActivated
    | TaskDeactivated
    | TaskDeleted(url: string, schedule: Schedule)
    | Execution(source: Source, url: string, outcome: Outcome)

  datatype Entry = Entry(owner: string, task: TaskId, event: Event)

  /** What a transaction does to the task's row besides adding its history entry.  An UPDATE sets
      the active flag; it sets `next_run_at` only if the handler changed the value it had loaded. */
  datatype Write =
    | NoWrite
    | Insert(row: Row)
    | Update(active: bool, nextRunAt: Option<Option<int>>)
    | Delete

  datatype Txn = Txn(entry: Entry, write: Write)

  datatype Database = Database(rows: map<TaskId, Row>, history: seq<Entry>)

  /** The owner, URL and schedule a task was created with. */
  datatype Birth = Birth(owner: string, url: string, schedule: Schedule)

  function Born(h: seq<Entry>, t: TaskId): Option<Birth> {
    if h == [] then None else BornNext(Born(h[..|h| - 1], t), h[|h| - 1], t)
  }

  function BornNext(before: Option<Birth>, e: Entry, t: TaskId): Option<Birth> {
    if before.Some? then before
    else if e.task == t && e.event.TaskCreated? then Some(Birth(e.owner, e.event.url, e.event.schedule))
    else None
  }

  /** Whether a transaction can commit.  A history row holds a 32-bit interval and a date-time with a
      UTC date, so an INSERT of another schedule fails with its history row.  An UPDATE of a vanished
      row aborts the whole transaction; a DELETE of a vanished row does not. */
  predicate Commits(db: Database, txn: Txn) {
    match txn.write
    case Insert(row) => txn.entry.task !in db.rows && Born(db.history, txn.entry.task).None? && Storable(row.schedule)
    case Update(_, _) => txn.entry.task in db.rows
    case _ => true
  }

  function Commit(db: Database, txn: Txn): Database
    requires Commits(db, txn)
  {
    var t := txn.entry.task;
    var rows := match txn.write
      case NoWrite => db.rows
      case Insert(row) => db.rows[t := row]
      case Update(active, next) =>
        db.rows[t := db.rows[t].(active := active,
                                 nextRunAt := if next.Some? then next.value else db.rows[t].nextRunAt)]
      case Delete => db.rows - {t};
    Database(rows, db.history + [txn.entry])
  }

  // ---------------------------------------------------------------- requests

  datatype Background = Register(task: TaskId) | Unregister(task: TaskId)

  /** What a handler leaves to be done: one transaction and at most one background job. */
  datatype Work = Work(txn: Txn, background: Option<Background>)

  /** `library` and `fire` are the scheduler library's answers about a recurring trigger; a stored one
      has been built before. */
  datatype Request =
    | CreateTask(task: TaskId, user: string, url: string, schedule: Schedule, library: Library)
    | DeactivateTask(task: TaskId, user: string)
    | ActivateTask(task: TaskId, user: string, fire: Option<int>)
    | DeleteTask(task: TaskId, user: string)

  datatype Status = HTTP_200 | HTTP_201 | HTTP_204 | HTTP_404 | HTTP_422 | HTTP_500 | HTTP_502

  datatype Handled = Handled(status: Status, work: Option<Work>)

  /** A task is visible to its owner only. */
  predicate Visible(db: Database, t: TaskId, user: string) {
    t in db.rows && db.rows[t].owner == user
  }

  function Changed(before: Option<int>, after: Option<int>): Option<Option<int>> {
    if before == after then None else Some(after)
  }

  predicate CanActivate(s: Schedule, next: Option<int>, now: int) {
    next.Some? && (s.Once? ==> now < next.value)
  }

  /** Whether the handler's own INSERT of the task goes through: the id is new, and a `next_run_at`
      that is known is a timestamp of the database.  Ids are random UUIDs; none is drawn twice. */
  predicate CanFlush(db: Database, t: TaskId, schedule: Schedule) {
    t !in db.rows && Born(db.history, t).None? && (schedule.Once? ==> Storable(schedule))
  }

  /** A handler from loading the task to returning, against the database it reads. */
  function Handle(db: Database, now: int, r: Request): Handled {
    match r
    case CreateTask(t, user, url, schedule, library) =>
      if !ValidSchedule(schedule) then Handled(HTTP_422, None)
      else if !Builds(schedule, library) then Handled(HTTP_500, None)
      else if !CanFlush(db, t, schedule) then Handled(HTTP_500, None)
      else
        var row := Row(user, url, schedule, FirstFire(schedule, library.Fire()), true);
        Handled(HTTP_201, Some(Work(Txn(Entry(user, t, TaskCreated(url, schedule)), Insert(row)), Some(Register(t)))))
    case DeactivateTask(t, user) =>
      if !Visible(db, t, user) then Handled(HTTP_404, None)
      else if !db.rows[t].active then Handled(HTTP_200, None)
      else
        Handled(HTTP_200, Some(Work(
          Txn(Entry(user, t, TaskDeactivated), Update(false, Changed(db.rows[t].nextRunAt, None))),
          Some(Unregister(t)))))
    case ActivateTask(t, user, fire) =>
      if !Visible(db, t, user) then Handled(HTTP_404, None)
      else if db.rows[t].active then Handled(HTTP_200, None)
      else
        var next := FirstFire(db.rows[t].schedule, fire);
        if !CanActivate(db.rows[t].schedule, next, now) then Handled(HTTP_422, None)
        else
          Handled(HTTP_200, Some(Work(
            Txn(Entry(user, t, TaskActivated), Update(true, Changed(db.rows[t].nextRunAt, next))),
            Some(Register(t)))))
    case DeleteTask(t, user) =>
      if !Visible(db, t, user) then Handled(HTTP_404, None)
      else
        Handled(HTTP_204, Some(Work(
          Txn(Entry(user, t, TaskDeleted(db.rows[t].url, db.rows[t].schedule)), Delete),
          if db.rows[t].active then Some(Unregister(t)) else None)))
  }

  function RunBackground(schedules: set<TaskId>, b: Background): set<TaskId> {
    match b
    case Register(t) => schedules + {t}
    case Unregister(t) => schedules - {t}
  }

  // ---------------------------------------------------------------- executors and manual runs

  /** A scheduled execution between its steps.  `loadedAt` is how long the history was at the load. */
  datatype Job =
    | Loaded(task: TaskId, row: Row, loadedAt: nat)
    | Called(task: TaskId, row: Row, loadedAt: nat, outcome: Outcome)
    | OwesRemoval(task: TaskId)

  /** A manual run: loaded by the route, loaded again by the executor session, answered. */
  datatype ManualRun =
    | Accepted(task: TaskId, user: string, row: Row)
    | Sending(task: TaskId, user: string, row: Row)
    | Answered(task: TaskId, user: string, row: Row, outcome: Outcome)

  predicate Deactivates(row: Row, o: Outcome) {
    o.success && row.schedule.Once?
  }

  /** The transaction of an executor whose call was answered. */
  function JobTxn(t: TaskId, row: Row, o: Outcome): Txn {
    Txn(Entry(row.owner, t, Execution(Scheduled, row.url, o)),
        if Deactivates(row, o) then Update(false, Changed(row.nextRunAt, None)) else NoWrite)
  }

  function ManualTxn(t: TaskId, user: string, row: Row, o: Outcome): Txn {
    Txn(Entry(user, t, Execution(Manual, row.url, o)), NoWrite)
  }

  // ---------------------------------------------------------------- states and steps

  /** A request whose handler has run: its transaction and its background job are still to come, in
      either order. */
  datatype Pending = Pending(txn: Option<Txn>, background: Option<Background>)

  datatype State = State(
    db: Database,
    schedules: set<TaskId>,
    jobs: map<Ticket, Job>,
    runs: map<Ticket, ManualRun>,
    pending: map<Ticket, Pending>,
    clock: int,
    calls: nat,      // webhook calls finished so far
    lost: seq<Job>)  // called jobs whose commit was aborted

  datatype Step =
    | Serve(request: Request)                   // a whole request at once
    | Begin(ticket: Ticket, request: Request)   // or its handler,
    | CommitPending(ticket: Ticket)             // its commit
    | BackgroundPending(ticket: Ticket)         // and its background job
    | Fire(ticket: Ticket, task: TaskId)        // executor: load,
    | Call(ticket: Ticket, reply: Reply)        // webhook call,
    | CommitJob(ticket: Ticket)                 // commit,
    | RemoveSchedule(ticket: Ticket)            // removal of the schedule
    | RunAccept(ticket: Ticket, task: TaskId, user: string)  // manual run: load,
    | RunLoad(ticket: Ticket)                   // load in the executor session,
    | RunCall(ticket: Ticket, reply: Reply)     // webhook call,
    | RunCommit(ticket: Ticket)                 // commit
    | Exhaust(task: TaskId)                     // the scheduler drops a schedule with no fires left
    | Clock(now: int)

  const INITIAL := State(Database(map[], []), {}, map[], map[], map[], 0, 0, [])

  /** The framework runs the background job before the commit, so the job does not depend on it. */
  function ApplyServe(s: State, r: Request): State {
    match Handle(s.db, s.clock, r).work
    case None => s
    case Some(w) =>
      s.(db := if Commits(s.db, w.txn) then Commit(s.db, w.txn) else s.db,
         schedules := if w.background.Some? then RunBackground(s.schedules, w.background.value) else s.schedules)
  }

  function ApplyBegin(s: State, k: Ticket, r: Request): State {
    if k in s.pending then s
    else
      match Handle(s.db, s.clock, r).work
      case None => s
      case Some(w) => s.(pending := s.pending[k := Pending(Some(w.txn), w.background)])
  }

  function ApplyCommitPending(s: State, k: Ticket): State {
    if k !in s.pending || s.pending[k].txn.None? then s
    else
      var txn := s.pending[k].txn.value;
      s.(pending := s.pending[k := s.pending[k].(txn := None)],
         db := if Commits(s.db, txn) then Commit(s.db, txn) else s.db)
  }

  function ApplyBackgroundPending(s: State, k: Ticket): State {
    if k !in s.pending || s.pending[k].background.None? then s
    else
      s.(pending := s.pending[k := s.pending[k].(background := None)],
         schedules := RunBackground(s.schedules, s.pending[k].background.value))
  }

  /** The load of `execute_scheduled_task`: no row or an inactive one ends the execution. */
  function ApplyFire(s: State, k: Ticket, t: TaskId): State {
    if k in s.jobs || t !in s.db.rows || !s.db.rows[t].active then s
    else s.(jobs := s.jobs[k := Loaded(t, s.db.rows[t], |s.db.history|)])
  }

  function ApplyCall(s: State, k: Ticket, reply: Reply): State {
    if k !in s.jobs || !s.jobs[k].Loaded? then s
    else
      var j := s.jobs[k];
      s.(jobs := s.jobs[k := Called(j.task, j.row, j.loadedAt, FireTaskWebhook(reply))], calls := s.calls + 1)
  }

  /** The commit.  After a failed call the execution ends with an exception, its row committed; an
      aborted commit ends it too; a successful once-task goes on to remove its schedule. */
  function ApplyCommitJob(s: State, k: Ticket): State {
    if k !in s.jobs || !s.jobs[k].Called? then s
    else
      var j := s.jobs[k];
      var txn := JobTxn(j.task, j.row, j.outcome);
      if !Commits(s.db, txn) then s.(jobs := s.jobs - {k}, lost := s.lost + [j])
      else
        s.(db := Commit(s.db, txn),
           jobs := if Deactivates(j.row, j.outcome) then s.jobs[k := OwesRemoval(j.task)] else s.jobs - {k})
  }

  function ApplyRemoveSchedule(s: State, k: Ticket): State {
    if k !in s.jobs || !s.jobs[k].OwesRemoval? then s
    else s.(schedules := s.schedules - {s.jobs[k].task}, jobs := s.jobs - {k})
  }

  function ApplyRunAccept(s: State, k: Ticket, t: TaskId, user: string): State {
    if k in s.runs || !Visible(s.db, t, user) then s
    else s.(runs := s.runs[k := Accepted(t, user, s.db.rows[t])])
  }

  /** The executor session sees every user's tasks; a task deleted meanwhile ends the run. */
  function ApplyRunLoad(s: State, k: Ticket): State {
    if k !in s.runs || !s.runs[k].Accepted? then s
    else
      var m := s.runs[k];
      if m.task in s.db.rows then s.(runs := s.runs[k := Sending(m.task, m.user, m.row)])
      else s.(runs := s.runs - {k})
  }

  function ApplyRunCall(s: State, k: Ticket, reply: Reply): State {
    if k !in s.runs || !s.runs[k].Sending? then s
    else
      var m := s.runs[k];
      s.(runs := s.runs[k := Answered(m.task, m.user, m.row, FireTaskWebhook(reply))], calls := s.calls + 1)
  }

  /** The route commits before it turns a failed call into an HTTP error, so the row stays. */
  function ApplyRunCommit(s: State, k: Ticket): State {
    if k !in s.runs || !s.runs[k].Answered? then s
    else
      var m := s.runs[k];
      s.(db := Commit(s.db, ManualTxn(m.task, m.user, m.row, m.outcome)), runs := s.runs - {k})
  }

  /** A step that is not possible in `s` changes nothing. */
  function Apply(s: State, e: Step): State {
    match e
    case Serve(r) => ApplyServe(s, r)
    case Begin(k, r) => ApplyBegin(s, k, r)
    case CommitPending(k) => ApplyCommitPending(s, k)
    case BackgroundPending(k) => ApplyBackgroundPending(s, k)
    case Fire(k, t) => ApplyFire(s, k, t)
    case Call(k, reply) => ApplyCall(s, k, reply)
    case CommitJob(k) => ApplyCommitJob(s, k)
    case RemoveSchedule(k) => ApplyRemoveSchedule(s, k)
    case RunAccept(k, t, user) => ApplyRunAccept(s, k, t, user)
    case RunLoad(k) => ApplyRunLoad(s, k)
    case RunCall(k, reply) => ApplyRunCall(s, k, reply)
    case RunCommit(k) => ApplyRunCommit(s, k)
    case Exhaust(t) => s.(schedules := s.schedules - {t})
    case Clock(now) => s.(clock := now)
  }

  function Run(s: State, es: seq<Step>): State
    decreases |es|
  {
    if es == [] then s else Apply(Run(s, es[..|es| - 1]), es[|es| - 1])
  }

  /** The state after the first `n` steps of a run. */
  function At(es: seq<Step>, n: nat): State
    requires n <= |es|
  {
    Run(INITIAL, es[..n])
  }

  lemma AtStep(es: seq<Step>, n: nat)
    requires n < |es|
    ensures At(es, n + 1) == Apply(At(es, n), es[n])
  {
    assert es[..n + 1][..n] == es[..n];
  }

  lemma RunOne(s: State, es: seq<Step>, e: Step)
    ensures Run(s, es + [e]) == Apply(Run(s, es), e)
  {
    assert (es + [e])[..|es|] == es;
  }

  // ---------------------------------------------------------------- replaying the history

  /** What the history says about a task. */
  datatype Replayed = Unborn | Live(active: bool, once: bool) | Gone

  function IsOnce(r: Replayed): bool {
    r.Live? && r.once
  }

  function ReplayEvent(r: Replayed, e: Event): Replayed {
    match e
    case TaskCreated(_, schedule) => Live(true, schedule.Once?)
    case TaskActivated => Live(true, IsOnce(r))
    case TaskDeactivated => Live(false, IsOnce(r))
    case TaskDeleted(_, _) => Gone
    case Execution(source, _, o) =>
      if source == Scheduled && o.success && IsOnce(r) then Live(false, true) else r
  }

  /** The events of task `t` folded in commit order. */
  function Replay(h: seq<Entry>, t: TaskId): Replayed {
    if h == [] then Unborn
    else
      var before := Replay(h[..|h| - 1], t);
      if h[|h| - 1].task == t then ReplayEvent(before, h[|h| - 1].event) else before
  }

  lemma Extended(h: seq<Entry>, e: Entry)
    ensures (h + [e])[..|h|] == h
    ensures forall t :: Replay(h + [e], t) == if e.task == t then ReplayEvent(Replay(h, t), e.event) else Replay(h, t)
    ensures forall t :: Born(h + [e], t) == BornNext(Born(h, t), e, t)
  {
    assert (h + [e])[..|h|] == h;
  }
}
