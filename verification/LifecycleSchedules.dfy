/** The `next_run_at` column and the set of registered schedules. */
module LifecycleSchedules {
  import opened Options
  import opened Triggers
  import opened Webhook
  import opened Lifecycle
  import opened LifecycleInvariants
  import opened LifecycleTheorems

  // ---------------------------------------------------------------- once-tasks, any interleaving

  /** A once-task's next run is its `run_at` while it is active and nothing otherwise. */
  predicate OnceNext(row: Row) {
    row.schedule.Once? ==> row.nextRunAt == if row.active then Some(row.schedule.runAt) else None
  }

  ghost predicate TxnNext(h: seq<Entry>, txn: Txn) {
    match txn.write
    case Insert(row) => OnceNext(row)
    case Update(active, next) =>
      Born(h, txn.entry.task).Some? && Born(h, txn.entry.task).value.schedule.Once? ==>
        next == Some(if active then Some(Born(h, txn.entry.task).value.schedule.runAt) else None)
    case _ => true
  }

  ghost predicate NextInv(s: State) {
    && (forall t :: t in s.db.rows ==> OnceNext(s.db.rows[t]))
    && (forall k :: k in s.jobs && !s.jobs[k].OwesRemoval? ==> OnceNext(s.jobs[k].row))
    && (forall k :: k in s.pending && s.pending[k].txn.Some? ==> TxnNext(s.db.history, s.pending[k].txn.value))
  }

  lemma CommitNext(db: Database, txn: Txn)
    requires DbInv(db) && TxnInv(db.history, txn) && TxnNext(db.history, txn) && Commits(db, txn)
    requires forall t :: t in db.rows ==> OnceNext(db.rows[t])
    ensures forall t :: t in Commit(db, txn).rows ==> OnceNext(Commit(db, txn).rows[t])
  {}

  lemma HandleNext(db: Database, now: int, r: Request)
    requires DbInv(db) && Handle(db, now, r).work.Some?
    requires forall t :: t in db.rows ==> OnceNext(db.rows[t])
    ensures TxnNext(db.history, Handle(db, now, r).work.value.txn)
  {}

  /** What a step commits is right about the next run. */
  lemma WritesNext(s: State, e: Step)
    requires Inv(s) && NextInv(s) && Writes(s, e).Some?
    ensures TxnInv(s.db.history, Writes(s, e).value) && TxnNext(s.db.history, Writes(s, e).value)
  {
    match e {
      case Serve(r) =>
        HandleBuilds(s.db, s.clock, r);
        HandleNext(s.db, s.clock, r);
      case CommitJob(k) =>
        assert JobInv(s.db.history, s.jobs[k]);
      case RunCommit(k) =>
        assert RunInv(s.db.history, s.runs[k]);
      case _ =>
    }
  }

  /** A waiting transaction waited before the step, or the step's handler has just built it. */
  lemma PendingBeforeStep(s: State, e: Step, k: Ticket)
    requires k in Apply(s, e).pending && Apply(s, e).pending[k].txn.Some?
    ensures (k in s.pending && s.pending[k].txn == Apply(s, e).pending[k].txn)
            || (e.Begin? && Apply(s, e).db == s.db && Handle(s.db, s.clock, e.request).work.Some?
                && Apply(s, e).pending[k].txn.value == Handle(s.db, s.clock, e.request).work.value.txn)
  {
    hide Handle;
  }

  lemma NextGrows(h: seq<Entry>, h': seq<Entry>, txn: Txn)
    requires TxnInv(h, txn) && TxnNext(h, txn) && Grows(h, h')
    ensures TxnNext(h', txn)
  {}

  lemma PendingNext(s: State, e: Step)
    requires Inv(s) && NextInv(s)
    ensures forall k :: k in Apply(s, e).pending && Apply(s, e).pending[k].txn.Some? ==>
      TxnNext(Apply(s, e).db.history, Apply(s, e).pending[k].txn.value)
  {
    StepKeeps(s, e);
    hide Handle, Apply, TxnInv, TxnNext, Grows;
    var s' := Apply(s, e);
    forall k | k in s'.pending && s'.pending[k].txn.Some?
      ensures TxnNext(s'.db.history, s'.pending[k].txn.value)
    {
      PendingBeforeStep(s, e, k);
      if k in s.pending && s.pending[k].txn == s'.pending[k].txn {
        NextGrows(s.db.history, s'.db.history, s.pending[k].txn.value);
      } else {
        HandleNext(s.db, s.clock, e.request);
      }
    }
  }

  lemma NextStep(s: State, e: Step)
    requires Inv(s) && NextInv(s)
    ensures NextInv(Apply(s, e))
  {
    PendingNext(s, e);
    StepWrites(s, e);
    if Writes(s, e).Some? {
      WritesNext(s, e);
      CommitNext(s.db, Writes(s, e).value);
    }
    var s' := Apply(s, e);
    forall k | k in s'.jobs && !s'.jobs[k].OwesRemoval? ensures OnceNext(s'.jobs[k].row) {
      JobBeforeStep(s, e, k);
    }
  }

  lemma {:induction false} NextRun(es: seq<Step>)
    ensures NextInv(Run(INITIAL, es))
    decreases |es|
  {
    if es != [] {
      NextRun(es[..|es| - 1]);
      Reachable(es[..|es| - 1]);
      NextStep(Run(INITIAL, es[..|es| - 1]), es[|es| - 1]);
    }
  }

  /** In every state of every run, split requests included, an active once-task has its `run_at` as
      next run and an inactive one has none. */
  lemma OnceTaskNextRun(es: seq<Step>, t: TaskId)
    requires t in Run(INITIAL, es).db.rows && Run(INITIAL, es).db.rows[t].schedule.Once?
    ensures var row := Run(INITIAL, es).db.rows[t];
            row.nextRunAt == if row.active then Some(row.schedule.runAt) else None
  {
    NextRun(es);
  }

  // ---------------------------------------------------------------- every schedule, any interleaving

  /** The library's answers hang together: `canFire` says of each task whether its trigger has a fire at
      its creation; a trigger without one has none later. */
  predicate LawfulAnswer(canFire: TaskId -> bool, r: Request) {
    match r
    case CreateTask(t, _, _, schedule, library) =>
      Builds(schedule, library) ==> (FirstFire(schedule, library.Fire()).Some? <==> canFire(t))
    case ActivateTask(t, _, fire) => fire.Some? ==> canFire(t)
    case _ => true
  }

  predicate Lawful(canFire: TaskId -> bool, e: Step) {
    e.Begin? || e.Serve? ==> LawfulAnswer(canFire, e.request)
  }

  predicate AllLawful(canFire: TaskId -> bool, es: seq<Step>) {
    forall i :: 0 <= i < |es| ==> Lawful(canFire, es[i])
  }

  /** A row has a next run exactly if it is active and its trigger can fire. */
  predicate FireRow(canFire: TaskId -> bool, t: TaskId, row: Row) {
    && (row.nextRunAt.Some? <==> row.active && canFire(t))
    && (row.schedule.Once? ==> canFire(t))
  }

  /** What a transaction does to the next run, however long ago it was built. */
  predicate FireTxn(canFire: TaskId -> bool, txn: Txn) {
    var t := txn.entry.task;
    match txn.write
    case Insert(row) => FireRow(canFire, t, row)
    case Update(active, next) =>
      if active then canFire(t) && next.Some? && next.value.Some?
      else next == if canFire(t) then Some(None) else None
    case _ => true
  }

  ghost predicate FireInv(canFire: TaskId -> bool, s: State) {
    && (forall t :: t in s.db.rows ==> FireRow(canFire, t, s.db.rows[t]))
    && (forall k :: k in s.jobs && !s.jobs[k].OwesRemoval? ==>
          FireRow(canFire, s.jobs[k].task, s.jobs[k].row) && s.jobs[k].row.active)
    && (forall k :: k in s.pending && s.pending[k].txn.Some? ==> FireTxn(canFire, s.pending[k].txn.value))
  }

  lemma HandleFires(canFire: TaskId -> bool, db: Database, now: int, r: Request)
    requires LawfulAnswer(canFire, r) && Handle(db, now, r).work.Some?
    requires forall t :: t in db.rows ==> FireRow(canFire, t, db.rows[t])
    ensures FireTxn(canFire, Handle(db, now, r).work.value.txn)
  {}

  lemma WritesFires(canFire: TaskId -> bool, s: State, e: Step)
    requires FireInv(canFire, s) && Lawful(canFire, e) && Writes(s, e).Some?
    ensures FireTxn(canFire, Writes(s, e).value)
  {
    if e.Serve? { HandleFires(canFire, s.db, s.clock, e.request); }
  }

  lemma CommitFires(canFire: TaskId -> bool, db: Database, txn: Txn)
    requires FireTxn(canFire, txn) && Commits(db, txn)
    requires forall t :: t in db.rows ==> FireRow(canFire, t, db.rows[t])
    ensures forall t :: t in Commit(db, txn).rows ==> FireRow(canFire, t, Commit(db, txn).rows[t])
  {}

  lemma FireStep(canFire: TaskId -> bool, s: State, e: Step)
    requires FireInv(canFire, s) && Lawful(canFire, e)
    ensures FireInv(canFire, Apply(s, e))
  {
    StepWrites(s, e);
    if Writes(s, e).Some? {
      WritesFires(canFire, s, e);
      CommitFires(canFire, s.db, Writes(s, e).value);
    }
    if e.Begin? && Handle(s.db, s.clock, e.request).work.Some? { HandleFires(canFire, s.db, s.clock, e.request); }
    var s' := Apply(s, e);
    forall k | k in s'.jobs && !s'.jobs[k].OwesRemoval?
      ensures FireRow(canFire, s'.jobs[k].task, s'.jobs[k].row) && s'.jobs[k].row.active
    {
      JobBeforeStep(s, e, k);
    }
  }

  /** In every state of every run, requests split and overlapping in any way, a task has a next run
      exactly if it is active and its trigger can fire. */
  lemma {:induction false} TaskNextRun(canFire: TaskId -> bool, es: seq<Step>)
    requires AllLawful(canFire, es)
    ensures FireInv(canFire, Run(INITIAL, es))
    ensures forall t :: t in Run(INITIAL, es).db.rows ==>
      (Run(INITIAL, es).db.rows[t].nextRunAt.Some? <==> Run(INITIAL, es).db.rows[t].active && canFire(t))
    decreases |es|
  {
    if es != [] {
      assert forall i :: 0 <= i < |es| - 1 ==> es[..|es| - 1][i] == es[i];
      TaskNextRun(canFire, es[..|es| - 1]);
      FireStep(canFire, Run(INITIAL, es[..|es| - 1]), es[|es| - 1]);
    }
  }

  /** In particular no inactive task has one. */
  lemma InactiveTaskNextRun(canFire: TaskId -> bool, es: seq<Step>)
    requires AllLawful(canFire, es)
    ensures InactiveHasNoNext(Run(INITIAL, es))
  {
    TaskNextRun(canFire, es);
  }

  // ---------------------------------------------------------------- whole requests

  /** Requests are served whole; executors and manual runs stay split. */
  predicate Atomic(e: Step) {
    !e.Begin? && !e.CommitPending? && !e.BackgroundPending?
  }

  predicate AllAtomic(es: seq<Step>) {
    forall i :: 0 <= i < |es| ==> Atomic(es[i])
  }

  ghost predicate InactiveHasNoNext(s: State) {
    forall t :: t in s.db.rows && !s.db.rows[t].active ==> s.db.rows[t].nextRunAt.None?
  }

  lemma AtomicQuiet(s: State, e: Step)
    requires Inv(s) && NextInv(s) && InactiveHasNoNext(s) && Atomic(e)
    ensures InactiveHasNoNext(Apply(s, e))
  {
    StepWrites(s, e);
    if e.CommitJob? && Writes(s, e).Some? {
      WritesNext(s, e);
      assert JobInv(s.db.history, s.jobs[e.ticket]);
    }
  }

  // ---------------------------------------------------------------- schedules, step by step

  predicate ActiveRow(s: State, t: TaskId) {
    t in s.db.rows && s.db.rows[t].active
  }

  /** An executor still owes the removal of the schedule of `t`. */
  ghost predicate Owed(s: State, t: TaskId) {
    exists k :: k in s.jobs && s.jobs[k] == OwesRemoval(t)
  }

  /** A registered schedule belongs to an active task or to one whose executor still owes its removal. */
  ghost predicate SchedulesAccounted(s: State) {
    forall t :: t in s.schedules ==> ActiveRow(s, t) || Owed(s, t)
  }

  /** A registration that runs when its task is not active. */
  ghost predicate LateRegistration(s: State, e: Step) {
    && e.BackgroundPending? && e.ticket in s.pending
    && var b := s.pending[e.ticket].background;
    && b.Some? && b.value.Register? && !ActiveRow(s, b.value.task) && !Owed(s, b.value.task)
  }

  predicate Ends(w: Write) {
    w.Delete? || (w.Update? && !w.active)
  }

  predicate Starts(w: Write) {
    w.Insert? || (w.Update? && w.active)
  }

  /** The commit of a pause or a deletion while the schedule is still registered. */
  ghost predicate EarlyEnd(s: State, e: Step) {
    && e.CommitPending? && e.ticket in s.pending && s.pending[e.ticket].txn.Some?
    && var txn := s.pending[e.ticket].txn.value;
    && Commits(s.db, txn) && Ends(txn.write)
    && txn.entry.task in s.schedules && !Owed(s, txn.entry.task)
  }

  /** A whole creation whose commit fails after its schedule was registered. */
  predicate TooLongCreation(s: State, e: Step) {
    e.Serve? && e.request.CreateTask? && Handle(s.db, s.clock, e.request).work.Some? && TooLong(e.request.schedule)
  }

  lemma OwedStays(s: State, s': State, t: TaskId)
    requires Owed(s, t)
    requires forall k :: k in s.jobs && s.jobs[k] == OwesRemoval(t) ==> k in s'.jobs && s'.jobs[k] == s.jobs[k]
    ensures Owed(s', t)
  {
    var k :| k in s.jobs && s.jobs[k] == OwesRemoval(t);
    assert k in s'.jobs;
  }

  lemma UnbornNotOwed(s: State, t: TaskId)
    requires Inv(s) && Born(s.db.history, t).None?
    ensures !Owed(s, t)
  {
    forall k | k in s.jobs ensures s.jobs[k] != OwesRemoval(t) {
      assert JobInv(s.db.history, s.jobs[k]);
    }
  }

  lemma ServeAccountedIff(s: State, r: Request)
    requires Inv(s) && SchedulesAccounted(s)
    ensures SchedulesAccounted(ApplyServe(s, r)) <==> !TooLongCreation(s, Serve(r))
  {
    var s' := ApplyServe(s, r);
    assert forall t :: Owed(s', t) == Owed(s, t);
    if TooLongCreation(s, Serve(r)) {
      assert r.task in s'.schedules && !ActiveRow(s', r.task);
      UnbornNotOwed(s, r.task);
    }
  }

  lemma BackgroundAccountedIff(s: State, k: Ticket)
    requires SchedulesAccounted(s)
    ensures SchedulesAccounted(ApplyBackgroundPending(s, k)) <==> !LateRegistration(s, BackgroundPending(k))
  {
    var s' := ApplyBackgroundPending(s, k);
    assert forall t :: Owed(s', t) == Owed(s, t) && ActiveRow(s', t) == ActiveRow(s, t);
    if LateRegistration(s, BackgroundPending(k)) {
      assert s.pending[k].background.value.task in s'.schedules;
    }
  }

  lemma CommitPendingAccountedIff(s: State, k: Ticket)
    requires SchedulesAccounted(s)
    ensures SchedulesAccounted(ApplyCommitPending(s, k)) <==> !EarlyEnd(s, CommitPending(k))
  {
    var s' := ApplyCommitPending(s, k);
    assert forall t :: Owed(s', t) == Owed(s, t);
    if EarlyEnd(s, CommitPending(k)) {
      var t := s.pending[k].txn.value.entry.task;
      assert t in s'.schedules && !ActiveRow(s', t);
    }
  }

  /** The commit of an execution leaves the schedule of a deactivated task to the removal it owes. */
  lemma CommitJobAccounted(s: State, k: Ticket)
    requires SchedulesAccounted(s)
    ensures SchedulesAccounted(ApplyCommitJob(s, k))
  {
    var s' := ApplyCommitJob(s, k);
    forall t | t in s'.schedules ensures ActiveRow(s', t) || Owed(s', t) {
      if ActiveRow(s, t) {
        if k in s.jobs && s.jobs[k].Called? && s.jobs[k].task == t && k in s'.jobs {
          assert s'.jobs[k] == OwesRemoval(t);
        }
      } else {
        OwedStays(s, s', t);
      }
    }
  }

  predicate TouchesSchedules(e: Step) {
    e.Serve? || e.BackgroundPending? || e.CommitPending? || e.CommitJob?
  }

  lemma OtherStepAccounted(s: State, e: Step)
    requires SchedulesAccounted(s) && !TouchesSchedules(e)
    ensures SchedulesAccounted(Apply(s, e))
  {
    var s' := Apply(s, e);
    StepWrites(s, e);
    assert s'.db.rows == s.db.rows;
    forall t | t in s'.schedules ensures ActiveRow(s', t) || Owed(s', t) {
      if !ActiveRow(s, t) {
        var k :| k in s.jobs && s.jobs[k] == OwesRemoval(t);
        assert s'.jobs[k] == OwesRemoval(t);
      }
    }
  }

  /** Exactly which steps leave a schedule behind: a late registration, an early end and a creation
      that cannot commit. */
  lemma SchedulesAccountedIff(s: State, e: Step)
    requires Inv(s) && SchedulesAccounted(s)
    ensures SchedulesAccounted(Apply(s, e)) <==>
            !LateRegistration(s, e) && !EarlyEnd(s, e) && !TooLongCreation(s, e)
  {
    hide Inv, SchedulesAccounted, LateRegistration, EarlyEnd, TooLongCreation;
    NoOtherCulprit(s, e);
    match e {
      case Serve(r) => ServeAccountedIff(s, r);
      case BackgroundPending(k) => BackgroundAccountedIff(s, k);
      case CommitPending(k) => CommitPendingAccountedIff(s, k);
      case CommitJob(k) => CommitJobAccounted(s, k);
      case _ => OtherStepAccounted(s, e);
    }
  }

  lemma NoOtherCulprit(s: State, e: Step)
    ensures !e.BackgroundPending? ==> !LateRegistration(s, e)
    ensures !e.CommitPending? ==> !EarlyEnd(s, e)
    ensures !e.Serve? ==> !TooLongCreation(s, e)
  {}
}
