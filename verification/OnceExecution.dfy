/** How often a once-task is executed successfully by the scheduler. */
module OnceExecution {
  import opened Options
  import opened Triggers
  import opened Webhook
  import opened Lifecycle
  import opened LifecycleInvariants
  import opened LifecycleTheorems
  import opened LifecycleSchedules

  predicate IsSuccess(e: Entry, t: TaskId) {
    e.task == t && e.event.Execution? && e.event.source == Scheduled && e.event.outcome.success
  }

  /** Successful scheduled executions of `t`. */
  function Successes(h: seq<Entry>, t: TaskId): nat {
    if h == [] then 0
    else Successes(h[..|h| - 1], t) + if IsSuccess(h[|h| - 1], t) then 1 else 0
  }

  lemma SuccessesExtended(h: seq<Entry>, e: Entry, t: TaskId)
    ensures Successes(h + [e], t) == Successes(h, t) + if IsSuccess(e, t) then 1 else 0
  {
    Extended(h, e);
  }

  lemma {:induction false} NoEntryNoSuccess(h: seq<Entry>, t: TaskId)
    requires forall k :: 0 <= k < |h| ==> h[k].task != t
    ensures Successes(h, t) == 0
    decreases |h|
  {
    if h != [] { NoEntryNoSuccess(h[..|h| - 1], t); }
  }

  lemma UnbornNoSuccess(db: Database, t: TaskId)
    requires DbInv(db) && Born(db.history, t).None?
    ensures Successes(db.history, t) == 0
  {
    forall k | 0 <= k < |db.history| ensures db.history[k].task != t {
      assert EntryAgrees(db.history, db.history[k]);
    }
    NoEntryNoSuccess(db.history, t);
  }

  predicate OnceRow(db: Database, t: TaskId) {
    t in db.rows && db.rows[t].schedule.Once?
  }

  predicate Holds(j: Job, t: TaskId) {
    !j.OwesRemoval? && j.task == t
  }

  /** What the program relies on without enforcing it: whole requests, a clock that never goes back, no
      fire of a once-task before its time, no executor that loads a once-task while another holds it. */
  datatype Rule = WHOLE_REQUESTS | MONOTONE_CLOCK | TIMELY_FIRES | ONE_EXECUTOR

  ghost predicate Keeps(rule: Rule, s: State, e: Step) {
    match rule
    case WHOLE_REQUESTS => Atomic(e)
    case MONOTONE_CLOCK => e.Clock? ==> s.clock <= e.now
    case TIMELY_FIRES => e.Fire? && OnceRow(s.db, e.task) ==> s.db.rows[e.task].schedule.runAt <= s.clock
    case ONE_EXECUTOR => e.Fire? && OnceRow(s.db, e.task) ==> forall k :: k in s.jobs ==> !Holds(s.jobs[k], e.task)
  }

  const ALL_RULES := {WHOLE_REQUESTS, MONOTONE_CLOCK, TIMELY_FIRES, ONE_EXECUTOR}

  /** Every step of the run keeps the rules. */
  ghost predicate Follows(rules: set<Rule>, es: seq<Step>)
    decreases |es|
  {
    es == [] || (Follows(rules, es[..|es| - 1])
                 && forall rule :: rule in rules ==> Keeps(rule, Run(INITIAL, es[..|es| - 1]), es[|es| - 1]))
  }

  /** The first three rules. */
  ghost predicate Disciplined(s: State, e: Step) {
    Keeps(WHOLE_REQUESTS, s, e) && Keeps(MONOTONE_CLOCK, s, e) && Keeps(TIMELY_FIRES, s, e)
  }

  ghost predicate DisciplinedRun(s: State, es: seq<Step>)
    decreases |es|
  {
    es == [] || (DisciplinedRun(s, es[..|es| - 1]) && Disciplined(Run(s, es[..|es| - 1]), es[|es| - 1]))
  }

  /** The time of a once-task has come before any executor holds it, and stays so after a success,
      which leaves the task inactive. */
  ghost predicate TimeInv(s: State) {
    && (forall k :: k in s.jobs && !s.jobs[k].OwesRemoval? && s.jobs[k].row.schedule.Once? ==>
          s.jobs[k].row.schedule.runAt <= s.clock)
    && (forall t :: OnceRow(s.db, t) && Successes(s.db.history, t) > 0 ==>
          !s.db.rows[t].active && s.db.rows[t].schedule.runAt <= s.clock)
  }

  /** After the time has come no activation of the task is accepted. */
  lemma ActivationRefused(db: Database, now: int, r: Request, t: TaskId)
    requires OnceRow(db, t) && !db.rows[t].active && db.rows[t].schedule.runAt <= now
    requires Handle(db, now, r).work.Some? && Commits(db, Handle(db, now, r).work.value.txn)
    ensures var db' := Commit(db, Handle(db, now, r).work.value.txn);
            t in db'.rows ==> db'.rows[t] == db.rows[t]
  {}

  lemma HandlersWriteNoSuccess(db: Database, now: int, r: Request, t: TaskId)
    requires Handle(db, now, r).work.Some?
    ensures !IsSuccess(Handle(db, now, r).work.value.txn.entry, t)
  {}

  lemma StepSuccesses(s: State, e: Step, t: TaskId)
    ensures Successes(Apply(s, e).db.history, t) == Successes(s.db.history, t)
      + if Writes(s, e).Some? && IsSuccess(Writes(s, e).value.entry, t) then 1 else 0
  {
    StepWrites(s, e);
    if Writes(s, e).Some? { SuccessesExtended(s.db.history, Writes(s, e).value.entry, t); }
  }

  lemma TimeOfServed(s: State, r: Request, t: TaskId)
    requires DbInv(s.db) && TimeInv(s) && Writes(s, Serve(r)).Some? && Successes(s.db.history, t) > 0
    requires OnceRow(Commit(s.db, Writes(s, Serve(r)).value), t)
    ensures var row := Commit(s.db, Writes(s, Serve(r)).value).rows[t]; !row.active && row.schedule.runAt <= s.clock
  {
    hide Successes, DbInv;
    if Born(s.db.history, t).None? {
      UnbornNoSuccess(s.db, t);
    } else {
      assert OnceRow(s.db, t);
      ActivationRefused(s.db, s.clock, r, t);
    }
  }

  lemma TimeOfExecuted(s: State, k: Ticket, t: TaskId)
    requires Inv(s) && TimeInv(s) && Writes(s, CommitJob(k)).Some?
    requires OnceRow(Commit(s.db, Writes(s, CommitJob(k)).value), t)
    requires Successes(s.db.history, t) > 0 || IsSuccess(Writes(s, CommitJob(k)).value.entry, t)
    ensures var row := Commit(s.db, Writes(s, CommitJob(k)).value).rows[t]; !row.active && row.schedule.runAt <= s.clock
  {
    hide TxnInv, LostInv, RunInv, Successes;
    assert JobInv(s.db.history, s.jobs[k]);
  }

  lemma TimeOfRows(s: State, e: Step, t: TaskId)
    requires Inv(s) && TimeInv(s) && Disciplined(s, e)
    requires OnceRow(Apply(s, e).db, t) && Successes(Apply(s, e).db.history, t) > 0
    ensures !Apply(s, e).db.rows[t].active && Apply(s, e).db.rows[t].schedule.runAt <= Apply(s, e).clock
  {
    hide JobInv, TxnInv, LostInv, RunInv, Successes, Handle;
    StepSuccesses(s, e, t);
    StepWrites(s, e);
    if e.CommitJob? && Writes(s, e).Some? {
      TimeOfExecuted(s, e.ticket, t);
    } else if e.Serve? && Writes(s, e).Some? {
      HandlersWriteNoSuccess(s.db, s.clock, e.request, t);
      TimeOfServed(s, e.request, t);
    }
  }

  lemma TimeStep(s: State, e: Step)
    requires Inv(s) && TimeInv(s) && Disciplined(s, e)
    ensures TimeInv(Apply(s, e))
  {
    var s' := Apply(s, e);
    forall k | k in s'.jobs && !s'.jobs[k].OwesRemoval? && s'.jobs[k].row.schedule.Once?
      ensures s'.jobs[k].row.schedule.runAt <= s'.clock
    {
      JobBeforeStep(s, e, k);
    }
    forall t | OnceRow(s'.db, t) && Successes(s'.db.history, t) > 0
      ensures !s'.db.rows[t].active && s'.db.rows[t].schedule.runAt <= s'.clock
    {
      TimeOfRows(s, e, t);
    }
  }

  lemma {:induction false} TimeRun(es: seq<Step>)
    requires DisciplinedRun(INITIAL, es)
    ensures TimeInv(Run(INITIAL, es))
    decreases |es|
  {
    if es != [] {
      TimeRun(es[..|es| - 1]);
      Reachable(es[..|es| - 1]);
      TimeStep(Run(INITIAL, es[..|es| - 1]), es[|es| - 1]);
    }
  }

  // ---------------------------------------------------------------- when no success can follow

  /** An executor that may still commit a success of `t`. */
  predicate Potent(j: Job, t: TaskId) {
    !j.OwesRemoval? && j.task == t && (j.Called? ==> j.outcome.success)
  }

  ghost predicate NoPotentJob(s: State, t: TaskId) {
    forall k :: k in s.jobs ==> !Potent(s.jobs[k], t)
  }

  ghost predicate BornOnce(s: State, t: TaskId) {
    Born(s.db.history, t).Some? && Born(s.db.history, t).value.schedule.Once?
  }

  /** The once-task `t` is gone, or over and out of every executor's hands. */
  ghost predicate Spent(s: State, t: TaskId) {
    && BornOnce(s, t)
    && (t in s.db.rows ==>
          OnceRow(s.db, t) && !s.db.rows[t].active && s.db.rows[t].schedule.runAt <= s.clock && NoPotentJob(s, t))
  }

  lemma SpentWritesNoSuccess(s: State, e: Step, t: TaskId)
    requires Inv(s) && Spent(s, t) && Atomic(e) && Writes(s, e).Some?
    ensures !IsSuccess(Writes(s, e).value.entry, t)
    ensures var db' := Commit(s.db, Writes(s, e).value);
            t in db'.rows ==> t in s.db.rows && db'.rows[t] == s.db.rows[t]
  {
    match e {
      case Serve(r) =>
        HandlersWriteNoSuccess(s.db, s.clock, r, t);
        if t in s.db.rows { ActivationRefused(s.db, s.clock, r, t); }
      case CommitJob(k) =>
        assert JobInv(s.db.history, s.jobs[k]);
        assert t in s.db.rows ==> !Potent(s.jobs[k], t);
      case _ =>
    }
  }

  lemma SpentStep(s: State, e: Step, t: TaskId)
    requires Inv(s) && Spent(s, t) && Disciplined(s, e)
    ensures Spent(Apply(s, e), t)
    ensures Successes(Apply(s, e).db.history, t) == Successes(s.db.history, t)
  {
    hide Inv, Successes, NoPotentJob, Potent;
    StepKeeps(s, e);
    StepWrites(s, e);
    StepSuccesses(s, e, t);
    if Writes(s, e).Some? { SpentWritesNoSuccess(s, e, t); }
    if t in s.db.rows { NoPotentStep(s, e, t); }
  }

  /** No executor of a paused task becomes potent. */
  lemma NoPotentStep(s: State, e: Step, t: TaskId)
    requires NoPotentJob(s, t) && t in s.db.rows && !s.db.rows[t].active
    ensures NoPotentJob(Apply(s, e), t)
  {
    var s' := Apply(s, e);
    forall k | k in s'.jobs ensures !Potent(s'.jobs[k], t) {
      if k in s.jobs {
        PotencyOnlyFades(s, e, k, t);
      } else if !s'.jobs[k].OwesRemoval? {
        JobBeforeStep(s, e, k);
      }
    }
  }

  lemma PotencyOnlyFades(s: State, e: Step, k: Ticket, t: TaskId)
    requires k in s.jobs && k in Apply(s, e).jobs
    ensures Potent(Apply(s, e).jobs[k], t) ==> Potent(s.jobs[k], t)
  {}

  lemma {:induction false} SpentRun(s: State, fs: seq<Step>, t: TaskId)
    requires Inv(s) && Spent(s, t) && DisciplinedRun(s, fs)
    ensures Successes(Run(s, fs).db.history, t) == Successes(s.db.history, t)
    ensures Spent(Run(s, fs), t)
    decreases |fs|
  {
    if fs != [] {
      SpentRun(s, fs[..|fs| - 1], t);
      RunKeeps(s, fs[..|fs| - 1]);
      SpentStep(Run(s, fs[..|fs| - 1]), fs[|fs| - 1], t);
    }
  }

  const OK := Response(200)

  lemma DisciplinedOne(s: State, es: seq<Step>, e: Step)
    requires DisciplinedRun(s, es) && Disciplined(Run(s, es), e)
    ensures DisciplinedRun(s, es + [e])
  {
    assert (es + [e])[..|es|] == es;
  }

  lemma PotentCommits(s: State, k: Ticket, t: TaskId)
    requires k in s.jobs && s.jobs[k].Called? && Potent(s.jobs[k], t) && t in s.db.rows
    ensures var s' := ApplyCommitJob(s, k);
            && Successes(s'.db.history, t) == Successes(s.db.history, t) + 1 && t in s'.db.rows
            && forall l :: l in s.jobs && l != k ==> l in s'.jobs && s'.jobs[l] == s.jobs[l]
  {
    var txn := JobTxn(t, s.jobs[k].row, s.jobs[k].outcome);
    SuccessesExtended(s.db.history, txn.entry, t);
  }

  lemma LoadedCalls(s: State, k: Ticket, t: TaskId)
    requires k in s.jobs && s.jobs[k].Loaded? && s.jobs[k].task == t
    ensures var s' := ApplyCall(s, k, OK);
            && s'.db == s.db && k in s'.jobs && s'.jobs[k].Called? && Potent(s'.jobs[k], t)
            && forall l :: l in s.jobs && l != k ==> l in s'.jobs && s'.jobs[l] == s.jobs[l]
  {}

  /** Bringing a potent executor to the point before its commit. */
  lemma PotentCalls(s: State, k: Ticket, t: TaskId) returns (fs: seq<Step>)
    requires k in s.jobs && Potent(s.jobs[k], t)
    ensures DisciplinedRun(s, fs)
    ensures var s' := Run(s, fs);
            && s'.db == s.db && k in s'.jobs && s'.jobs[k].Called? && Potent(s'.jobs[k], t)
            && forall l :: l in s.jobs && l != k ==> l in s'.jobs && s'.jobs[l] == s.jobs[l]
  {
    fs := [];
    if s.jobs[k].Loaded? {
      RunOne(s, fs, Call(k, OK));
      DisciplinedOne(s, fs, Call(k, OK));
      fs := fs + [Call(k, OK)];
      LoadedCalls(s, k, t);
      hide Run, DisciplinedRun, Potent, ApplyCall;
    }
  }

  /** A potent executor of a task that still has its row can commit one more success, and leaves the
      other executors as they are. */
  lemma PotentSucceeds(s: State, k: Ticket, t: TaskId) returns (fs: seq<Step>)
    requires k in s.jobs && Potent(s.jobs[k], t) && t in s.db.rows
    ensures DisciplinedRun(s, fs)
    ensures var s' := Run(s, fs);
            && Successes(s'.db.history, t) == Successes(s.db.history, t) + 1 && t in s'.db.rows
            && forall l :: l in s.jobs && l != k ==> l in s'.jobs && s'.jobs[l] == s.jobs[l]
  {
    hide Run, DisciplinedRun, Potent, Successes, ApplyCommitJob;
    fs := PotentCalls(s, k, t);
    RunOne(s, fs, CommitJob(k));
    DisciplinedOne(s, fs, CommitJob(k));
    PotentCommits(Run(s, fs), k, t);
    fs := fs + [CommitJob(k)];
  }

  /** Exactly when a once-task that has succeeded is over for good: if and only if its row is gone or
      no executor that has loaded it can still commit a success.  A caller can see the condition
      before it commits the first success: no other executor holds the task. */
  lemma NoFurtherSuccessIff(es: seq<Step>, t: TaskId)
    requires DisciplinedRun(INITIAL, es) && BornOnce(Run(INITIAL, es), t)
    requires Successes(Run(INITIAL, es).db.history, t) > 0
    ensures var s := Run(INITIAL, es);
            (forall fs :: DisciplinedRun(s, fs) ==>
               Successes(Run(s, fs).db.history, t) == Successes(s.db.history, t))
            <==> (t !in s.db.rows || NoPotentJob(s, t))
  {
    var s := Run(INITIAL, es);
    Reachable(es);
    TimeRun(es);
    if t !in s.db.rows || NoPotentJob(s, t) {
      assert t in s.db.rows ==> OnceRow(s.db, t);
      assert Spent(s, t);
      forall fs | DisciplinedRun(s, fs)
        ensures Successes(Run(s, fs).db.history, t) == Successes(s.db.history, t)
      {
        SpentRun(s, fs, t);
      }
    } else {
      var k :| k in s.jobs && Potent(s.jobs[k], t);
      var fs := PotentSucceeds(s, k, t);
    }
  }

  // ---------------------------------------------------------------- one executor at a time

  lemma {:induction false} FollowsAll(es: seq<Step>)
    requires Follows(ALL_RULES, es)
    ensures DisciplinedRun(INITIAL, es)
    decreases |es|
  {
    if es != [] { FollowsAll(es[..|es| - 1]); }
  }

  ghost predicate OneHolder(s: State, t: TaskId) {
    forall k, l :: k in s.jobs && l in s.jobs && Holds(s.jobs[k], t) && Holds(s.jobs[l], t) ==> k == l
  }

  lemma OneHolderStep(s: State, e: Step, t: TaskId)
    requires Inv(s) && OneHolder(s, t) && Keeps(ONE_EXECUTOR, s, e) && BornOnce(s, t)
    ensures OneHolder(Apply(s, e), t)
  {
    var s' := Apply(s, e);
    forall k, l | k in s'.jobs && l in s'.jobs && Holds(s'.jobs[k], t) && Holds(s'.jobs[l], t) ensures k == l {
      JobBeforeStep(s, e, k);
      JobBeforeStep(s, e, l);
    }
  }

  /** The commit of the only holder leaves the task spent. */
  lemma FirstSuccess(s: State, e: Step, t: TaskId)
    requires Inv(s) && TimeInv(s) && BornOnce(s, t) && OneHolder(s, t) && Disciplined(s, e)
    requires Writes(s, e).Some? && IsSuccess(Writes(s, e).value.entry, t)
    ensures Spent(Apply(s, e), t)
  {
    var s' := Apply(s, e);
    StepKeeps(s, e);
    StepWrites(s, e);
    if e.Serve? { HandlersWriteNoSuccess(s.db, s.clock, e.request, t); }
    var k := e.ticket;
    assert e.CommitJob? && Holds(s.jobs[k], t) && JobInv(s.db.history, s.jobs[k]);
    forall l | l in s'.jobs ensures !Potent(s'.jobs[l], t) {
      if !s'.jobs[l].OwesRemoval? {
        assert l != k && s'.jobs[l] == s.jobs[l];
        assert !Holds(s.jobs[l], t);
      }
    }
  }

  lemma {:induction false} ExclusiveInv(es: seq<Step>, t: TaskId)
    requires Follows(ALL_RULES, es)
    ensures var s := Run(INITIAL, es);
            BornOnce(s, t) ==>
              && OneHolder(s, t) && Successes(s.db.history, t) <= 1
              && (Successes(s.db.history, t) == 1 ==> Spent(s, t))
    decreases |es|
  {
    if es != [] {
      var before, e := es[..|es| - 1], es[|es| - 1];
      var s := Run(INITIAL, before);
      ExclusiveInv(before, t);
      Reachable(before);
      FollowsAll(before);
      TimeRun(before);
      StepSuccesses(s, e, t);
      if BornOnce(s, t) {
        OneHolderStep(s, e, t);
        if Successes(s.db.history, t) == 1 {
          SpentStep(s, e, t);
        } else if Writes(s, e).Some? && IsSuccess(Writes(s, e).value.entry, t) {
          FirstSuccess(s, e, t);
        }
      } else if BornOnce(Apply(s, e), t) {
        JustBorn(s, e, t);
      }
    }
  }

  lemma JustBorn(s: State, e: Step, t: TaskId)
    requires Inv(s) && Atomic(e) && !BornOnce(s, t) && BornOnce(Apply(s, e), t)
    ensures OneHolder(Apply(s, e), t) && Successes(Apply(s, e).db.history, t) == 0
  {
    var h := s.db.history;
    StepKeeps(s, e);
    StepWrites(s, e);
    StepSuccesses(s, e, t);
    assert Born(h, t).None?;
    if Writes(s, e).Some? { Extended(h, Writes(s, e).value.entry); }
    UnbornNoSuccess(s.db, t);
    assert Writes(s, e).Some?;
    forall k | k in Apply(s, e).jobs ensures !Holds(Apply(s, e).jobs[k], t) {
      if !Apply(s, e).jobs[k].OwesRemoval? {
        JobBeforeStep(s, e, k);
        if k in s.jobs { assert JobInv(h, s.jobs[k]); }
      }
    }
  }

  /** With atomic requests, a clock that never goes back, no early fires and one executor at a time on
      each task, a once-task has at most one successful scheduled execution in the whole run. */
  lemma AtMostOneSuccess(es: seq<Step>, t: TaskId)
    requires Follows(ALL_RULES, es) && BornOnce(Run(INITIAL, es), t)
    ensures Successes(Run(INITIAL, es).db.history, t) <= 1
  {
    ExclusiveInv(es, t);
  }

  // ---------------------------------------------------------------- every hypothesis is needed

  lemma {:induction false} RunAppend(s: State, es: seq<Step>, fs: seq<Step>)
    ensures Run(s, es + fs) == Run(Run(s, es), fs)
    decreases |fs|
  {
    if fs == [] {
      assert es + fs == es;
    } else {
      assert (es + fs)[..|es + fs| - 1] == es + fs[..|fs| - 1];
      RunAppend(s, es, fs[..|fs| - 1]);
    }
  }

  /** One undisturbed execution with a 200 answer. */
  function Cycle(k: Ticket, t: TaskId): seq<Step> {
    [Fire(k, t), Call(k, OK), CommitJob(k)]
  }

  lemma RunThree(s: State, a: Step, b: Step, c: Step)
    ensures Run(s, [a, b, c]) == Apply(Apply(Apply(s, a), b), c)
  {
    var none: seq<Step> := [];
    RunOne(s, none, a);
    RunOne(s, none + [a], b);
    RunOne(s, none + [a] + [b], c);
    assert none + [a] + [b] + [c] == [a, b, c];
  }

  const DUE := 100000000000

  /** The row of the example task. */
  function DueRow(active: bool): Row {
    Row("user", "url", Once(DUE), if active then Some(DUE) else None, active)
  }

  const CREATE_DUE := Serve(CreateTask(1, "user", "url", Once(DUE), Finds(None)))
  const ACTIVATE := ActivateTask(1, "user", None)

  lemma CycleEffect(s: State, k: Ticket)
    requires k !in s.jobs && s.db.rows == map[1 := DueRow(true)]
    ensures var s' := Run(s, Cycle(k, 1));
            && s'.db.rows == map[1 := DueRow(false)] && s'.jobs == s.jobs[k := OwesRemoval(1)]
            && s'.clock == s.clock && s'.pending == s.pending
            && Successes(s'.db.history, 1) == Successes(s.db.history, 1) + 1
  {
    hide ApplyFire, ApplyCall, ApplyCommitJob, Run, Successes;
    CycleIs(s, k);
    FireAndCallOfDue(s, k);
    CommitOfDue(ApplyCall(ApplyFire(s, k, 1), k, OK), k);
  }

  lemma CycleIs(s: State, k: Ticket)
    ensures Run(s, Cycle(k, 1)) == ApplyCommitJob(ApplyCall(ApplyFire(s, k, 1), k, OK), k)
  {
    hide ApplyFire, ApplyCall, ApplyCommitJob, Run;
    RunThree(s, Fire(k, 1), Call(k, OK), CommitJob(k));
  }

  lemma FireAndCallOfDue(s: State, k: Ticket)
    requires k !in s.jobs && s.db.rows == map[1 := DueRow(true)]
    ensures ApplyCall(ApplyFire(s, k, 1), k, OK) ==
      s.(jobs := s.jobs[k := Called(1, DueRow(true), |s.db.history|, FireTaskWebhook(OK))], calls := s.calls + 1)
  {
    var loaded := Loaded(1, DueRow(true), |s.db.history|);
    var called := Called(1, DueRow(true), |s.db.history|, FireTaskWebhook(OK));
    assert ApplyFire(s, k, 1) == s.(jobs := s.jobs[k := loaded]);
    assert s.jobs[k := loaded][k := called] == s.jobs[k := called];
  }

  lemma CommitOfDue(s: State, k: Ticket)
    requires s.db.rows == map[1 := DueRow(true)] && k in s.jobs && s.jobs[k].Called?
    requires s.jobs[k].task == 1 && s.jobs[k].row == DueRow(true) && s.jobs[k].outcome.success
    ensures var s' := ApplyCommitJob(s, k);
            && s'.db.rows == map[1 := DueRow(false)] && s'.jobs == s.jobs[k := OwesRemoval(1)]
            && s'.clock == s.clock && s'.pending == s.pending
            && Successes(s'.db.history, 1) == Successes(s.db.history, 1) + 1
  {
    PotentCommits(s, k, 1);
  }

  /** After `es`, which keeps the rules, the example task stands as given and has succeeded `n` times;
      its executors, with tickets up to `n`, have only removals to do. */
  ghost predicate Stands(rules: set<Rule>, es: seq<Step>, active: bool, now: int, pending: map<Ticket, Pending>, n: nat)
  {
    && Follows(rules, es)
    && var s := Run(INITIAL, es);
    && s.db.rows == map[1 := DueRow(active)] && s.clock == now && s.pending == pending
    && Successes(s.db.history, 1) == n
    && forall k :: k in s.jobs ==> k <= n && s.jobs[k].OwesRemoval?
  }

  lemma FollowsOne(rules: set<Rule>, es: seq<Step>, e: Step)
    requires Follows(rules, es) && forall rule :: rule in rules ==> Keeps(rule, Run(INITIAL, es), e)
    ensures Follows(rules, es + [e])
  {
    assert (es + [e])[..|es|] == es;
  }

  lemma Created(rules: set<Rule>)
    ensures Stands(rules, [CREATE_DUE], true, 0, map[], 0)
  {
    RunOne(INITIAL, [], CREATE_DUE);
    FollowsOne(rules, [], CREATE_DUE);
    assert [] + [CREATE_DUE] == [CREATE_DUE];
    StepSuccesses(INITIAL, CREATE_DUE, 1);
  }

  lemma Ticked(rules: set<Rule>, es: seq<Step>, active: bool, now: int, pending: map<Ticket, Pending>, n: nat,
               later: int)
    requires Stands(rules, es, active, now, pending, n) && (MONOTONE_CLOCK in rules ==> now <= later)
    ensures Stands(rules, es + [Clock(later)], active, later, pending, n)
  {
    RunOne(INITIAL, es, Clock(later));
    FollowsOne(rules, es, Clock(later));
  }

  lemma CycleFollows(rules: set<Rule>, es: seq<Step>, now: int, pending: map<Ticket, Pending>, n: nat)
    requires Stands(rules, es, true, now, pending, n) && (TIMELY_FIRES in rules ==> DUE <= now)
    ensures Follows(rules, es + Cycle(n + 1, 1))
  {
    var k := n + 1;
    var e1 := es + [Fire(k, 1)];
    var e2 := e1 + [Call(k, OK)];
    FollowsOne(rules, es, Fire(k, 1));
    FollowsOne(rules, e1, Call(k, OK));
    FollowsOne(rules, e2, CommitJob(k));
    assert es + Cycle(k, 1) == e2 + [CommitJob(k)];
  }

  /** An active task is executed once more. */
  lemma Executed(rules: set<Rule>, es: seq<Step>, now: int, pending: map<Ticket, Pending>, n: nat)
    requires Stands(rules, es, true, now, pending, n) && (TIMELY_FIRES in rules ==> DUE <= now)
    ensures Stands(rules, es + Cycle(n + 1, 1), false, now, pending, n + 1)
  {
    CycleFollows(rules, es, now, pending, n);
    RunAppend(INITIAL, es, Cycle(n + 1, 1));
    hide Follows, Run, Successes, Cycle;
    CycleEffect(Run(INITIAL, es), n + 1);
  }

  lemma Activated(rules: set<Rule>, es: seq<Step>, now: int, pending: map<Ticket, Pending>, n: nat)
    requires Stands(rules, es, false, now, pending, n) && now < DUE
    ensures Stands(rules, es + [Serve(ACTIVATE)], true, now, pending, n)
  {
    RunOne(INITIAL, es, Serve(ACTIVATE));
    FollowsOne(rules, es, Serve(ACTIVATE));
    hide Follows, Run;
    ActivationServed(Run(INITIAL, es));
    StepSuccesses(Run(INITIAL, es), Serve(ACTIVATE), 1);
  }

  lemma ActivationServed(s: State)
    requires s.db.rows == map[1 := DueRow(false)] && s.clock < DUE
    ensures var s' := Apply(s, Serve(ACTIVATE));
            && s'.db.rows == map[1 := DueRow(true)]
            && s'.jobs == s.jobs && s'.pending == s.pending && s'.clock == s.clock
            && Writes(s, Serve(ACTIVATE)).Some? && !IsSuccess(Writes(s, Serve(ACTIVATE)).value.entry, 1)
  {}

  const PAUSE := DeactivateTask(1, "user")

  lemma Paused(rules: set<Rule>, es: seq<Step>, now: int, pending: map<Ticket, Pending>, n: nat)
    requires Stands(rules, es, true, now, pending, n)
    ensures Stands(rules, es + [Serve(PAUSE)], false, now, pending, n)
  {
    RunOne(INITIAL, es, Serve(PAUSE));
    FollowsOne(rules, es, Serve(PAUSE));
    hide Follows, Run;
    PauseServed(Run(INITIAL, es));
    StepSuccesses(Run(INITIAL, es), Serve(PAUSE), 1);
  }

  lemma PauseServed(s: State)
    requires s.db.rows == map[1 := DueRow(true)]
    ensures var s' := Apply(s, Serve(PAUSE));
            && s'.db.rows == map[1 := DueRow(false)]
            && s'.jobs == s.jobs && s'.pending == s.pending && s'.clock == s.clock
            && Writes(s, Serve(PAUSE)).Some? && !IsSuccess(Writes(s, Serve(PAUSE)).value.entry, 1)
  {}

  const ACTIVATION := Pending(
    Some(Txn(Entry("user", 1, TaskActivated), Update(true, Some(Some(DUE))))), Some(Register(1)))

  lemma Begun(rules: set<Rule>, es: seq<Step>, now: int, n: nat)
    requires Stands(rules, es, false, now, map[], n) && now < DUE && WHOLE_REQUESTS !in rules
    ensures Stands(rules, es + [Begin(7, ACTIVATE)], false, now, map[7 := ACTIVATION], n)
  {
    RunOne(INITIAL, es, Begin(7, ACTIVATE));
    FollowsOne(rules, es, Begin(7, ACTIVATE));
  }

  lemma CommittedLate(rules: set<Rule>, es: seq<Step>, now: int, n: nat)
    requires Stands(rules, es, false, now, map[7 := ACTIVATION], n) && WHOLE_REQUESTS !in rules
    ensures Stands(rules, es + [CommitPending(7)], true, now, map[7 := ACTIVATION.(txn := None)], n)
  {
    RunOne(INITIAL, es, CommitPending(7));
    FollowsOne(rules, es, CommitPending(7));
    hide Follows, Run;
    ActivationCommitted(Run(INITIAL, es));
  }

  lemma ActivationCommitted(s: State)
    requires s.db.rows == map[1 := DueRow(false)] && s.pending == map[7 := ACTIVATION]
    ensures var s' := ApplyCommitPending(s, 7);
            && s'.db.rows == map[1 := DueRow(true)] && s'.jobs == s.jobs && s'.clock == s.clock
            && s'.pending == map[7 := ACTIVATION.(txn := None)]
            && Successes(s'.db.history, 1) == Successes(s.db.history, 1)
  {
    var txn := ACTIVATION.txn.value;
    SuccessesExtended(s.db.history, txn.entry, 1);
    assert !IsSuccess(txn.entry, 1);
    hide Successes;
    OneEntry(1, DueRow(false), DueRow(true));
    assert DueRow(false).(active := true, nextRunAt := Some(DUE)) == DueRow(true);
    assert Commits(s.db, txn);
    assert Commit(s.db, txn).rows == s.db.rows[1 := DueRow(true)];
  }

  lemma OneEntry(t: TaskId, a: Row, b: Row)
    ensures map[t := a][t := b] == map[t := b]
  {}

  /** A run that succeeds twice. */
  ghost predicate TwoSuccesses(es: seq<Step>) {
    BornOnce(Run(INITIAL, es), 1) && Successes(Run(INITIAL, es).db.history, 1) >= 2
  }

  lemma StandsTwice(rules: set<Rule>, es: seq<Step>, active: bool, now: int, pending: map<Ticket, Pending>)
    requires Stands(rules, es, active, now, pending, 2)
    ensures TwoSuccesses(es)
  {
    Reachable(es);
  }

  /** A task fired before its time can be activated again, and then it succeeds a second time; all other
      rules are kept. */
  lemma EarlyFireBreaks() returns (es: seq<Step>)
    ensures Follows(ALL_RULES - {TIMELY_FIRES}, es) && TwoSuccesses(es)
  {
    var rules := ALL_RULES - {TIMELY_FIRES};
    hide Stands;
    Created(rules);
    Executed(rules, [CREATE_DUE], 0, map[], 0);
    es := [CREATE_DUE] + Cycle(1, 1);
    Activated(rules, es, 0, map[], 1);
    es := es + [Serve(ACTIVATE)];
    Executed(rules, es, 0, map[], 1);
    es := es + Cycle(2, 1);
    StandsTwice(rules, es, false, 0, map[]);
    StandsFollows(rules, es, false, 0, map[], 2);
  }

  lemma StandsFollows(rules: set<Rule>, es: seq<Step>, active: bool, now: int, pending: map<Ticket, Pending>, n: nat)
    requires Stands(rules, es, active, now, pending, n)
    ensures Follows(rules, es)
  {}

  /** So can a task fired on time when the clock goes back afterwards; all other rules are kept. */
  lemma ClockBackBreaks() returns (es: seq<Step>)
    ensures Follows(ALL_RULES - {MONOTONE_CLOCK}, es) && TwoSuccesses(es)
  {
    var rules := ALL_RULES - {MONOTONE_CLOCK};
    hide Stands;
    Created(rules);
    Ticked(rules, [CREATE_DUE], true, 0, map[], 0, DUE);
    es := [CREATE_DUE] + [Clock(DUE)];
    Executed(rules, es, DUE, map[], 0);
    es := es + Cycle(1, 1);
    Ticked(rules, es, false, DUE, map[], 1, 0);
    es := es + [Clock(0)];
    Activated(rules, es, 0, map[], 1);
    es := es + [Serve(ACTIVATE)];
    Ticked(rules, es, true, 0, map[], 1, DUE);
    es := es + [Clock(DUE)];
    Executed(rules, es, DUE, map[], 1);
    es := es + Cycle(2, 1);
    StandsTwice(rules, es, false, DUE, map[]);
    StandsFollows(rules, es, false, DUE, map[], 2);
  }

  /** A second activation, loaded before the first one committed, can commit after the success; all other
      rules are kept. */
  lemma SplitActivationBreaks() returns (es: seq<Step>)
    ensures Follows(ALL_RULES - {WHOLE_REQUESTS}, es) && TwoSuccesses(es)
  {
    var rules := ALL_RULES - {WHOLE_REQUESTS};
    var waiting := map[7 := ACTIVATION];
    hide Stands;
    Created(rules);
    Paused(rules, [CREATE_DUE], 0, map[], 0);
    es := [CREATE_DUE] + [Serve(PAUSE)];
    Begun(rules, es, 0, 0);
    es := es + [Begin(7, ACTIVATE)];
    Activated(rules, es, 0, waiting, 0);
    es := es + [Serve(ACTIVATE)];
    Ticked(rules, es, true, 0, waiting, 0, DUE);
    es := es + [Clock(DUE)];
    Executed(rules, es, DUE, waiting, 0);
    es := es + Cycle(1, 1);
    CommittedLate(rules, es, DUE, 1);
    es := es + [CommitPending(7)];
    Executed(rules, es, DUE, map[7 := ACTIVATION.(txn := None)], 1);
    es := es + Cycle(2, 1);
    StandsTwice(rules, es, false, DUE, map[7 := ACTIVATION.(txn := None)]);
    StandsFollows(rules, es, false, DUE, map[7 := ACTIVATION.(txn := None)], 2);
  }

  lemma TwoLoads(s: State)
    requires s.db.rows == map[1 := DueRow(true)] && s.jobs == map[] && s.clock == DUE
    ensures var s1 := ApplyFire(s, 1, 1);
            var s2 := ApplyFire(s1, 2, 1);
            && Disciplined(s, Fire(1, 1)) && Disciplined(s1, Fire(2, 1))
            && s2.db == s.db && 1 in s2.jobs && 2 in s2.jobs
            && Potent(s2.jobs[1], 1) && Potent(s2.jobs[2], 1)
  {}

  lemma CreateDue()
    ensures var s := Run(INITIAL, [CREATE_DUE]);
            s.db.rows == map[1 := DueRow(true)] && s.jobs == map[] && s.pending == map[] && s.clock == 0
  {
    RunOne(INITIAL, [], CREATE_DUE);
    assert [] + [CREATE_DUE] == [CREATE_DUE];
  }

  lemma {:induction false} DisciplinedFollows(es: seq<Step>)
    requires DisciplinedRun(INITIAL, es)
    ensures Follows(ALL_RULES - {ONE_EXECUTOR}, es)
    decreases |es|
  {
    if es != [] { DisciplinedFollows(es[..|es| - 1]); }
  }

  /** Two executors that overlap both succeed; all other rules are kept. */
  lemma OverlapBreaks() returns (es: seq<Step>)
    ensures Follows(ALL_RULES - {ONE_EXECUTOR}, es) && TwoSuccesses(es)
  {
    es := TwoLoaded();
    hide Follows, Potent, DisciplinedRun, Run, Successes;
    var first := PotentSucceeds(Run(INITIAL, es), 1, 1);
    BornOnceStays(es, first);
    DisciplinedAppend(INITIAL, es, first);
    es := es + first;
    var second := PotentSucceeds(Run(INITIAL, es), 2, 1);
    BornOnceStays(es, second);
    DisciplinedAppend(INITIAL, es, second);
    es := es + second;
    DisciplinedFollows(es);
  }

  lemma BornOnceStays(es: seq<Step>, fs: seq<Step>)
    requires BornOnce(Run(INITIAL, es), 1)
    ensures Run(INITIAL, es + fs) == Run(Run(INITIAL, es), fs) && BornOnce(Run(INITIAL, es + fs), 1)
  {
    RunAppend(INITIAL, es, fs);
    Reachable(es);
    RunKeeps(Run(INITIAL, es), fs);
  }

  /** The example task, due, is loaded by two executors. */
  lemma TwoLoaded() returns (es: seq<Step>)
    ensures DisciplinedRun(INITIAL, es)
    ensures var s := Run(INITIAL, es);
            && BornOnce(s, 1) && 1 in s.db.rows && 1 in s.jobs && 2 in s.jobs
            && Potent(s.jobs[1], 1) && Potent(s.jobs[2], 1)
  {
    es := [];
    RunOne(INITIAL, es, CREATE_DUE);
    DisciplinedOne(INITIAL, es, CREATE_DUE);
    es := es + [CREATE_DUE];
    assert es == [CREATE_DUE];
    CreateDue();
    RunOne(INITIAL, es, Clock(DUE));
    DisciplinedOne(INITIAL, es, Clock(DUE));
    es := es + [Clock(DUE)];
    TwoLoads(Run(INITIAL, es));
    RunOne(INITIAL, es, Fire(1, 1));
    DisciplinedOne(INITIAL, es, Fire(1, 1));
    es := es + [Fire(1, 1)];
    RunOne(INITIAL, es, Fire(2, 1));
    DisciplinedOne(INITIAL, es, Fire(2, 1));
    es := es + [Fire(2, 1)];
    Reachable(es);
  }

  lemma {:induction false} DisciplinedAppend(s: State, es: seq<Step>, fs: seq<Step>)
    requires DisciplinedRun(s, es) && DisciplinedRun(Run(s, es), fs)
    ensures DisciplinedRun(s, es + fs)
    decreases |fs|
  {
    if fs == [] {
      assert es + fs == es;
    } else {
      assert (es + fs)[..|es + fs| - 1] == es + fs[..|fs| - 1];
      DisciplinedAppend(s, es, fs[..|fs| - 1]);
      RunAppend(s, es, fs[..|fs| - 1]);
    }
  }

  /** No rule can be spared: without it, and with all the others, a once-task succeeds twice. */
  lemma EveryRuleIsNeeded(rule: Rule) returns (es: seq<Step>)
    ensures Follows(ALL_RULES - {rule}, es) && TwoSuccesses(es) && !Follows(ALL_RULES, es)
  {
    match rule {
      case WHOLE_REQUESTS => es := SplitActivationBreaks();
      case MONOTONE_CLOCK => es := ClockBackBreaks();
      case TIMELY_FIRES => es := EarlyFireBreaks();
      case ONE_EXECUTOR => es := OverlapBreaks();
    }
    if Follows(ALL_RULES, es) { AtMostOneSuccess(es, 1); }
  }
}
