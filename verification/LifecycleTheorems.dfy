/** The promises of the task lifecycle, for every interleaving of its steps. */
module LifecycleTheorems {
  import opened Options
  import opened Triggers
  import opened Webhook
  import opened Lifecycle
  import opened LifecycleInvariants

  lemma InitialInv()
    ensures Inv(INITIAL)
  {}

  lemma Reachable(es: seq<Step>)
    ensures Inv(Run(INITIAL, es))
  {
    InitialInv();
    RunKeeps(INITIAL, es);
  }

  // ---------------------------------------------------------------- replay

  /** Folding a task's history in commit order yields exactly whether its row exists and whether it
      is active, in every state of every run, requests split into load, commit and background job. */
  lemma HistoryReplaysToRows(es: seq<Step>, t: TaskId)
    ensures var s := Run(INITIAL, es);
            var r := Replay(s.db.history, t);
            && (t in s.db.rows <==> r.Live?)
            && (t in s.db.rows ==> r.active == s.db.rows[t].active && r.once == s.db.rows[t].schedule.Once?)
            && (r.Unborn? <==> forall k :: 0 <= k < |s.db.history| ==> s.db.history[k].task != t)
  {
    Reachable(es);
    var s := Run(INITIAL, es);
    assert Replay(s.db.history, t) == Recorded(s.db, t);
    if Born(s.db.history, t).Some? { BornHasEntry(s.db.history, t); }
    forall k | 0 <= k < |s.db.history| && s.db.history[k].task == t ensures Born(s.db.history, t).Some? {
      assert EntryAgrees(s.db.history, s.db.history[k]);
    }
  }

  lemma {:induction false} BornHasEntry(h: seq<Entry>, t: TaskId)
    requires Born(h, t).Some?
    ensures exists k :: 0 <= k < |h| && h[k].task == t
    decreases |h|
  {
    var last := |h| - 1;
    if h[last].task != t {
      BornHasEntry(h[..last], t);
      var k :| 0 <= k < last && h[..last][k].task == t;
      assert h[k].task == t;
    }
  }

  // ---------------------------------------------------------------- the audit trail

  /** The history only ever grows. */
  lemma HistoryIsAppendOnly(es: seq<Step>, n: nat)
    requires n <= |es|
    ensures At(es, n).db.history <= Run(INITIAL, es).db.history
    decreases |es|
  {
    if n < |es| {
      var before := es[..|es| - 1];
      assert before[..n] == es[..n];
      HistoryIsAppendOnly(before, n);
      Reachable(before);
      StepKeeps(Run(INITIAL, before), es[|es| - 1]);
    } else {
      assert es[..n] == es;
    }
  }

  /** All entries of one task carry one owner, and every snapshot and every executed URL agree with
      every snapshot of that task, the created one among them. */
  lemma SnapshotsAgree(es: seq<Step>, i: nat, j: nat)
    requires i < |Run(INITIAL, es).db.history| && j < |Run(INITIAL, es).db.history|
    requires Run(INITIAL, es).db.history[i].task == Run(INITIAL, es).db.history[j].task
    ensures var a, b := Run(INITIAL, es).db.history[i], Run(INITIAL, es).db.history[j];
            && a.owner == b.owner
            && (a.event.TaskCreated? && b.event.TaskDeleted? ==>
                  b.event.url == a.event.url && b.event.schedule == a.event.schedule)
            && (a.event.TaskCreated? && b.event.Execution? ==> b.event.url == a.event.url)
  {
    Reachable(es);
    var h := Run(INITIAL, es).db.history;
    assert EntryAgrees(h, h[i]) && EntryAgrees(h, h[j]);
  }

  // ---------------------------------------------------------------- conservation of calls

  function Executions(h: seq<Entry>): nat {
    if h == [] then 0
    else Executions(h[..|h| - 1]) + if h[|h| - 1].event.Execution? then 1 else 0
  }

  function CalledJobs(jobs: map<Ticket, Job>): set<Ticket> {
    set k | k in jobs && jobs[k].Called?
  }

  function AnsweredRuns(runs: map<Ticket, ManualRun>): set<Ticket> {
    set k | k in runs && runs[k].Answered?
  }

  ghost predicate CallsBalance(s: State) {
    s.calls == Executions(s.db.history) + |CalledJobs(s.jobs)| + |AnsweredRuns(s.runs)| + |s.lost|
  }

  function IsExecution(txn: Txn): nat {
    if txn.entry.event.Execution? then 1 else 0
  }

  lemma CommitCounts(db: Database, txn: Txn)
    requires Commits(db, txn)
    ensures Executions(Commit(db, txn).history) == Executions(db.history) + IsExecution(txn)
  {
    Extended(db.history, txn.entry);
  }

  /** Requests never write execution entries. */
  ghost predicate NoExecutionPending(s: State) {
    forall k :: k in s.pending && s.pending[k].txn.Some? ==> IsExecution(s.pending[k].txn.value) == 0
  }

  lemma HandlersWriteNoExecutions(db: Database, now: int, r: Request)
    requires Handle(db, now, r).work.Some?
    ensures IsExecution(Handle(db, now, r).work.value.txn) == 0
  {}

  lemma ServeBalances(s: State, r: Request)
    requires CallsBalance(s)
    ensures CallsBalance(ApplyServe(s, r))
  {
    var w := Handle(s.db, s.clock, r).work;
    if w.Some? && Commits(s.db, w.value.txn) {
      HandlersWriteNoExecutions(s.db, s.clock, r);
      CommitCounts(s.db, w.value.txn);
    }
  }

  lemma CommitPendingBalances(s: State, k: Ticket)
    requires CallsBalance(s) && NoExecutionPending(s)
    ensures CallsBalance(ApplyCommitPending(s, k))
  {
    if k in s.pending && s.pending[k].txn.Some? && Commits(s.db, s.pending[k].txn.value) {
      CommitCounts(s.db, s.pending[k].txn.value);
    }
  }

  lemma CalledMore(jobs: map<Ticket, Job>, k: Ticket, j: Job)
    requires k in jobs && !jobs[k].Called? && j.Called?
    ensures |CalledJobs(jobs[k := j])| == |CalledJobs(jobs)| + 1
  {
    assert CalledJobs(jobs[k := j]) == CalledJobs(jobs) + {k};
  }

  lemma CallBalances(s: State, k: Ticket, reply: Reply)
    requires CallsBalance(s)
    ensures CallsBalance(ApplyCall(s, k, reply))
  {
    if k in s.jobs && s.jobs[k].Loaded? {
      CalledMore(s.jobs, k, ApplyCall(s, k, reply).jobs[k]);
      hide CalledJobs, AnsweredRuns, Executions;
    }
  }

  lemma CommitJobBalances(s: State, k: Ticket)
    requires CallsBalance(s)
    ensures CallsBalance(ApplyCommitJob(s, k))
  {
    if k in s.jobs && s.jobs[k].Called? {
      var txn := JobTxn(s.jobs[k].task, s.jobs[k].row, s.jobs[k].outcome);
      assert IsExecution(txn) == 1;
      assert CalledJobs(ApplyCommitJob(s, k).jobs) == CalledJobs(s.jobs) - {k};
      if Commits(s.db, txn) { CommitCounts(s.db, txn); }
    }
  }

  lemma AnsweredMore(runs: map<Ticket, ManualRun>, k: Ticket, m: ManualRun)
    requires k in runs && !runs[k].Answered? && m.Answered?
    ensures |AnsweredRuns(runs[k := m])| == |AnsweredRuns(runs)| + 1
  {
    assert AnsweredRuns(runs[k := m]) == AnsweredRuns(runs) + {k};
  }

  lemma RunCallBalances(s: State, k: Ticket, reply: Reply)
    requires CallsBalance(s)
    ensures CallsBalance(ApplyRunCall(s, k, reply))
  {
    if k in s.runs && s.runs[k].Sending? {
      AnsweredMore(s.runs, k, ApplyRunCall(s, k, reply).runs[k]);
      hide CalledJobs, AnsweredRuns, Executions;
    }
  }

  lemma RunLoadBalances(s: State, k: Ticket)
    requires CallsBalance(s)
    ensures CallsBalance(ApplyRunLoad(s, k))
  {
    assert AnsweredRuns(ApplyRunLoad(s, k).runs) == AnsweredRuns(s.runs);
  }

  lemma AnsweredLess(runs: map<Ticket, ManualRun>, k: Ticket)
    requires k in runs && runs[k].Answered?
    ensures |AnsweredRuns(runs)| == |AnsweredRuns(runs - {k})| + 1
  {
    assert AnsweredRuns(runs - {k}) == AnsweredRuns(runs) - {k};
  }

  lemma RunCommitBalances(s: State, k: Ticket)
    requires CallsBalance(s)
    ensures CallsBalance(ApplyRunCommit(s, k))
  {
    if k in s.runs && s.runs[k].Answered? {
      AnsweredLess(s.runs, k);
      hide AnsweredRuns, CalledJobs;
      var m := s.runs[k];
      CommitCounts(s.db, ManualTxn(m.task, m.user, m.row, m.outcome));
    }
  }

  lemma AcceptOrFireOrRemoveBalances(s: State, e: Step)
    requires CallsBalance(s) && (e.Fire? || e.RunAccept? || e.RemoveSchedule?)
    ensures CallsBalance(Apply(s, e))
  {
    assert CalledJobs(Apply(s, e).jobs) == CalledJobs(s.jobs);
    assert AnsweredRuns(Apply(s, e).runs) == AnsweredRuns(s.runs);
  }

  lemma CallsBalanceStep(s: State, e: Step)
    requires CallsBalance(s) && NoExecutionPending(s)
    ensures CallsBalance(Apply(s, e))
  {
    match e {
      case Serve(r) => ServeBalances(s, r);
      case Begin(k, r) =>
      case CommitPending(k) => CommitPendingBalances(s, k);
      case BackgroundPending(k) =>
      case Call(k, reply) => CallBalances(s, k, reply);
      case CommitJob(k) => CommitJobBalances(s, k);
      case RunLoad(k) => RunLoadBalances(s, k);
      case RunCall(k, reply) => RunCallBalances(s, k, reply);
      case RunCommit(k) => RunCommitBalances(s, k);
      case Exhaust(t) =>
      case Clock(now) =>
      case _ => AcceptOrFireOrRemoveBalances(s, e);
    }
  }

  lemma NoExecutionPendingStep(s: State, e: Step)
    requires NoExecutionPending(s)
    ensures NoExecutionPending(Apply(s, e))
  {
    if e.Begin? && Handle(s.db, s.clock, e.request).work.Some? {
      HandlersWriteNoExecutions(s.db, s.clock, e.request);
    }
  }

  lemma {:induction false} CallsBalanceRun(es: seq<Step>)
    ensures CallsBalance(Run(INITIAL, es)) && NoExecutionPending(Run(INITIAL, es))
    decreases |es|
  {
    if es == [] {
      assert CalledJobs(map[]) == {} && AnsweredRuns(map[]) == {};
    } else {
      CallsBalanceRun(es[..|es| - 1]);
      CallsBalanceStep(Run(INITIAL, es[..|es| - 1]), es[|es| - 1]);
      NoExecutionPendingStep(Run(INITIAL, es[..|es| - 1]), es[|es| - 1]);
    }
  }

  /** Finished webhook calls, failed ones included, are the execution entries plus the calls not yet
      committed plus the lost ones; and a lost one is a successful call of a once-task that was
      deleted after the executor loaded it. */
  lemma NoCallGoesMissing(es: seq<Step>)
    ensures var s := Run(INITIAL, es);
            && s.calls == Executions(s.db.history) + |CalledJobs(s.jobs)| + |AnsweredRuns(s.runs)| + |s.lost|
            && forall i :: 0 <= i < |s.lost| ==> LostInv(s.db.history, s.lost[i])
  {
    CallsBalanceRun(es);
    Reachable(es);
  }

  // ---------------------------------------------------------------- stale schedules

  /** Step `i` of the run is the load of job `j` under ticket `k`: the row it found is there and
      active, and the history up to that point replays to present and active. */
  ghost predicate LoadedLive(es: seq<Step>, i: nat, k: Ticket, j: Job)
    requires i < |es| && !j.OwesRemoval?
  {
    var s := At(es, i);
    && es[i] == Fire(k, j.task)
    && j.task in s.db.rows && s.db.rows[j.task] == j.row && j.row.active
    && |s.db.history| == j.loadedAt
    && Replay(s.db.history, j.task) == Live(true, j.row.schedule.Once?)
  }

  lemma AtEarlier(es: seq<Step>, i: nat)
    requires i < |es|
    ensures At(es[..|es| - 1], i) == At(es, i)
  {
    assert es[..|es| - 1][..i] == es[..i];
  }

  predicate SameLoad(a: Job, b: Job) {
    !a.OwesRemoval? && !b.OwesRemoval? && a.task == b.task && a.row == b.row && a.loadedAt == b.loadedAt
  }

  /** An executor past its load was so before the step, or the step is its load. */
  lemma JobBeforeStep(s: State, e: Step, k: Ticket)
    requires k in Apply(s, e).jobs && !Apply(s, e).jobs[k].OwesRemoval?
    ensures var j := Apply(s, e).jobs[k];
            || (k in s.jobs && SameLoad(s.jobs[k], j))
            || (e == Fire(k, j.task) && j.task in s.db.rows && s.db.rows[j.task].active
                && j == Loaded(j.task, s.db.rows[j.task], |s.db.history|))
  {}

  /** Every executor past its load has such a step behind it. */
  lemma {:induction false} JobWasLoaded(es: seq<Step>, k: Ticket) returns (i: nat)
    requires k in Run(INITIAL, es).jobs && !Run(INITIAL, es).jobs[k].OwesRemoval?
    ensures i < |es| && LoadedLive(es, i, k, Run(INITIAL, es).jobs[k])
    decreases |es|
  {
    var before, e := es[..|es| - 1], es[|es| - 1];
    var s := Run(INITIAL, before);
    var j := Run(INITIAL, es).jobs[k];
    JobBeforeStep(s, e, k);
    if k in s.jobs && SameLoad(s.jobs[k], j) {
      i := JobWasLoaded(before, k);
      AtEarlier(es, i);
    } else {
      i := |es| - 1;
      Reachable(before);
      assert Replay(s.db.history, j.task) == Recorded(s.db, j.task);
    }
  }

  ghost predicate IsScheduled(e: Entry) {
    e.event.Execution? && e.event.source == Scheduled
  }

  /** Only a commit lengthens the history, by one entry. */
  function Writes(s: State, e: Step): Option<Txn> {
    match e
    case Serve(r) =>
      var w := Handle(s.db, s.clock, r).work;
      if w.Some? && Commits(s.db, w.value.txn) then Some(w.value.txn) else None
    case CommitPending(k) =>
      if k in s.pending && s.pending[k].txn.Some? && Commits(s.db, s.pending[k].txn.value) then s.pending[k].txn
      else None
    case CommitJob(k) =>
      if k in s.jobs && s.jobs[k].Called? then
        var txn := JobTxn(s.jobs[k].task, s.jobs[k].row, s.jobs[k].outcome);
        if Commits(s.db, txn) then Some(txn) else None
      else None
    case RunCommit(k) =>
      if k in s.runs && s.runs[k].Answered? then
        Some(ManualTxn(s.runs[k].task, s.runs[k].user, s.runs[k].row, s.runs[k].outcome))
      else None
    case _ => None
  }

  lemma StepWrites(s: State, e: Step)
    ensures Writes(s, e).Some? ==> Commits(s.db, Writes(s, e).value)
    ensures Apply(s, e).db == if Writes(s, e).Some? then Commit(s.db, Writes(s, e).value) else s.db
  {}

  /** A scheduled execution is written by the commit of an executor, for the task that it loaded. */
  lemma OnlyJobsWriteScheduled(s: State, e: Step)
    requires NoExecutionPending(s) && Writes(s, e).Some? && IsScheduled(Writes(s, e).value.entry)
    ensures e.CommitJob? && e.ticket in s.jobs && s.jobs[e.ticket].Called?
    ensures Writes(s, e).value.entry.task == s.jobs[e.ticket].task
  {
    if e.Serve? { HandlersWriteNoExecutions(s.db, s.clock, e.request); }
  }
}
