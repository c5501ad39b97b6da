/** What overlapping requests do to the schedules, over whole runs: exactly which steps leave a schedule
    behind, in the framework's order of background job and commit. */
module OverlappingRequests {
  import opened Options
  import opened Triggers
  import opened Webhook
  import opened Lifecycle
  import opened LifecycleInvariants
  import opened LifecycleTheorems
  import opened LifecycleSchedules

  // ---------------------------------------------------------------- promised schedules, step by step

  /** A request that will make `t` active is about to commit. */
  ghost predicate Promised(s: State, t: TaskId) {
    exists k :: k in s.pending && s.pending[k].txn.Some? && s.pending[k].txn.value.entry.task == t
                && Starts(s.pending[k].txn.value.write)
  }

  /** A registered schedule belongs to an active task, to one whose executor owes the removal, or to one
      that a request is about to make active. */
  ghost predicate SchedulesPromised(s: State) {
    forall t :: t in s.schedules ==> ActiveRow(s, t) || Owed(s, t) || Promised(s, t)
  }

  /** A request other than that of ticket `k` will make `t` active. */
  ghost predicate PromisedByOther(s: State, k: Ticket, t: TaskId) {
    exists i :: i in s.pending && i != k && s.pending[i].txn.Some? && s.pending[i].txn.value.entry.task == t
                && Starts(s.pending[i].txn.value.write)
  }

  /** The commit of a task whose schedule is up and that nobody else vouches for: it ends the task, or it
      should start the task and fails. */
  ghost predicate BreakingCommit(s: State, e: Step) {
    && e.CommitPending? && e.ticket in s.pending && s.pending[e.ticket].txn.Some?
    && var txn := s.pending[e.ticket].txn.value;
    && var t := txn.entry.task;
    && t in s.schedules && !Owed(s, t) && !PromisedByOther(s, e.ticket, t)
    && (Ends(txn.write) || (Starts(txn.write) && !Commits(s.db, txn) && !ActiveRow(s, t)))
  }

  /** A step that leaves a schedule without a task, an executor or a request behind it. */
  ghost predicate BreaksPromise(s: State, e: Step) {
    || BreakingCommit(s, e)
    || (LateRegistration(s, e) && !Promised(s, s.pending[e.ticket].background.value.task))
    || (TooLongCreation(s, e) && !Promised(s, e.request.task))
  }

  lemma PromisedKept(s: State, e: Step, t: TaskId)
    requires Promised(s, t) && !e.CommitPending?
    ensures Promised(Apply(s, e), t)
  {
    var k :| k in s.pending && s.pending[k].txn.Some? && s.pending[k].txn.value.entry.task == t
             && Starts(s.pending[k].txn.value.write);
    assert k in Apply(s, e).pending && Apply(s, e).pending[k].txn == s.pending[k].txn;
  }

  lemma CommitTakesEffect(s: State, txn: Txn)
    requires Commits(s.db, txn)
    requires txn.write.Insert? ==> txn.write.row.active
    ensures Starts(txn.write) ==>
      txn.entry.task in Commit(s.db, txn).rows && Commit(s.db, txn).rows[txn.entry.task].active
    ensures Ends(txn.write) ==>
      (txn.entry.task in Commit(s.db, txn).rows ==> !Commit(s.db, txn).rows[txn.entry.task].active)
  {}

  lemma PromisedSame(s: State, s': State, t: TaskId)
    requires forall k :: k in s'.pending <==> k in s.pending
    requires forall k :: k in s.pending ==> s'.pending[k].txn == s.pending[k].txn
    ensures Promised(s', t) == Promised(s, t)
  {}

  lemma ServePromisedIff(s: State, r: Request)
    requires Inv(s) && SchedulesPromised(s)
    ensures SchedulesPromised(ApplyServe(s, r)) <==> !(TooLongCreation(s, Serve(r)) && !Promised(s, r.task))
  {
    var s' := ApplyServe(s, r);
    forall t ensures Owed(s', t) == Owed(s, t) && Promised(s', t) == Promised(s, t) { PromisedSame(s, s', t); }
    if TooLongCreation(s, Serve(r)) {
      UnbornNotOwed(s, r.task);
      assert r.task in s'.schedules && !ActiveRow(s', r.task);
    }
  }

  lemma BackgroundPromisedIff(s: State, k: Ticket)
    requires SchedulesPromised(s)
    ensures SchedulesPromised(ApplyBackgroundPending(s, k)) <==>
            !(LateRegistration(s, BackgroundPending(k)) && !Promised(s, s.pending[k].background.value.task))
  {
    var s' := ApplyBackgroundPending(s, k);
    forall t ensures Owed(s', t) == Owed(s, t) && Promised(s', t) == Promised(s, t) { PromisedSame(s, s', t); }
    assert forall t :: ActiveRow(s', t) == ActiveRow(s, t);
    if LateRegistration(s, BackgroundPending(k)) {
      assert s.pending[k].background.value.task in s'.schedules;
    }
  }

  /** After its commit a request promises nothing more. */
  lemma PromisedAfterCommit(s: State, k: Ticket, t: TaskId)
    requires k in s.pending && s.pending[k].txn.Some?
    ensures Promised(ApplyCommitPending(s, k), t) == PromisedByOther(s, k, t)
  {
    var s' := ApplyCommitPending(s, k);
    if PromisedByOther(s, k, t) {
      var i :| i in s.pending && i != k && s.pending[i].txn.Some? && s.pending[i].txn.value.entry.task == t
               && Starts(s.pending[i].txn.value.write);
      assert i in s'.pending && s'.pending[i] == s.pending[i];
    }
    if Promised(s', t) {
      var i :| i in s'.pending && s'.pending[i].txn.Some? && s'.pending[i].txn.value.entry.task == t
               && Starts(s'.pending[i].txn.value.write);
      assert i != k && s.pending[i] == s'.pending[i];
    }
  }

  /** The rows after a commit: the task of the transaction as it says, all others as before. */
  lemma CommitOthers(s: State, k: Ticket, t: TaskId)
    requires k in s.pending && s.pending[k].txn.Some? && s.pending[k].txn.value.entry.task != t
    ensures ActiveRow(ApplyCommitPending(s, k), t) == ActiveRow(s, t)
    ensures Promised(s, t) == PromisedByOther(s, k, t)
  {}

  lemma CommitOwn(s: State, k: Ticket)
    requires Inv(s) && k in s.pending && s.pending[k].txn.Some?
    ensures var txn := s.pending[k].txn.value;
            var t := txn.entry.task;
            ActiveRow(ApplyCommitPending(s, k), t) ==
              if Commits(s.db, txn) && Starts(txn.write) then true
              else if Commits(s.db, txn) && Ends(txn.write) then false
              else ActiveRow(s, t)
  {
    assert TxnInv(s.db.history, s.pending[k].txn.value);
  }

  lemma CommitPromisedIff(s: State, k: Ticket)
    requires Inv(s) && SchedulesPromised(s)
    ensures SchedulesPromised(ApplyCommitPending(s, k)) <==> !BreakingCommit(s, CommitPending(k))
  {
    if k in s.pending && s.pending[k].txn.Some? {
      var s' := ApplyCommitPending(s, k);
      var own := s.pending[k].txn.value.entry.task;
      CommitOwn(s, k);
      assert s'.schedules == s.schedules && s'.jobs == s.jobs;
      hide Inv;
      forall t ensures Owed(s', t) == Owed(s, t) && Promised(s', t) == PromisedByOther(s, k, t) {
        PromisedAfterCommit(s, k, t);
      }
      forall t | t != own ensures ActiveRow(s', t) == ActiveRow(s, t) && Promised(s', t) == Promised(s, t) {
        CommitOthers(s, k, t);
      }
      OwnPromise(s, k);
    }
  }

  /** The task of the transaction itself: a commit that neither ends it nor should start it promises
      nothing of it. */
  lemma OwnPromise(s: State, k: Ticket)
    requires k in s.pending && s.pending[k].txn.Some?
    ensures var txn := s.pending[k].txn.value;
            Promised(s, txn.entry.task) <==> Starts(txn.write) || PromisedByOther(s, k, txn.entry.task)
  {}

  lemma CommitJobPromised(s: State, k: Ticket)
    requires SchedulesPromised(s)
    ensures SchedulesPromised(ApplyCommitJob(s, k))
  {
    var s' := ApplyCommitJob(s, k);
    forall t | t in s'.schedules ensures ActiveRow(s', t) || Owed(s', t) || Promised(s', t) {
      if ActiveRow(s, t) {
        if k in s.jobs && s.jobs[k].Called? && s.jobs[k].task == t && k in s'.jobs {
          assert s'.jobs[k] == OwesRemoval(t);
        }
      } else if Owed(s, t) {
        OwedStays(s, s', t);
      } else {
        PromisedKept(s, CommitJob(k), t);
      }
    }
  }

  lemma OtherStepPromised(s: State, e: Step)
    requires SchedulesPromised(s) && !TouchesSchedules(e)
    ensures SchedulesPromised(Apply(s, e))
  {
    var s' := Apply(s, e);
    StepWrites(s, e);
    forall t | t in s'.schedules ensures ActiveRow(s', t) || Owed(s', t) || Promised(s', t) {
      if Owed(s, t) {
        var k :| k in s.jobs && s.jobs[k] == OwesRemoval(t);
        assert s'.jobs[k] == OwesRemoval(t);
      }
      if Promised(s, t) { PromisedKept(s, e, t); }
    }
  }

  /** Exactly which steps leave a schedule behind that nobody vouches for. */
  lemma SchedulesPromisedIff(s: State, e: Step)
    requires Inv(s) && SchedulesPromised(s)
    ensures SchedulesPromised(Apply(s, e)) <==> !BreaksPromise(s, e)
  {
    NoOtherCulprit(s, e);
    hide Inv, SchedulesPromised, LateRegistration, TooLongCreation;
    match e {
      case Serve(r) => ServePromisedIff(s, r);
      case BackgroundPending(k) => BackgroundPromisedIff(s, k);
      case CommitPending(k) => CommitPromisedIff(s, k);
      case CommitJob(k) => CommitJobPromised(s, k);
      case _ => OtherStepPromised(s, e);
    }
  }

  // ---------------------------------------------------------------- over whole runs

  lemma {:induction false} PromisedUpTo(es: seq<Step>, n: nat)
    requires n <= |es| && forall m :: 0 <= m < n ==> !BreaksPromise(At(es, m), es[m])
    ensures SchedulesPromised(At(es, n))
    decreases n
  {
    if n > 0 {
      PromisedUpTo(es, n - 1);
      Reachable(es[..n - 1]);
      AtStep(es, n - 1);
      SchedulesPromisedIff(At(es, n - 1), es[n - 1]);
    }
  }

  /** Throughout a run every registered schedule has an active task, an executor that owes its removal or a
      request that is about to make its task active, if and only if no step of the run breaks the promise. */
  lemma PromisedRunIff(es: seq<Step>)
    ensures (forall n :: 0 <= n <= |es| ==> SchedulesPromised(At(es, n))) <==>
            (forall n :: 0 <= n < |es| ==> !BreaksPromise(At(es, n), es[n]))
  {
    if forall n :: 0 <= n <= |es| ==> SchedulesPromised(At(es, n)) {
      forall n | 0 <= n < |es| ensures !BreaksPromise(At(es, n), es[n]) {
        Reachable(es[..n]);
        AtStep(es, n);
        assert SchedulesPromised(At(es, n)) && SchedulesPromised(At(es, n + 1));
        SchedulesPromisedIff(At(es, n), es[n]);
      }
    }
    if forall n :: 0 <= n < |es| ==> !BreaksPromise(At(es, n), es[n]) {
      forall n | 0 <= n <= |es| ensures SchedulesPromised(At(es, n)) {
        PromisedUpTo(es, n);
      }
    }
  }

  // ---------------------------------------------------------------- one request per task at a time

  predicate Starting(e: Step) {
    e.Begin? || e.Serve?
  }

  /** The request still has its commit or its background job to do, and it is about `t`. */
  predicate OnTask(p: Pending, t: TaskId) {
    (p.txn.Some? && p.txn.value.entry.task == t) || (p.background.Some? && p.background.value.task == t)
  }

  ghost predicate FreeTask(s: State, t: TaskId) {
    forall k :: k in s.pending ==> !OnTask(s.pending[k], t)
  }

  /** No request on a task starts while another one on it is unfinished, and no creation is too long
      to commit. */
  ghost predicate OneAtATime(s: State, e: Step) {
    Starting(e) ==> FreeTask(s, e.request.task) && (e.request.CreateTask? ==> !TooLong(e.request.schedule))
  }

  /** The framework's order: the background job before the commit. */
  predicate BackgroundFirst(s: State, e: Step) {
    e.CommitPending? && e.ticket in s.pending ==> s.pending[e.ticket].background.None?
  }

  ghost predicate Orderly(s: State, e: Step) {
    OneAtATime(s, e) && BackgroundFirst(s, e)
  }

  ghost predicate OneRequestPerTask(s: State) {
    forall k, l, t :: k in s.pending && l in s.pending && OnTask(s.pending[k], t) && OnTask(s.pending[l], t) ==> k == l
  }

  /** What an unfinished request can rely on. */
  ghost predicate PendingFits(s: State, p: Pending) {
    && (p.txn.None? ==> p.background.None?)
    && (p.txn.Some? && p.background.Some? ==>
          && p.background.value.task == p.txn.value.entry.task
          && if p.background.value.Register? then Starts(p.txn.value.write) else Ends(p.txn.value.write))
    && (p.txn.Some? ==> Commits(s.db, p.txn.value))
    && (p.txn.Some? && Ends(p.txn.value.write) && p.background.None? && p.txn.value.entry.task in s.schedules ==>
          Owed(s, p.txn.value.entry.task))
  }

  ghost predicate AllFit(s: State) {
    forall k :: k in s.pending ==> PendingFits(s, s.pending[k])
  }

  ghost predicate OrderInv(s: State) {
    OneRequestPerTask(s) && AllFit(s) && SchedulesPromised(s)
  }

  lemma OneRequestStep(s: State, e: Step)
    requires OneRequestPerTask(s) && OneAtATime(s, e)
    ensures OneRequestPerTask(Apply(s, e))
  {
    var s' := Apply(s, e);
    assert forall k, t ::
      k in s'.pending && OnTask(s'.pending[k], t) && !(k in s.pending && OnTask(s.pending[k], t)) ==>
      e.Begin? && k == e.ticket && t == e.request.task && k !in s.pending;
  }

  /** Nobody else's request writes the row of a task whose request is unfinished. */
  lemma OwnWriter(s: State, e: Step, k: Ticket, t: TaskId)
    requires Inv(s) && OneRequestPerTask(s) && OneAtATime(s, e) && k in s.pending && OnTask(s.pending[k], t)
    requires Writes(s, e).Some? && Writes(s, e).value.entry.task == t && e != CommitPending(k)
    ensures e.RunCommit?
            || (e.CommitJob? && e.ticket in s.jobs && s.jobs[e.ticket].Called? && s.jobs[e.ticket].task == t)
    ensures Born(s.db.history, t).Some?
    ensures var w := Writes(s, e).value.write;
            w == NoWrite || (w.Update? && !w.active
                             && e.CommitJob? && Deactivates(s.jobs[e.ticket].row, s.jobs[e.ticket].outcome))
  {
    if e.CommitJob? { assert JobInv(s.db.history, s.jobs[e.ticket]); }
    if e.RunCommit? { assert RunInv(s.db.history, s.runs[e.ticket]); }
  }

  /** The step leaves the request under ticket `k` as it is. */
  predicate Bystander(s: State, e: Step, k: Ticket) {
    k in s.pending && k in Apply(s, e).pending && Apply(s, e).pending[k] == s.pending[k]
  }

  lemma CommitsKept(s: State, e: Step, k: Ticket)
    requires Inv(s) && OneRequestPerTask(s) && OneAtATime(s, e) && Bystander(s, e, k)
    requires s.pending[k].txn.Some? && Commits(s.db, s.pending[k].txn.value)
    ensures Commits(Apply(s, e).db, s.pending[k].txn.value)
  {
    StepWrites(s, e);
    if Writes(s, e).Some? {
      var txn, w := s.pending[k].txn.value, Writes(s, e).value;
      Extended(s.db.history, w.entry);
      if w.entry.task == txn.entry.task { OwnWriter(s, e, k, txn.entry.task); }
    }
  }

  /** A schedule that an executor owes stays so while no request touches its task. */
  lemma OwedKept(s: State, e: Step, k: Ticket, t: TaskId)
    requires OneRequestPerTask(s) && OneAtATime(s, e) && Bystander(s, e, k) && OnTask(s.pending[k], t)
    requires t in s.schedules ==> Owed(s, t)
    ensures t in Apply(s, e).schedules ==> Owed(Apply(s, e), t)
  {
    var s' := Apply(s, e);
    if t in s'.schedules {
      assert e.BackgroundPending? && e.ticket in s.pending && s.pending[e.ticket].background == Some(Register(t)) ==>
        OnTask(s.pending[e.ticket], t);
      assert t in s.schedules;
      var i :| i in s.jobs && s.jobs[i] == OwesRemoval(t);
      assert i in s'.jobs && s'.jobs[i] == OwesRemoval(t);
    }
  }

  lemma BystanderFits(s: State, e: Step, k: Ticket)
    requires Inv(s) && OneRequestPerTask(s) && Orderly(s, e) && Bystander(s, e, k) && PendingFits(s, s.pending[k])
    ensures PendingFits(Apply(s, e), s.pending[k])
  {
    var p := s.pending[k];
    if p.txn.Some? {
      CommitsKept(s, e, k);
      if Ends(p.txn.value.write) && p.background.None? { OwedKept(s, e, k, p.txn.value.entry.task); }
    }
  }

  lemma OwnStepFits(s: State, e: Step, k: Ticket)
    requires OrderInv(s) && Orderly(s, e) && k in s.pending && (e == CommitPending(k) || e == BackgroundPending(k))
    ensures PendingFits(Apply(s, e), Apply(s, e).pending[k])
  {
    assert PendingFits(s, s.pending[k]);
  }

  lemma BegunFits(s: State, k: Ticket, r: Request)
    requires Inv(s) && OrderInv(s) && OneAtATime(s, Begin(k, r)) && k !in s.pending && k in ApplyBegin(s, k, r).pending
    ensures PendingFits(ApplyBegin(s, k, r), ApplyBegin(s, k, r).pending[k])
  {
    var t := r.task;
    var s' := ApplyBegin(s, k, r);
    assert !Promised(s, t);
    assert Owed(s', t) == Owed(s, t);
  }

  lemma AllFitStep(s: State, e: Step)
    requires Inv(s) && OrderInv(s) && Orderly(s, e)
    ensures AllFit(Apply(s, e))
  {
    var s' := Apply(s, e);
    forall k | k in s'.pending ensures PendingFits(s', s'.pending[k]) {
      if Bystander(s, e, k) {
        BystanderFits(s, e, k);
      } else if k in s.pending {
        OwnStepFits(s, e, k);
      } else {
        BegunFits(s, k, e.request);
      }
    }
  }

  /** Orderly requests break no promise. */
  lemma OrderlyBreaksNothing(s: State, e: Step)
    requires OrderInv(s) && Orderly(s, e)
    ensures !BreaksPromise(s, e)
  {
    if (e.BackgroundPending? || e.CommitPending?) && e.ticket in s.pending {
      var p := s.pending[e.ticket];
      assert PendingFits(s, p);
      if p.txn.Some? { OwnPromise(s, e.ticket); }
    }
  }

  lemma OrderStep(s: State, e: Step)
    requires Inv(s) && OrderInv(s) && Orderly(s, e)
    ensures OrderInv(Apply(s, e))
  {
    OneRequestStep(s, e);
    AllFitStep(s, e);
    OrderlyBreaksNothing(s, e);
    SchedulesPromisedIff(s, e);
    hide Apply, AllFit, SchedulesPromised, OneRequestPerTask, BreaksPromise;
  }

  lemma {:induction false} OrderUpTo(es: seq<Step>, n: nat)
    requires n <= |es| && forall m :: 0 <= m < |es| ==> Orderly(At(es, m), es[m])
    ensures OrderInv(At(es, n))
    decreases n
  {
    if n > 0 {
      OrderUpTo(es, n - 1);
      Reachable(es[..n - 1]);
      AtStep(es, n - 1);
      OrderStep(At(es, n - 1), es[n - 1]);
    }
  }

  /** In the framework's own order, the background job before the commit, one unfinished request per task
      and no creation too long break no promise; a schedule whose task has no unfinished request belongs
      to an active task or to one whose executor owes the removal. */
  lemma FrameworkOrderKeepsPromise(es: seq<Step>)
    requires forall n :: 0 <= n < |es| ==> Orderly(At(es, n), es[n])
    ensures forall n :: 0 <= n <= |es| ==> SchedulesPromised(At(es, n))
    ensures forall n, t :: 0 <= n <= |es| && t in At(es, n).schedules && FreeTask(At(es, n), t) ==>
      ActiveRow(At(es, n), t) || Owed(At(es, n), t)
  {
    forall n | 0 <= n < |es| ensures !BreaksPromise(At(es, n), es[n]) {
      OrderUpTo(es, n);
      OrderlyBreaksNothing(At(es, n), es[n]);
    }
    PromisedRunIff(es);
    forall n, t | 0 <= n <= |es| && t in At(es, n).schedules && FreeTask(At(es, n), t)
      ensures ActiveRow(At(es, n), t) || Owed(At(es, n), t)
    {
      assert SchedulesPromised(At(es, n));
      FreeIsUnpromised(At(es, n), t);
    }
  }

  lemma FreeIsUnpromised(s: State, t: TaskId)
    requires FreeTask(s, t)
    ensures !Promised(s, t)
  {}

  // ---------------------------------------------------------------- whole requests

  lemma {:induction false} NothingPending(es: seq<Step>, n: nat)
    requires AllAtomic(es) && n <= |es|
    ensures At(es, n).pending == map[]
    decreases n
  {
    if n > 0 {
      NothingPending(es, n - 1);
      AtStep(es, n - 1);
      assert Atomic(es[n - 1]);
    }
  }

  ghost predicate NoTooLongCreation(es: seq<Step>) {
    forall n :: 0 <= n < |es| ==> !TooLongCreation(At(es, n), es[n])
  }

  /** With whole requests the history's column alone decides: every schedule is accounted for throughout
      the run if and only if no creation is too long to commit. */
  lemma NoScheduleLeftBehindIff(es: seq<Step>)
    requires AllAtomic(es)
    ensures (forall n :: 0 <= n <= |es| ==> SchedulesAccounted(At(es, n))) <==> NoTooLongCreation(es)
  {
    forall n | 0 <= n <= |es| ensures SchedulesPromised(At(es, n)) == SchedulesAccounted(At(es, n)) {
      NothingPending(es, n);
    }
    forall n | 0 <= n < |es| ensures BreaksPromise(At(es, n), es[n]) == TooLongCreation(At(es, n), es[n]) {
      NothingPending(es, n);
    }
    PromisedRunIff(es);
  }

  /** One creation in the framework's order. */
  function Creation(k: Ticket, r: Request): seq<Step> {
    [Begin(k, r), BackgroundPending(k), CommitPending(k)]
  }

  lemma RunCreation(s: State, k: Ticket, r: Request)
    ensures Run(s, Creation(k, r)) == ApplyCommitPending(ApplyBackgroundPending(ApplyBegin(s, k, r), k), k)
  {
    var none: seq<Step> := [];
    RunOne(s, none, Begin(k, r));
    RunOne(s, none + [Begin(k, r)], BackgroundPending(k));
    RunOne(s, none + [Begin(k, r)] + [BackgroundPending(k)], CommitPending(k));
    assert none + [Begin(k, r)] + [BackgroundPending(k)] + [CommitPending(k)] == Creation(k, r);
  }

  lemma RunCommitFirst(s: State, k: Ticket, r: Request)
    ensures Run(s, [Begin(k, r), CommitPending(k), BackgroundPending(k)]) ==
            ApplyBackgroundPending(ApplyCommitPending(ApplyBegin(s, k, r), k), k)
  {
    var none: seq<Step> := [];
    RunOne(s, none, Begin(k, r));
    RunOne(s, none + [Begin(k, r)], CommitPending(k));
    RunOne(s, none + [Begin(k, r)] + [CommitPending(k)], BackgroundPending(k));
    assert none + [Begin(k, r)] + [CommitPending(k)] + [BackgroundPending(k)] ==
           [Begin(k, r), CommitPending(k), BackgroundPending(k)];
  }

  lemma NoWork(s: State, k: Ticket, r: Request)
    requires k !in s.pending && Handle(s.db, s.clock, r).work.None?
    ensures ApplyBegin(s, k, r) == ApplyBackgroundPending(s, k) == ApplyCommitPending(s, k) == ApplyServe(s, r) == s
  {}

  lemma FrameworkOrder(s: State, k: Ticket, r: Request)
    requires k !in s.pending && Handle(s.db, s.clock, r).work.Some?
    ensures ApplyCommitPending(ApplyBackgroundPending(ApplyBegin(s, k, r), k), k) ==
            ApplyServe(s, r).(pending := s.pending[k := Pending(None, None)])
    ensures ApplyServe(s, r).pending == s.pending
  {
    hide Commits, Commit;
    var txn, job := Handle(s.db, s.clock, r).work.value.txn, Handle(s.db, s.clock, r).work.value.background;
    hide Handle;
    assert s.pending[k := Pending(Some(txn), job)][k := Pending(Some(txn), None)] ==
           s.pending[k := Pending(Some(txn), None)];
    assert s.pending[k := Pending(Some(txn), None)][k := Pending(None, None)] == s.pending[k := Pending(None, None)];
  }

  lemma OtherOrder(s: State, k: Ticket, r: Request)
    requires k !in s.pending && Handle(s.db, s.clock, r).work.Some?
    ensures ApplyBackgroundPending(ApplyCommitPending(ApplyBegin(s, k, r), k), k) ==
            ApplyServe(s, r).(pending := s.pending[k := Pending(None, None)])
  {
    hide Commits, Commit;
    var txn, job := Handle(s.db, s.clock, r).work.value.txn, Handle(s.db, s.clock, r).work.value.background;
    hide Handle;
    assert s.pending[k := Pending(Some(txn), job)][k := Pending(None, job)] == s.pending[k := Pending(None, job)];
    assert s.pending[k := Pending(None, job)][k := Pending(None, None)] == s.pending[k := Pending(None, None)];
  }

  /** A split request that nothing disturbs does what the whole request does, in either order of its
      commit and its background job, and leaves nothing to be done. */
  lemma WholeRequestIs(s: State, k: Ticket, r: Request)
    requires k !in s.pending
    ensures var framework := Run(s, [Begin(k, r), BackgroundPending(k), CommitPending(k)]);
            var other := Run(s, [Begin(k, r), CommitPending(k), BackgroundPending(k)]);
            && framework == other
            && framework.(pending := s.pending) == Apply(s, Serve(r))
            && framework.pending - {k} == s.pending
            && (k in framework.pending ==> framework.pending[k] == Pending(None, None))
  {
    RunCreation(s, k, r);
    RunCommitFirst(s, k, r);
    hide Run, ApplyServe, ApplyBegin, ApplyCommitPending, ApplyBackgroundPending;
    var none := Pending(None, None);
    if Handle(s.db, s.clock, r).work.Some? {
      FrameworkOrder(s, k, r);
      OtherOrder(s, k, r);
      assert s.pending[k := none] - {k} == s.pending;
    } else {
      NoWork(s, k, r);
    }
  }

  /** A single creation that nothing disturbs leaves a schedule behind if and only if its interval can be
      built and does not fit the history's column. */
  lemma CreationAccountedIff(
      s: State, k: Ticket, t: TaskId, user: string, url: string, schedule: Schedule, library: Library)
    requires Inv(s) && SchedulesAccounted(s) && k !in s.pending
    requires ValidSchedule(schedule) && t !in s.db.rows && Born(s.db.history, t).None?
    ensures SchedulesAccounted(Run(s, Creation(k, CreateTask(t, user, url, schedule, library)))) <==>
            !(schedule.Interval? && 0x8000_0000 <= schedule.seconds <= 86399999999999)
  {
    var s' := Run(s, Creation(k, CreateTask(t, user, url, schedule, library)));
    CreationEffect(s, k, t, user, url, schedule, library);
    UnbornNotOwed(s, t);
    hide Run, Inv, TooLong, Storable;
    assert forall i :: Owed(s', i) == Owed(s, i);
    if TooLong(schedule) { assert t in s'.schedules && !ActiveRow(s', t); }
  }

  /** The trigger can be built and the handler's own INSERT goes through. */
  predicate Accepts(db: Database, t: TaskId, schedule: Schedule, library: Library) {
    Builds(schedule, library) && CanFlush(db, t, schedule)
  }

  /** What the handler does not accept changes nothing; otherwise the schedule is put up, whether or not
      the row comes. */
  lemma CreationEffect(s: State, k: Ticket, t: TaskId, user: string, url: string, schedule: Schedule, library: Library)
    requires k !in s.pending && ValidSchedule(schedule) && t !in s.db.rows && Born(s.db.history, t).None?
    ensures var s' := Run(s, Creation(k, CreateTask(t, user, url, schedule, library)));
            && s'.jobs == s.jobs
            && s'.schedules == (if Accepts(s.db, t, schedule, library) then s.schedules + {t} else s.schedules)
            && s'.db.rows == if Accepts(s.db, t, schedule, library) && Storable(schedule)
                             then s.db.rows[t := Row(user, url, schedule, FirstFire(schedule, library.Fire()), true)]
                             else s.db.rows
  {
    var r := CreateTask(t, user, url, schedule, library);
    RunCreation(s, k, r);
    var s1 := ApplyBegin(s, k, r);
    var s2 := ApplyBackgroundPending(s1, k);
    hide Run;
    if Accepts(s.db, t, schedule, library) {
      var txn := Handle(s.db, s.clock, r).work.value.txn;
      assert s1.pending[k] == Pending(Some(txn), Some(Register(t)));
      assert s2.pending[k].txn == Some(txn) && s2.db == s.db;
      assert Commits(s.db, txn) == Storable(schedule);
    } else {
      assert s2 == s;
    }
  }

  // ---------------------------------------------------------------- what goes wrong otherwise

  const CRON := Cron("0 9 * * *", "UTC")
  const CREATE := CreateTask(1, "user", "url", CRON, Finds(Some(5)))
  const PAUSE := DeactivateTask(1, "user")
  const RESUME := ActivateTask(1, "user", Some(6))
  const CRON_ROW := Row("user", "url", CRON, Some(5), true)
  const PAUSED_ROW := Row("user", "url", CRON, None, false)

  lemma PausedCron()
    ensures var s := Run(INITIAL, [Serve(CREATE), Serve(PAUSE)]);
            && s.db.rows == map[1 := PAUSED_ROW] && s.pending == map[] && s.jobs == map[] && s.schedules == {}
  {
    var none: seq<Step> := [];
    RunOne(INITIAL, none, Serve(CREATE));
    RunOne(INITIAL, none + [Serve(CREATE)], Serve(PAUSE));
    assert none + [Serve(CREATE)] + [Serve(PAUSE)] == [Serve(CREATE), Serve(PAUSE)];
    assert Run(INITIAL, none + [Serve(CREATE)]).db.rows == map[1 := CRON_ROW];
  }

  /** In the framework's order it takes two requests on one task: the activation of a paused task puts
      the schedule up, a deletion comes in between, and the activation then has no row to commit to. */
  lemma DeletedDuringActivation() returns (es: seq<Step>)
    ensures AllLawful((t: TaskId) => true, es) && forall n :: 0 <= n < |es| ==> BackgroundFirst(At(es, n), es[n])
    ensures var s := Run(INITIAL, es); 1 in s.schedules && s.db.rows == map[] && s.jobs == map[] && FreeTask(s, 1)
  {
    var e2 := [Serve(CREATE), Serve(PAUSE)];
    var e3 := e2 + [Begin(1, RESUME)];
    var e4 := e3 + [BackgroundPending(1)];
    var e5 := e4 + [Serve(DeleteTask(1, "user"))];
    es := e5 + [CommitPending(1)];
    PausedCron();
    RunOne(INITIAL, e2, Begin(1, RESUME));
    RunOne(INITIAL, e3, BackgroundPending(1));
    RunOne(INITIAL, e4, Serve(DeleteTask(1, "user")));
    RunOne(INITIAL, e5, CommitPending(1));
    assert es[..5] == e5;
    assert Run(INITIAL, e4).db.rows == map[1 := PAUSED_ROW];
    assert Run(INITIAL, e5).pending[1].background.None? && Run(INITIAL, e5).db.rows == map[];
    forall n | 0 <= n < |es| ensures BackgroundFirst(At(es, n), es[n]) {
      if n == 5 { assert es[n] == CommitPending(1); }
    }
  }

  const TOO_LONG := Interval(0x8000_0000)

  /** And one request for a task whose creation cannot commit, because its interval does not fit the
      history's column. */
  lemma UnstorableCreateBreaksSchedules() returns (es: seq<Step>)
    ensures ValidSchedule(TOO_LONG) && TooLong(TOO_LONG)
    ensures var s := Run(INITIAL, es); s.db == INITIAL.db && s.schedules == {1} && s.jobs == map[]
  {
    var create := CreateTask(1, "user", "url", TOO_LONG, Finds(Some(5)));
    var e0: seq<Step> := [];
    var e1 := e0 + [Begin(1, create)];
    var e2 := e1 + [BackgroundPending(1)];
    es := e2 + [CommitPending(1)];
    RunOne(INITIAL, e0, Begin(1, create));
    RunOne(INITIAL, e1, BackgroundPending(1));
    RunOne(INITIAL, e2, CommitPending(1));
    assert Run(INITIAL, e2).schedules == {1};
    assert !Commits(INITIAL.db, Run(INITIAL, e2).pending[1].txn.value);
  }
}
