/** Tenant isolation: what a user has and what a user is told depends on that user's own steps only. */
module Tenants {
  import opened Options
  import opened Triggers
  import opened Webhook
  import opened Lifecycle
  import opened LifecycleInvariants
  import opened LifecycleTheorems

  /** Whose a task id and whose an in-flight ticket is. */
  datatype Tags = Tags(task: TaskId -> string, ticket: Ticket -> string)

  /** A user creates tasks under his own ids, and every ticket serves one user. */
  predicate Fits(g: Tags, e: Step) {
    match e
    case Serve(r) => r.CreateTask? ==> g.task(r.task) == r.user
    case Begin(k, r) => g.ticket(k) == r.user && (r.CreateTask? ==> g.task(r.task) == r.user)
    case Fire(k, t) => g.ticket(k) == g.task(t)
    case RunAccept(k, t, user) => g.ticket(k) == user
    case _ => true
  }

  predicate AllFitTags(g: Tags, es: seq<Step>) {
    forall i :: 0 <= i < |es| ==> Fits(g, es[i])
  }

  /** The user on whose behalf a step happens; the clock is everybody's. */
  function UserOf(g: Tags, e: Step): Option<string> {
    match e
    case Serve(r) => Some(r.user)
    case Begin(k, _) => Some(g.ticket(k))
    case CommitPending(k) => Some(g.ticket(k))
    case BackgroundPending(k) => Some(g.ticket(k))
    case Fire(k, _) => Some(g.ticket(k))
    case Call(k, _) => Some(g.ticket(k))
    case CommitJob(k) => Some(g.ticket(k))
    case RemoveSchedule(k) => Some(g.ticket(k))
    case RunAccept(k, _, _) => Some(g.ticket(k))
    case RunLoad(k) => Some(g.ticket(k))
    case RunCall(k, _) => Some(g.ticket(k))
    case RunCommit(k) => Some(g.ticket(k))
    case Exhaust(t) => Some(g.task(t))
    case Clock(_) => None
  }

  predicate Concerns(g: Tags, user: string, e: Step) {
    UserOf(g, e) == None || UserOf(g, e) == Some(user)
  }

  /** The steps of a run that concern the user, in order. */
  function OwnSteps(g: Tags, user: string, es: seq<Step>): seq<Step> {
    if es == [] then []
    else OwnSteps(g, user, es[..|es| - 1]) + if Concerns(g, user, es[|es| - 1]) then [es[|es| - 1]] else []
  }

  /** The history entries that carry the user's id. */
  function OwnHistory(h: seq<Entry>, user: string): seq<Entry> {
    if h == [] then []
    else OwnHistory(h[..|h| - 1], user) + if h[|h| - 1].owner == user then [h[|h| - 1]] else []
  }

  // ---------------------------------------------------------------- everything carries its owner's tag

  ghost predicate TaggedTxn(g: Tags, txn: Txn, user: string) {
    && txn.entry.owner == user && g.task(txn.entry.task) == user
    && (txn.write.Insert? ==> txn.write.row.owner == user)
  }

  ghost predicate TaggedRows(g: Tags, rows: map<TaskId, Row>) {
    forall t :: t in rows ==> rows[t].owner == g.task(t)
  }

  ghost predicate TaggedPending(g: Tags, pending: map<Ticket, Pending>) {
    forall k :: k in pending ==>
      && (pending[k].txn.Some? ==> TaggedTxn(g, pending[k].txn.value, g.ticket(k)))
      && (pending[k].background.Some? ==> g.task(pending[k].background.value.task) == g.ticket(k))
  }

  ghost predicate TaggedJobs(g: Tags, jobs: map<Ticket, Job>) {
    forall k :: k in jobs ==>
      g.task(jobs[k].task) == g.ticket(k) && (!jobs[k].OwesRemoval? ==> jobs[k].row.owner == g.ticket(k))
  }

  ghost predicate TaggedRuns(g: Tags, runs: map<Ticket, ManualRun>) {
    forall k :: k in runs ==> runs[k].user == g.ticket(k) && g.task(runs[k].task) == g.ticket(k)
  }

  ghost predicate Tagged(g: Tags, s: State) {
    TaggedRows(g, s.db.rows) && TaggedPending(g, s.pending) && TaggedJobs(g, s.jobs) && TaggedRuns(g, s.runs)
  }

  /** What a step commits belongs to the user of the step. */
  lemma WritesTagged(g: Tags, s: State, e: Step)
    requires Tagged(g, s) && Fits(g, e) && Writes(s, e).Some?
    ensures UserOf(g, e).Some? && TaggedTxn(g, Writes(s, e).value, UserOf(g, e).value)
  {}

  lemma TaggedRowsStep(g: Tags, s: State, e: Step)
    requires Tagged(g, s) && Fits(g, e)
    ensures TaggedRows(g, Apply(s, e).db.rows)
  {
    StepWrites(s, e);
    if Writes(s, e).Some? { WritesTagged(g, s, e); }
    hide Apply, Writes;
  }

  lemma TaggedPendingStep(g: Tags, s: State, e: Step)
    requires Tagged(g, s) && Fits(g, e)
    ensures TaggedPending(g, Apply(s, e).pending)
  {
    hide TaggedJobs, TaggedRuns;
  }

  lemma TaggedJobsStep(g: Tags, s: State, e: Step)
    requires Tagged(g, s) && Fits(g, e)
    ensures TaggedJobs(g, Apply(s, e).jobs)
  {
    hide TaggedPending, TaggedRuns;
  }

  lemma TaggedRunsStep(g: Tags, s: State, e: Step)
    requires Tagged(g, s) && Fits(g, e)
    ensures TaggedRuns(g, Apply(s, e).runs)
  {
    hide TaggedPending, TaggedJobs;
  }

  lemma TaggedStep(g: Tags, s: State, e: Step)
    requires Tagged(g, s) && Fits(g, e)
    ensures Tagged(g, Apply(s, e))
  {
    TaggedRowsStep(g, s, e);
    TaggedPendingStep(g, s, e);
    TaggedJobsStep(g, s, e);
    TaggedRunsStep(g, s, e);
    hide Apply;
  }

  lemma {:induction false} TaggedRun(g: Tags, es: seq<Step>)
    requires AllFitTags(g, es)
    ensures Tagged(g, Run(INITIAL, es))
    decreases |es|
  {
    if es != [] {
      assert forall i :: 0 <= i < |es| - 1 ==> es[..|es| - 1][i] == es[i];
      TaggedRun(g, es[..|es| - 1]);
      TaggedStep(g, Run(INITIAL, es[..|es| - 1]), es[|es| - 1]);
    }
  }

  // ---------------------------------------------------------------- one user's part of a state

  /** Equal but for how long the whole history was at the load. */
  predicate SameJob(a: Job, b: Job) {
    match a
    case Loaded(t, row, _) => b.Loaded? && b.task == t && b.row == row
    case Called(t, row, _, o) => b.Called? && b.task == t && b.row == row && b.outcome == o
    case OwesRemoval(t) => b == a
  }

  ghost predicate SameTasks(g: Tags, user: string, s: State, p: State) {
    forall t :: g.task(t) == user ==>
      && (t in s.db.rows <==> t in p.db.rows) && (t in s.db.rows ==> s.db.rows[t] == p.db.rows[t])
      && (t in s.schedules <==> t in p.schedules)
      && Born(s.db.history, t) == Born(p.db.history, t)
  }

  predicate SameTicket(k: Ticket, s: State, p: State) {
    && (k in s.pending <==> k in p.pending) && (k in s.pending ==> s.pending[k] == p.pending[k])
    && (k in s.runs <==> k in p.runs) && (k in s.runs ==> s.runs[k] == p.runs[k])
    && (k in s.jobs <==> k in p.jobs) && (k in s.jobs ==> SameJob(s.jobs[k], p.jobs[k]))
  }

  ghost predicate SameTickets(g: Tags, user: string, s: State, p: State) {
    forall k :: g.ticket(k) == user ==> SameTicket(k, s, p)
  }

  ghost predicate SameFor(g: Tags, user: string, s: State, p: State) {
    && s.clock == p.clock && OwnHistory(s.db.history, user) == OwnHistory(p.db.history, user)
    && SameTasks(g, user, s, p) && SameTickets(g, user, s, p)
  }

  lemma OwnExtended(h: seq<Entry>, e: Entry, user: string)
    ensures OwnHistory(h + [e], user) == OwnHistory(h, user) + if e.owner == user then [e] else []
  {
    Extended(h, e);
  }

  // ---------------------------------------------------------------- other users' steps

  /** Other users' steps leave the user's part of the state alone. */
  lemma OthersStep(g: Tags, user: string, s: State, e: Step)
    requires Tagged(g, s) && Fits(g, e) && !Concerns(g, user, e)
    ensures SameFor(g, user, s, Apply(s, e))
  {
    OthersWrite(g, user, s, e);
    OthersTickets(g, user, s, e);
    OthersSchedules(g, user, s, e);
  }

  lemma OthersWrite(g: Tags, user: string, s: State, e: Step)
    requires Tagged(g, s) && Fits(g, e) && !Concerns(g, user, e)
    ensures var p := Apply(s, e);
            && s.clock == p.clock && OwnHistory(s.db.history, user) == OwnHistory(p.db.history, user)
            && forall t :: g.task(t) == user ==>
                 && (t in s.db.rows <==> t in p.db.rows) && (t in s.db.rows ==> s.db.rows[t] == p.db.rows[t])
                 && Born(s.db.history, t) == Born(p.db.history, t)
  {
    StepWrites(s, e);
    if Writes(s, e).Some? {
      WritesTagged(g, s, e);
      Extended(s.db.history, Writes(s, e).value.entry);
      OwnExtended(s.db.history, Writes(s, e).value.entry, user);
    }
  }

  lemma OthersTickets(g: Tags, user: string, s: State, e: Step)
    requires Fits(g, e) && !Concerns(g, user, e)
    ensures SameTickets(g, user, s, Apply(s, e))
  {
    forall k | g.ticket(k) == user ensures SameTicket(k, s, Apply(s, e)) { OtherTicket(s, e, k); }
  }

  predicate OnTicket(e: Step, k: Ticket) {
    !e.Serve? && !e.Exhaust? && !e.Clock? && e.ticket == k
  }

  lemma OtherTicket(s: State, e: Step, k: Ticket)
    requires !OnTicket(e, k)
    ensures var p := Apply(s, e);
            && (k in s.pending <==> k in p.pending) && (k in s.pending ==> s.pending[k] == p.pending[k])
            && (k in s.runs <==> k in p.runs) && (k in s.runs ==> s.runs[k] == p.runs[k])
            && (k in s.jobs <==> k in p.jobs) && (k in s.jobs ==> s.jobs[k] == p.jobs[k])
  {}

  lemma OthersSchedules(g: Tags, user: string, s: State, e: Step)
    requires Tagged(g, s) && Fits(g, e) && !Concerns(g, user, e)
    ensures forall t :: g.task(t) == user ==> (t in s.schedules <==> t in Apply(s, e).schedules)
  {}

  // ---------------------------------------------------------------- the user's own steps

  /** A handler tells the user the same in both states, and leaves the same to be done. */
  lemma SameAnswer(g: Tags, user: string, s: State, p: State, r: Request)
    requires Tagged(g, s) && Tagged(g, p) && SameTasks(g, user, s, p) && s.clock == p.clock
    requires r.user == user && (r.CreateTask? ==> g.task(r.task) == user)
    ensures Handle(s.db, s.clock, r) == Handle(p.db, p.clock, r)
  {}

  lemma OwnWrites(g: Tags, user: string, s: State, p: State, e: Step)
    requires Tagged(g, s) && Tagged(g, p) && SameFor(g, user, s, p) && Fits(g, e) && UserOf(g, e) == Some(user)
    ensures Writes(s, e) == Writes(p, e)
  {
    if e.Serve? { SameAnswer(g, user, s, p, e.request); }
  }

  ghost predicate SameData(g: Tags, user: string, d: Database, f: Database) {
    && OwnHistory(d.history, user) == OwnHistory(f.history, user)
    && forall t :: g.task(t) == user ==>
         && (t in d.rows <==> t in f.rows) && (t in d.rows ==> d.rows[t] == f.rows[t])
         && Born(d.history, t) == Born(f.history, t)
  }

  lemma SameCommit(g: Tags, user: string, d: Database, f: Database, txn: Txn)
    requires SameData(g, user, d, f) && Commits(d, txn) && Commits(f, txn)
    ensures SameData(g, user, Commit(d, txn), Commit(f, txn))
  {
    Extended(d.history, txn.entry);
    Extended(f.history, txn.entry);
    OwnExtended(d.history, txn.entry, user);
    OwnExtended(f.history, txn.entry, user);
    hide Born, OwnHistory;
  }

  lemma OwnCommit(g: Tags, user: string, s: State, p: State, e: Step)
    requires Tagged(g, s) && Tagged(g, p) && SameFor(g, user, s, p) && Fits(g, e) && Concerns(g, user, e)
    ensures SameData(g, user, Apply(s, e).db, Apply(p, e).db)
  {
    StepWrites(s, e);
    StepWrites(p, e);
    if UserOf(g, e) == Some(user) { OwnWrites(g, user, s, p, e); }
    if Writes(s, e).Some? { SameCommit(g, user, s.db, p.db, Writes(s, e).value); }
  }

  lemma OwnRequestTicket(g: Tags, user: string, s: State, p: State, e: Step)
    requires Tagged(g, s) && Tagged(g, p) && SameFor(g, user, s, p) && Fits(g, e)
    requires (e.Begin? || e.CommitPending? || e.BackgroundPending?) && g.ticket(e.ticket) == user
    ensures SameTicket(e.ticket, Apply(s, e), Apply(p, e))
  {
    assert SameTicket(e.ticket, s, p);
    if e.Begin? { SameAnswer(g, user, s, p, e.request); }
    hide Tagged, SameFor, Handle;
  }

  lemma OwnJobTicket(g: Tags, user: string, s: State, p: State, e: Step)
    requires Tagged(g, s) && Tagged(g, p) && SameFor(g, user, s, p) && Fits(g, e)
    requires (e.Fire? || e.Call? || e.CommitJob? || e.RemoveSchedule?) && g.ticket(e.ticket) == user
    ensures SameTicket(e.ticket, Apply(s, e), Apply(p, e))
  {
    assert SameTicket(e.ticket, s, p);
    if e.Fire? {
      OwnFire(g, user, s, p, e.ticket, e.task);
    } else if e.CommitJob? {
      OwnJobCommit(g, user, s, p, e.ticket);
    }
    hide Tagged, SameTasks, SameTickets, OwnHistory, ApplyFire, ApplyCommitJob;
  }

  lemma OwnJobCommit(g: Tags, user: string, s: State, p: State, k: Ticket)
    requires TaggedJobs(g, s.jobs) && SameTasks(g, user, s, p) && g.ticket(k) == user && SameTicket(k, s, p)
    ensures SameTicket(k, ApplyCommitJob(s, k), ApplyCommitJob(p, k))
  {}

  lemma OwnFire(g: Tags, user: string, s: State, p: State, k: Ticket, t: TaskId)
    requires SameTasks(g, user, s, p) && g.task(t) == user && SameTicket(k, s, p)
    ensures SameTicket(k, ApplyFire(s, k, t), ApplyFire(p, k, t))
  {}

  lemma OwnRunStart(g: Tags, user: string, s: State, p: State, k: Ticket, t: TaskId)
    requires Tagged(g, s) && Tagged(g, p) && SameTasks(g, user, s, p) && g.ticket(k) == user && SameTicket(k, s, p)
    ensures SameTicket(k, ApplyRunAccept(s, k, t, user), ApplyRunAccept(p, k, t, user))
  {
    hide TaggedPending, TaggedJobs, TaggedRuns;
    assert Visible(s.db, t, user) == Visible(p.db, t, user);
  }

  lemma OwnRunLoad(g: Tags, user: string, s: State, p: State, k: Ticket)
    requires TaggedRuns(g, s.runs) && SameTasks(g, user, s, p) && g.ticket(k) == user && SameTicket(k, s, p)
    ensures SameTicket(k, ApplyRunLoad(s, k), ApplyRunLoad(p, k))
  {}

  lemma OwnRunTicket(g: Tags, user: string, s: State, p: State, e: Step)
    requires Tagged(g, s) && Tagged(g, p) && SameFor(g, user, s, p) && Fits(g, e)
    requires (e.RunAccept? || e.RunLoad? || e.RunCall? || e.RunCommit?) && g.ticket(e.ticket) == user
    ensures SameTicket(e.ticket, Apply(s, e), Apply(p, e))
  {
    assert SameTicket(e.ticket, s, p);
    if e.RunAccept? {
      OwnRunStart(g, user, s, p, e.ticket, e.task);
    } else if e.RunLoad? {
      OwnRunLoad(g, user, s, p, e.ticket);
    }
    hide Tagged, SameTasks, SameTickets, OwnHistory, ApplyRunAccept, ApplyRunLoad;
  }

  lemma OwnTickets(g: Tags, user: string, s: State, p: State, e: Step)
    requires Tagged(g, s) && Tagged(g, p) && SameFor(g, user, s, p) && Fits(g, e) && Concerns(g, user, e)
    ensures SameTickets(g, user, Apply(s, e), Apply(p, e))
  {
    hide Apply, Tagged, Fits;
    forall k | g.ticket(k) == user ensures SameTicket(k, Apply(s, e), Apply(p, e)) {
      if OnTicket(e, k) {
        if e.Begin? || e.CommitPending? || e.BackgroundPending? {
          OwnRequestTicket(g, user, s, p, e);
        } else if e.Fire? || e.Call? || e.CommitJob? || e.RemoveSchedule? {
          OwnJobTicket(g, user, s, p, e);
        } else {
          OwnRunTicket(g, user, s, p, e);
        }
      } else {
        assert SameTicket(k, s, p);
        OtherTicket(s, e, k);
        OtherTicket(p, e, k);
      }
    }
  }

  /** What a step does to the schedules. */
  function ScheduleChange(s: State, e: Step): Option<Background> {
    match e
    case Serve(r) =>
      var w := Handle(s.db, s.clock, r).work;
      if w.Some? then w.value.background else None
    case BackgroundPending(k) => if k in s.pending then s.pending[k].background else None
    case RemoveSchedule(k) =>
      if k in s.jobs && s.jobs[k].OwesRemoval? then Some(Unregister(s.jobs[k].task)) else None
    case Exhaust(t) => Some(Unregister(t))
    case _ => None
  }

  lemma ChangeTakesEffect(s: State, e: Step)
    ensures var c := ScheduleChange(s, e);
            Apply(s, e).schedules == if c.Some? then RunBackground(s.schedules, c.value) else s.schedules
  {}

  lemma OwnChange(g: Tags, user: string, s: State, p: State, e: Step)
    requires Tagged(g, s) && Tagged(g, p) && SameFor(g, user, s, p) && Fits(g, e) && Concerns(g, user, e)
    ensures ScheduleChange(s, e) == ScheduleChange(p, e)
  {
    if e.Serve? {
      SameAnswer(g, user, s, p, e.request);
    } else if e.BackgroundPending? || e.RemoveSchedule? {
      assert SameTicket(e.ticket, s, p);
    }
    hide Tagged, Handle, SameTasks, SameTickets;
  }

  lemma OwnSchedules(g: Tags, user: string, s: State, p: State, e: Step)
    requires Tagged(g, s) && Tagged(g, p) && SameFor(g, user, s, p) && Fits(g, e) && Concerns(g, user, e)
    ensures forall t :: g.task(t) == user ==> (t in Apply(s, e).schedules <==> t in Apply(p, e).schedules)
  {
    ChangeTakesEffect(s, e);
    ChangeTakesEffect(p, e);
    OwnChange(g, user, s, p, e);
    hide Apply, Tagged, ScheduleChange, SameTickets, OwnHistory, Born;
  }

  lemma OwnStep(g: Tags, user: string, s: State, p: State, e: Step)
    requires Tagged(g, s) && Tagged(g, p) && SameFor(g, user, s, p) && Fits(g, e) && Concerns(g, user, e)
    ensures SameFor(g, user, Apply(s, e), Apply(p, e))
  {
    hide Apply, Born, OwnHistory, SameTickets, Tagged, Fits, UserOf;
    OwnCommit(g, user, s, p, e);
    OwnTickets(g, user, s, p, e);
    OwnSchedules(g, user, s, p, e);
    SameClock(s, p, e);
  }

  lemma SameClock(s: State, p: State, e: Step)
    requires s.clock == p.clock
    ensures Apply(s, e).clock == Apply(p, e).clock
  {}

  // ---------------------------------------------------------------- non-interference

  lemma SameForThree(g: Tags, user: string, s: State, p: State, q: State)
    requires SameFor(g, user, s, p) && SameFor(g, user, s, q)
    ensures SameFor(g, user, p, q)
  {}

  lemma SameForSelf(g: Tags, user: string, s: State)
    ensures SameFor(g, user, s, s)
  {}

  lemma {:induction false} OwnStepsFit(g: Tags, user: string, es: seq<Step>)
    requires AllFitTags(g, es)
    ensures AllFitTags(g, OwnSteps(g, user, es))
    decreases |es|
  {
    if es != [] {
      assert forall i :: 0 <= i < |es| - 1 ==> es[..|es| - 1][i] == es[i];
      OwnStepsFit(g, user, es[..|es| - 1]);
    }
  }

  /** A run and the run of the user's own steps end in states that are the same for the user. */
  lemma {:induction false} OwnStepsSuffice(g: Tags, user: string, es: seq<Step>)
    requires AllFitTags(g, es)
    ensures SameFor(g, user, Run(INITIAL, es), Run(INITIAL, OwnSteps(g, user, es)))
    decreases |es|
  {
    if es == [] {
      SameForSelf(g, user, INITIAL);
    } else {
      var before, e := es[..|es| - 1], es[|es| - 1];
      assert forall i :: 0 <= i < |before| ==> before[i] == es[i];
      var own := OwnSteps(g, user, before);
      OwnStepsSuffice(g, user, before);
      OwnStepsFit(g, user, before);
      TaggedRun(g, before);
      TaggedRun(g, own);
      hide SameFor, Tagged, Apply;
      var s, p := Run(INITIAL, before), Run(INITIAL, own);
      if Concerns(g, user, e) {
        OwnStep(g, user, s, p, e);
        RunOne(INITIAL, own, e);
      } else {
        assert own + [] == own;
        OthersStep(g, user, s, e);
        SameForThree(g, user, s, p, Apply(s, e));
        SameForSwap(g, user, p, Apply(s, e));
      }
    }
  }

  lemma SameForSwap(g: Tags, user: string, s: State, p: State)
    requires SameFor(g, user, s, p)
    ensures SameFor(g, user, p, s)
  {}

  /** Tenant isolation.  Two runs that agree on a user's own steps, whatever other users do in either,
      leave that user the same rows and the same history, and answer each request of the user alike. */
  lemma NonInterference(g: Tags, user: string, es: seq<Step>, fs: seq<Step>, r: Request)
    requires AllFitTags(g, es) && AllFitTags(g, fs) && OwnSteps(g, user, es) == OwnSteps(g, user, fs)
    requires r.user == user && (r.CreateTask? ==> g.task(r.task) == user)
    ensures var s, p := Run(INITIAL, es), Run(INITIAL, fs);
            && OwnHistory(s.db.history, user) == OwnHistory(p.db.history, user)
            && (forall t :: Visible(s.db, t, user) <==> Visible(p.db, t, user))
            && (forall t :: Visible(s.db, t, user) ==> s.db.rows[t] == p.db.rows[t])
            && Handle(s.db, s.clock, r) == Handle(p.db, p.clock, r)
  {
    var s, p, o := Run(INITIAL, es), Run(INITIAL, fs), Run(INITIAL, OwnSteps(g, user, es));
    OwnStepsSuffice(g, user, es);
    OwnStepsSuffice(g, user, fs);
    TaggedRun(g, es);
    TaggedRun(g, fs);
    hide Run, Born;
    SameForSwap(g, user, s, o);
    SameForSwap(g, user, p, o);
    SameForThree(g, user, o, s, p);
    SameAnswer(g, user, s, p, r);
  }

  /** A request on another user's task is answered as if the task did not exist, and a manual run of it
      does not begin. */
  lemma ForeignTaskIsNotFound(g: Tags, es: seq<Step>, r: Request, k: Ticket)
    requires AllFitTags(g, es) && !r.CreateTask? && g.task(r.task) != r.user
    ensures var s := Run(INITIAL, es);
            && Handle(s.db, s.clock, r) == Handled(HTTP_404, None)
            && Apply(s, RunAccept(k, r.task, r.user)) == s
  {
    TaggedRun(g, es);
  }
}
