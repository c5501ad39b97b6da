/** What stands behind each entry of the history, in every run: the step that wrote it and, for an
    execution or a request, the earlier steps it goes back to. */
module HistoryTrail {
  import opened Options
  import opened Triggers
  import opened Webhook
  import opened Lifecycle
  import opened LifecycleInvariants
  import opened LifecycleTheorems

  /** The entry at place `n` was written by a step, and that step wrote nothing else. */
  lemma {:induction false} EntryWasWritten(es: seq<Step>, n: nat) returns (c: nat)
    requires n < |Run(INITIAL, es).db.history|
    ensures c < |es| && |At(es, c).db.history| == n && |At(es, c + 1).db.history| == n + 1
    ensures var w := Writes(At(es, c), es[c]); w.Some? && w.value.entry == Run(INITIAL, es).db.history[n]
    decreases |es|
  {
    var before, e := es[..|es| - 1], es[|es| - 1];
    var s := Run(INITIAL, before);
    StepWrites(s, e);
    hide Apply, Writes, Commits;
    if n < |s.db.history| {
      c := EntryWasWritten(before, n);
      AtEarlier(es, c);
      AtEarlier(es, c + 1);
    } else {
      c := |es| - 1;
      assert es[..c + 1] == es;
    }
  }

  lemma AtPrefix(es: seq<Step>, c: nat, i: nat)
    requires i <= c <= |es|
    ensures At(es[..c], i) == At(es, i)
  {
    assert es[..c][..i] == es[..i];
  }

  // ---------------------------------------------------------------- scheduled executions

  /** An answered executor was so before the step, or the step is its call. */
  lemma CalledBeforeStep(s: State, e: Step, k: Ticket)
    requires k in Apply(s, e).jobs && Apply(s, e).jobs[k].Called?
    ensures var j := Apply(s, e).jobs[k];
            && k in s.jobs && SameLoad(s.jobs[k], j)
            && (s.jobs[k] == j
                || (s.jobs[k].Loaded? && e.Call? && e.ticket == k && j.outcome == FireTaskWebhook(e.reply)))
  {}

  /** Every answered executor has its load and, after that, its call behind it, and it holds the outcome
      of that very call. */
  lemma {:induction false} JobWasCalled(es: seq<Step>, k: Ticket) returns (i: nat, m: nat, reply: Reply)
    requires k in Run(INITIAL, es).jobs && Run(INITIAL, es).jobs[k].Called?
    ensures i < m < |es| && es[m] == Call(k, reply)
    ensures LoadedLive(es, i, k, Run(INITIAL, es).jobs[k])
    ensures Run(INITIAL, es).jobs[k].outcome == FireTaskWebhook(reply)
    decreases |es|
  {
    var before, e := es[..|es| - 1], es[|es| - 1];
    var s := Run(INITIAL, before);
    CalledBeforeStep(s, e, k);
    hide Apply;
    if s.jobs[k].Called? {
      i, m, reply := JobWasCalled(before, k);
    } else {
      i := JobWasLoaded(before, k);
      m, reply := |es| - 1, e.reply;
    }
    AtEarlier(es, i);
  }

  /** The entry of a scheduled execution and the steps behind it: a load that found the task present and
      active, and a call. */
  ghost predicate ExecutedAt(es: seq<Step>, i: nat, m: nat, k: Ticket, reply: Reply, entry: Entry) {
    && i < m < |es| && es[i] == Fire(k, entry.task) && es[m] == Call(k, reply)
    && var s := At(es, i);
    && entry.task in s.db.rows && s.db.rows[entry.task].active
    && Replay(s.db.history, entry.task) == Live(true, s.db.rows[entry.task].schedule.Once?)
    && var row := s.db.rows[entry.task];
    && entry == Entry(row.owner, entry.task, Execution(Scheduled, row.url, FireTaskWebhook(reply)))
  }

  lemma WrittenByExecutor(es: seq<Step>, c: nat) returns (i: nat, m: nat, k: Ticket, reply: Reply)
    requires c < |es| && Writes(At(es, c), es[c]).Some? && IsScheduled(Writes(At(es, c), es[c]).value.entry)
    ensures m < c && es[c] == CommitJob(k)
    ensures ExecutedAt(es, i, m, k, reply, Writes(At(es, c), es[c]).value.entry)
  {
    CallsBalanceRun(es[..c]);
    OnlyJobsWriteScheduled(At(es, c), es[c]);
    k := es[c].ticket;
    i, m, reply := JobWasCalled(es[..c], k);
    AtPrefix(es, c, i);
  }

  /** Stale schedules do no harm: whatever the scheduler fires and whenever it does so, the scheduled
      execution at place `n` of the history was committed by an executor (step `c`) that had found
      the task present and active when it loaded it (step `i`); it bears the owner and the URL of the
      row found there, and the status, success and error of the reply to its call in between (`m`). */
  lemma ScheduledRowWasLoadedLive(es: seq<Step>, n: nat)
    returns (i: nat, m: nat, c: nat, k: Ticket, reply: Reply)
    requires n < |Run(INITIAL, es).db.history| && IsScheduled(Run(INITIAL, es).db.history[n])
    ensures m < c < |es| && es[c] == CommitJob(k)
    ensures |At(es, c).db.history| == n && |At(es, c + 1).db.history| == n + 1
    ensures ExecutedAt(es, i, m, k, reply, Run(INITIAL, es).db.history[n])
  {
    c := EntryWasWritten(es, n);
    i, m, k, reply := WrittenByExecutor(es, c);
  }

  // ---------------------------------------------------------------- manual executions

  predicate IsManual(e: Entry) {
    e.event.Execution? && e.event.source == Manual
  }

  predicate SameRun(a: ManualRun, b: ManualRun) {
    a.task == b.task && a.user == b.user && a.row == b.row
  }

  /** Step `i` is the request: the user's own task, as it was found. */
  ghost predicate AcceptedAt(es: seq<Step>, i: nat, k: Ticket, r: ManualRun)
    requires i < |es|
  {
    var s := At(es, i);
    && es[i] == RunAccept(k, r.task, r.user)
    && r.task in s.db.rows && s.db.rows[r.task] == r.row && r.row.owner == r.user
  }

  /** Step `l` is the second load, and the task is still there. */
  ghost predicate LoadedAt(es: seq<Step>, l: nat, k: Ticket, t: TaskId)
    requires l < |es|
  {
    es[l] == RunLoad(k) && t in At(es, l).db.rows
  }

  /** A manual run is as it was before the step, or the step moved it on by one. */
  lemma RunBeforeStep(s: State, e: Step, k: Ticket)
    requires k in Apply(s, e).runs
    ensures var r := Apply(s, e).runs[k];
            || (k in s.runs && s.runs[k] == r)
            || (r.Accepted? && e == RunAccept(k, r.task, r.user)
                && r.task in s.db.rows && s.db.rows[r.task] == r.row && r.row.owner == r.user)
            || (r.Sending? && k in s.runs && s.runs[k].Accepted? && SameRun(s.runs[k], r)
                && e == RunLoad(k) && r.task in s.db.rows)
            || (r.Answered? && k in s.runs && s.runs[k].Sending? && SameRun(s.runs[k], r)
                && e.RunCall? && e.ticket == k && r.outcome == FireTaskWebhook(e.reply))
  {}

  lemma {:induction false} RunWasAccepted(es: seq<Step>, k: Ticket) returns (i: nat)
    requires k in Run(INITIAL, es).runs
    ensures i < |es| && AcceptedAt(es, i, k, Run(INITIAL, es).runs[k])
    decreases |es|
  {
    var before, e := es[..|es| - 1], es[|es| - 1];
    var s := Run(INITIAL, before);
    RunBeforeStep(s, e, k);
    hide Apply;
    if k in s.runs && SameRun(s.runs[k], Run(INITIAL, es).runs[k]) {
      i := RunWasAccepted(before, k);
      AtEarlier(es, i);
    } else {
      i := |es| - 1;
    }
  }

  lemma {:induction false} RunWasLoaded(es: seq<Step>, k: Ticket) returns (i: nat, l: nat)
    requires k in Run(INITIAL, es).runs && !Run(INITIAL, es).runs[k].Accepted?
    ensures i < l < |es| && AcceptedAt(es, i, k, Run(INITIAL, es).runs[k])
    ensures LoadedAt(es, l, k, Run(INITIAL, es).runs[k].task)
    decreases |es|
  {
    var before, e := es[..|es| - 1], es[|es| - 1];
    var s := Run(INITIAL, before);
    RunBeforeStep(s, e, k);
    hide Apply;
    if s.runs[k].Accepted? {
      i := RunWasAccepted(before, k);
      l := |es| - 1;
    } else {
      i, l := RunWasLoaded(before, k);
      AtEarlier(es, l);
    }
    AtEarlier(es, i);
  }

  lemma {:induction false} RunWasCalled(es: seq<Step>, k: Ticket) returns (i: nat, l: nat, m: nat, reply: Reply)
    requires k in Run(INITIAL, es).runs && Run(INITIAL, es).runs[k].Answered?
    ensures i < l < m < |es| && AcceptedAt(es, i, k, Run(INITIAL, es).runs[k])
    ensures LoadedAt(es, l, k, Run(INITIAL, es).runs[k].task)
    ensures es[m] == RunCall(k, reply) && Run(INITIAL, es).runs[k].outcome == FireTaskWebhook(reply)
    decreases |es|
  {
    var before, e := es[..|es| - 1], es[|es| - 1];
    var s := Run(INITIAL, before);
    RunBeforeStep(s, e, k);
    hide Apply;
    if s.runs[k].Answered? {
      i, l, m, reply := RunWasCalled(before, k);
    } else {
      i, l := RunWasLoaded(before, k);
      m, reply := |es| - 1, e.reply;
    }
    AtEarlier(es, i);
    AtEarlier(es, l);
  }

  /** The entry of a manual run and the steps behind it: its user's request, the second load, the call. */
  ghost predicate RequestedAt(es: seq<Step>, i: nat, l: nat, m: nat, k: Ticket, reply: Reply, entry: Entry) {
    && i < l < m < |es|
    && es[i] == RunAccept(k, entry.task, entry.owner) && es[l] == RunLoad(k) && es[m] == RunCall(k, reply)
    && entry.task in At(es, i).db.rows && entry.task in At(es, l).db.rows
    && var row := At(es, i).db.rows[entry.task];
    && entry == Entry(row.owner, entry.task, Execution(Manual, row.url, FireTaskWebhook(reply)))
  }

  lemma OnlyRunsWriteManual(s: State, e: Step)
    requires NoExecutionPending(s) && Writes(s, e).Some? && IsManual(Writes(s, e).value.entry)
    ensures e.RunCommit? && e.ticket in s.runs && s.runs[e.ticket].Answered?
  {
    if e.Serve? { HandlersWriteNoExecutions(s.db, s.clock, e.request); }
  }

  lemma WrittenByRun(es: seq<Step>, c: nat) returns (i: nat, l: nat, m: nat, k: Ticket, reply: Reply)
    requires c < |es| && Writes(At(es, c), es[c]).Some? && IsManual(Writes(At(es, c), es[c]).value.entry)
    ensures m < c && es[c] == RunCommit(k)
    ensures RequestedAt(es, i, l, m, k, reply, Writes(At(es, c), es[c]).value.entry)
  {
    CallsBalanceRun(es[..c]);
    OnlyRunsWriteManual(At(es, c), es[c]);
    k := es[c].ticket;
    i, l, m, reply := RunWasCalled(es[..c], k);
    AtPrefix(es, c, i);
    AtPrefix(es, c, l);
  }

  /** Every manual execution in the history goes back to a request of the task's owner (step `i`), a
      second load that still found the task (step `l`) and a call (step `m`), in this order before its
      commit (step `c`); it bears the URL of the row the request found and the status, success and
      error of the reply to that call. */
  lemma ManualRowWasRequested(es: seq<Step>, n: nat)
    returns (i: nat, l: nat, m: nat, c: nat, k: Ticket, reply: Reply)
    requires n < |Run(INITIAL, es).db.history| && IsManual(Run(INITIAL, es).db.history[n])
    ensures m < c < |es| && es[c] == RunCommit(k)
    ensures |At(es, c).db.history| == n && |At(es, c + 1).db.history| == n + 1
    ensures RequestedAt(es, i, l, m, k, reply, Run(INITIAL, es).db.history[n])
  {
    c := EntryWasWritten(es, n);
    i, l, m, k, reply := WrittenByRun(es, c);
  }

  // ---------------------------------------------------------------- requests

  /** The event a request records about the row it found. */
  predicate Records(r: Request, db: Database, event: Event) {
    match r
    case CreateTask(_, _, url, schedule, _) => event == TaskCreated(url, schedule)
    case DeactivateTask(t, _) => t in db.rows && db.rows[t].active && event == TaskDeactivated
    case ActivateTask(t, _, _) => t in db.rows && !db.rows[t].active && event == TaskActivated
    case DeleteTask(t, _) => t in db.rows && event == TaskDeleted(db.rows[t].url, db.rows[t].schedule)
  }

  /** Step `b` runs the handler of the request, alone or with its commit and background job. */
  ghost predicate HandledAt(es: seq<Step>, b: nat, r: Request, entry: Entry) {
    && b < |es| && (es[b] == Serve(r) || (es[b].Begin? && es[b].request == r))
    && entry.owner == r.user && entry.task == r.task && Records(r, At(es, b).db, entry.event)
  }

  lemma HandlerRecords(db: Database, now: int, r: Request)
    requires Handle(db, now, r).work.Some?
    ensures var entry := Handle(db, now, r).work.value.txn.entry;
            entry.owner == r.user && entry.task == r.task && Records(r, db, entry.event)
  {}

  lemma {:induction false} PendingWasBegun(es: seq<Step>, k: Ticket) returns (b: nat, r: Request)
    requires k in Run(INITIAL, es).pending && Run(INITIAL, es).pending[k].txn.Some?
    ensures HandledAt(es, b, r, Run(INITIAL, es).pending[k].txn.value.entry) && es[b] == Begin(k, r)
    decreases |es|
  {
    var before, e := es[..|es| - 1], es[|es| - 1];
    var s := Run(INITIAL, before);
    if k in s.pending && s.pending[k].txn == Run(INITIAL, es).pending[k].txn {
      b, r := PendingWasBegun(before, k);
      AtEarlier(es, b);
    } else {
      b, r := |es| - 1, e.request;
      HandlerRecords(s.db, s.clock, r);
    }
  }

  /** Every other entry of the history goes back to the handler of a request (step `b`), of the user and
      about the task that the entry names, and records what that request asks; it was written by that
      very step or by the commit of the same request later on (step `c`). */
  lemma OtherRowWasHandled(es: seq<Step>, n: nat) returns (b: nat, c: nat, r: Request)
    requires n < |Run(INITIAL, es).db.history| && !Run(INITIAL, es).db.history[n].event.Execution?
    ensures b <= c < |es| && HandledAt(es, b, r, Run(INITIAL, es).db.history[n])
    ensures |At(es, c).db.history| == n && |At(es, c + 1).db.history| == n + 1
    ensures (b == c && es[c] == Serve(r)) || (b < c && exists k :: es[b] == Begin(k, r) && es[c] == CommitPending(k))
  {
    c := EntryWasWritten(es, n);
    var s := At(es, c);
    if es[c].Serve? {
      b, r := c, es[c].request;
      HandlerRecords(s.db, s.clock, r);
    } else {
      b, r := PendingWasBegun(es[..c], es[c].ticket);
      AtPrefix(es, c, b);
    }
  }
}
