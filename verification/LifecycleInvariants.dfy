/** What every step keeps, over every run: the history replays to the rows, snapshots agree with the
    creation, and no webhook call goes missing. */
module LifecycleInvariants {
  import opened Options
  import opened Triggers
  import opened Webhook
  import opened Lifecycle

  function BirthOf(row: Row): Birth {
    Birth(row.owner, row.url, row.schedule)
  }

  // ---------------------------------------------------------------- the database

  /** Validated with the request, and held by the history table. */
  predicate Acceptable(s: Schedule) {
    ValidSchedule(s) && Storable(s)
  }

  /** An entry belongs to a created task and repeats its owner, URL and schedule. */
  ghost predicate EntryAgrees(h: seq<Entry>, e: Entry) {
    && Born(h, e.task).Some?
    && var b := Born(h, e.task).value;
    && e.owner == b.owner && Acceptable(b.schedule)
    && match e.event
       case TaskCreated(url, schedule) => url == b.url && schedule == b.schedule
       case TaskDeleted(url, schedule) => url == b.url && schedule == b.schedule
       case Execution(_, url, o) => url == b.url && GoodOutcome(o)
       case _ => true
  }

  /** What the rows say about a task, in the terms of the replay. */
  function Recorded(db: Database, t: TaskId): Replayed {
    if t in db.rows then Live(db.rows[t].active, db.rows[t].schedule.Once?)
    else if Born(db.history, t).Some? then Gone
    else Unborn
  }

  ghost predicate DbInv(db: Database) {
    && (forall t :: t in db.rows ==>
          Born(db.history, t) == Some(BirthOf(db.rows[t])) && Acceptable(db.rows[t].schedule))
    && (forall t :: Replay(db.history, t) == Recorded(db, t))
    && (forall k :: 0 <= k < |db.history| ==> EntryAgrees(db.history, db.history[k]))
  }

  /** A transaction as some handler or executor built it, possibly long before its commit. */
  ghost predicate TxnInv(h: seq<Entry>, txn: Txn) {
    var e := txn.entry;
    match txn.write
    case Insert(row) =>
      e == Entry(row.owner, e.task, TaskCreated(row.url, row.schedule)) && row.active && ValidSchedule(row.schedule)
    case Update(active, _) =>
      && EntryAgrees(h, e)
      && if active then e.event.TaskActivated?
         else e.event.TaskDeactivated?
              || (e.event.Execution? && e.event.source == Scheduled && e.event.outcome.success
                  && Born(h, e.task).value.schedule.Once?)
    case Delete => EntryAgrees(h, e) && e.event.TaskDeleted?
    case NoWrite =>
      && EntryAgrees(h, e) && e.event.Execution?
      && (e.event.source == Scheduled && e.event.outcome.success ==> !Born(h, e.task).value.schedule.Once?)
  }

  /** History `h` may have grown to `h'`: whoever was born stays born as he was. */
  ghost predicate Grows(h: seq<Entry>, h': seq<Entry>) {
    h <= h' && forall t :: Born(h, t).Some? ==> Born(h', t) == Born(h, t)
  }

  lemma CommitGrows(db: Database, txn: Txn)
    requires Commits(db, txn)
    ensures Grows(db.history, Commit(db, txn).history)
  {
    Extended(db.history, txn.entry);
  }

  /** Committing any well-built transaction, however stale, keeps the history in step with the rows. */
  lemma CommitKeeps(db: Database, txn: Txn)
    requires DbInv(db) && TxnInv(db.history, txn) && Commits(db, txn)
    ensures DbInv(Commit(db, txn))
  {
    var db' := Commit(db, txn);
    var e, t0 := txn.entry, txn.entry.task;
    Extended(db.history, e);
    forall t | t in db'.rows
      ensures Born(db'.history, t) == Some(BirthOf(db'.rows[t])) && Acceptable(db'.rows[t].schedule)
    {}
    forall t ensures Replay(db'.history, t) == Recorded(db', t) {
      if t == t0 { ReplayOfCommit(db, txn); }
    }
    forall k | 0 <= k < |db'.history| ensures EntryAgrees(db'.history, db'.history[k]) {
      if k < |db.history| { assert db'.history[k] == db.history[k]; }
    }
  }

  lemma ReplayOfCommit(db: Database, txn: Txn)
    requires DbInv(db) && TxnInv(db.history, txn) && Commits(db, txn)
    ensures Replay(Commit(db, txn).history, txn.entry.task) == Recorded(Commit(db, txn), txn.entry.task)
  {
    Extended(db.history, txn.entry);
    assert Replay(db.history, txn.entry.task) == Recorded(db, txn.entry.task);
  }

  // ---------------------------------------------------------------- everything in flight

  /** A row as some session loaded it. */
  ghost predicate Snapshot(h: seq<Entry>, t: TaskId, row: Row) {
    Born(h, t) == Some(BirthOf(row)) && Acceptable(row.schedule)
  }

  /** An executor is about a created task; past its load it found the task present and active at that
      point of the history. */
  ghost predicate JobInv(h: seq<Entry>, j: Job) {
    && Born(h, j.task).Some?
    && (!j.OwesRemoval? ==>
          && Snapshot(h, j.task, j.row)
          && j.row.active
          && j.loadedAt <= |h|
          && Replay(h[..j.loadedAt], j.task) == Live(true, j.row.schedule.Once?)
          && (j.Called? ==> GoodOutcome(j.outcome)))
  }

  ghost predicate RunInv(h: seq<Entry>, m: ManualRun) {
    Snapshot(h, m.task, m.row) && m.user == m.row.owner && (m.Answered? ==> GoodOutcome(m.outcome))
  }

  /** A call whose execution row was refused was a successful call of a once-task that has been
      deleted since the executor loaded it. */
  ghost predicate LostInv(h: seq<Entry>, j: Job) {
    && j.Called? && Deactivates(j.row, j.outcome)
    && exists k :: j.loadedAt <= k < |h| && h[k].task == j.task && h[k].event.TaskDeleted?
  }

  ghost predicate Inv(s: State) {
    && DbInv(s.db)
    && (forall k :: k in s.jobs ==> JobInv(s.db.history, s.jobs[k]))
    && (forall k :: k in s.runs ==> RunInv(s.db.history, s.runs[k]))
    && (forall k :: k in s.pending && s.pending[k].txn.Some? ==> TxnInv(s.db.history, s.pending[k].txn.value))
    && (forall i :: 0 <= i < |s.lost| ==> LostInv(s.db.history, s.lost[i]))
  }

  /** What is in flight does not mind the history growing. */
  lemma InFlightKeeps(s: State, s': State)
    requires Inv(s) && DbInv(s'.db) && Grows(s.db.history, s'.db.history)
    ensures forall k :: k in s.jobs ==> JobInv(s'.db.history, s.jobs[k])
    ensures forall k :: k in s.runs ==> RunInv(s'.db.history, s.runs[k])
    ensures forall k :: k in s.pending && s.pending[k].txn.Some? ==> TxnInv(s'.db.history, s.pending[k].txn.value)
    ensures forall i :: 0 <= i < |s.lost| ==> LostInv(s'.db.history, s.lost[i])
  {
    var h, h' := s.db.history, s'.db.history;
    forall k | k in s.jobs ensures JobInv(h', s.jobs[k]) {
      var j := s.jobs[k];
      if !j.OwesRemoval? { assert h'[..j.loadedAt] == h[..j.loadedAt]; }
    }
    forall i | 0 <= i < |s.lost| ensures LostInv(h', s.lost[i]) {
      var j := s.lost[i];
      var k :| j.loadedAt <= k < |h| && h[k].task == j.task && h[k].event.TaskDeleted?;
      assert h'[k] == h[k];
    }
  }

  lemma HandleBuilds(db: Database, now: int, r: Request)
    requires DbInv(db) && Handle(db, now, r).work.Some?
    ensures TxnInv(db.history, Handle(db, now, r).work.value.txn)
  {}

  lemma ServeKeeps(s: State, r: Request)
    requires Inv(s)
    ensures Inv(ApplyServe(s, r)) && Grows(s.db.history, ApplyServe(s, r).db.history)
  {
    var w := Handle(s.db, s.clock, r).work;
    if w.Some? && Commits(s.db, w.value.txn) {
      HandleBuilds(s.db, s.clock, r);
      CommitKeeps(s.db, w.value.txn);
      CommitGrows(s.db, w.value.txn);
      InFlightKeeps(s, ApplyServe(s, r));
    }
  }

  lemma CommitPendingKeeps(s: State, k: Ticket)
    requires Inv(s)
    ensures Inv(ApplyCommitPending(s, k)) && Grows(s.db.history, ApplyCommitPending(s, k).db.history)
  {
    if k in s.pending && s.pending[k].txn.Some? && Commits(s.db, s.pending[k].txn.value) {
      CommitKeeps(s.db, s.pending[k].txn.value);
      CommitGrows(s.db, s.pending[k].txn.value);
      InFlightKeeps(s, ApplyCommitPending(s, k));
    }
  }

  lemma FireKeeps(s: State, k: Ticket, t: TaskId)
    requires Inv(s)
    ensures Inv(ApplyFire(s, k, t))
  {
    var h := s.db.history;
    assert h[..|h|] == h;
    assert Replay(h, t) == Recorded(s.db, t);
  }

  /** A task that was live once and has no row any more was deleted in between. */
  lemma {:induction false} DeletedSince(h: seq<Entry>, n: nat, t: TaskId)
    requires n <= |h| && Replay(h[..n], t).Live? && Replay(h, t) == Gone
    ensures exists k :: n <= k < |h| && h[k].task == t && h[k].event.TaskDeleted?
    decreases |h|
  {
    assert h[..|h|] == h;
    if n < |h| {
      var last := |h| - 1;
      if !(h[last].task == t && h[last].event.TaskDeleted?) {
        assert h[..last][..n] == h[..n];
        DeletedSince(h[..last], n, t);
        var k :| n <= k < last && h[..last][k].task == t && h[..last][k].event.TaskDeleted?;
        assert h[k] == h[..last][k];
      }
    }
  }

  lemma CommitJobKeeps(s: State, k: Ticket)
    requires Inv(s)
    ensures Inv(ApplyCommitJob(s, k)) && Grows(s.db.history, ApplyCommitJob(s, k).db.history)
  {
    if k in s.jobs && s.jobs[k].Called? {
      var j := s.jobs[k];
      var txn := JobTxn(j.task, j.row, j.outcome);
      assert JobInv(s.db.history, j);
      if Commits(s.db, txn) {
        CommitKeeps(s.db, txn);
        CommitGrows(s.db, txn);
        InFlightKeeps(s, ApplyCommitJob(s, k));
      } else {
        assert Replay(s.db.history, j.task) == Recorded(s.db, j.task) == Gone;
        DeletedSince(s.db.history, j.loadedAt, j.task);
      }
    }
  }

  lemma RunCommitKeeps(s: State, k: Ticket)
    requires Inv(s)
    ensures Inv(ApplyRunCommit(s, k)) && Grows(s.db.history, ApplyRunCommit(s, k).db.history)
  {
    if k in s.runs && s.runs[k].Answered? {
      var m := s.runs[k];
      var txn := ManualTxn(m.task, m.user, m.row, m.outcome);
      CommitKeeps(s.db, txn);
      CommitGrows(s.db, txn);
      InFlightKeeps(s, ApplyRunCommit(s, k));
    }
  }

  lemma BeginKeeps(s: State, k: Ticket, r: Request)
    requires Inv(s)
    ensures Inv(ApplyBegin(s, k, r))
  {
    if Handle(s.db, s.clock, r).work.Some? { HandleBuilds(s.db, s.clock, r); }
  }

  /** A step that only moves an execution or a run on, or touches the schedules or the clock. */
  predicate MovesOn(e: Step) {
    e.BackgroundPending? || e.Call? || e.RemoveSchedule? || e.RunAccept? || e.RunLoad? || e.RunCall?
    || e.Exhaust? || e.Clock?
  }

  lemma MovingOnKeeps(s: State, e: Step)
    requires Inv(s) && MovesOn(e)
    ensures Inv(Apply(s, e)) && Apply(s, e).db == s.db
  {
    hide TxnInv, LostInv;
  }

  /** Every step keeps the invariant and only adds to the history. */
  lemma StepKeeps(s: State, e: Step)
    requires Inv(s)
    ensures Inv(Apply(s, e)) && Grows(s.db.history, Apply(s, e).db.history)
  {
    hide Inv;
    match e {
      case Serve(r) => ServeKeeps(s, r);
      case Begin(k, r) => BeginKeeps(s, k, r);
      case CommitPending(k) => CommitPendingKeeps(s, k);
      case Fire(k, t) => FireKeeps(s, k, t);
      case CommitJob(k) => CommitJobKeeps(s, k);
      case RunCommit(k) => RunCommitKeeps(s, k);
      case _ => MovingOnKeeps(s, e);
    }
  }

  lemma {:induction false} RunKeeps(s: State, es: seq<Step>)
    requires Inv(s)
    ensures Inv(Run(s, es)) && Grows(s.db.history, Run(s, es).db.history)
    decreases |es|
  {
    if es != [] {
      RunKeeps(s, es[..|es| - 1]);
      StepKeeps(Run(s, es[..|es| - 1]), es[|es| - 1]);
    }
  }
}
