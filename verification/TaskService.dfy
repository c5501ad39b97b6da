/** The route handlers and the executor as methods on mutable state.  Each method is one step of the
    lifecycle and keeps every promise proved of its runs. */
module TaskService {
  import opened Options
  import opened DateTimes
  import opened Triggers
  import opened Webhook
  import opened Lifecycle
  import opened LifecycleInvariants
  import opened LifecycleTheorems
  import opened LifecycleSchedules

  /** The steps of a manual run that nothing interrupts. */
  function ManualRunOf(k: Ticket, t: TaskId, user: string, reply: Reply): seq<Step> {
    [RunAccept(k, t, user), RunLoad(k), RunCall(k, reply), RunCommit(k)]
  }

  lemma RunFour(s: State, a: Step, b: Step, c: Step, d: Step)
    ensures Run(s, [a, b, c, d]) == Apply(Apply(Apply(Apply(s, a), b), c), d)
  {
    var none: seq<Step> := [];
    RunOne(s, none, a);
    RunOne(s, none + [a], b);
    RunOne(s, none + [a] + [b], c);
    RunOne(s, none + [a] + [b] + [c], d);
    assert none + [a] + [b] + [c] + [d] == [a, b, c, d];
  }

  lemma Overwritten(runs: map<Ticket, ManualRun>, k: Ticket, a: ManualRun, b: ManualRun)
    ensures runs[k := a][k := b] == runs[k := b]
    ensures k !in runs ==> runs[k := a] - {k} == runs
  {}

  lemma VisibleManualSteps(s: State, k: Ticket, t: TaskId, user: string, reply: Reply)
    requires k !in s.runs && Visible(s.db, t, user)
    ensures ApplyRunCommit(ApplyRunCall(ApplyRunLoad(ApplyRunAccept(s, k, t, user), k), k, reply), k) ==
      s.(db := Commit(s.db, ManualTxn(t, user, s.db.rows[t], FireTaskWebhook(reply))), calls := s.calls + 1)
  {
    var row := s.db.rows[t];
    var a, b := Accepted(t, user, row), Sending(t, user, row);
    var c := Answered(t, user, row, FireTaskWebhook(reply));
    Overwritten(s.runs, k, a, b);
    Overwritten(s.runs, k, b, c);
    Overwritten(s.runs, k, c, c);
    assert ApplyRunLoad(ApplyRunAccept(s, k, t, user), k) == s.(runs := s.runs[k := b]);
  }

  /** They leave one execution entry, whatever the webhook answered, and nothing else. */
  lemma ManualSteps(s: State, k: Ticket, t: TaskId, user: string, reply: Reply)
    requires k !in s.runs
    ensures Run(s, ManualRunOf(k, t, user, reply)) ==
      if !(t in s.db.rows && s.db.rows[t].owner == user) then s
      else
        var entry := Entry(user, t, Execution(Manual, s.db.rows[t].url, FireTaskWebhook(reply)));
        s.(db := Database(s.db.rows, s.db.history + [entry]), calls := s.calls + 1)
  {
    RunFour(s, RunAccept(k, t, user), RunLoad(k), RunCall(k, reply), RunCommit(k));
    var s1 := Apply(s, RunAccept(k, t, user));
    var s2 := Apply(s1, RunLoad(k));
    var s3 := Apply(s2, RunCall(k, reply));
    assert s1 == ApplyRunAccept(s, k, t, user) && s2 == ApplyRunLoad(s1, k);
    assert s3 == ApplyRunCall(s2, k, reply) && Apply(s3, RunCommit(k)) == ApplyRunCommit(s3, k);
    if Visible(s.db, t, user) { VisibleManualSteps(s, k, t, user, reply); }
  }

  lemma ManualStepsValid(s: State, k: Ticket, t: TaskId, user: string, reply: Reply)
    requires s.pending == map[] && AllPromises(s)
    ensures AllPromises(Run(s, ManualRunOf(k, t, user, reply)))
    ensures SchedulesAccounted(s) ==> SchedulesAccounted(Run(s, ManualRunOf(k, t, user, reply)))
  {
    hide AllPromises, SchedulesAccounted;
    RunFour(s, RunAccept(k, t, user), RunLoad(k), RunCall(k, reply), RunCommit(k));
    var s1 := Apply(s, RunAccept(k, t, user));
    var s2 := Apply(s1, RunLoad(k));
    StepIsValid(s, RunAccept(k, t, user));
    StepIsValid(s1, RunLoad(k));
    StepIsValid(s2, RunCall(k, reply));
    StepIsValid(Apply(s2, RunCall(k, reply)), RunCommit(k));
  }

  /** What is promised of every state that whole requests can reach. */
  ghost predicate AllPromises(s: State) {
    Inv(s) && NextInv(s) && InactiveHasNoNext(s) && CallsBalance(s)
  }

  /** Every promise survives a step that leaves requests whole, and every schedule stays accounted for
      exactly when the step is no creation that is too long to commit. */
  lemma StepIsValid(s: State, e: Step)
    requires Atomic(e) && s.pending == map[] && AllPromises(s)
    ensures AllPromises(Apply(s, e)) && Apply(s, e).pending == map[]
    ensures SchedulesAccounted(s) ==> (SchedulesAccounted(Apply(s, e)) <==> !TooLongCreation(s, e))
  {
    hide Inv, NextInv, InactiveHasNoNext, CallsBalance, SchedulesAccounted, NoExecutionPending;
    hide TooLongCreation, LateRegistration, EarlyEnd;
    WholeStep(s, e);
    StepKeeps(s, e);
    NextStep(s, e);
    AtomicQuiet(s, e);
    CallsBalanceStep(s, e);
    if SchedulesAccounted(s) { SchedulesAccountedIff(s, e); }
  }

  /** Nothing is pending while requests are whole. */
  lemma WholeStep(s: State, e: Step)
    requires Atomic(e) && s.pending == map[]
    ensures Apply(s, e).pending == map[] && NoExecutionPending(s) && !LateRegistration(s, e) && !EarlyEnd(s, e)
  {}

  lemma CalledRowIsActive(s: State, k: Ticket)
    requires AllPromises(s) && k in s.jobs && s.jobs[k].Called?
    ensures s.jobs[k].row.active
  {
    assert JobInv(s.db.history, s.jobs[k]);
  }

  /** The four ways the commit of an execution ends. */
  lemma CommitJobWays(s: State, k: Ticket)
    requires k in s.jobs && s.jobs[k].Called?
    ensures var j := s.jobs[k];
            var txn := JobTxn(j.task, j.row, j.outcome);
            Apply(s, CommitJob(k)) ==
              if !Deactivates(j.row, j.outcome) then
                s.(db := Database(s.db.rows, s.db.history + [txn.entry]), jobs := s.jobs - {k})
              else if j.task !in s.db.rows then s.(jobs := s.jobs - {k}, lost := s.lost + [j])
              else s.(db := Commit(s.db, txn), jobs := s.jobs[k := OwesRemoval(j.task)])
  {}

  lemma InactiveRowHasNoNext(s: State, t: TaskId)
    requires AllPromises(s) && t in s.db.rows && !s.db.rows[t].active
    ensures s.db.rows[t].nextRunAt.None?
  {}

  /** The three ways a whole creation ends. */
  lemma CreationWays(s: State, id: TaskId, user: string, url: string, schedule: Schedule, library: Library)
    requires id !in s.db.rows && Born(s.db.history, id).None?
    ensures var e := Serve(Request.CreateTask(id, user, url, schedule, library));
            var row := Row(user, url, schedule, FirstFire(schedule, library.Fire()), true);
            var refused := !ValidSchedule(schedule) || !Builds(schedule, library)
                           || (schedule.Once? && !Storable(schedule));
            && (TooLongCreation(s, e) <==> !refused && TooLong(schedule))
            && Apply(s, e) ==
                 if refused then s
                 else if TooLong(schedule) then s.(schedules := s.schedules + {id})
                 else s.(schedules := s.schedules + {id},
                         db := Database(s.db.rows[id := row],
                                        s.db.history + [Entry(user, id, TaskCreated(url, schedule))]))
  {}

  lemma ScheduleFacts(s: Schedule, library: Library)
    ensures ValidSchedule(s) <==> (s.Cron? ==> s.timezone != "") && (s.Interval? ==> s.seconds > 0)
    ensures Builds(s, library) <==> (s.Cron? ==> library.Finds?) && (s.Interval? ==> s.seconds <= 86399999999999)
    ensures s.Once? ==> (Storable(s) <==> MIN_WALL <= s.runAt < END_WALL)
    ensures TooLong(s) <==> s.Interval? && 0x8000_0000 <= s.seconds <= 86399999999999
    ensures FirstFire(s, library.Fire()) ==
            if s.Once? then Some(s.runAt) else if library.Finds? then library.fire else None
  {}

  /** The transaction of a session that loaded one row, changed it and added a history entry. */
  function ChangeTxn(loaded: Row, changed: Row, entry: Entry): Txn {
    Txn(entry, Update(changed.active, Changed(loaded.nextRunAt, changed.nextRunAt)))
  }

  class Service {
    var rows: map<TaskId, Row>
    var history: seq<Entry>
    var schedules: set<TaskId>
    var jobs: map<Ticket, Job>
    var runs: map<Ticket, ManualRun>
    var clock: int
    ghost var calls: nat
    ghost var lost: seq<Job>

    ghost function View(): State
      reads this
    {
      State(Database(rows, history), schedules, jobs, runs, map[], clock, calls, lost)
    }

    ghost predicate Valid()
      reads this
    {
      AllPromises(View())
    }

    /** Every registered schedule belongs to an active task or is about to be removed. */
    ghost predicate Accounted()
      reads this
    {
      SchedulesAccounted(View())
    }

    constructor ()
      ensures Valid() && Accounted() && View() == INITIAL
    {
      rows, history, schedules, jobs, runs := map[], [], {}, map[], map[];
      clock, calls, lost := 0, 0, [];
      new;
      assert CalledJobs(map[]) == {} && AnsweredRuns(map[]) == {};
    }

    /** `_get_task_or_404` under the user's row scope. */
    method GetTaskOr404(id: TaskId, user: string) returns (task: Option<Row>)
      ensures task == if id in rows && rows[id].owner == user then Some(rows[id]) else None
    {
      if id in rows && rows[id].owner == user { return Some(rows[id]); }
      return None;
    }

    /** Commit of a session that changed the loaded object: only changed columns are written, and the
        transaction aborts when the row is gone. */
    method CommitChanges(loaded: Row, changed: Row, entry: Entry) returns (ok: bool)
      requires loaded.active != changed.active
      modifies this`rows, this`history
      ensures ok == Commits(old(View().db), ChangeTxn(loaded, changed, entry))
      ensures View().db == if ok then Commit(old(View().db), ChangeTxn(loaded, changed, entry)) else old(View().db)
      ensures ok <==> entry.task in old(rows)
      ensures ok ==>
        var row := old(rows)[entry.task];
        var nextRunAt := if changed.nextRunAt == loaded.nextRunAt then row.nextRunAt else changed.nextRunAt;
        && rows == old(rows)[entry.task := row.(active := changed.active, nextRunAt := nextRunAt)]
        && history == old(history) + [entry]
    {
      if entry.task !in rows { return false; }
      var row := rows[entry.task];
      row := row.(active := changed.active);
      if changed.nextRunAt != loaded.nextRunAt {
        row := row.(nextRunAt := changed.nextRunAt);
      }
      rows := rows[entry.task := row];
      history := history + [entry];
      return true;
    }

    /** `create_task`, with the id `uuid4` drew and the scheduler library's answer.  The client has its
        answer, and the scheduler its schedule, before the commit. */
    method CreateTask(id: TaskId, user: string, url: string, schedule: Schedule, library: Library)
      returns (status: Status)
      requires Valid() && id !in rows && Born(history, id).None?
      modifies this
      ensures Valid() && View() == Apply(old(View()), Serve(Request.CreateTask(id, user, url, schedule, library)))
      ensures unchanged(this`jobs, this`runs, this`clock, this`calls, this`lost)
      ensures status == match schedule
                        case Once(at) => if MIN_WALL <= at < END_WALL then HTTP_201 else HTTP_500
                        case Cron(_, zone) => if zone == "" then HTTP_422
                                              else if library.Refuses? then HTTP_500
                                              else HTTP_201
                        case Interval(n) => if n <= 0 then HTTP_422
                                            else if n > 86399999999999 then HTTP_500
                                            else HTTP_201
      ensures schedules == if status == HTTP_201 then old(schedules) + {id} else old(schedules)
      ensures status != HTTP_201 || (schedule.Interval? && schedule.seconds >= 0x8000_0000) ==>
        rows == old(rows) && history == old(history)
      ensures status == HTTP_201 && (schedule.Interval? ==> schedule.seconds < 0x8000_0000) ==>
        var nextRunAt := if schedule.Once? then Some(schedule.runAt)
                         else if library.Finds? then library.fire
                         else None;
        && rows == old(rows)[id := Row(user, url, schedule, nextRunAt, true)]
        && history == old(history) + [Entry(user, id, TaskCreated(url, schedule))]
      ensures old(Accounted()) ==> (Accounted() <==> status != HTTP_201 || id in rows)
    {
      StepIsValid(View(), Serve(Request.CreateTask(id, user, url, schedule, library)));
      CreationWays(View(), id, user, url, schedule, library);
      ScheduleFacts(schedule, library);
      hide AllPromises, SchedulesAccounted, Apply, TooLongCreation, ValidSchedule, Builds, Storable, TooLong, FirstFire;
      if !ValidSchedule(schedule) { return HTTP_422; }
      if !Builds(schedule, library) { return HTTP_500; }
      var nextRunAt := FirstFire(schedule, library.Fire());
      if schedule.Once? && !Storable(schedule) { return HTTP_500; }
      var entry := Entry(user, id, TaskCreated(url, schedule));
      schedules := schedules + {id};
      if !TooLong(schedule) {
        rows := rows[id := Row(user, url, schedule, nextRunAt, true)];
        history := history + [entry];
      }
      return HTTP_201;
    }

    /** `deactivate_task`. */
    method DeactivateTask(id: TaskId, user: string) returns (status: Status)
      requires Valid()
      modifies this
      ensures Valid() && View() == Apply(old(View()), Serve(Request.DeactivateTask(id, user)))
      ensures old(Accounted()) ==> Accounted()
      ensures unchanged(this`jobs, this`runs, this`clock, this`calls, this`lost)
      ensures status == if id in old(rows) && old(rows)[id].owner == user then HTTP_200 else HTTP_404
      ensures status == HTTP_200 && old(rows)[id].active ==>
        && rows == old(rows)[id := old(rows)[id].(active := false, nextRunAt := None)]
        && history == old(history) + [Entry(user, id, TaskDeactivated)]
        && schedules == old(schedules) - {id}
      ensures status == HTTP_200 && !old(rows)[id].active ==> View() == old(View()) && rows[id].nextRunAt.None?
      ensures status == HTTP_404 ==> View() == old(View())
    {
      if id in rows && !rows[id].active { InactiveRowHasNoNext(View(), id); }
      hide AllPromises, SchedulesAccounted;
      StepIsValid(View(), Serve(Request.DeactivateTask(id, user)));
      var task := GetTaskOr404(id, user);
      if task.None? { return HTTP_404; }
      if task.value.active {
        var changed := task.value.(active := false, nextRunAt := None);
        var ok := CommitChanges(task.value, changed, Entry(user, id, TaskDeactivated));
        schedules := schedules - {id};
      }
      return HTTP_200;
    }

    /** `activate_task`. */
    method ActivateTask(id: TaskId, user: string, fire: Option<int>) returns (status: Status)
      requires Valid()
      modifies this
      ensures Valid() && View() == Apply(old(View()), Serve(Request.ActivateTask(id, user, fire)))
      ensures old(Accounted()) ==> Accounted()
      ensures unchanged(this`jobs, this`runs, this`clock, this`calls, this`lost)
      ensures status == HTTP_404 <==> !(id in old(rows) && old(rows)[id].owner == user)
      ensures status != HTTP_404 ==>
        var row := old(rows)[id];
        var cannotRun := if row.schedule.Once? then row.schedule.runAt <= clock else fire.None?;
        status == if !row.active && cannotRun then HTTP_422 else HTTP_200
      ensures status != HTTP_200 || old(rows)[id].active ==> View() == old(View())
      ensures status == HTTP_200 && !old(rows)[id].active ==>
        var row := old(rows)[id];
        var nextRunAt := if row.schedule.Once? then Some(row.schedule.runAt) else fire;
        && rows == old(rows)[id := row.(active := true, nextRunAt := nextRunAt)]
        && history == old(history) + [Entry(user, id, TaskActivated)]
        && schedules == old(schedules) + {id}
    {
      hide AllPromises, SchedulesAccounted;
      StepIsValid(View(), Serve(Request.ActivateTask(id, user, fire)));
      var task := GetTaskOr404(id, user);
      if task.None? { return HTTP_404; }
      if task.value.active { return HTTP_200; }
      var nextRunAt := FirstFire(task.value.schedule, fire);
      if nextRunAt.None? || (task.value.schedule.Once? && nextRunAt.value <= clock) {
        return HTTP_422;
      }
      var changed := task.value.(active := true, nextRunAt := nextRunAt);
      var ok := CommitChanges(task.value, changed, Entry(user, id, TaskActivated));
      schedules := schedules + {id};
      return HTTP_200;
    }

    /** `delete_task`. */
    method DeleteTask(id: TaskId, user: string) returns (status: Status)
      requires Valid()
      modifies this
      ensures Valid() && View() == Apply(old(View()), Serve(Request.DeleteTask(id, user)))
      ensures old(Accounted()) ==> Accounted()
      ensures unchanged(this`jobs, this`runs, this`clock, this`calls, this`lost)
      ensures status == if id in old(rows) && old(rows)[id].owner == user then HTTP_204 else HTTP_404
      ensures status == HTTP_204 ==>
        var row := old(rows)[id];
        && rows == old(rows) - {id}
        && history == old(history) + [Entry(user, id, TaskDeleted(row.url, row.schedule))]
        && schedules == if row.active then old(schedules) - {id} else old(schedules)
      ensures status == HTTP_404 ==> View() == old(View())
    {
      hide AllPromises, SchedulesAccounted;
      StepIsValid(View(), Serve(Request.DeleteTask(id, user)));
      var task := GetTaskOr404(id, user);
      if task.None? { return HTTP_404; }
      if task.value.active {
        schedules := schedules - {id};
      }
      history := history + [Entry(user, id, TaskDeleted(task.value.url, task.value.schedule))];
      rows := rows - {id};
      return HTTP_204;
    }

    /** `run_task` with nothing in between: load, load again, call, commit, then report a failure.  The
        commit comes before the exception, so the rollback of the session finds nothing to undo. */
    method RunTask(ticket: Ticket, id: TaskId, user: string, reply: Reply) returns (status: Status)
      requires Valid() && ticket !in runs
      modifies this
      ensures Valid()
      ensures old(Accounted()) ==> Accounted()
      ensures View() == Run(old(View()), ManualRunOf(ticket, id, user, reply))
      ensures unchanged(this`rows, this`schedules, this`jobs, this`runs, this`clock, this`lost)
      ensures status == HTTP_404 <==> !(id in rows && rows[id].owner == user)
      ensures status == HTTP_404 ==> history == old(history) && calls == old(calls)
      ensures status != HTTP_404 ==>
        && history == old(history) + [Entry(user, id, Execution(Manual, rows[id].url, FireTaskWebhook(reply)))]
        && calls == old(calls) + 1
        && status == if reply.Response? && 200 <= reply.status < 300 then HTTP_200 else HTTP_502
    {
      hide AllPromises, SchedulesAccounted;
      ManualSteps(View(), ticket, id, user, reply);
      ManualStepsValid(View(), ticket, id, user, reply);
      var task := GetTaskOr404(id, user);
      if task.None? { return HTTP_404; }
      var outcome := FireTaskWebhook(reply);
      calls := calls + 1;
      history := history + [Entry(user, id, Execution(Manual, task.value.url, outcome))];
      return if outcome.success then HTTP_200 else HTTP_502;
    }

    /** `execute_scheduled_task`, up to the webhook call. */
    method ExecuteLoad(ticket: Ticket, id: TaskId)
      requires Valid() && ticket !in jobs
      modifies this
      ensures Valid() && View() == Apply(old(View()), Fire(ticket, id))
      ensures old(Accounted()) ==> Accounted()
      ensures unchanged(this`rows, this`history, this`schedules, this`runs, this`clock, this`calls, this`lost)
      ensures jobs == if id in rows && rows[id].active
                      then old(jobs)[ticket := Loaded(id, rows[id], |history|)]
                      else old(jobs)
    {
      hide AllPromises, SchedulesAccounted;
      StepIsValid(View(), Fire(ticket, id));
      if id !in rows { return; }
      if !rows[id].active { return; }
      jobs := jobs[ticket := Loaded(id, rows[id], |history|)];
    }

    /** The webhook call. */
    method ExecuteCall(ticket: Ticket, reply: Reply)
      requires Valid() && ticket in jobs && jobs[ticket].Loaded?
      modifies this
      ensures Valid() && View() == Apply(old(View()), Call(ticket, reply))
      ensures old(Accounted()) ==> Accounted()
      ensures unchanged(this`rows, this`history, this`schedules, this`runs, this`clock, this`lost)
      ensures calls == old(calls) + 1
      ensures var j := old(jobs)[ticket];
              jobs == old(jobs)[ticket := Called(j.task, j.row, j.loadedAt, FireTaskWebhook(reply))]
    {
      hide AllPromises, SchedulesAccounted;
      StepIsValid(View(), Call(ticket, reply));
      var j := jobs[ticket];
      jobs := jobs[ticket := Called(j.task, j.row, j.loadedAt, FireTaskWebhook(reply))];
      calls := calls + 1;
    }

    /** The rest of the session: the execution entry, the deactivation of a successful once-task and
        the commit.  `raised` says that the execution ended with an exception. */
    method ExecuteCommit(ticket: Ticket) returns (raised: bool)
      requires Valid() && ticket in jobs && jobs[ticket].Called?
      modifies this
      ensures Valid() && View() == Apply(old(View()), CommitJob(ticket))
      ensures old(Accounted()) ==> Accounted()
      ensures unchanged(this`schedules, this`runs, this`clock, this`calls)
      ensures var j := old(jobs)[ticket];
              var ends := j.row.schedule.Once? && j.outcome.success;
              var aborts := ends && j.task !in old(rows);
              var entry := Entry(j.row.owner, j.task, Execution(Scheduled, j.row.url, j.outcome));
              && raised == (!j.outcome.success || aborts)
              && history == (if aborts then old(history) else old(history) + [entry])
              && rows == (if ends && !aborts
                          then old(rows)[j.task := old(rows)[j.task].(active := false, nextRunAt := None)]
                          else old(rows))
              && jobs == (if ends && !aborts then old(jobs)[ticket := OwesRemoval(j.task)] else old(jobs) - {ticket})
              && lost == (if aborts then old(lost) + [j] else old(lost))
    {
      CalledRowIsActive(View(), ticket);
      CommitJobWays(View(), ticket);
      StepIsValid(View(), CommitJob(ticket));
      hide AllPromises, Apply, SchedulesAccounted;
      var j := jobs[ticket];
      var entry := Entry(j.row.owner, j.task, Execution(Scheduled, j.row.url, j.outcome));
      if !j.outcome.success {
        history := history + [entry];
        jobs := jobs - {ticket};
        return true;
      }
      if j.row.schedule.Once? {
        var changed := j.row.(active := false, nextRunAt := None);
        var ok := CommitChanges(j.row, changed, entry);
        if !ok {
          jobs := jobs - {ticket};
          lost := lost + [j];
          return true;
        }
        jobs := jobs[ticket := OwesRemoval(j.task)];
      } else {
        history := history + [entry];
        jobs := jobs - {ticket};
      }
      return false;
    }

    /** The last line of a successful once-execution. */
    method ExecuteRemove(ticket: Ticket)
      requires Valid() && ticket in jobs && jobs[ticket].OwesRemoval?
      modifies this
      ensures Valid() && View() == Apply(old(View()), RemoveSchedule(ticket))
      ensures old(Accounted()) ==> Accounted()
      ensures unchanged(this`rows, this`history, this`runs, this`clock, this`calls, this`lost)
      ensures schedules == old(schedules) - {old(jobs)[ticket].task}
      ensures jobs == old(jobs) - {ticket}
    {
      hide AllPromises, SchedulesAccounted;
      StepIsValid(View(), RemoveSchedule(ticket));
      schedules := schedules - {jobs[ticket].task};
      jobs := jobs - {ticket};
    }
  }
}
