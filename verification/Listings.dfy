/** The two listing routes: filters collected into a list, the same filters on the count and on the
    page, an ordering, a limit and an offset. */
module Listings {
  import opened Options
  import opened DateTimes
  import opened Paging
  import opened Triggers
  import opened TaskHistory

  // ---------------------------------------------------------------- statements

  predicate AllHold<T>(conditions: seq<T -> bool>, r: T) {
    forall k :: 0 <= k < |conditions| ==> conditions[k](r)
  }

  /** The rows of the table that satisfy every condition of a WHERE clause. */
  function Matching<T>(table: seq<T>, conditions: seq<T -> bool>): seq<T> {
    if table == [] then []
    else (if AllHold(conditions, table[0]) then [table[0]] else []) + Matching(table[1..], conditions)
  }

  function Keep<T(!new)>(table: seq<T>, wanted: T -> bool): (k: seq<T>)
    ensures forall r :: r in k <==> r in table && wanted(r)
  {
    if table == [] then [] else (if wanted(table[0]) then [table[0]] else []) + Keep(table[1..], wanted)
  }

  /** A list of conditions with one more at its end. */
  function With<T(!new)>(conditions: seq<T -> bool>, c: T -> bool): (all: seq<T -> bool>)
    ensures forall r :: AllHold(all, r) <==> AllHold(conditions, r) && c(r)
  {
    var all := conditions + [c];
    assert forall k :: 0 <= k < |conditions| ==> all[k] == conditions[k];
    assert all[|conditions|] == c;
    all
  }

  lemma ScopeFirst<T(!new)>(scope: T -> bool, filters: seq<T -> bool>)
    ensures forall r :: AllHold([scope] + filters, r) <==> scope(r) && AllHold(filters, r)
  {
    var all := [scope] + filters;
    assert all[0] == scope;
    assert forall k :: 0 <= k < |filters| ==> all[k + 1] == filters[k];
  }

  lemma {:induction false} MatchingKeeps<T(!new)>(table: seq<T>, conditions: seq<T -> bool>, wanted: T -> bool)
    requires forall r :: r in table ==> (AllHold(conditions, r) <==> wanted(r))
    ensures Matching(table, conditions) == Keep(table, wanted)
    decreases |table|
  {
    if table != [] {
      assert table[0] in table;
      MatchingKeeps(table[1..], conditions, wanted);
    }
  }

  /** The database: it answers an ordered query with some listing of the rows. */
  ghost predicate Sorts<T(!new)>(engine: seq<T> -> seq<T>, o: SortOrder, key: T -> Option<int>) {
    forall rows :: Listing(o, key, rows, engine(rows))
  }

  lemma AnswerIsWanted<T(!new)>(
      o: SortOrder, key: T -> Option<int>, table: seq<T>, wanted: T -> bool, engine: seq<T> -> seq<T>)
    requires Sorts(engine, o, key)
    ensures |engine(Keep(table, wanted))| == |Keep(table, wanted)|
    ensures forall r :: r in engine(Keep(table, wanted)) ==> r in table && wanted(r)
  {
    var all := Keep(table, wanted);
    assert Listing(o, key, all, engine(all));
    assert |multiset(engine(all))| == |engine(all)| && |multiset(all)| == |all|;
    forall r | r in engine(all) ensures r in all {
      assert r in multiset(engine(all));
    }
  }

  lemma PageIsWanted<T(!new)>(o: SortOrder, key: T -> Option<int>, table: seq<T>, wanted: T -> bool,
                              engine: seq<T> -> seq<T>, offset: nat, limit: nat)
    requires Sorts(engine, o, key)
    ensures var page := Page(engine(Keep(table, wanted)), offset, limit);
            && |page| == PageSize(|Keep(table, wanted)|, offset, limit)
            && forall i :: 0 <= i < |page| ==> page[i] in table && wanted(page[i])
  {
    AnswerIsWanted(o, key, table, wanted, engine);
    var answer := engine(Keep(table, wanted));
    var page := Page(answer, offset, limit);
    forall i | 0 <= i < |page| ensures page[i] in table && wanted(page[i]) { assert page[i] in answer; }
  }

  lemma PageInOrder<T(!new)>(
      o: SortOrder, key: T -> Option<int>, all: seq<T>, engine: seq<T> -> seq<T>, offset: nat, limit: nat)
    requires Sorts(engine, o, key)
    ensures Ordered(o, key, Page(engine(all), offset, limit))
  {
    assert Listing(o, key, all, engine(all));
    var page := Page(engine(all), offset, limit);
    forall i, j | 0 <= i < j < |page| ensures MayPrecede(o, key(page[i]), key(page[j])) {
      assert page[i] == engine(all)[offset + i] && page[j] == engine(all)[offset + j];
    }
  }

  /** The common part of both routes: one `where` per condition on the count statement, then one per
      condition on the page statement. */
  method ListPage<T>(table: seq<T>, scope: T -> bool, filters: seq<T -> bool>, engine: seq<T> -> seq<T>,
                     limit: nat, offset: nat) returns (items: seq<T>, total: nat)
    ensures total == |Matching(table, [scope] + filters)|
    ensures items == Page(engine(Matching(table, [scope] + filters)), offset, limit)
  {
    var countWhere := [scope];
    for i := 0 to |filters|
      invariant countWhere == [scope] + filters[..i]
    {
      countWhere := countWhere + [filters[i]];
    }
    assert filters[..|filters|] == filters;
    total := |Matching(table, countWhere)|;
    var where := [scope];
    for i := 0 to |filters|
      invariant where == [scope] + filters[..i]
    {
      where := where + [filters[i]];
    }
    items := Page(engine(Matching(table, where)), offset, limit);
  }

  /** The row scope of a session: its user's rows, or every row when there is no user. */
  predicate InScope(user: string, owner: string) {
    user == "" || owner == user
  }

  // ---------------------------------------------------------------- GET /history, GET /tasks/{id}/history

  datatype HistoryRecord = HistoryRecord(id: nat, createdAt: int, row: HistoryRow)

  datatype HistoryListQuery = HistoryListQuery(
    eventType: Option<EventType>, taskId: Option<nat>, since: Option<int>, until: Option<int>,
    order: SortOrder, limit: nat, offset: nat)

  /** What a caller asks for.  The task of the path goes before the task of the query. */
  predicate HistoryWanted(user: string, q: HistoryListQuery, pathTask: Option<nat>, r: HistoryRecord) {
    && (user == "" || r.row.userId == user)
    && (pathTask.Some? ==> r.row.taskId == pathTask.value)
    && (pathTask.None? && q.taskId.Some? ==> r.row.taskId == q.taskId.value)
    && (q.eventType.Some? ==> r.row.eventType == q.eventType.value)
    && (q.since.Some? ==> q.since.value <= r.createdAt)
    && (q.until.Some? ==> r.createdAt <= q.until.value)
  }

  function HistoryWantedBy(user: string, q: HistoryListQuery, pathTask: Option<nat>): HistoryRecord -> bool {
    (r: HistoryRecord) => HistoryWanted(user, q, pathTask, r)
  }

  function CreatedAtKey(): HistoryRecord -> Option<int> {
    (r: HistoryRecord) => Some(r.createdAt)
  }

  /** `_history_filters`. */
  method HistoryFilters(q: HistoryListQuery, pathTask: Option<nat>) returns (filters: seq<HistoryRecord -> bool>)
    ensures forall user, r: HistoryRecord ::
      InScope(user, r.row.userId) && AllHold(filters, r) <==> HistoryWanted(user, q, pathTask, r)
  {
    filters := [];
    var scopedTaskId := if pathTask.Some? then pathTask else q.taskId;
    if scopedTaskId.Some? {
      filters := With(filters, (r: HistoryRecord) => r.row.taskId == scopedTaskId.value);
    }
    if q.eventType.Some? {
      filters := With(filters, (r: HistoryRecord) => r.row.eventType == q.eventType.value);
    }
    if q.since.Some? {
      filters := With(filters, (r: HistoryRecord) => q.since.value <= r.createdAt);
    }
    if q.until.Some? {
      filters := With(filters, (r: HistoryRecord) => r.createdAt <= q.until.value);
    }
  }

  /** A row as the table holds it: it passed the constraint and its date-time is real. */
  predicate Stored(r: HistoryRecord) {
    EventShape(r.row) && (r.row.onceRunAt.Some? ==> Valid(r.row.onceRunAt.value))
  }

  predicate AllStored(rows: seq<HistoryRecord>) {
    forall r :: r in rows ==> Stored(r)
  }

  /** A stored row always has an entry. */
  function EntryOf(r: HistoryRecord): HistoryEntry
    requires Stored(r)
  {
    EntryFromRow(r.row).value
  }

  function Entries(rows: seq<HistoryRecord>): seq<HistoryEntry>
    requires AllStored(rows)
  {
    seq(|rows|, i requires 0 <= i < |rows| => EntryOf(rows[i]))
  }

  lemma EntriesSize(rows: seq<HistoryRecord>)
    requires AllStored(rows)
    ensures |Entries(rows)| == |rows|
  {}

  lemma HistoryInOrder(o: SortOrder, l: seq<HistoryRecord>)
    requires Ordered(o, CreatedAtKey(), l)
    ensures forall i, j :: 0 <= i < j < |l| ==>
      if o.ASC? then l[i].createdAt <= l[j].createdAt else l[j].createdAt <= l[i].createdAt
  {
    forall i, j | 0 <= i < j < |l|
      ensures if o.ASC? then l[i].createdAt <= l[j].createdAt else l[j].createdAt <= l[i].createdAt
    {
      assert MayPrecede(o, CreatedAtKey()(l[i]), CreatedAtKey()(l[j]));
    }
  }

  /** `_list_history`: one page of the wanted rows in order, each as an entry, and how many wanted
      rows there are. */
  method ListHistory(table: seq<HistoryRecord>, user: string, q: HistoryListQuery, pathTask: Option<nat>,
                     engine: seq<HistoryRecord> -> seq<HistoryRecord>)
    returns (entries: seq<HistoryEntry>, total: nat)
    requires Sorts(engine, q.order, CreatedAtKey()) && AllStored(table)
    ensures var all := Keep(table, HistoryWantedBy(user, q, pathTask));
            var items := Page(engine(all), q.offset, q.limit);
            && total == |all| && AllStored(items) && entries == Entries(items)
            && |entries| == PageSize(total, q.offset, q.limit)
            && (forall i :: 0 <= i < |items| ==> items[i] in table && HistoryWanted(user, q, pathTask, items[i]))
            && forall i, j :: 0 <= i < j < |items| ==>
                 if q.order.ASC? then items[i].createdAt <= items[j].createdAt
                 else items[j].createdAt <= items[i].createdAt
  {
    var wanted := HistoryWantedBy(user, q, pathTask);
    ghost var all := Keep(table, wanted);
    var filters := HistoryFilters(q, pathTask);
    var scope := (r: HistoryRecord) => InScope(user, r.row.userId);
    ScopeFirst(scope, filters);
    MatchingKeeps(table, [scope] + filters, wanted);
    var items;
    items, total := ListPage(table, scope, filters, engine, q.limit, q.offset);
    PageIsWanted(q.order, CreatedAtKey(), table, wanted, engine, q.offset, q.limit);
    PageInOrder(q.order, CreatedAtKey(), all, engine, q.offset, q.limit);
    hide Page, Keep, Sorts, PageSize, Stored, HistoryWanted, InScope, Ordered, AllHold, Entries;
    HistoryInOrder(q.order, items);
    assert AllStored(items);
    EntriesSize(items);
    entries := Entries(items);
  }

  /** The k-th request's answer to one query. */
  function AnswersOf<T(!new)>(engines: nat -> (seq<T> -> seq<T>), all: seq<T>): nat -> seq<T> {
    (k: nat) => engines(k)(all)
  }

  /** Asking for the pages of one query one after the other, on a fixed table with distinct sort keys,
      shows the wanted rows in order, each once. */
  lemma QueryPagesConcatenate<T(!new)>(
      o: SortOrder, key: T -> Option<int>, all: seq<T>, engines: nat -> (seq<T> -> seq<T>), limit: nat, n: nat)
    requires KeysIdentify(key, all) && (forall k :: Sorts(engines(k), o, key)) && Start(n, limit) >= |all|
    ensures Walk(AnswersOf(engines, all), limit, n) == OrderBy(o, key, all)
  {
    var answers := AnswersOf(engines, all);
    forall k: nat ensures Listing(o, key, all, answers(k)) {
      assert Sorts(engines(k), o, key);
    }
    PagesConcatenate(o, key, all, answers, limit, n);
    var l := OrderBy(o, key, all);
    assert |l| == |multiset(l)| == |multiset(all)| == |all|;
    assert FirstPages(l, limit, n) == l;
  }

  lemma HistoryPagesConcatenate(
      table: seq<HistoryRecord>, user: string, q: HistoryListQuery, pathTask: Option<nat>,
      engines: nat -> (seq<HistoryRecord> -> seq<HistoryRecord>), n: nat)
    requires KeysIdentify(CreatedAtKey(), table) && forall k :: Sorts(engines(k), q.order, CreatedAtKey())
    ensures var all := Keep(table, HistoryWantedBy(user, q, pathTask));
            Start(n, q.limit) >= |all| ==>
              Walk(AnswersOf(engines, all), q.limit, n) == OrderBy(q.order, CreatedAtKey(), all)
  {
    var all := Keep(table, HistoryWantedBy(user, q, pathTask));
    if Start(n, q.limit) >= |all| {
      QueryPagesConcatenate(q.order, CreatedAtKey(), all, engines, q.limit, n);
    }
  }

  // ---------------------------------------------------------------- GET /tasks

  datatype TaskSortField = CREATED_AT | NEXT_RUN_AT | UPDATED_AT

  datatype TaskRecord = TaskRecord(
    id: nat, userId: string, triggerType: TriggerType, active: bool, nextRunAt: Option<int>,
    createdAt: int, updatedAt: int)

  datatype TaskListQuery = TaskListQuery(
    activeOnly: bool, triggerType: Option<TriggerType>, sort: TaskSortField, order: SortOrder, limit: nat, offset: nat)

  predicate TaskWanted(user: string, q: TaskListQuery, r: TaskRecord) {
    && (user == "" || r.userId == user)
    && (q.activeOnly ==> r.active)
    && (q.triggerType.Some? ==> r.triggerType == q.triggerType.value)
  }

  function TaskWantedBy(user: string, q: TaskListQuery): TaskRecord -> bool {
    (r: TaskRecord) => TaskWanted(user, q, r)
  }

  /** `_list_order_by`: the column; only `next_run_at` can be NULL, and its NULLs are put last. */
  function TaskKey(sort: TaskSortField): TaskRecord -> Option<int> {
    match sort
    case CREATED_AT => (r: TaskRecord) => Some(r.createdAt)
    case NEXT_RUN_AT => (r: TaskRecord) => r.nextRunAt
    case UPDATED_AT => (r: TaskRecord) => Some(r.updatedAt)
  }

  /** How the tasks of a page stand to each other: the later ones greater (ASC) or smaller (DESC) in the
      asked column, those without a next run behind all others. */
  predicate TaskBefore(q: TaskListQuery, a: TaskRecord, b: TaskRecord) {
    match (q.sort, q.order)
    case (CREATED_AT, ASC) => a.createdAt <= b.createdAt
    case (CREATED_AT, DESC) => a.createdAt >= b.createdAt
    case (UPDATED_AT, ASC) => a.updatedAt <= b.updatedAt
    case (UPDATED_AT, DESC) => a.updatedAt >= b.updatedAt
    case (NEXT_RUN_AT, ASC) => a.nextRunAt.Some? && b.nextRunAt.Some? ==> a.nextRunAt.value <= b.nextRunAt.value
    case (NEXT_RUN_AT, DESC) => a.nextRunAt.Some? && b.nextRunAt.Some? ==> a.nextRunAt.value >= b.nextRunAt.value
  }

  lemma TasksInOrder(q: TaskListQuery, l: seq<TaskRecord>)
    requires Ordered(q.order, TaskKey(q.sort), l)
    ensures forall i, j :: 0 <= i < j < |l| ==>
      && TaskBefore(q, l[i], l[j])
      && (q.sort.NEXT_RUN_AT? && l[i].nextRunAt.None? ==> l[j].nextRunAt.None?)
  {
    forall i, j | 0 <= i < j < |l|
      ensures TaskBefore(q, l[i], l[j]) && (q.sort.NEXT_RUN_AT? && l[i].nextRunAt.None? ==> l[j].nextRunAt.None?)
    {
      assert MayPrecede(q.order, TaskKey(q.sort)(l[i]), TaskKey(q.sort)(l[j]));
    }
  }

  /** `list_tasks`. */
  method ListTasks(table: seq<TaskRecord>, user: string, q: TaskListQuery, engine: seq<TaskRecord> -> seq<TaskRecord>)
    returns (items: seq<TaskRecord>, total: nat)
    requires Sorts(engine, q.order, TaskKey(q.sort))
    ensures var all := Keep(table, TaskWantedBy(user, q));
            && total == |all| && items == Page(engine(all), q.offset, q.limit)
            && |items| == PageSize(total, q.offset, q.limit)
    ensures forall r :: r in items ==> r in table && TaskWanted(user, q, r)
    ensures forall i, j :: 0 <= i < j < |items| ==>
      && TaskBefore(q, items[i], items[j])
      && (q.sort.NEXT_RUN_AT? && items[i].nextRunAt.None? ==> items[j].nextRunAt.None?)
  {
    var wanted := TaskWantedBy(user, q);
    ghost var all := Keep(table, wanted);
    var filters: seq<TaskRecord -> bool> := [];
    if q.activeOnly {
      filters := With(filters, (r: TaskRecord) => r.active);
    }
    if q.triggerType.Some? {
      filters := With(filters, (r: TaskRecord) => r.triggerType == q.triggerType.value);
    }
    var scope := (r: TaskRecord) => InScope(user, r.userId);
    ScopeFirst(scope, filters);
    MatchingKeeps(table, [scope] + filters, wanted);
    items, total := ListPage(table, scope, filters, engine, q.limit, q.offset);
    PageIsWanted(q.order, TaskKey(q.sort), table, wanted, engine, q.offset, q.limit);
    PageInOrder(q.order, TaskKey(q.sort), all, engine, q.offset, q.limit);
    TasksInOrder(q, items);
    hide Page, Keep, Sorts, PageSize, TaskWanted, Ordered, TaskBefore, TaskKey, InScope, AllHold;
    assert forall r :: r in items ==> r in table && wanted(r);
  }

  lemma TaskPagesConcatenate(
      table: seq<TaskRecord>, user: string, q: TaskListQuery,
      engines: nat -> (seq<TaskRecord> -> seq<TaskRecord>), n: nat)
    requires KeysIdentify(TaskKey(q.sort), table) && forall k :: Sorts(engines(k), q.order, TaskKey(q.sort))
    ensures var all := Keep(table, TaskWantedBy(user, q));
            Start(n, q.limit) >= |all| ==>
              Walk(AnswersOf(engines, all), q.limit, n) == OrderBy(q.order, TaskKey(q.sort), all)
  {
    var all := Keep(table, TaskWantedBy(user, q));
    if Start(n, q.limit) >= |all| {
      QueryPagesConcatenate(q.order, TaskKey(q.sort), all, engines, q.limit, n);
    }
  }

  lemma FirstIsNew<T(!new)>(table: seq<T>, rest: seq<T>)
    requires table != [] && Distinct(table)
    requires (forall r :: r in rest ==> r in table[1..]) && Distinct(rest)
    ensures Distinct([table[0]] + rest)
  {
    assert table[0] !in table[1..];
    forall i | 0 <= i < |rest| ensures rest[i] != table[0] { assert rest[i] in rest; }
  }

  lemma {:induction false} KeepDistinct<T(!new)>(table: seq<T>, wanted: T -> bool)
    requires Distinct(table)
    ensures Distinct(Keep(table, wanted))
    decreases |table|
  {
    if table != [] {
      KeepDistinct(table[1..], wanted);
      FirstIsNew(table, Keep(table[1..], wanted));
    }
  }

  /** Enough pages of a task query show each wanted task exactly once, whatever the database makes of
      ties, if and only if no page boundary separates two tied tasks. */
  lemma TaskPagesShowEachOnceIff(table: seq<TaskRecord>, user: string, q: TaskListQuery, n: nat)
    requires q.limit > 0 && Distinct(table)
    requires Start(n, q.limit) >= |Keep(table, TaskWantedBy(user, q))|
    ensures var all := Keep(table, TaskWantedBy(user, q));
            EachRowOnce(q.order, TaskKey(q.sort), all, q.limit, n) <==>
            CleanCuts(TaskKey(q.sort), OrderBy(q.order, TaskKey(q.sort), all), q.limit)
  {
    KeepDistinct(table, TaskWantedBy(user, q));
    EachRowOnceIff(q.order, TaskKey(q.sort), Keep(table, TaskWantedBy(user, q)), q.limit, n);
  }

  lemma {:induction false} LastStart(limit: nat, size: nat) returns (k: nat)
    requires 0 < limit < size
    ensures 0 < Start(k, limit) < size && size <= Start(k, limit) + limit
    decreases size
  {
    if size <= 2 * limit {
      k := 1;
      assert Start(1, limit) == limit;
    } else {
      k := LastStart(limit, size - limit);
      k := k + 1;
    }
  }

  lemma NullsTieAtEnd<T(!new)>(o: SortOrder, key: T -> Option<int>, l: seq<T>, limit: nat)
    requires 0 < limit < |l| && Ordered(o, key, l) && key(l[|l| - 1 - limit]).None?
    ensures !CleanCuts(key, l, limit)
  {
    var k := LastStart(limit, |l|);
    var p := Start(k, limit);
    var first := l[|l| - 1 - limit];
    assert MayPrecede(o, key(first), key(l[p]));
    assert p - 1 > |l| - 1 - limit ==> MayPrecede(o, key(first), key(l[p - 1]));
    assert key(l[Start(k, limit) - 1]) == key(l[Start(k, limit)]);
  }

  /** Paused tasks have no next run, so sorting by next run ties them.  With more of them than fit on
      a page, some answers of the database make the pages repeat one task and miss another. */
  lemma PausedTasksAreTied(rows: seq<TaskRecord>, l: seq<TaskRecord>, o: SortOrder, limit: nat, n: nat)
    requires limit > 0 && Distinct(rows)
    requires Listing(o, TaskKey(NEXT_RUN_AT), rows, l)
    requires |l| > limit && l[|l| - 1 - limit].nextRunAt.None?
    ensures !EachRowOnce(o, TaskKey(NEXT_RUN_AT), rows, limit, n)
  {
    NullsTieAtEnd(o, TaskKey(NEXT_RUN_AT), l, limit);
    hide Ordered, CleanCuts, EachRowOnce;
    TieBreaks(o, TaskKey(NEXT_RUN_AT), rows, l, limit, n);
  }
}
