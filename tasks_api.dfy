/**
 * The task endpoints: per-user listing with optional filters, newest first,
 * paginated; the `remind_at <= due_at` check on create and on the merged
 * values of an update; and the ownership check (404) on every id lookup.
 */
module TasksApi {
  import opened Wrappers
  import opened TaskModel
  import opened TaskService
  import Sorting

  /** The HTTP errors these endpoints raise. */
  datatype ApiError =
    | NotFound        // 404 "Task not found"
    | Unprocessable   // 422, the reminder lies after the due date or a query bound is violated

  /** Query parameters of `GET /tasks`; page defaults to 1 and size to 20. */
  datatype ListQuery = ListQuery(
    status: Option<Status>,
    priority: Option<Priority>,
    dueFrom: Option<Instant>,
    dueTo: Option<Instant>,
    page: int,
    size: int)

  /** The row filter: owner, then each filter that was given. */
  predicate Matches(t: Task, userId: int, q: ListQuery) {
    && t.userId == userId
    && (q.status.Some? ==> t.status == q.status.value)
    && (q.priority.Some? ==> t.priority == q.priority.value)
    && (q.dueFrom.Some? ==> t.dueAt.Some? && t.dueAt.value >= q.dueFrom.value)
    && (q.dueTo.Some? ==> t.dueAt.Some? && t.dueAt.value <= q.dueTo.value)
  }

  function FilterRows(rows: seq<Task>, userId: int, q: ListQuery): (r: seq<Task>)
    ensures forall t :: t in r <==> t in rows && Matches(t, userId, q)
  {
    if rows == [] then []
    else
      assert rows == [rows[0]] + rows[1..];
      (if Matches(rows[0], userId, q) then [rows[0]] else []) + FilterRows(rows[1..], userId, q)
  }

  /** The filter keeps each matching row as often as the table holds it, and no other row. */
  lemma {:induction false} FilterRowsCounts(rows: seq<Task>, userId: int, q: ListQuery)
    ensures forall t :: multiset(FilterRows(rows, userId, q))[t] == if Matches(t, userId, q) then multiset(rows)[t] else 0
  {
    if rows != [] {
      FilterRowsCounts(rows[1..], userId, q);
      assert rows == [rows[0]] + rows[1..];
    }
  }

  /** `ORDER BY created_at DESC`. */
  function NewestFirst(a: Task, b: Task): bool {
    a.createdAt >= b.createdAt
  }

  /** `OFFSET offset LIMIT limit`. */
  function Window<T>(s: seq<T>, offset: nat, limit: nat): (r: seq<T>)
    ensures |r| <= limit
    ensures offset < |s| ==> r == s[offset..if offset + limit < |s| then offset + limit else |s|]
    ensures offset >= |s| ==> r == []
  {
    if offset >= |s| then [] else s[offset..if offset + limit < |s| then offset + limit else |s|]
  }

  /** The number of rows the pages before `page` hold: `(page - 1) * size`. */
  function Offset(page: int, size: int): (n: nat)
    requires page >= 1 && size >= 1
    ensures n == (page - 1) * size
    ensures page == 1 ==> n == 0
  {
    PagesBeforeIsProduct(page - 1, size);
    PagesBefore(page - 1, size)
  }

  /** The rows `k` full pages of `size` rows hold, counted page by page. */
  function PagesBefore(k: nat, size: nat): nat {
    if k == 0 then 0 else PagesBefore(k - 1, size) + size
  }

  lemma {:induction false} PagesBeforeIsProduct(k: nat, size: nat)
    ensures PagesBefore(k, size) == k * size
  {
    if k > 0 {
      var j: nat := k - 1;
      PagesBeforeIsProduct(j, size);
    }
  }

  /** The caller's matching rows in `ORDER BY created_at DESC`: a newest-first permutation of them. */
  function Ranked(rows: seq<Task>, userId: int, q: ListQuery): (r: seq<Task>)
    ensures multiset(r) == multiset(FilterRows(rows, userId, q))
    ensures |r| == |FilterRows(rows, userId, q)|
    ensures forall i, j :: 0 <= i < j < |r| ==> r[i].createdAt >= r[j].createdAt
  {
    var f := FilterRows(rows, userId, q);
    Sorting.SortPermutes(f, NewestFirst);
    Sorting.SortSameElements(f, NewestFirst);
    NewestFirstIsTotalPreorder();
    Sorting.SortSorted(f, NewestFirst);
    Sorting.SortBy(f, NewestFirst)
  }

  /**
   * `list_tasks` over the rows of the task table: 422 when a query bound is
   * violated, otherwise at most `size` rows, cut from the ranked matches at
   * the offset of the requested page. `rows` is the store's task table in
   * the database's scan order; `StoredRows` states that link.
   */
  function ListTasks(rows: seq<Task>, userId: int, q: ListQuery): (r: Result<seq<Task>, ApiError>)
    ensures r.Err? <==> q.page < 1 || q.size < 1 || q.size > 100
    ensures r.Err? ==> r.error == Unprocessable
    ensures r.Ok? ==> |r.value| <= q.size
  {
    if q.page < 1 || q.size < 1 || q.size > 100 then Err(Unprocessable)
    else Ok(Window(Ranked(rows, userId, q), Offset(q.page, q.size), q.size))
  }

  lemma NewestFirstIsTotalPreorder()
    ensures Sorting.Total(NewestFirst) && Sorting.Transitive(NewestFirst)
  {
  }

  lemma WindowWithin<T>(s: seq<T>, offset: nat, limit: nat, le: (T, T) -> bool)
    ensures forall x :: x in Window(s, offset, limit) ==> x in s
    ensures Sorting.SortedBy(s, le) ==> Sorting.SortedBy(Window(s, offset, limit), le)
  {
  }

  /** The smaller of `a` and `b`. */
  function Min(a: int, b: int): int {
    if a < b then a else b
  }

  /**
   * Page `page` holds the matches ranked `(page - 1) * size + 1` to
   * `page * size` in `created_at DESC` order, clipped to the number of
   * matches.
   */
  lemma ListTasksPageRanks(rows: seq<Task>, userId: int, q: ListQuery)
    requires ListTasks(rows, userId, q).Ok?
    ensures var r := Ranked(rows, userId, q);
            var first := Offset(q.page, q.size);
            ListTasks(rows, userId, q).value == r[Min(first, |r|)..Min(first + q.size, |r|)]
  {
  }

  /** Pages 1 to `k` of a listing: entry `i` is the page numbered `i + 1`. */
  function PageList(rows: seq<Task>, userId: int, q: ListQuery, k: nat): (ps: seq<seq<Task>>)
    requires 1 <= q.size <= 100
    ensures |ps| == k
  {
    seq(k, i requires 0 <= i < k => ListTasks(rows, userId, q.(page := i + 1)).value)
  }

  /** Sequences one after another. */
  function Concat<T>(ps: seq<seq<T>>): seq<T> {
    if ps == [] then [] else Concat(ps[..|ps| - 1]) + ps[|ps| - 1]
  }

  /** The page number takes no part in the row filter. */
  lemma {:induction false} FilterIgnoresPage(rows: seq<Task>, userId: int, q: ListQuery, page: int)
    ensures FilterRows(rows, userId, q.(page := page)) == FilterRows(rows, userId, q)
  {
    if rows != [] {
      FilterIgnoresPage(rows[1..], userId, q, page);
    }
  }

  /** Page `j + 1` of the same query is the window after the `j` pages before it. */
  lemma PageIsWindow(rows: seq<Task>, userId: int, q: ListQuery, j: nat)
    requires 1 <= q.size <= 100
    ensures ListTasks(rows, userId, q.(page := j + 1)).value
            == Window(Ranked(rows, userId, q), PagesBefore(j, q.size), q.size)
  {
    FilterIgnoresPage(rows, userId, q, j + 1);
    assert Offset(j + 1, q.size) == PagesBefore(j, q.size);
  }

  /** Windows of `size` rows taken one after another from the start are a prefix of `r`. */
  lemma {:induction false} ConsecutiveWindows<T>(ps: seq<seq<T>>, r: seq<T>, size: nat)
    requires forall i :: 0 <= i < |ps| ==> ps[i] == Window(r, PagesBefore(i, size), size)
    ensures Concat(ps) == r[..Min(PagesBefore(|ps|, size), |r|)]
  {
    if ps != [] {
      var n: nat := |ps| - 1;
      ConsecutiveWindows(ps[..n], r, size);
      WindowExtendsPrefix(r, PagesBefore(n, size), size);
    }
  }

  /** The rows before an offset followed by the window there are the rows up to the window's end. */
  lemma WindowExtendsPrefix<T>(r: seq<T>, offset: nat, limit: nat)
    ensures r[..Min(offset, |r|)] + Window(r, offset, limit) == r[..Min(offset + limit, |r|)]
  {
    if offset < |r| {
      assert r[..Min(offset + limit, |r|)] == r[..offset] + r[offset..Min(offset + limit, |r|)];
    }
  }

  /**
   * Paging loses nothing and repeats nothing: once `k` pages can hold every
   * match (`k * size >= n`, as for `k` = the ceiling of `n / size`), pages
   * 1 to `k` together hold each matching row exactly as often as the table
   * does and no other row, newest first throughout.
   */
  lemma ListTasksPagesCoverAll(rows: seq<Task>, userId: int, q: ListQuery, k: nat)
    requires 1 <= q.size <= 100
    requires k * q.size >= |FilterRows(rows, userId, q)|
    ensures var p := Concat(PageList(rows, userId, q, k));
            && (forall t :: multiset(p)[t] == if Matches(t, userId, q) then multiset(rows)[t] else 0)
            && (forall i, j :: 0 <= i < j < |p| ==> p[i].createdAt >= p[j].createdAt)
  {
    var r := Ranked(rows, userId, q);
    var ps := PageList(rows, userId, q, k);
    PagesArePrefix(rows, userId, q, k);
    PagesBeforeIsProduct(k, q.size);
    assert r[..|r|] == r;
    FilterRowsCounts(rows, userId, q);
  }

  /** Pages 1 to `k` of a listing are the first `k * size` ranked matches, or all of them. */
  lemma PagesArePrefix(rows: seq<Task>, userId: int, q: ListQuery, k: nat)
    requires 1 <= q.size <= 100
    ensures var r := Ranked(rows, userId, q);
            Concat(PageList(rows, userId, q, k)) == r[..Min(PagesBefore(k, q.size), |r|)]
  {
    PageListWindows(rows, userId, q, k);
    ConsecutiveWindows(PageList(rows, userId, q, k), Ranked(rows, userId, q), q.size);
  }

  /** Page `i + 1` is the window of ranked rows after `i` full pages. */
  lemma PageListWindows(rows: seq<Task>, userId: int, q: ListQuery, k: nat)
    requires 1 <= q.size <= 100
    ensures forall i :: 0 <= i < k ==>
              PageList(rows, userId, q, k)[i] == Window(Ranked(rows, userId, q), PagesBefore(i, q.size), q.size)
  {
    forall i | 0 <= i < k
      ensures PageList(rows, userId, q, k)[i] == Window(Ranked(rows, userId, q), PagesBefore(i, q.size), q.size)
    {
      PageListAt(rows, userId, q, k, i);
    }
  }

  lemma PageListAt(rows: seq<Task>, userId: int, q: ListQuery, k: nat, i: nat)
    requires 1 <= q.size <= 100 && i < k
    ensures PageList(rows, userId, q, k)[i] == Window(Ranked(rows, userId, q), PagesBefore(i, q.size), q.size)
  {
    assert PageList(rows, userId, q, k)[i] == ListTasks(rows, userId, q.(page := i + 1)).value;
    PageIsWindow(rows, userId, q, i);
  }

  /** `rows` lists exactly the tasks of the store's table, each once. */
  ghost predicate StoredRows(rows: seq<Task>, tasks: map<nat, Task>) {
    && |rows| == |tasks|
    && forall t :: t in rows <==> t.id in tasks && tasks[t.id] == t
  }

  /** Every listed task is a stored task of the caller, under its own id. */
  lemma ListTasksFromStore(store: TaskStore, rows: seq<Task>, userId: int, q: ListQuery)
    requires StoredRows(rows, store.tasks)
    requires ListTasks(rows, userId, q).Ok?
    ensures forall t :: t in ListTasks(rows, userId, q).value ==>
              t.id in store.tasks && store.tasks[t.id] == t && t.userId == userId
  {
    ListTasksOnlyMatching(rows, userId, q);
  }

  /** The listing holds only the caller's tasks that pass every given filter. */
  lemma ListTasksOnlyMatching(rows: seq<Task>, userId: int, q: ListQuery)
    requires ListTasks(rows, userId, q).Ok?
    ensures forall t :: t in ListTasks(rows, userId, q).value ==> t in rows && Matches(t, userId, q)
  {
    var r := Ranked(rows, userId, q);
    WindowWithin(r, Offset(q.page, q.size), q.size, NewestFirst);
    forall t | t in ListTasks(rows, userId, q).value ensures t in FilterRows(rows, userId, q) {
      assert t in multiset(r);
    }
  }

  /** The listing is ordered by creation instant, newest first. */
  lemma ListTasksNewestFirst(rows: seq<Task>, userId: int, q: ListQuery)
    requires ListTasks(rows, userId, q).Ok?
    ensures var r := ListTasks(rows, userId, q).value;
            forall i, j :: 0 <= i < j < |r| ==> r[i].createdAt >= r[j].createdAt
  {
    var r := Ranked(rows, userId, q);
    assert Sorting.SortedBy(r, NewestFirst);
    WindowWithin(r, Offset(q.page, q.size), q.size, NewestFirst);
    var w := Window(r, Offset(q.page, q.size), q.size);
    assert forall i, j :: 0 <= i < j < |w| ==> NewestFirst(w[i], w[j]);
  }

  /**
   * When every match fits on the first page, that page alone holds exactly
   * the matching tasks, counted with multiplicity.
   */
  lemma ListTasksFirstPagesCoverAll(rows: seq<Task>, userId: int, q: ListQuery)
    requires q.page == 1 && 1 <= q.size <= 100
    requires |FilterRows(rows, userId, q)| <= q.size
    ensures ListTasks(rows, userId, q).Ok?
    ensures multiset(ListTasks(rows, userId, q).value) == multiset(FilterRows(rows, userId, q))
  {
    var r := Ranked(rows, userId, q);
    if |r| > 0 {
      assert Window(r, 0, q.size) == r[0..|r|];
      assert r[0..|r|] == r;
    }
  }

  /** `remind_at <= due_at`, checked only when both are present. */
  predicate ReminderNotAfterDue(remindAt: Option<Instant>, dueAt: Option<Instant>) {
    !(remindAt.Some? && dueAt.Some? && remindAt.value > dueAt.value)
  }

  /** The values `update_task` validates: the request's where given, else the stored ones. */
  predicate MergedReminderValid(t: Task, req: TaskUpdate) {
    var dueAt := if req.dueAt.Some? then req.dueAt else t.dueAt;
    var remindAt := if req.remindAt.Some? then req.remindAt else t.remindAt;
    ReminderNotAfterDue(remindAt, dueAt)
  }

  /** The merged check is exactly the check on the task the update would produce. */
  lemma MergedCheckIsCheckOfResult(t: Task, req: TaskUpdate, now: Instant)
    ensures MergedReminderValid(t, req) <==>
              ReminderNotAfterDue(ApplyUpdate(t, req, now).remindAt, ApplyUpdate(t, req, now).dueAt)
  {
  }

  /**
   * The merged check as written, on datetimes: a date taken from the request
   * carries a time zone iff `reqAware`, one taken from the stored row is
   * naive. `Ok(valid)` is the answer, `Err` the TypeError Python raises
   * before anything changes (the endpoint answers 500).
   */
  function MergedCheckAsWritten(t: Task, req: TaskUpdate, reqAware: bool): (r: Result<bool, Raised>)
    ensures r.Ok? ==> (r.value <==> MergedReminderValid(t, req))
    ensures r.Err? <==> reqAware && (req.dueAt.Some? || t.dueAt.Some?) && (req.remindAt.Some? || t.remindAt.Some?)
                        && req.dueAt.Some? != req.remindAt.Some?
  {
    var dueAt := if req.dueAt.Some? then Some(DateTime(req.dueAt.value, reqAware))
                 else if t.dueAt.Some? then Some(DateTime(t.dueAt.value, false)) else None;
    var remindAt := if req.remindAt.Some? then Some(DateTime(req.remindAt.value, reqAware))
                    else if t.remindAt.Some? then Some(DateTime(t.remindAt.value, false)) else None;
    if remindAt.None? || dueAt.None? then Ok(true)
    else
      var later := Later(remindAt.value, dueAt.value);
      if later.Err? then Err(later.error) else Ok(!later.value)
  }

  /**
   * The request that shows it: moving only the due date of a task that has a
   * reminder, with a date that carries a time zone, raises instead of being
   * checked against the stored reminder.
   */
  lemma MovingDueDateRaisesAsWritten(t: Task, due: Instant)
    requires t.remindAt.Some?
    ensures var req := TaskUpdate(None, None, None, Some(due), None, None);
            MergedCheckAsWritten(t, req, true).Err? && MergedCheckAsWritten(t, req, false).Ok?
  {
  }

  /** The lookup `WHERE id = task_id AND user_id = user.id`. */
  function FindOwned(tasks: map<nat, Task>, userId: int, id: int): (r: Result<Task, ApiError>)
    ensures r.Ok? <==> id >= 0 && id in tasks && tasks[id].userId == userId
    ensures r.Ok? ==> r.value == tasks[id]
    ensures r.Err? ==> r.error == NotFound
  {
    if id >= 0 && id in tasks && tasks[id].userId == userId then Ok(tasks[id]) else Err(NotFound)
  }

  /** Every stored task has its reminder no later than its due date. */
  ghost predicate RemindersNotAfterDue(tasks: map<nat, Task>) {
    forall id :: id in tasks ==> ReminderNotAfterDue(tasks[id].remindAt, tasks[id].dueAt)
  }

  /** `GET /tasks/{id}`. */
  method GetTask(store: TaskStore, userId: int, id: int) returns (r: Result<Task, ApiError>)
    requires store.Valid()
    ensures r == FindOwned(store.tasks, userId, id)
  {
    r := FindOwned(store.tasks, userId, id);
  }

  /**
   * `POST /tasks`: 422 and nothing stored when the reminder lies after the
   * due date; otherwise the task is created with its reminder job.
   */
  method CreateTask(store: TaskStore, userId: int, req: TaskCreate, now: Instant)
    returns (r: Result<Task, ApiError>)
    requires store.Valid() && RemindersNotAfterDue(store.tasks)
    modifies store
    ensures store.Valid() && RemindersNotAfterDue(store.tasks)
    ensures r.Err? <==> !ReminderNotAfterDue(req.remindAt, req.dueAt)
    ensures r.Err? ==> r.error == Unprocessable && unchanged(store)
    ensures r.Ok? ==> r.value == NewTask(old(store.nextId), userId, req, now)
                      && store.tasks == old(store.tasks)[r.value.id := r.value]
                      && store.nextId == old(store.nextId) + 1
                      && store.jobs == if HasFutureReminder(r.value, now)
                                       then old(store.jobs)[JobId(r.value.id) := ReminderJob(r.value)]
                                       else old(store.jobs)
  {
    if req.remindAt.Some? && req.dueAt.Some? && req.remindAt.value > req.dueAt.value {
      return Err(Unprocessable);
    }
    var t := store.CreateTaskWithReminder(userId, req, now);
    r := Ok(t);
  }

  /**
   * `PATCH /tasks/{id}`: 404 for a missing or foreign task, 422 when the
   * merged reminder lies after the merged due date; on either error nothing
   * changes. Otherwise the partial update is applied.
   */
  method UpdateTask(store: TaskStore, userId: int, id: int, req: TaskUpdate, now: Instant)
    returns (r: Result<Task, ApiError>)
    requires store.Valid() && RemindersNotAfterDue(store.tasks)
    modifies store
    ensures store.Valid() && RemindersNotAfterDue(store.tasks)
    ensures FindOwned(old(store.tasks), userId, id).Err? ==> r == Err(NotFound) && unchanged(store)
    ensures FindOwned(old(store.tasks), userId, id).Ok? ==>
              (r.Err? <==> !MergedReminderValid(old(store.tasks)[id], req))
    ensures r.Err? ==> unchanged(store)
    ensures r.Ok? ==> id in old(store.tasks) && r.value == ApplyUpdate(old(store.tasks)[id], req, now)
                      && store.tasks == old(store.tasks)[id := r.value]
                      && store.nextId == old(store.nextId)
                      && store.jobs == if HasFutureReminder(r.value, now)
                                       then old(store.jobs)[JobId(id) := ReminderJob(r.value)]
                                       else old(store.jobs) - {JobId(id)}
  {
    var found := FindOwned(store.tasks, userId, id);
    if found.Err? {
      return Err(NotFound);
    }
    var task := found.value;
    var dueAt := if req.dueAt.Some? then req.dueAt else task.dueAt;
    var remindAt := if req.remindAt.Some? then req.remindAt else task.remindAt;
    if remindAt.Some? && dueAt.Some? && remindAt.value > dueAt.value {
      return Err(Unprocessable);
    }
    var t := store.UpdateTaskWithReminder(id, req, now);
    r := Ok(t);
  }

  /** `DELETE /tasks/{id}`: 404 for a missing or foreign task, else the task and its job go. */
  method DeleteTask(store: TaskStore, userId: int, id: int) returns (r: Result<(), ApiError>)
    requires store.Valid() && RemindersNotAfterDue(store.tasks)
    modifies store
    ensures store.Valid() && RemindersNotAfterDue(store.tasks)
    ensures r.Err? <==> FindOwned(old(store.tasks), userId, id).Err?
    ensures r.Err? ==> r.error == NotFound && unchanged(store)
    ensures r.Ok? ==> store.tasks == old(store.tasks) - {id} && store.jobs == old(store.jobs) - {JobId(id)}
                      && store.nextId == old(store.nextId)
  {
    var found := FindOwned(store.tasks, userId, id);
    if found.Err? {
      return Err(NotFound);
    }
    store.DeleteTaskWithReminder(id);
    r := Ok(());
  }
}
