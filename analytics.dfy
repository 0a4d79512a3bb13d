/**
 * The analytics summary: counts of the caller's tasks, the completion rate,
 * tasks created per day over the last 14 days, and the next deadlines.
 */
module Analytics {
  import opened Wrappers
  import opened TaskModel
  import Sorting
  import Counting

  /** The tasks of `s` satisfying `p`, in order. */
  function Select(s: seq<Task>, p: Task -> bool): (r: seq<Task>)
    ensures |r| <= |s|
    ensures forall t :: t in r <==> t in s && p(t)
  {
    if s == [] then [] else (if p(s[0]) then [s[0]] else []) + Select(s[1..], p)
  }

  /**
   * Selection keeps each satisfying task as often as it occurs and drops
   * the others, so its length counts the satisfying tasks with their
   * multiplicity, and it keeps everything iff everything satisfies `p`.
   */
  lemma {:induction false} SelectMultiplicity(s: seq<Task>, p: Task -> bool)
    ensures forall t :: multiset(Select(s, p))[t] == if p(t) then multiset(s)[t] else 0
    ensures |Select(s, p)| == |s| <==> forall t :: t in s ==> p(t)
  {
    if s != [] {
      SelectMultiplicity(s[1..], p);
      assert s == [s[0]] + s[1..];
    }
  }

  /** Selecting by two conditions that never hold together leaves room for both. */
  lemma {:induction false} SelectDisjoint(s: seq<Task>, p: Task -> bool, q: Task -> bool)
    requires forall t :: t in s ==> !(p(t) && q(t))
    ensures |Select(s, p)| + |Select(s, q)| <= |s|
  {
    if s != [] {
      SelectDisjoint(s[1..], p, q);
    }
  }

  /** `Task.user_id == user.id`. */
  function Owned(tasks: seq<Task>, userId: int): seq<Task> {
    Select(tasks, (t: Task) => t.userId == userId)
  }

  predicate IsCompleted(t: Task) {
    t.status == Done
  }

  /** `due_at < now` and not done; a missing due date never compares true. */
  predicate IsOverdue(t: Task, now: Instant) {
    t.dueAt.Some? && t.dueAt.value < now && t.status != Done
  }

  /** Due within the next seven days, bounds included, and not done. */
  predicate IsUpcoming(t: Task, now: Instant) {
    t.dueAt.Some? && now <= t.dueAt.value <= now + 7 * 86400 && t.status != Done
  }

  /** Created within the last fourteen days. */
  predicate IsRecent(t: Task, now: Instant) {
    t.createdAt >= now - 14 * 86400
  }

  /** The UTC calendar day of an instant, as a day number. */
  function Day(t: Instant): int {
    t / 86400
  }

  /** Counting the caller's tasks that satisfy `p`: none, or all of them. */
  lemma OwnedCount(tasks: seq<Task>, userId: int, p: Task -> bool)
    ensures |Select(Owned(tasks, userId), p)| == 0 <==> forall t :: t in tasks && t.userId == userId ==> !p(t)
    ensures |Select(Owned(tasks, userId), p)| == |Owned(tasks, userId)|
            <==> forall t :: t in tasks && t.userId == userId ==> p(t)
  {
    SelectMultiplicity(Owned(tasks, userId), p);
  }

  /** `COUNT(*)` of the caller's done tasks. */
  function CompletedCount(tasks: seq<Task>, userId: int): (n: nat)
    ensures n <= |Owned(tasks, userId)|
    ensures n == 0 <==> forall t :: t in tasks && t.userId == userId ==> !IsCompleted(t)
    ensures n == |Owned(tasks, userId)| <==> forall t :: t in tasks && t.userId == userId ==> IsCompleted(t)
  {
    OwnedCount(tasks, userId, IsCompleted);
    |Select(Owned(tasks, userId), IsCompleted)|
  }

  /** `COUNT(*)` of the caller's overdue tasks. */
  function OverdueCount(tasks: seq<Task>, userId: int, now: Instant): (n: nat)
    ensures n <= |Owned(tasks, userId)|
    ensures n == 0 <==> forall t :: t in tasks && t.userId == userId ==> !IsOverdue(t, now)
    ensures n == |Owned(tasks, userId)| <==> forall t :: t in tasks && t.userId == userId ==> IsOverdue(t, now)
  {
    OwnedCount(tasks, userId, (t: Task) => IsOverdue(t, now));
    |Select(Owned(tasks, userId), (t: Task) => IsOverdue(t, now))|
  }

  /** Completed and overdue tasks are disjoint, so together they are at most the total. */
  lemma CountsWithinTotal(tasks: seq<Task>, userId: int, now: Instant)
    ensures CompletedCount(tasks, userId) <= |Owned(tasks, userId)|
    ensures CompletedCount(tasks, userId) + OverdueCount(tasks, userId, now) <= |Owned(tasks, userId)|
  {
    SelectDisjoint(Owned(tasks, userId), IsCompleted, (t: Task) => IsOverdue(t, now));
  }

  /** `completed / total * 100` when there are tasks, else 0. */
  function CompletionRate(completed: nat, total: nat): (rate: real)
    ensures total == 0 ==> rate == 0.0
    ensures total > 0 ==> rate * total as real == completed as real * 100.0
  {
    if total > 0 then completed as real / total as real * 100.0 else 0.0
  }

  /** The rate is a percentage: between 0 and 100, and 100 exactly when all are done. */
  lemma CompletionRateBounds(completed: nat, total: nat)
    requires completed <= total
    ensures 0.0 <= CompletionRate(completed, total) <= 100.0
    ensures total > 0 ==> (CompletionRate(completed, total) == 100.0 <==> completed == total)
  {
    if total > 0 {
      var q := completed as real / total as real;
      assert q * total as real == completed as real;
      assert q <= 1.0;
      if q == 1.0 {
        assert completed as real == total as real;
      }
    }
  }

  // ---------------------------------------------------------------------
  // Tasks per day
  // ---------------------------------------------------------------------

  /** The creation days of the caller's recent tasks, in table order. */
  function RecentDays(tasks: seq<Task>, userId: int, now: Instant): seq<int> {
    Days(Select(Owned(tasks, userId), (t: Task) => IsRecent(t, now)))
  }

  function Days(s: seq<Task>): (r: seq<int>)
    ensures |r| == |s|
  {
    if s == [] then [] else Days(s[..|s| - 1]) + [Day(s[|s| - 1].createdAt)]
  }

  function ByDay(a: Counting.Entry<int>, b: Counting.Entry<int>): bool {
    a.key <= b.key
  }

  /**
   * The grouped query: one row per creation day, with distinct days in
   * ascending order; each day's count is the number of recent tasks created
   * that day, and the counts add up to the number of recent tasks, hence to
   * at most the total.
   */
  function GroupByDay(tasks: seq<Task>, userId: int, now: Instant): (rows: seq<Counting.Entry<int>>)
    ensures Sorting.SortedBy(rows, ByDay)
    ensures Counting.DistinctKeys(rows)
    ensures forall e :: e in rows ==> 1 <= e.count == Counting.Occurrences(RecentDays(tasks, userId, now), e.key)
    ensures forall d :: d in RecentDays(tasks, userId, now) ==> exists e :: e in rows && e.key == d
    ensures Counting.Total(rows) == |RecentDays(tasks, userId, now)| <= |Owned(tasks, userId)|
  {
    var days := RecentDays(tasks, userId, now);
    assert |days| <= |Owned(tasks, userId)|;
    DayRows(days);
    Sorting.SortBy(Counting.Histogram(days), ByDay)
  }

  /** The day histogram sorted by day: distinct ascending days with their exact counts. */
  lemma DayRows(days: seq<int>)
    ensures var rows := Sorting.SortBy(Counting.Histogram(days), ByDay);
            && Sorting.SortedBy(rows, ByDay)
            && Counting.DistinctKeys(rows)
            && (forall e :: e in rows ==> 1 <= e.count == Counting.Occurrences(days, e.key))
            && (forall d :: d in days ==> exists e :: e in rows && e.key == d)
            && Counting.Total(rows) == |days|
  {
    DayRowsOrder(days);
    DayRowsCounts(days);
  }

  /** Sorting the day histogram gives ascending, distinct days and keeps the total. */
  lemma DayRowsOrder(days: seq<int>)
    ensures var rows := Sorting.SortBy(Counting.Histogram(days), ByDay);
            && Sorting.SortedBy(rows, ByDay)
            && Counting.DistinctKeys(rows)
            && Counting.Total(rows) == |days|
  {
    var hist := Counting.Histogram(days);
    Counting.HistogramFacts(days);
    assert Sorting.Total(ByDay) && Sorting.Transitive(ByDay);
    Sorting.SortSorted(hist, ByDay);
    Counting.SortKeepsHistogram(hist, ByDay, 0);
  }

  /** Every sorted row counts its day exactly, and every day has its row. */
  lemma DayRowsCounts(days: seq<int>)
    ensures var rows := Sorting.SortBy(Counting.Histogram(days), ByDay);
            && (forall e :: e in rows ==> 1 <= e.count == Counting.Occurrences(days, e.key))
            && (forall d :: d in days ==> exists e :: e in rows && e.key == d)
  {
    var hist := Counting.Histogram(days);
    var rows := Sorting.SortBy(hist, ByDay);
    Counting.HistogramFacts(days);
    Sorting.SortPermutes(hist, ByDay);
    forall e | e in rows ensures 1 <= e.count == Counting.Occurrences(days, e.key) {
      assert e in multiset(rows);
      Counting.LookupOfMember(hist, e);
      var i :| 0 <= i < |hist| && hist[i] == e;
    }
    forall d | d in days ensures exists e :: e in rows && e.key == d {
      Counting.OccurrencesPositive(days, d);
      OccurringKeyHasEntry(days, d);
      var e :| e in hist && e.key == d;
      assert e in multiset(hist);
    }
  }

  /** A day that occurs has its entry in the histogram. */
  lemma OccurringKeyHasEntry(days: seq<int>, d: int)
    requires d in days
    ensures exists e :: e in Counting.Histogram(days) && e.key == d
  {
    Counting.HistogramFacts(days);
    OccurrencesOfMember(days, d);
    LookupPositiveHasEntry(Counting.Histogram(days), d);
  }

  lemma {:induction false} OccurrencesOfMember(days: seq<int>, d: int)
    requires d in days
    ensures Counting.Occurrences(days, d) >= 1
  {
    if days[|days| - 1] != d {
      assert d in days[..|days| - 1];
      OccurrencesOfMember(days[..|days| - 1], d);
    }
  }

  lemma {:induction false} LookupPositiveHasEntry(hist: seq<Counting.Entry<int>>, d: int)
    requires Counting.Lookup(hist, d) >= 1
    ensures exists e :: e in hist && e.key == d
  {
    if hist[0].key != d {
      LookupPositiveHasEntry(hist[1..], d);
      var e :| e in hist[1..] && e.key == d;
      assert e in hist;
    }
  }

  /** Distinct keys, stated pairwise. */
  lemma {:induction false} DistinctIff(a: seq<Counting.Entry<int>>)
    ensures Counting.DistinctKeys(a) <==> forall i, j :: 0 <= i < j < |a| ==> a[i].key != a[j].key
  {
    if a != [] {
      DistinctIff(a[1..]);
      HasKeyIff(a[1..], a[0].key);
      if Counting.DistinctKeys(a) {
        forall i, j | 0 <= i < j < |a| ensures a[i].key != a[j].key {
          if i > 0 {
            assert a[1..][i - 1] == a[i] && a[1..][j - 1] == a[j];
          } else {
            assert a[1..][j - 1] == a[j];
          }
        }
      }
      if forall i, j :: 0 <= i < j < |a| ==> a[i].key != a[j].key {
        forall i, j | 0 <= i < j < |a[1..]| ensures a[1..][i].key != a[1..][j].key {
          assert a[1..][i] == a[i + 1] && a[1..][j] == a[j + 1];
        }
        forall k | 0 <= k < |a[1..]| ensures a[1..][k].key != a[0].key {
          assert a[1..][k] == a[k + 1];
        }
      }
    }
  }

  lemma {:induction false} HasKeyIff(a: seq<Counting.Entry<int>>, k: int)
    ensures Counting.HasKey(a, k) <==> exists i :: 0 <= i < |a| && a[i].key == k
  {
    if a != [] {
      HasKeyIff(a[1..], k);
      if exists i :: 0 <= i < |a[1..]| && a[1..][i].key == k {
        var i :| 0 <= i < |a[1..]| && a[1..][i].key == k;
        assert a[i + 1].key == k;
      }
      if exists i :: 1 <= i < |a| && a[i].key == k {
        var i :| 1 <= i < |a| && a[i].key == k;
        assert a[1..][i - 1].key == k;
      }
    }
  }

  /**
   * The loop that fills `tasks_per_day`: each grouped row's count is
   * stored under its day.
   */
  method FillTasksPerDay(rows: seq<Counting.Entry<int>>) returns (perDay: map<int, nat>)
    requires Counting.DistinctKeys(rows)
    ensures forall d :: d in perDay <==> exists e :: e in rows && e.key == d
    ensures forall e :: e in rows ==> e.key in perDay && perDay[e.key] == e.count
  {
    DistinctIff(rows);
    perDay := map[];
    var i := 0;
    while i < |rows|
      invariant 0 <= i <= |rows|
      invariant forall d :: d in perDay <==> exists j :: 0 <= j < i && rows[j].key == d
      invariant forall j :: 0 <= j < i ==> rows[j].key in perDay && perDay[rows[j].key] == rows[j].count
    {
      perDay := perDay[rows[i].key := rows[i].count];
      i := i + 1;
    }
    forall d | d in perDay ensures exists e :: e in rows && e.key == d {
      var j :| 0 <= j < |rows| && rows[j].key == d;
      assert rows[j] in rows;
    }
  }

  /**
   * `tasks_per_day`: the recent creation days, each with the number of the
   * caller's tasks created that day.
   */
  method TasksPerDay(tasks: seq<Task>, userId: int, now: Instant) returns (perDay: map<int, nat>)
    ensures forall d :: d in perDay <==> d in RecentDays(tasks, userId, now)
    ensures forall d :: d in perDay ==> perDay[d] == Counting.Occurrences(RecentDays(tasks, userId, now), d)
  {
    var rows := GroupByDay(tasks, userId, now);
    perDay := FillTasksPerDay(rows);
    forall d | d in perDay ensures d in RecentDays(tasks, userId, now) {
      var e :| e in rows && e.key == d;
      Counting.OccurrencesPositive(RecentDays(tasks, userId, now), d);
    }
  }

  // ---------------------------------------------------------------------
  // Upcoming deadlines
  // ---------------------------------------------------------------------

  /** One entry of `upcoming_deadlines`. */
  datatype Deadline = Deadline(id: nat, title: string, dueAt: Option<Instant>, priority: Priority)

  function ByDue(a: Task, b: Task): bool {
    a.dueAt.GetOr(0) <= b.dueAt.GetOr(0)
  }

  function DeadlineOf(t: Task): Deadline {
    Deadline(t.id, t.title, t.dueAt, t.priority)
  }

  function Deadlines(s: seq<Task>): (r: seq<Deadline>)
    ensures |r| == |s| && forall i :: 0 <= i < |s| ==> r[i] == DeadlineOf(s[i])
  {
    if s == [] then [] else [DeadlineOf(s[0])] + Deadlines(s[1..])
  }

  /** The caller's upcoming tasks, earliest due first. */
  function UpcomingSorted(tasks: seq<Task>, userId: int, now: Instant): seq<Task> {
    Sorting.SortBy(Select(Owned(tasks, userId), (t: Task) => IsUpcoming(t, now)), ByDue)
  }

  /**
   * The first ten of them: at most ten tasks, all the caller's, not done
   * and due within seven days, in ascending due order; and no upcoming task
   * left out is due earlier than one listed.
   */
  function Upcoming(tasks: seq<Task>, userId: int, now: Instant): (u: seq<Task>)
    ensures var n := |Select(Owned(tasks, userId), (t: Task) => IsUpcoming(t, now))|;
            |u| == if n < 10 then n else 10
    ensures multiset(u) <= multiset(Select(Owned(tasks, userId), (t: Task) => IsUpcoming(t, now)))
    ensures Sorting.SortedBy(u, ByDue)
    ensures && (forall t :: t in u ==> t in tasks && t.userId == userId && IsUpcoming(t, now))
            && (forall t, x :: t in u && x in tasks && x.userId == userId && IsUpcoming(x, now) && x !in u
                  ==> t.dueAt.value <= x.dueAt.value)
  {
    var cands := Select(Owned(tasks, userId), (t: Task) => IsUpcoming(t, now));
    assert forall t :: t in cands <==> t in tasks && t.userId == userId && IsUpcoming(t, now);
    FirstTenByDue(cands, tasks, userId, now);
    var s := UpcomingSorted(tasks, userId, now);
    Sorting.SortPermutes(cands, ByDue);
    PrefixMultiset(s, if |s| < 10 then |s| else 10);
    s[..if |s| < 10 then |s| else 10]
  }

  /** A prefix holds each element at most as often as the whole sequence. */
  lemma PrefixMultiset<T>(s: seq<T>, n: nat)
    requires n <= |s|
    ensures multiset(s[..n]) <= multiset(s)
  {
    assert s == s[..n] + s[n..];
  }

  /** The first ten of the candidates sorted by due date come first among them. */
  lemma FirstTenByDue(cands: seq<Task>, tasks: seq<Task>, userId: int, now: Instant)
    requires forall t :: t in cands <==> t in tasks && t.userId == userId && IsUpcoming(t, now)
    ensures var s := Sorting.SortBy(cands, ByDue);
            var u := s[..if |s| < 10 then |s| else 10];
            && (forall t :: t in u ==> t in tasks && t.userId == userId && IsUpcoming(t, now))
            && Sorting.SortedBy(u, ByDue)
            && (forall t, x :: t in u && x in tasks && x.userId == userId && IsUpcoming(x, now) && x !in u
                  ==> t.dueAt.value <= x.dueAt.value)
  {
    var s := Sorting.SortBy(cands, ByDue);
    var n := if |s| < 10 then |s| else 10;
    assert Sorting.Total(ByDue) && Sorting.Transitive(ByDue);
    Sorting.SortSorted(cands, ByDue);
    Sorting.SortSameElements(cands, ByDue);
    Sorting.PrefixFirst(s, n, ByDue);
    forall t, x | t in s[..n] && x in tasks && x.userId == userId && IsUpcoming(x, now) && x !in s[..n]
      ensures ByDue(t, x)
    {
      assert x in s;
    }
  }

  /** With ten or fewer candidates, every one of them is listed. */
  lemma UpcomingComplete(tasks: seq<Task>, userId: int, now: Instant)
    requires |Select(Owned(tasks, userId), (t: Task) => IsUpcoming(t, now))| <= 10
    ensures forall t :: t in tasks && t.userId == userId && IsUpcoming(t, now) ==> t in Upcoming(tasks, userId, now)
  {
    Sorting.SortSameElements(Select(Owned(tasks, userId), (t: Task) => IsUpcoming(t, now)), ByDue);
  }

  // ---------------------------------------------------------------------
  // The summary
  // ---------------------------------------------------------------------

  datatype Summary = Summary(
    totalTasks: nat,
    completedTasks: nat,
    overdueTasks: nat,
    completionRate: real,
    tasksPerDay: map<int, nat>,
    upcomingDeadlines: seq<Deadline>)

  /** `get_analytics_summary` over the task table at instant `now`. */
  method GetSummary(tasks: seq<Task>, userId: int, now: Instant) returns (r: Summary)
    ensures r.totalTasks == |Owned(tasks, userId)|
    ensures r.completedTasks == CompletedCount(tasks, userId)
    ensures r.overdueTasks == OverdueCount(tasks, userId, now)
    ensures r.completedTasks + r.overdueTasks <= r.totalTasks
    ensures 0.0 <= r.completionRate <= 100.0
    ensures r.completionRate == CompletionRate(r.completedTasks, r.totalTasks)
    ensures forall d :: d in r.tasksPerDay <==> d in RecentDays(tasks, userId, now)
    ensures forall d :: d in r.tasksPerDay ==> r.tasksPerDay[d] == Counting.Occurrences(RecentDays(tasks, userId, now), d)
    ensures r.upcomingDeadlines == Deadlines(Upcoming(tasks, userId, now))
  {
    var total := |Owned(tasks, userId)|;
    var completed := CompletedCount(tasks, userId);
    var overdue := OverdueCount(tasks, userId, now);
    CountsWithinTotal(tasks, userId, now);
    CompletionRateBounds(completed, total);
    var perDay := TasksPerDay(tasks, userId, now);
    r := Summary(total, completed, overdue, CompletionRate(completed, total), perDay,
                 Deadlines(Upcoming(tasks, userId, now)));
  }
}
