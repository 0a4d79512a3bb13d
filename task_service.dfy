/**
 * The task table together with the scheduler's job table. Every task whose
 * reminder lies in the future has one job, stored under the key
 * "reminder:{id}", that runs `send_reminder(id)` at the reminder instant.
 */
module TaskService {
  import opened Wrappers
  import opened TaskModel
  import Decimal

  /** A one-shot scheduler job that sends the reminder of `taskId` at `runDate`. */
  datatype Job = Job(runDate: Instant, taskId: nat)

  const JobPrefix: string := "reminder:"

  /** The job key `f"reminder:{task.id}"`. */
  function JobId(taskId: nat): (k: string)
    ensures |k| > |JobPrefix| && k[..|JobPrefix|] == JobPrefix
  {
    JobPrefix + Decimal.NatToString(taskId)
  }

  /** Different tasks never share a job key. */
  lemma JobIdInjective(a: nat, b: nat)
    ensures JobId(a) == JobId(b) ==> a == b
  {
    if JobId(a) == JobId(b) {
      assert JobId(a)[|JobPrefix|..] == Decimal.NatToString(a);
      assert JobId(b)[|JobPrefix|..] == Decimal.NatToString(b);
      Decimal.NatToStringInjective(a, b);
    }
  }

  lemma JobIdInjectiveAll()
    ensures forall a: nat, b: nat :: JobId(a) == JobId(b) ==> a == b
  {
    forall a: nat, b: nat ensures JobId(a) == JobId(b) ==> a == b {
      JobIdInjective(a, b);
    }
  }

  /** `task.remind_at and task.remind_at > now`. */
  predicate HasFutureReminder(t: Task, now: Instant) {
    t.remindAt.Some? && t.remindAt.value > now
  }

  // ---------------------------------------------------------------------
  // The reminder test as written, on Python's naive and aware datetimes
  // ---------------------------------------------------------------------

  /**
   * A Python `datetime`: its instant and whether it carries a time zone.
   * A value read back from the task table has none (the columns are
   * `DateTime` without time zone); `datetime.now(timezone.utc)` has one.
   */
  datatype DateTime = DateTime(at: Instant, aware: bool)

  /** What the service raises where the model has no intended counterpart. */
  datatype Raised = TypeError

  /** `a > b`; Python raises TypeError when one side is naive and the other aware. */
  function Later(a: DateTime, b: DateTime): (r: Result<bool, Raised>)
    ensures r.Err? <==> a.aware != b.aware
    ensures r.Ok? ==> (r.value <==> a.at > b.at)
  {
    if a.aware != b.aware then Err(TypeError) else Ok(a.at > b.at)
  }

  /**
   * `task.remind_at and task.remind_at > datetime.now(timezone.utc)` on a
   * task just refreshed from the database, whose reminder is naive.
   */
  function ReminderTestAsWritten(t: Task, now: Instant): (r: Result<bool, Raised>)
    ensures r.Err? <==> t.remindAt.Some?
    ensures r.Ok? ==> !r.value && !HasFutureReminder(t, now)
  {
    if t.remindAt.None? then Ok(false)
    else Later(DateTime(t.remindAt.value, false), DateTime(now, true))
  }

  /**
   * A task whose reminder lies after `now` is exactly one that should get a
   * job, yet the test as written raises on it instead of answering true.
   */
  lemma FutureReminderRaisesAsWritten(t: Task, now: Instant)
    requires HasFutureReminder(t, now)
    ensures ReminderTestAsWritten(t, now) == Err(TypeError)
  {
  }

  /** The request that shows it: a reminder one hour from now on a new task. */
  lemma NewTaskWithReminderRaisesAsWritten(id: nat, userId: int, now: Instant)
    ensures var t := NewTask(id, userId, TaskCreate("t", None, Medium, None, Some(now + 3600)), now);
            HasFutureReminder(t, now) && ReminderTestAsWritten(t, now).Err?
  {
  }

  function ReminderJob(t: Task): Job
    requires t.remindAt.Some?
  {
    Job(t.remindAt.value, t.id)
  }

  /** Each job belongs to a stored task, sits under that task's key and fires at its reminder. */
  predicate JobsConsistent(tasks: map<nat, Task>, jobs: map<string, Job>) {
    forall k :: k in jobs ==>
      && jobs[k].taskId in tasks
      && k == JobId(jobs[k].taskId)
      && tasks[jobs[k].taskId].remindAt == Some(jobs[k].runDate)
  }

  /** Replacing a task and dropping its job keeps the jobs consistent. */
  lemma ReplaceKeepsConsistent(tasks: map<nat, Task>, jobs: map<string, Job>, t: Task)
    requires JobsConsistent(tasks, jobs)
    ensures JobsConsistent(tasks[t.id := t], jobs - {JobId(t.id)})
  {
  }

  /** Scheduling a stored task's reminder under its own key keeps the jobs consistent. */
  lemma ScheduleKeepsConsistent(tasks: map<nat, Task>, jobs: map<string, Job>, t: Task)
    requires JobsConsistent(tasks, jobs) && t.remindAt.Some?
    requires t.id in tasks && tasks[t.id] == t
    ensures JobsConsistent(tasks, jobs[JobId(t.id) := ReminderJob(t)])
  {
  }

  /** Consistency leaves at most one job per task. */
  lemma AtMostOneJobPerTask(tasks: map<nat, Task>, jobs: map<string, Job>, k1: string, k2: string)
    requires JobsConsistent(tasks, jobs)
    requires k1 in jobs && k2 in jobs && jobs[k1].taskId == jobs[k2].taskId
    ensures k1 == k2
  {
  }

  /** The ids of the tasks whose reminder is still to come. */
  function FutureIds(tasks: map<nat, Task>, now: Instant): set<nat> {
    set id | id in tasks && HasFutureReminder(tasks[id], now)
  }

  /** Every task in `ids` has its own reminder job under its key. */
  predicate Scheduled(tasks: map<nat, Task>, jobs: map<string, Job>, ids: set<nat>)
    requires forall id :: id in ids ==> id in tasks && tasks[id].remindAt.Some?
  {
    forall id :: id in ids ==> JobId(id) in jobs && jobs[JobId(id)] == ReminderJob(tasks[id])
  }

  /** Jobs were only added or replaced, and only for tasks in `ids`. */
  predicate OnlyScheduledFor(oldJobs: map<string, Job>, jobs: map<string, Job>, ids: set<nat>) {
    && (forall k :: k in oldJobs ==> k in jobs)
    && (forall k :: k in jobs && (k !in oldJobs || jobs[k] != oldJobs[k]) ==> jobs[k].taskId in ids)
  }

  /**
   * The partial update: a field whose request value is given overwrites the
   * stored one, every other field keeps its value, and `updated_at` becomes
   * the update instant.
   */
  function ApplyUpdate(t: Task, req: TaskUpdate, now: Instant): (u: Task)
    ensures u.id == t.id && u.userId == t.userId && u.createdAt == t.createdAt && u.updatedAt == now
    ensures u.title == req.title.GetOr(t.title)
    ensures u.description == (if req.description.Some? then req.description else t.description)
    ensures u.priority == req.priority.GetOr(t.priority)
    ensures u.dueAt == (if req.dueAt.Some? then req.dueAt else t.dueAt)
    ensures u.remindAt == (if req.remindAt.Some? then req.remindAt else t.remindAt)
    ensures u.status == req.status.GetOr(t.status)
  {
    var t1 := if req.title.Some? then t.(title := req.title.value) else t;
    var t2 := if req.description.Some? then t1.(description := req.description) else t1;
    var t3 := if req.priority.Some? then t2.(priority := req.priority.value) else t2;
    var t4 := if req.dueAt.Some? then t3.(dueAt := req.dueAt) else t3;
    var t5 := if req.remindAt.Some? then t4.(remindAt := req.remindAt) else t4;
    var t6 := if req.status.Some? then t5.(status := req.status.value) else t5;
    t6.(updatedAt := now)
  }

  /** An update that gives no field only refreshes `updated_at`. */
  lemma EmptyUpdateOnlyTouchesTimestamp(t: Task, now: Instant)
    ensures ApplyUpdate(t, TaskUpdate(None, None, None, None, None, None), now) == t.(updatedAt := now)
  {
  }

  /** Applying the same update twice is the same as applying it once. */
  lemma ApplyUpdateIdempotent(t: Task, req: TaskUpdate, now: Instant)
    ensures ApplyUpdate(ApplyUpdate(t, req, now), req, now) == ApplyUpdate(t, req, now)
  {
  }

  class TaskStore {
    /** The task table, keyed by id. */
    var tasks: map<nat, Task>
    /** The scheduler's job store, keyed by job id. */
    var jobs: map<string, Job>
    /** The id the database assigns to the next inserted task. */
    var nextId: nat

    ghost predicate Valid()
      reads this
    {
      && nextId >= 1
      && (forall id :: id in tasks ==> 1 <= id < nextId && tasks[id].id == id)
      && JobsConsistent(tasks, jobs)
    }

    constructor ()
      ensures Valid() && tasks == map[] && jobs == map[] && nextId == 1
    {
      tasks, jobs, nextId := map[], map[], 1;
    }

    /**
     * `create_task_with_reminder`: inserts the task (fresh id, fields copied
     * from the request, owner from the caller) and schedules its reminder job
     * iff the reminder is set and strictly after `now`.
     */
    method CreateTaskWithReminder(userId: int, req: TaskCreate, now: Instant) returns (t: Task)
      requires Valid()
      modifies this
      ensures Valid()
      ensures t == NewTask(old(nextId), userId, req, now) && t.id !in old(tasks)
      ensures tasks == old(tasks)[t.id := t] && nextId == old(nextId) + 1
      ensures jobs == if HasFutureReminder(t, now) then old(jobs)[JobId(t.id) := ReminderJob(t)] else old(jobs)
    {
      t := NewTask(nextId, userId, req, now);
      tasks := tasks[t.id := t];
      nextId := nextId + 1;
      if HasFutureReminder(t, now) {
        jobs := jobs[JobId(t.id) := ReminderJob(t)];
      }
    }

    /**
     * `create_task_with_reminder` as written: the row is committed and
     * refreshed before the reminder test, so a task with any reminder keeps
     * its row, gets no job, and the call raises (the endpoint answers 500).
     */
    method CreateTaskWithReminderAsWritten(userId: int, req: TaskCreate, now: Instant)
      returns (r: Result<Task, Raised>)
      requires Valid()
      modifies this
      ensures Valid()
      ensures tasks == old(tasks)[old(nextId) := NewTask(old(nextId), userId, req, now)]
      ensures nextId == old(nextId) + 1 && jobs == old(jobs)
      ensures r.Err? <==> req.remindAt.Some?
      ensures r.Ok? ==> r.value == NewTask(old(nextId), userId, req, now)
    {
      var t := NewTask(nextId, userId, req, now);
      tasks := tasks[t.id := t];
      nextId := nextId + 1;
      var future := ReminderTestAsWritten(t, now);
      if future.Err? {
        return Err(future.error);
      }
      // the test only returns when there is no reminder, so no job is added
      r := Ok(t);
    }

    /**
     * `update_task_with_reminder` as written: the update is committed and the
     * old job removed before the reminder test, so a task left with any
     * reminder keeps the update, has no job, and the call raises.
     */
    method UpdateTaskWithReminderAsWritten(id: nat, req: TaskUpdate, now: Instant)
      returns (r: Result<Task, Raised>)
      requires Valid() && id in tasks
      modifies this
      ensures Valid()
      ensures tasks == old(tasks)[id := ApplyUpdate(old(tasks[id]), req, now)] && nextId == old(nextId)
      ensures jobs == old(jobs) - {JobId(id)}
      ensures r.Err? <==> ApplyUpdate(old(tasks[id]), req, now).remindAt.Some?
      ensures r.Ok? ==> r.value == ApplyUpdate(old(tasks[id]), req, now)
    {
      var t := ApplyUpdate(tasks[id], req, now);
      ReplaceKeepsConsistent(tasks, jobs, t);
      tasks := tasks[id := t];
      jobs := jobs - {JobId(id)};
      var future := ReminderTestAsWritten(t, now);
      if future.Err? {
        return Err(future.error);
      }
      r := Ok(t);
    }

    /**
     * `update_task_with_reminder`: overwrites the given fields, stamps
     * `updated_at`, drops the old job (a missing one is ignored) and schedules
     * a new one iff the merged reminder is in the future.
     */
    method UpdateTaskWithReminder(id: nat, req: TaskUpdate, now: Instant) returns (t: Task)
      requires Valid() && id in tasks
      modifies this
      ensures Valid()
      ensures t == ApplyUpdate(old(tasks[id]), req, now)
      ensures tasks == old(tasks)[id := t] && nextId == old(nextId)
      ensures jobs == if HasFutureReminder(t, now) then old(jobs)[JobId(id) := ReminderJob(t)]
                      else old(jobs) - {JobId(id)}
      ensures JobId(id) in jobs <==> HasFutureReminder(t, now)
    {
      t := ApplyUpdate(tasks[id], req, now);
      ReplaceKeepsConsistent(tasks, jobs, t);
      tasks := tasks[id := t];
      // remove_job raises when the job does not exist; the error is swallowed
      jobs := jobs - {JobId(id)};
      if HasFutureReminder(t, now) {
        ScheduleKeepsConsistent(tasks, jobs, t);
        jobs := jobs[JobId(id) := ReminderJob(t)];
      }
    }

    /**
     * `delete_task_with_reminder`: removes the task's job (ignoring a missing
     * one) and the task; every other task and job is left as it was.
     */
    method DeleteTaskWithReminder(id: nat)
      requires Valid() && id in tasks
      modifies this
      ensures Valid()
      ensures tasks == old(tasks) - {id} && nextId == old(nextId)
      ensures jobs == old(jobs) - {JobId(id)}
      ensures forall o: nat :: o != id ==> (JobId(o) in jobs <==> JobId(o) in old(jobs))
    {
      JobIdInjectiveAll();
      jobs := jobs - {JobId(id)};
      tasks := tasks - {id};
    }

    /**
     * `rebuild_reminder_jobs`: (re)schedules one job, replacing any job with
     * the same key, for every task whose reminder is in the future.
     */
    method RebuildReminderJobs(now: Instant)
      requires Valid()
      modifies this
      ensures Valid()
      ensures tasks == old(tasks) && nextId == old(nextId)
      ensures Scheduled(tasks, jobs, FutureIds(tasks, now))
      ensures OnlyScheduledFor(old(jobs), jobs, FutureIds(tasks, now))
    {
      var pending := FutureIds(tasks, now);
      ghost var done: set<nat> := {};
      while pending != {}
        invariant pending !! done && pending + done == FutureIds(tasks, now)
        invariant tasks == old(tasks) && nextId == old(nextId)
        invariant Scheduled(tasks, jobs, done)
        invariant OnlyScheduledFor(old(jobs), jobs, done)
        invariant Valid()
        decreases pending
      {
        var id :| id in pending;
        forall i | i in done ensures JobId(i) != JobId(id) {
          JobIdInjective(i, id);
        }
        jobs := jobs[JobId(id) := ReminderJob(tasks[id])];
        pending := pending - {id};
        done := done + {id};
      }
    }
  }
}
