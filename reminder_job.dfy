/**
 * The reminder job: when a task's reminder fires, a notification record is
 * written for the task's owner, the web-push and e-mail senders are called,
 * and the record is marked delivered.
 *
 * The notification table is a sequence of rows whose ids are assigned by
 * autoincrement (row i has id i + 1). The two senders are outside this model;
 * their calls are recorded, in order, in an event trace next to the table, so
 * that "the record is stored before anything is sent" is a statement about
 * the trace.
 */
module ReminderJob {
  import opened Wrappers
  import opened TaskModel

  datatype Channel = WebPush | Email

  /** The wire value of a channel. */
  function ChannelValue(c: Channel): string {
    match c
    case WebPush => "web_push"
    case Email => "email"
  }

  /** The JSON payload stored with a reminder: title, body and the task's id. */
  datatype Payload = Payload(title: string, body: string, taskId: nat)

  /** A row of the notification table. */
  datatype Notification = Notification(
    id: nat,
    userId: int,
    taskId: Option<nat>,
    channel: Channel,
    scheduledFor: Instant,
    deliveredAt: Option<Instant>,
    payload: Payload)

  /** What the job did, in the order it did it. */
  datatype Event =
    | Stored(id: nat)
    | PushAttempted(userId: int, notificationId: nat)
    | EmailAttempted(userId: int, taskId: nat)
    | Delivered(id: nat)

  const TitlePrefix: string := "Reminder: "
  const DefaultBody: string := "Task reminder"

  /**
   * `remind_at or due_at or now`: an instant is always truthy, so the first
   * one that is present wins.
   */
  function ScheduledFor(t: Task, now: Instant): (s: Instant)
    ensures t.remindAt.Some? ==> s == t.remindAt.value
    ensures t.remindAt.None? && t.dueAt.Some? ==> s == t.dueAt.value
    ensures t.remindAt.None? && t.dueAt.None? ==> s == now
  {
    match t.remindAt
    case Some(r) => r
    case None => t.dueAt.GetOr(now)
  }

  /** `description or "Task reminder"`: a missing or empty description gives the default. */
  function ReminderBody(description: Option<string>): (b: string)
    ensures |b| > 0
    ensures b == DefaultBody <==> description.None? || description.value == "" || description.value == DefaultBody
    ensures b != DefaultBody ==> description == Some(b)
  {
    match description
    case Some(d) => if d == "" then DefaultBody else d
    case None => DefaultBody
  }

  /** The payload of a task's reminder. */
  function ReminderPayload(t: Task): (p: Payload)
    ensures |p.title| == |TitlePrefix| + |t.title| && p.title[..|TitlePrefix|] == TitlePrefix
    ensures p.body == ReminderBody(t.description) && p.taskId == t.id
  {
    Payload(TitlePrefix + t.title, ReminderBody(t.description), t.id)
  }

  /** The task's title, recovered from a payload title by removing the prefix. */
  function TaskTitle(title: string): (r: Option<string>)
    ensures r.Some? <==> |title| >= |TitlePrefix| && title[..|TitlePrefix|] == TitlePrefix
  {
    if |title| >= |TitlePrefix| && title[..|TitlePrefix|] == TitlePrefix then Some(title[|TitlePrefix|..]) else None
  }

  /** The payload title always gives the task's title back. */
  lemma ReminderTitleRoundTrip(t: Task)
    ensures TaskTitle(ReminderPayload(t).title) == Some(t.title)
  {
    var title := ReminderPayload(t).title;
    assert title[|TitlePrefix|..] == t.title;
  }

  /** Two tasks whose reminders carry the same payload have the same id, title and body. */
  lemma ReminderPayloadInjective(t: Task, u: Task)
    requires ReminderPayload(t) == ReminderPayload(u)
    ensures t.id == u.id && t.title == u.title
    ensures ReminderBody(t.description) == ReminderBody(u.description)
  {
    ReminderTitleRoundTrip(t);
    ReminderTitleRoundTrip(u);
  }

  /** The record a reminder stores before anything is sent: channel web push, not yet delivered. */
  function NewNotification(id: nat, t: Task, now: Instant): (n: Notification)
    ensures n.id == id && n.userId == t.userId && n.taskId == Some(t.id)
    ensures n.channel == WebPush && n.deliveredAt.None?
    ensures n.scheduledFor == ScheduledFor(t, now) && n.payload == ReminderPayload(t)
  {
    Notification(id, t.userId, Some(t.id), WebPush, ScheduledFor(t, now), None, ReminderPayload(t))
  }

  /** The events of one reminder for task `t` recorded as notification `id`. */
  function ReminderEvents(id: nat, t: Task): (es: seq<Event>)
    ensures |es| == 4 && es[0] == Stored(id) && es[3] == Delivered(id)
    ensures es[1].PushAttempted? && es[2].EmailAttempted?
  {
    [Stored(id), PushAttempted(t.userId, id), EmailAttempted(t.userId, t.id), Delivered(id)]
  }

  /** Row i has id i + 1. */
  ghost predicate IdsArePositions(rows: seq<Notification>) {
    forall i :: 0 <= i < |rows| ==> rows[i].id == i + 1
  }

  /** Every reminder stored by the job is marked delivered once the job has finished. */
  ghost predicate AllDelivered(rows: seq<Notification>) {
    forall i :: 0 <= i < |rows| ==> rows[i].deliveredAt.Some?
  }

  class NotificationLog {
    var rows: seq<Notification>
    var trace: seq<Event>

    ghost predicate Valid()
      reads this
    {
      IdsArePositions(rows) && AllDelivered(rows)
    }

    constructor ()
      ensures Valid() && rows == [] && trace == []
    {
      rows := [];
      trace := [];
    }

    /**
     * `send_reminder(task_id)`. `now` is the clock when the record is built
     * (the last fallback of `scheduled_for`); `later` is the clock when it
     * is marked delivered. An unknown task id changes nothing. Otherwise a
     * record is appended and committed, both senders are called, and the
     * record's `delivered_at` is set whatever they did.
     */
    method SendReminder(tasks: map<nat, Task>, taskId: nat, now: Instant, later: Instant)
      requires Valid()
      modifies this
      ensures Valid()
      ensures taskId !in tasks ==> rows == old(rows) && trace == old(trace)
      ensures taskId in tasks ==>
        var id := |old(rows)| + 1;
        rows == old(rows) + [NewNotification(id, tasks[taskId], now).(deliveredAt := Some(later))]
        && trace == old(trace) + ReminderEvents(id, tasks[taskId])
    {
      if taskId !in tasks {
        return;
      }
      var task := tasks[taskId];
      var id := |rows| + 1;
      var notification := NewNotification(id, task, now);
      rows := rows + [notification];
      trace := trace + [Stored(id)];
      trace := trace + [PushAttempted(task.userId, id)];
      trace := trace + [EmailAttempted(task.userId, task.id)];
      rows := rows[id - 1 := notification.(deliveredAt := Some(later))];
      trace := trace + [Delivered(id)];
    }
  }
}
