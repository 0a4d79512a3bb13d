/**
 * The task record and its two enumerations, with the request shapes used to
 * create and partially update a task. Instants are whole seconds since the
 * UTC epoch.
 */
module TaskModel {
  import opened Wrappers

  type Instant = int

  datatype Priority = Low | Medium | High

  datatype Status = Todo | InProgress | Done

  /** The wire value of a priority. */
  function PriorityValue(p: Priority): string {
    match p
    case Low => "low"
    case Medium => "medium"
    case High => "high"
  }

  /** The wire value of a status. */
  function StatusValue(s: Status): string {
    match s
    case Todo => "todo"
    case InProgress => "in_progress"
    case Done => "done"
  }

  /** `Priority(value)`: only the three wire values are accepted. */
  function ParsePriority(s: string): (r: Option<Priority>)
    ensures r.Some? <==> s in {"low", "medium", "high"}
    ensures r.Some? ==> PriorityValue(r.value) == s
  {
    if s == "low" then Some(Low)
    else if s == "medium" then Some(Medium)
    else if s == "high" then Some(High)
    else None
  }

  /** `Status(value)`: only the three wire values are accepted. */
  function ParseStatus(s: string): (r: Option<Status>)
    ensures r.Some? <==> s in {"todo", "in_progress", "done"}
    ensures r.Some? ==> StatusValue(r.value) == s
  {
    if s == "todo" then Some(Todo)
    else if s == "in_progress" then Some(InProgress)
    else if s == "done" then Some(Done)
    else None
  }

  /** Every priority has a distinct wire value that parses back to it. */
  lemma PriorityValueRoundTrip(p: Priority, q: Priority)
    ensures ParsePriority(PriorityValue(p)) == Some(p)
    ensures PriorityValue(p) == PriorityValue(q) ==> p == q
  {
    match p
    case Low =>
    case Medium =>
    case High =>
  }

  /** Every status has a distinct wire value that parses back to it. */
  lemma StatusValueRoundTrip(s: Status, t: Status)
    ensures ParseStatus(StatusValue(s)) == Some(s)
    ensures StatusValue(s) == StatusValue(t) ==> s == t
  {
    match s
    case Todo =>
    case InProgress =>
    case Done =>
  }

  /** A row of the task table. */
  datatype Task = Task(
    id: nat,
    userId: int,
    title: string,
    description: Option<string>,
    priority: Priority,
    dueAt: Option<Instant>,
    remindAt: Option<Instant>,
    status: Status,
    createdAt: Instant,
    updatedAt: Instant)

  /** Body of a create request; priority defaults to medium. */
  datatype TaskCreate = TaskCreate(
    title: string,
    description: Option<string>,
    priority: Priority,
    dueAt: Option<Instant>,
    remindAt: Option<Instant>)

  /** Body of a partial update; `None` means "keep the stored value". */
  datatype TaskUpdate = TaskUpdate(
    title: Option<string>,
    description: Option<string>,
    priority: Option<Priority>,
    dueAt: Option<Instant>,
    remindAt: Option<Instant>,
    status: Option<Status>)

  /** A create request that gives only a title. */
  function DefaultCreate(title: string): TaskCreate {
    TaskCreate(title, None, Medium, None, None)
  }

  /**
   * `Task(...)` as the service builds it: the required title and owner, the
   * request's optional fields, status defaulting to todo and both
   * timestamps set to the creation instant.
   */
  function NewTask(id: nat, userId: int, req: TaskCreate, now: Instant): (t: Task)
    ensures t.id == id && t.userId == userId && t.title == req.title
    ensures t.description == req.description && t.priority == req.priority
    ensures t.dueAt == req.dueAt && t.remindAt == req.remindAt
    ensures t.status == Todo && t.createdAt == now && t.updatedAt == now
  {
    Task(id, userId, req.title, req.description, req.priority, req.dueAt, req.remindAt, Todo, now, now)
  }

  /** A task created from a title alone is medium priority, todo, with no optional field set. */
  lemma NewTaskDefaults(id: nat, userId: int, title: string, now: Instant)
    ensures var t := NewTask(id, userId, DefaultCreate(title), now);
            t.priority == Medium && t.status == Todo
            && t.description.None? && t.dueAt.None? && t.remindAt.None?
  {
  }
}
