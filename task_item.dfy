/**
 * The task entity and its two enumerations.
 *
 * Times are `DateTime` values counted in ticks of 100 ns; the clock is never read
 * here, so every operation that stamps a time takes `now` as a parameter.
 */
module TaskItemModel {
  import opened Wrappers

  /** A `DateTime`, in ticks of 100 ns. */
  type Time = int

  const TicksPerDay: int := 864_000_000_000

  /** The column constraint on `Title`: at most this many UTF-16 code units. */
  const MaxTitleLength: nat := 200

  /** `TaskStatus`; the wire value of each member is given by `Value`. */
  datatype TaskStatus = Pending | InProgress | Completed {
    function Value(): (v: int)
      ensures 0 <= v <= 2
    {
      match this
      case Pending => 0
      case InProgress => 1
      case Completed => 2
    }
  }

  /** `TaskPriority`; the wire value of each member is given by `Value`. */
  datatype TaskPriority = Low | Medium | High {
    function Value(): (v: int)
      ensures 0 <= v <= 2
    {
      match this
      case Low => 0
      case Medium => 1
      case High => 2
    }
  }

  /** The `TaskStatus` with wire value `v` (an enum cast of a value already checked by `IsInEnum`). */
  function StatusOf(v: int): (s: TaskStatus)
    requires 0 <= v <= 2
    ensures s.Value() == v
  {
    if v == 0 then Pending else if v == 1 then InProgress else Completed
  }

  /** The `TaskPriority` with wire value `v`. */
  function PriorityOf(v: int): (p: TaskPriority)
    requires 0 <= v <= 2
    ensures p.Value() == v
  {
    if v == 0 then Low else if v == 1 then Medium else High
  }

  /** The wire values are exactly 0, 1 and 2, one per member. */
  lemma StatusValueRoundTrip(s: TaskStatus)
    ensures StatusOf(s.Value()) == s
  {
  }

  lemma PriorityValueRoundTrip(p: TaskPriority)
    ensures PriorityOf(p.Value()) == p
  {
  }

  /** A row of the `Tasks` table. `deletedAt == None` means the task is active. */
  datatype TaskItem = TaskItem(
    id: int,
    title: string,
    description: Option<string>,
    status: TaskStatus,
    priority: TaskPriority,
    dueDate: Option<Time>,
    tags: string,
    createdAt: Time,
    updatedAt: Time,
    deletedAt: Option<Time>,
    userId: int)
  {
    predicate IsActive() {
      deletedAt.None?
    }
  }

  /** `new TaskItem()` at time `now`: every property at its declared default. */
  function NewTaskItem(now: Time): (t: TaskItem)
    ensures t.IsActive() && t.status == Pending && t.priority == Medium
    ensures t.tags == "[]" && t.title == "" && t.description.None? && t.dueDate.None?
    ensures t.createdAt == now && t.updatedAt == now
    ensures t.id == 0 && t.userId == 0
  {
    TaskItem(0, "", None, Pending, Medium, None, "[]", now, now, None, 0)
  }
}
