/**
 * One row of the task list: the status toggle, the display texts, the tag
 * parser, the overdue flag, which buttons a row offers, and the in-place editor
 * whose state (`isEditing`, `editData`) the Edit, Save and Cancel buttons change.
 */
module TaskItemView {
  import opened Wrappers
  import opened Text
  import opened Json
  import opened ClientTask
  import TaskForm

  /** A point in time as the browser's `Date` compares it (milliseconds). */
  type Millis = int

  // ---------------------------------------------------------------------------
  // Status toggle

  /** Completed goes back to Pending; every other status becomes Completed. */
  function ToggledStatus(status: int): (r: int)
    ensures r == Pending || r == Completed
    ensures r == Completed <==> status != Completed
  {
    if status == Completed then Pending else Completed
  }

  /** `handleStatusToggle`: the id and the data handed to `onUpdate`. */
  function StatusToggle(task: Task): (r: (int, Task))
    ensures r.0 == task.id
    ensures r.1.status == ToggledStatus(task.status)
    ensures r.1.(status := task.status) == task
  {
    (task.id, task.(status := ToggledStatus(task.status)))
  }

  /** Toggling twice restores Pending and Completed; In Progress ends up Pending. */
  lemma ToggleTwice(task: Task)
    ensures task.status == Pending || task.status == Completed ==> StatusToggle(StatusToggle(task).1).1 == task
    ensures task.status != Pending && task.status != Completed ==> StatusToggle(StatusToggle(task).1).1 == task.(status := Pending)
  {
  }

  // ---------------------------------------------------------------------------
  // Display texts

  /** `getStatusText`, including its spelling of the fall-back text. */
  function StatusText(status: int): string {
    if status == Pending then "Pending"
    else if status == InProgress then "In Progress"
    else if status == Completed then "Completed"
    else "Uknown"
  }

  /** `getPriorityText`: `undefined` (here `None`) for a value outside the enumeration. */
  function PriorityText(priority: int): Option<string> {
    if priority == Low then Some("Low")
    else if priority == Medium then Some("Medium")
    else if priority == High then Some("High")
    else None
  }

  /** The three statuses have three different texts, and only other values show the fall-back. */
  lemma StatusTextsDistinct(a: int, b: int)
    ensures 0 <= a <= 2 && 0 <= b <= 2 && a != b ==> StatusText(a) != StatusText(b)
    ensures StatusText(a) == "Uknown" <==> !(0 <= a <= 2)
  {
  }

  /** A priority has a text exactly when it is Low, Medium or High, and different ones differ. */
  lemma PriorityTextsDistinct(a: int, b: int)
    ensures PriorityText(a).Some? <==> 0 <= a <= 2
    ensures PriorityText(a).Some? && PriorityText(b).Some? && a != b ==> PriorityText(a) != PriorityText(b)
  {
  }

  // ---------------------------------------------------------------------------
  // Tags and the overdue flag

  /**
   * `parseTags`: the array the tag text holds, or [] when it is not JSON. Only
   * arrays of strings and nulls are read; other JSON counts as a parse failure.
   */
  function ParseTags(tags: string): seq<Item> {
    match ParseStringArray(tags)
    case Some(items) => items
    case None => []
  }

  /** The tags a row shows are exactly those typed into the task form. */
  lemma ShowsTypedTags(input: string)
    ensures ParseTags(TaskForm.TagsPayload(input)) == Strs(TaskForm.CleanTags(input))
  {
    TaskForm.TagsRoundTrip(input);
  }

  /** Text that is not an array shows no tags. */
  lemma NonArrayShowsNothing(tags: string)
    requires SkipWhiteSpace(tags) == [] || SkipWhiteSpace(tags)[0] != '['
    ensures ParseTags(tags) == []
  {
    NotAnArray(tags);
  }

  /** A due date is set: present and not the empty string. */
  predicate HasDueDate(task: Task) {
    task.dueDate.Some? && task.dueDate.value != ""
  }

  /**
   * `isOverdue`: a due date that lies before `now` on a task that is not completed.
   * `parse` is `new Date(text)`; `None` is an invalid date, which compares false.
   */
  predicate IsOverdue(task: Task, now: Millis, parse: string -> Option<Millis>) {
    HasDueDate(task) && parse(task.dueDate.value).Some? && parse(task.dueDate.value).value < now
    && task.status != Completed
  }

  /** Completed tasks and tasks without a due date are never overdue; overdue stays overdue as time passes. */
  lemma OverdueRules(task: Task, now: Millis, later: Millis, parse: string -> Option<Millis>)
    ensures task.status == Completed || !HasDueDate(task) ==> !IsOverdue(task, now, parse)
    ensures IsOverdue(task, now, parse) && now <= later ==> IsOverdue(task, later, parse)
  {
  }

  /** Toggling an overdue task completes it and clears the flag; toggling back restores it. */
  lemma ToggleClearsOverdue(task: Task, now: Millis, parse: string -> Option<Millis>)
    requires IsOverdue(task, now, parse)
    ensures !IsOverdue(StatusToggle(task).1, now, parse)
    ensures task.status == Pending ==> IsOverdue(StatusToggle(StatusToggle(task).1).1, now, parse)
  {
  }

  /** The row of the component's tests: a pending task due at an earlier instant is overdue. */
  lemma OverdueExample(task: Task, due: Millis, now: Millis, parse: string -> Option<Millis>)
    requires task.status == Pending && task.dueDate == Some("2025-08-01T00:00:00Z")
    requires parse("2025-08-01T00:00:00Z") == Some(due) && due < now
    ensures IsOverdue(task, now, parse)
  {
  }

  // ---------------------------------------------------------------------------
  // Row actions

  datatype Action = Toggle | EditTask | Delete | Restore

  /** A soft-deleted row (a non-empty `deletedAt`) offers only Restore; other rows toggle, edit and delete. */
  function Actions(task: Task): (r: seq<Action>)
    ensures Restore in r <==> task.deletedAt.Some? && task.deletedAt.value != ""
    ensures Restore in r ==> r == [Restore]
  {
    if task.deletedAt.Some? && task.deletedAt.value != "" then [Restore] else [Toggle, EditTask, Delete]
  }

  // ---------------------------------------------------------------------------
  // The editor

  /** The editor's fields; the due date is the `yyyy-mm-dd` text of a date input. */
  datatype EditData = EditData(title: string, description: string, status: int, priority: int,
                               dueDate: string, tags: string)

  /** `task.dueDate.split('T')[0]`. */
  function DatePart(d: string): (r: string)
    ensures 'T' !in r
  {
    Split(d, 'T')[0]
  }

  /** The date part is what precedes the first 'T', or the whole text when there is none. */
  lemma DatePartIsPrefix(d: string)
    ensures |DatePart(d)| <= |d| && d[..|DatePart(d)|] == DatePart(d)
    ensures |DatePart(d)| < |d| ==> d[|DatePart(d)|] == 'T'
    ensures 'T' !in d ==> DatePart(d) == d
  {
    JoinSplit(d, 'T');
    var parts := Split(d, 'T');
    if |parts| > 1 {
      assert Join(parts, "T") == parts[0] + "T" + Join(parts[1..], "T");
    }
    if 'T' !in d {
      SplitNoSeparator(d, 'T');
    }
  }

  /** The date part of an ISO date-time (`2025-09-05T00:00:00Z`) is its date. */
  lemma DatePartOfDateTime(date: string, time: string)
    requires 'T' !in date
    ensures DatePart(date + "T" + time) == date
  {
    SplitAppend(date, time, 'T');
    SplitNoSeparator(date, 'T');
  }

  /** The editor's data for a task: missing description and due date become "". */
  function EditDataOf(task: Task): (e: EditData)
    ensures e.title == task.title && e.status == task.status && e.priority == task.priority && e.tags == task.tags
    ensures e.description == task.description.GetOr("")
    ensures e.dueDate == if HasDueDate(task) then DatePart(task.dueDate.value) else ""
  {
    EditData(task.title, task.description.GetOr(""), task.status, task.priority,
             if HasDueDate(task) then DatePart(task.dueDate.value) else "", task.tags)
  }

  /** What Save sends: the editor's fields with an empty due date sent as `null` (`None`). */
  datatype SavePayload = SavePayload(title: string, description: string, status: int, priority: int,
                                     dueDate: Option<string>, tags: string)

  function Saved(e: EditData): (p: SavePayload)
    ensures p.dueDate.None? <==> e.dueDate == ""
  {
    SavePayload(e.title, e.description, e.status, e.priority,
                if e.dueDate == "" then None else Some(e.dueDate), e.tags)
  }

  /** A change typed into one of the editor's inputs. */
  datatype EditChange = SetTitle(text: string) | SetDescription(text: string) | SetStatus(value: int)
                      | SetPriority(value: int) | SetDueDate(text: string)

  function ApplyChange(e: EditData, c: EditChange): EditData {
    match c
    case SetTitle(t) => e.(title := t)
    case SetDescription(t) => e.(description := t)
    case SetStatus(v) => e.(status := v)
    case SetPriority(v) => e.(priority := v)
    case SetDueDate(t) => e.(dueDate := t)
  }

  /** Saving without changes sends the task's own values, its due date cut to the date. */
  lemma SaveUnchanged(task: Task)
    ensures Saved(EditDataOf(task)).title == task.title
    ensures Saved(EditDataOf(task)).description == task.description.GetOr("")
    ensures Saved(EditDataOf(task)).status == task.status && Saved(EditDataOf(task)).priority == task.priority
    ensures Saved(EditDataOf(task)).tags == task.tags
    ensures !HasDueDate(task) ==> Saved(EditDataOf(task)).dueDate.None?
    ensures HasDueDate(task) && DatePart(task.dueDate.value) != "" ==>
      Saved(EditDataOf(task)).dueDate == Some(DatePart(task.dueDate.value))
  {
  }

  /**
   * Editing only the title of a task due at `date`T`time` saves the new title with
   * everything else as loaded and the due date cut to `date`.
   */
  lemma SaveAfterTitleEdit(task: Task, title: string, date: string, time: string)
    requires task.dueDate == Some(date + "T" + time) && 'T' !in date && date != ""
    ensures Saved(ApplyChange(EditDataOf(task), SetTitle(title)))
         == SavePayload(title, task.description.GetOr(""), task.status, task.priority, Some(date), task.tags)
  {
    DatePartOfDateTime(date, time);
  }

  /**
   * One mounted row. React keys rows by task id, so after a reload the same component
   * receives the fresh task as its `task` prop while `editData`, a piece of state set
   * only at mount and by the editor, keeps what it held.
   */
  class TaskRow {
    var task: Task
    var isEditing: bool
    var editData: EditData

    constructor (task: Task)
      ensures this.task == task && !isEditing && editData == EditDataOf(task)
    {
      this.task := task;
      isEditing := false;
      editData := EditDataOf(task);
    }

    /** A re-render with a new `task` prop: the state hooks keep their values. */
    method Rerender(t: Task)
      modifies this
      ensures task == t && editData == old(editData) && isEditing == old(isEditing)
    {
      task := t;
    }

    /** `handleEdit`. */
    method HandleEdit()
      modifies this
      ensures isEditing && editData == old(editData) && task == old(task)
    {
      isEditing := true;
    }

    /** One of the editor's `onChange` handlers. */
    method HandleChange(c: EditChange)
      modifies this
      ensures editData == ApplyChange(old(editData), c) && isEditing == old(isEditing) && task == old(task)
    {
      editData := ApplyChange(editData, c);
    }

    /** `handleSave`: the id of the current task and the payload of the edits go to `onUpdate`; the editor closes. */
    method HandleSave() returns (id: int, payload: SavePayload)
      modifies this
      ensures id == task.id && payload == Saved(old(editData))
      ensures !isEditing && editData == old(editData) && task == old(task)
    {
      id := task.id;
      payload := SavePayload(editData.title, editData.description, editData.status, editData.priority,
                             if editData.dueDate == "" then None else Some(editData.dueDate), editData.tags);
      isEditing := false;
    }

    /** `handleCancel`: the edits are replaced by the current task's data and the editor closes. */
    method HandleCancel()
      modifies this
      ensures !isEditing && editData == EditDataOf(task) && task == old(task)
    {
      editData := EditData(task.title, task.description.GetOr(""), task.status, task.priority,
                           if task.dueDate.Some? && task.dueDate.value != "" then Split(task.dueDate.value, 'T')[0] else "",
                           task.tags);
      isEditing := false;
    }
  }

  /**
   * A row mounted with `t0` and re-rendered with `t1` (its status toggled and reloaded),
   * then opened and saved without edits, sends `t0`'s status again: the stale editor data
   * undoes the toggle. Cancelling first would have refreshed the editor from `t1`.
   */
  method SaveAfterReload(t0: Task, t1: Task) returns (id: int, payload: SavePayload)
    requires t1 == StatusToggle(t0).1
    requires t0.status == Pending || t0.status == Completed
    ensures id == t0.id && payload == Saved(EditDataOf(t0))
    ensures payload.status == t0.status && payload.status != t1.status
  {
    var row := new TaskRow(t0);
    row.Rerender(t1);
    row.HandleEdit();
    id, payload := row.HandleSave();
  }

  /** Cancelling after a reload refreshes the editor, so a save then keeps the toggle. */
  method CancelThenSaveAfterReload(t0: Task, t1: Task) returns (id: int, payload: SavePayload)
    requires t1 == StatusToggle(t0).1
    ensures id == t0.id && payload == Saved(EditDataOf(t1)) && payload.status == ToggledStatus(t0.status)
  {
    var row := new TaskRow(t0);
    row.Rerender(t1);
    row.HandleEdit();
    row.HandleCancel();
    row.HandleEdit();
    id, payload := row.HandleSave();
  }
}
