/**
 * The request bodies of the task endpoints. Enumerations travel as their raw
 * integer values: a C# enum property can hold any integer, which is why the
 * validators check `IsInEnum`.
 */
module TaskDtos {
  import opened Wrappers
  import opened TaskItemModel
  import opened Text

  /** The bound of `[MaxLength(200)]` on `Title`. */
  const AnnotatedTitleLength: nat := 200

  datatype CreateTaskRequest = CreateTaskRequest(
    title: string,
    description: Option<string>,
    priority: int,
    dueDate: Option<Time>,
    tags: Option<string>)

  /** `UpdateTaskRequest` carries a status; `CreateTaskRequest` has none. */
  datatype UpdateTaskRequest = UpdateTaskRequest(
    title: string,
    description: Option<string>,
    status: int,
    priority: int,
    dueDate: Option<Time>,
    tags: Option<string>)

  datatype BulkUpdateRequest = BulkUpdateRequest(
    taskIds: seq<int>,
    status: Option<int>,
    delete: Option<bool>)

  /**
   * The data annotations on `Title` of the create and update bodies: `[Required]`
   * refuses null, empty and white-space-only text, `[MaxLength(200)]` more than 200
   * UTF-16 code units. `[Required]` on `TaskIds` refuses only a null array, which a
   * sequence cannot be.
   */
  predicate TitleAnnotationsOk(title: string) {
    !IsNullOrWhiteSpace(Some(title)) && Utf16Length(title) <= AnnotatedTitleLength
  }

  /** `new CreateTaskRequest()`: an empty title and Medium priority, nothing else set. */
  function DefaultCreateTaskRequest(): (r: CreateTaskRequest)
    ensures r.title == "" && r.priority == Medium.Value()
    ensures r.description.None? && r.dueDate.None? && r.tags.None?
  {
    CreateTaskRequest("", None, 1, None, None)
  }

  /** `new UpdateTaskRequest()`: enum properties at their zero value (Pending, Low). */
  function DefaultUpdateTaskRequest(): (r: UpdateTaskRequest)
    ensures r.title == "" && r.status == Pending.Value() && r.priority == Low.Value()
    ensures r.description.None? && r.dueDate.None? && r.tags.None?
  {
    UpdateTaskRequest("", None, 0, 0, None, None)
  }

  /** `new BulkUpdateRequest()`: no ids, and neither a status nor a delete flag. */
  function DefaultBulkUpdateRequest(): (r: BulkUpdateRequest)
    ensures r.taskIds == [] && r.status.None? && r.delete.None?
  {
    BulkUpdateRequest([], None, None)
  }
}
