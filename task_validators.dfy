/**
 * The three request validators. Each rule contributes the errors it finds, in
 * the order the rules are declared; every rule is evaluated (the validators
 * keep the default "continue" cascade), so one property can collect two errors.
 * A request is valid exactly when the list is empty.
 */
module TaskValidators {
  import opened Wrappers
  import opened Text
  import opened Json
  import opened TaskItemModel
  import opened TaskDtos
  import opened ApiResponses

  const TitleRequired := "Title is required"
  const TitleTooLong := "Title must be less than 200 characters"
  const DescriptionTooLong := "Description must be less than 2000 characters"
  const PriorityInvalid := "Priority must be a valid value (Low, Medium, High)"
  const StatusInvalid := "Status must be a valid value (Pending, InProgress, Completed)"
  const DueDateInPast := "Due date cannot be in the past"
  const TagsInvalid := "Tags must be a valid JSON array"
  const TaskIdsRequired := "At least one task ID is required"
  const TaskIdNotPositive := "Task IDs must be positive numbers"
  const StatusOrDeleteRequired := "Either Status or Delete must be specified"

  const MaxDescriptionLength: nat := 2000

  predicate IsInEnum(v: int) {
    0 <= v <= 2
  }

  /**
   * `BeValidJsonArray`: empty or absent tags pass; otherwise the text must be a JSON
   * array whose every element is a string that is not blank.
   */
  predicate BeValidJsonArray(tags: Option<string>) {
    IsNullOrEmpty(tags) ||
    match ParseStringArray(tags.value)
    case None => false
    case Some(items) => forall i :: 0 <= i < |items| ==> ItemIsNonBlank(items[i])
  }

  predicate ItemIsNonBlank(item: Item) {
    item.Str? && !IsNullOrWhiteSpace(Some(item.s))
  }

  /** `NotEmpty` then `MaximumLength(200)` on `Title`. */
  function TitleErrors(title: string): seq<ValidationError> {
    (if IsNullOrWhiteSpace(Some(title)) then [ValidationError("Title", TitleRequired)] else [])
    + (if Utf16Length(title) > MaxTitleLength then [ValidationError("Title", TitleTooLong)] else [])
  }

  /** `MaximumLength(2000)` on `Description`, only when it is not null or empty. */
  function DescriptionErrors(description: Option<string>): seq<ValidationError> {
    if !IsNullOrEmpty(description) && Utf16Length(description.value) > MaxDescriptionLength
    then [ValidationError("Description", DescriptionTooLong)] else []
  }

  function PriorityErrors(priority: int): seq<ValidationError> {
    if IsInEnum(priority) then [] else [ValidationError("Priority", PriorityInvalid)]
  }

  function StatusErrors(status: int): seq<ValidationError> {
    if IsInEnum(status) then [] else [ValidationError("Status", StatusInvalid)]
  }

  /** `GreaterThan(DateTime.Today.AddDays(-1))`, only when a due date is given. */
  function DueDateErrors(dueDate: Option<Time>, today: Time): seq<ValidationError> {
    if dueDate.Some? && !(dueDate.value > today - TicksPerDay)
    then [ValidationError("DueDate", DueDateInPast)] else []
  }

  function TagsErrors(tags: Option<string>): seq<ValidationError> {
    if !IsNullOrEmpty(tags) && !BeValidJsonArray(tags)
    then [ValidationError("Tags", TagsInvalid)] else []
  }

  /** `CreateTaskRequestValidator`: Title, Description, Priority, Tags. */
  function ValidateCreate(r: CreateTaskRequest): seq<ValidationError> {
    TitleErrors(r.title) + DescriptionErrors(r.description) + PriorityErrors(r.priority) + TagsErrors(r.tags)
  }

  /** `UpdateTaskRequestValidator`: Title, Description, Status, Priority, DueDate, Tags. */
  function ValidateUpdate(r: UpdateTaskRequest, today: Time): seq<ValidationError> {
    TitleErrors(r.title) + DescriptionErrors(r.description) + StatusErrors(r.status)
    + PriorityErrors(r.priority) + DueDateErrors(r.dueDate, today) + TagsErrors(r.tags)
  }

  /** `RuleForEach(x => x.TaskIds).GreaterThan(0)`: one error per offending element, named by its index. */
  function TaskIdErrors(ids: seq<int>, from: nat): seq<ValidationError>
    decreases |ids|
  {
    if ids == [] then []
    else
      var own := if ids[0] > 0 then [] else [ValidationError("TaskIds[" + NatToString(from) + "]", TaskIdNotPositive)];
      own + TaskIdErrors(ids[1..], from + 1)
  }

  /** `BulkUpdateRequestValidator`: TaskIds, each id, Status, then the model-level rule (property name ""). */
  function ValidateBulk(r: BulkUpdateRequest): seq<ValidationError> {
    (if r.taskIds == [] then [ValidationError("TaskIds", TaskIdsRequired)] else [])
    + TaskIdErrors(r.taskIds, 0)
    + (if r.status.Some? && !IsInEnum(r.status.value) then [ValidationError("Status", StatusInvalid)] else [])
    + (if r.status.None? && r.delete.None? then [ValidationError("", StatusOrDeleteRequired)] else [])
  }

  // ---------------------------------------------------------------------------
  // The rules, stated declaratively

  ghost predicate TitleOk(title: string) {
    (exists i :: 0 <= i < |title| && !IsDotNetWhiteSpace(title[i])) && Utf16Length(title) <= MaxTitleLength
  }

  ghost predicate DescriptionOk(description: Option<string>) {
    description.None? || Utf16Length(description.value) <= MaxDescriptionLength
  }

  ghost predicate TagsOk(tags: Option<string>) {
    tags.None? || tags.value == "" ||
    exists items :: ParseStringArray(tags.value) == Some(items) && forall i :: 0 <= i < |items| ==> ItemIsNonBlank(items[i])
  }

  ghost predicate CreateOk(r: CreateTaskRequest) {
    TitleOk(r.title) && DescriptionOk(r.description) && IsInEnum(r.priority) && TagsOk(r.tags)
  }

  ghost predicate UpdateOk(r: UpdateTaskRequest, today: Time) {
    TitleOk(r.title) && DescriptionOk(r.description) && IsInEnum(r.status) && IsInEnum(r.priority)
    && (r.dueDate.Some? ==> r.dueDate.value > today - TicksPerDay) && TagsOk(r.tags)
  }

  ghost predicate BulkOk(r: BulkUpdateRequest) {
    |r.taskIds| > 0 && (forall i :: 0 <= i < |r.taskIds| ==> r.taskIds[i] > 0)
    && (r.status.Some? ==> IsInEnum(r.status.value)) && (r.status.Some? || r.delete.Some?)
  }

  lemma TagsErrorsEmpty(tags: Option<string>)
    ensures TagsErrors(tags) == [] <==> TagsOk(tags)
  {
    if tags.Some? && tags.value != "" {
      match ParseStringArray(tags.value)
      case None =>
      case Some(items) =>
    }
  }

  lemma {:induction false} TaskIdErrorsEmpty(ids: seq<int>, from: nat)
    ensures TaskIdErrors(ids, from) == [] <==> forall i :: 0 <= i < |ids| ==> ids[i] > 0
  {
    if ids != [] {
      TaskIdErrorsEmpty(ids[1..], from + 1);
      assert forall i :: 1 <= i < |ids| ==> ids[i] == ids[1..][i - 1];
    }
  }

  /** The create validator reports nothing exactly when every create rule holds. */
  lemma CreateValidIff(r: CreateTaskRequest)
    ensures ValidateCreate(r) == [] <==> CreateOk(r)
  {
    TagsErrorsEmpty(r.tags);
  }

  /** The update validator reports nothing exactly when every update rule holds. */
  lemma UpdateValidIff(r: UpdateTaskRequest, today: Time)
    ensures ValidateUpdate(r, today) == [] <==> UpdateOk(r, today)
  {
    TagsErrorsEmpty(r.tags);
  }

  /** The bulk validator reports nothing exactly when every bulk rule holds. */
  lemma BulkValidIff(r: BulkUpdateRequest)
    ensures ValidateBulk(r) == [] <==> BulkOk(r)
  {
    TaskIdErrorsEmpty(r.taskIds, 0);
  }

  // ---------------------------------------------------------------------------
  // The title rule, as the unit tests pin it down

  /** A blank title yields "Title is required"; a title over 200 code units yields the length message. */
  lemma TitleMessages(title: string)
    ensures ValidationError("Title", TitleRequired) in TitleErrors(title) <==> IsNullOrWhiteSpace(Some(title))
    ensures ValidationError("Title", TitleTooLong) in TitleErrors(title) <==> Utf16Length(title) > MaxTitleLength
    ensures forall e :: e in TitleErrors(title) ==> e.field == "Title"
  {
  }

  /**
   * The title annotations, which the framework checks before an action runs, accept
   * exactly the titles the validator's two title rules accept. So every request the
   * create or update validator accepts also passes the annotations, and every title the
   * annotations refuse is one the validator would refuse too.
   */
  lemma AnnotationsAgree(c: CreateTaskRequest, u: UpdateTaskRequest, today: Time)
    ensures TitleAnnotationsOk(c.title) <==> TitleErrors(c.title) == []
    ensures ValidateCreate(c) == [] ==> TitleAnnotationsOk(c.title)
    ensures ValidateUpdate(u, today) == [] ==> TitleAnnotationsOk(u.title)
  {
  }

  /** An empty title: exactly one error on Title, "Title is required". */
  lemma EmptyTitleRejected(r: CreateTaskRequest)
    requires r.title == "" && r.priority == Medium.Value() && r.description.None? && r.tags.None?
    ensures ValidateCreate(r) == [ValidationError("Title", TitleRequired)]
  {
  }

  function Repeat(c: char, n: nat): (s: string)
    ensures |s| == n && forall i :: 0 <= i < n ==> s[i] == c
  {
    seq(n, _ => c)
  }

  /**
   * A title of `n` copies of one visible character (the unit tests use 201 letters 'a'):
   * none is "required", up to 200 pass, more give exactly the length message.
   */
  lemma TitleLengthBoundary(c: char, n: nat)
    requires c as int <= 0xFFFF && !IsDotNetWhiteSpace(c)
    ensures n == 0 ==> TitleErrors(Repeat(c, n)) == [ValidationError("Title", TitleRequired)]
    ensures 0 < n <= MaxTitleLength ==> TitleErrors(Repeat(c, n)) == []
    ensures n > MaxTitleLength ==> TitleErrors(Repeat(c, n)) == [ValidationError("Title", TitleTooLong)]
  {
    var s := Repeat(c, n);
    Utf16LengthOfBmp(s);
    if n > 0 {
      assert !IsDotNetWhiteSpace(s[0]);
    }
  }

  /** Tags that are not JSON at all: exactly one error on Tags. */
  lemma InvalidJsonTagsRejected(r: CreateTaskRequest)
    requires r.title == "Valid Task" && r.priority == Medium.Value() && r.description.None?
    requires r.tags == Some("invalid json")
    ensures ValidateCreate(r) == [ValidationError("Tags", TagsInvalid)]
  {
    assert !IsDotNetWhiteSpace(r.title[0]);
    Utf16LengthOfBmp(r.title);
    NotAnArray("invalid json");
  }

  /** Tags produced by `JSON.stringify` from non-blank strings always pass the tag rule. */
  lemma StringifiedTagsAccepted(tags: seq<string>)
    requires forall i :: 0 <= i < |tags| ==> !IsNullOrWhiteSpace(Some(tags[i]))
    ensures BeValidJsonArray(Some(Stringify(tags)))
  {
    StringifyRoundTrip(tags);
  }

  /** The valid bulk request of the unit tests passes; with no status and no delete flag it fails. */
  lemma BulkExamples()
    ensures ValidateBulk(BulkUpdateRequest([1, 2, 3], Some(Completed.Value()), None)) == []
    ensures ValidationError("", StatusOrDeleteRequired) in ValidateBulk(BulkUpdateRequest([1, 2], None, None))
    ensures ValidateBulk(BulkUpdateRequest([], Some(Completed.Value()), None)) == [ValidationError("TaskIds", TaskIdsRequired)]
  {
    var ids := [1, 2, 3];
    assert TaskIdErrors(ids[2..], 2) == [];
    assert TaskIdErrors(ids[1..], 1) == [];
    assert TaskIdErrors([1, 2][1..], 1) == [];
  }

  /** A `false` delete flag counts as specified. */
  lemma DeleteFalseCounts(ids: seq<int>)
    requires |ids| > 0 && forall i :: 0 <= i < |ids| ==> ids[i] > 0
    ensures ValidateBulk(BulkUpdateRequest(ids, None, Some(false))) == []
  {
    TaskIdErrorsEmpty(ids, 0);
  }

  /** The default bulk request breaks both bulk rules. */
  lemma DefaultBulkRejected()
    ensures ValidateBulk(DefaultBulkUpdateRequest())
         == [ValidationError("TaskIds", TaskIdsRequired), ValidationError("", StatusOrDeleteRequired)]
  {
  }

  /** The due-date rule admits any time later than the start of yesterday, so "today" passes. */
  lemma DueDateToday(today: Time, due: Time)
    requires today - TicksPerDay < due
    ensures DueDateErrors(Some(due), today) == []
    ensures DueDateErrors(Some(today - TicksPerDay), today) == [ValidationError("DueDate", DueDateInPast)]
  {
  }
}
