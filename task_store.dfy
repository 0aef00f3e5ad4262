/**
 * The task endpoints over an in-memory `Tasks` table.
 *
 * The table is a sequence of rows in ascending `Id` order (the identity column
 * hands out `nextId` and never reuses it). Every endpoint is specified by a pure
 * function from the old table to the action result and the new table; the
 * `TaskStore` class carries out the same steps in place and is proved to agree
 * with those functions. The properties of the endpoints are lemmas about the
 * functions.
 */
module TasksController {
  import opened Wrappers
  import opened Text
  import opened TaskItemModel
  import opened TaskDtos
  import opened ApiResponses
  import opened TaskValidators

  const MaxPageSize := 100
  const DefaultPageSize := 10

  const InvalidTaskId := "Invalid task ID"
  const TaskNotFound := "Task not found"
  const DeletedTaskNotFound := "Deleted task not found"
  const ValidationFailed := "Validation failed"
  const NoTasksFound := "No tasks found to update"

  // ---------------------------------------------------------------------------
  // The table

  predicate SortedById(ts: seq<TaskItem>) {
    forall i, j :: 0 <= i < j < |ts| ==> ts[i].id < ts[j].id
  }

  /** The table and the next value of its identity column. */
  datatype Store = Store(tasks: seq<TaskItem>, nextId: int)

  /** Ids are positive, unique, ascending and below `nextId`; titles fit the column. */
  predicate StoreValid(s: Store) {
    s.nextId >= 1 && SortedById(s.tasks)
    && forall i :: 0 <= i < |s.tasks| ==> 0 < s.tasks[i].id < s.nextId && Utf16Length(s.tasks[i].title) <= MaxTitleLength
  }

  // ---------------------------------------------------------------------------
  // GetTasks

  /** `limit` after the two clamping statements. */
  function EffectiveLimit(limit: int): (l: int)
    ensures 1 <= l <= MaxPageSize
    ensures limit > MaxPageSize ==> l == MaxPageSize
    ensures limit < 1 ==> l == DefaultPageSize
    ensures 1 <= limit <= MaxPageSize ==> l == limit
  {
    var capped := if limit > MaxPageSize then MaxPageSize else limit;
    if capped < 1 then DefaultPageSize else capped
  }

  /** The query-string parameters of `GET /api/tasks`. Enum filters are raw integers. */
  datatype TaskQuery = TaskQuery(
    status: Option<int>,
    priority: Option<int>,
    search: Option<string>,
    includeDeleted: bool,
    cursor: Option<int>,
    limit: int)

  /** The conjunction of the `Where` clauses the query applies. */
  predicate Matches(q: TaskQuery, t: TaskItem) {
    (q.includeDeleted || t.IsActive())
    && (q.status.None? || t.status.Value() == q.status.value)
    && (q.priority.None? || t.priority.Value() == q.priority.value)
    && (IsNullOrEmpty(q.search) || Contains(t.title, q.search.value))
    && (q.cursor.None? || t.id > q.cursor.value)
  }

  /** The rows that match, in table order. */
  function Filter(ts: seq<TaskItem>, q: TaskQuery): (r: seq<TaskItem>)
    ensures |r| <= |ts|
  {
    if ts == [] then []
    else
      var init := Filter(ts[..|ts| - 1], q);
      var last := ts[|ts| - 1];
      if Matches(q, last) then init + [last] else init
  }

  /** The matches among the first `i + 1` rows: those among the first `i`, then row `i` if it matches. */
  lemma FilterSnoc(ts: seq<TaskItem>, q: TaskQuery, i: nat)
    requires i < |ts|
    ensures Filter(ts[..i + 1], q) == Filter(ts[..i], q) + (if Matches(q, ts[i]) then [ts[i]] else [])
  {
    assert ts[..i + 1][..i] == ts[..i];
  }

  /** Filtering is sound (every row kept matches and comes from the table) and complete (every match is kept). */
  lemma {:induction false} FilterSpec(ts: seq<TaskItem>, q: TaskQuery)
    ensures forall i :: 0 <= i < |Filter(ts, q)| ==> Matches(q, Filter(ts, q)[i]) && Filter(ts, q)[i] in ts
    ensures forall i :: 0 <= i < |ts| && Matches(q, ts[i]) ==> ts[i] in Filter(ts, q)
  {
    if ts != [] {
      var init := ts[..|ts| - 1];
      FilterSpec(init, q);
      assert forall i :: 0 <= i < |init| ==> ts[i] == init[i];
    }
  }

  datatype TaskListResponse = TaskListResponse(
    tasks: seq<TaskItem>,
    hasNextPage: bool,
    nextCursor: Option<int>,
    limit: int)

  /** `Take(limit + 1)` of the ordered matches, then the extra row dropped again. */
  function Page(ts: seq<TaskItem>, q: TaskQuery): TaskListResponse {
    var limit := EffectiveLimit(q.limit);
    var matches := Filter(ts, q);
    var fetched := if |matches| <= limit + 1 then matches else matches[..limit + 1];
    var hasNextPage := |fetched| > limit;
    var page := if hasNextPage then fetched[..|fetched| - 1] else fetched;
    var nextCursor := if hasNextPage && |page| > 0 then Some(page[|page| - 1].id) else None;
    TaskListResponse(page, hasNextPage, nextCursor, limit)
  }

  /** The page holds the first min(limit, n) matches; there is a next page exactly when n > limit. */
  lemma PageBounds(ts: seq<TaskItem>, q: TaskQuery)
    ensures var p := Page(ts, q); var m := Filter(ts, q);
      p.limit == EffectiveLimit(q.limit)
      && |p.tasks| == (if |m| < p.limit then |m| else p.limit)
      && p.tasks == m[..|p.tasks|]
      && (p.hasNextPage <==> |m| > p.limit)
  {
  }

  /** Every task on a page satisfies each filter that is in force. */
  lemma PageSound(ts: seq<TaskItem>, q: TaskQuery)
    ensures forall t :: t in Page(ts, q).tasks ==>
      t in ts
      && (!q.includeDeleted ==> t.deletedAt.None?)
      && (q.status.Some? ==> t.status.Value() == q.status.value)
      && (q.priority.Some? ==> t.priority.Value() == q.priority.value)
      && (q.search.Some? && q.search.value != "" ==> Contains(t.title, q.search.value))
      && (q.cursor.Some? ==> t.id > q.cursor.value)
  {
    var m := Filter(ts, q);
    PageBounds(ts, q);
    FilterSpec(ts, q);
    forall t | t in Page(ts, q).tasks ensures Matches(q, t) && t in ts {
      var i :| 0 <= i < |Page(ts, q).tasks| && Page(ts, q).tasks[i] == t;
      assert t == m[i];
    }
  }

  /** The cursor is the id of the last task on the page when there is a next page, and absent otherwise. */
  lemma NextCursorRule(ts: seq<TaskItem>, q: TaskQuery)
    ensures var p := Page(ts, q);
      (p.hasNextPage ==> |p.tasks| == p.limit && p.nextCursor == Some(p.tasks[|p.tasks| - 1].id))
      && (!p.hasNextPage ==> p.nextCursor.None?)
  {
  }

  lemma {:induction false} FilterSorted(ts: seq<TaskItem>, q: TaskQuery)
    requires SortedById(ts)
    ensures SortedById(Filter(ts, q))
  {
    if ts != [] {
      var init := ts[..|ts| - 1];
      FilterSorted(init, q);
      FilterSpec(init, q);
      var f := Filter(init, q);
      forall i | 0 <= i < |f| ensures f[i].id < ts[|ts| - 1].id {
        var j :| 0 <= j < |init| && init[j] == f[i];
      }
    }
  }

  /** Pages list tasks in strictly increasing id order. */
  lemma PageOrdered(ts: seq<TaskItem>, q: TaskQuery)
    requires SortedById(ts)
    ensures SortedById(Page(ts, q).tasks)
  {
    FilterSorted(ts, q);
    PageBounds(ts, q);
  }

  /** The matches among the first `i` rows are a prefix of all the matches. */
  lemma {:induction false} FilterPrefix(ts: seq<TaskItem>, q: TaskQuery, i: nat)
    requires i <= |ts|
    ensures |Filter(ts[..i], q)| <= |Filter(ts, q)|
    ensures Filter(ts, q)[..|Filter(ts[..i], q)|] == Filter(ts[..i], q)
    decreases |ts| - i
  {
    if i == |ts| {
      assert ts[..i] == ts;
    } else {
      FilterPrefix(ts, q, i + 1);
      FilterSnoc(ts, q, i);
    }
  }

  /** Scanning the table until `l + 1` matches are found (or it ends) collects `Take(l + 1)` of the matches. */
  lemma FetchedIsTake(ts: seq<TaskItem>, q: TaskQuery, i: nat, l: int)
    requires i <= |ts| && l >= 1 && |Filter(ts[..i], q)| <= l + 1
    requires i == |ts| || |Filter(ts[..i], q)| == l + 1
    ensures var m := Filter(ts, q); Filter(ts[..i], q) == if |m| <= l + 1 then m else m[..l + 1]
  {
    FilterPrefix(ts, q, i);
    if i == |ts| {
      assert ts[..i] == ts;
    }
  }

  /** The rows of `s` whose id is above `c`, in order. */
  function Above(s: seq<TaskItem>, c: int): seq<TaskItem> {
    if s == [] then []
    else
      var init := Above(s[..|s| - 1], c);
      if s[|s| - 1].id > c then init + [s[|s| - 1]] else init
  }

  /** Narrowing a query by `id > c` narrows its matches the same way. */
  lemma {:induction false} FilterNarrowed(ts: seq<TaskItem>, q: TaskQuery, q': TaskQuery, c: int)
    requires forall t :: Matches(q', t) <==> Matches(q, t) && t.id > c
    ensures Filter(ts, q') == Above(Filter(ts, q), c)
  {
    if ts != [] {
      var init := ts[..|ts| - 1];
      FilterNarrowed(init, q, q', c);
      var f := Filter(init, q);
      var last := ts[|ts| - 1];
      if Matches(q, last) {
        assert (f + [last])[..|f + [last]| - 1] == f;
      }
    }
  }

  lemma {:induction false} AboveNone(s: seq<TaskItem>, c: int)
    requires forall i :: 0 <= i < |s| ==> s[i].id <= c
    ensures Above(s, c) == []
  {
    if s != [] {
      AboveNone(s[..|s| - 1], c);
    }
  }

  /** In an ascending sequence, the rows above the id at position `l - 1` are those from position `l` on. */
  lemma {:induction false} AboveOfSorted(m: seq<TaskItem>, l: nat)
    requires SortedById(m) && 0 < l <= |m|
    ensures Above(m, m[l - 1].id) == m[l..]
  {
    var c := m[l - 1].id;
    if l == |m| {
      AboveNone(m, c);
    } else {
      var init := m[..|m| - 1];
      AboveOfSorted(init, l);
      assert init[l - 1] == m[l - 1];
      assert init[l..] + [m[|m| - 1]] == m[l..];
    }
  }

  /** Following `nextCursor` skips exactly the tasks already shown. */
  lemma NextPageIsRest(ts: seq<TaskItem>, q: TaskQuery)
    requires SortedById(ts) && Page(ts, q).hasNextPage
    ensures Filter(ts, q.(cursor := Page(ts, q).nextCursor)) == Filter(ts, q)[EffectiveLimit(q.limit)..]
  {
    var m := Filter(ts, q);
    var l := EffectiveLimit(q.limit);
    var c := m[l - 1].id;
    var q' := q.(cursor := Page(ts, q).nextCursor);
    assert Page(ts, q).nextCursor == Some(c);
    FilterSpec(ts, q);
    assert Matches(q, m[l - 1]);
    forall t ensures Matches(q', t) <==> Matches(q, t) && t.id > c {
    }
    FilterNarrowed(ts, q, q', c);
    FilterSorted(ts, q);
    AboveOfSorted(m, l);
  }

  /** The tasks a client collects by starting at `q` and following `nextCursor` until there is no next page. */
  function Walk(ts: seq<TaskItem>, q: TaskQuery): seq<TaskItem>
    requires SortedById(ts)
    decreases |Filter(ts, q)|
  {
    var p := Page(ts, q);
    if !p.hasNextPage then p.tasks
    else
      NextPageIsRest(ts, q);
      p.tasks + Walk(ts, q.(cursor := p.nextCursor))
  }

  lemma {:induction false} WalkIsFilter(ts: seq<TaskItem>, q: TaskQuery)
    requires SortedById(ts)
    ensures Walk(ts, q) == Filter(ts, q)
    decreases |Filter(ts, q)|
  {
    var p := Page(ts, q);
    var m := Filter(ts, q);
    if p.hasNextPage {
      NextPageIsRest(ts, q);
      WalkIsFilter(ts, q.(cursor := p.nextCursor));
      PageBounds(ts, q);
      assert m[..p.limit] + m[p.limit..] == m;
    }
  }

  /** Paging through an unchanged table with the cursor yields every match exactly once, in id order. */
  lemma CursorWalk(ts: seq<TaskItem>, q: TaskQuery)
    requires SortedById(ts)
    ensures Walk(ts, q) == Filter(ts, q)
    ensures SortedById(Walk(ts, q))
    ensures forall t :: t in ts && Matches(q, t) ==> t in Walk(ts, q)
  {
    WalkIsFilter(ts, q);
    FilterSorted(ts, q);
    FilterSpec(ts, q);
  }

  // ---------------------------------------------------------------------------
  // Lookup by id

  predicate Hit(t: TaskItem, id: int, deleted: bool) {
    t.id == id && t.IsActive() != deleted
  }

  /**
   * `FirstOrDefaultAsync(t => t.Id == id)` after `Where(t => t.DeletedAt == null)`
   * (or `!= null` when `deleted`): the position of the first such row.
   */
  function Find(ts: seq<TaskItem>, id: int, deleted: bool): (r: Option<nat>)
    ensures r.Some? ==> r.value < |ts| && Hit(ts[r.value], id, deleted)
    ensures r.Some? ==> forall k :: 0 <= k < r.value ==> !Hit(ts[k], id, deleted)
    ensures r.None? <==> forall k :: 0 <= k < |ts| ==> !Hit(ts[k], id, deleted)
  {
    if ts == [] then None
    else if Hit(ts[0], id, deleted) then Some(0)
    else match Find(ts[1..], id, deleted)
      case None => None
      case Some(k) => Some(k + 1)
  }

  lemma IdsDiffer(ts: seq<TaskItem>, i: nat, j: nat)
    requires SortedById(ts) && i < |ts| && j < |ts| && i != j
    ensures ts[i].id != ts[j].id
  {
  }

  /** In a table with unique ids, the row found is the only one with that id. */
  lemma FindUnique(ts: seq<TaskItem>, id: int, deleted: bool, j: nat)
    requires SortedById(ts) && Find(ts, id, deleted).Some? && j < |ts| && ts[j].id == id
    ensures j == Find(ts, id, deleted).value
  {
  }

  function GetTask(ts: seq<TaskItem>, id: int): ActionResult<ApiResponse<TaskItem>> {
    if id <= 0 then ActionResult(StatusBadRequest, ErrorResult(InvalidTaskId, None))
    else match Find(ts, id, false)
      case None => ActionResult(StatusNotFound, ErrorResult(TaskNotFound, None))
      case Some(k) => ActionResult(StatusOk, SuccessResult(ts[k], None))
  }

  // ---------------------------------------------------------------------------
  // CreateTask, UpdateTask, DeleteTask, RestoreTask

  /** The row `CreateTask` inserts: the request's fields over the entity defaults, with the next identity value. */
  function NewTask(req: CreateTaskRequest, id: int, now: Time): TaskItem
    requires IsInEnum(req.priority)
  {
    NewTaskItem(now).(id := id, title := req.title, description := req.description,
      priority := PriorityOf(req.priority), dueDate := req.dueDate, tags := req.tags.GetOr("[]"))
  }

  function CreateTask(s: Store, req: CreateTaskRequest, now: Time): (ActionResult<ApiResponse<TaskItem>>, Store) {
    var errors := ValidateCreate(req);
    if errors != [] then (ActionResult(StatusBadRequest, ErrorResult(ValidationFailed, Some(errors))), s)
    else
      CreateValidIff(req);
      var t := NewTask(req, s.nextId, now);
      (ActionResult(StatusCreated, SuccessResult(t, Some("Task created successfully"))),
       Store(s.tasks + [t], s.nextId + 1))
  }

  /** `UpdateTask`'s assignments to the tracked row. */
  function Overwrite(t: TaskItem, req: UpdateTaskRequest, now: Time): TaskItem
    requires IsInEnum(req.status) && IsInEnum(req.priority)
  {
    t.(title := req.title, description := req.description, status := StatusOf(req.status),
      priority := PriorityOf(req.priority), dueDate := req.dueDate, tags := req.tags.GetOr("[]"),
      updatedAt := now)
  }

  function UpdateTask(s: Store, id: int, req: UpdateTaskRequest, now: Time, today: Time): (ActionResult<PlainResponse>, Store) {
    if id <= 0 then (ActionResult(StatusBadRequest, PlainError(InvalidTaskId, None)), s)
    else
      var errors := ValidateUpdate(req, today);
      if errors != [] then (ActionResult(StatusBadRequest, PlainError(ValidationFailed, Some(errors))), s)
      else match Find(s.tasks, id, false)
        case None => (ActionResult(StatusNotFound, PlainError(TaskNotFound, None)), s)
        case Some(k) =>
          UpdateValidIff(req, today);
          (ActionResult(StatusOk, PlainSuccess(Some("Task updated successfully"))),
           s.(tasks := s.tasks[k := Overwrite(s.tasks[k], req, now)]))
  }

  function DeleteTask(s: Store, id: int, now: Time): (ActionResult<PlainResponse>, Store) {
    if id <= 0 then (ActionResult(StatusBadRequest, PlainError(InvalidTaskId, None)), s)
    else match Find(s.tasks, id, false)
      case None => (ActionResult(StatusNotFound, PlainError(TaskNotFound, None)), s)
      case Some(k) =>
        (ActionResult(StatusOk, PlainSuccess(Some("Task deleted successfully"))),
         s.(tasks := s.tasks[k := s.tasks[k].(deletedAt := Some(now), updatedAt := now)]))
  }

  function RestoreTask(s: Store, id: int, now: Time): (ActionResult<PlainResponse>, Store) {
    if id <= 0 then (ActionResult(StatusBadRequest, PlainError(InvalidTaskId, None)), s)
    else match Find(s.tasks, id, true)
      case None => (ActionResult(StatusNotFound, PlainError(DeletedTaskNotFound, None)), s)
      case Some(k) =>
        (ActionResult(StatusOk, PlainSuccess(Some("Task restored successfully"))),
         s.(tasks := s.tasks[k := s.tasks[k].(deletedAt := None, updatedAt := now)]))
  }

  /** A non-positive id is refused before the table is consulted, and nothing changes. */
  lemma InvalidIdRejected(s: Store, id: int, req: UpdateTaskRequest, now: Time, today: Time)
    requires id <= 0
    ensures GetTask(s.tasks, id) == ActionResult(StatusBadRequest, ErrorResult(InvalidTaskId, None))
    ensures UpdateTask(s, id, req, now, today) == (ActionResult(StatusBadRequest, PlainError(InvalidTaskId, None)), s)
    ensures DeleteTask(s, id, now) == (ActionResult(StatusBadRequest, PlainError(InvalidTaskId, None)), s)
    ensures RestoreTask(s, id, now) == (ActionResult(StatusBadRequest, PlainError(InvalidTaskId, None)), s)
  {
  }

  /** An id with no active row (missing or soft-deleted) is "Task not found" for get, update and delete. */
  lemma MissingTaskNotFound(s: Store, id: int, req: UpdateTaskRequest, now: Time, today: Time)
    requires id > 0 && forall k :: 0 <= k < |s.tasks| ==> !(s.tasks[k].id == id && s.tasks[k].deletedAt.None?)
    ensures GetTask(s.tasks, id) == ActionResult(StatusNotFound, ErrorResult(TaskNotFound, None))
    ensures DeleteTask(s, id, now) == (ActionResult(StatusNotFound, PlainError(TaskNotFound, None)), s)
    ensures ValidateUpdate(req, today) == [] ==>
      UpdateTask(s, id, req, now, today) == (ActionResult(StatusNotFound, PlainError(TaskNotFound, None)), s)
  {
    assert Find(s.tasks, id, false).None?;
  }

  /** A request the validator rejects is answered with its errors, and nothing is added. */
  lemma CreateRejected(s: Store, req: CreateTaskRequest, now: Time)
    requires !CreateOk(req)
    ensures var (r, s') := CreateTask(s, req, now);
      s' == s && r.status == StatusBadRequest
      && r.body == ErrorResult(ValidationFailed, Some(ValidateCreate(req)))
      && |ValidateCreate(req)| > 0
  {
    CreateValidIff(req);
  }

  /** A valid request adds exactly one row, at the end, with a fresh id and the request's fields. */
  lemma CreateAdds(s: Store, req: CreateTaskRequest, now: Time)
    requires StoreValid(s) && CreateOk(req)
    ensures var (r, s') := CreateTask(s, req, now);
      r.status == StatusCreated && r.body.success && r.body.data.Some?
      && s'.tasks == s.tasks + [r.body.data.value]
      && StoreValid(s')
      && var t := r.body.data.value;
        (forall k :: 0 <= k < |s.tasks| ==> s.tasks[k].id != t.id)
        && t.title == req.title && t.description == req.description
        && t.priority.Value() == req.priority && t.dueDate == req.dueDate
        && t.tags == (if req.tags.Some? then req.tags.value else "[]")
        && t.status == Pending && t.deletedAt.None? && t.createdAt == now && t.updatedAt == now
  {
    CreateValidIff(req);
    Utf16LengthOfBmp(req.title[..0]);
  }

  /** An update of an active row rewrites exactly the six request fields and `UpdatedAt`. */
  lemma UpdateOverwrites(s: Store, id: int, req: UpdateTaskRequest, now: Time, today: Time)
    requires StoreValid(s) && id > 0 && UpdateOk(req, today) && Find(s.tasks, id, false).Some?
    ensures var (r, s') := UpdateTask(s, id, req, now, today); var k := Find(s.tasks, id, false).value;
      r == ActionResult(StatusOk, PlainSuccess(Some("Task updated successfully")))
      && StoreValid(s') && s'.nextId == s.nextId && |s'.tasks| == |s.tasks|
      && (forall j :: 0 <= j < |s.tasks| && j != k ==> s'.tasks[j] == s.tasks[j])
      && var (old_, new_) := (s.tasks[k], s'.tasks[k]);
        new_.id == old_.id && new_.createdAt == old_.createdAt && new_.deletedAt == old_.deletedAt
        && new_.userId == old_.userId
        && new_.title == req.title && new_.description == req.description
        && new_.status.Value() == req.status && new_.priority.Value() == req.priority
        && new_.dueDate == req.dueDate && new_.tags == (if req.tags.Some? then req.tags.value else "[]")
        && new_.updatedAt == now
  {
    UpdateValidIff(req, today);
  }

  /** Deleting stamps `DeletedAt` and `UpdatedAt` on the one row; deleting it again finds nothing. */
  lemma DeleteTwice(s: Store, id: int, now: Time, later: Time)
    requires StoreValid(s) && id > 0 && Find(s.tasks, id, false).Some?
    ensures var (r, s1) := DeleteTask(s, id, now); var k := Find(s.tasks, id, false).value;
      r.status == StatusOk && StoreValid(s1)
      && s1.tasks == s.tasks[k := s.tasks[k].(deletedAt := Some(now), updatedAt := now)]
      && DeleteTask(s1, id, later) == (ActionResult(StatusNotFound, PlainError(TaskNotFound, None)), s1)
  {
    var k := Find(s.tasks, id, false).value;
    var s1 := DeleteTask(s, id, now).1;
    forall j | 0 <= j < |s1.tasks| ensures !Hit(s1.tasks[j], id, false) {
      if j != k {
        IdsDiffer(s.tasks, j, k);
      }
    }
  }

  /** Restore finds only soft-deleted rows. */
  lemma RestoreNeedsDeleted(s: Store, id: int, now: Time)
    requires id > 0 && forall k :: 0 <= k < |s.tasks| ==> !(s.tasks[k].id == id && s.tasks[k].deletedAt.Some?)
    ensures RestoreTask(s, id, now) == (ActionResult(StatusNotFound, PlainError(DeletedTaskNotFound, None)), s)
  {
    assert Find(s.tasks, id, true).None?;
  }

  /** Getting the id of an active row answers 200 with that row. */
  lemma GetFound(s: Store, k: nat)
    requires StoreValid(s) && k < |s.tasks| && s.tasks[k].IsActive()
    ensures GetTask(s.tasks, s.tasks[k].id) == ActionResult(StatusOk, SuccessResult(s.tasks[k], None))
  {
    var id := s.tasks[k].id;
    assert Hit(s.tasks[k], id, false);
    FindUnique(s.tasks, id, false, k);
  }

  /** Restoring a soft-deleted row succeeds: its `DeletedAt` is cleared, `UpdatedAt` is `now`, and nothing else changes. */
  lemma RestoreClears(s: Store, k: nat, now: Time)
    requires StoreValid(s) && k < |s.tasks| && s.tasks[k].deletedAt.Some?
    ensures RestoreTask(s, s.tasks[k].id, now)
      == (ActionResult(StatusOk, PlainSuccess(Some("Task restored successfully"))),
          s.(tasks := s.tasks[k := s.tasks[k].(deletedAt := None, updatedAt := now)]))
  {
    var id := s.tasks[k].id;
    assert Hit(s.tasks[k], id, true);
    FindUnique(s.tasks, id, true, k);
  }

  /** `TaskQuery` with every parameter at its default. */
  function DefaultQuery(): TaskQuery {
    TaskQuery(None, None, None, false, None, DefaultPageSize)
  }

  /** Delete then restore brings a task back to the default listing with only `UpdatedAt` changed. */
  lemma DeleteRestoreRoundTrip(s: Store, id: int, now: Time, later: Time)
    requires StoreValid(s) && id > 0 && Find(s.tasks, id, false).Some?
    ensures var s1 := DeleteTask(s, id, now).1; var (r, s2) := RestoreTask(s1, id, later);
      var k := Find(s.tasks, id, false).value;
      r == ActionResult(StatusOk, PlainSuccess(Some("Task restored successfully")))
      && s2 == s.(tasks := s.tasks[k := s.tasks[k].(updatedAt := later)])
      && s2.tasks[k] in Filter(s2.tasks, DefaultQuery())
  {
    var k := Find(s.tasks, id, false).value;
    var s1 := DeleteTask(s, id, now).1;
    forall j | 0 <= j < k ensures !Hit(s1.tasks[j], id, true) {
      IdsDiffer(s.tasks, j, k);
    }
    assert Hit(s1.tasks[k], id, true);
    assert Find(s1.tasks, id, true) == Some(k);
    var s2 := RestoreTask(s1, id, later).1;
    assert Matches(DefaultQuery(), s2.tasks[k]);
    FilterSpec(s2.tasks, DefaultQuery());
  }

  // ---------------------------------------------------------------------------
  // BulkUpdate

  predicate Selected(t: TaskItem, ids: seq<int>) {
    t.id in ids && t.IsActive()
  }

  /** The ids of the rows `BulkUpdate` loads: active rows whose id is requested, in table order. */
  function FoundIds(ts: seq<TaskItem>, ids: seq<int>): (r: seq<int>)
    ensures |r| <= |ts|
    ensures forall x :: x in r ==> x in ids
    ensures forall k :: 0 <= k < |ts| && Selected(ts[k], ids) ==> ts[k].id in r
    ensures forall x :: x in r ==> exists k :: 0 <= k < |ts| && Selected(ts[k], ids) && ts[k].id == x
  {
    if ts == [] then []
    else
      var init := ts[..|ts| - 1];
      var last := ts[|ts| - 1];
      var r0 := FoundIds(init, ids);
      assert forall k :: 0 <= k < |init| ==> init[k] == ts[k];
      if Selected(last, ids) then r0 + [last.id] else r0
  }

  predicate Distinct(xs: seq<int>) {
    forall i, j :: 0 <= i < j < |xs| ==> xs[i] != xs[j]
  }

  lemma {:induction false} FoundIdsDistinct(ts: seq<TaskItem>, ids: seq<int>)
    requires SortedById(ts)
    ensures Distinct(FoundIds(ts, ids))
  {
    if ts != [] {
      var init := ts[..|ts| - 1];
      FoundIdsDistinct(init, ids);
      var r0 := FoundIds(init, ids);
      forall i | 0 <= i < |r0| ensures r0[i] < ts[|ts| - 1].id {
        assert r0[i] in r0;
      }
    }
  }

  /** `Enumerable.Except`: the elements of `xs` not in `ban`, each once, in order of first occurrence. */
  function Except(xs: seq<int>, ban: set<int>): (r: seq<int>)
    ensures Distinct(r)
    ensures forall x :: x in r <==> x in xs && x !in ban
  {
    if xs == [] then []
    else if xs[0] in ban then Except(xs[1..], ban)
    else
      var rest := Except(xs[1..], ban + {xs[0]});
      assert forall x :: x in xs <==> x == xs[0] || x in xs[1..];
      [xs[0]] + rest
  }

  lemma {:induction false} ExceptAllBanned(xs: seq<int>, ban: set<int>)
    requires forall x :: x in xs ==> x in ban
    ensures Except(xs, ban) == []
  {
    if xs != [] {
      ExceptAllBanned(xs[1..], ban);
    }
  }

  lemma {:induction false} FoundIdsEmpty(ts: seq<TaskItem>, ids: seq<int>)
    requires forall k :: 0 <= k < |ts| ==> !Selected(ts[k], ids)
    ensures FoundIds(ts, ids) == []
  {
    if ts != [] {
      FoundIdsEmpty(ts[..|ts| - 1], ids);
    }
  }

  function ToSet(xs: seq<int>): set<int> {
    set x | x in xs
  }

  function IdList(xs: seq<int>): string {
    Join(seq(|xs|, i requires 0 <= i < |xs| => IntToString(xs[i])), ", ")
  }

  /** `BulkUpdate`'s changes to one loaded row. */
  function Patch(t: TaskItem, req: BulkUpdateRequest, now: Time): TaskItem
    requires req.status.Some? ==> IsInEnum(req.status.value)
  {
    var t1 := if req.status.Some? then t.(status := StatusOf(req.status.value)) else t;
    var t2 := if req.delete == Some(true) then t1.(deletedAt := Some(now)) else t1;
    t2.(updatedAt := now)
  }

  function BulkApply(ts: seq<TaskItem>, req: BulkUpdateRequest, now: Time): (r: seq<TaskItem>)
    requires req.status.Some? ==> IsInEnum(req.status.value)
  {
    seq(|ts|, i requires 0 <= i < |ts| => if Selected(ts[i], req.taskIds) then Patch(ts[i], req, now) else ts[i])
  }

  function BulkUpdate(s: Store, req: BulkUpdateRequest, now: Time): (ActionResult<PlainResponse>, Store) {
    var errors := ValidateBulk(req);
    if errors != [] then (ActionResult(StatusBadRequest, PlainError(ValidationFailed, Some(errors))), s)
    else
      var found := FoundIds(s.tasks, req.taskIds);
      if |found| == 0 then (ActionResult(StatusNotFound, PlainError(NoTasksFound, None)), s)
      else if |found| != |req.taskIds| then
        (ActionResult(StatusBadRequest, PlainError("Tasks not found: " + IdList(Except(req.taskIds, ToSet(found))), None)), s)
      else
        BulkValidIff(req);
        var action := if req.delete == Some(true) then "deleted" else "updated";
        (ActionResult(StatusOk, PlainSuccess(Some(NatToString(|found|) + " tasks " + action + " successfully"))),
         s.(tasks := BulkApply(s.tasks, req, now)))
  }

  lemma {:induction false} CardToSet(xs: seq<int>)
    ensures |ToSet(xs)| <= |xs|
    ensures |ToSet(xs)| == |xs| <==> Distinct(xs)
  {
    if xs != [] {
      var t := xs[1..];
      CardToSet(t);
      assert ToSet(xs) == {xs[0]} + ToSet(t);
      if xs[0] in t {
        assert ToSet(xs) == ToSet(t);
        var j :| 0 <= j < |t| && t[j] == xs[0];
        assert xs[0] == xs[j + 1];
      } else {
        assert xs[0] !in ToSet(t);
        assert Distinct(xs) <==> Distinct(t) by {
          if Distinct(t) {
            forall i, j | 0 <= i < j < |xs| ensures xs[i] != xs[j] {
              if i > 0 {
                assert xs[i] == t[i - 1] && xs[j] == t[j - 1];
              } else {
                assert xs[j] == t[j - 1];
              }
            }
          }
          if Distinct(xs) {
            forall i, j | 0 <= i < j < |t| ensures t[i] != t[j] {
              assert t[i] == xs[i + 1] && t[j] == xs[j + 1];
            }
          }
        }
      }
    }
  }

  lemma SubsetOfEqualCard(a: set<int>, b: set<int>)
    requires a <= b && |a| >= |b|
    ensures a == b
  {
    assert b == a + (b - a);
    assert b - a == {};
    assert b == a + {};
  }

  lemma SubsetCard(a: set<int>, b: set<int>)
    requires a <= b
    ensures |a| <= |b|
  {
    assert b == a + (b - a);
  }

  /**
   * BulkUpdate is all or nothing: unless it succeeds the table is untouched; when it
   * succeeds every requested id names exactly one active row, the ids are distinct,
   * and exactly the requested rows are patched.
   */
  lemma BulkAllOrNothing(s: Store, req: BulkUpdateRequest, now: Time)
    requires StoreValid(s)
    ensures var (r, s') := BulkUpdate(s, req, now);
      (r.status != StatusOk ==> s' == s)
      && (r.status == StatusOk ==>
        Distinct(req.taskIds)
        && (forall x :: x in req.taskIds ==> exists k :: 0 <= k < |s.tasks| && s.tasks[k].id == x && s.tasks[k].IsActive())
        && s'.nextId == s.nextId && |s'.tasks| == |s.tasks| && StoreValid(s')
        && forall k :: 0 <= k < |s.tasks| ==>
          if Selected(s.tasks[k], req.taskIds) then
            s'.tasks[k].id == s.tasks[k].id && s'.tasks[k].title == s.tasks[k].title
            && s'.tasks[k].updatedAt == now
            && (req.status.Some? ==> s'.tasks[k].status.Value() == req.status.value)
            && (req.status.None? ==> s'.tasks[k].status == s.tasks[k].status)
            && s'.tasks[k].deletedAt == (if req.delete == Some(true) then Some(now) else None)
          else s'.tasks[k] == s.tasks[k])
  {
    var (r, s') := BulkUpdate(s, req, now);
    if r.status == StatusOk {
      BulkValidIff(req);
      AllFound(s.tasks, req.taskIds);
      PatchEffects(s, req, now);
    }
  }

  /** When as many rows are found as ids were sent, the ids are distinct and all of them are active rows. */
  lemma AllFound(ts: seq<TaskItem>, ids: seq<int>)
    requires SortedById(ts) && |FoundIds(ts, ids)| == |ids|
    ensures Distinct(ids)
    ensures forall x :: x in ids ==> exists k :: 0 <= k < |ts| && ts[k].id == x && ts[k].IsActive()
  {
    var found := FoundIds(ts, ids);
    FoundIdsDistinct(ts, ids);
    CardToSet(found);
    CardToSet(ids);
    assert ToSet(found) <= ToSet(ids);
    SubsetCard(ToSet(found), ToSet(ids));
    SubsetOfEqualCard(ToSet(found), ToSet(ids));
    forall x | x in ids
      ensures exists k :: 0 <= k < |ts| && ts[k].id == x && ts[k].IsActive()
    {
      assert x in ToSet(found);
    }
  }

  /**
   * The "Tasks not found" list `TaskIds.Except(foundIds)` is empty exactly when every
   * requested id names an active row.
   */
  lemma MissingIdsIff(ts: seq<TaskItem>, ids: seq<int>)
    ensures Except(ids, ToSet(FoundIds(ts, ids))) == [] <==>
      forall x :: x in ids ==> exists k :: 0 <= k < |ts| && ts[k].id == x && ts[k].IsActive()
  {
    var found := FoundIds(ts, ids);
    var missing := Except(ids, ToSet(found));
    if missing == [] {
      forall x | x in ids
        ensures exists k :: 0 <= k < |ts| && ts[k].id == x && ts[k].IsActive()
      {
        assert x !in missing;
        assert x in found;
      }
    } else {
      var x := missing[0];
      assert x in ids && x !in found;
    }
  }

  /**
   * The converse of `BulkAllOrNothing`: a valid request whose ids are distinct and all
   * name active rows succeeds, reports how many tasks it changed, and patches exactly them.
   */
  lemma BulkSucceeds(s: Store, req: BulkUpdateRequest, now: Time)
    requires StoreValid(s) && BulkOk(req) && Distinct(req.taskIds)
    requires forall x :: x in req.taskIds ==> exists k :: 0 <= k < |s.tasks| && s.tasks[k].id == x && s.tasks[k].IsActive()
    ensures var action := if req.delete == Some(true) then "deleted" else "updated";
      BulkUpdate(s, req, now)
        == (ActionResult(StatusOk, PlainSuccess(Some(NatToString(|req.taskIds|) + " tasks " + action + " successfully"))),
            s.(tasks := BulkApply(s.tasks, req, now)))
  {
    BulkValidIff(req);
    var found := FoundIds(s.tasks, req.taskIds);
    FoundIdsDistinct(s.tasks, req.taskIds);
    CardToSet(found);
    CardToSet(req.taskIds);
    assert ToSet(found) <= ToSet(req.taskIds);
    forall x | x in ToSet(req.taskIds) ensures x in ToSet(found) {
      var k :| 0 <= k < |s.tasks| && s.tasks[k].id == x && s.tasks[k].IsActive();
      assert Selected(s.tasks[k], req.taskIds);
    }
    SubsetCard(ToSet(req.taskIds), ToSet(found));
    SubsetCard(ToSet(found), ToSet(req.taskIds));
  }

  /** `BulkApply` keeps the table valid and patches exactly the selected rows. */
  lemma PatchEffects(s: Store, req: BulkUpdateRequest, now: Time)
    requires StoreValid(s) && (req.status.Some? ==> IsInEnum(req.status.value))
    ensures var t := BulkApply(s.tasks, req, now);
      |t| == |s.tasks| && StoreValid(s.(tasks := t))
      && forall k :: 0 <= k < |s.tasks| ==>
        if Selected(s.tasks[k], req.taskIds) then
          t[k].id == s.tasks[k].id && t[k].title == s.tasks[k].title
          && t[k].updatedAt == now
          && (req.status.Some? ==> t[k].status.Value() == req.status.value)
          && (req.status.None? ==> t[k].status == s.tasks[k].status)
          && t[k].deletedAt == (if req.delete == Some(true) then Some(now) else None)
        else t[k] == s.tasks[k]
  {
  }

  /** A request naming only active ids but one of them twice is refused with an empty list of missing ids. */
  lemma BulkDuplicateIds(s: Store, req: BulkUpdateRequest, now: Time)
    requires StoreValid(s) && BulkOk(req) && !Distinct(req.taskIds)
    requires forall x :: x in req.taskIds ==> exists k :: 0 <= k < |s.tasks| && s.tasks[k].id == x && s.tasks[k].IsActive()
    ensures BulkUpdate(s, req, now) == (ActionResult(StatusBadRequest, PlainError("Tasks not found: ", None)), s)
  {
    BulkValidIff(req);
    var found := FoundIds(s.tasks, req.taskIds);
    FoundIdsDistinct(s.tasks, req.taskIds);
    CardToSet(found);
    CardToSet(req.taskIds);
    assert ToSet(req.taskIds) <= ToSet(found) by {
      forall x | x in ToSet(req.taskIds) ensures x in ToSet(found) {
        var k :| 0 <= k < |s.tasks| && s.tasks[k].id == x && s.tasks[k].IsActive();
        assert Selected(s.tasks[k], req.taskIds);
      }
    }
    SubsetCard(ToSet(req.taskIds), ToSet(found));
    assert |found| > 0 by {
      var x := req.taskIds[0];
      assert x in req.taskIds;
      assert x in ToSet(found);
    }
    SubsetCard(ToSet(found), ToSet(req.taskIds));
    assert |found| < |req.taskIds|;
    ExceptAllBanned(req.taskIds, ToSet(found));
    assert IdList([]) == "";
    assert ValidateBulk(req) == [];
    assert "Tasks not found: " + IdList(Except(req.taskIds, ToSet(found))) == "Tasks not found: ";
  }

  /** When no requested id names an active row the answer is "No tasks found to update". */
  lemma BulkNoneFound(s: Store, req: BulkUpdateRequest, now: Time)
    requires BulkOk(req)
    requires forall k :: 0 <= k < |s.tasks| ==> !Selected(s.tasks[k], req.taskIds)
    ensures BulkUpdate(s, req, now) == (ActionResult(StatusNotFound, PlainError(NoTasksFound, None)), s)
  {
    BulkValidIff(req);
    FoundIdsEmpty(s.tasks, req.taskIds);
  }

  // ---------------------------------------------------------------------------
  // Every endpoint keeps the table well formed

  lemma CreatePreservesValid(s: Store, req: CreateTaskRequest, now: Time)
    requires StoreValid(s)
    ensures StoreValid(CreateTask(s, req, now).1)
  {
    CreateValidIff(req);
    if ValidateCreate(req) == [] {
      CreateAdds(s, req, now);
    }
  }

  lemma UpdatePreservesValid(s: Store, id: int, req: UpdateTaskRequest, now: Time, today: Time)
    requires StoreValid(s)
    ensures StoreValid(UpdateTask(s, id, req, now, today).1)
  {
    UpdateValidIff(req, today);
    if id > 0 && ValidateUpdate(req, today) == [] && Find(s.tasks, id, false).Some? {
      UpdateOverwrites(s, id, req, now, today);
    }
  }

  lemma DeletePreservesValid(s: Store, id: int, now: Time)
    requires StoreValid(s)
    ensures StoreValid(DeleteTask(s, id, now).1)
  {
  }

  lemma RestorePreservesValid(s: Store, id: int, now: Time)
    requires StoreValid(s)
    ensures StoreValid(RestoreTask(s, id, now).1)
  {
  }

  lemma BulkPreservesValid(s: Store, req: BulkUpdateRequest, now: Time)
    requires StoreValid(s)
    ensures StoreValid(BulkUpdate(s, req, now).1)
  {
    BulkAllOrNothing(s, req, now);
  }

  // ---------------------------------------------------------------------------
  // The controller over a mutable table

  class TaskStore {
    var tasks: seq<TaskItem>
    var nextId: int

    function Model(): Store
      reads this
    {
      Store(tasks, nextId)
    }

    predicate Valid()
      reads this
    {
      StoreValid(Model())
    }

    /** An empty table whose identity column starts at 1. */
    constructor ()
      ensures Valid() && tasks == [] && nextId == 1
    {
      tasks := [];
      nextId := 1;
    }

    /** `GET /api/tasks`: scans the table in id order, keeps up to `limit + 1` matches, then trims the extra one. */
    method GetTasks(q: TaskQuery) returns (r: ActionResult<ApiResponse<TaskListResponse>>)
      ensures r == ActionResult(StatusOk, SuccessResult(Page(tasks, q), None))
    {
      var limit := q.limit;
      if limit > MaxPageSize { limit := MaxPageSize; }
      if limit < 1 { limit := DefaultPageSize; }
      assert limit == EffectiveLimit(q.limit);
      var ts := tasks;
      var fetched: seq<TaskItem> := [];
      var i := 0;
      while i < |ts| && |fetched| < limit + 1
        invariant 0 <= i <= |ts|
        invariant fetched == Filter(ts[..i], q)
        invariant |fetched| <= limit + 1
      {
        FilterSnoc(ts, q, i);
        if Matches(q, ts[i]) {
          fetched := fetched + [ts[i]];
        }
        i := i + 1;
      }
      FetchedIsTake(ts, q, i, limit);
      var hasNextPage := |fetched| > limit;
      if hasNextPage {
        fetched := fetched[..|fetched| - 1];
      }
      var nextCursor := if hasNextPage && |fetched| > 0 then Some(fetched[|fetched| - 1].id) else None;
      r := ActionResult(StatusOk, SuccessResult(TaskListResponse(fetched, hasNextPage, nextCursor, limit), None));
    }

    /** The position of the first row with this id that is active (soft-deleted when `deleted`). */
    method Locate(id: int, deleted: bool) returns (k: Option<nat>)
      ensures k == Find(tasks, id, deleted)
    {
      var i := 0;
      while i < |tasks|
        invariant 0 <= i <= |tasks|
        invariant forall j :: 0 <= j < i ==> !Hit(tasks[j], id, deleted)
      {
        if tasks[i].id == id && tasks[i].IsActive() != deleted {
          return Some(i);
        }
        i := i + 1;
      }
      return None;
    }

    /** `GET /api/tasks/{id}`. */
    method GetTaskById(id: int) returns (r: ActionResult<ApiResponse<TaskItem>>)
      ensures r == GetTask(tasks, id)
    {
      if id <= 0 {
        return ActionResult(StatusBadRequest, ErrorResult(InvalidTaskId, None));
      }
      var k := Locate(id, false);
      if k.None? {
        return ActionResult(StatusNotFound, ErrorResult(TaskNotFound, None));
      }
      r := ActionResult(StatusOk, SuccessResult(tasks[k.value], None));
    }

    /** `POST /api/tasks`. */
    method Create(req: CreateTaskRequest, now: Time) returns (r: ActionResult<ApiResponse<TaskItem>>)
      requires Valid()
      modifies this
      ensures Valid()
      ensures (r, Model()) == CreateTask(old(Model()), req, now)
    {
      CreatePreservesValid(Model(), req, now);
      var errors := ValidateCreate(req);
      if errors != [] {
        return ActionResult(StatusBadRequest, ErrorResult(ValidationFailed, Some(errors)));
      }
      CreateValidIff(req);
      var task := NewTask(req, nextId, now);
      tasks := tasks + [task];
      nextId := nextId + 1;
      r := ActionResult(StatusCreated, SuccessResult(task, Some("Task created successfully")));
    }

    /** `PUT /api/tasks/{id}`. */
    method Update(id: int, req: UpdateTaskRequest, now: Time, today: Time) returns (r: ActionResult<PlainResponse>)
      requires Valid()
      modifies this
      ensures Valid()
      ensures (r, Model()) == UpdateTask(old(Model()), id, req, now, today)
    {
      UpdatePreservesValid(Model(), id, req, now, today);
      if id <= 0 {
        return ActionResult(StatusBadRequest, PlainError(InvalidTaskId, None));
      }
      var errors := ValidateUpdate(req, today);
      if errors != [] {
        return ActionResult(StatusBadRequest, PlainError(ValidationFailed, Some(errors)));
      }
      var k := Locate(id, false);
      if k.None? {
        return ActionResult(StatusNotFound, PlainError(TaskNotFound, None));
      }
      UpdateValidIff(req, today);
      var task := tasks[k.value];
      task := task.(title := req.title, description := req.description);
      task := task.(status := StatusOf(req.status), priority := PriorityOf(req.priority));
      task := task.(dueDate := req.dueDate, tags := req.tags.GetOr("[]"), updatedAt := now);
      tasks := tasks[k.value := task];
      r := ActionResult(StatusOk, PlainSuccess(Some("Task updated successfully")));
    }

    /** `DELETE /api/tasks/{id}`: a soft delete. */
    method Delete(id: int, now: Time) returns (r: ActionResult<PlainResponse>)
      requires Valid()
      modifies this
      ensures Valid()
      ensures (r, Model()) == DeleteTask(old(Model()), id, now)
    {
      DeletePreservesValid(Model(), id, now);
      if id <= 0 {
        return ActionResult(StatusBadRequest, PlainError(InvalidTaskId, None));
      }
      var k := Locate(id, false);
      if k.None? {
        return ActionResult(StatusNotFound, PlainError(TaskNotFound, None));
      }
      tasks := tasks[k.value := tasks[k.value].(deletedAt := Some(now), updatedAt := now)];
      r := ActionResult(StatusOk, PlainSuccess(Some("Task deleted successfully")));
    }

    /** `POST /api/tasks/{id}/restore`. */
    method Restore(id: int, now: Time) returns (r: ActionResult<PlainResponse>)
      requires Valid()
      modifies this
      ensures Valid()
      ensures (r, Model()) == RestoreTask(old(Model()), id, now)
    {
      RestorePreservesValid(Model(), id, now);
      if id <= 0 {
        return ActionResult(StatusBadRequest, PlainError(InvalidTaskId, None));
      }
      var k := Locate(id, true);
      if k.None? {
        return ActionResult(StatusNotFound, PlainError(DeletedTaskNotFound, None));
      }
      tasks := tasks[k.value := tasks[k.value].(deletedAt := None, updatedAt := now)];
      r := ActionResult(StatusOk, PlainSuccess(Some("Task restored successfully")));
    }

    /** The ids of the rows the bulk query loads. */
    method LoadSelected(ids: seq<int>) returns (found: seq<int>)
      ensures found == FoundIds(tasks, ids)
    {
      found := [];
      var i := 0;
      while i < |tasks|
        invariant 0 <= i <= |tasks|
        invariant found == FoundIds(tasks[..i], ids)
      {
        assert tasks[..i + 1][..i] == tasks[..i];
        if tasks[i].id in ids && tasks[i].IsActive() {
          found := found + [tasks[i].id];
        }
        i := i + 1;
      }
      assert tasks[..i] == tasks;
    }

    /** The update loop of `BulkUpdate`: patches every selected row in place, in table order. */
    method ApplyPatches(req: BulkUpdateRequest, now: Time)
      requires req.status.Some? ==> IsInEnum(req.status.value)
      modifies this
      ensures tasks == BulkApply(old(tasks), req, now) && nextId == old(nextId)
    {
      ghost var before := tasks;
      var i := 0;
      while i < |tasks|
        invariant 0 <= i <= |tasks| == |before|
        invariant nextId == old(nextId)
        invariant forall j :: 0 <= j < i ==> tasks[j] == BulkApply(before, req, now)[j]
        invariant forall j :: i <= j < |tasks| ==> tasks[j] == before[j]
      {
        if tasks[i].id in req.taskIds && tasks[i].IsActive() {
          var task := tasks[i];
          if req.status.Some? {
            task := task.(status := StatusOf(req.status.value));
          }
          if req.delete == Some(true) {
            task := task.(deletedAt := Some(now));
          }
          task := task.(updatedAt := now);
          tasks := tasks[i := task];
        }
        i := i + 1;
      }
    }

    /** `PATCH /api/tasks/bulk`: checks every requested row is loaded, then patches them one by one. */
    method Bulk(req: BulkUpdateRequest, now: Time) returns (r: ActionResult<PlainResponse>)
      requires Valid()
      modifies this
      ensures Valid()
      ensures (r, Model()) == BulkUpdate(old(Model()), req, now)
    {
      BulkPreservesValid(Model(), req, now);
      var errors := ValidateBulk(req);
      if errors != [] {
        return ActionResult(StatusBadRequest, PlainError(ValidationFailed, Some(errors)));
      }
      var found := LoadSelected(req.taskIds);
      if |found| == 0 {
        return ActionResult(StatusNotFound, PlainError(NoTasksFound, None));
      }
      if |found| != |req.taskIds| {
        var missing := Except(req.taskIds, ToSet(found));
        return ActionResult(StatusBadRequest, PlainError("Tasks not found: " + IdList(missing), None));
      }
      BulkValidIff(req);
      ApplyPatches(req, now);
      var action := if req.delete == Some(true) then "deleted" else "updated";
      r := ActionResult(StatusOk, PlainSuccess(Some(NatToString(|found|) + " tasks " + action + " successfully")));
    }
  }
}
