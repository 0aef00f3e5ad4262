# Todo Manager: a Dafny model of the task API and its web client

This project models the core of a small task manager. The backend is an ASP.NET Core
API over a `Tasks` and a `Users` table. The frontend is a React client with a task list,
a task form, per-task rows, sign-in and sign-up forms, toasts, a filter bar, sort controls
and environment configuration.

Each source file has its own module:

| module | source |
|---|---|
| `TaskItemModel` | `TaskItem`, `TaskStatus` and `TaskPriority` |
| `TaskDtos` | the request bodies |
| `ApiResponses` | the `ApiResponse` envelope |
| `TaskValidators` | the three FluentValidation validators |
| `TasksController` | the task endpoints over an in-memory table, as functions and as the class `TaskStore` |
| `AuthService` | password hashing, registration and login, as functions and as the class `Accounts` |
| `ClientTask` | the client's `Task` type |
| `TaskList` | selection handling in the list |
| `TaskForm` | the create form, its validation, tag processing and payload |
| `TaskItemView` | one row: status toggle, editor, texts, overdue flag and actions |
| `FormState` | what the two auth forms share: error blanking, e-mail pattern and result toasts |
| `LoginForm` | the sign-in form |
| `RegisterForm` | the sign-up form |
| `ToastContainer` | the toast provider |
| `FilterBar` | the filter bar's callbacks |
| `SortControls` | the sort controls |
| `EnvConfig` | `env.ts` |

`Text` holds string helpers that both halves use. It keeps the .NET and the ECMAScript
white-space sets apart, and measures lengths in UTF-16 code units. `Json` is the part of
JSON (RFC 8259) that tags use: an array of strings or nulls, read back and written by
`JSON.stringify`. `Seqs` holds two sequence identities, and `Wrappers` holds `Option` and `Result`.

## How the pieces are modelled

- **The clock is a parameter.** Server times are `DateTime` ticks (`Time = int`). Every
  operation that stamps a time takes `now`; the due-date rule takes `today`. The client
  compares browser `Date` values in milliseconds (`TaskItemView.Millis`).
- **The table keeps its order.** The `Tasks` table is a sequence in identity order.
  `StoreValid` keeps the ids strictly ascending and below `nextId`.
- **Endpoints are functions, the store is a class.**
  - Each endpoint is a function from the store to an `(ActionResult, Store)` pair.
  - The class `TaskStore` keeps `tasks` and `nextId` as fields, and its methods run the
    source's scans as loops.
  - Each method's `ensures` ties its result and new state to the function.
- **Crypto is abstract.**
  - PBKDF2, base64 and the JWT writer are function values in `Primitives`.
  - The predicate `Sound` states the only two facts the service relies on: PBKDF2 length,
    and base64 decoding what it encoded.
  - The random salt is a parameter.
- **React state becomes a class.** Component state that handlers update (`formData`,
  `errors`, `editData`, `isEditing`, the toast list) is a class with `modifies` clauses.
- **Functions stay functions.** Pure helpers such as `parseTags`, `getStatusText`,
  `handleSelectTask` and the env readers are functions.
- **Callbacks are return values.** What a component hands to a callback (`onSubmit`,
  `onUpdate`, `onSelectionChange`, `onSortChange` and the filter callbacks) is returned
  as a value.

## Model

| member | source | states |
|---|---|---|
| TaskItemModel.TaskStatus.Value | backend/ToDoApi/Models/TaskItem.cs:34-39 | Pending, InProgress and Completed carry the wire values 0, 1 and 2 |
| TaskItemModel.TaskPriority.Value | backend/ToDoApi/Models/TaskItem.cs:41-46 | Low, Medium and High carry the wire values 0, 1 and 2 |
| TaskItemModel.StatusOf | backend/ToDoApi/Models/TaskItem.cs:34-39 | the status cast from a value in 0..2 has that value |
| TaskItemModel.StatusValueRoundTrip | backend/ToDoApi/Models/TaskItem.cs:34-39 | casting a status's value back gives the status |
| TaskItemModel.PriorityOf | backend/ToDoApi/Models/TaskItem.cs:41-46 | the priority cast from a value in 0..2 has that value |
| TaskItemModel.PriorityValueRoundTrip | backend/ToDoApi/Models/TaskItem.cs:41-46 | casting a priority's value back gives the priority |
| TaskItemModel.NewTaskItem | backend/ToDoApi/Models/TaskItem.cs:5-32 | a new task is active and Pending, with Medium priority, tags "[]" and both stamps at the creation time |
| TaskDtos.DefaultCreateTaskRequest | backend/ToDoApi/Models/TaskDtos.cs:5-18 | a new create request has an empty title, Medium priority and nothing else set |
| TaskDtos.DefaultUpdateTaskRequest | backend/ToDoApi/Models/TaskDtos.cs:20-35 | a new update request has an empty title and its enums at zero (Pending, Low) |
| TaskDtos.DefaultBulkUpdateRequest | backend/ToDoApi/Models/TaskDtos.cs:37-45 | a new bulk request has no ids, no status and no delete flag |
| ApiResponses.DefaultValidationError | backend/ToDoApi/Models/ApiResponse.cs:57-61 | a new validation error has an empty field and an empty message |
| ApiResponses.SuccessResult | backend/ToDoApi/Models/ApiResponse.cs:10-18 | a success envelope carries the data and the message, and no errors |
| ApiResponses.ErrorResult | backend/ToDoApi/Models/ApiResponse.cs:20-28 | an error envelope is unsuccessful, carries no data, and has the message and errors given |
| ApiResponses.PlainSuccess | backend/ToDoApi/Models/ApiResponse.cs:37-44 | the non-generic success envelope carries the message and no errors |
| ApiResponses.PlainError | backend/ToDoApi/Models/ApiResponse.cs:46-54 | the non-generic error envelope is unsuccessful, with the message and errors given |
| ApiResponses.PlainAgreesWithGeneric | backend/ToDoApi/Models/ApiResponse.cs:10-54 | the generic and non-generic factories agree on success, message and errors |
| TaskValidators.CreateValidIff | backend/ToDoApi/Models/Validators/TaskValidators.cs:5-44 | the create validator reports nothing iff the title is not blank and fits 200 code units, the description fits 2000, the priority is 0..2 and the tags are a valid array |
| TaskValidators.UpdateValidIff | backend/ToDoApi/Models/Validators/TaskValidators.cs:46-94 | the update validator reports nothing iff the create rules hold, the status is 0..2 and any due date is later than the start of yesterday |
| TaskValidators.BulkValidIff | backend/ToDoApi/Models/Validators/TaskValidators.cs:96-117 | the bulk validator reports nothing iff there is at least one id, every id is positive, any status is 0..2, and a status or a delete flag is present |
| TaskValidators.TagsErrorsEmpty | backend/ToDoApi/Models/Validators/TaskValidators.cs:24-43 | the tag rule is silent iff tags are null, empty, or a JSON array of non-blank strings |
| TaskValidators.TaskIdErrorsEmpty | backend/ToDoApi/Models/Validators/TaskValidators.cs:104-106 | the per-id rule reports nothing iff every id is positive |
| TaskValidators.TitleMessages | backend/ToDoApi/Models/Validators/TaskValidators.cs:9-13 | the "required" message appears iff the title is blank, the length message iff it exceeds 200 code units, and both run |
| TaskValidators.EmptyTitleRejected | backend/ToDoApi.Tests/Unit/ValidationTests.cs:28-41 | an empty title gives exactly one error, "Title is required" on Title |
| TaskValidators.TitleLengthBoundary | backend/ToDoApi.Tests/Unit/ValidationTests.cs:43-56 | n copies of a visible character: none is "required", 1..200 pass, more give exactly the length message |
| TaskValidators.InvalidJsonTagsRejected | backend/ToDoApi.Tests/Unit/ValidationTests.cs:58-72 | tags "invalid json" give exactly one error, on Tags |
| TaskValidators.StringifiedTagsAccepted | backend/ToDoApi/Models/Validators/TaskValidators.cs:30-43 | `JSON.stringify` of non-blank strings always passes the tag rule |
| TaskValidators.BulkExamples | backend/ToDoApi.Tests/Unit/ValidationTests.cs:92-132 | the bulk test requests: ids 1,2,3 with Completed pass; no status or flag fails; no ids fails on TaskIds |
| TaskValidators.DeleteFalseCounts | backend/ToDoApi/Models/Validators/TaskValidators.cs:113-115 | a delete flag of `false` satisfies the status-or-delete rule |
| TaskValidators.DefaultBulkRejected | backend/ToDoApi/Models/Validators/TaskValidators.cs:96-117 | the default bulk request breaks exactly the ids rule and the status-or-delete rule, in that order |
| TaskValidators.DueDateToday | backend/ToDoApi/Models/Validators/TaskValidators.cs:69-72 | a due date after the start of yesterday passes; exactly one day before today fails |
| TaskValidators.AnnotationsAgree | backend/ToDoApi/Models/TaskDtos.cs:7-8 | the `[Required]`/`[MaxLength(200)]` title annotations accept exactly the titles the two title rules accept, so every request the create or update validator accepts passes them |
| TasksController.EffectiveLimit | backend/ToDoApi/Controllers/TasksController.cs:45-46 | the page size is clamped: above 100 becomes 100, below 1 becomes 10, otherwise kept |
| TasksController.Filter | backend/ToDoApi/Controllers/TasksController.cs:50-73 | filtering never adds rows |
| TasksController.FilterSorted | backend/ToDoApi/Controllers/TasksController.cs:50-75 | filtering a table in id order keeps id order, so the `OrderBy(Id)` changes nothing |
| TasksController.FilterPrefix | backend/ToDoApi/Controllers/TasksController.cs:77 | the matches among the first rows are a prefix of all the matches |
| TasksController.FilterNarrowed | backend/ToDoApi/Controllers/TasksController.cs:70-73 | adding the cursor condition `Id > cursor` keeps exactly the matches above the cursor |
| TasksController.FilterSpec | backend/ToDoApi/Controllers/TasksController.cs:50-73 | the filtered rows all match the query, and every matching row is kept |
| TasksController.PageBounds | backend/ToDoApi/Controllers/TasksController.cs:77-93 | a page is the first min(limit, n) matches, and there is a next page iff n > limit |
| TasksController.PageSound | backend/ToDoApi/Controllers/TasksController.cs:50-73 | every task on a page passes each filter in force: deleted, status, priority, title search and cursor |
| TasksController.NextCursorRule | backend/ToDoApi/Controllers/TasksController.cs:79-85 | the next cursor is the id of the page's last task when there is a next page, and absent otherwise |
| TasksController.PageOrdered | backend/ToDoApi/Controllers/TasksController.cs:75 | pages list tasks in strictly increasing id order |
| TasksController.FetchedIsTake | backend/ToDoApi/Controllers/TasksController.cs:77 | scanning until limit+1 matches are found collects `Take(limit + 1)` of the matches |
| TasksController.NextPageIsRest | backend/ToDoApi/Controllers/TasksController.cs:70-85 | querying again with the returned cursor gives exactly the matches not yet shown |
| TasksController.CursorWalk | backend/ToDoApi/Controllers/TasksController.cs:70-93 | paging through an unchanged table yields every match exactly once, in id order |
| TasksController.Find | backend/ToDoApi/Controllers/TasksController.cs:117-119 | the lookup finds the first row with that id that is active (or soft-deleted for restore), and none iff there is no such row |
| TasksController.FindUnique | backend/ToDoApi/Controllers/TasksController.cs:117-119 | in a valid table the row found is the only row with that id |
| TasksController.InvalidIdRejected | backend/ToDoApi/Controllers/TasksController.cs:112-115 | a non-positive id gets 400 "Invalid task ID" from get, update, delete and restore, and the table is unchanged |
| TasksController.MissingTaskNotFound | backend/ToDoApi/Controllers/TasksController.cs:198-205 | an id with no active row gets 404 "Task not found" from get, delete and a valid update, and the table is unchanged |
| TasksController.CreateRejected | backend/ToDoApi/Controllers/TasksController.cs:141-151 | an invalid create gets 400 "Validation failed" with the validator's errors, and nothing is added |
| TasksController.CreateAdds | backend/ToDoApi/Controllers/TasksController.cs:153-167 | a valid create returns 201 and appends one row: fresh id, the request's fields, tags defaulting to "[]", Pending, active, stamped now |
| TasksController.UpdateOverwrites | backend/ToDoApi/Controllers/TasksController.cs:207-218 | an update of an active row rewrites the six request fields and `UpdatedAt`, and keeps id, creation time, deletion and owner; other rows are untouched |
| TasksController.DeleteTwice | backend/ToDoApi/Controllers/TasksController.cs:237-251 | delete stamps `DeletedAt` and `UpdatedAt` on the one row; deleting it again is 404 |
| TasksController.RestoreNeedsDeleted | backend/ToDoApi/Controllers/TasksController.cs:270-277 | restore of an id with no soft-deleted row is 404 "Deleted task not found", and nothing changes |
| TasksController.RestoreClears | backend/ToDoApi/Controllers/TasksController.cs:260-284 | restoring any soft-deleted row is 200 "Task restored successfully"; that row's `DeletedAt` is cleared and its `UpdatedAt` is the current time, and every other row is kept |
| TasksController.GetFound | backend/ToDoApi/Controllers/TasksController.cs:107-127 | getting the id of any active row is 200 with exactly that row |
| TasksController.DeleteRestoreRoundTrip | backend/ToDoApi/Controllers/TasksController.cs:227-291 | delete then restore puts the task back in the default listing with only `UpdatedAt` changed |
| TasksController.FoundIds | backend/ToDoApi/Controllers/TasksController.cs:310-312 | the bulk query loads exactly the active rows whose id was requested |
| TasksController.FoundIdsDistinct | backend/ToDoApi/Controllers/TasksController.cs:310-312 | the loaded ids are distinct |
| TasksController.Except | backend/ToDoApi/Controllers/TasksController.cs:321-322 | the missing ids are the requested ids not loaded, each once |
| TasksController.AllFound | backend/ToDoApi/Controllers/TasksController.cs:319 | if the number of loaded rows equals the number of requested ids, then the requested ids are distinct and each one is the id of an active row |
| TasksController.MissingIdsIff | backend/ToDoApi/Controllers/TasksController.cs:321-322 | the list of missing ids is empty if and only if every requested id is the id of an active row |
| TasksController.BulkAllOrNothing | backend/ToDoApi/Controllers/TasksController.cs:293-346 | a failed bulk update changes nothing; a successful one patches exactly the requested rows (status if given, deletion if the flag is true, `UpdatedAt`) and keeps the rest |
| TasksController.BulkSucceeds | backend/ToDoApi/Controllers/TasksController.cs:293-346 | conversely, a valid request whose ids are distinct and all name active rows succeeds with "N tasks updated successfully" (or "deleted"), N being the number of ids, and patches exactly those rows |
| TasksController.PatchEffects | backend/ToDoApi/Controllers/TasksController.cs:326-339 | the update loop keeps the table valid and changes only the selected rows |
| TasksController.BulkDuplicateIds | backend/ToDoApi/Controllers/TasksController.cs:319-324 | active ids with one repeated are refused with 400 "Tasks not found: " and an empty list |
| TasksController.BulkNoneFound | backend/ToDoApi/Controllers/TasksController.cs:314-317 | when no requested id names an active row, the answer is 404 "No tasks found to update" |
| TasksController.CreatePreservesValid | backend/ToDoApi/Controllers/TasksController.cs:136-174 | create keeps ids unique, ascending and below `nextId` |
| TasksController.UpdatePreservesValid | backend/ToDoApi/Controllers/TasksController.cs:176-225 | update keeps the table valid |
| TasksController.DeletePreservesValid | backend/ToDoApi/Controllers/TasksController.cs:227-258 | delete keeps the table valid |
| TasksController.RestorePreservesValid | backend/ToDoApi/Controllers/TasksController.cs:260-291 | restore keeps the table valid |
| TasksController.BulkPreservesValid | backend/ToDoApi/Controllers/TasksController.cs:293-353 | the bulk update keeps the table valid |
| TasksController.TaskStore.constructor | backend/ToDoApi/Data/TodoDbContext.cs:12-21 | a new store is an empty valid table whose identity starts at 1 |
| TasksController.TaskStore.GetTasks | backend/ToDoApi/Controllers/TasksController.cs:34-105 | the loop's page equals `Page`, returned with 200 |
| TasksController.TaskStore.Locate | backend/ToDoApi/Controllers/TasksController.cs:117-119 | the loop's position equals `Find` |
| TasksController.TaskStore.GetTaskById | backend/ToDoApi/Controllers/TasksController.cs:107-134 | the result equals `GetTask` on the table |
| TasksController.TaskStore.Create | backend/ToDoApi/Controllers/TasksController.cs:136-174 | the result and new state equal `CreateTask`, and the table stays valid |
| TasksController.TaskStore.Update | backend/ToDoApi/Controllers/TasksController.cs:176-225 | the result and new state equal `UpdateTask`, and the table stays valid |
| TasksController.TaskStore.Delete | backend/ToDoApi/Controllers/TasksController.cs:227-258 | the result and new state equal `DeleteTask`, and the table stays valid |
| TasksController.TaskStore.Restore | backend/ToDoApi/Controllers/TasksController.cs:260-291 | the result and new state equal `RestoreTask`, and the table stays valid |
| TasksController.TaskStore.LoadSelected | backend/ToDoApi/Controllers/TasksController.cs:310-312 | the loop's ids equal `FoundIds` |
| TasksController.TaskStore.ApplyPatches | backend/ToDoApi/Controllers/TasksController.cs:326-339 | the in-place loop leaves the table equal to `BulkApply` of the old table |
| TasksController.TaskStore.Bulk | backend/ToDoApi/Controllers/TasksController.cs:293-353 | the result and new state equal `BulkUpdate`, and the table stays valid |
| AuthService.HashPassword | backend/ToDoApi/Services/AuthService.cs:119-133 | the stored hash decodes to 48 bytes: the salt, then the 32-byte PBKDF2 key |
| AuthService.VerifyPassword | backend/ToDoApi/Services/AuthService.cs:135-151 | the loop's answer, or the exception it throws, equals `Verify` |
| AuthService.VerifyMeaning | backend/ToDoApi/Services/AuthService.cs:135-151 | on a 48-byte hash, verification is true iff bytes 16..47 equal the key derived from bytes 0..15 |
| AuthService.VerifyFirstMismatch | backend/ToDoApi/Services/AuthService.cs:144-148 | the loop answers false at the first differing byte, before it could read past a short buffer |
| AuthService.HashThenVerify | backend/ToDoApi/Services/AuthService.cs:119-151 | a hash made from a password verifies that password |
| AuthService.FindUser | backend/ToDoApi/Services/AuthService.cs:27-28 | the lookup finds the first user whose e-mail equals the given one ignoring case, and none iff there is none |
| AuthService.FindUserByLowered | backend/ToDoApi/Services/AuthService.cs:27-28 | two e-mails with the same lower-cased form find the same account |
| AuthService.CapitalsFindSameAccount | backend/ToDoApi/Services/AuthService.cs:27-28 | an e-mail typed in capitals finds the same account as the address as stored |
| AuthService.RegisterDuplicate | backend/ToDoApi/Services/AuthService.cs:57-61 | an e-mail already taken, in any letter case, is refused and nothing is added |
| AuthService.RegisterAdds | backend/ToDoApi/Services/AuthService.cs:63-88 | a new e-mail adds one user with a fresh id, the lower-cased e-mail and a verifying hash; the response describes that row and expires in 7 days |
| AuthService.LoginIndistinguishable | backend/ToDoApi/Services/AuthService.cs:30-34 | an unknown e-mail and a wrong password give the same null result |
| AuthService.LoginSucceeds | backend/ToDoApi/Services/AuthService.cs:36-51 | a successful login matched a stored user by e-mail and password, and returns that user's stored fields with a 7-day expiry |
| AuthService.RegisterThenLogin | backend/ToDoApi/Services/AuthService.cs:25-89 | after registering, logging in with the password and the e-mail in any letter case succeeds |
| AuthService.Accounts.constructor | backend/ToDoApi/Services/AuthService.cs:19-24 | a new service has an empty, valid user table |
| AuthService.Accounts.LookUp | backend/ToDoApi/Services/AuthService.cs:27-28 | the loop's position equals `FindUser` |
| AuthService.Accounts.LoginAsync | backend/ToDoApi/Services/AuthService.cs:25-52 | the result equals `Login` |
| AuthService.Accounts.RegisterAsync | backend/ToDoApi/Services/AuthService.cs:54-89 | the result and new table equal `Register`, and the table stays valid |
| TaskList.Ids | frontend/src/components/TaskList.tsx:25 | the ids of the tasks, in list order |
| TaskList.SelectAll | frontend/src/components/TaskList.tsx:23-29 | checking selects every task id in list order; unchecking selects none |
| TaskList.Without | frontend/src/components/TaskList.tsx:35 | removal never lengthens the selection |
| TaskList.SelectTask | frontend/src/components/TaskList.tsx:31-37 | checking appends the id, keeping duplicates; unchecking removes it |
| TaskList.WithoutCounts | frontend/src/components/TaskList.tsx:35 | removal drops every occurrence of the id and keeps the count of every other id |
| TaskList.WithoutCountsStep | frontend/src/components/TaskList.tsx:35 | one induction step of `WithoutCounts`: the counts after removal carry over from the tail to the whole selection |
| TaskList.WithoutAppend | frontend/src/components/TaskList.tsx:35 | removal works piece by piece, so the remaining ids keep their order |
| TaskList.WithoutAbsent | frontend/src/components/TaskList.tsx:35 | removing an id that is not selected changes nothing |
| TaskList.WithoutMembers | frontend/src/components/TaskList.tsx:35 | after removal, exactly the other selected ids remain |
| TaskList.SelectTaskFlags | frontend/src/components/TaskList.tsx:31-37 | checking marks the task selected, unchecking clears it, and other tasks keep their state |
| TaskList.CheckThenUncheck | frontend/src/components/TaskList.tsx:31-37 | checking then unchecking a task is the same as unchecking it |
| TaskList.SelectAllChecksAll | frontend/src/components/TaskList.tsx:39-40 | after Select All on a non-empty list, the header is checked, not indeterminate, and every task is selected |
| TaskList.SelectNoneClears | frontend/src/components/TaskList.tsx:39-40 | after clearing, the header is neither checked nor indeterminate and no task is selected |
| TaskList.HeaderStatesExclusive | frontend/src/components/TaskList.tsx:39-40 | the header is never both checked and indeterminate |
| TaskList.AllSelectedByCount | frontend/src/components/TaskList.tsx:39 | the header counts ids: one id selected twice checks it while another task is unselected |
| TaskList.SelectionExamples | frontend/src/components/__tests__/TaskList.test.tsx:55-108 | the tests' cases: select all sends [1,2,3]; checking 1 sends [1]; unchecking 1 from [1,2] sends [2] |
| TaskForm.InitialFormData | frontend/src/components/TaskForm.tsx:11-17 | the form starts empty, with Medium priority |
| TaskForm.TaskFormState.constructor | frontend/src/components/TaskForm.tsx:11-18 | a new form has the initial data and no errors |
| TaskForm.TaskFormState.ValidateForm | frontend/src/components/TaskForm.tsx:20-43 | the error record becomes `FormErrors` of the data, and the answer is true iff it is empty |
| TaskForm.TaskFormState.HandleSubmit | frontend/src/components/TaskForm.tsx:45-71 | nothing is submitted iff validation fails; otherwise `Payload` of the data is submitted |
| TaskForm.TaskFormState.HandleInputChange | frontend/src/components/TaskForm.tsx:73-80 | one field takes the new value and that field's message is blanked |
| TaskForm.ValidIff | frontend/src/components/TaskForm.tsx:20-43 | the form is valid iff the title is not all white space and fits 200 code units; no tag error is ever recorded |
| TaskForm.TitleMessages | frontend/src/components/TaskForm.tsx:23-27 | a blank title gives only "Title is required"; a long non-blank one only the length message |
| TaskForm.EditTouchesOneField | frontend/src/components/TaskForm.tsx:73-75 | an edit sets its own field and leaves the other four as they were |
| TaskForm.Payload | frontend/src/components/TaskForm.tsx:62-68 | the payload has the trimmed title, the trimmed description or none when blank, the priority, the due date or none, and the processed tags |
| TaskForm.CleanPiece | frontend/src/components/TaskForm.tsx:57-58 | one piece yields at most one tag |
| TaskForm.CleanPieces | frontend/src/components/TaskForm.tsx:57-58 | trimming and dropping empty tags never adds tags |
| TaskForm.CleanPiecesAppend | frontend/src/components/TaskForm.tsx:55-58 | cleaning works piece by piece, so tags keep the order they were typed in |
| TaskForm.CleanPiecesStep | frontend/src/components/TaskForm.tsx:55-58 | one induction step of `CleanPiecesAppend`: the step from the tail to the whole list keeps the append law |
| TaskForm.CleanTagsAppend | frontend/src/components/TaskForm.tsx:55-58 | the tags of `a,b` are the tags of `a` followed by those of `b` |
| TaskForm.CleanPiecesShape | frontend/src/components/TaskForm.tsx:55-58 | every tag kept is non-empty and has no white space at either end |
| TaskForm.CleanPiecesChars | frontend/src/components/TaskForm.tsx:55-58 | every character of every tag was typed into the field |
| TaskForm.LeadingSpaceDropped | frontend/src/components/TaskForm.tsx:57 | a leading space does not change the tags |
| TaskForm.CleanPlain | frontend/src/components/TaskForm.tsx:57-58 | a piece with no white space at either end is kept as it is |
| TaskForm.CleanTagsPlain | frontend/src/components/TaskForm.tsx:53-58 | a plain tag typed alone is read as exactly that tag |
| TaskForm.CommaListTags | frontend/src/components/TaskForm.tsx:53-60 | plain tags typed with ", " between them come back exactly, in order |
| TaskForm.CommaListStep | frontend/src/components/TaskForm.tsx:53-58 | one induction step of `CommaListTags`: a plain tag in front of a list that reads back reads back too |
| TaskForm.CommaListPayload | frontend/src/components/TaskForm.tsx:53-60 | the payload of such input is the JSON array of those tags |
| TaskForm.TagsRoundTrip | frontend/src/components/TaskForm.tsx:53-60 | reading the submitted tag field back as JSON gives exactly the cleaned tags |
| TaskForm.TagsAcceptedByServer | frontend/src/components/TaskForm.tsx:53-60 | without U+0085 in the input, the server's tag rule accepts the submitted tags |
| TaskForm.NextLineTagRefused | backend/ToDoApi/Models/Validators/TaskValidators.cs:37 | a tag of U+0085 alone survives the client's trim and is refused by the server |
| TaskForm.TitleAcceptedByServer | frontend/src/components/TaskForm.tsx:23-27 | a title the form accepts passes the server's title rule once trimmed, unless it holds U+0085 |
| TaskForm.TrimmedTitleOk | frontend/src/components/TaskForm.tsx:63 | trimming a title with a visible character keeps one and never lengthens it |
| TaskForm.EscapePlain | frontend/src/components/TaskForm.tsx:54 | a tag without quotes, back-slashes or control characters is written as itself |
| TaskForm.QuotePlain | frontend/src/components/TaskForm.tsx:54 | such a tag is written between two plain quotes |
| TaskForm.JoinExample | frontend/src/components/__tests__/TaskForm.test.tsx:59-83 | the tags tag1 and tag2 joined with ", " are the test's input text |
| TaskForm.TagsExample | frontend/src/components/__tests__/TaskForm.test.tsx:59-83 | "tag1, tag2" gives the tags tag1 and tag2 and is sent as their JSON array |
| TaskItemView.ToggledStatus | frontend/src/components/TaskItem.tsx:32-37 | the toggle gives Completed iff the status was not Completed, and Pending otherwise |
| TaskItemView.StatusToggle | frontend/src/components/TaskItem.tsx:32-37 | `onUpdate` gets the task's id and the task with only its status toggled |
| TaskItemView.ToggleTwice | frontend/src/components/TaskItem.tsx:32-37 | toggling twice restores Pending and Completed; In Progress ends up Pending |
| TaskItemView.StatusTextsDistinct | frontend/src/components/TaskItem.tsx:75-86 | the three statuses have different texts, and only other values get the fall-back "Uknown" |
| TaskItemView.PriorityTextsDistinct | frontend/src/components/TaskItem.tsx:88-97 | a priority has a text iff it is 0..2, and different ones differ |
| TaskItemView.ShowsTypedTags | frontend/src/components/TaskItem.tsx:67-73 | a row shows exactly the tags typed into the task form |
| TaskItemView.NonArrayShowsNothing | frontend/src/components/TaskItem.tsx:67-73 | tag text that is not an array shows no tags |
| TaskItemView.OverdueRules | frontend/src/components/TaskItem.tsx:99-100 | completed tasks and tasks without a due date are never overdue, and an overdue task stays overdue as time passes |
| TaskItemView.ToggleClearsOverdue | frontend/src/components/TaskItem.tsx:32-37 | toggling an overdue task clears the flag, and toggling a pending one back restores it |
| TaskItemView.OverdueExample | frontend/src/components/__tests__/TaskItem.test.tsx:62-73 | the tests' pending task due 2025-08-01 is overdue once that instant has passed |
| TaskItemView.Actions | frontend/src/components/TaskItem.tsx:203-227 | a soft-deleted row offers Restore and nothing else; other rows offer no Restore |
| TaskItemView.DatePart | frontend/src/components/TaskItem.tsx:28 | the date part has no 'T' |
| TaskItemView.DatePartIsPrefix | frontend/src/components/TaskItem.tsx:28 | the date part is what precedes the first 'T', or the whole text |
| TaskItemView.DatePartOfDateTime | frontend/src/components/TaskItem.tsx:28 | the date part of an ISO date-time is its date |
| TaskItemView.EditDataOf | frontend/src/components/TaskItem.tsx:22-30 | the editor starts from the task, with a missing description or due date as "" and the due date cut to its date |
| TaskItemView.Saved | frontend/src/components/TaskItem.tsx:43-49 | an empty due date is saved as null |
| TaskItemView.SaveUnchanged | frontend/src/components/TaskItem.tsx:43-49 | saving without edits sends the task's own values, with its due date cut to the date |
| TaskItemView.SaveAfterTitleEdit | frontend/src/components/__tests__/TaskItem.test.tsx:150-175 | editing only the title saves the new title and everything else as loaded |
| TaskItemView.TaskRow.constructor | frontend/src/components/TaskItem.tsx:22-30 | a new row is not editing and holds the editor data of the task it is mounted with |
| TaskItemView.TaskRow.Rerender | frontend/src/components/TaskList.tsx:68-80 | a re-render with a reloaded task replaces the `task` prop and keeps the editor state (`editData`, `isEditing`) as it was |
| TaskItemView.TaskRow.HandleEdit | frontend/src/components/TaskItem.tsx:39-41 | the editor opens with its data unchanged, which may be stale after a re-render |
| TaskItemView.TaskRow.HandleChange | frontend/src/components/TaskItem.tsx:119-157 | one editor field takes the new value and nothing else changes |
| TaskItemView.TaskRow.HandleSave | frontend/src/components/TaskItem.tsx:43-49 | `onUpdate` gets the current task's id and `Saved` of the editor data, and the editor closes |
| TaskItemView.TaskRow.HandleCancel | frontend/src/components/TaskItem.tsx:51-61 | the edits are replaced by the editor data of the current `task` prop (the one of the latest render) and the editor closes |
| TaskItemView.SaveAfterReload | frontend/src/components/TaskItem.tsx:22-49 | a row mounted with a task, re-rendered after that task's toggle was reloaded, then opened and saved with no edits sends the old status again, undoing the toggle |
| TaskItemView.CancelThenSaveAfterReload | frontend/src/components/TaskItem.tsx:22-61 | cancelling once after such a re-render refreshes the editor, so the save then sends the toggled status |
| FormState.ClearError | frontend/src/components/LoginForm.tsx:62-69 | typing blanks the field's message, keeps every other message, and adds no key |
| FormState.ClearErrorIdempotent | frontend/src/components/LoginForm.tsx:66-68 | blanking twice is blanking once |
| FormState.DotFromCorrect | frontend/src/components/LoginForm.tsx:27 | the scan for `\.\S+` after the `@` finds a dot iff the pattern's tail matches there |
| FormState.AtFromCorrect | frontend/src/components/LoginForm.tsx:27 | the scan for `@` finds one iff an `@\S+\.\S+` match starts at or after that position |
| FormState.EmailCheckCorrect | frontend/src/components/LoginForm.tsx:27 | the scanning test decides exactly `\S+@\S+\.\S+` |
| FormState.EmailExamples | frontend/src/components/LoginForm.tsx:27 | "a@b.c" matches the pattern and "a@b" does not |
| FormState.EmailError | frontend/src/components/LoginForm.tsx:25-29 | "Email is required" appears iff the e-mail is all white space |
| FormState.EmailErrorMeaning | frontend/src/components/LoginForm.tsx:25-29 | the e-mail passes iff it matches the pattern, and "Email is invalid" appears iff it is not blank and does not match |
| FormState.OutcomeToast | frontend/src/components/LoginForm.tsx:48-59 | success shows "Welcome!"; an `ApiError` is shown as is; any other failure shows the fallback message with status 0 |
| FormState.FailureToastShape | frontend/src/components/RegisterForm.tsx:70-75 | a failed request always shows an error toast titled "Error" that stays up for 8 seconds |
| LoginForm.ValidIff | frontend/src/components/LoginForm.tsx:22-37 | the form is valid iff the e-mail matches the pattern and a password was typed |
| LoginForm.AnyPasswordAccepted | frontend/src/components/LoginForm.tsx:31-33 | sign-in has no length or composition rule for the password |
| LoginForm.LoginFormState.constructor | frontend/src/components/LoginForm.tsx:12-17 | the form starts with empty fields and no errors |
| LoginForm.LoginFormState.ValidateForm | frontend/src/components/LoginForm.tsx:22-37 | the error record becomes `FormErrors` of the data, and the answer is true iff it is empty |
| LoginForm.LoginFormState.HandleSubmit | frontend/src/components/LoginForm.tsx:39-60 | `login` is called with the e-mail and password iff validation passes; then the outcome's toast is shown |
| LoginForm.LoginFormState.HandleInputChange | frontend/src/components/LoginForm.tsx:62-69 | one field takes the new value and that field's message is blanked |
| RegisterForm.FirstLine | frontend/src/components/RegisterForm.tsx:43 | the first line is the prefix before the first line terminator |
| RegisterForm.FirstLineCovers | frontend/src/components/RegisterForm.tsx:43 | `.` reaches every position before the first line terminator |
| RegisterForm.FirstLineClasses | frontend/src/components/RegisterForm.tsx:43 | a class found in the first line is found in the password |
| RegisterForm.FirstLineLookAhead | frontend/src/components/RegisterForm.tsx:43 | a class occurs in the first line iff a look-ahead `(?=.*X)` from the start finds it |
| RegisterForm.CompositionMeaning | frontend/src/components/RegisterForm.tsx:43 | the composition check is the three look-aheads (lower, upper, digit) of the pattern |
| RegisterForm.Put | frontend/src/components/RegisterForm.tsx:24-56 | a field's message is recorded iff it has one |
| RegisterForm.FormErrorsEntries | frontend/src/components/RegisterForm.tsx:24-56 | each of the four fields has an entry iff its rule fails, holding that rule's message, and there are no other keys |
| RegisterForm.ValidIff | frontend/src/components/RegisterForm.tsx:24-56 | the form is valid iff the name is not blank and fits 100, the e-mail matches, the password has 6 code units and passes the composition check, and the confirmation matches |
| RegisterForm.Score | frontend/src/components/RegisterForm.tsx:93-98 | the score counts at most four classes |
| RegisterForm.AcceptedPasswordStrength | frontend/src/components/RegisterForm.tsx:39-46 | a password the form accepts rates at least Medium, and Strong once it has 8 code units |
| RegisterForm.StrengthThresholds | frontend/src/components/RegisterForm.tsx:90-103 | under 6 is Weak; Strong iff three classes and 8 code units; Medium iff at least 6, two classes and not Strong |
| RegisterForm.OneClassIsWeak | frontend/src/components/RegisterForm.tsx:39-46 | six lower-case letters pass the length rule, fail the composition rule and rate Weak |
| RegisterForm.RegisterFormState.constructor | frontend/src/components/RegisterForm.tsx:12-19 | the form starts with four empty fields and no errors |
| RegisterForm.RegisterFormState.ValidateForm | frontend/src/components/RegisterForm.tsx:24-56 | the error record becomes `FormErrors` of the data, and the answer is true iff it is empty |
| RegisterForm.RegisterFormState.HandleSubmit | frontend/src/components/RegisterForm.tsx:58-79 | `register` is called with name, e-mail and password iff validation passes; then the outcome's toast is shown |
| RegisterForm.RegisterFormState.HandleInputChange | frontend/src/components/RegisterForm.tsx:81-88 | one field takes the new value and that field's message is blanked |
| ToastContainer.SuccessToast | frontend/src/components/ToastContainer.tsx:36-38 | a success toast has the title and message, no field errors and the default duration |
| ToastContainer.ErrorToast | frontend/src/components/ToastContainer.tsx:40-48 | an error toast carries the field errors and stays 8000 ms |
| ToastContainer.ApiErrorToast | frontend/src/components/ToastContainer.tsx:50-52 | an API error becomes an error toast titled "Error" with the error's message and field errors |
| ToastContainer.RemoveById | frontend/src/components/ToastContainer.tsx:54-56 | removal never lengthens the list |
| ToastContainer.RemoveByIdAppend | frontend/src/components/ToastContainer.tsx:54-56 | removal works piece by piece, so the remaining toasts keep their order |
| ToastContainer.RemoveByIdMembers | frontend/src/components/ToastContainer.tsx:54-56 | exactly the toasts with other ids remain |
| ToastContainer.RemoveAbsent | frontend/src/components/ToastContainer.tsx:54-56 | removing an id no toast has changes nothing |
| ToastContainer.ShowThenClose | frontend/src/components/ToastContainer.tsx:30-56 | showing a toast and closing it leaves the earlier toasts, minus that id |
| ToastContainer.SameMillisecondClosedTogether | frontend/src/components/ToastContainer.tsx:31 | two toasts shown in the same millisecond share an id, so closing one closes both |
| ToastContainer.DifferentMillisecondsKept | frontend/src/components/ToastContainer.tsx:31 | toasts shown at different clock readings are closed separately |
| ToastContainer.ToastProvider.constructor | frontend/src/components/ToastContainer.tsx:28 | the provider starts with no toasts |
| ToastContainer.ToastProvider.ShowToast | frontend/src/components/ToastContainer.tsx:30-34 | the toast, with the clock reading as its id, goes at the end of the list |
| ToastContainer.ToastProvider.ShowSuccess | frontend/src/components/ToastContainer.tsx:36-38 | a success toast goes at the end |
| ToastContainer.ToastProvider.ShowError | frontend/src/components/ToastContainer.tsx:40-48 | an error toast goes at the end |
| ToastContainer.ToastProvider.ShowApiError | frontend/src/components/ToastContainer.tsx:50-52 | the API error's toast goes at the end |
| ToastContainer.ToastProvider.RemoveToast | frontend/src/components/ToastContainer.tsx:54-56 | the list becomes `RemoveById` of the old list |
| FilterBar.ShownValue | frontend/src/components/FilterBar.tsx:41 | a select shows "" iff no filter is set |
| FilterBar.SelectRoundTrip | frontend/src/components/FilterBar.tsx:41-42 | picking the option a select shows reports the filter it shows |
| FilterBar.SelectExamples | frontend/src/components/__tests__/FilterBar.test.tsx:44-62 | the tests' cases: "2" reports 2 and "" reports no filter |
| FilterBar.ClearResets | frontend/src/components/FilterBar.tsx:79-84 | Clear Filters gives the unfiltered state from any state, so clearing twice is clearing once |
| FilterBar.ForwardedUnchanged | frontend/src/components/FilterBar.tsx:33 | typed text and the show-deleted tick are forwarded unchanged and touch only their own filter |
| SortControls.Defaults | frontend/src/components/SortControls.tsx:11-13 | without props the controls sort by nothing, ascending |
| SortControls.Toggled | frontend/src/components/SortControls.tsx:21 | the toggle gives "asc" or "desc", and "desc" iff the order was "asc" |
| SortControls.SortByChange | frontend/src/components/SortControls.tsx:16-18 | changing the field reports the new field with the current order |
| SortControls.SortOrderToggle | frontend/src/components/SortControls.tsx:20-23 | toggling reports the current field with the other order |
| SortControls.ToggleTwice | frontend/src/components/SortControls.tsx:21 | toggling twice restores "asc" and "desc"; any other order ends at "desc" |
| SortControls.ToggleRoundTrip | frontend/src/components/SortControls.tsx:20-23 | toggling twice, feeding each result back as props, keeps the field and restores the order |
| EnvConfig.GetEnvVar | frontend/src/config/env.ts:16-25 | a set value is returned even when empty, otherwise the default, otherwise the "required but not set" error |
| EnvConfig.BooleanMeaning | frontend/src/config/env.ts:27-33 | a set flag is on iff its value is "true" in any letter case |
| EnvConfig.LeadingDigits | frontend/src/config/env.ts:40 | the longest run of digits at the start |
| EnvConfig.GetNumberEnvVar | frontend/src/config/env.ts:35-46 | the default when unset or not a number, otherwise the parsed integer |
| EnvConfig.LeadingDigitsOfDigits | frontend/src/config/env.ts:40 | digits are read as far as they go, and what follows is ignored |
| EnvConfig.ParseIntRoundTrip | frontend/src/config/env.ts:40 | `parseInt` reads back any decimal integer, whatever non-digit text follows |
| EnvConfig.ParseSigned | frontend/src/config/env.ts:40 | text opening with '-' or a digit is read from its first character |
| EnvConfig.NotANumber | frontend/src/config/env.ts:40-44 | text that does not start, after white space, with a sign or digit is NaN |
| EnvConfig.ConfigDefaults | frontend/src/config/env.ts:48-61 | with only the base URL set: timeout 10000, "Todo Manager", "1.0.0", debug off, 10 per page |
| EnvConfig.MissingBaseUrl | frontend/src/config/env.ts:50 | without the base URL the configuration does not load, whatever else is set |
| EnvConfig.SetValueWins | frontend/src/config/env.ts:50-55 | set values win over defaults, even empty ones |
| Text.Utf16Length | backend/ToDoApi/Models/Validators/TaskValidators.cs:12 | a string is one to two UTF-16 code units per character |
| Text.Utf16LengthAppend | backend/ToDoApi/Models/Validators/TaskValidators.cs:12 | UTF-16 length adds up over concatenation |
| Text.Utf16LengthOfBmp | backend/ToDoApi/Models/Validators/TaskValidators.cs:12 | characters of the Basic Multilingual Plane take one code unit each |
| Text.TrimStart | frontend/src/components/TaskForm.tsx:23 | `trimStart` removes only white space, and the result does not start with white space |
| Text.TrimEnd | frontend/src/components/TaskForm.tsx:23 | `trimEnd` removes only white space, and the result does not end with white space |
| Text.TrimUtf16Length | frontend/src/components/TaskForm.tsx:63 | trimming never lengthens a string in UTF-16 code units |
| Text.Utf16LengthOfSlice | backend/ToDoApi/Models/Validators/TaskValidators.cs:12 | a piece of a string is no longer than the string in UTF-16 code units |
| Text.TrimChars | frontend/src/components/TaskForm.tsx:57 | every character of a trimmed string occurs in the original |
| Text.Trim | frontend/src/components/TaskForm.tsx:23 | `trim` is empty iff the text is all white space, and never starts or ends with white space |
| Text.TrimIdempotent | frontend/src/components/TaskForm.tsx:57 | trimming twice is trimming once |
| Text.WhiteSpaceSets | backend/ToDoApi/Models/Validators/TaskValidators.cs:37 | .NET white space is ECMAScript white space minus U+FEFF plus U+0085 |
| Text.JoinSplit | frontend/src/components/TaskForm.tsx:56 | joining the pieces of a split with the separator gives the text back |
| Text.SplitAppend | frontend/src/components/TaskForm.tsx:56 | the pieces of `a,b` are the pieces of `a` followed by those of `b` |
| Text.ToLowerIdempotent | backend/ToDoApi/Services/AuthService.cs:28 | lower-casing twice is lower-casing once |
| Text.ToLower | backend/ToDoApi/Services/AuthService.cs:28 | lower-casing maps each character by itself, lowering exactly the ASCII capitals |
| Text.Split | frontend/src/components/TaskForm.tsx:56 | a split gives at least one piece, and no piece holds the separator |
| Text.SplitNoSeparator | frontend/src/components/TaskForm.tsx:56 | text without the separator is one piece |
| Text.NatToStringRoundTrip | frontend/src/components/FilterBar.tsx:41-42 | reading back a rendered number gives the number |
| Text.NatToStringInjective | frontend/src/components/FilterBar.tsx:41-42 | different numbers render differently |
| Json.EscapeRoundTrip | frontend/src/components/TaskForm.tsx:54 | reading an escaped string literal back gives the string and stops at its closing quote |
| Json.EscapeCharRoundTrip | frontend/src/components/TaskForm.tsx:54 | reading one escaped character back gives the character |
| Json.QuoteRoundTrip | frontend/src/components/TaskForm.tsx:54 | reading a quoted string literal back gives the string and the rest of the text |
| Json.StringifyItemsRoundTrip | frontend/src/components/TaskItem.tsx:67-73 | reading the elements `JSON.stringify` wrote, up to the closing bracket, gives the strings and the rest |
| Json.StringifyRoundTrip | frontend/src/components/TaskItem.tsx:67-73 | `JSON.stringify` of an array of strings parses back to that array |
| Json.NotAnArray | backend/ToDoApi/Models/Validators/TaskValidators.cs:36 | text that does not open with `[` is not an array |

Helpers with a contract but no row of their own support the rows above: the sequence
identities `Seqs.AppendAssoc` and `Seqs.AppendTail`; the cardinality facts
`TasksController.CardToSet`, `TasksController.SubsetOfEqualCard` and `TasksController.SubsetCard`;
the single proof steps `TasksController.FilterSnoc`, `TasksController.AboveNone`,
`TasksController.AboveOfSorted`, `TasksController.WalkIsFilter`, `TasksController.IdsDiffer`,
`TasksController.ExceptAllBanned`, `TasksController.FoundIdsEmpty`, `TaskForm.CommaSpace`,
`AuthService.CompareFromAll` and `AuthService.CompareFromMismatch`; and the parsing and
printing helpers `Json.SkipWhiteSpace`, `Json.HexValue`, `Json.HexDigit`, `Json.Hex4`,
`Json.ParseStringBody`, `Json.ParseItem`, `Json.ParseItems`, `Json.EscapeChar`, `Json.Strs`,
`Json.UnicodeEscapeRoundTrip`, `Json.ShortEscapeRoundTrip`, `Json.SkipNothing`, `Json.LastItem`,
`Json.NextItem`, `Json.ItemsSplit`, `Json.Regroup`, `Json.StrsCons`, `TaskValidators.Repeat`,
`Text.TrimStartIsSuffix`, `Text.TrimEndIsPrefix`, `Text.TrimOfTrimmed`, `Text.TrimOffset`,
`Text.LowerChar`, `Text.UpperChar`, `Text.ToUpper`, `Text.ToLowerOfUpper`, `Text.SplitChars`, `Text.DigitChar` and
`Text.NatToString`.

## Behaviour as written

Where the model follows the code it also reproduces these behaviours:

- **Duplicate bulk ids** (`TasksController.BulkDuplicateIds`). A bulk request that
  names one active id twice loads fewer rows than ids. It is refused with
  "Tasks not found: " followed by an empty list, because the missing ids are
  `TaskIds.Except(found)`.
- **The header counts ids** (`TaskList.AllSelectedByCount`). "All selected" compares
  the number of selected ids with the number of tasks. A selection holding one id twice
  checks the header.
- **U+0085 is trimmed by one side only.**
  - The client trims with ECMAScript `trim`. The server tests with .NET `string.IsNullOrWhiteSpace`.
  - The two differ on U+0085 and U+FEFF.
  - A tag or title consisting of U+0085 passes the form and is refused by the server
    (`TaskForm.NextLineTagRefused`). The acceptance lemmas therefore exclude that character.
- **The tag `catch` cannot run.** `TaskForm.ValidIff` records no tag error, because
  splitting, trimming and `JSON.stringify` of strings do not throw.
- **The row editor goes stale after a reload** (`TaskItemView.SaveAfterReload`). React
  keeps a row mounted across reloads because the list keys rows by task id. The `task`
  prop changes, but `editData` is set only at mount and by the editor's handlers. So
  toggling a task's status, then opening its editor and saving with no edits, sends the
  old status back. Cancelling first refreshes the editor from the current task
  (`TaskItemView.CancelThenSaveAfterReload`).
- **"Uknown".** The status fall-back text keeps the source's spelling.
- **An empty environment value is kept.** `getEnvVar` returns a value that is set but empty
  rather than the default, because it tests for `undefined` only.

## Left out

- Logging (`ILogger`, `console.warn`, the debug `console.log` of the configuration): it has no effect on results.
- The `catch` branches that answer 500 in every controller action: the in-memory table does not throw.
- Entity Framework's asynchronous queries and `SaveChangesAsync`: the table is a sequence updated in one step per action.
- `GenerateJwtToken`: the token is `Primitives.jwt`, an uninterpreted function; issuer, audience and claims are not modelled.
- PBKDF2 (RFC 8018 section 5.2) and base64 (RFC 4648 section 4) are uninterpreted functions, and `Sound` states the two properties the service needs.
- `RandomNumberGenerator` and `DateTime.UtcNow`/`DateTime.Today`/`Date.now()`/`new Date()` are parameters.
- TasksController.DeleteTask: `DeletedAt` and `UpdatedAt` come from two `DateTime.UtcNow` readings in the source, modelled as one reading `now`.
- TaskItemModel.NewTaskItem: `CreatedAt` and `UpdatedAt` are two property initialisers, each reading `DateTime.UtcNow` (TaskItem.cs lines 23 and 25); both are modelled as one reading `now`, so the contract's `createdAt == updatedAt` holds only up to the clock's resolution.
- TasksController.CreateAdds: states both stamps equal `now`; in the source they are the two separate initialiser readings of `NewTaskItem`.
- TasksController.BulkAllOrNothing, TasksController.BulkSucceeds: every patched row gets one `now` for `DeletedAt` and `UpdatedAt`; the source reads the clock again for each row and each stamp (TasksController.cs lines 335 and 338), so its stamps may differ slightly between rows and between the two fields.
- TasksController.PatchEffects: states the patch with the same single `now` per bulk request.
- TasksController.TaskStore.Create: equals `CreateTask`, and therefore takes both stamps from one `now`.
- TasksController.TaskStore.ApplyPatches: equals `BulkApply`, and therefore stamps every row with one `now`.
- TasksController.TaskStore.Bulk: equals `BulkUpdate`, with the same single-`now` merge.
- TasksController.TaskStore.GetTasks, TasksController.Page: model the action body called with already-bound arguments; a status or priority filter that names no enum member gives an empty 200 page. Over HTTP, `[ApiController]` model binding refuses an undefined `status` or `priority` and a non-numeric `limit` or `cursor` with the framework's automatic 400 problem-details response before the action runs. The same holds for a non-integer `{id}` on the get, update, delete and restore routes (`TasksController.GetTask`, `TasksController.UpdateTask`, `TasksController.DeleteTask`, `TasksController.RestoreTask`).
- TasksController.CreateTask: models the action body as a direct call runs it. Over HTTP, `[ApiController]` validates the `[Required]`/`[MaxLength(200)]` annotations on `Title` first and answers a failure with the framework's automatic 400 problem-details body, not the "Validation failed" envelope. `TaskValidators.AnnotationsAgree` shows the annotations refuse only titles the validator refuses too, so the accepted requests are the same and only the body of that rejection differs.
- TasksController.UpdateTask: the same automatic annotation check precedes the action body, with the same effect on the rejection body.
- TasksController.CreateRejected: the "Validation failed" envelope is what the action body answers; over HTTP a title that breaks the annotations gets the framework's problem-details 400 instead.
- TasksController.Filter: `Title.Contains(search)` is an ordinal substring test; the database collation's case rules are not modelled.
- AuthService.FindUser: `ToLower` lowers ASCII letters only; culture-specific and non-ASCII case mappings are not modelled. The same lowering shapes `AuthService.Register` and `AuthService.RegisterAdds`, which store `request.Email.ToLower()`, and `AuthService.Login`.
- EnvConfig.GetBooleanEnvVar: the model's lower-casing maps ASCII letters only. This does not change the result. No non-ASCII character lower-cases to "t", "r", "u" or "e", so the model decides `value.toLowerCase() === 'true'` exactly.
- Text.Utf16Length, Json.ParseStringBody: a Dafny string cannot hold a lone UTF-16 surrogate. So `JSON.stringify`'s `\uXXXX` escaping of lone surrogates is not modelled, and the model's JSON reader refuses an unpaired surrogate escape such as `\uD800`, which `JSON.parse` accepts. `Utf16Length` counts well-formed text, which is all a Dafny string can be.
- EnvConfig.ParseInt: `parseInt` of "-0" gives `-0` in JavaScript, which the integer model reads as 0; values beyond 2^53 are not rounded.
- TaskItemView.ParseTags: `JSON.parse` is modelled only for arrays of strings and nulls; other JSON values (numbers, objects) are treated as no tags.
- TaskItemView.IsOverdue: `new Date(dueDate)` parsing is a parameter `parse`.
- FilterBar.SelectValue: requires the option value to be "" or digits, which holds for every option the bar renders.
- `isLoading` flags and the rendered markup are not modelled.
- Types the core uses but whose files are not part of this model: the client's `ApiError` and `ValidationError`, `SORT_OPTIONS`, and the backend's `User`, `LoginRequest`, `RegisterRequest`, `AuthResponse`, `UserInfo` and `TaskListResponse`, which are reconstructed from their use.
- Concurrency: requests and React updates are taken one at a time.
