# Todo list: ownership-scoped store, client cache and input rules, in Dafny

This project models the parts of a small multi-user todo application whose
behaviour can be stated exactly, and proves properties of them:

- **The backend todo service** (`TodoService`). A table of todo records is
  modelled as the class `TodoStore`, holding a sequence of rows and an id
  counter. Each row belongs to one user. Its methods are create, list by
  owner (newest first), get, update and delete. Get, update and delete look a
  row up by id and owner together. Update and delete fail with `NotFound`, and
  leave the table unchanged, when that lookup finds nothing. A row owned by
  someone else counts as absent.
- **The role table** (`Roles`). It defines the two roles and their rights,
  `Object.keys` over them and the `Map` built from them.
- **The backend request rules** (`RequestValidation`). These are the accepted
  shapes of the body, route parameters and query of the five todo endpoints.
- **The frontend schemas** (`FormValidation`). Each one validates and
  normalises the form and payload input for a new todo, a create and an
  update. `ClientServer` states how the form's output meets the server's
  create rule.
- **The client cache updaters** (`TodoCache`). After each successful
  mutation they prepend, replace by id or filter by id. Each also adjusts a
  separate `total` counter.
- **The list screen** (`TodoListView`). It chooses between the error,
  loading, empty and list views. The list view sorts (incomplete first, then
  newest first) and counts completed todos.
- **The inline title editor** (`TodoItemEditor`). This is a class with the
  two state cells `isEditing` and `editValue`. Methods model the edit button,
  typing, save, cancel and the Enter/Escape keys.

Shared modules: `Wrappers` (Option, Result), `Json` (untyped input values),
`JsString` (JavaScript's `trim` and UTF-16 `length`) and `ClientTypes` (the
todo and the list response as the browser sees them).

Timestamps are integers. The store hands out ids from a counter, so they
are distinct and never reused. `createdAt` is a parameter of
create. A new todo is not completed. That default comes from the database
schema, which is not part of this model.

Three behaviours of the code are worth stating up front:

- The server's create rule does not trim. Only the frontend schemas trim,
  and the server stores the title exactly as received.
- The frontend's length checks run before trimming, so they measure the
  title as typed (see Findings).
- The list is ordered by `createdAt` descending, and equal timestamps are
  possible, so the model proves a non-increasing order.

## Model

| member | source | states |
|---|---|---|
| `TodoService.Lookup` | backend/src/services/todo.service.ts:40-44 | returns a row only if both its id and its owner match; returns nothing exactly when no row matches both |
| `TodoService.FindById` | backend/src/services/todo.service.ts:62-65 | the by-id query that update and delete run after the scoped check: finds the row with that id, or nothing when no row has it |
| `TodoService.OwnedBy` | backend/src/services/todo.service.ts:27-28 | holds exactly the rows whose owner is the given user |
| `TodoService.SortNewestFirst` | backend/src/services/todo.service.ts:29 | result is a permutation of the input, ordered by createdAt non-increasing |
| `TodoService.ApplyPatch` | backend/src/services/todo.service.ts:62-65 | merge rule: a field present in the patch overwrites; absent fields, the id, the owner and createdAt are kept |
| `TodoService.UpdateRow` | backend/src/services/todo.service.ts:62-65 | only rows with the given id are patched; every other row is unchanged and the length is kept |
| `TodoService.RemoveId` | backend/src/services/todo.service.ts:79 | the remaining rows are exactly those whose id differs |
| `TodoService.LookupSeesOnlyOwnRows` | backend/src/services/todo.service.ts:40-44 | a scoped lookup gives the same answer on the whole table as on the caller's own rows, so "exists but not yours" looks the same as "absent" |
| `TodoService.ForeignRowIsNotFound` | backend/src/services/todo.service.ts:40-44 | a row owned by another user is not found by a scoped lookup |
| `TodoService.LookupAgreesWithFindById` | backend/src/services/todo.service.ts:58-65 | with distinct ids, the row the scoped check finds is the row the by-id mutation then targets |
| `TodoService.UpdateRowKeepsIdsUnique` | backend/src/services/todo.service.ts:62-65 | patching keeps ids distinct |
| `TodoService.FindAfterUpdateRow` | backend/src/services/todo.service.ts:62-65 | after patching, the by-id query returns the patched row |
| `TodoService.RemovedRowIsNotFound` | backend/src/services/todo.service.ts:75-79 | after a removal, no user's scoped lookup finds that id |
| `TodoService.UpdateIsolatesOtherOwners` | backend/src/services/todo.service.ts:58-65 | updating one user's row leaves every other user's rows unchanged |
| `TodoService.RemoveIsolatesOtherOwners` | backend/src/services/todo.service.ts:75-79 | deleting one user's row leaves every other user's rows unchanged |
| `TodoService.RemoveAbsentId` | backend/src/services/todo.service.ts:79 | removing an id that no row has leaves the table unchanged |
| `TodoService.RemoveKeepsIdsUnique` | backend/src/services/todo.service.ts:79 | removal keeps ids distinct |
| `TodoService.TodoStore.CreateTodo` | backend/src/services/todo.service.ts:12-19 | appends exactly one row with the given title, owner and timestamp, not completed, with an id no existing row has, and returns it; earlier rows are unchanged |
| `TodoService.TodoStore.GetTodosByUserId` | backend/src/services/todo.service.ts:26-32 | the list holds exactly the user's rows (as a multiset), newest first, and `total` equals its length |
| `TodoService.TodoStore.GetTodoByIdAndUserId` | backend/src/services/todo.service.ts:40-44 | returns a row only if both id and owner match; returns null exactly when none does |
| `TodoService.TodoStore.UpdateTodoByIdAndUserId` | backend/src/services/todo.service.ts:53-66 | with no scoped match: NotFound and the table unchanged; otherwise returns the patched row, and only that row changes |
| `TodoService.TodoStore.DeleteTodoByIdAndUserId` | backend/src/services/todo.service.ts:74-80 | with no scoped match: NotFound and the table unchanged; otherwise removes exactly that row and returns its prior state |
| `TodoService.DeleteTwice` | backend/src/services/todo.service.ts:74-80 | as the owner, the first delete succeeds and a second delete of the same id fails with NotFound |
| `Roles.Keys` | backend/src/config/roles.ts:8 | `Object.keys`: the entry keys, in insertion order |
| `Roles.ToMap` | backend/src/config/roles.ts:9 | `new Map(Object.entries(...))`: the map's keys are exactly the entry keys |
| `Roles.ToMapAt` | backend/src/config/roles.ts:9 | when keys are distinct, each key maps to its own entry's rights list |
| `Roles.RoleNamesAreUserThenAdmin` | backend/src/config/roles.ts:3-8 | `roles` is exactly USER, then ADMIN |
| `Roles.RoleRightsTable` | backend/src/config/roles.ts:3-9 | `roleRights` has only the keys USER and ADMIN; USER maps to getTodos, manageTodos; ADMIN maps to getUsers, manageUsers, getTodos, manageTodos |
| `Roles.UserRightsIncludedInAdmin` | backend/src/config/roles.ts:4-5 | every USER right is an ADMIN right; only ADMIN has getUsers and manageUsers |
| `RequestValidation.ValidateCreateTodo` | backend/src/validations/todo.validation.ts:3-7 | a create body passes exactly when it is `{ title }` with title a non-empty string, and yields that title |
| `RequestValidation.ValidateGetTodos` | backend/src/validations/todo.validation.ts:9-11 | the list request passes exactly when the query is empty |
| `RequestValidation.ValidateIdParams` | backend/src/validations/todo.validation.ts:14-16 | the route parameters pass exactly when they are `{ id }` with id a non-empty string |
| `RequestValidation.ValidateGetTodo` | backend/src/validations/todo.validation.ts:13-17 | get passes exactly when the route parameters are a valid `{ id }` |
| `RequestValidation.ValidateDeleteTodo` | backend/src/validations/todo.validation.ts:31-35 | delete passes exactly when the route parameters are a valid `{ id }` |
| `RequestValidation.ValidateUpdateBody` | backend/src/validations/todo.validation.ts:23-28 | an update body passes exactly when it has at least one key, only `title` (non-empty string) and `completed` (boolean); the patch holds exactly the keys given, with their values |
| `RequestValidation.ValidateUpdateTodo` | backend/src/validations/todo.validation.ts:19-29 | update passes exactly when both the `{ id }` parameters and the body pass |
| `RequestValidation.ValidUpdateBodyIsNonEmptyPatch` | backend/src/validations/todo.validation.ts:28 | a body that passes always sets at least one field |
| `RequestValidation.EmptyUpdateBodyRejected` | backend/src/validations/todo.validation.ts:28 | an empty update body is rejected |
| `RequestValidation.CompletedOnlyKeepsTitle` | backend/src/validations/todo.validation.ts:24-27 | `{ completed }` alone passes, and applying it changes only `completed` |
| `FormValidation.TitleSchema` | frontend/src/lib/todoValidation.ts:4 | a title passes exactly when it is a string of 1 to 200 UTF-16 units as typed, and the result is its trim; an empty title gives 'Title is required', an over-long one 'Title must be less than 200 characters', a missing or non-string one a type issue |
| `FormValidation.TodoFormSchema` | frontend/src/lib/todoValidation.ts:3-5 | `todoFormSchema`: passes exactly when the input is an object with a `title` that passes the title rule, and yields that title trimmed; a non-object is rejected |
| `FormValidation.CreateTodoSchema` | frontend/src/lib/todoValidation.ts:7-9 | `createTodoSchema`: the same acceptance, output and rejection as the form schema |
| `FormValidation.TitleObjectSchema` | frontend/src/lib/todoValidation.ts:3-9 | the form and create schemas: a non-object is rejected; otherwise the `title` key decides, and other keys are dropped |
| `FormValidation.UpdateTodoSchema` | frontend/src/lib/todoValidation.ts:11-21 | an update passes exactly when at least one of `title`/`completed` is given and each given field passes its rule; the output holds exactly the given fields, with the title trimmed; an input with neither gives 'At least one field must be provided' |
| `FormValidation.FormAndCreateSchemasAgree` | frontend/src/lib/todoValidation.ts:3-9 | the form schema and the create schema give the same result on every input; both are declared with identical text, so this holds by construction |
| `FormValidation.AcceptedTitleIsTrimmedAndBounded` | frontend/src/lib/todoValidation.ts:4 | an accepted title is at most 200 UTF-16 units and has no leading or trailing whitespace |
| `FormValidation.TitleBoundIsInclusive` | frontend/src/lib/todoValidation.ts:4 | a title of exactly 200 units is accepted; one of 201 is rejected |
| `FormValidation.CompletedOnlyUpdateAccepted` | frontend/src/lib/todoValidation.ts:13-21 | an update with only `completed` is accepted and carries no title |
| `FormValidation.TitleSchemaTrimFirst` | frontend/src/lib/todoValidation.ts:4 | corrected rule: bounds apply after trimming; accepts exactly non-blank titles whose trim is at most 200 units, and the result is non-empty |
| `FormValidation.TodoFormSchemaTrimFirst` | frontend/src/lib/todoValidation.ts:3-5 | the form schema with the corrected title rule: passes exactly when the input is an object whose `title` passes the corrected rule; yields the non-empty trimmed title; a non-object is rejected |
| `FormValidation.BlankTitlePassesForm` | frontend/src/lib/todoValidation.ts:3-5 | as written, `{ title: "   " }` passes the form and yields the empty title |
| `FormValidation.BlankTitleRejectedWhenTrimmedFirst` | frontend/src/lib/todoValidation.ts:3-5 | under the corrected rule, the same blank title is rejected |
| `ClientServer.BlankFormTitleRejectedByServer` | frontend/src/lib/todoValidation.ts:4 | as written, a blank title passes the form, but the empty title it yields fails the server's create rule |
| `ClientServer.TrimFirstFormTitleAcceptedByServer` | backend/src/validations/todo.validation.ts:3-7 | every title the corrected form accepts is accepted unchanged by the server's create rule |
| `JsString.TrimStart` | frontend/src/lib/todoValidation.ts:4 | drops only leading whitespace; the result is a suffix and does not start with whitespace |
| `JsString.TrimEnd` | frontend/src/lib/todoValidation.ts:4 | drops only trailing whitespace; the result is a prefix and does not end with whitespace |
| `JsString.Trim` | frontend/src/components/todo/TodoItem.tsx:43 | `trim()`: the result is no longer than the input, and is empty or starts and ends with non-whitespace |
| `JsString.TrimIsSlice` | frontend/src/components/todo/TodoItem.tsx:43 | the trim is the slice between a whitespace-only prefix and a whitespace-only suffix |
| `JsString.Utf16Length` | frontend/src/lib/todoValidation.ts:4 | `length` in UTF-16 units: between the number of characters and twice that |
| `JsString.TrimEmptyIffAllWhitespace` | frontend/src/components/todo/TodoItem.tsx:85 | `trim()` is empty exactly when the string is all whitespace |
| `JsString.TrimIdempotent` | frontend/src/lib/todoValidation.ts:4 | trimming twice equals trimming once |
| `TodoCache.CountId` | frontend/src/hooks/useTodos.ts:66 | counts the cached todos with the id: at most the list length, and zero exactly when none has it |
| `TodoCache.ReplaceById` | frontend/src/hooks/useTodos.ts:46 | keeps the length; each element is the updated todo if its id matches, otherwise unchanged |
| `TodoCache.RemoveById` | frontend/src/hooks/useTodos.ts:66 | keeps exactly the todos with a different id; the length drops by the number of matches |
| `TodoCache.OnCreated` | frontend/src/hooks/useTodos.ts:21-27 | with no cache: `{ todos: [newTodo], total: 1 }`; otherwise newTodo is prepended to the old todos in order, and total goes up by one |
| `TodoCache.OnUpdated` | frontend/src/hooks/useTodos.ts:42-48 | no cache stays no cache; otherwise the todos are replaced by id and total is unchanged |
| `TodoCache.OnDeleted` | frontend/src/hooks/useTodos.ts:63-69 | no cache stays no cache; otherwise the id is filtered out and total goes down by one, whatever was removed |
| `TodoCache.RemoveByIdAppend` | frontend/src/hooks/useTodos.ts:66 | filtering distributes over concatenation, so kept todos stay in their original order |
| `TodoCache.RemoveAbsentId` | frontend/src/hooks/useTodos.ts:66 | filtering an id that no cached todo has changes nothing |
| `TodoCache.CreatePreservesConsistency` | frontend/src/hooks/useTodos.ts:22-26 | after create, total equals the list length, given it did before (or there was no cache) |
| `TodoCache.UpdatePreservesConsistency` | frontend/src/hooks/useTodos.ts:44-47 | update keeps total equal to the list length |
| `TodoCache.UpdateReplacesOnlyMatchingIds` | frontend/src/hooks/useTodos.ts:46 | update keeps the length and every position's id; every todo with the updated id becomes the updated todo |
| `TodoCache.UpdateIdempotent` | frontend/src/hooks/useTodos.ts:42-48 | applying the same update twice equals applying it once |
| `TodoCache.DeleteConsistentIffOneMatch` | frontend/src/hooks/useTodos.ts:66-67 | starting from a consistent cache, total equals the list length after delete exactly when one cached todo had the id |
| `TodoCache.DeleteUndoesCreate` | frontend/src/hooks/useTodos.ts:63-69 | deleting a just-created todo whose id was not cached before restores the previous cache, total included |
| `TodoListView.Compare` | frontend/src/components/todo/TodoList.tsx:88-93 | the comparator puts `a` first exactly when `a` is incomplete and `b` completed, or both share a status and `a` is newer; it returns 0 exactly for the same status and the same createdAt |
| `TodoListView.SortForDisplay` | frontend/src/components/todo/TodoList.tsx:88-93 | the sorted copy is a permutation of the todos, in comparator order: every incomplete todo comes before every completed one, and within the same status createdAt is non-increasing |
| `TodoListView.CompletedCount` | frontend/src/components/todo/TodoList.tsx:95 | the number of completed todos, at most the list length |
| `TodoListView.CompletedCountSorted` | frontend/src/components/todo/TodoList.tsx:95 | sorting does not change the completed count |
| `TodoListView.CompletedAreTheSuffix` | frontend/src/components/todo/TodoList.tsx:89-91 | in a list where incomplete todos come first, the completed todos fill exactly the last CompletedCount positions |
| `TodoListView.DisplaySplitsAtCompletedCount` | frontend/src/components/todo/TodoList.tsx:88-96 | the shown list has totalCount − completedCount incomplete todos, then completedCount completed ones |
| `TodoListView.Render` | frontend/src/components/todo/TodoList.tsx:31-96 | error comes first, then loading; the empty state is shown exactly when the list is missing or empty; otherwise the sorted permutation is shown with totalCount equal to the list length and completedCount no greater |
| `TodoListView.ShownTotalIgnoresCounter` | frontend/src/components/todo/TodoList.tsx:96 | the screen does not depend on the cached `total` counter |
| `TodoItemEditor.SaveOutcome` | frontend/src/components/todo/TodoItem.tsx:42-47 | save calls `onUpdate` exactly when the value is not blank and differs, as typed, from the title; the call carries the todo's id and the trimmed value |
| `TodoItemEditor.SaveEnabled` | frontend/src/components/todo/TodoItem.tsx:85 | the save button is enabled exactly when no update is pending and the value is not blank |
| `TodoItemEditor.SentTitleIsTrimmed` | frontend/src/components/todo/TodoItem.tsx:44 | the title sent by save is non-empty and already trimmed |
| `TodoItemEditor.UnchangedValueSendsNothing` | frontend/src/components/todo/TodoItem.tsx:43 | saving the title unchanged sends nothing |
| `TodoItemEditor.WhitespaceOnlyEditSendsSameTitle` | frontend/src/components/todo/TodoItem.tsx:43-44 | a value that differs from the title only by surrounding whitespace still sends an update, carrying the unchanged title |
| `TodoItemEditor.EnabledSaveSendsIffChanged` | frontend/src/components/todo/TodoItem.tsx:82-86 | when the save button is enabled, clicking it sends an update exactly when the value differs from the title |
| `TodoItemEditor.TodoItem.constructor` | frontend/src/components/todo/TodoItem.tsx:39-40 | the editor starts not editing, with editValue equal to the todo's title |
| `TodoItemEditor.TodoItem.ReceiveTodo` | frontend/src/components/todo/TodoItem.tsx:31-40 | a new todo from the parent replaces the prop; the two state cells keep their values |
| `TodoItemEditor.TodoItem.StartEdit` | frontend/src/components/todo/TodoItem.tsx:123 | the edit button enters edit mode |
| `TodoItemEditor.TodoItem.ChangeValue` | frontend/src/components/todo/TodoItem.tsx:76 | typing replaces editValue |
| `TodoItemEditor.TodoItem.SaveEdit` | frontend/src/components/todo/TodoItem.tsx:42-47 | sends exactly what the save rule calls for; afterwards isEditing is false whether or not anything was sent, and editValue is kept |
| `TodoItemEditor.TodoItem.CancelEdit` | frontend/src/components/todo/TodoItem.tsx:49-52 | editValue is reset to the title and isEditing becomes false |
| `TodoItemEditor.TodoItem.KeyDown` | frontend/src/components/todo/TodoItem.tsx:54-60 | Enter acts as save, Escape acts as cancel, and any other key changes nothing |
| `TodoItemEditor.TodoItem.SaveButtonEnabled` | frontend/src/components/todo/TodoItem.tsx:85 | the save button's enable rule, applied to the current editValue |
| `TodoItemEditor.BlankEditIsKeptAfterSave` | frontend/src/components/todo/TodoItem.tsx:42-52 | a blank edit is not sent when saved, and the blank value is still there when editing starts again |

## Left out

- The database layer is not modelled: id generation, the `completed` default, and `createdAt`/`updatedAt` stamping are defined in a schema that is not part of this model. Ids come from a counter, and `createdAt` is a parameter of create. `updatedAt` is not modelled at all.
- The store is sequential. The gap between the scoped check and the by-id update or delete (a row deleted in between) is concurrency, and is not modelled.
- TodoService.TodoStore.GetTodosByUserId: the database does not fix the order of rows with equal `createdAt`. The model's insertion sort keeps table order for them, but the contract states only the non-increasing order.
- Row ids in the store are naturals drawn from a counter. The source's ids are strings that the database generates. The client side keeps them as strings, and the route parameter `id` is checked as a string.
- The HTTP controllers, the MCP tool layer, the network client (with its mock data branch) and toast notifications are not part of this model. Neither is the rendering of components, the loading skeleton, the new-todo form component, the completion checkbox or the delete dialog.
- RequestValidation.ValidateUpdateBody: the validation library's default conversion also accepts the strings "true" and "false" for `completed`. The model accepts only JSON booleans.
- JavaScript strings may hold unpaired UTF-16 surrogates. Dafny strings are sequences of Unicode scalar values, so such strings cannot be represented, and `JsString.Utf16Length` and `JsString.Trim` do not cover them.
- Error texts: the backend rules return only pass or fail, without the library's messages. The frontend issues are named cases rather than message strings.
- JSON numbers are integers only. Floating-point values and `undefined` are not modelled: an absent key stands for `undefined`.
- TodoListView.SortForDisplay: `createdAt` is an integer in milliseconds. Date-string parsing and the NaN that an unparsable date would produce are not modelled. The result is built by a stable insertion, as `Array.prototype.sort` is stable, but the contract does not state stability. The original array cannot be mutated because sequences are values.

## Findings

| source | as written | input that shows it | evidently intended | confidence | as-written member | corrected member |
|---|---|---|---|---|---|---|
| frontend/src/lib/todoValidation.ts:4 | `.min(1).max(200)` run before `.trim()`, so both bounds measure the title as typed, not the trimmed title | `{ title: "   " }` passes the form and yields `""`; the client posts it and the server's create rule rejects the empty string (`ClientServer.BlankFormTitleRejectedByServer`) | "Title is required" should hold of the trimmed title, so blank titles are rejected in the form | medium, not executed | `FormValidation.TitleSchema` | `FormValidation.TitleSchemaTrimFirst` |

The schemas themselves model the code as written, since that is the behaviour
the application has. The corrected rule is what the client–server agreement
property `ClientServer.TrimFirstFormTitleAcceptedByServer` is proved for, and
`FormValidation.BlankTitleRejectedWhenTrimmedFirst` shows it rejects the
counterexample.
