# Kanban board: drag-and-drop reordering, server actions and the task dialog

This project models the core of a kanban board application in Dafny.

A user owns boards. A board holds columns, a column holds tasks, and a task
holds subtasks. The order of sibling columns and sibling tasks is given by an
integer `order` field.

The model has three parts:

- **The server actions**, as methods of a `Store` class over four tables
  (`map`s from id to row). Every action follows one chain:
  - authenticate (a signed-in `userId`);
  - validate the form (non-empty titles, UUID ids);
  - authorize along the chain subtask → task → column → board → user;
  - then either write or return an error having written nothing.

  New items are appended with the largest sibling order plus one, or 0.
  The two batch reorders are all-or-nothing transactions.
- **The drag-and-drop column list** (`onDragEnd`), as a class over heap
  objects:
  - A column drop reorders the column array and sends every column with its
    new index.
  - A task drop splices the task object out of one column's task array and
    into another's, renumbers the affected tasks in place, and sends the new
    orders.
  - When the server call throws or reports errors, the list falls back to the
    `initialColumns` prop.
  - The copy `[...orderedColumns]` is shallow, so the mutated column and task
    objects are the very ones `initialColumns` holds. The fallback re-installs
    the original array of those already mutated objects. The model keeps this
    aliasing and does not claim that the pre-drag state comes back.
- **The task dialog and the modal manager**:
  - the edit state of the dialog;
  - the trimming of the update form to the changed fields;
  - the delete payload;
  - the subtask counts and the subtask handlers;
  - the lookup of the task named by the `task` query parameter.

The browser's `FormData` is modelled after the FormData interface of the WHATWG
XMLHttpRequest Standard (section 4): `get` returns the first value or `null`,
`delete` removes every entry with the name, and `set` replaces the first entry
and drops the rest, or appends.

Parts of zod are modelled too: `z.string().min`, `z.string().uuid`, `safeParse`
and `flatten().fieldErrors`. An absent form field reaches zod as `null`, and
zod reports it as "Expected string, received null". `.min` compares the
JavaScript `length`, which counts UTF-16 code units: a character outside the
Basic Multilingual Plane counts twice.

Files (one module each):

| file | module | models |
|---|---|---|
| base.dfy | Base | rows, ids, the `{ errors?, message? }` result record |
| forms.dfy | Forms | `FormData` |
| validation.dfy | Validation | the zod schemas and `safeParse` |
| ordering.dfy | Ordering | the append order `max + 1` or 0 |
| task_edit.dfy | TaskEdit | the value computations of `updateTask` |
| column_order_batch.dfy | ColumnOrderBatch | the `updateColumnOrder` transaction |
| task_order_batch.dfy | TaskOrderBatch | the `updateTaskOrder` transaction |
| store.dfy | Store | the twelve server actions |
| reorder.dfy | Splice | `reorder`, `splice`, the task move on values |
| board_view.dfy | BoardView | the client's column and task objects, `find` |
| column_list.dfy | DragDrop | `onDragEnd` |
| task_modal.dfy | TaskDialog | the task dialog |
| modal_manager.dfy | ModalManager | `findTaskById` and the manager's render |

### The source and its descriptions compared

Where the code and its descriptions differ, the model follows the code.

- **Dialog edits are always rejected.** `updateTask` always passes `title`
  to `safeParse`, because `formData.get` returns `null` and never `undefined`.
  The optional title rule does not accept `null`. The dialog deletes the
  title entry whenever it is unchanged, and it is always unchanged: the input
  is uncontrolled and only the reset effect writes `currentTitle`. So every
  update the dialog sends is rejected with the title error, or with the
  due-date error first (`TaskEdit.MissingTitleIsRejected`,
  `TaskDialog.TaskModal.SubmitUpdate`).
- **"No changes detected." cannot happen.** For the same reason, an accepted
  update always carries all three fields (`TaskEdit.AcceptedUpdateIsNeverEmpty`).
- **Some declared zod schemas are never applied.** `updateColumnOrder`,
  `updateTaskOrder`, `toggleSubtask` and `deleteSubtask` declare a schema but
  never run it, so their model does not validate its input.
- **A task move may leave the board.** `updateTaskOrder` checks that each
  task is on the board. It does not check that the destination column is.
  A committed batch can therefore move a task to another board's column, and
  re-sending that batch then fails
  (`TaskOrderBatch.CrossBoardMoveCommitsOnce`).

## Model

| member | source | states |
|---|---|---|
| Splice.SpliceRemove | app/src/components/column-list.tsx:28 | `splice(i, 1)` removes exactly the element at `i`: one shorter, the multiset minus that element, later elements shifted down; an index past the end changes nothing |
| Splice.SpliceInsert | app/src/components/column-list.tsx:29 | `splice(i, 0, x)` puts `x` at `i`, clamped to the end, and keeps every other element in order; the multiset gains exactly `x` |
| Splice.Reorder | app/src/components/column-list.tsx:26-31 | `reorder` returns a list of the same length that is a permutation of its input, with the element from `startIndex` at `endIndex` (clamped to the end) |
| Splice.ReorderRemove | app/src/components/column-list.tsx:26-31 | taking the moved element out at its new index gives the input without it: the others keep their relative order |
| Splice.MoveTasks | app/src/components/column-list.tsx:92-95 | the two splices of a task move touch only the source and destination lists; every other column's list is unchanged |
| Splice.MoveKeepsCount | app/src/components/column-list.tsx:92-95 | a task move keeps the total number of tasks over all columns |
| Splice.MoveKeepsElements | app/src/components/column-list.tsx:92-95 | a move of the task at the source index keeps the multiset of all tasks over all columns |
| Splice.MovedElementLands | app/src/components/column-list.tsx:92-95 | after the move the task is at the destination index (clamped) of the destination list; in a move between columns the source list is the original with that one position removed |
| BoardView.ColumnIndex | app/src/components/column-list.tsx:74-75 | the position of the first column with the id, or the length when none has it |
| BoardView.FindColumn | app/src/components/column-list.tsx:74-75 | `find` returns the first column with the id, null exactly when none has it |
| BoardView.IndexOf | app/src/components/column-list.tsx:74-83 | the position of the first occurrence of the id, or the length when there is none; the one search behind both `find`s |
| BoardView.FindTask | app/src/components/column-list.tsx:83 | `find` returns the first task of the list with the id, null exactly when none has it |
| BoardView.Ids | app/src/components/column-list.tsx:55 | the column ids in list order, one per column |
| DragDrop.RenumberedUpdates | app/src/components/column-list.tsx:109-124 | once the renumbering has run, the updates read off the task objects place each task at its index in its column |
| DragDrop.ColumnReorderDense | app/src/components/column-list.tsx:55 | the column batch of a reorder commits exactly when every listed column is on the board; it then gives the listed columns orders exactly 0..n-1 in list order, keeps their title and board, and leaves other columns unchanged |
| DragDrop.TaskBatchLands | app/src/components/column-list.tsx:109-124 | a committed task batch with distinct ids puts each destination task at its index in the destination column and, in a move between columns, each source task at its index in the source column; no task is added or lost |
| DragDrop.Renumber | app/src/components/column-list.tsx:99 | the `forEach` writes each task's index into its `order`, and writes nothing else |
| DragDrop.LayoutPermutation | app/src/components/column-list.tsx:71 | two arrays holding the same column objects hold the same task objects |
| DragDrop.ColumnList.constructor | app/src/components/column-list.tsx:34 | the state starts as the `initialColumns` prop |
| DragDrop.ColumnList.SameTasks | app/src/components/column-list.tsx:71 | the displayed columns hold exactly the task objects of `initialColumns` |
| DragDrop.ColumnList.OnDragEnd | app/src/components/column-list.tsx:41-145 | covers every outcome of a drop, listed below this table |
| DragDrop.DropKeepsOthers | app/src/components/column-list.tsx:41-145 | a drop leaves the `order` of every task and the `tasks` of every column outside its frame as they were: all of them for an ignored drop, a column drop or a drop whose columns or task are not found; all but the two columns of a found task move and their tasks |
| DragDrop.ColumnList.Revert | app/src/components/column-list.tsx:60 | `setOrderedColumns(initialColumns)` |
| DragDrop.ColumnList.CommitColumnOrder | app/src/components/column-list.tsx:56-65 | sending the column batch: a throw or an error reply falls back to `initialColumns` and leaves the columns table as it was; a success commits exactly the batch's table |
| DragDrop.ColumnList.CommitTaskOrder | app/src/components/column-list.tsx:127-143 | sending the task batch: a throw or an error reply falls back to `initialColumns` and leaves the tasks table as it was; a success commits exactly the batch's table |
| DragDrop.ColumnList.DropColumn | app/src/components/column-list.tsx:52-67 | a column drop installs the reordered array and sends each column with its new index; the task arrays are untouched |
| DragDrop.ColumnList.DropTask | app/src/components/column-list.tsx:89-143 | a task drop performs the move, leaves both affected columns numbered by position, sends the source-then-destination batch, and commits or falls back |
| DragDrop.ColumnList.SpliceTask | app/src/components/column-list.tsx:92-95 | the in-place splices change the task arrays exactly as `MoveTasks` does, and keep each task object in one place |
| DragDrop.ColumnList.RenumberColumns | app/src/components/column-list.tsx:99-103 | after the renumbering both affected columns carry orders 0..n-1 by position |
| DragDrop.ColumnList.MoveTask | app/src/components/column-list.tsx:91-103 | splices plus renumbering: the lists change as `MoveTasks` says and both affected lists end up numbered by position |
| ModalManager.FindTaskById | app/src/components/modal-manager.tsx:21-27 | returns a task with the id, and undefined exactly when no column holds one |
| ModalManager.FoundInFirstHoldingColumn | app/src/components/modal-manager.tsx:22-25 | the task returned is `find`'s match in the first column that has one; every earlier column has none |
| ModalManager.SelectedTask | app/src/components/modal-manager.tsx:33-35 | a task is selected exactly when the `task` parameter is present, non-empty and held by some column |
| ModalManager.Render | app/src/components/modal-manager.tsx:41-52 | nothing is rendered exactly when the parameter is absent or empty or names no task; otherwise an open dialog for that task on this board |
| TaskDialog.DueDateEntry | app/src/components/task-modal.tsx:164 | the date's ISO string, or "null" for a cleared date |
| TaskDialog.DueDateRoundTrip | app/src/actions/update-task.ts:59-69 | the entry the dialog sends parses back on the server to the chosen date; a cleared date comes back as `null` |
| TaskDialog.HasChanges | app/src/components/task-modal.tsx:176-181 | the scan is true exactly when an entry other than `taskId`/`boardId` exists |
| TaskDialog.DoneSubtasks | app/src/components/task-modal.tsx:203 | the filter keeps only done subtasks; it is as long as the list exactly when all are done, and empty exactly when none is |
| TaskDialog.DoneSubtasksContents | app/src/components/task-modal.tsx:203 | each done subtask occurs in the filter as often as in the list, and no other subtask occurs in it |
| TaskDialog.DoneCount | app/src/components/task-modal.tsx:203 | the filter's length is the number of positions holding a done subtask |
| TaskDialog.SubtaskCounts | app/src/components/task-modal.tsx:203-204 | completed = the number of done subtasks, total = the number of subtasks; completed = total exactly when all are done; 0 exactly when none is done |
| TaskDialog.TaskModal.constructor | app/src/components/task-modal.tsx:96-98 | the edit state starts as the task's title, description and due date |
| TaskDialog.TaskModal.ShowTask | app/src/components/task-modal.tsx:118-123 | a new task prop resets the edit state to that task's fields |
| TaskDialog.TaskModal.SetDueDate | app/src/components/task-modal.tsx:374 | the date picker sets only `currentDueDate` |
| TaskDialog.TaskModal.HandleUpdateSubmit | app/src/components/task-modal.tsx:160-188 | the trimmed form, listed below this table |
| TaskDialog.TaskModal.SubmitUpdate | app/src/components/task-modal.tsx:183-187 | a submitted dialog edit always fails on the server, which changes no table; a date change is always submitted |
| TaskDialog.TaskModal.HandleSubtaskToggle | app/src/components/task-modal.tsx:208-222 | the subtask's `done` is set exactly when it belongs to this task on a board of the user; otherwise the call fails and nothing changes |
| TaskDialog.TaskModal.HandleSubtaskDelete | app/src/components/task-modal.tsx:225-238 | the subtask is removed exactly when it belongs to this task on a board of the user; otherwise the call fails and nothing changes |
| TaskDialog.TaskModal.HandleDeleteSubmit | app/src/components/task-modal.tsx:191-196 | the payload is exactly `taskId` = this task's id, then `boardId` |
| TaskDialog.DeletePayloadParses | app/src/actions/delete-task.ts:37-47 | the delete payload passes the schema exactly when both ids are UUIDs, and then yields them in order |
| Forms.Get | app/src/actions/update-task.ts:52-56 | `get` is null exactly when no entry has the name; otherwise it is the value of the first entry with the name |
| Forms.Deleted | app/src/components/task-modal.tsx:167 | `delete` keeps exactly the entries with other names |
| Forms.GetAfterSet | app/src/components/task-modal.tsx:164 | after `set(name, v)`, `get(name)` is `v` |
| Forms.GetAfterSetOther | app/src/components/task-modal.tsx:164 | `set` of one name leaves `get` of every other name unchanged |
| Forms.GetAfterDelete | app/src/components/task-modal.tsx:172-173 | after `delete(name)`, `get(name)` is null and `get` of other names is unchanged |
| Forms.FormData.Set | app/src/components/task-modal.tsx:193-194 | `set` mutates the form to the replaced-or-appended entry list |
| Forms.FormData.Delete | app/src/components/task-modal.tsx:172-173 | `delete` mutates the form to the list without the name |
| Validation.Utf16Length | app/src/actions/create-board.ts:11 | the length zod's `.min` compares: at least the number of characters and at most twice it, equal to it exactly when no character lies outside the Basic Multilingual Plane |
| Validation.AstralCharCountsTwice | app/src/actions/create-board.ts:11-13 | a letter and an emoji meet the board title's three-character minimum |
| Validation.Issue | app/src/actions/create-task.ts:10-17 | a rule raises no issue exactly when the value is present and accepted; an absent value gets "Expected string, received null", a rejected one the rule's message |
| Validation.FlattenErrors | app/src/actions/create-task.ts:51-55 | the field errors hold exactly the failing fields, each with a non-empty message list; they are empty exactly when every field passes |
| Validation.Checks | app/src/actions/create-task.ts:45-49 | every schema field is checked against `formData.get` of its name |
| Validation.Values | app/src/actions/create-task.ts:58 | the parsed data are the form's values of the schema's fields, in schema order |
| Validation.SafeParse | app/src/actions/create-task.ts:45-56 | success exactly when every field is present and accepted, with the form's values; otherwise failure with the flattened, non-empty errors |
| Validation.MissingFieldReported | app/src/actions/update-task.ts:71-85 | an absent field makes the parse fail with "Expected string, received null" under that field's name |
| Ordering.NextOrder | app/src/actions/create-task.ts:81-87 | the new order exceeds every sibling order; it is 0 for no siblings and otherwise the largest order plus one |
| Ordering.LargestExists | app/src/actions/create-task.ts:81-84 | a non-empty set of sibling orders has a largest element, the one `orderBy: desc` finds |
| TaskEdit.ParseDueDate | app/src/actions/update-task.ts:59-69 | "null", "" or absent give `null`; any other string gives its date, and fails with "Invalid date format." exactly when it does not parse |
| TaskEdit.CreateUpdateData | app/src/actions/update-task.ts:32-38 | the update data has exactly the fields that are not `undefined`, with their values copied |
| TaskEdit.ApplyUpdate | app/src/actions/update-task.ts:115-120 | the row takes exactly the fields present in the data; its column and order never change |
| TaskEdit.MissingTitleIsRejected | app/src/actions/update-task.ts:54-85 | a form without a title is always rejected, with the title error when the date is valid |
| TaskEdit.AcceptedUpdateIsNeverEmpty | app/src/actions/update-task.ts:87-92 | an accepted form gives an update with all three fields and a non-empty title, so "No changes detected." never happens |
| TaskEdit.AcceptedIdsAreUuids | app/src/actions/update-task.ts:10-12 | an accepted form names its task and board by UUIDs |
| ColumnOrderBatch.CommitsIffAllOnBoard | app/src/actions/update-column-order.ts:65-78 | the batch commits exactly when every update names a column of the board |
| ColumnOrderBatch.CommittedTable | app/src/actions/update-column-order.ts:65-78 | a committed batch keeps the same columns; a listed column takes the order of its last update and keeps title and board; an unlisted column is unchanged |
| ColumnOrderBatch.ReapplyIsIdempotent | app/src/actions/update-column-order.ts:72-74 | re-applying a committed batch changes nothing |
| TaskOrderBatch.CommittedTable | app/src/actions/update-task-order.ts:63-80 | a committed batch keeps the same tasks; a listed task takes the order and column of its last update; an unlisted task is unchanged |
| TaskOrderBatch.ForeignTaskFails | app/src/actions/update-task-order.ts:63-80 | an update naming a task that is not on the board when its turn comes makes the whole batch fail |
| TaskOrderBatch.OnBoardBatchCommits | app/src/actions/update-task-order.ts:63-80 | a batch whose tasks and destination columns stay on the board commits |
| TaskOrderBatch.ReapplyIsIdempotent | app/src/actions/update-task-order.ts:73-76 | re-applying a committed batch whose destinations are on the board changes nothing |
| TaskOrderBatch.CommittedNamesKnownTasks | app/src/actions/update-task-order.ts:63-80 | every update of a committed batch names an existing task |
| TaskOrderBatch.DistinctBatchLandsExactly | app/src/actions/update-task-order.ts:73-76 | in a committed batch without repeated tasks, each task has exactly its update's order and column |
| TaskOrderBatch.CrossBoardMoveCommitsOnce | app/src/actions/update-task-order.ts:60 | the destination column is not checked against the board: a move to another board's column commits once and fails when re-sent |
| Store.AfterToggle | app/src/actions/toggle-subtask.ts:38-63 | a toggle sets `done` on that one subtask when its ownership chain holds, and changes nothing otherwise |
| Store.ToggleIsIdempotent | app/src/actions/toggle-subtask.ts:60-63 | the same toggle twice leaves the table as one toggle does |
| Store.Store.CreateBoard | app/src/actions/create-board.ts:24-78 | no user gives message-only "Unauthorized"; a title under 3 characters gives the title error; a database failure gives a message with no errors; on success exactly one board is added, owned by the user; nothing else changes |
| Store.Store.CreateColumn | app/src/actions/create-column.ts:27-103 | the unauthorized, validation and `boardId`-keyed ownership failures write nothing; on success exactly one column is added to the board, with an order above all its siblings (`max + 1` or 0) |
| Store.Store.CreateTask | app/src/actions/create-task.ts:30-114 | the unauthorized, validation and ownership failures write nothing; on success exactly one task is added with the title and column, ordered above all its siblings (`max + 1` or 0) |
| Store.Store.UpdateColumnTitle | app/src/actions/update-column-title.ts:29-112 | the failures write nothing; on success only that column's title changes, and the message embeds it |
| Store.Store.DeleteColumn | app/src/actions/delete-column.ts:25-102 | the failures write nothing; on success exactly that column is removed, and no other column is renumbered |
| Store.Store.UpdateColumnOrder | app/src/actions/update-column-order.ts:29-96 | no user or a board not owned fails and writes nothing; otherwise the columns table becomes the batch's committed table, or the database error leaves it as it was |
| Store.Store.UpdateTaskOrder | app/src/actions/update-task-order.ts:30-97 | no user or a board not owned fails and writes nothing; otherwise the tasks table becomes the batch's committed table, or the database error leaves it as it was |
| Store.Store.UpdateTask | app/src/actions/update-task.ts:40-137 | no user, a rejected form or a task not owned writes nothing; on success only the fields present in the update data change on that task |
| Store.Store.DeleteTask | app/src/actions/delete-task.ts:25-93 | the failures write nothing; on success exactly that task is removed, and no sibling is renumbered |
| Store.Store.CreateSubtask | app/src/actions/create-subtask.ts:22-93 | the failures write nothing; on success exactly one subtask is added, not done, with the title and task |
| Store.Store.ToggleSubtask | app/src/actions/toggle-subtask.ts:23-80 | no user or a broken ownership chain writes nothing; on success `done` is set to the supplied value (not negated) and nothing else changes |
| Store.Store.DeleteSubtask | app/src/actions/delete-subtask.ts:22-71 | no user or a broken ownership chain writes nothing; on success exactly that subtask is removed and "Subtask deleted successfully." is returned |

`DragDrop.ColumnList.OnDragEnd` states these outcomes:

- A drop with no destination, or back onto its start, changes nothing and
  sends nothing. So does an unknown drag type, or a task whose column or task
  is not found.
- A throw or an error reply falls back to `initialColumns` and leaves the
  tables as they were.
- A column drop sends each column of the reordered array with its index.
- A task drop changes the task arrays as `MoveTasks` says. It numbers both
  affected columns by position and sends the source-then-destination batch.
- A success commits exactly that batch.
- The method writes the list's state, the store, and for a task move whose
  columns and task are found, those two columns and their tasks (`DropFrame`). No
  other task's `order` and no other column's `tasks` change.

`TaskDialog.TaskModal.HandleUpdateSubmit` states what the trimmed form holds:

- `dueDate` is set to the ISO string or "null" exactly when the date object
  differs from the task's. Otherwise it is removed.
- `title` and `description` are removed, since they always equal the task's.
- Every other entry reads as before.
- The form is submitted exactly when an entry other than `taskId`/`boardId`
  remains. A date change is always submitted.

## Left out

- Authentication is not modelled: the signed-in user is the optional `userId` input. Whether the synchronous `auth()` calls work depends on a library version that is not part of this model.
- `revalidatePath`, toasts, `console.error`, rendering, dialogs, the forms' JSX and the drag-and-drop library are external effects or UI wiring.
- Cascading deletes of tasks and subtasks depend on a database schema that is not part of this model. Deleting a column or a task removes only that row.
- Database failures are modelled only where an insert's new id collides, and as the all-or-nothing failure of the batches. Any other thrown error (connection loss, Prisma's 32-bit `Int` limit on `order`) is not modelled.
- Transaction isolation and concurrency between requests are not modelled: a batch is one atomic step.
- UUID syntax is modelled as the 8-4-4-4-12 hexadecimal shape.
- Parsing a date string (`new Date`) and formatting one (`toISOString`) are function parameters with no further meaning. `toISOString` throwing on an invalid date is not modelled.
- Store.Store.CreateBoard: the new id is an input, as are the ids of the other creates.
- DragDrop.ColumnList.OnDragEnd: requires that a column drag starts at an index inside the column array. The library always reports such an index; a negative or too-large `splice` index is not modelled.
- DragDrop.ColumnList.OnDragEnd: requires `DragConsistent`. For a task drag, the task at `source.index` is the one with id `draggableId`, as the drag-and-drop library guarantees. The code finds the task by id and removes it by index.
- DragDrop.ColumnList.OnDragEnd: the server call is one step whose throwing is the input `fails`. The state between the optimistic update and the reply is not observable in the model.
- DragDrop.ColumnList.OnDragEnd: the fallback is stated as re-installing `initialColumns`. It does not restore the pre-drag state, since the move mutated the shared objects.
- The `useEffect` that re-installs `initialColumns` when the prop changes, and the dialog's reset effect, are modelled as a new object (`DragDrop.ColumnList.constructor`) and as one atomic step (`TaskDialog.TaskModal.ShowTask`).
- DragDrop.Renumber: requires a list that holds each task object once, as the column list's invariant guarantees; with a repeated object the later index would win.
- The progress percentage `Math.round((c / t) * 100)` is floating point; only the integer counts are modelled.
- `isEditingDescription` and `isPending` only switch what is rendered.
- The create-subtask form in the dialog posts straight to `createSubtask` (`Store.Store.CreateSubtask`) and has no logic of its own.
