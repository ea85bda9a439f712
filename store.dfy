/** The database behind the server actions, and the actions themselves. Every
    action follows the same chain: authenticate (a signed-in `userId`),
    validate the form, authorize along the ownership chain
    subtask -> task -> column -> board -> userId, and then either write or
    return an error having written nothing. */
module Store {
  import opened Base
  import opened Validation
  import opened Ordering
  import opened TaskEdit
  import Forms
  import TaskOrderBatch
  import ColumnOrderBatch

  /** The `_general` failure of an ownership check on `what` ("Task", "Column", ...). */
  function AuthError(what: string): ActionState
  {
    GeneralError("Authorization failed. " + what + " not found or access denied.", AuthorizationFailed)
  }

  /** The `_general` failure of the catch branch, for the operation `op`. */
  function DbError(op: string): ActionState
  {
    GeneralError("Database Error: Failed to " + op + ".", DatabaseFailed)
  }

  /** The result of a failed `safeParse`, for the operation `op`. */
  function ValidationError(errors: FieldErrors, op: string): ActionState
  {
    ActionState(Some(errors), Some("Validation failed. Could not " + op + "."))
  }

  const CreateBoardSchema := [MinLength("title", 3, "Title must be at least 3 characters long.")]
  const CreateColumnSchema := [MinLength("title", 1, "Title cannot be empty."), Uuid("boardId", "Invalid Board ID.")]
  const CreateTaskSchema := [MinLength("title", 1, "Title cannot be empty."), Uuid("columnId", "Invalid Column ID."),
                             Uuid("boardId", "Invalid Board ID.")]
  const UpdateColumnTitleSchema := CreateTaskSchema
  const DeleteColumnSchema := [Uuid("columnId", "Invalid Column ID."), Uuid("boardId", "Invalid Board ID.")]
  const DeleteTaskSchema := [Uuid("taskId", "Invalid Task ID."), Uuid("boardId", "Invalid Board ID.")]
  const CreateSubtaskSchema := [MinLength("title", 1, "Title cannot be empty."), Uuid("taskId", "Invalid Task ID."),
                                Uuid("boardId", "Invalid Board ID.")]

  /** The column exists on `boardId` and that board belongs to `userId`. */
  predicate ColumnOwned(boards: map<Id, Board>, columns: map<Id, Column>, columnId: Id, boardId: Id, userId: string)
  {
    ColumnOnBoard(columns, columnId, boardId) && OwnsBoard(boards, boardId, userId)
  }

  /** The task lies in a column of `boardId` and that board belongs to `userId`. */
  predicate TaskOwned(boards: map<Id, Board>, columns: map<Id, Column>, tasks: map<Id, Task>,
                      taskId: Id, boardId: Id, userId: string)
  {
    TaskOnBoard(tasks, columns, taskId, boardId) && OwnsBoard(boards, boardId, userId)
  }

  /** The single-query chain of `toggleSubtask` and `deleteSubtask`: the subtask
      exists under `taskId`, whose column is on `boardId`, owned by `userId`. */
  predicate SubtaskOwned(boards: map<Id, Board>, columns: map<Id, Column>, tasks: map<Id, Task>,
                         subtasks: map<Id, Subtask>, subtaskId: Id, taskId: Id, boardId: Id, userId: string)
  {
    subtaskId in subtasks && subtasks[subtaskId].taskId == taskId &&
    TaskOwned(boards, columns, tasks, taskId, boardId, userId)
  }

  /** The subtask table after `toggleSubtask` for a signed-in user: `done` set
      on that subtask when its ownership chain holds, and no change otherwise. */
  function AfterToggle(boards: map<Id, Board>, columns: map<Id, Column>, tasks: map<Id, Task>,
                       subtasks: map<Id, Subtask>, subtaskId: Id, taskId: Id, boardId: Id, done: bool,
                       userId: string): (r: map<Id, Subtask>)
    ensures r.Keys == subtasks.Keys
    ensures forall s :: s in subtasks && s != subtaskId ==> r[s] == subtasks[s]
    ensures SubtaskOwned(boards, columns, tasks, subtasks, subtaskId, taskId, boardId, userId) ==>
      r[subtaskId] == subtasks[subtaskId].(done := done)
    ensures !SubtaskOwned(boards, columns, tasks, subtasks, subtaskId, taskId, boardId, userId) ==> r == subtasks
  {
    if SubtaskOwned(boards, columns, tasks, subtasks, subtaskId, taskId, boardId, userId)
    then subtasks[subtaskId := subtasks[subtaskId].(done := done)]
    else subtasks
  }

  /** Toggling keeps the ownership chain, so sending the same toggle twice
      leaves the table as one toggle does. */
  lemma ToggleIsIdempotent(boards: map<Id, Board>, columns: map<Id, Column>, tasks: map<Id, Task>,
                           subtasks: map<Id, Subtask>, subtaskId: Id, taskId: Id, boardId: Id, done: bool,
                           userId: string)
    ensures var once := AfterToggle(boards, columns, tasks, subtasks, subtaskId, taskId, boardId, done, userId);
      AfterToggle(boards, columns, tasks, once, subtaskId, taskId, boardId, done, userId) == once
  {
  }

  /** The four tables. Each row is stored under its id. */
  class Store {
    var boards: map<Id, Board>
    var columns: map<Id, Column>
    var tasks: map<Id, Task>
    var subtasks: map<Id, Subtask>

    /** Every column's board exists: boards are never deleted, and a column is
        only created on a board the user owns. */
    predicate Valid()
      reads this
    {
      forall c :: c in columns ==> columns[c].boardId in boards
    }

    constructor ()
      ensures Valid()
      ensures boards == map[] && columns == map[] && tasks == map[] && subtasks == map[]
    {
      boards, columns, tasks, subtasks := map[], map[], map[], map[];
    }

    /** `createBoard`. Its failures carry a message and no `errors` field. */
    method CreateBoard(form: Forms.Entries, userId: Option<string>, newId: Id) returns (state: ActionState)
      requires Valid()
      modifies this
      ensures Valid()
      ensures columns == old(columns) && tasks == old(tasks) && subtasks == old(subtasks)
      ensures userId == None ==> state == MessageOnly("Unauthorized") && boards == old(boards)
      ensures userId.Some? && SafeParse(form, CreateBoardSchema).Failure? ==>
        state == ValidationError(SafeParse(form, CreateBoardSchema).errors, "create board") &&
        boards == old(boards)
      ensures userId.Some? && SafeParse(form, CreateBoardSchema).Success? ==>
        var title := SafeParse(form, CreateBoardSchema).data[0];
        if newId in old(boards) then
          state == MessageOnly("Database Error: Failed to create board.") && boards == old(boards)
        else
          state == MessageOnly("Board " + Quoted(title) + " created successfully.") &&
          boards == old(boards)[newId := Board(userId.value, title)]
      ensures state.errors.None? || boards == old(boards)
    {
      if userId.None? {
        return MessageOnly("Unauthorized");
      }
      var parsed := SafeParse(form, CreateBoardSchema);
      if parsed.Failure? {
        return ValidationError(parsed.errors, "create board");
      }
      var title := parsed.data[0];
      if newId in boards {
        return MessageOnly("Database Error: Failed to create board.");
      }
      boards := boards[newId := Board(userId.value, title)];
      state := MessageOnly("Board " + Quoted(title) + " created successfully.");
    }

    /** `createColumn`. An ownership failure is reported under `boardId`. */
    method CreateColumn(form: Forms.Entries, userId: Option<string>, newId: Id) returns (state: ActionState)
      requires Valid()
      modifies this
      ensures Valid()
      ensures boards == old(boards) && tasks == old(tasks) && subtasks == old(subtasks)
      ensures state.Failed() ==> columns == old(columns)
      ensures userId == None ==> state == Unauthorized
      ensures userId.Some? && SafeParse(form, CreateColumnSchema).Failure? ==>
        state == ValidationError(SafeParse(form, CreateColumnSchema).errors, "create column")
      ensures userId.Some? && SafeParse(form, CreateColumnSchema).Success? ==>
        var title, boardId := SafeParse(form, CreateColumnSchema).data[0], SafeParse(form, CreateColumnSchema).data[1];
        if !OwnsBoard(old(boards), boardId, userId.value) then
          state == ActionState(Some(map["boardId" := ["Board not found or access denied."]]), Some(AuthorizationFailed))
        else if newId in old(columns) then
          state == DbError("create column")
        else
          state == MessageOnly("Column " + Quoted(title) + " created.") &&
          columns == old(columns)[newId := Column(boardId, title, NextOrder(ColumnOrders(old(columns), boardId)))]
      ensures !state.Failed() ==>
        columns.Keys == old(columns).Keys + {newId} && newId !in old(columns) &&
        forall c :: c in old(columns) && old(columns)[c].boardId == columns[newId].boardId ==>
          old(columns)[c].order < columns[newId].order
    {
      if userId.None? {
        return Unauthorized;
      }
      var parsed := SafeParse(form, CreateColumnSchema);
      if parsed.Failure? {
        return ValidationError(parsed.errors, "create column");
      }
      var title, boardId := parsed.data[0], parsed.data[1];
      if !OwnsBoard(boards, boardId, userId.value) {
        return ActionState(Some(map["boardId" := ["Board not found or access denied."]]), Some(AuthorizationFailed));
      }
      var newOrder := NextOrder(ColumnOrders(columns, boardId));
      assert forall c :: c in columns && columns[c].boardId == boardId ==> columns[c].order in ColumnOrders(columns, boardId);
      if newId in columns {
        return DbError("create column");
      }
      columns := columns[newId := Column(boardId, title, newOrder)];
      state := MessageOnly("Column " + Quoted(title) + " created.");
    }

    /** `createTask`: appended to its column with the next order, without
        description or due date. */
    method CreateTask(form: Forms.Entries, userId: Option<string>, newId: Id) returns (state: ActionState)
      requires Valid()
      modifies this
      ensures Valid()
      ensures boards == old(boards) && columns == old(columns) && subtasks == old(subtasks)
      ensures state.Failed() ==> tasks == old(tasks)
      ensures userId == None ==> state == Unauthorized
      ensures userId.Some? && SafeParse(form, CreateTaskSchema).Failure? ==>
        state == ValidationError(SafeParse(form, CreateTaskSchema).errors, "create task")
      ensures userId.Some? && SafeParse(form, CreateTaskSchema).Success? ==>
        var data := SafeParse(form, CreateTaskSchema).data;
        var title, columnId, boardId := data[0], data[1], data[2];
        if !ColumnOwned(old(boards), old(columns), columnId, boardId, userId.value) then
          state == AuthError("Column")
        else if newId in old(tasks) then
          state == DbError("create task")
        else
          state == MessageOnly("Task " + Quoted(title) + " created.") &&
          tasks == old(tasks)[newId := Task(columnId, title, NextOrder(TaskOrders(old(tasks), columnId)), None, None)]
      ensures !state.Failed() ==>
        tasks.Keys == old(tasks).Keys + {newId} && newId !in old(tasks) &&
        forall t :: t in old(tasks) && old(tasks)[t].columnId == tasks[newId].columnId ==>
          old(tasks)[t].order < tasks[newId].order
    {
      if userId.None? {
        return Unauthorized;
      }
      var parsed := SafeParse(form, CreateTaskSchema);
      if parsed.Failure? {
        return ValidationError(parsed.errors, "create task");
      }
      var title, columnId, boardId := parsed.data[0], parsed.data[1], parsed.data[2];
      if !ColumnOwned(boards, columns, columnId, boardId, userId.value) {
        return AuthError("Column");
      }
      var newOrder := NextOrder(TaskOrders(tasks, columnId));
      assert forall t :: t in tasks && tasks[t].columnId == columnId ==> tasks[t].order in TaskOrders(tasks, columnId);
      if newId in tasks {
        return DbError("create task");
      }
      tasks := tasks[newId := Task(columnId, title, newOrder, None, None)];
      state := MessageOnly("Task " + Quoted(title) + " created.");
    }

    /** `updateColumnTitle`: only the title of that column changes. */
    method UpdateColumnTitle(form: Forms.Entries, userId: Option<string>) returns (state: ActionState)
      requires Valid()
      modifies this
      ensures Valid()
      ensures boards == old(boards) && tasks == old(tasks) && subtasks == old(subtasks)
      ensures state.Failed() ==> columns == old(columns)
      ensures userId == None ==> state == Unauthorized
      ensures userId.Some? && SafeParse(form, UpdateColumnTitleSchema).Failure? ==>
        state == ValidationError(SafeParse(form, UpdateColumnTitleSchema).errors, "update title")
      ensures userId.Some? && SafeParse(form, UpdateColumnTitleSchema).Success? ==>
        var data := SafeParse(form, UpdateColumnTitleSchema).data;
        var title, columnId, boardId := data[0], data[1], data[2];
        if !ColumnOwned(old(boards), old(columns), columnId, boardId, userId.value) then
          state == AuthError("Column")
        else
          state == MessageOnly("Column title updated to " + Quoted(title) + ".") &&
          columns == old(columns)[columnId := old(columns)[columnId].(title := title)]
    {
      if userId.None? {
        return Unauthorized;
      }
      var parsed := SafeParse(form, UpdateColumnTitleSchema);
      if parsed.Failure? {
        return ValidationError(parsed.errors, "update title");
      }
      var title, columnId, boardId := parsed.data[0], parsed.data[1], parsed.data[2];
      if !ColumnOwned(boards, columns, columnId, boardId, userId.value) {
        return AuthError("Column");
      }
      columns := columns[columnId := columns[columnId].(title := title)];
      state := MessageOnly("Column title updated to " + Quoted(title) + ".");
    }

    /** `deleteColumn`: removes that one row; the remaining columns keep their
        orders, and its tasks stay in the table (no cascade is modelled). */
    method DeleteColumn(form: Forms.Entries, userId: Option<string>) returns (state: ActionState)
      requires Valid()
      modifies this
      ensures Valid()
      ensures boards == old(boards) && tasks == old(tasks) && subtasks == old(subtasks)
      ensures state.Failed() ==> columns == old(columns)
      ensures userId == None ==> state == Unauthorized
      ensures userId.Some? && SafeParse(form, DeleteColumnSchema).Failure? ==>
        state == ValidationError(SafeParse(form, DeleteColumnSchema).errors, "delete column")
      ensures userId.Some? && SafeParse(form, DeleteColumnSchema).Success? ==>
        var data := SafeParse(form, DeleteColumnSchema).data;
        var columnId, boardId := data[0], data[1];
        if !ColumnOwned(old(boards), old(columns), columnId, boardId, userId.value) then
          state == AuthError("Column")
        else
          state == MessageOnly("Column deleted successfully.") && columns == old(columns) - {columnId}
    {
      if userId.None? {
        return Unauthorized;
      }
      var parsed := SafeParse(form, DeleteColumnSchema);
      if parsed.Failure? {
        return ValidationError(parsed.errors, "delete column");
      }
      var columnId, boardId := parsed.data[0], parsed.data[1];
      if !ColumnOwned(boards, columns, columnId, boardId, userId.value) {
        return AuthError("Column");
      }
      columns := columns - {columnId};
      state := MessageOnly("Column deleted successfully.");
    }

    /** `updateColumnOrder`: after the ownership check, the batch runs on a working
        copy of the column table that is installed only if every update applies. */
    method UpdateColumnOrder(boardId: Id, updates: seq<ColumnOrderBatch.ColumnOrderUpdate>, userId: Option<string>)
      returns (state: ActionState)
      requires Valid()
      modifies this
      ensures Valid()
      ensures boards == old(boards) && tasks == old(tasks) && subtasks == old(subtasks)
      ensures state.Failed() ==> columns == old(columns)
      ensures userId == None ==> state == Unauthorized
      ensures userId.Some? && !OwnsBoard(old(boards), boardId, userId.value) ==> state == AuthError("Board")
      ensures userId.Some? && OwnsBoard(old(boards), boardId, userId.value) ==>
        match ColumnOrderBatch.ApplyAll(old(columns), boardId, updates)
        case None => state == DbError("update column order")
        case Some(m) => state == MessageOnly("Column order updated.") && columns == m
    {
      if userId.None? {
        return Unauthorized;
      }
      if !OwnsBoard(boards, boardId, userId.value) {
        return AuthError("Board");
      }
      var working := columns;
      var i := 0;
      while i < |updates|
        invariant 0 <= i <= |updates|
        invariant ColumnOrderBatch.ApplyAll(working, boardId, updates[i..]) ==
                  ColumnOrderBatch.ApplyAll(columns, boardId, updates)
        invariant working.Keys == columns.Keys
        invariant forall c :: c in working ==> working[c].boardId == columns[c].boardId
      {
        var u := updates[i];
        assert updates[i..][0] == u && updates[i..][1..] == updates[i + 1..];
        if !ColumnOnBoard(working, u.id, boardId) {
          return DbError("update column order");
        }
        working := working[u.id := working[u.id].(order := u.order)];
        i := i + 1;
      }
      assert updates[i..] == [];
      columns := working;
      state := MessageOnly("Column order updated.");
    }

    /** `updateTaskOrder`: after the ownership check, each update must find its task
        in a column of the board and write an existing column; the batch is
        installed only if all of them apply. */
    method UpdateTaskOrder(boardId: Id, updates: seq<TaskOrderBatch.TaskOrderUpdate>, userId: Option<string>)
      returns (state: ActionState)
      requires Valid()
      modifies this
      ensures Valid()
      ensures boards == old(boards) && columns == old(columns) && subtasks == old(subtasks)
      ensures state.Failed() ==> tasks == old(tasks)
      ensures userId == None ==> state == Unauthorized
      ensures userId.Some? && !OwnsBoard(old(boards), boardId, userId.value) ==> state == AuthError("Board")
      ensures userId.Some? && OwnsBoard(old(boards), boardId, userId.value) ==>
        match TaskOrderBatch.ApplyAll(old(tasks), old(columns), boardId, updates)
        case None => state == DbError("update task order")
        case Some(m) => state == MessageOnly("Task order updated.") && tasks == m
    {
      if userId.None? {
        return Unauthorized;
      }
      if !OwnsBoard(boards, boardId, userId.value) {
        return AuthError("Board");
      }
      var working := tasks;
      var i := 0;
      while i < |updates|
        invariant 0 <= i <= |updates|
        invariant TaskOrderBatch.ApplyAll(working, columns, boardId, updates[i..]) ==
                  TaskOrderBatch.ApplyAll(tasks, columns, boardId, updates)
      {
        var u := updates[i];
        assert updates[i..][0] == u && updates[i..][1..] == updates[i + 1..];
        if !TaskOrderBatch.Applicable(working, columns, boardId, u) {
          return DbError("update task order");
        }
        working := working[u.id := TaskOrderBatch.Moved(working[u.id], u)];
        i := i + 1;
      }
      assert updates[i..] == [];
      tasks := working;
      state := MessageOnly("Task order updated.");
    }

    /** `updateTask`: the due-date conversion and validation, the partial update
        built from the validated fields, the ownership check, and the write of
        exactly the fields in the update. */
    method UpdateTask(form: Forms.Entries, userId: Option<string>, parse: string -> Option<Date>)
      returns (state: ActionState)
      requires Valid()
      modifies this
      ensures Valid()
      ensures boards == old(boards) && columns == old(columns) && subtasks == old(subtasks)
      ensures state.Failed() ==> tasks == old(tasks)
      ensures userId == None ==> state == Unauthorized
      ensures userId.Some? && ReadUpdateForm(form, parse).Rejected? ==>
        state == ReadUpdateForm(form, parse).state
      ensures userId.Some? && ReadUpdateForm(form, parse).Accepted? ==>
        var v := ReadUpdateForm(form, parse).data;
        var data := CreateUpdateData(v);
        if Keys(data) == {} then
          state == MessageOnly("No changes detected.") && tasks == old(tasks)
        else if !TaskOwned(old(boards), old(columns), old(tasks), v.taskId, v.boardId, userId.value) then
          state == AuthError("Task")
        else
          state == MessageOnly("Task updated successfully.") &&
          tasks == old(tasks)[v.taskId := ApplyUpdate(old(tasks)[v.taskId], data)]
    {
      if userId.None? {
        return Unauthorized;
      }
      var outcome := ReadUpdateForm(form, parse);
      if outcome.Rejected? {
        return outcome.state;
      }
      var v := outcome.data;
      var data := CreateUpdateData(v);
      if Keys(data) == {} {
        return MessageOnly("No changes detected.");
      }
      if !TaskOwned(boards, columns, tasks, v.taskId, v.boardId, userId.value) {
        return AuthError("Task");
      }
      tasks := tasks[v.taskId := ApplyUpdate(tasks[v.taskId], data)];
      state := MessageOnly("Task updated successfully.");
    }

    /** `deleteTask`: removes that one row; its siblings keep their orders. */
    method DeleteTask(form: Forms.Entries, userId: Option<string>) returns (state: ActionState)
      requires Valid()
      modifies this
      ensures Valid()
      ensures boards == old(boards) && columns == old(columns) && subtasks == old(subtasks)
      ensures state.Failed() ==> tasks == old(tasks)
      ensures userId == None ==> state == Unauthorized
      ensures userId.Some? && SafeParse(form, DeleteTaskSchema).Failure? ==>
        state == ValidationError(SafeParse(form, DeleteTaskSchema).errors, "delete task")
      ensures userId.Some? && SafeParse(form, DeleteTaskSchema).Success? ==>
        var data := SafeParse(form, DeleteTaskSchema).data;
        var taskId, boardId := data[0], data[1];
        if !TaskOwned(old(boards), old(columns), old(tasks), taskId, boardId, userId.value) then
          state == AuthError("Task")
        else
          state == MessageOnly("Task deleted successfully.") && tasks == old(tasks) - {taskId}
    {
      if userId.None? {
        return Unauthorized;
      }
      var parsed := SafeParse(form, DeleteTaskSchema);
      if parsed.Failure? {
        return ValidationError(parsed.errors, "delete task");
      }
      var taskId, boardId := parsed.data[0], parsed.data[1];
      if !TaskOwned(boards, columns, tasks, taskId, boardId, userId.value) {
        return AuthError("Task");
      }
      tasks := tasks - {taskId};
      state := MessageOnly("Task deleted successfully.");
    }

    /** `createSubtask`: a subtask starts not done. */
    method CreateSubtask(form: Forms.Entries, userId: Option<string>, newId: Id) returns (state: ActionState)
      requires Valid()
      modifies this
      ensures Valid()
      ensures boards == old(boards) && columns == old(columns) && tasks == old(tasks)
      ensures state.Failed() ==> subtasks == old(subtasks)
      ensures userId == None ==> state == Unauthorized
      ensures userId.Some? && SafeParse(form, CreateSubtaskSchema).Failure? ==>
        state == ValidationError(SafeParse(form, CreateSubtaskSchema).errors, "create subtask")
      ensures userId.Some? && SafeParse(form, CreateSubtaskSchema).Success? ==>
        var data := SafeParse(form, CreateSubtaskSchema).data;
        var title, taskId, boardId := data[0], data[1], data[2];
        if !TaskOwned(old(boards), old(columns), old(tasks), taskId, boardId, userId.value) then
          state == AuthError("Task")
        else if newId in old(subtasks) then
          state == DbError("create subtask")
        else
          state == MessageOnly("Subtask " + Quoted(title) + " created.") &&
          subtasks == old(subtasks)[newId := Subtask(taskId, title, false)]
    {
      if userId.None? {
        return Unauthorized;
      }
      var parsed := SafeParse(form, CreateSubtaskSchema);
      if parsed.Failure? {
        return ValidationError(parsed.errors, "create subtask");
      }
      var title, taskId, boardId := parsed.data[0], parsed.data[1], parsed.data[2];
      if !TaskOwned(boards, columns, tasks, taskId, boardId, userId.value) {
        return AuthError("Task");
      }
      if newId in subtasks {
        return DbError("create subtask");
      }
      subtasks := subtasks[newId := Subtask(taskId, title, false)];
      state := MessageOnly("Subtask " + Quoted(title) + " created.");
    }

    /** `toggleSubtask`: sets (does not negate) `done`. Its input is not validated. */
    method ToggleSubtask(subtaskId: Id, taskId: Id, boardId: Id, done: bool, userId: Option<string>)
      returns (state: ActionState)
      requires Valid()
      modifies this
      ensures Valid()
      ensures boards == old(boards) && columns == old(columns) && tasks == old(tasks)
      ensures userId == None ==> state == Unauthorized && subtasks == old(subtasks)
      ensures userId.Some? ==>
        if !SubtaskOwned(old(boards), old(columns), old(tasks), old(subtasks), subtaskId, taskId, boardId, userId.value) then
          state == AuthError("Subtask") && subtasks == old(subtasks)
        else
          state == MessageOnly("Subtask status updated.") &&
          subtasks == old(subtasks)[subtaskId := old(subtasks)[subtaskId].(done := done)]
      ensures userId.Some? ==>
        subtasks == AfterToggle(old(boards), old(columns), old(tasks), old(subtasks), subtaskId, taskId, boardId, done, userId.value)
    {
      if userId.None? {
        return Unauthorized;
      }
      if !SubtaskOwned(boards, columns, tasks, subtasks, subtaskId, taskId, boardId, userId.value) {
        return AuthError("Subtask");
      }
      subtasks := subtasks[subtaskId := subtasks[subtaskId].(done := done)];
      state := MessageOnly("Subtask status updated.");
    }

    /** `deleteSubtask`: removes that one row. Its input is not validated. */
    method DeleteSubtask(subtaskId: Id, taskId: Id, boardId: Id, userId: Option<string>)
      returns (state: ActionState)
      requires Valid()
      modifies this
      ensures Valid()
      ensures boards == old(boards) && columns == old(columns) && tasks == old(tasks)
      ensures userId == None ==> state == Unauthorized && subtasks == old(subtasks)
      ensures userId.Some? ==>
        if !SubtaskOwned(old(boards), old(columns), old(tasks), old(subtasks), subtaskId, taskId, boardId, userId.value) then
          state == AuthError("Subtask") && subtasks == old(subtasks)
        else
          state == MessageOnly("Subtask deleted successfully.") && subtasks == old(subtasks) - {subtaskId}
    {
      if userId.None? {
        return Unauthorized;
      }
      if !SubtaskOwned(boards, columns, tasks, subtasks, subtaskId, taskId, boardId, userId.value) {
        return AuthError("Subtask");
      }
      subtasks := subtasks - {subtaskId};
      state := MessageOnly("Subtask deleted successfully.");
    }
  }
}
