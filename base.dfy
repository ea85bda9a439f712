/** Shared vocabulary of the kanban board: optional values, identifiers, the
    rows of the four tables, and the result record every server action returns. */
module Base {

  /** A value that may be absent: JavaScript's `null` (or an unset field). */
  datatype Option<+T> = None | Some(value: T)

  /** Identifiers are strings (UUIDs generated by the database). */
  type Id = string

  /** A server-side date, as the millisecond count a JavaScript `Date` holds. */
  type Date = int

  /** One row of each table; the row's own id is the key it is stored under. */
  datatype Board = Board(userId: string, title: string)
  datatype Column = Column(boardId: Id, title: string, order: int)
  datatype Task = Task(columnId: Id, title: string, order: int,
                       description: Option<string>, dueDate: Option<Date>)
  datatype Subtask = Subtask(taskId: Id, title: string, done: bool)

  /** zod's `flatten().fieldErrors`: field name to its error messages. */
  type FieldErrors = map<string, seq<string>>

  /** The `{ errors?, message? }` record every action returns. */
  datatype ActionState = ActionState(errors: Option<FieldErrors>, message: Option<string>)
  {
    predicate Failed() { errors.Some? }
  }

  const GeneralKey := "_general"

  /** The result of a failure reported under the `_general` key. */
  function GeneralError(error: string, message: string): ActionState
  {
    ActionState(Some(map[GeneralKey := [error]]), Some(message))
  }

  /** A result with a message and no `errors` field. */
  function MessageOnly(message: string): ActionState
  {
    ActionState(None, Some(message))
  }

  /** The result every action except `createBoard` returns without a signed-in user. */
  const Unauthorized: ActionState := GeneralError("Unauthorized", "Authentication failed.")

  const DatabaseFailed := "Database operation failed."
  const AuthorizationFailed := "Authorization failed."

  /** `"` + s + `"`, as the template literals of the success messages write it. */
  function Quoted(s: string): string { "\"" + s + "\"" }

  // ---------------------------------------------------------------------------
  // Ownership chain: subtask -> task -> column -> board -> userId.

  /** The board exists and belongs to `userId` (`board.findUnique({ where: { id, userId } })`). */
  predicate OwnsBoard(boards: map<Id, Board>, boardId: Id, userId: string)
  {
    boardId in boards && boards[boardId].userId == userId
  }

  /** The column exists and lies on `boardId` (`where: { id: columnId, boardId }`). */
  predicate ColumnOnBoard(columns: map<Id, Column>, columnId: Id, boardId: Id)
  {
    columnId in columns && columns[columnId].boardId == boardId
  }

  /** The task exists and lies in a column of `boardId` (`where: { id, column: { boardId } }`). */
  predicate TaskOnBoard(tasks: map<Id, Task>, columns: map<Id, Column>, taskId: Id, boardId: Id)
  {
    taskId in tasks && ColumnOnBoard(columns, tasks[taskId].columnId, boardId)
  }
}
