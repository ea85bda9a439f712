/** The client-side board: the column and task objects the page passes to the
    drag-and-drop list and the task dialog. They are heap objects, shared by
    every array that holds them; the only fields the client writes are a
    column's `tasks` array and a task's `order`. */
module BoardView {
  import opened Base

  /** A JavaScript `Date` object: compared by reference, never by value. */
  class DateObj {
    const time: Date

    constructor (time: Date)
      ensures this.time == time
    {
      this.time := time;
    }
  }

  datatype SubtaskView = SubtaskView(id: Id, title: string, done: bool)

  /** A task with its subtasks, as loaded for the board page. */
  class TaskCard {
    const id: Id
    const columnId: Id
    const title: string
    const description: Option<string>
    const dueDate: DateObj?
    const subtasks: seq<SubtaskView>
    var order: int

    constructor (id: Id, columnId: Id, title: string, description: Option<string>, dueDate: DateObj?,
                 subtasks: seq<SubtaskView>, order: int)
      ensures this.id == id && this.columnId == columnId && this.title == title
      ensures this.description == description && this.dueDate == dueDate
      ensures this.subtasks == subtasks && this.order == order
    {
      this.id, this.columnId, this.title := id, columnId, title;
      this.description, this.dueDate := description, dueDate;
      this.subtasks, this.order := subtasks, order;
    }
  }

  /** A column with its tasks array, which the drag handler splices in place. */
  class ColumnCard {
    const id: Id
    const boardId: Id
    const title: string
    const order: int
    var tasks: seq<TaskCard>

    constructor (id: Id, boardId: Id, title: string, order: int, tasks: seq<TaskCard>)
      ensures this.id == id && this.boardId == boardId && this.title == title
      ensures this.order == order && this.tasks == tasks
    {
      this.id, this.boardId, this.title, this.order, this.tasks := id, boardId, title, order, tasks;
    }
  }

  /** The position of the first occurrence of the id, or the length when there is none. */
  function IndexOf(ids: seq<Id>, id: Id): (i: nat)
    ensures i <= |ids|
    ensures i < |ids| ==> ids[i] == id
    ensures forall k :: 0 <= k < i ==> ids[k] != id
  {
    if ids == [] then 0
    else if ids[0] == id then 0
    else 1 + IndexOf(ids[1..], id)
  }

  /** The position of the first column with the id, or the length when there is none. */
  function ColumnIndex(cols: seq<ColumnCard>, id: Id): (i: nat)
    ensures i <= |cols|
    ensures i < |cols| ==> cols[i].id == id
    ensures forall k :: 0 <= k < i ==> cols[k].id != id
  {
    IndexOf(Ids(cols), id)
  }

  /** `cols.find(col => col.id === id)`. */
  function FindColumn(cols: seq<ColumnCard>, id: Id): (c: ColumnCard?)
    ensures c == null <==> forall k :: 0 <= k < |cols| ==> cols[k].id != id
    ensures c != null ==> c.id == id && c in cols
    ensures c != null ==> exists i :: 0 <= i < |cols| && cols[i] == c && (forall k :: 0 <= k < i ==> cols[k].id != id)
  {
    var i := ColumnIndex(cols, id);
    if i < |cols| then cols[i] else null
  }

  /** `tasks.find(task => task.id === id)`. */
  function FindTask(tasks: seq<TaskCard>, id: Id): (t: TaskCard?)
    ensures t == null <==> forall k :: 0 <= k < |tasks| ==> tasks[k].id != id
    ensures t != null ==> t.id == id && t in tasks
    ensures t != null ==> exists i :: 0 <= i < |tasks| && tasks[i] == t && (forall k :: 0 <= k < i ==> tasks[k].id != id)
  {
    var i := IndexOf(TaskIds(tasks), id);
    if i < |tasks| then tasks[i] else null
  }

  /** The ids of the columns, in order. */
  function Ids(cols: seq<ColumnCard>): (ids: seq<Id>)
    ensures |ids| == |cols| && forall i :: 0 <= i < |cols| ==> ids[i] == cols[i].id
  {
    if cols == [] then [] else [cols[0].id] + Ids(cols[1..])
  }

  /** The ids of the tasks, in order. */
  function TaskIds(tasks: seq<TaskCard>): (ids: seq<Id>)
    ensures |ids| == |tasks| && forall i :: 0 <= i < |tasks| ==> ids[i] == tasks[i].id
  {
    seq(|tasks|, i requires 0 <= i < |tasks| => tasks[i].id)
  }

  /** The task arrays of the columns, in column order. */
  function Layout(cols: seq<ColumnCard>): seq<seq<TaskCard>>
    reads cols
  {
    seq(|cols|, i reads cols requires 0 <= i < |cols| => cols[i].tasks)
  }
}
