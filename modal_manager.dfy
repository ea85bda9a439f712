/** The modal manager of the board page: the task named by the `task` query
    parameter is looked up in the columns, and the task dialog is rendered for
    it, or nothing is rendered. */
module ModalManager {
  import opened Base
  import opened BoardView

  /** Some column holds a task with the id. */
  ghost predicate Holds(columns: seq<ColumnCard>, taskId: Id)
    reads columns
  {
    exists i, k :: 0 <= i < |columns| && 0 <= k < |columns[i].tasks| && columns[i].tasks[k].id == taskId
  }

  /** `findTaskById`: the columns are scanned in order, each with `tasks.find`,
      and the first task found is returned; `null` stands for `undefined`. */
  function FindTaskById(columns: seq<ColumnCard>, taskId: Id): (t: TaskCard?)
    reads columns
    ensures t == null <==> !Holds(columns, taskId)
    ensures t != null ==> t.id == taskId
  {
    if columns == [] then null
    else
      var t := FindTask(columns[0].tasks, taskId);
      var tail := columns[1..];
      assert forall i :: 0 <= i < |tail| ==> tail[i] == columns[i + 1];
      if t != null then
        assert exists k :: 0 <= k < |columns[0].tasks| && columns[0].tasks[k] == t;
        t
      else
        var rest := FindTaskById(tail, taskId);
        if rest == null then
          assert !Holds(columns, taskId) by {
            forall i, k | 0 <= i < |columns| && 0 <= k < |columns[i].tasks|
              ensures columns[i].tasks[k].id != taskId
            {
              if i > 0 {
                assert tail[i - 1] == columns[i];
              }
            }
          }
          null
        else
          rest
  }

  /** The task found is the first match of the first column that holds one:
      every earlier column's `find` comes back empty. */
  lemma {:induction false} FoundInFirstHoldingColumn(columns: seq<ColumnCard>, taskId: Id)
    requires FindTaskById(columns, taskId) != null
    ensures exists i ::
              0 <= i < |columns| &&
              FindTask(columns[i].tasks, taskId) == FindTaskById(columns, taskId) &&
              (forall j :: 0 <= j < i ==> FindTask(columns[j].tasks, taskId) == null)
  {
    var t := FindTaskById(columns, taskId);
    if FindTask(columns[0].tasks, taskId) == null {
      var tail := columns[1..];
      FoundInFirstHoldingColumn(tail, taskId);
      var i :| 0 <= i < |tail| && FindTask(tail[i].tasks, taskId) == t &&
        (forall j :: 0 <= j < i ==> FindTask(tail[j].tasks, taskId) == null);
      assert columns[i + 1] == tail[i];
      forall j | 0 <= j < i + 1 ensures FindTask(columns[j].tasks, taskId) == null {
        if j > 0 {
          assert columns[j] == tail[j - 1];
        }
      }
    } else {
      assert FindTask(columns[0].tasks, taskId) == t;
    }
  }

  /** `taskId ? findTaskById(columns, taskId) : undefined`: an absent or empty
      `task` parameter selects nothing. */
  function SelectedTask(columns: seq<ColumnCard>, param: Option<string>): (t: TaskCard?)
    reads columns
    ensures t != null <==> param.Some? && param.value != "" && Holds(columns, param.value)
    ensures t != null ==> t.id == param.value
  {
    if param.None? || param.value == "" then null else FindTaskById(columns, param.value)
  }

  /** The props the manager renders the task dialog with. */
  datatype DialogProps = DialogProps(isOpen: bool, task: TaskCard, boardId: Id)

  /** The manager's render: no dialog without a selected task; otherwise an
      open dialog for that task on this board. */
  function Render(boardId: Id, columns: seq<ColumnCard>, param: Option<string>): (r: Option<DialogProps>)
    reads columns
    ensures r.None? <==> param.None? || param.value == "" || !Holds(columns, param.value)
    ensures r.Some? ==> r.value.isOpen && r.value.task.id == param.value && r.value.boardId == boardId
  {
    var selected := SelectedTask(columns, param);
    if selected == null then None else Some(DialogProps(true, selected, boardId))
  }
}
