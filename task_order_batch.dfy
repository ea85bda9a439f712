/** The transaction of `updateTaskOrder`: one `task.update` per entry of the
    batch, run in sequence and committed all together or not at all. Each
    update's `where` finds the task only if it currently lies in a column of
    the board; the column written into `columnId` is NOT checked against the
    board, only against the column table (the foreign key). */
module TaskOrderBatch {
  import opened Base

  /** One entry `{ id, order, columnId }` of the batch. */
  datatype TaskOrderUpdate = TaskOrderUpdate(id: Id, order: int, columnId: Id)

  /** The update's `where` finds its task, and the column it writes exists. */
  predicate Applicable(tasks: map<Id, Task>, columns: map<Id, Column>, boardId: Id, u: TaskOrderUpdate)
  {
    TaskOnBoard(tasks, columns, u.id, boardId) && u.columnId in columns
  }

  /** The row after the update's `data: { order, columnId }`. */
  function Moved(t: Task, u: TaskOrderUpdate): Task
  {
    t.(order := u.order, columnId := u.columnId)
  }

  /** The task table the transaction commits, or None when some update throws
      (and the whole transaction rolls back). */
  function ApplyAll(tasks: map<Id, Task>, columns: map<Id, Column>, boardId: Id,
                    updates: seq<TaskOrderUpdate>): Option<map<Id, Task>>
    decreases |updates|
  {
    if updates == [] then Some(tasks)
    else if Applicable(tasks, columns, boardId, updates[0]) then
      var u := updates[0];
      ApplyAll(tasks[u.id := Moved(tasks[u.id], u)], columns, boardId, updates[1..])
    else None
  }

  /** The last entry of the batch for task `id`: the one whose write survives. */
  function LastFor(updates: seq<TaskOrderUpdate>, id: Id): (r: Option<TaskOrderUpdate>)
    ensures r.Some? ==> r.value in updates && r.value.id == id
    ensures r.None? <==> forall i :: 0 <= i < |updates| ==> updates[i].id != id
  {
    if updates == [] then None
    else
      var later := LastFor(updates[1..], id);
      assert forall i :: 1 <= i < |updates| ==> updates[i] == updates[1..][i - 1];
      if later.Some? then later
      else if updates[0].id == id then Some(updates[0])
      else None
  }

  /** The row of task `t` once the whole batch is applied. */
  function Final(t: Task, last: Option<TaskOrderUpdate>): Task
  {
    match last
    case None => t
    case Some(u) => Moved(t, u)
  }

  /** A committed batch leaves the same set of tasks; a listed task carries the
      `order` and `columnId` of its last entry and keeps its other fields; an
      unlisted task is unchanged. */
  lemma {:induction false} CommittedTable(tasks: map<Id, Task>, columns: map<Id, Column>, boardId: Id,
                                          updates: seq<TaskOrderUpdate>)
    requires ApplyAll(tasks, columns, boardId, updates).Some?
    ensures var m := ApplyAll(tasks, columns, boardId, updates).value;
      m.Keys == tasks.Keys &&
      forall id :: id in tasks ==> m[id] == Final(tasks[id], LastFor(updates, id))
    decreases |updates|
  {
    if updates != [] {
      var u := updates[0];
      var next := tasks[u.id := Moved(tasks[u.id], u)];
      CommittedTable(next, columns, boardId, updates[1..]);
    }
  }

  /** If an entry names a task that is not in a column of the board when its turn
      comes (no earlier entry touches it), the whole batch fails. This covers an id
      that is not in the task table at all. */
  lemma {:induction false} ForeignTaskFails(tasks: map<Id, Task>, columns: map<Id, Column>, boardId: Id,
                                            updates: seq<TaskOrderUpdate>, i: nat)
    requires i < |updates|
    requires !TaskOnBoard(tasks, columns, updates[i].id, boardId)
    requires forall j :: 0 <= j < i ==> updates[j].id != updates[i].id
    ensures ApplyAll(tasks, columns, boardId, updates) == None
    decreases |updates|
  {
    if i > 0 && Applicable(tasks, columns, boardId, updates[0]) {
      var u := updates[0];
      var next := tasks[u.id := Moved(tasks[u.id], u)];
      assert updates[1..][i - 1] == updates[i];
      ForeignTaskFails(next, columns, boardId, updates[1..], i - 1);
    }
  }

  /** Every entry names a task on the board and a destination column on the board. */
  predicate StaysOnBoard(tasks: map<Id, Task>, columns: map<Id, Column>, boardId: Id,
                         updates: seq<TaskOrderUpdate>)
  {
    forall i :: 0 <= i < |updates| ==>
      TaskOnBoard(tasks, columns, updates[i].id, boardId) &&
      ColumnOnBoard(columns, updates[i].columnId, boardId)
  }

  /** A batch that only moves tasks of the board between columns of the board commits. */
  lemma {:induction false} OnBoardBatchCommits(tasks: map<Id, Task>, columns: map<Id, Column>, boardId: Id,
                                               updates: seq<TaskOrderUpdate>)
    requires StaysOnBoard(tasks, columns, boardId, updates)
    ensures ApplyAll(tasks, columns, boardId, updates).Some?
    decreases |updates|
  {
    if updates != [] {
      var u := updates[0];
      var next := tasks[u.id := Moved(tasks[u.id], u)];
      assert StaysOnBoard(next, columns, boardId, updates[1..]) by {
        forall i | 0 <= i < |updates| - 1
          ensures TaskOnBoard(next, columns, updates[1..][i].id, boardId)
        {
          assert updates[1..][i] == updates[i + 1];
        }
      }
      OnBoardBatchCommits(next, columns, boardId, updates[1..]);
    }
  }

  /** Re-applying a committed batch whose destination columns all lie on the
      board changes nothing: every write is an absolute assignment. */
  lemma ReapplyIsIdempotent(tasks: map<Id, Task>, columns: map<Id, Column>, boardId: Id,
                            updates: seq<TaskOrderUpdate>)
    requires ApplyAll(tasks, columns, boardId, updates).Some?
    requires forall i :: 0 <= i < |updates| ==> ColumnOnBoard(columns, updates[i].columnId, boardId)
    ensures var m := ApplyAll(tasks, columns, boardId, updates).value;
      ApplyAll(m, columns, boardId, updates) == Some(m)
  {
    var m := ApplyAll(tasks, columns, boardId, updates).value;
    CommittedTable(tasks, columns, boardId, updates);
    assert StaysOnBoard(m, columns, boardId, updates) by {
      forall i | 0 <= i < |updates|
        ensures TaskOnBoard(m, columns, updates[i].id, boardId)
      {
        CommittedNamesKnownTasks(tasks, columns, boardId, updates, i);
        var last := LastFor(updates, updates[i].id);
        assert last.Some?;
      }
    }
    OnBoardBatchCommits(m, columns, boardId, updates);
    CommittedTable(m, columns, boardId, updates);
    var m2 := ApplyAll(m, columns, boardId, updates).value;
    assert forall id :: id in m ==> m2[id] == m[id];
    assert m2 == m;
  }

  /** Every entry's task is in the task table when the batch commits. */
  lemma CommittedNamesKnownTasks(tasks: map<Id, Task>, columns: map<Id, Column>, boardId: Id,
                               updates: seq<TaskOrderUpdate>, i: nat)
    requires ApplyAll(tasks, columns, boardId, updates).Some?
    requires i < |updates|
    ensures updates[i].id in tasks
  {
    if updates[i].id !in tasks {
      var k := FirstFor(updates, updates[i].id);
      ForeignTaskFails(tasks, columns, boardId, updates, k);
    }
  }

  /** The index of the first entry for `id`, given that there is one. */
  function FirstFor(updates: seq<TaskOrderUpdate>, id: Id): (k: nat)
    requires exists i :: 0 <= i < |updates| && updates[i].id == id
    ensures k < |updates| && updates[k].id == id
    ensures forall j :: 0 <= j < k ==> updates[j].id != id
  {
    if updates[0].id == id then 0
    else
      assert exists i :: 0 <= i < |updates[1..]| && updates[1..][i].id == id by {
        var i :| 0 <= i < |updates| && updates[i].id == id;
        assert updates[1..][i - 1] == updates[i];
      }
      1 + FirstFor(updates[1..], id)
  }

  /** When no two entries name the same task, each entry's values are exactly
      what the committed table holds for its task. */
  lemma DistinctBatchLandsExactly(tasks: map<Id, Task>, columns: map<Id, Column>, boardId: Id,
                                  updates: seq<TaskOrderUpdate>, i: nat)
    requires ApplyAll(tasks, columns, boardId, updates).Some?
    requires forall j, k :: 0 <= j < k < |updates| ==> updates[j].id != updates[k].id
    requires i < |updates|
    ensures var m := ApplyAll(tasks, columns, boardId, updates).value;
      updates[i].id in m &&
      m[updates[i].id].order == updates[i].order &&
      m[updates[i].id].columnId == updates[i].columnId
  {
    CommittedTable(tasks, columns, boardId, updates);
    CommittedNamesKnownTasks(tasks, columns, boardId, updates, i);
    var last := LastFor(updates, updates[i].id);
    assert last == Some(updates[i]);
  }

  /** The destination column is not checked against the board: a batch may move
      a task of board "b" into column "x" of board "b2", and re-sending that
      committed batch then fails, since the task is no longer on "b". */
  lemma CrossBoardMoveCommitsOnce()
    ensures var tasks := map["t" := Task("a", "T", 0, None, None)];
      var columns := map["a" := Column("b", "A", 0), "x" := Column("b2", "X", 0)];
      var batch := [TaskOrderUpdate("t", 0, "x")];
      ApplyAll(tasks, columns, "b", batch) == Some(map["t" := Task("x", "T", 0, None, None)]) &&
      ApplyAll(map["t" := Task("x", "T", 0, None, None)], columns, "b", batch) == None
  {
    var tasks := map["t" := Task("a", "T", 0, None, None)];
    var columns := map["a" := Column("b", "A", 0), "x" := Column("b2", "X", 0)];
    var batch := [TaskOrderUpdate("t", 0, "x")];
    assert Applicable(tasks, columns, "b", batch[0]);
    assert tasks["t" := Moved(tasks["t"], batch[0])] == map["t" := Task("x", "T", 0, None, None)];
    assert batch[1..] == [];
  }
}
