/** The drag-and-drop column list: `onDragEnd` reorders the columns or moves a
    task, optimistically updates the client state, sends the new orders to the
    server, and falls back to the `initialColumns` prop when the server reports
    errors or the call throws. The copy `[...orderedColumns]` is shallow, so the
    column and task objects are shared with `initialColumns`: the fallback
    re-installs the original array of the very objects the move has mutated. */
module DragDrop {
  import opened Base
  import opened BoardView
  import opened Splice
  import Store
  import ColumnOrderBatch
  import TaskOrderBatch

  /** Where a drag started or ended: a droppable (the column list, or a column's
      task list) and an index in it. */
  datatype Location = Location(droppableId: Id, index: nat)

  /** What the drag-and-drop library reports when a drag ends. */
  datatype DropResult = DropResult(destination: Option<Location>, source: Location, kind: string, draggableId: Id)

  /** The server call the handler made. */
  datatype Request =
    | ColumnRequest(boardId: Id, columnUpdates: seq<ColumnOrderBatch.ColumnOrderUpdate>)
    | TaskRequest(boardId: Id, taskUpdates: seq<TaskOrderBatch.TaskOrderUpdate>)

  /** A drop outside any droppable, or back onto its start. */
  predicate Ignored(r: DropResult)
  {
    r.destination.None? ||
    (r.destination.value.droppableId == r.source.droppableId && r.destination.value.index == r.source.index)
  }

  /** `items.map((col, index) => ({ id: col.id, order: index }))`. */
  function IndexUpdates(ids: seq<Id>): seq<ColumnOrderBatch.ColumnOrderUpdate>
  {
    seq(|ids|, i requires 0 <= i < |ids| => ColumnOrderBatch.ColumnOrderUpdate(ids[i], i))
  }

  /** `tasks.map(task => ({ id: task.id, order: task.order, columnId }))`. */
  function OrderUpdates(tasks: seq<TaskCard>, columnId: Id): seq<TaskOrderBatch.TaskOrderUpdate>
    reads tasks
  {
    seq(|tasks|, i reads tasks requires 0 <= i < |tasks| =>
      TaskOrderBatch.TaskOrderUpdate(tasks[i].id, tasks[i].order, columnId))
  }

  /** The updates that place each task of the list at its position in column `columnId`. */
  function Tagged(tasks: seq<TaskCard>, columnId: Id): seq<TaskOrderBatch.TaskOrderUpdate>
  {
    seq(|tasks|, i requires 0 <= i < |tasks| => TaskOrderBatch.TaskOrderUpdate(tasks[i].id, i, columnId))
  }

  /** The task batch of a move: the source column's tasks when the task left its
      column, then the destination column's tasks, each at its position. */
  function TaskBatch(src: seq<TaskCard>, srcId: Id, dst: seq<TaskCard>, dstId: Id): seq<TaskOrderBatch.TaskOrderUpdate>
  {
    (if srcId != dstId then Tagged(src, srcId) else []) + Tagged(dst, dstId)
  }

  /** Once every task of a list carries its index as `order`, the updates the
      handler reads off the objects are those that place each task at its index. */
  lemma RenumberedUpdates(tasks: seq<TaskCard>, columnId: Id)
    requires Numbered(tasks)
    ensures OrderUpdates(tasks, columnId) == Tagged(tasks, columnId)
  {
  }

  /** The column batch of a reorder commits exactly when every listed column
      lies on the board; it then numbers the listed columns 0..n-1 in list order,
      keeping their titles and board, and leaves every other column as it was. */
  lemma ColumnReorderDense(columns: map<Id, Column>, boardId: Id, ids: seq<Id>)
    requires forall j, k :: 0 <= j < k < |ids| ==> ids[j] != ids[k]
    ensures ColumnOrderBatch.ApplyAll(columns, boardId, IndexUpdates(ids)).Some? <==>
      forall i :: 0 <= i < |ids| ==> ColumnOnBoard(columns, ids[i], boardId)
    ensures var r := ColumnOrderBatch.ApplyAll(columns, boardId, IndexUpdates(ids));
      r.Some? ==>
        r.value.Keys == columns.Keys &&
        (forall i :: 0 <= i < |ids| ==> r.value[ids[i]] == columns[ids[i]].(order := i)) &&
        (forall id :: id in columns && id !in ids ==> r.value[id] == columns[id])
  {
    var updates := IndexUpdates(ids);
    assert forall i :: 0 <= i < |ids| ==> updates[i].id == ids[i];
    ColumnOrderBatch.CommitsIffAllOnBoard(columns, boardId, updates);
    var r := ColumnOrderBatch.ApplyAll(columns, boardId, updates);
    if r.Some? {
      ColumnOrderBatch.CommittedTable(columns, boardId, updates);
      forall i | 0 <= i < |ids| ensures ids[i] in columns && r.value[ids[i]] == columns[ids[i]].(order := i) {
        assert ColumnOnBoard(columns, updates[i].id, boardId);
        var last := ColumnOrderBatch.LastFor(updates, ids[i]);
        assert last == Some(updates[i]);
      }
      forall id | id in columns && id !in ids ensures r.value[id] == columns[id] {
        assert forall i :: 0 <= i < |updates| ==> updates[i].id != id;
      }
    }
  }

  /** A committed task batch with distinct ids puts every task of the
      destination list at its index in the destination column and, after a move
      between columns, every task of the source list at its index in the source
      column; no task is added or dropped. */
  lemma TaskBatchLands(tasks: map<Id, Task>, columns: map<Id, Column>, boardId: Id,
                       src: seq<TaskCard>, srcId: Id, dst: seq<TaskCard>, dstId: Id)
    requires TaskOrderBatch.ApplyAll(tasks, columns, boardId, TaskBatch(src, srcId, dst, dstId)).Some?
    requires var b := TaskBatch(src, srcId, dst, dstId);
      forall j, k :: 0 <= j < k < |b| ==> b[j].id != b[k].id
    ensures var m := TaskOrderBatch.ApplyAll(tasks, columns, boardId, TaskBatch(src, srcId, dst, dstId)).value;
      m.Keys == tasks.Keys &&
      (forall k :: 0 <= k < |dst| ==>
        dst[k].id in m && m[dst[k].id].order == k && m[dst[k].id].columnId == dstId) &&
      (srcId != dstId ==> forall k :: 0 <= k < |src| ==>
        src[k].id in m && m[src[k].id].order == k && m[src[k].id].columnId == srcId)
  {
    var b := TaskBatch(src, srcId, dst, dstId);
    var offset := if srcId != dstId then |src| else 0;
    TaskOrderBatch.CommittedTable(tasks, columns, boardId, b);
    assert b[offset..] == Tagged(dst, dstId);
    SliceLands(tasks, columns, boardId, b, offset, dst, dstId);
    if srcId != dstId {
      assert b[..|src|] == Tagged(src, srcId);
      SliceLands(tasks, columns, boardId, b, 0, src, srcId);
    }
  }

  /** The tasks a committed, duplicate-free batch places at consecutive
      positions of a column take those positions there. */
  lemma SliceLands(tasks: map<Id, Task>, columns: map<Id, Column>, boardId: Id,
                   b: seq<TaskOrderBatch.TaskOrderUpdate>, offset: nat, list: seq<TaskCard>, columnId: Id)
    requires TaskOrderBatch.ApplyAll(tasks, columns, boardId, b).Some?
    requires forall j, k :: 0 <= j < k < |b| ==> b[j].id != b[k].id
    requires offset + |list| <= |b| && b[offset..offset + |list|] == Tagged(list, columnId)
    ensures var m := TaskOrderBatch.ApplyAll(tasks, columns, boardId, b).value;
      forall k :: 0 <= k < |list| ==>
        list[k].id in m && m[list[k].id].order == k && m[list[k].id].columnId == columnId
  {
    var m := TaskOrderBatch.ApplyAll(tasks, columns, boardId, b).value;
    forall k | 0 <= k < |list|
      ensures list[k].id in m && m[list[k].id].order == k && m[list[k].id].columnId == columnId
    {
      assert b[offset + k] == b[offset..offset + |list|][k];
      TaskOrderBatch.DistinctBatchLandsExactly(tasks, columns, boardId, b, offset + k);
    }
  }

  /** A spliced-out list holds only elements of the original. */
  lemma RemovedFrom<T>(s: seq<T>, i: nat)
    ensures forall x :: x in SpliceRemove(s, i) ==> x in s
  {
  }

  /** A spliced-into list holds only elements of the original and the new one. */
  lemma InsertedInto<T>(s: seq<T>, i: nat, t: T)
    ensures forall x :: x in SpliceInsert(s, i, t) ==> x in s || x == t
  {
  }

  /** Every task of the list carries its index as `order`. */
  ghost predicate Numbered(tasks: seq<TaskCard>)
    reads tasks
  {
    forall k :: 0 <= k < |tasks| ==> tasks[k].order == k
  }

  /** Sets `order` of every task of the list to its index (`forEach((task, idx) => { task.order = idx; })`). */
  method Renumber(tasks: seq<TaskCard>)
    requires NoDup(tasks)
    modifies set t | t in tasks
    ensures Numbered(tasks)
  {
    var i := 0;
    while i < |tasks|
      invariant 0 <= i <= |tasks|
      invariant forall k :: 0 <= k < i ==> tasks[k].order == k
    {
      forall k | 0 <= k < i ensures tasks[k] != tasks[i] {
        NoDupDistinct(tasks, k, i);
      }
      tasks[i].order := i;
      i := i + 1;
    }
  }

  lemma LayoutAppend(a: seq<ColumnCard>, b: seq<ColumnCard>)
    ensures Layout(a + b) == Layout(a) + Layout(b)
  {
  }

  /** Taking column `j` out of an array takes exactly its tasks out of the layout. */
  lemma LayoutSplit(b: seq<ColumnCard>, j: nat)
    requires j < |b|
    ensures All(Layout(b)) == All(Layout(b[..j] + b[j + 1..])) + multiset(b[j].tasks)
  {
    var x := b[j];
    assert b == b[..j] + [x] + b[j + 1..];
    LayoutAppend(b[..j] + [x], b[j + 1..]);
    LayoutAppend(b[..j], [x]);
    LayoutAppend(b[..j], b[j + 1..]);
    AllAppend(Layout(b[..j]) + Layout([x]), Layout(b[j + 1..]));
    AllAppend(Layout(b[..j]), Layout([x]));
    AllAppend(Layout(b[..j]), Layout(b[j + 1..]));
    assert All(Layout([x])) == multiset(x.tasks) by {
      assert Layout([x]) == [x.tasks];
      assert Layout([x])[1..] == [];
    }
  }

  /** Two arrays of the same column objects hold the same tasks. */
  lemma {:induction false} LayoutPermutation(a: seq<ColumnCard>, b: seq<ColumnCard>)
    requires multiset(a) == multiset(b)
    ensures All(Layout(a)) == All(Layout(b))
    decreases |a|
  {
    if a == [] {
      assert b == [] by { assert |b| == |multiset(b)|; }
    } else {
      var x := a[0];
      assert x in multiset(b);
      var j :| 0 <= j < |b| && b[j] == x;
      var rest := b[..j] + b[j + 1..];
      assert multiset(a[1..]) == multiset(rest) by {
        assert b == b[..j] + [x] + b[j + 1..];
        assert a == [x] + a[1..];
        assert multiset(a) == multiset{x} + multiset(a[1..]);
        assert multiset(b) == multiset(b[..j]) + multiset{x} + multiset(b[j + 1..]);
        assert multiset(rest) == multiset(b[..j]) + multiset(b[j + 1..]);
        forall z ensures multiset(a[1..])[z] == multiset(rest)[z] {
          assert multiset(a)[z] == multiset(b)[z];
        }
        MultisetExt(multiset(a[1..]), multiset(rest));
      }
      LayoutPermutation(a[1..], rest);
      LayoutSplit(a, 0);
      assert a[..0] + a[1..] == a[1..];
      LayoutSplit(b, j);
    }
  }

  /** The `ColumnList` component: its `initialColumns` prop and `orderedColumns` state. */
  class ColumnList {
    const initialColumns: seq<ColumnCard>
    const boardId: Id
    var orderedColumns: seq<ColumnCard>

    ghost function Cards(): set<ColumnCard>
      reads this
    {
      set c | c in orderedColumns
    }

    ghost function TaskCards(): set<TaskCard>
      reads this, Cards()
    {
      set c, t | c in orderedColumns && t in c.tasks :: t
    }

    ghost function InitialCards(): set<ColumnCard>
    {
      set c | c in initialColumns
    }

    /** Both arrays hold the same column objects, each once, and no task object
        is in two places (stated on `initialColumns`, which holds the same
        columns). */
    ghost predicate Valid()
      reads this, InitialCards()
    {
      ColumnsValid() && TasksValid()
    }

    /** No task object is in two places. */
    ghost predicate TasksValid()
      reads InitialCards()
    {
      Once(All(Layout(initialColumns)))
    }

    /** Both arrays hold the same column objects, each once. */
    ghost predicate ColumnsValid()
      reads this
    {
      NoDup(orderedColumns) && multiset(initialColumns) == multiset(orderedColumns)
    }

    /** The task objects of the columns in display order, with their multiplicities,
        are those of `initialColumns`. */
    lemma SameTasks()
      requires ColumnsValid()
      ensures All(Layout(orderedColumns)) == All(Layout(initialColumns))
    {
      LayoutPermutation(orderedColumns, initialColumns);
    }

    constructor (initialColumns: seq<ColumnCard>, boardId: Id)
      requires NoDup(initialColumns) && Once(All(Layout(initialColumns)))
      ensures Valid()
      ensures this.initialColumns == initialColumns && this.boardId == boardId
      ensures orderedColumns == initialColumns
    {
      this.initialColumns, this.boardId := initialColumns, boardId;
      orderedColumns := initialColumns;
    }

    /** The task drag the library reports names, at `source.index` of the source
        column (when that column holds the task), the task whose id is `draggableId`. */
    predicate DragConsistent(r: DropResult)
      reads this, Cards()
    {
      var si := ColumnIndex(orderedColumns, r.source.droppableId);
      si < |orderedColumns| && FindTask(orderedColumns[si].tasks, r.draggableId) != null ==>
        r.source.index < |orderedColumns[si].tasks| &&
        orderedColumns[si].tasks[r.source.index] == FindTask(orderedColumns[si].tasks, r.draggableId)
    }

    /** The source and destination columns and the dragged task are all found. */
    predicate Found(r: DropResult)
      requires r.destination.Some?
      reads this, Cards()
    {
      var si := ColumnIndex(orderedColumns, r.source.droppableId);
      var di := ColumnIndex(orderedColumns, r.destination.value.droppableId);
      si < |orderedColumns| && di < |orderedColumns| && FindTask(orderedColumns[si].tasks, r.draggableId) != null
    }

    /** What a drop may write besides the list and the store: nothing, unless
        it is a task drop whose columns and task are found; then the two
        columns and their tasks. */
    ghost function DropFrame(r: DropResult): set<object>
      reads this, Cards()
    {
      if Ignored(r) || r.kind != "TASK" then {}
      else
        var si := ColumnIndex(orderedColumns, r.source.droppableId);
        var di := ColumnIndex(orderedColumns, r.destination.value.droppableId);
        if si < |orderedColumns| && di < |orderedColumns| && FindTask(orderedColumns[si].tasks, r.draggableId) != null then
          var moved: set<TaskCard> := set x | x in orderedColumns[si].tasks + orderedColumns[di].tasks;
          var pair: set<object> := {orderedColumns[si], orderedColumns[di]};
          var writes: set<object> := moved;
          pair + writes
        else {}
    }

    /** `onDragEnd`. The server call either throws (`fails`) or returns the
        store's reply. */
    method OnDragEnd(r: DropResult, store: Store.Store, userId: Option<string>, fails: bool)
      returns (sent: Option<Request>, reply: Option<ActionState>)
      requires Valid() && store.Valid()
      requires r.kind == "COLUMN" && !Ignored(r) ==> r.source.index < |orderedColumns|
      requires r.kind == "TASK" ==> DragConsistent(r)
      modifies this, store, DropFrame(r)
      ensures Valid() && store.Valid()
      // No drop, no known kind, or nothing found: nothing changes and nothing is sent.
      ensures sent == None ==> (reply == None && orderedColumns == old(orderedColumns) &&
        Layout(orderedColumns) == old(Layout(orderedColumns)) &&
        store.columns == old(store.columns) && store.tasks == old(store.tasks))
      ensures Ignored(r) || r.kind !in {"COLUMN", "TASK"} ==> sent == None
      ensures r.kind == "TASK" && !Ignored(r) && !old(Found(r)) ==> sent == None
      // A call that throws or reports errors falls back to the initial columns.
      ensures sent.Some? ==> (reply.None? <==> fails)
      ensures sent.Some? && (fails || reply.value.errors.Some?) ==> orderedColumns == initialColumns
      ensures reply.None? || reply.value.errors.Some? ==>
        store.columns == old(store.columns) && store.tasks == old(store.tasks)
      ensures store.boards == old(store.boards) && store.subtasks == old(store.subtasks)
      // A column drop: the reordered columns, each sent with its new index.
      ensures r.kind == "COLUMN" && !Ignored(r) ==>
        var items := Reorder(old(orderedColumns), r.source.index, r.destination.value.index);
        sent == Some(ColumnRequest(boardId, IndexUpdates(Ids(items)))) &&
        (reply.Some? && reply.value.errors.None? ==> orderedColumns == items) &&
        store.tasks == old(store.tasks) &&
        Layout(old(orderedColumns)) == old(Layout(orderedColumns)) &&
        (reply.Some? && reply.value.errors.None? ==>
          Some(store.columns) == ColumnOrderBatch.ApplyAll(old(store.columns), boardId, IndexUpdates(Ids(items))))
      // A task drop: the splices, the renumbering and the batch.
      ensures r.kind == "TASK" && !Ignored(r) && old(Found(r)) ==>
        var cols := old(orderedColumns);
        var si := ColumnIndex(cols, r.source.droppableId);
        var di := ColumnIndex(cols, r.destination.value.droppableId);
        var t := FindTask(old(cols[si].tasks), r.draggableId);
        (reply.Some? && reply.value.errors.None? ==> orderedColumns == cols) &&
        Layout(cols) == MoveTasks(old(Layout(cols)), si, r.source.index, di, r.destination.value.index, t) &&
        Numbered(cols[si].tasks) && Numbered(cols[di].tasks) &&
        sent == Some(TaskRequest(boardId, TaskBatch(cols[si].tasks, cols[si].id, cols[di].tasks, cols[di].id))) &&
        store.columns == old(store.columns) &&
        (reply.Some? && reply.value.errors.None? ==>
          Some(store.tasks) == TaskOrderBatch.ApplyAll(old(store.tasks), old(store.columns), boardId, sent.value.taskUpdates))
    {
      sent, reply := None, None;
      if r.destination.None? {
        return;
      }
      var dest := r.destination.value;
      if dest.droppableId == r.source.droppableId && dest.index == r.source.index {
        return;
      }
      if r.kind == "COLUMN" {
        sent, reply := DropColumn(r.source.index, dest.index, store, userId, fails);
        return;
      }
      if r.kind != "TASK" {
        return;
      }
      var si := ColumnIndex(orderedColumns, r.source.droppableId);
      var di := ColumnIndex(orderedColumns, dest.droppableId);
      if si == |orderedColumns| || di == |orderedColumns| {
        return;
      }
      var t := FindTask(orderedColumns[si].tasks, r.draggableId);
      if t == null {
        return;
      }
      assert si == di <==> r.source.droppableId == dest.droppableId;
      sent, reply := DropTask(si, r.source.index, di, dest.index, t, store, userId, fails);
    }

    /** `setOrderedColumns(initialColumns)`: the fallback to the prop. */
    method Revert()
      requires Valid()
      modifies this
      ensures Valid() && orderedColumns == initialColumns
    {
      orderedColumns := initialColumns;
    }

    /** The column branch's server call and its fallback: the call throws
        (`fails`) or the store replies, and on a throw or a reply with errors
        the state falls back to `initialColumns`. No column object changes. */
    method CommitColumnOrder(updates: seq<ColumnOrderBatch.ColumnOrderUpdate>, store: Store.Store,
                             userId: Option<string>, fails: bool, ghost cols: seq<ColumnCard>)
      returns (reply: Option<ActionState>)
      requires Valid() && store.Valid()
      modifies this, store
      ensures Valid() && store.Valid()
      ensures Layout(cols) == old(Layout(cols))
      ensures reply.None? <==> fails
      ensures orderedColumns == (if reply.None? || reply.value.errors.Some? then initialColumns else old(orderedColumns))
      ensures reply.None? || reply.value.errors.Some? ==> store.columns == old(store.columns)
      ensures reply.Some? && reply.value.errors.None? ==>
        Some(store.columns) == ColumnOrderBatch.ApplyAll(old(store.columns), boardId, updates)
      ensures store.boards == old(store.boards) && store.tasks == old(store.tasks) && store.subtasks == old(store.subtasks)
    {
      reply := None;
      if !fails {
        var state := store.UpdateColumnOrder(boardId, updates, userId);
        reply := Some(state);
      }
      if reply.None? || reply.value.errors.Some? {
        Revert();
      }
    }

    /** The task branch's server call and its fallback, as for the columns. */
    method CommitTaskOrder(updates: seq<TaskOrderBatch.TaskOrderUpdate>, store: Store.Store,
                           userId: Option<string>, fails: bool, ghost cols: seq<ColumnCard>)
      returns (reply: Option<ActionState>)
      requires Valid() && store.Valid()
      modifies this, store
      ensures Valid() && store.Valid()
      ensures Layout(cols) == old(Layout(cols))
      ensures reply.None? <==> fails
      ensures orderedColumns == (if reply.None? || reply.value.errors.Some? then initialColumns else old(orderedColumns))
      ensures reply.None? || reply.value.errors.Some? ==> store.tasks == old(store.tasks)
      ensures reply.Some? && reply.value.errors.None? ==>
        Some(store.tasks) == TaskOrderBatch.ApplyAll(old(store.tasks), old(store.columns), boardId, updates)
      ensures store.boards == old(store.boards) && store.columns == old(store.columns) && store.subtasks == old(store.subtasks)
    {
      reply := None;
      if !fails {
        var state := store.UpdateTaskOrder(boardId, updates, userId);
        reply := Some(state);
      }
      if reply.None? || reply.value.errors.Some? {
        Revert();
      }
    }

    /** The column branch of `onDragEnd`. */
    method DropColumn(s: nat, d: nat, store: Store.Store, userId: Option<string>, fails: bool)
      returns (sent: Option<Request>, reply: Option<ActionState>)
      requires Valid() && store.Valid() && s < |orderedColumns|
      modifies this, store
      ensures Valid() && store.Valid()
      ensures var items := Reorder(old(orderedColumns), s, d);
        sent == Some(ColumnRequest(boardId, IndexUpdates(Ids(items)))) &&
        orderedColumns == (if reply.None? || reply.value.errors.Some? then initialColumns else items) &&
        (reply.Some? && reply.value.errors.None? ==>
          Some(store.columns) == ColumnOrderBatch.ApplyAll(old(store.columns), boardId, IndexUpdates(Ids(items))))
      ensures reply.None? <==> fails
      ensures reply.None? || reply.value.errors.Some? ==> store.columns == old(store.columns)
      ensures store.boards == old(store.boards) && store.tasks == old(store.tasks) && store.subtasks == old(store.subtasks)
      ensures Layout(old(orderedColumns)) == old(Layout(orderedColumns))
    {
      ghost var cols := orderedColumns;
      var items := Reorder(orderedColumns, s, d);
      orderedColumns := items;
      var updates := IndexUpdates(Ids(items));
      sent := Some(ColumnRequest(boardId, updates));
      assert Layout(cols) == old(Layout(orderedColumns));
      reply := CommitColumnOrder(updates, store, userId, fails, cols);
    }

    /** The task branch of `onDragEnd`, once both columns and the task are found. */
    method DropTask(si: nat, s: nat, di: nat, d: nat, t: TaskCard, store: Store.Store, userId: Option<string>, fails: bool)
      returns (sent: Option<Request>, reply: Option<ActionState>)
      requires Valid() && store.Valid() && si < |orderedColumns| && di < |orderedColumns|
      requires s < |orderedColumns[si].tasks| && orderedColumns[si].tasks[s] == t
      requires orderedColumns[si].id == orderedColumns[di].id ==> si == di
      modifies this, store, orderedColumns[si], orderedColumns[di],
        set x | x in orderedColumns[si].tasks || x in orderedColumns[di].tasks
      ensures Valid() && store.Valid()
      ensures var cols := old(orderedColumns);
        orderedColumns == (if reply.None? || reply.value.errors.Some? then initialColumns else cols) &&
        Layout(cols) == MoveTasks(old(Layout(cols)), si, s, di, d, t) &&
        Numbered(cols[si].tasks) && Numbered(cols[di].tasks) &&
        sent == Some(TaskRequest(boardId, TaskBatch(cols[si].tasks, cols[si].id, cols[di].tasks, cols[di].id))) &&
        (reply.Some? && reply.value.errors.None? ==>
          Some(store.tasks) == TaskOrderBatch.ApplyAll(old(store.tasks), old(store.columns), boardId, sent.value.taskUpdates))
      ensures reply.None? <==> fails
      ensures reply.None? || reply.value.errors.Some? ==> store.tasks == old(store.tasks)
      ensures store.boards == old(store.boards) && store.columns == old(store.columns) && store.subtasks == old(store.subtasks)
    {
      var cols := orderedColumns;
      var src, dst := orderedColumns[si], orderedColumns[di];
      MoveTask(si, s, di, d, t);
      RenumberedUpdates(src.tasks, src.id);
      RenumberedUpdates(dst.tasks, dst.id);
      assert si != di <==> src.id != dst.id;
      var updates := (if si != di then OrderUpdates(src.tasks, src.id) else []) + OrderUpdates(dst.tasks, dst.id);
      sent := Some(TaskRequest(boardId, updates));
      ghost var srcTasks, dstTasks := src.tasks, dst.tasks;
      reply := CommitTaskOrder(updates, store, userId, fails, cols);
      assert src.tasks == srcTasks && dst.tasks == dstTasks;
    }

    /** Steps 1 and 2 of the task move: the task leaves list `si` at index `s`
        and enters list `di` at index `d`. */
    method SpliceTask(si: nat, s: nat, di: nat, d: nat, t: TaskCard)
      requires Valid() && si < |orderedColumns| && di < |orderedColumns|
      requires s < |orderedColumns[si].tasks| && orderedColumns[si].tasks[s] == t
      modifies orderedColumns[si], orderedColumns[di]
      ensures Valid()
      ensures Layout(orderedColumns) == MoveTasks(old(Layout(orderedColumns)), si, s, di, d, t)
      ensures NoDup(orderedColumns[si].tasks) && NoDup(orderedColumns[di].tasks)
      ensures si != di ==> multiset(orderedColumns[si].tasks) !! multiset(orderedColumns[di].tasks)
      ensures forall x :: x in orderedColumns[si].tasks || x in orderedColumns[di].tasks ==>
        x in old(orderedColumns[si].tasks) || x in old(orderedColumns[di].tasks)
    {
      ghost var before := Layout(orderedColumns);
      SameTasks();
      var src, dst := orderedColumns[si], orderedColumns[di];
      assert si != di ==> src != dst by {
        if si < di { NoDupDistinct(orderedColumns, si, di); }
        if di < si { NoDupDistinct(orderedColumns, di, si); }
      }
      forall k | 0 <= k < |orderedColumns| && k != si && k != di
        ensures orderedColumns[k] != src && orderedColumns[k] != dst
      {
        if k < si { NoDupDistinct(orderedColumns, k, si); }
        if si < k { NoDupDistinct(orderedColumns, si, k); }
        if k < di { NoDupDistinct(orderedColumns, k, di); }
        if di < k { NoDupDistinct(orderedColumns, di, k); }
      }
      ghost var oldSrc, oldDst := src.tasks, dst.tasks;
      var rem := SpliceRemove(src.tasks, s);
      var ins := SpliceInsert(if si == di then rem else dst.tasks, d, t);
      RemovedFrom(oldSrc, s);
      InsertedInto(if si == di then rem else oldDst, d, t);
      src.tasks := rem;
      dst.tasks := ins;
      assert orderedColumns[si].tasks == (if si == di then ins else rem) && orderedColumns[di].tasks == ins;
      ghost var after := Layout(orderedColumns);
      ghost var expected := MoveTasks(before, si, s, di, d, t);
      assert expected == if si == di then before[si := ins] else before[si := rem][di := ins];
      forall k | 0 <= k < |after| ensures after[k] == expected[k] {
        if k != si && k != di {
          assert after[k] == orderedColumns[k].tasks;
        }
      }
      assert after == expected;
      MoveKeepsElements(before, si, s, di, d, t);
      SameTasks();
      AllOnceEach(after, si);
      AllOnceEach(after, di);
      if si != di {
        AllOnceApart(after, si, di);
      }
    }

    /** Step 3 of the task move: the source column's tasks are renumbered, and
        so are the destination column's when the task changed columns. It
        writes only task objects, which no invariant of the list depends on. */
    method RenumberColumns(src: ColumnCard, dst: ColumnCard)
      requires Valid() && NoDup(src.tasks) && NoDup(dst.tasks)
      requires src != dst ==> multiset(src.tasks) !! multiset(dst.tasks)
      modifies set x | x in src.tasks || x in dst.tasks
      ensures Valid() && Numbered(src.tasks) && Numbered(dst.tasks)
    {
      Renumber(src.tasks);
      if src != dst {
        assert forall x :: x in dst.tasks ==> x !in src.tasks by {
          assert forall x :: x in dst.tasks ==> x in multiset(dst.tasks);
        }
        Renumber(dst.tasks);
      }
    }

    /** Steps 1 to 3 of the task move: the two splices, then the renumbering. */
    method MoveTask(si: nat, s: nat, di: nat, d: nat, t: TaskCard)
      requires Valid() && si < |orderedColumns| && di < |orderedColumns|
      requires s < |orderedColumns[si].tasks| && orderedColumns[si].tasks[s] == t
      modifies orderedColumns[si], orderedColumns[di],
        set x | x in orderedColumns[si].tasks || x in orderedColumns[di].tasks
      ensures Valid()
      ensures Layout(orderedColumns) == MoveTasks(old(Layout(orderedColumns)), si, s, di, d, t)
      ensures Numbered(orderedColumns[si].tasks) && Numbered(orderedColumns[di].tasks)
    {
      SpliceTask(si, s, di, d, t);
      ghost var lay := Layout(orderedColumns);
      assert si != di ==> orderedColumns[si] != orderedColumns[di] by {
        if si < di { NoDupDistinct(orderedColumns, si, di); }
        if di < si { NoDupDistinct(orderedColumns, di, si); }
      }
      RenumberColumns(orderedColumns[si], orderedColumns[di]);
      assert Layout(orderedColumns) == lay;
    }
  }

  /** A drop writes the `order` of no task and the `tasks` of no column outside
      its frame: an ignored drop, a column drop or one of another kind writes
      neither, and a task move writes only its two columns and their tasks. */
  method DropKeepsOthers(list: ColumnList, r: DropResult, store: Store.Store, userId: Option<string>, fails: bool,
                         t: TaskCard, c: ColumnCard)
    requires list.Valid() && store.Valid()
    requires r.kind == "COLUMN" && !Ignored(r) ==> r.source.index < |list.orderedColumns|
    requires r.kind == "TASK" ==> list.DragConsistent(r)
    requires t !in list.DropFrame(r) && c !in list.DropFrame(r)
    modifies list, store, list.DropFrame(r)
    ensures t.order == old(t.order) && c.tasks == old(c.tasks)
  {
    var sent, reply := list.OnDragEnd(r, store, userId, fails);
  }
}
