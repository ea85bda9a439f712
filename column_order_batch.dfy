/** The transaction of `updateColumnOrder`: one `column.update` per entry,
    each found only if the column lies on the board (`where: { id, boardId }`),
    writing nothing but `order`; committed all together or not at all. */
module ColumnOrderBatch {
  import opened Base

  /** One entry `{ id, order }` of the batch. */
  datatype ColumnOrderUpdate = ColumnOrderUpdate(id: Id, order: int)

  /** The column table the transaction commits, or None when some update throws. */
  function ApplyAll(columns: map<Id, Column>, boardId: Id, updates: seq<ColumnOrderUpdate>)
    : Option<map<Id, Column>>
    decreases |updates|
  {
    if updates == [] then Some(columns)
    else if ColumnOnBoard(columns, updates[0].id, boardId) then
      var u := updates[0];
      ApplyAll(columns[u.id := columns[u.id].(order := u.order)], boardId, updates[1..])
    else None
  }

  /** The last entry of the batch for column `id`: the one whose write survives. */
  function LastFor(updates: seq<ColumnOrderUpdate>, id: Id): (r: Option<ColumnOrderUpdate>)
    ensures r.Some? ==> r.value in updates && r.value.id == id
    ensures r.None? <==> forall i :: 0 <= i < |updates| ==> updates[i].id != id
  {
    if updates == [] then None
    else
      var later := LastFor(updates[1..], id);
      assert forall i :: 1 <= i < |updates| ==> updates[i] == updates[1..][i - 1];
      if later.Some? then later
      else if updates[0].id == id then Some(updates[0])
      else None
  }

  /** The row of column `c` once the whole batch is applied. */
  function Final(c: Column, last: Option<ColumnOrderUpdate>): Column
  {
    match last
    case None => c
    case Some(u) => c.(order := u.order)
  }

  /** The batch commits exactly when every entry names a column of the board:
      an update never moves a column, so no entry changes whether a later one applies. */
  lemma {:induction false} CommitsIffAllOnBoard(columns: map<Id, Column>, boardId: Id,
                                                updates: seq<ColumnOrderUpdate>)
    ensures ApplyAll(columns, boardId, updates).Some? <==>
      forall i :: 0 <= i < |updates| ==> ColumnOnBoard(columns, updates[i].id, boardId)
    decreases |updates|
  {
    if updates != [] {
      var u := updates[0];
      if ColumnOnBoard(columns, u.id, boardId) {
        var next := columns[u.id := columns[u.id].(order := u.order)];
        CommitsIffAllOnBoard(next, boardId, updates[1..]);
        assert forall c :: ColumnOnBoard(next, c, boardId) <==> ColumnOnBoard(columns, c, boardId);
        assert forall i :: 1 <= i < |updates| ==> updates[i] == updates[1..][i - 1];
      }
    }
  }

  /** A committed batch keeps the same columns; a listed column carries the order
      of its last entry and keeps its title and board; an unlisted one is unchanged. */
  lemma {:induction false} CommittedTable(columns: map<Id, Column>, boardId: Id,
                                          updates: seq<ColumnOrderUpdate>)
    requires ApplyAll(columns, boardId, updates).Some?
    ensures var m := ApplyAll(columns, boardId, updates).value;
      m.Keys == columns.Keys &&
      forall id :: id in columns ==> m[id] == Final(columns[id], LastFor(updates, id))
    decreases |updates|
  {
    if updates != [] {
      var u := updates[0];
      CommittedTable(columns[u.id := columns[u.id].(order := u.order)], boardId, updates[1..]);
    }
  }

  /** Re-applying a committed batch changes nothing. */
  lemma ReapplyIsIdempotent(columns: map<Id, Column>, boardId: Id, updates: seq<ColumnOrderUpdate>)
    requires ApplyAll(columns, boardId, updates).Some?
    ensures var m := ApplyAll(columns, boardId, updates).value;
      ApplyAll(m, boardId, updates) == Some(m)
  {
    var m := ApplyAll(columns, boardId, updates).value;
    CommitsIffAllOnBoard(columns, boardId, updates);
    CommittedTable(columns, boardId, updates);
    assert forall c :: c in m ==> m[c].boardId == columns[c].boardId;
    CommitsIffAllOnBoard(m, boardId, updates);
    CommittedTable(m, boardId, updates);
    var m2 := ApplyAll(m, boardId, updates).value;
    assert forall id :: id in m ==> m2[id] == m[id];
    assert m2 == m;
  }
}
