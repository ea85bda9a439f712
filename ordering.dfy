/** The ordering model: within a scope (a board's columns, a column's tasks),
    the integer `order` field sorts the siblings. New items are appended with
    the scope's largest `order` plus one, or 0 in an empty scope. */
module Ordering {
  import opened Base

  /** The `order` values of the tasks in column `columnId`. */
  function TaskOrders(tasks: map<Id, Task>, columnId: Id): set<int>
  {
    set t | t in tasks && tasks[t].columnId == columnId :: tasks[t].order
  }

  /** The `order` values of the columns on board `boardId`. */
  function ColumnOrders(columns: map<Id, Column>, boardId: Id): set<int>
  {
    set c | c in columns && columns[c].boardId == boardId :: columns[c].order
  }

  /** Every finite set of integers with an element `w` has a largest element. */
  lemma {:induction false} LargestExists(s: set<int>, w: int)
    requires w in s
    ensures exists m :: m in s && forall x :: x in s ==> x <= m
  {
    var rest := s - {w};
    if y :| y in rest {
      LargestExists(rest, y);
      var m :| m in rest && forall x :: x in rest ==> x <= m;
      var top := if w > m then w else m;
      assert forall x :: x in s ==> x in rest || x == w;
      assert top in s && forall x :: x in s ==> x <= top;
    } else {
      assert forall x :: x in s ==> x in rest || x == w;
      assert w in s && forall x :: x in s ==> x <= w;
    }
  }

  /** `lastRow ? lastRow.order + 1 : 0`, where `lastRow` is the sibling with the
      largest order (`findFirst({ orderBy: { order: "desc" } })`). */
  function NextOrder(orders: set<int>): (r: int)
    ensures forall x :: x in orders ==> x < r
    ensures orders == {} ==> r == 0
    ensures orders != {} ==> r - 1 in orders
  {
    if w :| w in orders then
      LargestExists(orders, w);
      var m :| m in orders && forall x :: x in orders ==> x <= m;
      m + 1
    else
      assert orders == {};
      0
  }
}
