/** Array surgery on values: `Array.prototype.splice` removing one element or
    inserting one (with JavaScript's clamping of a too-large index), the
    generic `reorder` helper of the drag-and-drop list, a task move between
    the task lists of several columns, and the absence of duplicates. */
module Splice {

  function Min(a: nat, b: nat): nat { if a <= b then a else b }

  /** `s.splice(i, 1)` on a copy: the element at `i` is removed; an index past
      the end removes nothing. */
  function SpliceRemove<T(==)>(s: seq<T>, i: nat): (r: seq<T>)
    ensures i < |s| ==> |r| == |s| - 1 && multiset(r) == multiset(s) - multiset{s[i]}
    ensures i >= |s| ==> r == s
    ensures forall k :: 0 <= k < |r| ==> r[k] == (if k < i then s[k] else s[k + 1])
  {
    if i < |s| then
      assert s == s[..i] + [s[i]] + s[i + 1..];
      s[..i] + s[i + 1..]
    else s
  }

  /** `s.splice(i, 0, x)` on a copy: `x` is inserted at `i`, or appended when
      `i` is past the end. */
  function SpliceInsert<T(==)>(s: seq<T>, i: nat, x: T): (r: seq<T>)
    ensures |r| == |s| + 1 && multiset(r) == multiset(s) + multiset{x}
    ensures r[Min(i, |s|)] == x
    ensures forall k :: 0 <= k < |r| && k != Min(i, |s|) ==>
      r[k] == (if k < Min(i, |s|) then s[k] else s[k - 1])
  {
    var j := Min(i, |s|);
    assert s == s[..j] + s[j..];
    s[..j] + [x] + s[j..]
  }

  /** `reorder(list, startIndex, endIndex)`: a copy of the list with the element
      at `startIndex` moved to `endIndex` (clamped to the last position). */
  function Reorder<T(==)>(list: seq<T>, startIndex: nat, endIndex: nat): (r: seq<T>)
    requires startIndex < |list|
    ensures |r| == |list| && multiset(r) == multiset(list)
    ensures r[Min(endIndex, |list| - 1)] == list[startIndex]
  {
    var rest := SpliceRemove(list, startIndex);
    assert Min(endIndex, |rest|) == Min(endIndex, |list| - 1);
    SpliceInsert(rest, endIndex, list[startIndex])
  }

  /** Taking the moved element out again at its new position gives the list
      without it: the other elements keep their relative order. */
  lemma ReorderRemove<T>(list: seq<T>, startIndex: nat, endIndex: nat)
    requires startIndex < |list|
    ensures SpliceRemove(Reorder(list, startIndex, endIndex), Min(endIndex, |list| - 1)) == SpliceRemove(list, startIndex)
  {
    var rest := SpliceRemove(list, startIndex);
    var r := Reorder(list, startIndex, endIndex);
    var j := Min(endIndex, |list| - 1);
    assert r == SpliceInsert(rest, endIndex, list[startIndex]);
    assert Min(endIndex, |rest|) == j;
    var back := SpliceRemove(r, j);
    assert |back| == |rest|;
    forall k | 0 <= k < |rest| ensures back[k] == rest[k] {
      if k < j { assert back[k] == r[k]; } else { assert back[k] == r[k + 1]; }
    }
  }

  /** No element occurs more than once. */
  predicate Once<T(==)>(m: multiset<T>)
  {
    forall x :: x in m ==> m[x] <= 1
  }

  /** No element occurs twice. */
  predicate NoDup<T(==)>(s: seq<T>)
  {
    Once(multiset(s))
  }

  /** In a list without duplicates, different positions hold different elements. */
  lemma NoDupDistinct<T>(s: seq<T>, i: nat, j: nat)
    requires NoDup(s) && i < j < |s|
    ensures s[i] != s[j]
  {
    assert s == s[..j] + s[j..];
    assert multiset(s) == multiset(s[..j]) + multiset(s[j..]);
    assert s[j] in multiset(s) && s[j] in multiset(s[j..]);
    assert multiset(s[..j])[s[j]] == 0;
    assert s[..j][i] == s[i];
  }

  /** The task move of the drag handler on the columns' task lists: the task is
      removed at index `s` of list `si` and `t` inserted at index `d` of list
      `di` (into the already shortened list when both are the same). */
  function MoveTasks<T(==)>(lists: seq<seq<T>>, si: nat, s: nat, di: nat, d: nat, t: T): (r: seq<seq<T>>)
    requires si < |lists| && di < |lists|
    ensures |r| == |lists|
    ensures forall k :: 0 <= k < |lists| && k != si && k != di ==> r[k] == lists[k]
  {
    if si == di then lists[si := SpliceInsert(SpliceRemove(lists[si], s), d, t)]
    else lists[si := SpliceRemove(lists[si], s)][di := SpliceInsert(lists[di], d, t)]
  }

  /** The total number of elements of all lists. */
  function Count<T>(lists: seq<seq<T>>): nat
  {
    if lists == [] then 0 else |lists[0]| + Count(lists[1..])
  }

  /** All elements of all lists, with their multiplicities. */
  function All<T(==)>(lists: seq<seq<T>>): multiset<T>
  {
    if lists == [] then multiset{} else multiset(lists[0]) + All(lists[1..])
  }

  lemma {:induction false} CountUpdate<T>(lists: seq<seq<T>>, k: nat, x: seq<T>)
    requires k < |lists|
    ensures Count(lists[k := x]) + |lists[k]| == Count(lists) + |x|
  {
    if k > 0 {
      assert lists[k := x][1..] == lists[1..][k - 1 := x];
      CountUpdate(lists[1..], k - 1, x);
    }
  }

  lemma {:induction false} AllUpdate<T>(lists: seq<seq<T>>, k: nat, x: seq<T>)
    requires k < |lists|
    ensures All(lists[k := x]) + multiset(lists[k]) == All(lists) + multiset(x)
  {
    if k > 0 {
      var y := lists[k := x];
      assert y[1..] == lists[1..][k - 1 := x];
      assert All(y) == multiset(lists[0]) + All(y[1..]);
      assert All(lists) == multiset(lists[0]) + All(lists[1..]);
      assert lists[1..][k - 1] == lists[k];
      AllUpdate(lists[1..], k - 1, x);
      calc {
        All(y) + multiset(lists[k]);
        multiset(lists[0]) + (All(y[1..]) + multiset(lists[1..][k - 1]));
        multiset(lists[0]) + (All(lists[1..]) + multiset(x));
        All(lists) + multiset(x);
      }
    }
  }

  /** A move that removes an existing element keeps the total count. */
  lemma MoveKeepsCount<T>(lists: seq<seq<T>>, si: nat, s: nat, di: nat, d: nat, t: T)
    requires si < |lists| && di < |lists| && s < |lists[si]|
    ensures Count(MoveTasks(lists, si, s, di, d, t)) == Count(lists)
  {
    if si == di {
      CountUpdate(lists, si, SpliceInsert(SpliceRemove(lists[si], s), d, t));
    } else {
      var removed := lists[si := SpliceRemove(lists[si], s)];
      CountUpdate(lists, si, SpliceRemove(lists[si], s));
      CountUpdate(removed, di, SpliceInsert(lists[di], d, t));
    }
  }

  /** A move of the element that sits at index `s` keeps every element, with its
      multiplicity: nothing is lost or duplicated. */
  lemma MoveKeepsElements<T>(lists: seq<seq<T>>, si: nat, s: nat, di: nat, d: nat, t: T)
    requires si < |lists| && di < |lists| && s < |lists[si]| && lists[si][s] == t
    ensures All(MoveTasks(lists, si, s, di, d, t)) == All(lists)
  {
    var rem := SpliceRemove(lists[si], s);
    RemovedPlusOne(lists[si], s);
    if si == di {
      var ins := SpliceInsert(rem, d, t);
      assert multiset(ins) == multiset(lists[si]);
      ReplaceSame(lists, si, ins);
    } else {
      ReplaceBoth(lists, si, rem, di, SpliceInsert(lists[di], d, t), t);
    }
  }

  lemma ReplaceSame<T>(lists: seq<seq<T>>, i: nat, a: seq<T>)
    requires i < |lists| && multiset(a) == multiset(lists[i])
    ensures All(lists[i := a]) == All(lists)
  {
    AllUpdate(lists, i, a);
    forall z ensures All(lists[i := a])[z] == All(lists)[z] {
      assert (All(lists[i := a]) + multiset(lists[i]))[z] == (All(lists) + multiset(a))[z];
    }
    MultisetExt(All(lists[i := a]), All(lists));
  }

  /** Replacing list `i` by one element fewer and list `j` by one element more
      keeps all elements. */
  lemma ReplaceBoth<T>(lists: seq<seq<T>>, i: nat, a: seq<T>, j: nat, b: seq<T>, t: T)
    requires i < |lists| && j < |lists| && i != j
    requires multiset(lists[i]) == multiset(a) + multiset{t}
    requires multiset(b) == multiset(lists[j]) + multiset{t}
    ensures All(lists[i := a][j := b]) == All(lists)
  {
    var removed := lists[i := a];
    AllUpdate(lists, i, a);
    assert removed[j] == lists[j];
    AllUpdate(removed, j, b);
    forall z ensures All(removed[j := b])[z] == All(lists)[z] {
      assert (All(removed) + multiset(lists[i]))[z] == (All(lists) + multiset(a))[z];
      assert (All(removed[j := b]) + multiset(lists[j]))[z] == (All(removed) + multiset(b))[z];
      assert multiset(lists[i])[z] == multiset(a)[z] + multiset{t}[z];
      assert multiset(b)[z] == multiset(lists[j])[z] + multiset{t}[z];
    }
    MultisetExt(All(removed[j := b]), All(lists));
  }

  /** When no element occurs twice in all lists together, none occurs twice in one list. */
  lemma AllOnceEach<T>(lists: seq<seq<T>>, k: nat)
    requires k < |lists| && Once(All(lists))
    ensures NoDup(lists[k])
  {
    AllUpdate(lists, k, []);
    forall x | x in multiset(lists[k]) ensures multiset(lists[k])[x] <= 1 {
      assert (All(lists[k := []]) + multiset(lists[k]))[x] == All(lists)[x];
    }
  }

  /** ... and no element is in two different lists. */
  lemma AllOnceApart<T>(lists: seq<seq<T>>, i: nat, j: nat)
    requires i < |lists| && j < |lists| && i != j && Once(All(lists))
    ensures multiset(lists[i]) !! multiset(lists[j])
  {
    var emptied := lists[i := []];
    AllUpdate(lists, i, []);
    assert emptied[j] == lists[j];
    AllUpdate(emptied, j, []);
    forall x | x in multiset(lists[i]) ensures x !in multiset(lists[j]) {
      assert (All(emptied) + multiset(lists[i]))[x] == All(lists)[x];
      assert (All(emptied[j := []]) + multiset(lists[j]))[x] == All(emptied)[x];
    }
  }

  /** The elements of concatenated lists are those of both parts. */
  lemma {:induction false} AllAppend<T>(a: seq<seq<T>>, b: seq<seq<T>>)
    ensures All(a + b) == All(a) + All(b)
  {
    if a == [] {
      assert a + b == b;
    } else {
      assert (a + b)[0] == a[0] && (a + b)[1..] == a[1..] + b;
      AllAppend(a[1..], b);
    }
  }

  lemma MultisetExt<T>(a: multiset<T>, b: multiset<T>)
    requires forall z :: a[z] == b[z]
    ensures a == b
  {
  }

  lemma RemovedPlusOne<T>(s: seq<T>, i: nat)
    requires i < |s|
    ensures multiset(s) == multiset(SpliceRemove(s, i)) + multiset{s[i]}
  {
  }

  /** After the move, the element sits at the drop index of its new list
      (clamped to the end), and the source list no longer has it at `s`. */
  lemma MovedElementLands<T>(lists: seq<seq<T>>, si: nat, s: nat, di: nat, d: nat, t: T)
    requires si < |lists| && di < |lists| && s < |lists[si]|
    ensures var r := MoveTasks(lists, si, s, di, d, t);
      var shortened := if si == di then SpliceRemove(lists[si], s) else lists[di];
      r[di][Min(d, |shortened|)] == t &&
      (si != di ==> r[si] == SpliceRemove(lists[si], s))
  {
  }
}
