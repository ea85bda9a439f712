/** The task dialog: its edit state (`currentTitle`, `currentDescription`,
    `currentDueDate`), the update submission that trims the form to the fields
    that changed, the delete submission and the subtask counts. The title and
    description inputs are uncontrolled (`defaultValue`, no change handler),
    so only the reset effect writes the matching state variables; they always
    equal the task's own fields. */
module TaskDialog {
  import opened Base
  import opened BoardView
  import opened Validation
  import Forms
  import TaskEdit
  import Store

  /** The dueDate entry for the chosen date: `toISOString()` of a date (the
      conversion is a parameter), or "null" once the date was cleared. */
  function DueDateEntry(current: DateObj?, iso: Date -> string): (s: string)
    ensures current == null ==> s == "null"
    ensures current != null ==> s == iso(current.time)
  {
    if current != null then iso(current.time) else "null"
  }

  /** The sent due date reads back on the server as the chosen one, provided
      the date conversions are inverse on it (an ISO string is never empty and
      never "null"). */
  lemma DueDateRoundTrip(current: DateObj?, iso: Date -> string, parse: string -> Option<Date>)
    requires current != null ==>
      parse(iso(current.time)) == Some(current.time) && iso(current.time) != "" && iso(current.time) != "null"
    ensures TaskEdit.ParseDueDate(Some(DueDateEntry(current, iso)), parse) ==
      TaskEdit.DueDate(if current == null then None else Some(current.time))
  {
  }

  /** An entry other than the hidden `taskId` and `boardId` inputs. */
  predicate IsChange(e: Forms.Entry)
  {
    e.name != "taskId" && e.name != "boardId"
  }

  /** The `hasChanges` scan of `formData.forEach`. */
  method HasChanges(entries: Forms.Entries) returns (hasChanges: bool)
    ensures hasChanges <==> exists i :: 0 <= i < |entries| && IsChange(entries[i])
  {
    hasChanges := false;
    var i := 0;
    while i < |entries|
      invariant 0 <= i <= |entries|
      invariant hasChanges <==> exists j :: 0 <= j < i && IsChange(entries[j])
    {
      if IsChange(entries[i]) {
        hasChanges := true;
      }
      i := i + 1;
    }
  }

  /** `subtasks.filter(st => st.done)`. */
  function DoneSubtasks(subtasks: seq<SubtaskView>): (r: seq<SubtaskView>)
    ensures forall i :: 0 <= i < |r| ==> r[i].done
    ensures |r| <= |subtasks|
    ensures |r| == |subtasks| <==> forall i :: 0 <= i < |subtasks| ==> subtasks[i].done
    ensures |r| == 0 <==> forall i :: 0 <= i < |subtasks| ==> !subtasks[i].done
  {
    if subtasks == [] then []
    else
      var rest := DoneSubtasks(subtasks[1..]);
      assert forall i :: 1 <= i < |subtasks| ==> subtasks[i] == subtasks[1..][i - 1];
      if subtasks[0].done then [subtasks[0]] + rest else rest
  }

  /** The filter keeps every done subtask as often as the list holds it, and
      nothing else. */
  lemma {:induction false} DoneSubtasksContents(subtasks: seq<SubtaskView>)
    ensures forall x: SubtaskView {:trigger multiset(DoneSubtasks(subtasks))[x]} ::
      multiset(DoneSubtasks(subtasks))[x] == if x.done then multiset(subtasks)[x] else 0
  {
    if subtasks != [] {
      var head, tail := subtasks[0], subtasks[1..];
      DoneSubtasksContents(tail);
      assert subtasks == [head] + tail;
      assert multiset(subtasks) == multiset{head} + multiset(tail);
      if head.done {
        assert DoneSubtasks(subtasks) == [head] + DoneSubtasks(tail);
        assert multiset(DoneSubtasks(subtasks)) == multiset{head} + multiset(DoneSubtasks(tail));
      } else {
        assert DoneSubtasks(subtasks) == DoneSubtasks(tail);
      }
    }
  }

  /** The positions of the done subtasks. */
  ghost function DoneIndices(subtasks: seq<SubtaskView>): set<nat>
  {
    set i: nat | i < |subtasks| && subtasks[i].done
  }

  /** Filtering a list with one more subtask at its end. */
  lemma {:induction false} DoneSubtasksSnoc(s: seq<SubtaskView>, x: SubtaskView)
    ensures DoneSubtasks(s + [x]) == DoneSubtasks(s) + (if x.done then [x] else [])
  {
    if s == [] {
      assert ([] + [x])[1..] == [];
    } else {
      var h, t := s[0], s[1..];
      assert (s + [x])[0] == h && (s + [x])[1..] == t + [x];
      DoneSubtasksSnoc(t, x);
      if h.done {
        assert DoneSubtasks(s + [x]) == [h] + DoneSubtasks(t + [x]);
        assert DoneSubtasks(s) == [h] + DoneSubtasks(t);
      } else {
        assert DoneSubtasks(s + [x]) == DoneSubtasks(t + [x]);
        assert DoneSubtasks(s) == DoneSubtasks(t);
      }
    }
  }

  /** One more subtask at the end adds its position when it is done. */
  lemma DoneIndicesSnoc(s: seq<SubtaskView>, x: SubtaskView)
    ensures DoneIndices(s + [x]) == DoneIndices(s) + (if x.done then {|s|} else {})
    ensures |s| !in DoneIndices(s)
  {
    forall i: nat | i < |s| ensures (s + [x])[i] == s[i] {
    }
  }

  /** The filter keeps one subtask per done position. */
  lemma {:induction false} DoneCount(s: seq<SubtaskView>)
    ensures |DoneSubtasks(s)| == |DoneIndices(s)|
    decreases |s|
  {
    if s == [] {
      assert DoneIndices(s) == {};
    } else {
      var n := |s| - 1;
      var init, x := s[..n], s[n];
      assert s == init + [x];
      DoneSubtasksSnoc(init, x);
      DoneIndicesSnoc(init, x);
      DoneCount(init);
    }
  }

  /** The completed and total subtask counts shown above the progress bar. */
  function SubtaskCounts(subtasks: seq<SubtaskView>): (counts: (nat, nat))
    ensures counts.0 == |DoneIndices(subtasks)| && counts.1 == |subtasks|
    ensures counts.0 <= counts.1
    ensures counts.0 == counts.1 <==> forall i :: 0 <= i < |subtasks| ==> subtasks[i].done
    ensures counts.0 == 0 <==> forall i :: 0 <= i < |subtasks| ==> !subtasks[i].done
  {
    DoneCount(subtasks);
    (|DoneSubtasks(subtasks)|, |subtasks|)
  }

  /** The `TaskModal` component's edit state for the `task` prop. */
  class TaskModal {
    var task: TaskCard
    const boardId: Id
    var currentTitle: string
    var currentDescription: Option<string>
    var currentDueDate: DateObj?

    /** The uncontrolled inputs never write the title and description state. */
    ghost predicate Valid()
      reads this
    {
      currentTitle == task.title && currentDescription == task.description
    }

    /** The `useState` initial values. */
    constructor (task: TaskCard, boardId: Id)
      ensures Valid() && this.task == task && this.boardId == boardId
      ensures currentDueDate == task.dueDate
    {
      this.task, this.boardId := task, boardId;
      currentTitle, currentDescription, currentDueDate := task.title, task.description, task.dueDate;
    }

    /** A new `task` prop, followed by the reset effect. */
    method ShowTask(t: TaskCard)
      modifies this
      ensures Valid() && task == t && currentDueDate == t.dueDate
    {
      task := t;
      currentTitle, currentDescription, currentDueDate := t.title, t.description, t.dueDate;
    }

    /** The date picker: a picked day (a new `Date` object) or the clear button (`null`). */
    method SetDueDate(d: DateObj?)
      requires Valid()
      modifies this
      ensures Valid() && currentDueDate == d && task == old(task)
    {
      currentDueDate := d;
    }

    /** `handleUpdateSubmit` up to the decision to submit: the dueDate entry is
        set when the chosen date object is not the task's own, and removed
        otherwise; the title and description entries are removed when the
        state equals the task's fields. It submits exactly when an entry other
        than the hidden ids remains. */
    method HandleUpdateSubmit(formData: Forms.FormData, iso: Date -> string) returns (submitted: bool)
      requires Valid()
      modifies formData
      ensures var dated := if currentDueDate != task.dueDate
          then Forms.WithSet(old(formData.entries), "dueDate", DueDateEntry(currentDueDate, iso))
          else Forms.Deleted(old(formData.entries), "dueDate");
        formData.entries == Forms.Deleted(Forms.Deleted(dated, "title"), "description")
      ensures submitted <==> exists i :: 0 <= i < |formData.entries| && IsChange(formData.entries[i])
      ensures Forms.Get(formData.entries, "title") == None && Forms.Get(formData.entries, "description") == None
      ensures Forms.Get(formData.entries, "dueDate") ==
        if currentDueDate != task.dueDate then Some(DueDateEntry(currentDueDate, iso)) else None
      ensures forall n :: n != "title" && n != "description" && n != "dueDate" ==>
        Forms.Get(formData.entries, n) == Forms.Get(old(formData.entries), n)
      ensures currentDueDate != task.dueDate ==> submitted
    {
      ghost var before := formData.entries;
      if currentDueDate != task.dueDate {
        formData.Set("dueDate", DueDateEntry(currentDueDate, iso));
        Forms.GetAfterSet(before, "dueDate", DueDateEntry(currentDueDate, iso));
      } else {
        formData.Delete("dueDate");
      }
      ghost var dated := formData.entries;
      if currentTitle == task.title {
        formData.Delete("title");
      }
      ghost var untitled := formData.entries;
      if currentDescription == task.description {
        formData.Delete("description");
      }
      Forms.GetAfterDelete(dated, "title", "dueDate");
      Forms.GetAfterDelete(untitled, "description", "dueDate");
      Forms.GetAfterDelete(untitled, "description", "title");
      Forms.GetAfterDelete(dated, "title", "title");
      Forms.GetAfterDelete(untitled, "description", "description");
      Forms.GetAfterDelete(before, "dueDate", "dueDate");
      forall n | n != "title" && n != "description" && n != "dueDate"
        ensures Forms.Get(formData.entries, n) == Forms.Get(before, n)
      {
        Forms.GetAfterDelete(untitled, "description", n);
        Forms.GetAfterDelete(dated, "title", n);
        if currentDueDate != task.dueDate {
          Forms.GetAfterSetOther(before, "dueDate", DueDateEntry(currentDueDate, iso), n);
        } else {
          Forms.GetAfterDelete(before, "dueDate", n);
        }
      }
      submitted := HasChanges(formData.entries);
      if currentDueDate != task.dueDate {
        var i :| 0 <= i < |formData.entries| && formData.entries[i] == Forms.Entry("dueDate", DueDateEntry(currentDueDate, iso));
        assert IsChange(formData.entries[i]);
      }
    }

    /** `handleUpdateSubmit` followed, when it submits, by `updateTask` on the
        store. The trimmed form never holds a title, so the server always
        rejects it and a dialog edit changes nothing. */
    method SubmitUpdate(formData: Forms.FormData, iso: Date -> string, store: Store.Store,
                        userId: Option<string>, parse: string -> Option<Date>)
      returns (reply: Option<ActionState>)
      requires Valid() && store.Valid()
      modifies formData, store
      ensures store.Valid()
      ensures reply.Some? ==> reply.value.Failed()
      ensures currentDueDate != task.dueDate ==> reply.Some?
      ensures store.boards == old(store.boards) && store.columns == old(store.columns)
      ensures store.tasks == old(store.tasks) && store.subtasks == old(store.subtasks)
    {
      var submitted := HandleUpdateSubmit(formData, iso);
      reply := None;
      if submitted {
        TaskEdit.MissingTitleIsRejected(formData.entries, parse);
        var state := store.UpdateTask(formData.entries, userId, parse);
        reply := Some(state);
      }
    }

    /** `handleSubtaskToggle`: `toggleSubtask` with this dialog's task and board.
        It sets the subtask's `done` exactly when the subtask belongs to this task
        on a board of the user, and otherwise fails and writes nothing. */
    method HandleSubtaskToggle(subtaskId: Id, done: bool, store: Store.Store, userId: Option<string>)
      returns (reply: ActionState)
      requires store.Valid()
      modifies store
      ensures store.Valid()
      ensures store.boards == old(store.boards) && store.columns == old(store.columns) && store.tasks == old(store.tasks)
      ensures var owned := userId.Some? && Store.SubtaskOwned(old(store.boards), old(store.columns), old(store.tasks),
                                                              old(store.subtasks), subtaskId, task.id, boardId, userId.value);
        (reply.Failed() <==> !owned) &&
        store.subtasks == if owned then old(store.subtasks)[subtaskId := old(store.subtasks)[subtaskId].(done := done)]
                          else old(store.subtasks)
    {
      reply := store.ToggleSubtask(subtaskId, task.id, boardId, done, userId);
    }

    /** `handleSubtaskDelete`: `deleteSubtask` with this dialog's task and board.
        It removes the subtask exactly when the subtask belongs to this task on a
        board of the user, and otherwise fails and writes nothing. */
    method HandleSubtaskDelete(subtaskId: Id, store: Store.Store, userId: Option<string>)
      returns (reply: ActionState)
      requires store.Valid()
      modifies store
      ensures store.Valid()
      ensures store.boards == old(store.boards) && store.columns == old(store.columns) && store.tasks == old(store.tasks)
      ensures var owned := userId.Some? && Store.SubtaskOwned(old(store.boards), old(store.columns), old(store.tasks),
                                                              old(store.subtasks), subtaskId, task.id, boardId, userId.value);
        (reply.Failed() <==> !owned) &&
        store.subtasks == if owned then old(store.subtasks) - {subtaskId} else old(store.subtasks)
    {
      reply := store.DeleteSubtask(subtaskId, task.id, boardId, userId);
    }

    /** `handleDeleteSubmit`: a new form with the task's id and the board's id. */
    method HandleDeleteSubmit() returns (payload: Forms.Entries)
      ensures payload == [Forms.Entry("taskId", task.id), Forms.Entry("boardId", boardId)]
    {
      var formData := new Forms.FormData();
      formData.Set("taskId", task.id);
      formData.Set("boardId", boardId);
      assert formData.entries[0].name == "taskId";
      payload := formData.entries;
    }
  }

  /** The delete payload passes `deleteTask`'s schema exactly when both ids are
      UUIDs, and then yields them in order. */
  lemma DeletePayloadParses(taskId: Id, boardId: Id)
    ensures var parsed := SafeParse([Forms.Entry("taskId", taskId), Forms.Entry("boardId", boardId)], Store.DeleteTaskSchema);
      (parsed.Success? <==> IsUuid(taskId) && IsUuid(boardId)) &&
      (parsed.Success? ==> parsed.data == [taskId, boardId])
  {
    var payload := [Forms.Entry("taskId", taskId), Forms.Entry("boardId", boardId)];
    assert Forms.Get(payload, "taskId") == Some(taskId);
    assert Forms.Get(payload, "boardId") == Some(boardId) by {
      assert payload[1..] == [Forms.Entry("boardId", boardId)];
    }
    assert Store.DeleteTaskSchema[0].name == "taskId" && Store.DeleteTaskSchema[1].name == "boardId";
    var parsed := SafeParse(payload, Store.DeleteTaskSchema);
    if parsed.Success? {
      assert parsed.data == [parsed.data[0], parsed.data[1]];
    }
  }
}
