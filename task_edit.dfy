/** The value computations of `updateTask`: the due-date string conversion,
    the `UpdateTaskSchema` check of the form, and `createUpdateData`. Date
    parsing (`new Date(s)`, NaN for an unparseable string) is a parameter. */
module TaskEdit {
  import opened Base
  import opened Validation
  import Forms

  /** The due date after the string conversion: a date, `null`, or the
      "Invalid date format." failure. (`undefined` cannot come out of it.) */
  datatype DueDateParse = InvalidDate | DueDate(value: Option<Date>)

  /** Converts the form's `dueDate` value: `"null"`, `""` or an absent entry
      become `null`; another string is parsed, and an unparseable one fails. */
  function ParseDueDate(raw: Option<string>, parse: string -> Option<Date>): (r: DueDateParse)
    ensures raw == None || raw == Some("null") || raw == Some("") ==> r == DueDate(None)
    ensures raw.Some? && raw.value != "null" && raw.value != "" ==>
      (r == InvalidDate <==> parse(raw.value) == None) &&
      (parse(raw.value).Some? ==> r == DueDate(Some(parse(raw.value).value)))
    ensures r != DueDate(None) ==> raw.Some? && raw.value != "null" && raw.value != ""
  {
    match raw
    case None => DueDate(None)
    case Some(s) =>
      if s == "null" || s == "" then DueDate(None)
      else
        match parse(s)
        case None => InvalidDate
        case Some(d) => DueDate(Some(d))
  }

  /** A field of the validated data: `undefined` (not given) or a value. */
  datatype Field<T> = Undefined | Given(value: T)

  /** The fields of `UpdateTaskSchema` after a successful parse: title is a
      string, description a string or null, due date a date or null. */
  datatype Validated = Validated(taskId: Id, boardId: Id, title: Field<string>,
                                 description: Field<Option<string>>, dueDate: Field<Option<Date>>)

  /** The `data` object `createUpdateData` builds: only the fields given. */
  datatype UpdateData = UpdateData(title: Field<string>, description: Field<Option<string>>,
                                   dueDate: Field<Option<Date>>)

  /** `Object.keys(data)`. */
  function Keys(d: UpdateData): set<string>
  {
    (if d.title.Given? then {"title"} else {}) +
    (if d.description.Given? then {"description"} else {}) +
    (if d.dueDate.Given? then {"dueDate"} else {})
  }

  /** `createUpdateData`: copies every field whose validated value is not `undefined`. */
  function CreateUpdateData(v: Validated): (d: UpdateData)
    ensures "title" in Keys(d) <==> v.title.Given?
    ensures "description" in Keys(d) <==> v.description.Given?
    ensures "dueDate" in Keys(d) <==> v.dueDate.Given?
    ensures d.title == v.title && d.description == v.description && d.dueDate == v.dueDate
  {
    var d0 := UpdateData(Undefined, Undefined, Undefined);
    var d1 := if v.title.Given? then d0.(title := v.title) else d0;
    var d2 := if v.description.Given? then d1.(description := v.description) else d1;
    if v.dueDate.Given? then d2.(dueDate := v.dueDate) else d2
  }

  /** `task.update({ data })`: the fields in `data` replace the row's, the rest stay. */
  function ApplyUpdate(t: Task, d: UpdateData): (r: Task)
    ensures r.columnId == t.columnId && r.order == t.order
    ensures r.title == (if d.title.Given? then d.title.value else t.title)
    ensures r.description == (if d.description.Given? then d.description.value else t.description)
    ensures r.dueDate == (if d.dueDate.Given? then d.dueDate.value else t.dueDate)
  {
    var t1 := if d.title.Given? then t.(title := d.title.value) else t;
    var t2 := if d.description.Given? then t1.(description := d.description.value) else t1;
    if d.dueDate.Given? then t2.(dueDate := d.dueDate.value) else t2
  }

  /** What reading and validating the form yields: a failure result, or the
      validated fields. */
  datatype FormOutcome = Rejected(state: ActionState) | Accepted(data: Validated)

  const InvalidDateResult :=
    ActionState(Some(map["dueDate" := ["Invalid date format."]]), Some("Validation failed."))

  /** The string fields of `UpdateTaskSchema`. The title is always in the parsed
      object, as `null` when the form has no title entry, because `formData.get`
      returns `null`, never `undefined`; the `description` field accepts any
      string or `null` and so never fails. */
  const UpdateTaskSchema := [Uuid("taskId", "Invalid Task ID."), Uuid("boardId", "Invalid Board ID."),
                             MinLength("title", 1, "Title cannot be empty.")]

  /** Step 2 of `updateTask`: the due-date conversion, then `safeParse`. */
  function ReadUpdateForm(form: Forms.Entries, parse: string -> Option<Date>): FormOutcome
  {
    match ParseDueDate(Forms.Get(form, "dueDate"), parse)
    case InvalidDate => Rejected(InvalidDateResult)
    case DueDate(due) =>
      match SafeParse(form, UpdateTaskSchema)
      case Failure(errors) =>
        Rejected(ActionState(Some(errors), Some("Validation failed. Could not update task.")))
      case Success(data) =>
        Accepted(Validated(data[0], data[1], Given(data[2]), Given(Forms.Get(form, "description")), Given(due)))
  }

  /** A form without a `title` entry is always rejected, whatever else it holds:
      either for its due date or with the title error. */
  lemma MissingTitleIsRejected(form: Forms.Entries, parse: string -> Option<Date>)
    requires Forms.Get(form, "title") == None
    ensures ReadUpdateForm(form, parse).Rejected?
    ensures ParseDueDate(Forms.Get(form, "dueDate"), parse) != InvalidDate ==>
      var e := ReadUpdateForm(form, parse).state.errors;
      e.Some? && "title" in e.value && e.value["title"] == [ExpectedString]
  {
    MissingFieldReported(form, UpdateTaskSchema, 2);
  }

  /** An accepted form always yields a non-empty update: every field it can
      carry is present, so "No changes detected." is never the outcome. An
      absent description or due date is sent to the database as `null`. */
  lemma AcceptedUpdateIsNeverEmpty(form: Forms.Entries, parse: string -> Option<Date>)
    requires ReadUpdateForm(form, parse).Accepted?
    ensures var d := CreateUpdateData(ReadUpdateForm(form, parse).data);
      Keys(d) == {"title", "description", "dueDate"} &&
      Forms.Get(form, "title") == Some(d.title.value) && d.title.value != "" &&
      d.description == Given(Forms.Get(form, "description")) &&
      (Forms.Get(form, "dueDate") == None ==> d.dueDate == Given(None))
  {
    assert UpdateTaskSchema[2].name == "title";
  }

  /** An accepted form names its task and board by UUIDs. */
  lemma AcceptedIdsAreUuids(form: Forms.Entries, parse: string -> Option<Date>)
    requires ReadUpdateForm(form, parse).Accepted?
    ensures IsUuid(ReadUpdateForm(form, parse).data.taskId)
    ensures IsUuid(ReadUpdateForm(form, parse).data.boardId)
  {
    assert UpdateTaskSchema[0].name == "taskId" && UpdateTaskSchema[1].name == "boardId";
  }
}
