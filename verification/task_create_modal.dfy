/** The new-task dialog: its defaults, the assignee select, and the POST body it submits. */
module TaskCreateModal {
  import opened Wrappers
  import opened Schema
  import opened TaskForm

  /** A number-valued form field: never set, `NaN` from `parseInt`, or a number. It never
      holds a string, so the `=== "unassigned"` test of `onSubmit` is never true. */
  datatype NumberField = Undefined | NaN | Num(n: int)

  /** The options of the assignee select. */
  datatype AssigneeOption = Unassigned | UserOption(id: int)

  /** `onValueChange={(value) => field.onChange(parseInt(value))}` */
  function OnAssigneeChange(o: AssigneeOption): (f: NumberField)
    ensures f.NaN? <==> o.Unassigned?
    ensures o.UserOption? ==> f == Num(o.id)
  {
    match o
    case Unassigned => NaN
    case UserOption(id) => Num(id)
  }

  /** `data.assigneeId === "unassigned" ? null : data.assigneeId ? Number(data.assigneeId) : null` */
  function SubmitAssignee(f: NumberField): (r: Option<int>)
    ensures r.Some? <==> f.Num? && f.n != 0
    ensures r.Some? ==> r.value == f.n
  {
    if f.Num? && f.n != 0 then Some(f.n) else None
  }

  /** Were it submitted, the "Unassigned" option would end as `null` through the falsy
      `NaN`, as an untouched select does; a chosen user's id is submitted as is. (The
      resolver refuses the `NaN` first: see `Create`.) */
  lemma AssigneeChoice(o: AssigneeOption)
    ensures SubmitAssignee(OnAssigneeChange(o)) == if o.UserOption? && o.id != 0 then Some(o.id) else None
    ensures SubmitAssignee(Undefined).None?
  {
  }

  datatype CreateForm = CreateForm(title: string, description: string, projectId: Option<int>,
                                   status: TaskStatus, priority: TaskPriority,
                                   assigneeId: NumberField, creatorId: int,
                                   dueDate: Option<string>, tags: Option<string>)

  /** `defaultValues`: status `todo`, priority `medium`, creator 1, and the project
      given to the dialog unless it is absent or 0. */
  function Defaults(defaultProjectId: Option<int>): (f: CreateForm)
    ensures f.status == Todo && f.priority == Medium && f.creatorId == 1
    ensures f.projectId.Some? <==> Truthy(defaultProjectId)
    ensures f.projectId.Some? ==> f.projectId == defaultProjectId
    ensures f.assigneeId == Undefined && f.dueDate.None? && ParseTags(f.tags) == []
    ensures f.title == "" && f.description == ""
  {
    CreateForm("", "", if Truthy(defaultProjectId) then defaultProjectId else None,
               Todo, Medium, Undefined, 1, None, Some(""))
  }

  /** `onSubmit`: `{ ...data, dueDate, assigneeId }` after the resolver has read `tags`. */
  function Submit(f: CreateForm, parseDate: string -> int): (b: TaskBody)
    ensures b.title == Value(f.title) && b.description == Value(f.description)
    ensures b.status == Value(StatusName(f.status)) && b.priority == Value(PriorityName(f.priority))
    ensures b.creatorId == Value(f.creatorId) && b.progress.Absent?
    ensures b.projectId.Value? <==> f.projectId.Some?
    ensures b.assigneeId.Null? <==> SubmitAssignee(f.assigneeId).None?
    ensures b.dueDate.Absent? <==> f.dueDate.None? || f.dueDate.value == ""
    ensures b.tags == Value(ParseTags(f.tags))
  {
    var assignee := SubmitAssignee(f.assigneeId);
    var dueDate := SubmitDueDate(f.dueDate, parseDate);
    TaskBody(Value(f.title), Value(f.description),
             if f.projectId.Some? then Value(f.projectId.value) else Absent,
             Value(StatusName(f.status)), Value(PriorityName(f.priority)),
             if assignee.Some? then Value(assignee.value) else Null,
             Value(f.creatorId),
             DateFieldOf(dueDate),
             Value(ParseTags(f.tags)), Absent)
  }

  /** `form.handleSubmit(onSubmit)`: the resolver checks the form against the insert
      schema and `onSubmit` runs only when it passes; `None` is a form it refuses, and
      then nothing is sent. It refuses a form without a project (a required number),
      an assignee of `NaN` (`z.number()` refuses it, so choosing "Unassigned" blocks the
      dialog), and any due-date text. */
  function Create(f: CreateForm, parseDate: string -> int): (r: Option<TaskBody>)
    ensures r.Some? <==> f.projectId.Some? && !f.assigneeId.NaN? && DueDateResolves(f.dueDate)
    ensures r.Some? ==> r.value == Submit(f, parseDate) && r.value.dueDate.Absent?
  {
    if f.projectId.Some? && !f.assigneeId.NaN? && DueDateResolves(f.dueDate) then
      Some(Submit(f, parseDate))
    else None
  }

  /** A form the resolver lets through reaches the server over JSON and passes its
      validation, which reads back exactly what the form held, with no due date and an
      assignee that is a chosen user or `null`. A body with a due date would be refused
      by the server too, and so would one without a project. */
  lemma SubmitAccepted(f: CreateForm, parseDate: string -> int, iso: int -> string)
    ensures Create(f, parseDate).Some? ==>
      ParseInsertTask(Wire(Create(f, parseDate).value, iso))
        == Some(InsertTask(f.title, Some(f.description), f.projectId.value, f.status, f.priority,
                           SubmitAssignee(f.assigneeId), f.creatorId, None,
                           Some(ParseTags(f.tags)), None))
    ensures Submit(f, parseDate).dueDate.Value? ==> ParseInsertTask(Wire(Submit(f, parseDate), iso)).None?
    ensures f.projectId.None? ==> ParseInsertTask(Wire(Submit(f, parseDate), iso)).None?
  {
    DueDateRefusedOverJson(Submit(f, parseDate), iso);
  }
}
