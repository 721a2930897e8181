/** The task edit dialog: the form filled from a loaded task, the PATCH body it submits,
    and the comment box. */
module TaskDetailModal {
  import opened Wrappers
  import opened Schema
  import opened TaskForm

  /** The edit form's values; `dueDate` and `tags` hold the text of their inputs. */
  datatype DetailForm = DetailForm(id: int, title: string, description: string,
                                   projectId: Option<int>, status: TaskStatus,
                                   priority: TaskPriority, assigneeId: Option<int>,
                                   creatorId: int, dueDate: Option<string>,
                                   tags: Option<string>, progress: int)

  /** `form.reset(...)` once the task has loaded; writing a date as text is a parameter. */
  function Reset(task: Task, formatDate: int -> string): (f: DetailForm)
    ensures f.id == task.id && f.title == task.title && f.projectId == Some(task.projectId)
    ensures f.status == task.status && f.priority == task.priority && f.creatorId == task.creatorId
    ensures task.description.None? ==> f.description == ""
    ensures task.description.Some? ==> f.description == task.description.value
    ensures f.assigneeId.Some? <==> Truthy(task.assigneeId)
    ensures f.assigneeId.Some? ==> f.assigneeId == task.assigneeId
    ensures f.dueDate.Some? <==> task.dueDate.Some?
    ensures f.tags == Some(ShowTags(Some(task.tags)))
    ensures Truthy(task.progress) ==> f.progress == task.progress.value
    ensures !Truthy(task.progress) ==> f.progress == 0
  {
    DetailForm(task.id, task.title, task.description.GetOr(""), Some(task.projectId),
               task.status, task.priority,
               if Truthy(task.assigneeId) then task.assigneeId else None,
               task.creatorId,
               if task.dueDate.Some? then Some(formatDate(task.dueDate.value)) else None,
               Some(ShowTags(Some(task.tags))),
               if Truthy(task.progress) then task.progress.value else 0)
  }

  /** An optional form value in a JSON body: `undefined` leaves the key out. */
  function KeyOf<T>(v: Option<T>): Field<T> {
    if v.None? then Absent else Value(v.value)
  }

  /** `onSubmit`: the form after the resolver has read its `tags`, with the due date
      converted to a `Date`. Handed over in the same process, the body would pass the
      PATCH validation; over JSON it passes exactly when it carries no due date. */
  function Submit(f: DetailForm, parseDate: string -> int): (b: TaskBody)
    ensures b.tags == Value(ParseTags(f.tags))
    ensures b.dueDate.Absent? <==> f.dueDate.None? || f.dueDate.value == ""
    ensures b.assigneeId.Absent? <==> f.assigneeId.None?
    ensures ParseTaskPatch(b).Some?
  {
    TaskBody(Value(f.title), Value(f.description), KeyOf(f.projectId),
             Value(StatusName(f.status)), Value(PriorityName(f.priority)),
             KeyOf(f.assigneeId), Value(f.creatorId),
             DateFieldOf(SubmitDueDate(f.dueDate, parseDate)),
             Value(ParseTags(f.tags)), Value(f.progress))
  }

  /** What the server makes of a submitted body: a PATCH with a due date is answered 400. */
  lemma SubmitOverJson(f: DetailForm, parseDate: string -> int, iso: int -> string)
    ensures ParseTaskPatch(Wire(Submit(f, parseDate), iso)).Some? <==> SubmitDueDate(f.dueDate, parseDate).None?
  {
    DueDateRefusedOverJson(Submit(f, parseDate), iso);
  }

  /** `form.handleSubmit(onSubmit)`: the resolver checks the form against the insert
      schema and `onSubmit` runs only when it passes; `None` is a form it refuses, and
      then nothing is sent. It needs a project id and refuses any due-date text. */
  function Save(f: DetailForm, parseDate: string -> int): (r: Option<TaskBody>)
    ensures r.Some? <==> f.projectId.Some? && DueDateResolves(f.dueDate)
    ensures r.Some? ==> r.value == Submit(f, parseDate) && r.value.dueDate.Absent?
  {
    if f.projectId.Some? && DueDateResolves(f.dueDate) then Some(Submit(f, parseDate)) else None
  }

  /** The task after saving the form unedited. */
  function Normalised(task: Task): Task {
    task.(description := Some(task.description.GetOr("")),
          tags := ParseTags(Some(ShowTags(Some(task.tags)))),
          progress := Some(if Truthy(task.progress) then task.progress.value else 0))
  }

  /** A task with a due date cannot be saved from the dialog: `reset` writes the date
      as text, which the resolver refuses. Any other task, saved unedited, reaches the
      server and changes only by normalising: a missing description becomes `""`, a
      missing progress `0`, and the tags are read back from their text; assignee and
      everything else stay. */
  lemma SaveUnedited(task: Task, formatDate: int -> string, parseDate: string -> int, iso: int -> string)
    ensures Save(Reset(task, formatDate), parseDate).Some? <==> task.dueDate.None?
    ensures task.dueDate.None? ==>
      && ParseTaskPatch(Wire(Save(Reset(task, formatDate), parseDate).value, iso)).Some?
      && MergeTask(task, ParseTaskPatch(Wire(Save(Reset(task, formatDate), parseDate).value, iso)).value)
         == Normalised(task)
  {
    if task.dueDate.None? {
      var b := Submit(Reset(task, formatDate), parseDate);
      DueDateRefusedOverJson(b, iso);
      UneditedPatch(task, formatDate, parseDate);
    }
  }

  /** The body of an unedited form without a due date merges into the normalised task. */
  lemma UneditedPatch(task: Task, formatDate: int -> string, parseDate: string -> int)
    requires task.dueDate.None?
    ensures MergeTask(task, ParseTaskPatch(Submit(Reset(task, formatDate), parseDate)).value) == Normalised(task)
  {
    var f := Reset(task, formatDate);
    var b := Submit(f, parseDate);
    var d := TaskPatch(Put(f.title), Put(Some(f.description)), Put(task.projectId),
                       Put(task.status), Put(task.priority),
                       if Truthy(task.assigneeId) then Put(task.assigneeId) else Keep,
                       Keep, Keep, Put(ParseTags(f.tags)), Put(Some(f.progress)));
    assert TaskPatchCarries(b, d);
    assert ParseTaskPatch(b) == Some(d);
  }

  /** With a description, a truthy progress and trimmed, comma-free tags other than
      `[""]`, the normalisation changes nothing: saving unedited leaves the task as is. */
  lemma NormalisedUnchanged(task: Task)
    requires task.description.Some? && Truthy(task.progress) && task.tags != [""]
    requires forall t :: t in task.tags ==> IsTrimmed(t) && ',' !in t
    ensures Normalised(task) == task
  {
    TagsRoundTrip(task.tags);
  }

  // ---------------------------------------------------------------------------
  // Comments

  /** `z.string().min(1, "Comment cannot be empty")` */
  predicate CommentValid(content: string) {
    |content| >= 1
  }

  /** `onCommentSubmit`: the body posted for a valid comment, with the fixed user 1. */
  function CommentRequest(content: string): (r: Option<CommentBody>)
    ensures r.Some? <==> content != ""
    ensures r.Some? ==> r.value.userId == Value(1) && r.value.content == Value(content)
  {
    if !CommentValid(content) then None else Some(CommentBody(Absent, Value(1), Value(content)))
  }

  /** A comment the form lets through passes the server's validation once the route
      adds the task id from the path. */
  lemma CommentAccepted(content: string, taskId: int)
    requires content != ""
    ensures ParseInsertComment(CommentRequest(content).value.(taskId := Value(taskId)))
         == Some(InsertComment(taskId, 1, content))
  {
  }
}
