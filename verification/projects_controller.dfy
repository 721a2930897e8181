/** The AdonisJS `ProjectsController`: per-project task statistics, and the update
    action that merges a whitelist of body keys into a Lucid `Project` record. */
module ProjectsController {
  import opened Wrappers
  import opened Seqs
  import opened Schema
  import Routes

  // ---------------------------------------------------------------------------
  // stats

  datatype ProjectStats = ProjectStats(totalTasks: nat, completedTasks: nat,
                                       inProgressTasks: nat, overdueTasksCount: nat)

  /** `task.status === 'done'` */
  function IsDone(): Task -> bool { (t: Task) => StatusName(t.status) == "done" }

  /** `task.status === 'in_progress'` */
  function IsInProgress(): Task -> bool { (t: Task) => StatusName(t.status) == "in_progress" }

  /** Not done, with a due date, and that due date before `now`. */
  function IsOverdue(now: int): Task -> bool {
    (t: Task) => StatusName(t.status) != "done" && t.dueDate.Some? && t.dueDate.value < now
  }

  /** The counts over a loaded task list. */
  function CountTasks(tasks: seq<Task>, now: int): (r: ProjectStats)
    ensures r.totalTasks == |tasks|
    ensures r.completedTasks + r.inProgressTasks <= r.totalTasks
    ensures r.overdueTasksCount + r.completedTasks <= r.totalTasks
  {
    CountDisjoint(tasks, IsDone(), IsInProgress());
    CountDisjoint(tasks, IsDone(), IsOverdue(now));
    ProjectStats(|tasks|, Count(tasks, IsDone()), Count(tasks, IsInProgress()),
                 Count(tasks, IsOverdue(now)))
  }

  /** GET stats for one project: `findOrFail` answers not-found (`None`) for a missing
      project; a task list that did not load counts as empty. */
  function Stats(project: Option<ProjectRecord>, tasks: Option<seq<Task>>, now: int): (r: Option<ProjectStats>)
    ensures r.None? <==> project.None?
    ensures r.Some? && tasks.None? ==> r.value == ProjectStats(0, 0, 0, 0)
    ensures r.Some? ==> r.value.totalTasks == |tasks.GetOr([])|
    ensures r.Some? ==> r.value.completedTasks + r.value.inProgressTasks <= r.value.totalTasks
    ensures r.Some? ==> r.value.overdueTasksCount + r.value.completedTasks <= r.value.totalTasks
  {
    if project.None? then None else Some(CountTasks(tasks.GetOr([]), now))
  }

  /** On the same tasks and the same `now`, the controller counts what GET /stats of the
      Express server counts: `done`, `in_progress` and overdue tasks. */
  lemma StatsAgreeWithServer(projects: seq<Project>, tasks: seq<Task>, now: int)
    ensures CountTasks(tasks, now).completedTasks == Routes.Stats(projects, tasks, now).completed
    ensures CountTasks(tasks, now).inProgressTasks == Routes.Stats(projects, tasks, now).inProgress
    ensures CountTasks(tasks, now).overdueTasksCount == Routes.Stats(projects, tasks, now).overdue
  {
    forall t | t in tasks ensures IsDone()(t) == Routes.HasStatus(Done)(t) {
      StatusRoundTrip(t.status);
    }
    forall t | t in tasks ensures IsInProgress()(t) == Routes.HasStatus(InProgress)(t) {
      StatusRoundTrip(t.status);
    }
    forall t | t in tasks ensures IsOverdue(now)(t) == Routes.Overdue(now)(t) {
      StatusRoundTrip(t.status);
    }
    FilterCongruent(tasks, IsDone(), Routes.HasStatus(Done));
    FilterCongruent(tasks, IsInProgress(), Routes.HasStatus(InProgress));
    FilterCongruent(tasks, IsOverdue(now), Routes.Overdue(now));
  }

  // ---------------------------------------------------------------------------
  // update

  /** A row of the `projects` table: `name`, `status` and `color` are NOT NULL. */
  datatype ProjectRecord = ProjectRecord(id: int, name: string, description: Option<string>,
                                         status: string, color: string, teamId: int)

  /** `request.only(['name', 'description', 'status', 'color'])` */
  datatype ProjectFields = ProjectFields(name: Field<string>, description: Field<string>,
                                         status: Field<string>, color: Field<string>)

  function OnlyUpdatable(b: ProjectBody): ProjectFields {
    ProjectFields(b.name, b.description, b.status, b.color)
  }

  /** The whitelist never looks at the body's `teamId`. */
  lemma OnlyIgnoresTeamId(b: ProjectBody, teamId: Field<int>)
    ensures OnlyUpdatable(b.(teamId := teamId)) == OnlyUpdatable(b)
    ensures OnlyUpdatable(b) == OnlyUpdatable(ProjectBody(b.name, b.description, Absent, b.status, b.color))
  {
  }

  /** A NOT NULL column after the merge: `None` when the save would store `null`. */
  function SetColumn(f: Field<string>, prior: string): (r: Option<string>)
    ensures r.None? <==> f.Null?
    ensures f.Absent? ==> r == Some(prior)
    ensures f.Value? ==> r == Some(f.value)
  {
    match f
    case Absent => Some(prior)
    case Null => None
    case Value(v) => Some(v)
  }

  /** A nullable column after the merge. */
  function SetNullableColumn(f: Field<string>, prior: Option<string>): (r: Option<string>)
    ensures f.Absent? ==> r == prior
    ensures f.Null? ==> r.None?
    ensures f.Value? ==> r == Some(f.value)
  {
    match f
    case Absent => prior
    case Null => None
    case Value(v) => Some(v)
  }

  /** `project.merge(data)` followed by `project.save()`; `None` when the save fails on a
      NOT NULL column. */
  function Merged(p: ProjectRecord, d: ProjectFields): (r: Option<ProjectRecord>)
    ensures r.None? <==> d.name.Null? || d.status.Null? || d.color.Null?
    ensures r.Some? ==> r.value.id == p.id && r.value.teamId == p.teamId
  {
    var name := SetColumn(d.name, p.name);
    var status := SetColumn(d.status, p.status);
    var color := SetColumn(d.color, p.color);
    if name.None? || status.None? || color.None? then None
    else Some(ProjectRecord(p.id, name.value, SetNullableColumn(d.description, p.description),
                            status.value, color.value, p.teamId))
  }

  /** The record as a row of the Express `projects` table. */
  function AsRow(p: ProjectRecord): Project {
    Project(p.id, p.name, p.description, p.teamId, Some(p.status), Some(p.color))
  }

  /** The whitelisted keys as an Express patch, with `teamId` always kept. */
  function AsPatch(d: ProjectFields): ProjectPatch {
    ProjectPatch(
      if d.name.Value? then Put(d.name.value) else Keep,
      match d.description
        case Absent => Keep
        case Null => Put(None)
        case Value(v) => Put(Some(v)),
      Keep,
      if d.status.Value? then Put(Some(d.status.value)) else Keep,
      if d.color.Value? then Put(Some(d.color.value)) else Keep)
  }

  /** A successful merge is the Express spread `{ ...project, ...data }` of the same
      fields, with `teamId` kept: the two servers update a project alike, except that
      this one has no way to change its team. */
  lemma MergedIsSpread(p: ProjectRecord, d: ProjectFields)
    requires Merged(p, d).Some?
    ensures AsRow(Merged(p, d).value) == MergeProject(AsRow(p), AsPatch(d))
    ensures AsPatch(d).teamId.Keep?
  {
  }

  /** Merging the same fields twice is merging them once; merging nothing changes nothing. */
  lemma MergedIdempotent(p: ProjectRecord, d: ProjectFields)
    ensures Merged(p, d).Some? ==> Merged(Merged(p, d).value, d) == Merged(p, d)
    ensures Merged(p, ProjectFields(Absent, Absent, Absent, Absent)) == Some(p)
  {
  }

  /** A loaded Lucid `Project` instance: `merge` writes the supplied keys into this very
      object, and `Record()` is the row it stands for. */
  class ProjectModel {
    var id: int
    var name: string
    var description: Option<string>
    var status: string
    var color: string
    var teamId: int

    function Record(): ProjectRecord
      reads this
    {
      ProjectRecord(id, name, description, status, color, teamId)
    }

    constructor (r: ProjectRecord)
      ensures Record() == r
    {
      id, name, description, status, color, teamId := r.id, r.name, r.description, r.status, r.color, r.teamId;
    }

    /** `project.merge(data)` then `project.save()` on the instance itself: a save that
        fails (a NOT NULL column set to `null`) leaves the stored row as it was. */
    method MergeAndSave(d: ProjectFields) returns (saved: bool)
      modifies this
      ensures saved == Merged(old(Record()), d).Some?
      ensures saved ==> Record() == Merged(old(Record()), d).value
      ensures !saved ==> Record() == old(Record())
      ensures teamId == old(teamId) && id == old(id)
    {
      var merged := Merged(Record(), d);
      if merged.None? {
        return false;
      }
      name, description, status, color := merged.value.name, merged.value.description,
                                          merged.value.status, merged.value.color;
      saved := true;
    }
  }

  datatype Reply = NotFound | ServerError | Json(project: ProjectRecord)

  /** PATCH a project: not-found for a missing record, a server error when a NOT NULL
      column would be set to `null`, else the merged record. */
  method Update(project: ProjectModel?, body: ProjectBody) returns (reply: Reply)
    modifies project
    ensures project == null ==> reply == NotFound
    ensures project != null ==>
      match Merged(old(project.Record()), OnlyUpdatable(body))
      case None => reply == ServerError && project.Record() == old(project.Record())
      case Some(q) => reply == Json(q) && project.Record() == q
    ensures project != null ==> project.teamId == old(project.teamId)
  {
    if project == null {
      return NotFound;
    }
    var saved := project.MergeAndSave(OnlyUpdatable(body));
    if !saved {
      return ServerError;
    }
    reply := Json(project.Record());
  }
}
