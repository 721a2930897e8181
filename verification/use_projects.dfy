/** The client hooks in `use-projects.ts`: the query key of the project list and the
    statistics `useProjectWithStats` derives from a project and its fetched tasks. */
module UseProjects {
  import opened Wrappers
  import opened Seqs
  import opened Schema
  import opened ProjectsController
  import Routes
  import Storage

  /** `["/api/projects"]` or `["/api/projects", { teamId }]` */
  datatype ProjectsKey = AllProjects | ProjectsOfTeam(teamId: int)

  /** The query key carries the team only when `teamId` is truthy. */
  function ProjectsQueryKey(teamId: Option<int>): (k: ProjectsKey)
    ensures k.ProjectsOfTeam? <==> Truthy(teamId)
    ensures k.ProjectsOfTeam? ==> k.teamId == teamId.value
  {
    if Truthy(teamId) then ProjectsOfTeam(teamId.value) else AllProjects
  }

  /** The `teamId` query parameter a key turns into. */
  function KeyParam(k: ProjectsKey): Option<int> {
    match k
    case AllProjects => None
    case ProjectsOfTeam(t) => Some(t)
  }

  /** Fetching by the key gets what GET /projects answers for the hook's own `teamId`:
      a falsy team id and no team id select the same list. */
  lemma ProjectsKeyAgreesWithRoute(s: Storage.MemStorage, teamId: Option<int>)
    requires s.ProjectsValid()
    ensures Routes.GetProjectsRoute(s, KeyParam(ProjectsQueryKey(teamId))) == Routes.GetProjectsRoute(s, teamId)
  {
  }

  /** `{ ...project, totalTasks, completedTasks, inProgressTasks, overdueTasksCount }` */
  datatype ProjectWithStats = ProjectWithStats(project: Project, stats: ProjectStats)

  /** `task.dueDate && new Date(task.dueDate) < new Date() && task.status !== "done"` */
  function ClientOverdue(now: int): Task -> bool {
    (t: Task) => t.dueDate.Some? && t.dueDate.value < now && StatusName(t.status) != "done"
  }

  /** `tasks?.filter(f).length || 0` */
  function CountOrZero(tasks: Option<seq<Task>>, f: Task -> bool): (n: nat)
    ensures tasks.None? ==> n == 0
    ensures tasks.Some? ==> n == Count(tasks.value, f)
  {
    if tasks.None? then 0 else Count(tasks.value, f)
  }

  /** No project gives no result; otherwise the project, unchanged, with its counts,
      all zero when the tasks have not been fetched. */
  function WithStats(project: Option<Project>, tasks: Option<seq<Task>>, now: int): (r: Option<ProjectWithStats>)
    ensures r.None? <==> project.None?
    ensures r.Some? ==> r.value.project == project.value
    ensures r.Some? && tasks.None? ==> r.value.stats == ProjectStats(0, 0, 0, 0)
    ensures r.Some? ==> r.value.stats.totalTasks == |tasks.GetOr([])|
  {
    if project.None? then None
    else
      Some(ProjectWithStats(project.value,
        ProjectStats(if tasks.None? then 0 else |tasks.value|,
                     CountOrZero(tasks, IsDone()), CountOrZero(tasks, IsInProgress()),
                     CountOrZero(tasks, ClientOverdue(now)))))
  }

  /** On the same fetched tasks and the same `now`, the hook's counts are the AdonisJS
      controller's counts, and its overdue count is the one GET /stats reports. */
  lemma WithStatsAgrees(p: Project, projects: seq<Project>, tasks: seq<Task>, now: int)
    ensures WithStats(Some(p), Some(tasks), now).value.stats == CountTasks(tasks, now)
    ensures WithStats(Some(p), Some(tasks), now).value.stats.overdueTasksCount
         == Routes.Stats(projects, tasks, now).overdue
    ensures WithStats(Some(p), Some(tasks), now).value.stats.completedTasks
         == Routes.Stats(projects, tasks, now).completed
  {
    FilterCongruent(tasks, ClientOverdue(now), IsOverdue(now));
    StatsAgreeWithServer(projects, tasks, now);
  }

  /** The counts keep the bounds the controller's counts have. */
  lemma WithStatsBounds(project: Option<Project>, tasks: Option<seq<Task>>, now: int)
    requires project.Some?
    ensures var st := WithStats(project, tasks, now).value.stats;
      st.completedTasks + st.inProgressTasks <= st.totalTasks
      && st.overdueTasksCount + st.completedTasks <= st.totalTasks
  {
    if tasks.Some? {
      WithStatsAgrees(project.value, [], tasks.value, now);
    }
  }
}
