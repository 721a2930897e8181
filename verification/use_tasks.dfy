/** The client hooks in `use-tasks.ts`: the query key of the task list and the status
    filter of `useTasksByStatus`. */
module UseTasks {
  import opened Wrappers
  import opened Seqs
  import opened Schema
  import Routes
  import Storage

  /** `["/api/tasks"]`, `["/api/tasks", { projectId }]` or `["/api/tasks", { assigneeId }]` */
  datatype TasksKey = AllTasksKey | TasksOfProject(projectId: int) | TasksOfAssignee(assigneeId: int)

  /** A truthy `projectId` wins, then a truthy `assigneeId`. */
  function TasksQueryKey(projectId: Option<int>, assigneeId: Option<int>): (k: TasksKey)
    ensures Truthy(projectId) ==> k == TasksOfProject(projectId.value)
    ensures !Truthy(projectId) && Truthy(assigneeId) ==> k == TasksOfAssignee(assigneeId.value)
    ensures k == AllTasksKey <==> !Truthy(projectId) && !Truthy(assigneeId)
  {
    if Truthy(projectId) then TasksOfProject(projectId.value)
    else if Truthy(assigneeId) then TasksOfAssignee(assigneeId.value)
    else AllTasksKey
  }

  /** The store query GET /tasks runs for the parameters a key carries. */
  function KeyFilter(k: TasksKey): Routes.TaskFilter {
    match k
    case AllTasksKey => Routes.AllTasks
    case TasksOfProject(p) => Routes.ByProject(p)
    case TasksOfAssignee(a) => Routes.ByAssignee(a)
  }

  /** The client and the server pick the same query for the same parameters. */
  lemma KeyMatchesRoute(projectId: Option<int>, assigneeId: Option<int>)
    ensures KeyFilter(TasksQueryKey(projectId, assigneeId)) == Routes.TaskFilterOf(projectId, assigneeId)
  {
  }

  /** `Boolean(projectId) || Boolean(assigneeId) || !projectId && !assigneeId` */
  function Enabled(projectId: Option<int>, assigneeId: Option<int>): (r: bool)
    ensures r
  {
    Truthy(projectId) || Truthy(assigneeId) || (!Truthy(projectId) && !Truthy(assigneeId))
  }

  /** `tasks?.filter(task => task.status === status) || []` */
  function TasksByStatus(tasks: Option<seq<Task>>, status: string): (r: seq<Task>)
    ensures tasks.None? ==> r == []
    ensures tasks.Some? ==> forall t :: t in r <==> t in tasks.value && StatusName(t.status) == status
    ensures |r| <= |tasks.GetOr([])|
  {
    if tasks.None? then [] else Filter(tasks.value, Storage.HasStatusName(status))
  }

  /** The filter keeps the fetched order. */
  lemma TasksByStatusKeepsOrder(tasks: seq<Task>, status: string)
    requires IncreasingBy(tasks, Storage.TaskKey)
    ensures IncreasingBy(TasksByStatus(Some(tasks), status), Storage.TaskKey)
  {
    FilterIncreasing(tasks, Storage.HasStatusName(status), Storage.TaskKey);
  }

  /** For a truthy project id the hook fetches GET /tasks?projectId=p, and its filtered
      list is the store's `getTasksByStatus(p, status)`. */
  lemma TasksByStatusMatchesStore(s: Storage.MemStorage, p: int, status: string)
    requires s.TasksValid() && p != 0
    ensures TasksByStatus(Some(Routes.GetTasksRoute(s, Some(p), None)), status) == s.GetTasksByStatus(p, status)
  {
  }

  /** For project id 0 the hook fetches every task instead, so a task of another project
      with the requested status shows up. */
  lemma ZeroProjectFetchesAll(s: Storage.MemStorage, status: string)
    requires s.TasksValid()
    ensures TasksByStatus(Some(Routes.GetTasksRoute(s, Some(0), None)), status)
         == Filter(s.GetTasks(), Storage.HasStatusName(status))
  {
  }
}
