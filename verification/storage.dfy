/** The in-memory entity store: six insertion-ordered maps keyed by id, each with its own
    id counter. */
module Storage {
  import opened Wrappers
  import opened Seqs
  import opened JsMap
  import opened Schema
  import opened StableSort

  // ---------------------------------------------------------------------------
  // Tables. A table is a map whose keys were handed out by a counter that starts at 1
  // and only grows, so the keys are below the counter, increase in insertion order,
  // and each row is stored under its own id.

  ghost predicate Table<V>(m: OrderedMap<V>, counter: int, key: V -> int) {
    && m.Valid()
    && counter >= 1
    && (forall i, j :: 0 <= i < j < |m.keys| ==> m.keys[i] < m.keys[j])
    && (forall k :: k in m.entries ==> 1 <= k < counter && key(m.entries[k]) == k)
  }

  function UserKey(u: User): int { u.id }
  function TeamKey(t: Team): int { t.id }
  function MemberKey(m: TeamMember): int { m.id }
  function ProjectKey(p: Project): int { p.id }
  function TaskKey(t: Task): int { t.id }
  function CommentKey(c: Comment): int { c.id }

  /** The row whose id is `k`. */
  function IsKey<V>(key: V -> int, k: int): V -> bool {
    v => key(v) == k
  }

  /** Every row except the one whose id is `k`. */
  function NotKey<V>(key: V -> int, k: int): V -> bool {
    v => key(v) != k
  }

  lemma {:induction false} ValuesOfKeys<V>(ks: seq<int>, m: map<int, V>, key: V -> int)
    requires forall k :: k in ks && k in m ==> key(m[k]) == k
    ensures forall v :: v in ValuesOf(ks, m) ==> key(v) in ks
  {
    if ks != [] {
      ValuesOfKeys(ks[1..], m, key);
      var head := if ks[0] in m then [m[ks[0]]] else [];
      assert ValuesOf(ks, m) == head + ValuesOf(ks[1..], m);
      forall v | v in ValuesOf(ks, m) ensures key(v) in ks {
        if v in head {
          assert key(v) == ks[0];
        } else {
          assert key(v) in ks[1..];
        }
      }
    }
  }

  lemma {:induction false} ValuesOfIncreasing<V>(ks: seq<int>, m: map<int, V>, key: V -> int)
    requires forall i, j :: 0 <= i < j < |ks| ==> ks[i] < ks[j]
    requires forall k :: k in ks && k in m ==> key(m[k]) == k
    ensures IncreasingBy(ValuesOf(ks, m), key)
  {
    if ks != [] {
      var rest := ValuesOf(ks[1..], m);
      ValuesOfIncreasing(ks[1..], m, key);
      ValuesOfKeys(ks[1..], m, key);
      forall v | v in rest ensures ks[0] < key(v) {
        var j :| 0 <= j < |ks[1..]| && ks[1..][j] == key(v);
        assert ks[j + 1] == key(v);
      }
      if ks[0] in m {
        assert ValuesOf(ks, m) == [m[ks[0]]] + rest;
        ConsIncreasing(m[ks[0]], rest, key);
      }
    }
  }

  /** A key below every key of an increasing list can go in front of it. */
  lemma ConsIncreasing<T>(x: T, rest: seq<T>, key: T -> int)
    requires IncreasingBy(rest, key)
    requires forall v :: v in rest ==> key(x) < key(v)
    ensures IncreasingBy([x] + rest, key)
  {
    var r := [x] + rest;
    forall i, j | 0 <= i < j < |r| ensures key(r[i]) < key(r[j]) {
      assert r[j] == rest[j - 1];
      if i > 0 {
        assert r[i] == rest[i - 1];
      } else {
        assert r[j] in rest;
      }
    }
  }

  /** The rows of a table are listed in increasing id order, each with an id the
      counter has already handed out. */
  lemma TableValues<V>(m: OrderedMap<V>, counter: int, key: V -> int)
    requires Table(m, counter, key)
    ensures IncreasingBy(m.Values(), key)
    ensures forall v :: v in m.Values() ==> 1 <= key(v) < counter && m.Get(key(v)) == Some(v)
    ensures forall k :: m.Get(k).Some? ==> m.Get(k).value in m.Values()
  {
    ValuesOfIncreasing(m.keys, m.entries, key);
    ValuesSound(m, key);
    ValuesComplete(m);
  }

  /** Storing a row under the counter's value appends it and moves the counter on. */
  lemma TableInsert<V>(m: OrderedMap<V>, counter: int, key: V -> int, v: V)
    requires Table(m, counter, key) && key(v) == counter
    ensures Table(m.Set(counter, v), counter + 1, key)
    ensures m.Set(counter, v).Values() == m.Values() + [v]
    ensures m.Get(counter).None?
  {
    SetNewValues(m, counter, v);
    var n := m.Set(counter, v);
    forall i, j | 0 <= i < j < |n.keys| ensures n.keys[i] < n.keys[j] {
      if j == |m.keys| {
        assert n.keys[i] == m.keys[i] && m.keys[i] in m.entries;
      }
    }
  }

  /** Storing a row again under its own id replaces it where it stands. */
  lemma TableReplace<V>(m: OrderedMap<V>, counter: int, key: V -> int, k: int, v: V)
    requires Table(m, counter, key) && m.Has(k) && key(v) == k
    ensures Table(m.Set(k, v), counter, key)
    ensures m.Set(k, v).Values() == ReplaceWhere(m.Values(), IsKey(key, k), v)
  {
    SetExistingValues(m, k, v, IsKey(key, k));
  }

  /** Deleting a row drops it and keeps the others in order. */
  lemma TableRemove<V>(m: OrderedMap<V>, counter: int, key: V -> int, k: int)
    requires Table(m, counter, key)
    ensures Table(m.Delete(k), counter, key)
    ensures m.Delete(k).Values() == Filter(m.Values(), NotKey(key, k))
  {
    DeleteValues(m, k, NotKey(key, k));
    var n := m.Delete(k);
    assert n.keys == Filter(m.keys, Other(k));
    FilterIncreasingInts(m.keys, Other(k));
  }

  lemma {:induction false} FilterIncreasingInts(s: seq<int>, f: int -> bool)
    requires forall i, j :: 0 <= i < j < |s| ==> s[i] < s[j]
    ensures var r := Filter(s, f); forall i, j :: 0 <= i < j < |r| ==> r[i] < r[j]
  {
    FilterIncreasing(s, f, (x: int) => x);
  }

  // ---------------------------------------------------------------------------
  // The tests the queries filter by.

  function HasUsername(name: string): User -> bool { (u: User) => u.username == name }
  function InTeam(teamId: int): TeamMember -> bool { (m: TeamMember) => m.teamId == teamId }
  function IsMembership(teamId: int, userId: int): TeamMember -> bool {
    (m: TeamMember) => m.teamId == teamId && m.userId == userId
  }
  function ProjectInTeam(teamId: int): Project -> bool { (p: Project) => p.teamId == teamId }
  function InProject(projectId: int): Task -> bool { (t: Task) => t.projectId == projectId }
  function AssignedTo(assigneeId: int): Task -> bool { (t: Task) => t.assigneeId == Some(assigneeId) }
  function HasStatusName(status: string): Task -> bool { (t: Task) => StatusName(t.status) == status }
  function InProjectWithStatus(projectId: int, status: string): Task -> bool {
    (t: Task) => t.projectId == projectId && StatusName(t.status) == status
  }
  function OnTask(taskId: int): Comment -> bool { (c: Comment) => c.taskId == taskId }

  // ---------------------------------------------------------------------------

  class MemStorage {
    var users: OrderedMap<User>
    var teams: OrderedMap<Team>
    var teamMembers: OrderedMap<TeamMember>
    var projects: OrderedMap<Project>
    var tasks: OrderedMap<Task>
    var comments: OrderedMap<Comment>

    var userIdCounter: int
    var teamIdCounter: int
    var teamMemberIdCounter: int
    var projectIdCounter: int
    var taskIdCounter: int
    var commentIdCounter: int

    ghost predicate UsersValid() reads this`users, this`userIdCounter {
      Table(users, userIdCounter, UserKey)
    }
    ghost predicate TeamsValid() reads this`teams, this`teamIdCounter {
      Table(teams, teamIdCounter, TeamKey)
    }
    ghost predicate MembersValid() reads this`teamMembers, this`teamMemberIdCounter {
      Table(teamMembers, teamMemberIdCounter, MemberKey)
    }
    ghost predicate ProjectsValid() reads this`projects, this`projectIdCounter {
      Table(projects, projectIdCounter, ProjectKey)
    }
    ghost predicate TasksValid() reads this`tasks, this`taskIdCounter {
      Table(tasks, taskIdCounter, TaskKey)
    }
    ghost predicate CommentsValid() reads this`comments, this`commentIdCounter {
      Table(comments, commentIdCounter, CommentKey)
    }

    ghost predicate Valid() reads this {
      UsersValid() && TeamsValid() && MembersValid() && ProjectsValid() && TasksValid()
      && CommentsValid()
    }

    /** An empty store with every counter at 1 (the sample data is not loaded). */
    constructor ()
      ensures Valid()
      ensures GetUsers() == [] && GetTeams() == [] && GetAllTeamMembers() == []
      ensures GetProjects() == [] && GetTasks() == [] && GetAllComments() == []
      ensures userIdCounter == 1 && teamIdCounter == 1 && teamMemberIdCounter == 1
      ensures projectIdCounter == 1 && taskIdCounter == 1 && commentIdCounter == 1
    {
      users, teams, teamMembers := Empty(), Empty(), Empty();
      projects, tasks, comments := Empty(), Empty(), Empty();
      userIdCounter, teamIdCounter, teamMemberIdCounter := 1, 1, 1;
      projectIdCounter, taskIdCounter, commentIdCounter := 1, 1, 1;
    }

    // -------------------------------------------------------------------------
    // Users

    function GetUsers(): seq<User> reads this`users {
      users.Values()
    }

    /** `getUsers`: every stored user once, in id order. */
    lemma UsersListed()
      requires UsersValid()
      ensures IncreasingBy(GetUsers(), UserKey)
      ensures forall u :: u in GetUsers() <==> users.Get(u.id) == Some(u)
    {
      TableValues(users, userIdCounter, UserKey);
    }

    /** `users.get(id)`: the listed user with that id, if there is one. */
    function GetUser(id: int): (r: Option<User>)
      reads this`users, this`userIdCounter
      requires UsersValid()
      ensures r.Some? ==> r.value.id == id && r.value in GetUsers()
      ensures r.None? ==> forall u :: u in GetUsers() ==> u.id != id
    {
      TableValues(users, userIdCounter, UserKey);
      users.Get(id)
    }

    /** The first user in insertion order with that username; since ids grow with
        insertion, the one with the smallest id. */
    function GetUserByUsername(username: string): (r: Option<User>)
      reads this`users, this`userIdCounter
      requires UsersValid()
      ensures r.Some? ==> r.value in GetUsers() && r.value.username == username
      ensures r.Some? ==> forall u :: u in GetUsers() && u.username == username ==> r.value.id <= u.id
      ensures r.None? ==> forall u :: u in GetUsers() ==> u.username != username
    {
      TableValues(users, userIdCounter, UserKey);
      FindSmallest(GetUsers(), HasUsername(username), UserKey);
      Find(GetUsers(), HasUsername(username))
    }

    /** `createUser`: the next id, no uniqueness check on the username. */
    method CreateUser(data: InsertUser) returns (u: User)
      requires UsersValid()
      modifies this`users, this`userIdCounter
      ensures UsersValid()
      ensures u == data.WithId(old(userIdCounter))
      ensures userIdCounter == old(userIdCounter) + 1
      ensures GetUsers() == old(GetUsers()) + [u]
      ensures old(users.Get(u.id)).None? && users.Get(u.id) == Some(u)
      ensures forall name :: old(GetUserByUsername(name)).Some? ==>
        GetUserByUsername(name) == old(GetUserByUsername(name))
    {
      ghost var before := GetUsers();
      var id := userIdCounter;
      u := data.WithId(id);
      TableInsert(users, id, UserKey, u);
      users := users.Set(id, u);
      userIdCounter := id + 1;
      forall name {
        FindAppend(before, u, HasUsername(name));
      }
    }

    // -------------------------------------------------------------------------
    // Teams

    function GetTeams(): seq<Team> reads this`teams {
      teams.Values()
    }

    /** `getTeams`: every stored team once, in id order. */
    lemma TeamsListed()
      requires TeamsValid()
      ensures IncreasingBy(GetTeams(), TeamKey)
      ensures forall t :: t in GetTeams() <==> teams.Get(t.id) == Some(t)
    {
      TableValues(teams, teamIdCounter, TeamKey);
    }

    function GetTeam(id: int): (r: Option<Team>)
      reads this`teams, this`teamIdCounter
      requires TeamsValid()
      ensures r.Some? ==> r.value.id == id && r.value in GetTeams()
      ensures r.None? ==> forall t :: t in GetTeams() ==> t.id != id
    {
      TableValues(teams, teamIdCounter, TeamKey);
      teams.Get(id)
    }

    method CreateTeam(data: InsertTeam) returns (t: Team)
      requires TeamsValid()
      modifies this`teams, this`teamIdCounter
      ensures TeamsValid()
      ensures t == data.WithId(old(teamIdCounter))
      ensures teamIdCounter == old(teamIdCounter) + 1
      ensures GetTeams() == old(GetTeams()) + [t]
      ensures old(teams.Get(t.id)).None? && teams.Get(t.id) == Some(t)
    {
      var id := teamIdCounter;
      t := data.WithId(id);
      TableInsert(teams, id, TeamKey, t);
      teams := teams.Set(id, t);
      teamIdCounter := id + 1;
    }

    // -------------------------------------------------------------------------
    // Team members

    function GetAllTeamMembers(): seq<TeamMember> reads this`teamMembers {
      teamMembers.Values()
    }

    /** The memberships of a team, in insertion order. */
    function GetTeamMembers(teamId: int): (r: seq<TeamMember>)
      reads this`teamMembers, this`teamMemberIdCounter
      requires MembersValid()
      ensures forall m :: m in r ==> m in GetAllTeamMembers() && m.teamId == teamId
      ensures forall m :: m in GetAllTeamMembers() && m.teamId == teamId ==> m in r
      ensures IncreasingBy(r, MemberKey)
    {
      TableValues(teamMembers, teamMemberIdCounter, MemberKey);
      FilterIncreasing(GetAllTeamMembers(), InTeam(teamId), MemberKey);
      Filter(GetAllTeamMembers(), InTeam(teamId))
    }

    method AddTeamMember(data: InsertTeamMember) returns (m: TeamMember)
      requires MembersValid()
      modifies this`teamMembers, this`teamMemberIdCounter
      ensures MembersValid()
      ensures m == data.WithId(old(teamMemberIdCounter))
      ensures teamMemberIdCounter == old(teamMemberIdCounter) + 1
      ensures GetAllTeamMembers() == old(GetAllTeamMembers()) + [m]
      ensures old(teamMembers.Get(m.id)).None? && teamMembers.Get(m.id) == Some(m)
    {
      var id := teamMemberIdCounter;
      m := data.WithId(id);
      TableInsert(teamMembers, id, MemberKey, m);
      teamMembers := teamMembers.Set(id, m);
      teamMemberIdCounter := id + 1;
    }

    /** Deletes the first membership of `userId` in `teamId`, if there is one. */
    method RemoveTeamMember(teamId: int, userId: int) returns (removed: bool)
      requires MembersValid()
      modifies this`teamMembers
      ensures MembersValid()
      ensures var first := Find(old(GetAllTeamMembers()), IsMembership(teamId, userId));
        && removed == first.Some?
        && GetAllTeamMembers() == if removed
                                  then Filter(old(GetAllTeamMembers()), NotKey(MemberKey, first.value.id))
                                  else old(GetAllTeamMembers())
      ensures |GetAllTeamMembers()| == |old(GetAllTeamMembers())| - (if removed then 1 else 0)
    {
      var first := Find(GetAllTeamMembers(), IsMembership(teamId, userId));
      if first.Some? {
        TableValues(teamMembers, teamMemberIdCounter, MemberKey);
        TableRemove(teamMembers, teamMemberIdCounter, MemberKey, first.value.id);
        FilterOutOne(GetAllTeamMembers(), MemberKey, first.value);
        removed := teamMembers.Has(first.value.id);
        teamMembers := teamMembers.Delete(first.value.id);
      } else {
        removed := false;
      }
    }

    // -------------------------------------------------------------------------
    // Projects

    function GetProjects(): seq<Project> reads this`projects {
      projects.Values()
    }

    /** `getProjects`: every stored project once, in id order. */
    lemma ProjectsListed()
      requires ProjectsValid()
      ensures IncreasingBy(GetProjects(), ProjectKey)
      ensures forall p :: p in GetProjects() <==> projects.Get(p.id) == Some(p)
    {
      TableValues(projects, projectIdCounter, ProjectKey);
    }

    function GetProject(id: int): (r: Option<Project>)
      reads this`projects, this`projectIdCounter
      requires ProjectsValid()
      ensures r.Some? ==> r.value.id == id && r.value in GetProjects()
      ensures r.None? ==> forall p :: p in GetProjects() ==> p.id != id
    {
      TableValues(projects, projectIdCounter, ProjectKey);
      projects.Get(id)
    }

    /** The projects of a team, in insertion order. */
    function GetProjectsByTeam(teamId: int): (r: seq<Project>)
      reads this`projects, this`projectIdCounter
      requires ProjectsValid()
      ensures forall p :: p in r ==> p in GetProjects() && p.teamId == teamId
      ensures forall p :: p in GetProjects() && p.teamId == teamId ==> p in r
      ensures IncreasingBy(r, ProjectKey)
    {
      TableValues(projects, projectIdCounter, ProjectKey);
      FilterIncreasing(GetProjects(), ProjectInTeam(teamId), ProjectKey);
      Filter(GetProjects(), ProjectInTeam(teamId))
    }

    method CreateProject(data: InsertProject) returns (p: Project)
      requires ProjectsValid()
      modifies this`projects, this`projectIdCounter
      ensures ProjectsValid()
      ensures p == data.WithId(old(projectIdCounter))
      ensures projectIdCounter == old(projectIdCounter) + 1
      ensures GetProjects() == old(GetProjects()) + [p]
      ensures old(projects.Get(p.id)).None? && projects.Get(p.id) == Some(p)
    {
      var id := projectIdCounter;
      p := data.WithId(id);
      TableInsert(projects, id, ProjectKey, p);
      projects := projects.Set(id, p);
      projectIdCounter := id + 1;
    }

    /** `{ ...project, ...data }` stored back under the same id, in the same place. */
    method UpdateProject(id: int, data: ProjectPatch) returns (r: Option<Project>)
      requires ProjectsValid()
      modifies this`projects
      ensures ProjectsValid()
      ensures old(projects.Get(id)).None? ==> r.None? && projects == old(projects)
      ensures old(projects.Get(id)).Some? ==>
        && r == Some(MergeProject(old(projects.Get(id)).value, data))
        && GetProjects() == ReplaceWhere(old(GetProjects()), IsKey(ProjectKey, id), r.value)
        && projects.Get(id) == r
    {
      var project := projects.Get(id);
      if project.None? {
        return None;
      }
      var updated := MergeProject(project.value, data);
      TableReplace(projects, projectIdCounter, ProjectKey, id, updated);
      projects := projects.Set(id, updated);
      r := Some(updated);
    }

    // -------------------------------------------------------------------------
    // Tasks

    function GetTasks(): seq<Task> reads this`tasks {
      tasks.Values()
    }

    /** `getTasks`: every stored task once, in id order. */
    lemma TasksListed()
      requires TasksValid()
      ensures IncreasingBy(GetTasks(), TaskKey)
      ensures forall t :: t in GetTasks() <==> tasks.Get(t.id) == Some(t)
    {
      TableValues(tasks, taskIdCounter, TaskKey);
    }

    function GetTask(id: int): (r: Option<Task>)
      reads this`tasks, this`taskIdCounter
      requires TasksValid()
      ensures r.Some? ==> r.value.id == id && r.value in GetTasks()
      ensures r.None? ==> forall t :: t in GetTasks() ==> t.id != id
    {
      TableValues(tasks, taskIdCounter, TaskKey);
      tasks.Get(id)
    }

    /** The tasks of a project, in insertion order. */
    function GetTasksByProject(projectId: int): (r: seq<Task>)
      reads this`tasks, this`taskIdCounter
      requires TasksValid()
      ensures forall t :: t in r ==> t in GetTasks() && t.projectId == projectId
      ensures forall t :: t in GetTasks() && t.projectId == projectId ==> t in r
      ensures IncreasingBy(r, TaskKey)
    {
      TableValues(tasks, taskIdCounter, TaskKey);
      FilterIncreasing(GetTasks(), InProject(projectId), TaskKey);
      Filter(GetTasks(), InProject(projectId))
    }

    /** The tasks assigned to a user, in insertion order; unassigned tasks never match. */
    function GetTasksByAssignee(assigneeId: int): (r: seq<Task>)
      reads this`tasks, this`taskIdCounter
      requires TasksValid()
      ensures forall t :: t in r ==> t in GetTasks() && t.assigneeId == Some(assigneeId)
      ensures forall t :: t in GetTasks() && t.assigneeId == Some(assigneeId) ==> t in r
      ensures IncreasingBy(r, TaskKey)
    {
      TableValues(tasks, taskIdCounter, TaskKey);
      FilterIncreasing(GetTasks(), AssignedTo(assigneeId), TaskKey);
      Filter(GetTasks(), AssignedTo(assigneeId))
    }

    /** The tasks of a project whose status has the given wire name: the project's
        tasks filtered by status. A name outside the enum matches nothing. */
    function GetTasksByStatus(projectId: int, status: string): (r: seq<Task>)
      reads this`tasks, this`taskIdCounter
      requires TasksValid()
      ensures r == Filter(GetTasksByProject(projectId), HasStatusName(status))
      ensures forall t :: t in r ==> t in GetTasks() && t.projectId == projectId && StatusName(t.status) == status
      ensures ParseStatus(status).None? ==> r == []
    {
      FilterFilter(GetTasks(), InProject(projectId), HasStatusName(status),
                   InProjectWithStatus(projectId, status));
      var r := Filter(GetTasks(), InProjectWithStatus(projectId, status));
      assert ParseStatus(status).None? ==> r == [] by {
        if r != [] {
          assert r[0] in r;
          StatusRoundTrip(r[0].status);
        }
      }
      r
    }

    /** `createTask`: the next id, and `tags` filled with `[]` when absent. */
    method CreateTask(data: InsertTask) returns (t: Task)
      requires TasksValid()
      modifies this`tasks, this`taskIdCounter
      ensures TasksValid()
      ensures t == data.WithId(old(taskIdCounter))
      ensures taskIdCounter == old(taskIdCounter) + 1
      ensures GetTasks() == old(GetTasks()) + [t]
      ensures old(tasks.Get(t.id)).None? && tasks.Get(t.id) == Some(t)
    {
      var id := taskIdCounter;
      t := data.WithId(id);
      TableInsert(tasks, id, TaskKey, t);
      tasks := tasks.Set(id, t);
      taskIdCounter := id + 1;
    }

    /** `{ ...task, ...data }` stored back under the same id, in the same place. */
    method UpdateTask(id: int, data: TaskPatch) returns (r: Option<Task>)
      requires TasksValid()
      modifies this`tasks
      ensures TasksValid()
      ensures old(tasks.Get(id)).None? ==> r.None? && tasks == old(tasks)
      ensures old(tasks.Get(id)).Some? ==>
        && r == Some(MergeTask(old(tasks.Get(id)).value, data))
        && GetTasks() == ReplaceWhere(old(GetTasks()), IsKey(TaskKey, id), r.value)
        && tasks.Get(id) == r
    {
      var task := tasks.Get(id);
      if task.None? {
        return None;
      }
      var updated := MergeTask(task.value, data);
      TableReplace(tasks, taskIdCounter, TaskKey, id, updated);
      tasks := tasks.Set(id, updated);
      r := Some(updated);
    }

    /** `tasks.delete(id)`: whether the id was there; the counter is not rewound. */
    method DeleteTask(id: int) returns (existed: bool)
      requires TasksValid()
      modifies this`tasks
      ensures TasksValid()
      ensures existed == old(tasks.Get(id)).Some?
      ensures tasks.Get(id).None?
      ensures GetTasks() == Filter(old(GetTasks()), NotKey(TaskKey, id))
      ensures existed ==> id < taskIdCounter == old(taskIdCounter)
      ensures forall p :: GetTasksByProject(p) == Filter(old(GetTasksByProject(p)), NotKey(TaskKey, id))
      ensures forall a :: GetTasksByAssignee(a) == Filter(old(GetTasksByAssignee(a)), NotKey(TaskKey, id))
      ensures forall p, st :: GetTasksByStatus(p, st) == Filter(old(GetTasksByStatus(p, st)), NotKey(TaskKey, id))
    {
      ghost var before := GetTasks();
      TableRemove(tasks, taskIdCounter, TaskKey, id);
      existed := tasks.Has(id);
      tasks := tasks.Delete(id);
      forall p {
        FilterCommute(before, NotKey(TaskKey, id), InProject(p));
      }
      forall a {
        FilterCommute(before, NotKey(TaskKey, id), AssignedTo(a));
      }
      forall p, st {
        FilterCommute(before, NotKey(TaskKey, id), InProjectWithStatus(p, st));
      }
    }

    // -------------------------------------------------------------------------
    // Comments

    function GetAllComments(): seq<Comment> reads this`comments {
      comments.Values()
    }

    function GetComment(id: int): (r: Option<Comment>)
      reads this`comments, this`commentIdCounter
      requires CommentsValid()
      ensures r.Some? ==> r.value.id == id && r.value in GetAllComments()
      ensures r.None? ==> forall c :: c in GetAllComments() ==> c.id != id
    {
      TableValues(comments, commentIdCounter, CommentKey);
      comments.Get(id)
    }

    /** `createComment`: the next id, stamped with the current time `now`. */
    method CreateComment(data: InsertComment, now: int) returns (c: Comment)
      requires CommentsValid()
      modifies this`comments, this`commentIdCounter
      ensures CommentsValid()
      ensures c == data.WithId(old(commentIdCounter), now)
      ensures commentIdCounter == old(commentIdCounter) + 1
      ensures GetAllComments() == old(GetAllComments()) + [c]
      ensures old(comments.Get(c.id)).None? && comments.Get(c.id) == Some(c)
    {
      var id := commentIdCounter;
      c := data.WithId(id, now);
      TableInsert(comments, id, CommentKey, c);
      comments := comments.Set(id, c);
      commentIdCounter := id + 1;
    }

    /** The comments of a task, oldest first; comments with equal timestamps keep their
        insertion order, which is id order. */
    function GetCommentsByTask(taskId: int): (r: seq<Comment>)
      reads this`comments, this`commentIdCounter
      requires CommentsValid()
      ensures multiset(r) == multiset(Filter(GetAllComments(), OnTask(taskId)))
      ensures forall c :: c in r ==> c in GetAllComments() && c.taskId == taskId
      ensures forall c :: c in GetAllComments() && c.taskId == taskId ==> c in r
      ensures LexSorted(r, CreatedAt, CommentKey)
    {
      TableValues(comments, commentIdCounter, CommentKey);
      CommentsOfTask(GetAllComments(), taskId);
      SortBy(Filter(GetAllComments(), OnTask(taskId)), CreatedAt)
    }
  }

  function CreatedAt(c: Comment): int { c.createdAt }

  /** Sorting a task's comments, listed in id order, by timestamp keeps exactly those
      comments and puts them in timestamp order, ties in id order. */
  lemma CommentsOfTask(all: seq<Comment>, taskId: int)
    requires IncreasingBy(all, CommentKey)
    ensures var r := SortBy(Filter(all, OnTask(taskId)), CreatedAt);
      && (forall c :: c in r ==> c in all && c.taskId == taskId)
      && (forall c :: c in all && c.taskId == taskId ==> c in r)
      && LexSorted(r, CreatedAt, CommentKey)
  {
    var mine := Filter(all, OnTask(taskId));
    var r := SortBy(mine, CreatedAt);
    FilterIncreasing(all, OnTask(taskId), CommentKey);
    SortByStable(mine, CreatedAt, CommentKey);
    SameElements(r, mine);
  }

  /** In a sequence ordered by increasing key, the first match has the smallest key
      of all matches. */
  lemma FindSmallest<T>(s: seq<T>, f: T -> bool, key: T -> int)
    requires IncreasingBy(s, key)
    ensures Find(s, f).Some? ==> Find(s, f).value in s && f(Find(s, f).value)
    ensures Find(s, f).Some? ==> forall y :: y in s && f(y) ==> key(Find(s, f).value) <= key(y)
    ensures Find(s, f).None? ==> forall y :: y in s ==> !f(y)
  {
    var r := Filter(s, f);
    FilterIncreasing(s, f, key);
    if r != [] {
      assert r[0] in r;
      forall y | y in s && f(y) ensures key(r[0]) <= key(y) {
        assert y in r;
        var k :| 0 <= k < |r| && r[k] == y;
      }
    }
  }

  /** A later element never displaces the first match. */
  lemma FindAppend<T>(s: seq<T>, x: T, f: T -> bool)
    ensures Find(s + [x], f) == if Find(s, f).Some? then Find(s, f) else Find([x], f)
  {
    FilterAppend(s, [x], f);
    FilterSingleton(x, f);
  }

  /** Dropping the one element with a given key, among elements with increasing keys,
      removes exactly one element. */
  lemma {:induction false} FilterOutOne<T>(s: seq<T>, key: T -> int, x: T)
    requires IncreasingBy(s, key) && x in s
    ensures |Filter(s, NotKey(key, key(x)))| == |s| - 1
  {
    var f := NotKey(key, key(x));
    var t := s[1..];
    assert s == [s[0]] + t;
    assert Filter(s, f) == (if f(s[0]) then [s[0]] else []) + Filter(t, f);
    HeadBelowTail(s, key);
    if s[0] == x {
      FilterAll(t, f);
    } else {
      FilterOutOne(t, key, x);
    }
  }

  /** The first of a list of increasing keys is below every later key, and the rest
      of the list is increasing. */
  lemma HeadBelowTail<T>(s: seq<T>, key: T -> int)
    requires IncreasingBy(s, key) && s != []
    ensures forall y :: y in s[1..] ==> key(s[0]) < key(y)
    ensures IncreasingBy(s[1..], key)
  {
    forall y | y in s[1..] ensures key(s[0]) < key(y) {
      var k :| 0 <= k < |s[1..]| && s[1..][k] == y;
      assert s[k + 1] == y;
    }
    forall i, j | 0 <= i < j < |s[1..]| ensures key(s[1..][i]) < key(s[1..][j]) {
      assert s[1..][i] == s[i + 1] && s[1..][j] == s[j + 1];
    }
  }

  lemma SameElements<T>(a: seq<T>, b: seq<T>)
    requires multiset(a) == multiset(b)
    ensures forall x :: x in a <==> x in b
  {
    forall x ensures x in a <==> x in b {
      assert x in a <==> x in multiset(a);
      assert x in b <==> x in multiset(b);
    }
  }

}
