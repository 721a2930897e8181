/** The Express handlers under `/api`: for each, the order of its checks (validation,
    then lookups, then the write) and the status code it answers with. Users leave the
    API only as `SafeUser`, which has no password. */
module Routes {
  import opened Wrappers
  import opened Seqs
  import opened JsMap
  import opened Schema
  import opened Storage

  datatype Status = Ok | Created | NoContent | BadRequest | NotFound

  /** The outcome of a handler's checks: an error status, or the data to write. */
  datatype Verdict<T> = Reject(status: Status) | Proceed(value: T)

  // ---------------------------------------------------------------------------
  // Password stripping: `const { password, ...safeUser } = user`

  datatype SafeUser = SafeUser(id: int, username: string, email: string, name: string,
                               avatar: Option<string>)

  function StripPassword(u: User): (s: SafeUser)
    ensures WithPassword(s, u.password) == u
  {
    SafeUser(u.id, u.username, u.email, u.name, u.avatar)
  }

  /** The user a safe user was cut from, given the password that was removed. */
  function WithPassword(s: SafeUser, password: string): User {
    User(s.id, s.username, password, s.email, s.name, s.avatar)
  }

  /** Two users that differ only in their password look the same once stripped: the
      response carries nothing of the password. */
  lemma StripForgetsPassword(u: User, password: string)
    ensures StripPassword(u.(password := password)) == StripPassword(u)
    ensures forall v: User :: StripPassword(v) == StripPassword(u) ==> v == u.(password := v.password)
  {
  }

  /** `users.map(({ password, ...user }) => user)` */
  function StripAll(us: seq<User>): (r: seq<SafeUser>)
    ensures |r| == |us|
    ensures forall i :: 0 <= i < |us| ==> r[i] == StripPassword(us[i])
  {
    if us == [] then [] else [StripPassword(us[0])] + StripAll(us[1..])
  }

  // ---------------------------------------------------------------------------
  // Users

  /** GET /users */
  function GetUsersRoute(s: MemStorage): (r: seq<SafeUser>)
    reads s
    ensures |r| == |s.GetUsers()|
    ensures forall i :: 0 <= i < |r| ==> r[i] == StripPassword(s.GetUsers()[i])
  {
    StripAll(s.GetUsers())
  }

  /** GET /users/:id */
  function GetUserRoute(s: MemStorage, id: int): (r: (Status, Option<SafeUser>))
    reads s
    requires s.UsersValid()
    ensures r.0 == NotFound <==> s.GetUser(id).None?
    ensures r.0 == Ok ==> r.1 == Some(StripPassword(s.GetUser(id).value))
    ensures r.0 in {Ok, NotFound}
  {
    var user := s.GetUser(id);
    if user.None? then (NotFound, None) else (Ok, Some(StripPassword(user.value)))
  }

  // ---------------------------------------------------------------------------
  // Teams

  /** GET /teams/:id */
  function GetTeamRoute(s: MemStorage, id: int): (r: (Status, Option<Team>))
    reads s
    requires s.TeamsValid()
    ensures r.0 == NotFound <==> s.GetTeam(id).None?
    ensures r.0 == Ok ==> r.1 == s.GetTeam(id) && r.1.value.id == id
    ensures r.0 in {Ok, NotFound}
  {
    var team := s.GetTeam(id);
    if team.None? then (NotFound, None) else (Ok, team)
  }

  /** POST /teams: 400 on an invalid body, else 201 with the new team. */
  method PostTeam(s: MemStorage, body: TeamBody) returns (status: Status, team: Option<Team>)
    requires s.Valid()
    modifies s`teams, s`teamIdCounter
    ensures s.Valid()
    ensures ParseInsertTeam(body).None? ==> status == BadRequest && team.None? && unchanged(s)
    ensures ParseInsertTeam(body).Some? ==>
      && status == Created
      && team == Some(ParseInsertTeam(body).value.WithId(old(s.teamIdCounter)))
      && s.teamIdCounter == old(s.teamIdCounter) + 1
      && s.GetTeams() == old(s.GetTeams()) + [team.value]
  {
    var data := ParseInsertTeam(body);
    if data.None? {
      return BadRequest, None;
    }
    var t := s.CreateTeam(data.value);
    return Created, Some(t);
  }

  // ---------------------------------------------------------------------------
  // Team members

  datatype MemberWithUser = MemberWithUser(member: TeamMember, user: SafeUser)

  /** Whether a row's user still exists. */
  function HasMemberUser(users: OrderedMap<User>): TeamMember -> bool {
    (m: TeamMember) => users.Has(m.userId)
  }

  function Members(r: seq<MemberWithUser>): seq<TeamMember> {
    if r == [] then [] else [r[0].member] + Members(r[1..])
  }

  /** Each membership joined with its user, password stripped; memberships whose user
      no longer exists are dropped (`filter(Boolean)`), the rest keep their order. */
  function JoinMembers(ms: seq<TeamMember>, users: OrderedMap<User>): (r: seq<MemberWithUser>)
    ensures Members(r) == Filter(ms, HasMemberUser(users))
    ensures forall x :: x in r ==>
      users.Get(x.member.userId).Some? && x.user == StripPassword(users.Get(x.member.userId).value)
  {
    if ms == [] then []
    else
      var rest := JoinMembers(ms[1..], users);
      var user := users.Get(ms[0].userId);
      assert Filter(ms, HasMemberUser(users))
          == Filter([ms[0]], HasMemberUser(users)) + Filter(ms[1..], HasMemberUser(users)) by {
        FilterAppend([ms[0]], ms[1..], HasMemberUser(users));
        assert ms == [ms[0]] + ms[1..];
      }
      FilterSingleton(ms[0], HasMemberUser(users));
      if user.None? then rest
      else
        var r := [MemberWithUser(ms[0], StripPassword(user.value))] + rest;
        assert r[1..] == rest;
        r
  }

  /** GET /teams/:id/members: 404 when the team is missing. */
  function GetTeamMembersRoute(s: MemStorage, teamId: int): (r: (Status, seq<MemberWithUser>))
    reads s
    requires s.Valid()
    ensures r.0 == NotFound <==> s.GetTeam(teamId).None?
    ensures r.0 == NotFound ==> r.1 == []
    ensures r.0 == Ok ==> Members(r.1) == Filter(s.GetTeamMembers(teamId), HasMemberUser(s.users))
    ensures forall x :: x in r.1 ==> x.member.teamId == teamId && s.GetUser(x.member.userId).Some?
    ensures forall x :: x in r.1 ==> x.user == StripPassword(s.GetUser(x.member.userId).value)
  {
    if s.GetTeam(teamId).None? then (NotFound, [])
    else
      var r := JoinMembers(s.GetTeamMembers(teamId), s.users);
      forall x | x in r ensures x.member.teamId == teamId {
        MembersOf(r, x);
      }
      (Ok, r)
  }

  lemma {:induction false} MembersOf(r: seq<MemberWithUser>, x: MemberWithUser)
    requires x in r
    ensures x.member in Members(r)
  {
    if r[0] != x {
      MembersOf(r[1..], x);
    }
  }

  /** POST /teams/:id/members: the team is looked up BEFORE the body is validated;
      the path's team id overrides any in the body. */
  function AddMemberVerdict(s: MemStorage, teamId: int, body: TeamMemberBody): (r: Verdict<InsertTeamMember>)
    reads s
    requires s.Valid()
    ensures s.GetTeam(teamId).None? ==> r == Reject(NotFound)
    ensures r == Reject(BadRequest) <==>
      s.GetTeam(teamId).Some? && ParseInsertTeamMember(body.(teamId := Value(teamId))).None?
    ensures r == Reject(NotFound) <==>
      || s.GetTeam(teamId).None?
      || (&& ParseInsertTeamMember(body.(teamId := Value(teamId))).Some?
          && s.GetUser(ParseInsertTeamMember(body.(teamId := Value(teamId))).value.userId).None?)
    ensures r.Proceed? <==>
      && s.GetTeam(teamId).Some?
      && ParseInsertTeamMember(body.(teamId := Value(teamId))).Some?
      && s.GetUser(ParseInsertTeamMember(body.(teamId := Value(teamId))).value.userId).Some?
    ensures r.Proceed? ==>
      && r == Proceed(ParseInsertTeamMember(body.(teamId := Value(teamId))).value)
      && MemberBodyCarries(body.(teamId := Value(teamId)), r.value)
      && r.value.teamId == teamId
    ensures r.Reject? ==> r.status in {BadRequest, NotFound}
  {
    if s.GetTeam(teamId).None? then Reject(NotFound)
    else
      var data := ParseInsertTeamMember(body.(teamId := Value(teamId)));
      if data.None? then Reject(BadRequest)
      else if s.GetUser(data.value.userId).None? then Reject(NotFound)
      else Proceed(data.value)
  }

  method PostTeamMember(s: MemStorage, teamId: int, body: TeamMemberBody)
    returns (status: Status, member: Option<TeamMember>)
    requires s.Valid()
    modifies s`teamMembers, s`teamMemberIdCounter
    ensures s.Valid()
    ensures old(AddMemberVerdict(s, teamId, body)).Reject? ==>
      status == old(AddMemberVerdict(s, teamId, body)).status && member.None? && unchanged(s)
    ensures old(AddMemberVerdict(s, teamId, body)).Proceed? ==>
      && status == Created
      && member == Some(old(AddMemberVerdict(s, teamId, body)).value.WithId(old(s.teamMemberIdCounter)))
      && s.teamMemberIdCounter == old(s.teamMemberIdCounter) + 1
      && s.GetAllTeamMembers() == old(s.GetAllTeamMembers()) + [member.value]
  {
    var verdict := AddMemberVerdict(s, teamId, body);
    if verdict.Reject? {
      return verdict.status, None;
    }
    var m := s.AddTeamMember(verdict.value);
    return Created, Some(m);
  }

  // ---------------------------------------------------------------------------
  // Projects

  /** GET /projects: a truthy `teamId` query parameter selects that team's projects. */
  function GetProjectsRoute(s: MemStorage, teamId: Option<int>): (r: seq<Project>)
    reads s
    requires s.ProjectsValid()
    ensures Truthy(teamId) ==> r == s.GetProjectsByTeam(teamId.value)
    ensures !Truthy(teamId) ==> r == s.GetProjects()
    ensures forall p :: p in r ==> p in s.GetProjects()
  {
    if Truthy(teamId) then s.GetProjectsByTeam(teamId.value) else s.GetProjects()
  }

  /** GET /projects/:id */
  function GetProjectRoute(s: MemStorage, id: int): (r: (Status, Option<Project>))
    reads s
    requires s.ProjectsValid()
    ensures r.0 == NotFound <==> s.GetProject(id).None?
    ensures r.0 == Ok ==> r.1 == s.GetProject(id) && r.1.value.id == id
    ensures r.0 in {Ok, NotFound}
  {
    var p := s.GetProject(id);
    if p.None? then (NotFound, None) else (Ok, p)
  }

  /** POST /projects: 400, then 404 when the team is missing. */
  function CreateProjectVerdict(s: MemStorage, body: ProjectBody): (r: Verdict<InsertProject>)
    reads s
    requires s.Valid()
    ensures r == Reject(BadRequest) <==> ParseInsertProject(body).None?
    ensures r == Reject(NotFound) <==>
      ParseInsertProject(body).Some? && s.GetTeam(ParseInsertProject(body).value.teamId).None?
    ensures r.Proceed? <==>
      ParseInsertProject(body).Some? && s.GetTeam(ParseInsertProject(body).value.teamId).Some?
    ensures r.Proceed? ==> r == Proceed(ParseInsertProject(body).value) && ProjectBodyCarries(body, r.value)
    ensures r.Reject? ==> r.status in {BadRequest, NotFound}
  {
    var data := ParseInsertProject(body);
    if data.None? then Reject(BadRequest)
    else if s.GetTeam(data.value.teamId).None? then Reject(NotFound)
    else Proceed(data.value)
  }

  method PostProject(s: MemStorage, body: ProjectBody) returns (status: Status, project: Option<Project>)
    requires s.Valid()
    modifies s`projects, s`projectIdCounter
    ensures s.Valid()
    ensures old(CreateProjectVerdict(s, body)).Reject? ==>
      status == old(CreateProjectVerdict(s, body)).status && project.None? && unchanged(s)
    ensures old(CreateProjectVerdict(s, body)).Proceed? ==>
      && status == Created
      && project == Some(old(CreateProjectVerdict(s, body)).value.WithId(old(s.projectIdCounter)))
      && s.projectIdCounter == old(s.projectIdCounter) + 1
      && s.GetProjects() == old(s.GetProjects()) + [project.value]
  {
    var verdict := CreateProjectVerdict(s, body);
    if verdict.Reject? {
      return verdict.status, None;
    }
    var p := s.CreateProject(verdict.value);
    return Created, Some(p);
  }

  /** PATCH /projects/:id: 404 for a missing project before validation, then 400,
      then 404 when a truthy new `teamId` names a missing team. */
  function UpdateProjectVerdict(s: MemStorage, id: int, body: ProjectBody): (r: Verdict<ProjectPatch>)
    reads s
    requires s.Valid()
    ensures s.GetProject(id).None? ==> r == Reject(NotFound)
    ensures r == Reject(BadRequest) <==> s.GetProject(id).Some? && ParseProjectPatch(body).None?
    ensures r == Reject(NotFound) <==>
      || s.GetProject(id).None?
      || (&& ParseProjectPatch(body).Some?
          && NamesMissingTeam(s, ParseProjectPatch(body).value.teamId))
    ensures r.Proceed? <==>
      && s.GetProject(id).Some?
      && ParseProjectPatch(body).Some?
      && !NamesMissingTeam(s, ParseProjectPatch(body).value.teamId)
    ensures r.Proceed? ==> r == Proceed(ParseProjectPatch(body).value) && ProjectPatchCarries(body, r.value)
    ensures r.Reject? ==> r.status in {BadRequest, NotFound}
  {
    if s.GetProject(id).None? then Reject(NotFound)
    else
      var data := ParseProjectPatch(body);
      if data.None? then Reject(BadRequest)
      else if NamesMissingTeam(s, data.value.teamId) then Reject(NotFound)
      else Proceed(data.value)
  }

  /** `if (validatedData.teamId)`: a truthy new team id that no team has. */
  predicate NamesMissingTeam(s: MemStorage, teamId: Update<int>)
    reads s
    requires s.TeamsValid()
  {
    teamId.Put? && teamId.value != 0 && s.GetTeam(teamId.value).None?
  }

  method PatchProject(s: MemStorage, id: int, body: ProjectBody)
    returns (status: Status, project: Option<Project>)
    requires s.Valid()
    modifies s`projects
    ensures s.Valid()
    ensures old(UpdateProjectVerdict(s, id, body)).Reject? ==>
      status == old(UpdateProjectVerdict(s, id, body)).status && project.None? && unchanged(s)
    ensures old(UpdateProjectVerdict(s, id, body)).Proceed? ==>
      && status == Ok
      && project == Some(MergeProject(old(s.GetProject(id)).value, old(UpdateProjectVerdict(s, id, body)).value))
      && s.GetProjects() == ReplaceWhere(old(s.GetProjects()), IsKey(ProjectKey, id), project.value)
  {
    var verdict := UpdateProjectVerdict(s, id, body);
    if verdict.Reject? {
      return verdict.status, None;
    }
    project := s.UpdateProject(id, verdict.value);
    status := Ok;
  }

  // ---------------------------------------------------------------------------
  // Tasks

  /** Which store query GET /tasks runs. */
  datatype TaskFilter = ByProject(projectId: int) | ByAssignee(assigneeId: int) | AllTasks

  /** A truthy `projectId` wins over a truthy `assigneeId`; with neither, all tasks. */
  function TaskFilterOf(projectId: Option<int>, assigneeId: Option<int>): (f: TaskFilter)
    ensures Truthy(projectId) ==> f == ByProject(projectId.value)
    ensures !Truthy(projectId) && Truthy(assigneeId) ==> f == ByAssignee(assigneeId.value)
    ensures f == AllTasks <==> !Truthy(projectId) && !Truthy(assigneeId)
  {
    if Truthy(projectId) then ByProject(projectId.value)
    else if Truthy(assigneeId) then ByAssignee(assigneeId.value)
    else AllTasks
  }

  function RunTaskFilter(s: MemStorage, f: TaskFilter): (r: seq<Task>)
    reads s
    requires s.TasksValid()
  {
    match f
    case ByProject(p) => s.GetTasksByProject(p)
    case ByAssignee(a) => s.GetTasksByAssignee(a)
    case AllTasks => s.GetTasks()
  }

  /** GET /tasks */
  function GetTasksRoute(s: MemStorage, projectId: Option<int>, assigneeId: Option<int>): (r: seq<Task>)
    reads s
    requires s.TasksValid()
    ensures Truthy(projectId) ==> forall t :: t in r <==> t in s.GetTasks() && t.projectId == projectId.value
    ensures !Truthy(projectId) && Truthy(assigneeId) ==>
      forall t :: t in r <==> t in s.GetTasks() && t.assigneeId == assigneeId
    ensures !Truthy(projectId) && !Truthy(assigneeId) ==> r == s.GetTasks()
    ensures Truthy(projectId) ==> r == s.GetTasksByProject(projectId.value)
    ensures !Truthy(projectId) && Truthy(assigneeId) ==> r == s.GetTasksByAssignee(assigneeId.value)
  {
    RunTaskFilter(s, TaskFilterOf(projectId, assigneeId))
  }

  /** GET /tasks/:id */
  function GetTaskRoute(s: MemStorage, id: int): (r: (Status, Option<Task>))
    reads s
    requires s.TasksValid()
    ensures r.0 == NotFound <==> s.GetTask(id).None?
    ensures r.0 == Ok ==> r.1 == s.GetTask(id) && r.1.value.id == id
    ensures r.0 in {Ok, NotFound}
  {
    var t := s.GetTask(id);
    if t.None? then (NotFound, None) else (Ok, t)
  }

  /** POST /tasks: 400; then 404 for a missing project; then, only when `assigneeId` is
      truthy, 404 for a missing assignee; then 404 for a missing creator. */
  function CreateTaskVerdict(s: MemStorage, body: TaskBody): (r: Verdict<InsertTask>)
    reads s
    requires s.Valid()
    ensures r == Reject(BadRequest) <==> ParseInsertTask(body).None?
    ensures r.Proceed? <==>
      && ParseInsertTask(body).Some?
      && s.GetProject(ParseInsertTask(body).value.projectId).Some?
      && (Truthy(ParseInsertTask(body).value.assigneeId) ==>
            s.GetUser(ParseInsertTask(body).value.assigneeId.value).Some?)
      && s.GetUser(ParseInsertTask(body).value.creatorId).Some?
    ensures r.Proceed? ==> r == Proceed(ParseInsertTask(body).value)
    ensures r.Reject? ==> r.status in {BadRequest, NotFound}
  {
    var data := ParseInsertTask(body);
    if data.None? then Reject(BadRequest)
    else
      var t := data.value;
      if s.GetProject(t.projectId).None? then Reject(NotFound)
      else if Truthy(t.assigneeId) && s.GetUser(t.assigneeId.value).None? then Reject(NotFound)
      else if s.GetUser(t.creatorId).None? then Reject(NotFound)
      else Proceed(t)
  }

  /** An assignee of `null` or `0` is never looked up: whether any user has that id
      does not matter. */
  lemma FalsyAssigneeNotChecked(s: MemStorage, body: TaskBody)
    requires s.Valid()
    requires ParseInsertTask(body).Some? && !Truthy(ParseInsertTask(body).value.assigneeId)
    requires s.GetProject(ParseInsertTask(body).value.projectId).Some?
    requires s.GetUser(ParseInsertTask(body).value.creatorId).Some?
    ensures CreateTaskVerdict(s, body) == Proceed(ParseInsertTask(body).value)
  {
  }

  method PostTask(s: MemStorage, body: TaskBody) returns (status: Status, task: Option<Task>)
    requires s.Valid()
    modifies s`tasks, s`taskIdCounter
    ensures s.Valid()
    ensures old(CreateTaskVerdict(s, body)).Reject? ==>
      status == old(CreateTaskVerdict(s, body)).status && task.None? && unchanged(s)
    ensures old(CreateTaskVerdict(s, body)).Proceed? ==>
      && status == Created
      && task == Some(old(CreateTaskVerdict(s, body)).value.WithId(old(s.taskIdCounter)))
      && s.taskIdCounter == old(s.taskIdCounter) + 1
      && s.GetTasks() == old(s.GetTasks()) + [task.value]
  {
    var verdict := CreateTaskVerdict(s, body);
    if verdict.Reject? {
      return verdict.status, None;
    }
    var t := s.CreateTask(verdict.value);
    return Created, Some(t);
  }

  /** PATCH /tasks/:id: 404 for a missing task BEFORE validation; then 400; then 404
      when a truthy `projectId` names a missing project or a truthy `assigneeId` a
      missing user. */
  function UpdateTaskVerdict(s: MemStorage, id: int, body: TaskBody): (r: Verdict<TaskPatch>)
    reads s
    requires s.Valid()
    ensures s.GetTask(id).None? ==> r == Reject(NotFound)
    ensures r == Reject(BadRequest) <==> s.GetTask(id).Some? && ParseTaskPatch(body).None?
    ensures r == Reject(NotFound) <==>
      || s.GetTask(id).None?
      || (ParseTaskPatch(body).Some? && PatchNamesMissing(s, ParseTaskPatch(body).value))
    ensures r.Proceed? <==>
      && s.GetTask(id).Some?
      && ParseTaskPatch(body).Some?
      && !PatchNamesMissing(s, ParseTaskPatch(body).value)
    ensures r.Proceed? ==> r == Proceed(ParseTaskPatch(body).value) && r.value.creatorId.Keep?
    ensures r.Reject? ==> r.status in {BadRequest, NotFound}
  {
    if s.GetTask(id).None? then Reject(NotFound)
    else
      var data := ParseTaskPatch(body);
      if data.None? then Reject(BadRequest)
      else if PatchNamesMissing(s, data.value) then Reject(NotFound)
      else Proceed(data.value)
  }

  /** `if (validatedData.projectId)` a project that does not exist, or
      `if (validatedData.assigneeId)` a user that does not exist. */
  predicate PatchNamesMissing(s: MemStorage, d: TaskPatch)
    reads s
    requires s.Valid()
  {
    || (d.projectId.Put? && d.projectId.value != 0 && s.GetProject(d.projectId.value).None?)
    || (d.assigneeId.Put? && Truthy(d.assigneeId.value) && s.GetUser(d.assigneeId.value.value).None?)
  }

  method PatchTask(s: MemStorage, id: int, body: TaskBody) returns (status: Status, task: Option<Task>)
    requires s.Valid()
    modifies s`tasks
    ensures s.Valid()
    ensures old(UpdateTaskVerdict(s, id, body)).Reject? ==>
      status == old(UpdateTaskVerdict(s, id, body)).status && task.None? && unchanged(s)
    ensures old(UpdateTaskVerdict(s, id, body)).Proceed? ==>
      && status == Ok
      && task == Some(MergeTask(old(s.GetTask(id)).value, old(UpdateTaskVerdict(s, id, body)).value))
      && task.value.creatorId == old(s.GetTask(id)).value.creatorId
      && s.GetTasks() == ReplaceWhere(old(s.GetTasks()), IsKey(TaskKey, id), task.value)
  {
    var verdict := UpdateTaskVerdict(s, id, body);
    if verdict.Reject? {
      return verdict.status, None;
    }
    task := s.UpdateTask(id, verdict.value);
    status := Ok;
  }

  /** DELETE /tasks/:id: 404 for a missing task, else the task is deleted and 204. */
  method DeleteTaskRoute(s: MemStorage, id: int) returns (status: Status)
    requires s.Valid()
    modifies s`tasks
    ensures s.Valid()
    ensures old(s.GetTask(id)).None? ==> status == NotFound && unchanged(s)
    ensures old(s.GetTask(id)).Some? ==>
      && status == NoContent
      && s.GetTask(id).None?
      && s.GetTasks() == Filter(old(s.GetTasks()), NotKey(TaskKey, id))
      && |s.GetTasks()| == |old(s.GetTasks())| - 1
  {
    if s.GetTask(id).None? {
      return NotFound;
    }
    TableValues(s.tasks, s.taskIdCounter, TaskKey);
    FilterOutOne(s.GetTasks(), TaskKey, s.GetTask(id).value);
    var _ := s.DeleteTask(id);
    status := NoContent;
  }

  // ---------------------------------------------------------------------------
  // Comments

  datatype CommentWithUser = CommentWithUser(comment: Comment, user: SafeUser)

  function HasCommentUser(users: OrderedMap<User>): Comment -> bool {
    (c: Comment) => users.Has(c.userId)
  }

  function CommentsOf(r: seq<CommentWithUser>): seq<Comment> {
    if r == [] then [] else [r[0].comment] + CommentsOf(r[1..])
  }

  /** Each comment joined with its author, password stripped; comments whose author no
      longer exists are dropped, the rest keep their order. */
  function JoinAuthors(cs: seq<Comment>, users: OrderedMap<User>): (r: seq<CommentWithUser>)
    ensures CommentsOf(r) == Filter(cs, HasCommentUser(users))
    ensures forall x :: x in r ==>
      users.Get(x.comment.userId).Some? && x.user == StripPassword(users.Get(x.comment.userId).value)
  {
    if cs == [] then []
    else
      var rest := JoinAuthors(cs[1..], users);
      var user := users.Get(cs[0].userId);
      assert Filter(cs, HasCommentUser(users))
          == Filter([cs[0]], HasCommentUser(users)) + Filter(cs[1..], HasCommentUser(users)) by {
        FilterAppend([cs[0]], cs[1..], HasCommentUser(users));
        assert cs == [cs[0]] + cs[1..];
      }
      FilterSingleton(cs[0], HasCommentUser(users));
      if user.None? then rest
      else
        var r := [CommentWithUser(cs[0], StripPassword(user.value))] + rest;
        assert r[1..] == rest;
        r
  }

  /** GET /tasks/:taskId/comments: 404 for a missing task; otherwise the task's
      comments in storage order, each with its author. */
  function GetCommentsRoute(s: MemStorage, taskId: int): (r: (Status, seq<CommentWithUser>))
    reads s
    requires s.Valid()
    ensures r.0 == NotFound <==> s.GetTask(taskId).None?
    ensures r.0 == NotFound ==> r.1 == []
    ensures r.0 == Ok ==> CommentsOf(r.1) == Filter(s.GetCommentsByTask(taskId), HasCommentUser(s.users))
    ensures forall x :: x in r.1 ==>
      s.GetUser(x.comment.userId).Some? && x.user == StripPassword(s.GetUser(x.comment.userId).value)
  {
    if s.GetTask(taskId).None? then (NotFound, [])
    else (Ok, JoinAuthors(s.GetCommentsByTask(taskId), s.users))
  }

  /** POST /tasks/:taskId/comments: 404 for a missing task BEFORE validation; the
      path's task id overrides any in the body; then 400; then 404 for a missing user. */
  function CreateCommentVerdict(s: MemStorage, taskId: int, body: CommentBody): (r: Verdict<InsertComment>)
    reads s
    requires s.Valid()
    ensures s.GetTask(taskId).None? ==> r == Reject(NotFound)
    ensures r == Reject(BadRequest) <==>
      s.GetTask(taskId).Some? && ParseInsertComment(body.(taskId := Value(taskId))).None?
    ensures r == Reject(NotFound) <==>
      || s.GetTask(taskId).None?
      || (&& ParseInsertComment(body.(taskId := Value(taskId))).Some?
          && s.GetUser(ParseInsertComment(body.(taskId := Value(taskId))).value.userId).None?)
    ensures r.Proceed? <==>
      && s.GetTask(taskId).Some?
      && ParseInsertComment(body.(taskId := Value(taskId))).Some?
      && s.GetUser(ParseInsertComment(body.(taskId := Value(taskId))).value.userId).Some?
    ensures r.Proceed? ==>
      && r == Proceed(ParseInsertComment(body.(taskId := Value(taskId))).value)
      && CommentBodyCarries(body.(taskId := Value(taskId)), r.value)
      && r.value.taskId == taskId
    ensures r.Reject? ==> r.status in {BadRequest, NotFound}
  {
    if s.GetTask(taskId).None? then Reject(NotFound)
    else
      var data := ParseInsertComment(body.(taskId := Value(taskId)));
      if data.None? then Reject(BadRequest)
      else if s.GetUser(data.value.userId).None? then Reject(NotFound)
      else Proceed(data.value)
  }

  /** The new comment, stamped with `now`, answered together with its author. */
  method PostComment(s: MemStorage, taskId: int, body: CommentBody, now: int)
    returns (status: Status, created: Option<CommentWithUser>)
    requires s.Valid()
    modifies s`comments, s`commentIdCounter
    ensures s.Valid()
    ensures old(CreateCommentVerdict(s, taskId, body)).Reject? ==>
      status == old(CreateCommentVerdict(s, taskId, body)).status && created.None? && unchanged(s)
    ensures old(CreateCommentVerdict(s, taskId, body)).Proceed? ==>
      && status == Created
      && created.Some?
      && created.value.comment
           == old(CreateCommentVerdict(s, taskId, body)).value.WithId(old(s.commentIdCounter), now)
      && old(s.GetUser(created.value.comment.userId)).Some?
      && created.value.user == StripPassword(old(s.GetUser(created.value.comment.userId)).value)
      && s.GetAllComments() == old(s.GetAllComments()) + [created.value.comment]
      && s.commentIdCounter == old(s.commentIdCounter) + 1
  {
    var verdict := CreateCommentVerdict(s, taskId, body);
    if verdict.Reject? {
      return verdict.status, None;
    }
    var user := s.GetUser(verdict.value.userId).value;
    var c := s.CreateComment(verdict.value, now);
    return Created, Some(CommentWithUser(c, StripPassword(user)));
  }

  // ---------------------------------------------------------------------------
  // GET /stats

  datatype StatsResponse = StatsResponse(totalProjects: nat, inProgress: nat, completed: nat, overdue: nat)

  function HasStatus(st: TaskStatus): Task -> bool { (t: Task) => t.status == st }

  /** `task.status !== "done" && task.dueDate && new Date(task.dueDate) < now` */
  function Overdue(now: int): Task -> bool {
    (t: Task) => t.status != Done && t.dueDate.Some? && t.dueDate.value < now
  }

  /** The dashboard counts. A task is never both completed and overdue, nor both
      completed and in progress. */
  function Stats(projects: seq<Project>, tasks: seq<Task>, now: int): (r: StatsResponse)
    ensures r.totalProjects == |projects|
    ensures r.inProgress == |Filter(tasks, HasStatus(InProgress))|
    ensures r.completed == |Filter(tasks, HasStatus(Done))|
    ensures r.overdue == |Filter(tasks, Overdue(now))|
    ensures r.completed + r.overdue <= |tasks|
    ensures r.completed + r.inProgress <= |tasks|
    ensures r.overdue <= |tasks| - r.completed
  {
    CountDisjoint(tasks, HasStatus(Done), Overdue(now));
    CountDisjoint(tasks, HasStatus(Done), HasStatus(InProgress));
    StatsResponse(|projects|, Count(tasks, HasStatus(InProgress)), Count(tasks, HasStatus(Done)),
                  Count(tasks, Overdue(now)))
  }

  function GetStatsRoute(s: MemStorage, now: int): (r: StatsResponse)
    reads s
    ensures r.totalProjects == |s.GetProjects()|
    ensures r.inProgress == |Filter(s.GetTasks(), HasStatus(InProgress))|
    ensures r.completed == |Filter(s.GetTasks(), HasStatus(Done))|
    ensures r.overdue == |Filter(s.GetTasks(), Overdue(now))|
    ensures r.completed + r.overdue <= |s.GetTasks()|
  {
    Stats(s.GetProjects(), s.GetTasks(), now)
  }
}
