/** The shared domain types: the six tables, the task status and priority enums, the
    insert records the validators produce, the JSON request bodies they read, and the
    column defaults. Timestamps are integers (milliseconds); ids are integers. */
module Schema {
  import opened Wrappers

  // ---------------------------------------------------------------------------
  // Enums

  datatype TaskStatus = Todo | InProgress | Review | Done
  datatype TaskPriority = Low | Medium | High | Urgent

  /** The wire name of a status. */
  function StatusName(s: TaskStatus): string {
    match s
    case Todo => "todo"
    case InProgress => "in_progress"
    case Review => "review"
    case Done => "done"
  }

  /** `taskStatusEnum.safeParse(x)`: exactly the four wire names are accepted. */
  function ParseStatus(x: string): (r: Option<TaskStatus>)
    ensures r.Some? <==> x in {"todo", "in_progress", "review", "done"}
    ensures r.Some? ==> StatusName(r.value) == x
  {
    if x == "todo" then Some(Todo)
    else if x == "in_progress" then Some(InProgress)
    else if x == "review" then Some(Review)
    else if x == "done" then Some(Done)
    else None
  }

  /** The wire name of a priority. */
  function PriorityName(p: TaskPriority): string {
    match p
    case Low => "low"
    case Medium => "medium"
    case High => "high"
    case Urgent => "urgent"
  }

  /** `taskPriorityEnum.safeParse(x)`: exactly the four wire names are accepted. */
  function ParsePriority(x: string): (r: Option<TaskPriority>)
    ensures r.Some? <==> x in {"low", "medium", "high", "urgent"}
    ensures r.Some? ==> PriorityName(r.value) == x
  {
    if x == "low" then Some(Low)
    else if x == "medium" then Some(Medium)
    else if x == "high" then Some(High)
    else if x == "urgent" then Some(Urgent)
    else None
  }

  /** Every status survives a trip through its wire name, so distinct statuses have
      distinct names. */
  lemma StatusRoundTrip(s: TaskStatus)
    ensures ParseStatus(StatusName(s)) == Some(s)
    ensures forall t: TaskStatus :: StatusName(t) == StatusName(s) ==> t == s
  {
  }

  /** Every priority survives a trip through its wire name. */
  lemma PriorityRoundTrip(p: TaskPriority)
    ensures ParsePriority(PriorityName(p)) == Some(p)
    ensures forall q: TaskPriority :: PriorityName(q) == PriorityName(p) ==> q == p
  {
  }

  // ---------------------------------------------------------------------------
  // Rows. A nullable column, or one MemStorage may leave unset, is an `Option`.

  datatype User = User(id: int, username: string, password: string, email: string,
                       name: string, avatar: Option<string>)

  datatype Team = Team(id: int, name: string, description: Option<string>)

  datatype TeamMember = TeamMember(id: int, teamId: int, userId: int, role: Option<string>)

  datatype Project = Project(id: int, name: string, description: Option<string>, teamId: int,
                             status: Option<string>, color: Option<string>)

  datatype Task = Task(id: int, title: string, description: Option<string>, projectId: int,
                       status: TaskStatus, priority: TaskPriority, assigneeId: Option<int>,
                       creatorId: int, dueDate: Option<int>, tags: seq<string>,
                       progress: Option<int>)

  datatype Comment = Comment(id: int, taskId: int, userId: int, content: string, createdAt: int)

  // ---------------------------------------------------------------------------
  // Insert records: a row without its `id` (and a comment also without `createdAt`).

  datatype InsertUser = InsertUser(username: string, password: string, email: string,
                                   name: string, avatar: Option<string>)
  {
    /** `{ ...data, id }` */
    function WithId(id: int): (u: User)
      ensures u.id == id && Of(u) == this
    {
      User(id, username, password, email, name, avatar)
    }

    /** The insert record a row was made from. */
    static function Of(u: User): InsertUser {
      InsertUser(u.username, u.password, u.email, u.name, u.avatar)
    }
  }

  datatype InsertTeam = InsertTeam(name: string, description: Option<string>)
  {
    function WithId(id: int): (t: Team)
      ensures t.id == id && Of(t) == this
    {
      Team(id, name, description)
    }

    static function Of(t: Team): InsertTeam {
      InsertTeam(t.name, t.description)
    }
  }

  datatype InsertTeamMember = InsertTeamMember(teamId: int, userId: int, role: Option<string>)
  {
    function WithId(id: int): (m: TeamMember)
      ensures m.id == id && Of(m) == this
    {
      TeamMember(id, teamId, userId, role)
    }

    static function Of(m: TeamMember): InsertTeamMember {
      InsertTeamMember(m.teamId, m.userId, m.role)
    }
  }

  datatype InsertProject = InsertProject(name: string, description: Option<string>, teamId: int,
                                         status: Option<string>, color: Option<string>)
  {
    function WithId(id: int): (p: Project)
      ensures p.id == id && Of(p) == this
    {
      Project(id, name, description, teamId, status, color)
    }

    static function Of(p: Project): InsertProject {
      InsertProject(p.name, p.description, p.teamId, p.status, p.color)
    }
  }

  /** The task insert record; `tags` may be absent, every other optional column is
      nullable. */
  datatype InsertTask = InsertTask(title: string, description: Option<string>, projectId: int,
                                   status: TaskStatus, priority: TaskPriority,
                                   assigneeId: Option<int>, creatorId: int,
                                   dueDate: Option<int>, tags: Option<seq<string>>,
                                   progress: Option<int>)
  {
    /** `{ ...data, id, tags: data.tags || [] }`: an absent tag list becomes `[]`. */
    function WithId(id: int): (t: Task)
      ensures t.id == id && Of(t) == this.(tags := Some(tags.GetOr([])))
      ensures tags.None? ==> t.tags == []
      ensures tags.Some? ==> Of(t) == this
    {
      Task(id, title, description, projectId, status, priority, assigneeId, creatorId,
           dueDate, tags.GetOr([]), progress)
    }

    static function Of(t: Task): InsertTask {
      InsertTask(t.title, t.description, t.projectId, t.status, t.priority, t.assigneeId,
                 t.creatorId, t.dueDate, Some(t.tags), t.progress)
    }
  }

  datatype InsertComment = InsertComment(taskId: int, userId: int, content: string)
  {
    /** `{ ...data, id, createdAt: now }` */
    function WithId(id: int, now: int): (c: Comment)
      ensures c.id == id && c.createdAt == now && Of(c) == this
    {
      Comment(id, taskId, userId, content, now)
    }

    static function Of(c: Comment): InsertComment {
      InsertComment(c.taskId, c.userId, c.content)
    }
  }

  // ---------------------------------------------------------------------------
  // Column defaults. MemStorage does not apply them; a database row would.

  const DefaultRole := "member"
  const DefaultProjectStatus := "active"
  const DefaultProjectColor := "#3949AB"
  const DefaultTaskProgress := 0

  /** The value a column with a default takes: the supplied one, else the default. */
  function WithDefault<T>(supplied: Option<T>, default: T): (r: Option<T>)
    ensures r.Some?
    ensures supplied.Some? ==> r == supplied
    ensures supplied.None? ==> r == Some(default)
  {
    Some(supplied.GetOr(default))
  }

  /** A project as the `projects` table stores it: status and colour always set. */
  function ProjectRow(p: InsertProject): (r: InsertProject)
    ensures r.status.Some? && r.color.Some?
    ensures r.name == p.name && r.description == p.description && r.teamId == p.teamId
    ensures p.status.None? ==> r.status == Some(DefaultProjectStatus)
    ensures p.color.None? ==> r.color == Some(DefaultProjectColor)
    ensures p.status.Some? && p.color.Some? ==> r == p
  {
    p.(status := WithDefault(p.status, DefaultProjectStatus),
       color := WithDefault(p.color, DefaultProjectColor))
  }

  /** A membership as the `team_members` table stores it: the role is always set. */
  function MemberRow(m: InsertTeamMember): (r: InsertTeamMember)
    ensures r.role.Some? && r.teamId == m.teamId && r.userId == m.userId
    ensures m.role.None? ==> r.role == Some(DefaultRole)
    ensures m.role.Some? ==> r == m
  {
    m.(role := WithDefault(m.role, DefaultRole))
  }

  /** A task as the `tasks` table stores it: tags and progress always set. The `todo`
      and `medium` defaults of the status and priority columns never apply, because
      the insert schema requires both fields. */
  function TaskRow(t: InsertTask): (r: InsertTask)
    ensures r.tags.Some? && r.progress.Some?
    ensures r.(tags := t.tags, progress := t.progress) == t
    ensures t.tags.None? ==> r.tags == Some([])
    ensures t.progress.None? ==> r.progress == Some(DefaultTaskProgress)
    ensures t.tags.Some? && t.progress.Some? ==> r == t
  {
    t.(tags := WithDefault(t.tags, []), progress := WithDefault(t.progress, DefaultTaskProgress))
  }

  /** `createTask` fills the tags default but not the progress default: the stored task
      is the table's row except that a missing progress stays missing. */
  lemma StoredTaskRow(t: InsertTask, id: int)
    ensures t.WithId(id) == TaskRow(t).WithId(id).(progress := t.progress)
    ensures t.progress.None? ==> t.WithId(id).progress.None? && TaskRow(t).WithId(id).progress == Some(0)
  {
  }

  // ---------------------------------------------------------------------------
  // JSON request bodies. A field is missing, `null`, or a value of its type.

  datatype Field<T> = Absent | Null | Value(value: T)

  /** A due date in a request body: a `Date` object, as a caller in the same process
      hands it to `z.date()`, or the ISO text that `JSON.stringify` makes of a `Date`,
      which is all `express.json()` can hand a route. */
  datatype JsDate = DateObject(time: int) | DateText(text: string)

  /** A required field carries exactly `v`. */
  predicate Carries<T(==)>(f: Field<T>, v: T) {
    f == Value(v)
  }

  /** An optional, nullable field: missing or `null` means no value. */
  predicate CarriesNullable<T(==)>(f: Field<T>, v: Option<T>) {
    match v
    case None => f.Absent? || f.Null?
    case Some(x) => f == Value(x)
  }

  /** An optional field that must not be `null`. */
  predicate CarriesOptional<T(==)>(f: Field<T>, v: Option<T>) {
    match v
    case None => f.Absent?
    case Some(x) => f == Value(x)
  }

  /** `z.date().nullable().optional()` accepts a `Date` object, `null` or nothing. */
  predicate CarriesDate(f: Field<JsDate>, v: Option<int>) {
    match v
    case None => f.Absent? || f.Null?
    case Some(t) => f == Value(DateObject(t))
  }

  function Required<T(==)>(f: Field<T>): (r: Option<T>)
    ensures r.Some? <==> f.Value?
    ensures r.Some? ==> Carries(f, r.value)
  {
    if f.Value? then Some(f.value) else None
  }

  /** Validation of an optional, nullable field; `None` when it fails. */
  function Nullable<T(==)>(f: Field<T>): (r: Option<Option<T>>)
    ensures r.Some? && CarriesNullable(f, r.value)
  {
    Some(if f.Value? then Some(f.value) else None)
  }

  /** `z.date().nullable().optional()`: text is refused, whatever date it spells. */
  function NullableDate(f: Field<JsDate>): (r: Option<Option<int>>)
    ensures r.Some? <==> !(f.Value? && f.value.DateText?)
    ensures r.Some? ==> CarriesDate(f, r.value)
    ensures forall v :: CarriesDate(f, v) ==> r == Some(v)
  {
    match f
    case Value(DateText(_)) => None
    case Value(DateObject(t)) => Some(Some(t))
    case _ => Some(None)
  }

  /** Validation of an optional field that must not be `null`; `None` when it fails. */
  function Optional<T(==)>(f: Field<T>): (r: Option<Option<T>>)
    ensures r.Some? <==> !f.Null?
    ensures r.Some? ==> CarriesOptional(f, r.value)
  {
    match f
    case Absent => Some(None)
    case Null => None
    case Value(x) => Some(Some(x))
  }

  datatype TeamBody = TeamBody(name: Field<string>, description: Field<string>)

  datatype TeamMemberBody = TeamMemberBody(teamId: Field<int>, userId: Field<int>, role: Field<string>)

  datatype ProjectBody = ProjectBody(name: Field<string>, description: Field<string>,
                                     teamId: Field<int>, status: Field<string>, color: Field<string>)

  datatype TaskBody = TaskBody(title: Field<string>, description: Field<string>,
                               projectId: Field<int>, status: Field<string>,
                               priority: Field<string>, assigneeId: Field<int>,
                               creatorId: Field<int>, dueDate: Field<JsDate>,
                               tags: Field<seq<string>>, progress: Field<int>)

  datatype CommentBody = CommentBody(taskId: Field<int>, userId: Field<int>, content: Field<string>)

  // ---------------------------------------------------------------------------
  // Insert-schema validation (`insertXSchema.parse`): unknown keys, `id` among them,
  // are dropped; required columns must be present; nullable columns may be missing
  // or `null`; a column with a default may be missing but not `null`.

  /** The body describes the team `t`. */
  predicate TeamBodyCarries(b: TeamBody, t: InsertTeam) {
    Carries(b.name, t.name) && CarriesNullable(b.description, t.description)
  }

  function ParseInsertTeam(b: TeamBody): (r: Option<InsertTeam>)
    ensures r.Some? ==> TeamBodyCarries(b, r.value)
    ensures forall t :: TeamBodyCarries(b, t) ==> r == Some(t)
  {
    var name, description := Required(b.name), Nullable(b.description);
    if name.Some? && description.Some? then Some(InsertTeam(name.value, description.value))
    else None
  }

  predicate MemberBodyCarries(b: TeamMemberBody, m: InsertTeamMember) {
    Carries(b.teamId, m.teamId) && Carries(b.userId, m.userId) && CarriesOptional(b.role, m.role)
  }

  function ParseInsertTeamMember(b: TeamMemberBody): (r: Option<InsertTeamMember>)
    ensures r.Some? ==> MemberBodyCarries(b, r.value)
    ensures forall m :: MemberBodyCarries(b, m) ==> r == Some(m)
  {
    var teamId, userId, role := Required(b.teamId), Required(b.userId), Optional(b.role);
    if teamId.Some? && userId.Some? && role.Some? then
      Some(InsertTeamMember(teamId.value, userId.value, role.value))
    else None
  }

  predicate ProjectBodyCarries(b: ProjectBody, p: InsertProject) {
    && Carries(b.name, p.name)
    && CarriesNullable(b.description, p.description)
    && Carries(b.teamId, p.teamId)
    && CarriesOptional(b.status, p.status)
    && CarriesOptional(b.color, p.color)
  }

  function ParseInsertProject(b: ProjectBody): (r: Option<InsertProject>)
    ensures r.Some? ==> ProjectBodyCarries(b, r.value)
    ensures forall p :: ProjectBodyCarries(b, p) ==> r == Some(p)
  {
    var name, description, teamId := Required(b.name), Nullable(b.description), Required(b.teamId);
    var status, color := Optional(b.status), Optional(b.color);
    if name.Some? && description.Some? && teamId.Some? && status.Some? && color.Some? then
      Some(InsertProject(name.value, description.value, teamId.value, status.value, color.value))
    else None
  }

  /** The body describes the task `t`; status and priority must be present even though
      their columns have defaults. */
  predicate TaskBodyCarries(b: TaskBody, t: InsertTask) {
    && Carries(b.title, t.title)
    && CarriesNullable(b.description, t.description)
    && Carries(b.projectId, t.projectId)
    && Carries(b.status, StatusName(t.status))
    && Carries(b.priority, PriorityName(t.priority))
    && CarriesNullable(b.assigneeId, t.assigneeId)
    && Carries(b.creatorId, t.creatorId)
    && CarriesDate(b.dueDate, t.dueDate)
    && CarriesOptional(b.tags, t.tags)
    && CarriesNullable(b.progress, t.progress)
  }

  function ParseInsertTask(b: TaskBody): (r: Option<InsertTask>)
    ensures r.Some? ==> TaskBodyCarries(b, r.value)
    ensures forall t :: TaskBodyCarries(b, t) ==> r == Some(t)
    ensures b.status.Absent? || b.priority.Absent? ==> r.None?
  {
    var title, projectId, creatorId := Required(b.title), Required(b.projectId), Required(b.creatorId);
    var status := if b.status.Value? then ParseStatus(b.status.value) else None;
    var priority := if b.priority.Value? then ParsePriority(b.priority.value) else None;
    var description, assigneeId := Nullable(b.description), Nullable(b.assigneeId);
    var dueDate, progress, tags := NullableDate(b.dueDate), Nullable(b.progress), Optional(b.tags);
    if title.Some? && projectId.Some? && creatorId.Some? && status.Some? && priority.Some?
       && dueDate.Some? && tags.Some?
    then
      Some(InsertTask(title.value, description.value, projectId.value, status.value,
                      priority.value, assigneeId.value, creatorId.value, dueDate.value,
                      tags.value, progress.value))
    else None
  }

  predicate CommentBodyCarries(b: CommentBody, c: InsertComment) {
    Carries(b.taskId, c.taskId) && Carries(b.userId, c.userId) && Carries(b.content, c.content)
  }

  function ParseInsertComment(b: CommentBody): (r: Option<InsertComment>)
    ensures r.Some? ==> CommentBodyCarries(b, r.value)
    ensures forall c :: CommentBodyCarries(b, c) ==> r == Some(c)
  {
    var taskId, userId, content := Required(b.taskId), Required(b.userId), Required(b.content);
    if taskId.Some? && userId.Some? && content.Some? then
      Some(InsertComment(taskId.value, userId.value, content.value))
    else None
  }

  /** The body a client sends for a task: every value present, no value missing. */
  function TaskBodyOf(t: InsertTask): (b: TaskBody)
    ensures TaskBodyCarries(b, t)
  {
    TaskBody(Value(t.title), FieldOf(t.description), Value(t.projectId),
             Value(StatusName(t.status)), Value(PriorityName(t.priority)),
             FieldOf(t.assigneeId), Value(t.creatorId), DateFieldOf(t.dueDate),
             FieldOf(t.tags), FieldOf(t.progress))
  }

  function FieldOf<T(==)>(v: Option<T>): (f: Field<T>)
    ensures CarriesNullable(f, v) && CarriesOptional(f, v)
  {
    if v.Some? then Value(v.value) else Absent
  }

  /** A due date as a body field: a `Date` object, or no key. */
  function DateFieldOf(v: Option<int>): (f: Field<JsDate>)
    ensures CarriesDate(f, v)
  {
    if v.Some? then Value(DateObject(v.value)) else Absent
  }

  /** Every task insert record, handed over in the same process, validates back to itself. */
  lemma TaskBodyRoundTrip(t: InsertTask)
    ensures ParseInsertTask(TaskBodyOf(t)) == Some(t)
  {
  }

  // ---------------------------------------------------------------------------
  // Partial updates: `{ ...row, ...data }` replaces exactly the keys present in `data`.

  datatype Update<T> = Keep | Put(value: T)
  {
    /** The field after the spread. */
    function Over(prior: T): T {
      if Put? then value else prior
    }

    /** `q` spread after `this`. */
    function Then(q: Update<T>): Update<T> {
      if q.Put? then q else this
    }
  }

  /** `Partial<InsertProject>` */
  datatype ProjectPatch = ProjectPatch(name: Update<string>, description: Update<Option<string>>,
                                       teamId: Update<int>, status: Update<Option<string>>,
                                       color: Update<Option<string>>)
  {
    /** `{ ...this, ...q }` */
    function Then(q: ProjectPatch): ProjectPatch {
      ProjectPatch(name.Then(q.name), description.Then(q.description), teamId.Then(q.teamId),
                   status.Then(q.status), color.Then(q.color))
    }
  }

  const NoProjectChange := ProjectPatch(Keep, Keep, Keep, Keep, Keep)

  /** `{ ...project, ...data }` */
  function MergeProject(p: Project, d: ProjectPatch): (r: Project)
    ensures r.id == p.id
    ensures d.teamId.Keep? ==> r.teamId == p.teamId
  {
    Project(p.id, d.name.Over(p.name), d.description.Over(p.description),
            d.teamId.Over(p.teamId), d.status.Over(p.status), d.color.Over(p.color))
  }

  /** `Partial<InsertTask>` */
  datatype TaskPatch = TaskPatch(title: Update<string>, description: Update<Option<string>>,
                                 projectId: Update<int>, status: Update<TaskStatus>,
                                 priority: Update<TaskPriority>,
                                 assigneeId: Update<Option<int>>, creatorId: Update<int>,
                                 dueDate: Update<Option<int>>, tags: Update<seq<string>>,
                                 progress: Update<Option<int>>)
  {
    function Then(q: TaskPatch): TaskPatch {
      TaskPatch(title.Then(q.title), description.Then(q.description),
                projectId.Then(q.projectId), status.Then(q.status), priority.Then(q.priority),
                assigneeId.Then(q.assigneeId), creatorId.Then(q.creatorId),
                dueDate.Then(q.dueDate), tags.Then(q.tags), progress.Then(q.progress))
    }
  }

  const NoTaskChange := TaskPatch(Keep, Keep, Keep, Keep, Keep, Keep, Keep, Keep, Keep, Keep)

  /** `{ ...task, ...data }` */
  function MergeTask(t: Task, d: TaskPatch): (r: Task)
    ensures r.id == t.id
    ensures d.creatorId.Keep? ==> r.creatorId == t.creatorId
  {
    Task(t.id, d.title.Over(t.title), d.description.Over(t.description),
         d.projectId.Over(t.projectId), d.status.Over(t.status), d.priority.Over(t.priority),
         d.assigneeId.Over(t.assigneeId), d.creatorId.Over(t.creatorId),
         d.dueDate.Over(t.dueDate), d.tags.Over(t.tags), d.progress.Over(t.progress))
  }

  /** The names of the task fields that differ between two rows. */
  function TaskChanges(a: Task, b: Task): set<string> {
    (if a.id != b.id then {"id"} else {})
    + (if a.title != b.title then {"title"} else {})
    + (if a.description != b.description then {"description"} else {})
    + (if a.projectId != b.projectId then {"projectId"} else {})
    + (if a.status != b.status then {"status"} else {})
    + (if a.priority != b.priority then {"priority"} else {})
    + (if a.assigneeId != b.assigneeId then {"assigneeId"} else {})
    + (if a.creatorId != b.creatorId then {"creatorId"} else {})
    + (if a.dueDate != b.dueDate then {"dueDate"} else {})
    + (if a.tags != b.tags then {"tags"} else {})
    + (if a.progress != b.progress then {"progress"} else {})
  }

  /** The names of the task fields a patch supplies. */
  function TaskSupplied(d: TaskPatch): set<string> {
    (if d.title.Put? then {"title"} else {})
    + (if d.description.Put? then {"description"} else {})
    + (if d.projectId.Put? then {"projectId"} else {})
    + (if d.status.Put? then {"status"} else {})
    + (if d.priority.Put? then {"priority"} else {})
    + (if d.assigneeId.Put? then {"assigneeId"} else {})
    + (if d.creatorId.Put? then {"creatorId"} else {})
    + (if d.dueDate.Put? then {"dueDate"} else {})
    + (if d.tags.Put? then {"tags"} else {})
    + (if d.progress.Put? then {"progress"} else {})
  }

  /** A task update changes only supplied fields, and never the id. */
  lemma MergeTaskOnlySupplied(t: Task, d: TaskPatch)
    ensures TaskChanges(t, MergeTask(t, d)) <= TaskSupplied(d)
    ensures "id" !in TaskChanges(t, MergeTask(t, d))
  {
    var m := MergeTask(t, d);
    forall f | f in TaskChanges(t, m) ensures f in TaskSupplied(d) {
    }
  }

  /** After a task update every supplied field holds the supplied value. */
  lemma MergeTaskTakesSupplied(t: Task, d: TaskPatch)
    ensures d.title.Put? ==> MergeTask(t, d).title == d.title.value
    ensures d.description.Put? ==> MergeTask(t, d).description == d.description.value
    ensures d.projectId.Put? ==> MergeTask(t, d).projectId == d.projectId.value
    ensures d.status.Put? ==> MergeTask(t, d).status == d.status.value
    ensures d.priority.Put? ==> MergeTask(t, d).priority == d.priority.value
    ensures d.assigneeId.Put? ==> MergeTask(t, d).assigneeId == d.assigneeId.value
    ensures d.creatorId.Put? ==> MergeTask(t, d).creatorId == d.creatorId.value
    ensures d.dueDate.Put? ==> MergeTask(t, d).dueDate == d.dueDate.value
    ensures d.tags.Put? ==> MergeTask(t, d).tags == d.tags.value
    ensures d.progress.Put? ==> MergeTask(t, d).progress == d.progress.value
  {
  }

  /** The change set is empty exactly when the update left the row as it was. */
  lemma MergeTaskNoChanges(t: Task, d: TaskPatch)
    ensures MergeTask(t, d) == t <==> TaskChanges(t, MergeTask(t, d)) == {}
  {
    var r := MergeTask(t, d);
    if TaskChanges(t, r) == {} {
      assert "title" !in TaskChanges(t, r) && "description" !in TaskChanges(t, r);
      assert "projectId" !in TaskChanges(t, r) && "status" !in TaskChanges(t, r);
      assert "priority" !in TaskChanges(t, r) && "assigneeId" !in TaskChanges(t, r);
      assert "creatorId" !in TaskChanges(t, r) && "dueDate" !in TaskChanges(t, r);
      assert "tags" !in TaskChanges(t, r) && "progress" !in TaskChanges(t, r);
    }
  }

  /** The names of the project fields that differ between two rows. */
  function ProjectChanges(a: Project, b: Project): set<string> {
    (if a.id != b.id then {"id"} else {})
    + (if a.name != b.name then {"name"} else {})
    + (if a.description != b.description then {"description"} else {})
    + (if a.teamId != b.teamId then {"teamId"} else {})
    + (if a.status != b.status then {"status"} else {})
    + (if a.color != b.color then {"color"} else {})
  }

  /** The names of the project fields a patch supplies. */
  function ProjectSupplied(d: ProjectPatch): set<string> {
    (if d.name.Put? then {"name"} else {})
    + (if d.description.Put? then {"description"} else {})
    + (if d.teamId.Put? then {"teamId"} else {})
    + (if d.status.Put? then {"status"} else {})
    + (if d.color.Put? then {"color"} else {})
  }

  /** A project update changes only supplied fields, never the id, and after it every
      supplied field holds the supplied value. */
  lemma MergeProjectOnlySupplied(p: Project, d: ProjectPatch)
    ensures ProjectChanges(p, MergeProject(p, d)) <= ProjectSupplied(d)
    ensures "id" !in ProjectChanges(p, MergeProject(p, d))
    ensures d.name.Put? ==> MergeProject(p, d).name == d.name.value
    ensures d.description.Put? ==> MergeProject(p, d).description == d.description.value
    ensures d.teamId.Put? ==> MergeProject(p, d).teamId == d.teamId.value
    ensures d.status.Put? ==> MergeProject(p, d).status == d.status.value
    ensures d.color.Put? ==> MergeProject(p, d).color == d.color.value
  {
  }

  /** The empty patch changes nothing; a patch applied twice is applied once; two
      patches in a row are one combined patch. */
  lemma MergeTaskAlgebra(t: Task, d: TaskPatch, e: TaskPatch)
    ensures MergeTask(t, NoTaskChange) == t
    ensures MergeTask(MergeTask(t, d), d) == MergeTask(t, d)
    ensures MergeTask(MergeTask(t, d), e) == MergeTask(t, d.Then(e))
  {
  }

  lemma MergeProjectAlgebra(p: Project, d: ProjectPatch, e: ProjectPatch)
    ensures MergeProject(p, NoProjectChange) == p
    ensures MergeProject(MergeProject(p, d), d) == MergeProject(p, d)
    ensures MergeProject(MergeProject(p, d), e) == MergeProject(p, d.Then(e))
  {
  }

  // ---------------------------------------------------------------------------
  // Validation of the PATCH bodies of the routes.

  /** `z.object({name, description, teamId, status, color})` with every key optional
      and none nullable. */
  predicate ProjectPatchCarries(b: ProjectBody, d: ProjectPatch) {
    && UpdateCarries(b.name, d.name)
    && UpdateCarriesSome(b.description, d.description)
    && UpdateCarries(b.teamId, d.teamId)
    && UpdateCarriesSome(b.status, d.status)
    && UpdateCarriesSome(b.color, d.color)
  }

  /** An optional, non-nullable body field sets a plain column. */
  predicate UpdateCarries<T(==)>(f: Field<T>, u: Update<T>) {
    match u
    case Keep => f.Absent?
    case Put(v) => f == Value(v)
  }

  /** An optional, non-nullable body field sets a nullable column to a value. */
  predicate UpdateCarriesSome<T(==)>(f: Field<T>, u: Update<Option<T>>) {
    match u
    case Keep => f.Absent?
    case Put(v) => v.Some? && f == Value(v.value)
  }

  /** An optional, nullable body field sets a nullable column, `null` clearing it. */
  predicate UpdateCarriesNullable<T(==)>(f: Field<T>, u: Update<Option<T>>) {
    match u
    case Keep => f.Absent?
    case Put(v) => if v.Some? then f == Value(v.value) else f.Null?
  }

  function ToUpdate<T(==,!new)>(f: Field<T>): (r: Option<Update<T>>)
    ensures r.Some? ==> UpdateCarries(f, r.value)
    ensures forall u :: UpdateCarries(f, u) ==> r == Some(u)
  {
    match f
    case Absent => Some(Keep)
    case Null => None
    case Value(x) => Some(Put(x))
  }

  function ToUpdateSome<T(==,!new)>(f: Field<T>): (r: Option<Update<Option<T>>>)
    ensures r.Some? ==> UpdateCarriesSome(f, r.value)
    ensures forall u :: UpdateCarriesSome(f, u) ==> r == Some(u)
  {
    match f
    case Absent => Some(Keep)
    case Null => None
    case Value(x) => Some(Put(Some(x)))
  }

  function ParseProjectPatch(b: ProjectBody): (r: Option<ProjectPatch>)
    ensures r.Some? ==> ProjectPatchCarries(b, r.value)
    ensures forall d :: ProjectPatchCarries(b, d) ==> r == Some(d)
  {
    var name, description, teamId := ToUpdate(b.name), ToUpdateSome(b.description), ToUpdate(b.teamId);
    var status, color := ToUpdateSome(b.status), ToUpdateSome(b.color);
    if name.Some? && description.Some? && teamId.Some? && status.Some? && color.Some? then
      Some(ProjectPatch(name.value, description.value, teamId.value, status.value, color.value))
    else None
  }

  /** The PATCH task schema: `title`, `description`, `projectId`, `status`, `priority`,
      `dueDate`, `tags`, `progress` optional and not nullable, `assigneeId` optional and
      nullable; `creatorId` is not in it, so it is dropped and never changes. */
  predicate TaskPatchCarries(b: TaskBody, d: TaskPatch) {
    && UpdateCarries(b.title, d.title)
    && UpdateCarriesSome(b.description, d.description)
    && UpdateCarries(b.projectId, d.projectId)
    && StatusUpdateCarries(b.status, d.status)
    && PriorityUpdateCarries(b.priority, d.priority)
    && UpdateCarriesNullable(b.assigneeId, d.assigneeId)
    && d.creatorId.Keep?
    && UpdateCarriesDate(b.dueDate, d.dueDate)
    && UpdateCarries(b.tags, d.tags)
    && UpdateCarriesSome(b.progress, d.progress)
  }

  /** `z.date().optional()` sets the nullable `dueDate` column to a `Date` object. */
  predicate UpdateCarriesDate(f: Field<JsDate>, u: Update<Option<int>>) {
    match u
    case Keep => f.Absent?
    case Put(v) => v.Some? && f == Value(DateObject(v.value))
  }

  predicate StatusUpdateCarries(f: Field<string>, u: Update<TaskStatus>) {
    match u
    case Keep => f.Absent?
    case Put(s) => f == Value(StatusName(s))
  }

  predicate PriorityUpdateCarries(f: Field<string>, u: Update<TaskPriority>) {
    match u
    case Keep => f.Absent?
    case Put(p) => f == Value(PriorityName(p))
  }

  /** `taskStatusEnum.optional()` */
  function ToStatusUpdate(f: Field<string>): (r: Option<Update<TaskStatus>>)
    ensures r.Some? ==> StatusUpdateCarries(f, r.value)
    ensures forall u :: StatusUpdateCarries(f, u) ==> r == Some(u)
  {
    match f
    case Absent => Some(Keep)
    case Null => None
    case Value(x) =>
      var s := ParseStatus(x);
      assert forall t :: x == StatusName(t) ==> s == Some(t) by {
        forall t | x == StatusName(t) ensures s == Some(t) { StatusRoundTrip(t); }
      }
      if s.Some? then Some(Put(s.value)) else None
  }

  /** `taskPriorityEnum.optional()` */
  function ToPriorityUpdate(f: Field<string>): (r: Option<Update<TaskPriority>>)
    ensures r.Some? ==> PriorityUpdateCarries(f, r.value)
    ensures forall u :: PriorityUpdateCarries(f, u) ==> r == Some(u)
  {
    match f
    case Absent => Some(Keep)
    case Null => None
    case Value(x) =>
      var p := ParsePriority(x);
      assert forall q :: x == PriorityName(q) ==> p == Some(q) by {
        forall q | x == PriorityName(q) ensures p == Some(q) { PriorityRoundTrip(q); }
      }
      if p.Some? then Some(Put(p.value)) else None
  }

  function ToUpdateNullable<T(==,!new)>(f: Field<T>): (r: Update<Option<T>>)
    ensures UpdateCarriesNullable(f, r)
    ensures forall u :: UpdateCarriesNullable(f, u) ==> r == u
  {
    match f
    case Absent => Keep
    case Null => Put(None)
    case Value(x) => Put(Some(x))
  }

  /** `z.date().optional()` */
  function ToDateUpdate(f: Field<JsDate>): (r: Option<Update<Option<int>>>)
    ensures r.Some? <==> f.Absent? || (f.Value? && f.value.DateObject?)
    ensures r.Some? ==> UpdateCarriesDate(f, r.value)
    ensures forall u :: UpdateCarriesDate(f, u) ==> r == Some(u)
  {
    match f
    case Absent => Some(Keep)
    case Value(DateObject(t)) => Some(Put(Some(t)))
    case _ => None
  }

  function ParseTaskPatch(b: TaskBody): (r: Option<TaskPatch>)
    ensures r.Some? ==> TaskPatchCarries(b, r.value)
    ensures forall d :: TaskPatchCarries(b, d) ==> r == Some(d)
  {
    var title, description, projectId := ToUpdate(b.title), ToUpdateSome(b.description), ToUpdate(b.projectId);
    var status, priority := ToStatusUpdate(b.status), ToPriorityUpdate(b.priority);
    var dueDate, tags, progress := ToDateUpdate(b.dueDate), ToUpdate(b.tags), ToUpdateSome(b.progress);
    if title.Some? && description.Some? && projectId.Some? && status.Some? && priority.Some?
       && dueDate.Some? && tags.Some? && progress.Some?
    then
      Some(TaskPatch(title.value, description.value, projectId.value, status.value,
                     priority.value, ToUpdateNullable(b.assigneeId), Keep, dueDate.value,
                     tags.value, progress.value))
    else None
  }

  // ---------------------------------------------------------------------------
  // The JSON transport between the client and the routes.

  /** `JSON.stringify` on the client, then `express.json()` on the server: a `Date`
      becomes its ISO text (writing it is a parameter); strings, numbers, arrays and
      `null` arrive as they were sent, and an `undefined` key stays missing. */
  function Wire(b: TaskBody, iso: int -> string): (w: TaskBody)
    ensures w.dueDate.Value? <==> b.dueDate.Value?
    ensures w.dueDate.Value? ==> w.dueDate.value.DateText?
    ensures w.(dueDate := b.dueDate) == b
  {
    match b.dueDate
    case Value(DateObject(t)) => b.(dueDate := Value(DateText(iso(t))))
    case _ => b
  }

  /** Whatever a client sends, a body that reaches a route with a due date is refused
      by both task schemas (a 400 answer); without one, the transport changes nothing. */
  lemma DueDateRefusedOverJson(b: TaskBody, iso: int -> string)
    ensures b.dueDate.Value? ==> ParseInsertTask(Wire(b, iso)).None? && ParseTaskPatch(Wire(b, iso)).None?
    ensures !b.dueDate.Value? ==> Wire(b, iso) == b
  {
    if b.dueDate.Value? {
      assert NullableDate(Wire(b, iso).dueDate).None?;
      assert ToDateUpdate(Wire(b, iso).dueDate).None?;
    }
  }
}
