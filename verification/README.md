# ProjectPulse core in Dafny

ProjectPulse is a team project tracker: teams own projects, projects hold tasks, and
tasks carry comments. This project models its core and proves properties of it:

- the shared row types and their validation schemas (`shared/schema.ts`): `Schema`;
- the in-memory store `MemStorage` (`server/storage.ts`), with its six insertion-ordered
  `Map` tables and id counters, as a Dafny class: `Storage`. The JavaScript `Map` it
  relies on is `JsMap`, the array idioms are `Seqs`, and the stable comment sort is
  `StableSort`;
- the Express handlers under `/api` (`server/routes.ts`): `Routes`. Each handler's checks
  are a pure verdict function, and a method performs the write the verdict allows;
- the AdonisJS projects controller's statistics and update whitelist:
  `ProjectsController`;
- the client hooks `use-projects.ts` and `use-tasks.ts`: `UseProjects` and `UseTasks`;
- the task dialogs: the shared tag codec and due-date handling (`TaskForm`), and the
  edit and create dialogs (`TaskDetailModal`, `TaskCreateModal`).

Model choices:

- JavaScript numbers are unbounded integers.
- A missing value is `None`. Truthiness is `Wrappers.Truthy`, under which `0` and a
  missing value are falsy.
- Dates are integers: timestamps for the server and the comment clock. A due date in a
  request body is a `Schema.JsDate`: either a `Date` object or the ISO text that
  `JSON.stringify` makes of one. `Schema.Wire` is that serialisation followed by
  `express.json()`, so a body that reaches a route never holds a `Date` object.
- The current time is a parameter `now`.
- In the dialogs, reading a date from text and writing it as text are parameters.
- A JSON request body is a record of `Field`s. Each field is absent, `null`, or a value.

Behaviour of the code that the model keeps as written:

- `MemStorage.createProject` and `addTeamMember` store the insert data as given, and do
  not fill in the column defaults (`active`, `#3949AB`, `member`). A stored project can
  therefore lack a status or a colour. `createTask` fills the tags default (`[]`) but not
  the progress default (`0`), so a stored task can lack a progress; the task dialog
  shows a missing progress as 0. The defaults are modelled separately as
  `Schema.ProjectRow`, `Schema.MemberRow` and `Schema.TaskRow`.
- PATCH /tasks/:id looks the task up before it validates the body, so a missing task
  answers 404 even for an invalid body. PATCH /projects/:id does the same.
- POST /teams/:id/members and POST /tasks/:taskId/comments also do their lookup first.
- The Express server has no route that creates a user and no per-project statistics
  route. Per-project statistics exist only in the AdonisJS controller and the client hook.
- Both task schemas validate `dueDate` with `z.date()`, which accepts only a `Date`
  object. Over HTTP a due date arrives as text, so POST /tasks and PATCH /tasks/:id
  answer 400 to every body that carries one (`Schema.DueDateRefusedOverJson`).
- The dialogs validate with the same schema through `zodResolver` before `onSubmit`
  runs. The form holds the due date as text, so a form with a due date, even an empty
  one, is never submitted. The create dialog's "unassigned" option (`NaN`) is refused
  by `z.number()` in the same way.

## Model

| member | source | states |
|---|---|---|
| Schema.ParseStatus | shared/schema.ts:57 | only the four status names parse, and each parses to the status with that name |
| Schema.ParsePriority | shared/schema.ts:60 | only the four priority names parse, and each parses to the priority with that name |
| Schema.StatusRoundTrip | shared/schema.ts:57 | parsing a status's name gives the status back, and distinct statuses have distinct names |
| Schema.PriorityRoundTrip | shared/schema.ts:60 | parsing a priority's name gives the priority back, and distinct priorities have distinct names |
| Schema.InsertUser.WithId | server/storage.ts:291-296 | `{ ...userData, id }` carries the new id and otherwise exactly the insert data |
| Schema.InsertTeam.WithId | server/storage.ts:307-312 | the stored team is the insert data plus the id |
| Schema.InsertTeamMember.WithId | server/storage.ts:323-328 | the stored membership is the insert data plus the id |
| Schema.InsertProject.WithId | server/storage.ts:347-352 | the stored project is the insert data plus the id |
| Schema.InsertTask.WithId | server/storage.ts:376-385 | the stored task is the insert data plus the id, with absent tags stored as `[]` |
| Schema.InsertComment.WithId | server/storage.ts:423-432 | the stored comment is the insert data plus the id and the creation time |
| Schema.WithDefault | shared/schema.ts:35 | a column default fills a missing value and never overrides a supplied one |
| Schema.ProjectRow | shared/schema.ts:48-49 | a project row gets status `active` and colour `#3949AB` when they are missing, and keeps them otherwise |
| Schema.MemberRow | shared/schema.ts:35 | a membership row gets role `member` when it is missing |
| Schema.TaskRow | shared/schema.ts:68-74 | a task row gets tags `[]` and progress `0` when they are missing, and keeps every supplied field |
| Schema.StoredTaskRow | server/storage.ts:376-385 | the task `createTask` stores is the table row except that a missing progress stays missing |
| Schema.Required | shared/schema.ts:77-83 | a required field validates exactly when it holds a value |
| Schema.Nullable | shared/schema.ts:77-83 | an optional, nullable field always validates; missing and `null` both mean no value |
| Schema.Optional | shared/schema.ts:82 | an optional, non-nullable field fails only on `null` |
| Schema.NullableDate | shared/schema.ts:72 | the insert schema's due date validates exactly when it is missing, `null` or a `Date` object, and then gives that date or no date |
| Schema.ParseInsertTeam | shared/schema.ts:26-28 | the validated team is the one the body describes, and a body that describes a team validates to exactly that team |
| Schema.ParseInsertTeamMember | shared/schema.ts:38-40 | validation accepts exactly the bodies that describe a membership, and returns that membership |
| Schema.ParseInsertProject | shared/schema.ts:52-54 | validation accepts exactly the bodies that describe a project, and returns that project |
| Schema.ParseInsertTask | shared/schema.ts:77-83 | validation accepts exactly the bodies that describe a task, and returns that task; a body without status or priority is refused even though those columns have defaults |
| Schema.ParseInsertComment | shared/schema.ts:94-97 | validation accepts exactly the bodies that describe a comment, and returns that comment |
| Schema.TaskBodyRoundTrip | shared/schema.ts:77-83 | the body written from any insert task validates back to that same task |
| Schema.MergeProject | server/storage.ts:354-361 | `{ ...project, ...data }` keeps the id, and keeps the team when the patch does not name one; that only supplied fields change, each to the supplied value, is `Schema.MergeProjectOnlySupplied` |
| Schema.MergeTask | server/storage.ts:387-394 | `{ ...task, ...data }` keeps the id, and keeps the creator when the patch does not name one |
| Schema.MergeProjectOnlySupplied | server/storage.ts:354-361 | the fields that change are among the fields the patch supplies, each supplied field takes the supplied value, and the id never changes |
| Schema.MergeTaskOnlySupplied | server/storage.ts:387-394 | the fields that change are among the fields the patch supplies, and the id never changes |
| Schema.MergeTaskTakesSupplied | server/storage.ts:387-394 | each of the ten fields the patch supplies takes the supplied value |
| Schema.MergeTaskNoChanges | server/storage.ts:387-394 | an update reports no changed field exactly when it leaves the row as it was |
| Schema.MergeTaskAlgebra | server/storage.ts:391 | the empty patch changes nothing, merging the same patch twice is merging it once, and two patches in a row are one combined patch |
| Schema.MergeProjectAlgebra | server/storage.ts:358 | the same three laws for project patches |
| Schema.ToUpdate | server/routes.ts:191-197 | an optional, non-nullable PATCH field: missing keeps the column, a value sets it, `null` fails |
| Schema.ToUpdateSome | server/routes.ts:191-197 | the same for a nullable column, which can be set only to a value |
| Schema.ToDateUpdate | server/routes.ts:298 | the PATCH due date validates exactly when it is missing or a `Date` object; missing keeps the column, a `Date` sets it |
| Schema.ParseProjectPatch | server/routes.ts:191-199 | the project PATCH schema accepts exactly the bodies that describe a patch, and returns that patch |
| Schema.ToStatusUpdate | server/routes.ts:295 | a status in a PATCH body validates when it is missing or is one of the four names |
| Schema.ToPriorityUpdate | server/routes.ts:296 | a priority in a PATCH body validates when it is missing or is one of the four names |
| Schema.ToUpdateNullable | server/routes.ts:297 | `assigneeId` in a PATCH body: missing keeps the column, `null` clears it, a value sets it |
| Schema.ParseTaskPatch | server/routes.ts:289-301 | the task PATCH schema accepts exactly the bodies that describe a patch, and returns that patch; the patch never touches the creator |
| Schema.Wire | server/routes.ts:238 | serialising a body to JSON and parsing it back turns a due date into text, keeps whether there is one, and changes no other field |
| Schema.DueDateRefusedOverJson | server/routes.ts:238-298 | a body that carries a due date is refused by both task schemas once it has crossed the wire; one without a due date crosses unchanged |
| Seqs.Filter | server/storage.ts:320 | `filter` keeps exactly the elements that pass, and never more elements than it was given |
| Seqs.Find | server/storage.ts:288 | `find` gives the first element that passes, or nothing when none passes |
| Seqs.FilterCommute | server/storage.ts:404-416 | two filters applied in either order give the same list |
| Seqs.CountDisjoint | server/routes.ts:416-425 | two tests that no element passes together count at most the length of the list |
| Seqs.FilterIncreasing | server/storage.ts:320 | filtering keeps an increasing order |
| JsMap.OrderedMap.Set | server/storage.ts:294 | `Map.set` maps the key to the value and leaves every other key; a new key goes last in the iteration order, an existing key keeps its place |
| JsMap.OrderedMap.Delete | server/storage.ts:397 | `Map.delete` removes the key and leaves every other key |
| JsMap.SetNewValues | server/storage.ts:294 | after setting a new key, `values()` is the old values followed by the new value |
| JsMap.SetExistingValues | server/storage.ts:359 | after setting an existing key, `values()` has the new value in the old one's place |
| JsMap.DeleteValues | server/storage.ts:397 | after a delete, `values()` is the old values without the deleted one |
| JsMap.ValuesComplete | server/storage.ts:299 | every stored value appears in `values()` |
| JsMap.ValuesSound | server/storage.ts:299 | every value in `values()` is stored under its own key |
| StableSort.SortBy | server/storage.ts:437 | the sort returns a permutation of its input |
| StableSort.SortByStable | server/storage.ts:437 | sorting by creation time a list whose ids increase orders it by time, with ties kept in id order |
| StableSort.LexSortedUnique | server/storage.ts:437 | two orderings of the same comments that are both sorted by time and then id are equal, so the result does not depend on the sorting algorithm |
| Storage.TableValues | server/storage.ts:52-84 | a table lists its rows in increasing id order, every id below the counter, each row under its own id |
| Storage.TableInsert | server/storage.ts:291-296 | storing a row under the counter keeps the table invariant with the counter advanced |
| Storage.MemStorage.constructor | server/storage.ts:67-84 | the store starts with empty tables and every counter at 1 |
| Storage.MemStorage.GetUser | server/storage.ts:283-285 | the user with that id, or nothing when no stored user has it |
| Storage.MemStorage.GetUserByUsername | server/storage.ts:287-289 | a user with that username and the smallest id among them, or nothing when no user has it |
| Storage.MemStorage.UsersListed | server/storage.ts:298-300 | `getUsers` lists exactly the stored users, in increasing id order |
| Storage.MemStorage.CreateUser | server/storage.ts:291-296 | the new user takes the counter's id and goes last; the counter advances; a lookup by any username that already succeeded is unchanged |
| Storage.MemStorage.GetTeam | server/storage.ts:303-305 | the team with that id, or nothing |
| Storage.MemStorage.TeamsListed | server/storage.ts:314-316 | `getTeams` lists exactly the stored teams, in increasing id order |
| Storage.MemStorage.CreateTeam | server/storage.ts:307-312 | the new team takes the counter's id and goes last; the counter advances |
| Storage.MemStorage.GetTeamMembers | server/storage.ts:319-321 | exactly the memberships of that team, in id order |
| Storage.MemStorage.AddTeamMember | server/storage.ts:323-328 | the new membership takes the counter's id and goes last |
| Storage.MemStorage.RemoveTeamMember | server/storage.ts:330-340 | removes the first membership of that user in that team, and reports whether there was one; the list shrinks by one exactly then |
| Storage.MemStorage.GetProject | server/storage.ts:343-345 | the project with that id, or nothing |
| Storage.MemStorage.CreateProject | server/storage.ts:347-352 | the new project takes the counter's id and goes last |
| Storage.MemStorage.UpdateProject | server/storage.ts:354-361 | nothing for a missing project, with nothing changed; otherwise the merged project, stored in the old one's place |
| Storage.MemStorage.ProjectsListed | server/storage.ts:363-365 | `getProjects` lists exactly the stored projects, in increasing id order |
| Storage.MemStorage.GetProjectsByTeam | server/storage.ts:367-369 | exactly the projects of that team, in id order |
| Storage.MemStorage.GetTask | server/storage.ts:372-374 | the task with that id, or nothing |
| Storage.MemStorage.CreateTask | server/storage.ts:376-385 | the new task takes the counter's id, has `[]` for absent tags, and goes last |
| Storage.MemStorage.UpdateTask | server/storage.ts:387-394 | nothing for a missing task, with nothing changed; otherwise the merged task, stored in the old one's place |
| Storage.MemStorage.DeleteTask | server/storage.ts:396-398 | reports whether the task existed and removes it; the counter is unchanged; every task query answers as before minus that task |
| Storage.MemStorage.TasksListed | server/storage.ts:400-402 | `getTasks` lists exactly the stored tasks, in increasing id order |
| Storage.MemStorage.GetTasksByProject | server/storage.ts:404-406 | exactly the tasks of that project, in id order |
| Storage.MemStorage.GetTasksByAssignee | server/storage.ts:408-410 | exactly the tasks with that assignee, in id order |
| Storage.MemStorage.GetTasksByStatus | server/storage.ts:412-416 | the project's tasks filtered by status name; a name that is not a status gives nothing |
| Storage.MemStorage.GetComment | server/storage.ts:419-421 | the comment with that id, or nothing |
| Storage.MemStorage.CreateComment | server/storage.ts:423-432 | the new comment takes the counter's id and the given time, and goes last |
| Storage.MemStorage.GetCommentsByTask | server/storage.ts:434-438 | exactly the task's comments, ordered by creation time with ties in id order |
| Storage.FilterOutOne | server/storage.ts:336 | removing the one element with a given id from a list of distinct ids shortens it by one |
| Routes.StripPassword | server/routes.ts:37-48 | the user sent back is the stored user without its password, and together with the password it gives the stored user back |
| Routes.StripForgetsPassword | server/routes.ts:33 | two users that differ only in the password are sent back the same |
| Routes.GetUsersRoute | server/routes.ts:30-35 | every stored user, in order, without passwords |
| Routes.GetUserRoute | server/routes.ts:37-48 | 404 exactly for a missing user, else the user without its password |
| Routes.GetTeamRoute | server/routes.ts:69-78 | 404 exactly for a missing team, else that team |
| Routes.PostTeam | server/routes.ts:56-67 | 400 with nothing stored for an invalid body, else 201 with the new team stored last and the team counter advanced by one; no other table or counter changes |
| Routes.JoinMembers | server/routes.ts:88-104 | each membership paired with its user without a password; memberships of missing users are dropped and the rest keep their order |
| Routes.GetTeamMembersRoute | server/routes.ts:80-105 | 404 exactly for a missing team, else the team's memberships with existing users, each paired with its stored user without the password |
| Routes.AddMemberVerdict | server/routes.ts:107-134 | 404 exactly for a missing team, or for a valid body naming a missing user; it proceeds exactly when the team exists, the body is valid and the user exists, with the validated membership under the path's team id; every refusal is 400 or 404 |
| Routes.PostTeamMember | server/routes.ts:107-134 | a refusal stores nothing; otherwise 201 with the new membership stored last and its counter advanced by one; no other table or counter changes |
| Routes.GetProjectsRoute | server/routes.ts:137-148 | a truthy team id selects that team's projects, anything else all projects |
| Routes.GetProjectRoute | server/routes.ts:170-179 | 404 exactly for a missing project, else that project |
| Routes.CreateProjectVerdict | server/routes.ts:150-168 | 400 exactly for an invalid body, then 404 exactly for a missing team; it proceeds exactly when the body is valid and the team exists, with the project the body describes; every refusal is 400 or 404 |
| Routes.PostProject | server/routes.ts:150-168 | a refusal stores nothing; otherwise 201 with the new project stored last and its counter advanced by one; no other table or counter changes |
| Routes.UpdateProjectVerdict | server/routes.ts:181-217 | 404 exactly for a missing project, or for a valid patch naming a non-zero team that is missing; it proceeds exactly when the project exists, the patch is valid and names no missing team, with the patch the body describes; every refusal is 400 or 404 |
| Routes.PatchProject | server/routes.ts:181-217 | a refusal changes nothing; otherwise 200 with the merged project stored in place; only the projects table changes |
| Routes.TaskFilterOf | server/routes.ts:220-234 | a truthy project id wins over a truthy assignee id; with neither, all tasks |
| Routes.GetTasksRoute | server/routes.ts:220-234 | a truthy project id answers the store's tasks of that project, else a truthy assignee id the tasks of that assignee, else all tasks |
| Routes.GetTaskRoute | server/routes.ts:270-279 | 404 exactly for a missing task, else that task |
| Routes.CreateTaskVerdict | server/routes.ts:236-268 | 400 exactly for an invalid body; otherwise it proceeds exactly when the project exists, the creator exists, and a truthy assignee exists |
| Routes.FalsyAssigneeNotChecked | server/routes.ts:246-251 | a `null` or `0` assignee is never looked up |
| Routes.PostTask | server/routes.ts:236-268 | a refusal stores nothing; otherwise 201 with the new task stored last and its counter advanced by one; no other table or counter changes |
| Routes.UpdateTaskVerdict | server/routes.ts:281-329 | 404 exactly for a missing task, or for a valid patch naming a truthy assignee or a non-zero project that is missing; it proceeds exactly when none of that holds and the patch is valid, with the patch the body describes, which never names a creator; every refusal is 400 or 404 |
| Routes.PatchTask | server/routes.ts:281-329 | a refusal changes nothing; otherwise 200 with the merged task stored in place and its creator unchanged; only the tasks table changes |
| Routes.DeleteTaskRoute | server/routes.ts:331-341 | 404 with nothing changed for a missing task; otherwise 204 and the task list loses exactly that task; only the tasks table changes, and the counter stays |
| Routes.JoinAuthors | server/routes.ts:353-366 | each comment paired with its author without a password; comments of missing users are dropped and the rest keep their order |
| Routes.GetCommentsRoute | server/routes.ts:344-369 | 404 exactly for a missing task, else the task's comments in time order, each paired with its stored author without the password |
| Routes.CreateCommentVerdict | server/routes.ts:371-406 | 404 exactly for a missing task, or for a valid body naming a missing user; it proceeds exactly when the task exists, the body is valid and the user exists, with the validated comment under the path's task id; every refusal is 400 or 404 |
| Routes.PostComment | server/routes.ts:371-406 | a refusal stores nothing; otherwise 201 with the new comment stored last, its counter advanced by one, and the comment sent with its author without a password; no other table or counter changes |
| Routes.Stats | server/routes.ts:409-433 | the project count; the number of tasks in progress, completed, and past their due date and not completed; completed plus overdue, and completed plus in progress, are each at most the number of tasks |
| Routes.GetStatsRoute | server/routes.ts:409-433 | the dashboard counts over every stored project and task: how many projects, and how many tasks are in progress, completed and overdue |
| ProjectsController.CountTasks | adonisjs/app/controllers/projects_controller.ts:82-101 | total is the number of tasks; completed plus in progress, and overdue plus completed, are each at most the total |
| ProjectsController.Stats | adonisjs/app/controllers/projects_controller.ts:76-102 | not found exactly for a missing project; a task list that did not load counts as empty |
| ProjectsController.StatsAgreeWithServer | adonisjs/app/controllers/projects_controller.ts:85-94 | on the same tasks and time, completed, in-progress and overdue counts equal those of GET /stats |
| ProjectsController.OnlyIgnoresTeamId | adonisjs/app/controllers/projects_controller.ts:51-56 | the whitelist never reads the body's team id |
| ProjectsController.SetColumn | adonisjs/database/migrations/1712568000000_initial.ts:36-40 | a NOT NULL column: missing keeps it, a value sets it, `null` fails the save |
| ProjectsController.Merged | adonisjs/app/controllers/projects_controller.ts:58-59 | the merge fails exactly when it would store `null` in name, status or colour, and never changes the id or the team |
| ProjectsController.MergedIsSpread | adonisjs/app/controllers/projects_controller.ts:58 | a successful merge is the Express spread of the same fields with the team kept |
| ProjectsController.MergedIdempotent | adonisjs/app/controllers/projects_controller.ts:58 | merging the same fields twice is merging them once; merging nothing changes nothing |
| ProjectsController.ProjectModel.MergeAndSave | adonisjs/app/controllers/projects_controller.ts:58-59 | the record becomes the merged record, or stays as it was when the save fails; the team never changes |
| ProjectsController.Update | adonisjs/app/controllers/projects_controller.ts:48-62 | not found for a missing record, a server error when a NOT NULL column would be `null`, else the merged record; the team never changes |
| UseProjects.ProjectsQueryKey | client/src/hooks/use-projects.ts:8 | the key names the team exactly when the team id is truthy |
| UseProjects.ProjectsKeyAgreesWithRoute | client/src/hooks/use-projects.ts:8 | fetching by the key gets the list GET /projects gives for the hook's team id |
| UseProjects.WithStats | client/src/hooks/use-projects.ts:31-43 | no project gives no result; otherwise the project unchanged, with all counts 0 when no tasks were fetched |
| UseProjects.WithStatsAgrees | client/src/hooks/use-projects.ts:34-41 | on the same tasks and time, the counts equal the AdonisJS controller's, and overdue and completed equal GET /stats |
| UseProjects.WithStatsBounds | client/src/hooks/use-projects.ts:34-41 | completed plus in progress, and overdue plus completed, are each at most the total |
| UseTasks.TasksQueryKey | client/src/hooks/use-tasks.ts:8-14 | a truthy project id wins, then a truthy assignee id, else the key of all tasks |
| UseTasks.KeyMatchesRoute | client/src/hooks/use-tasks.ts:8-14 | the key selects the same query as the route's precedence |
| UseTasks.Enabled | client/src/hooks/use-tasks.ts:18 | the `enabled` expression is always true |
| UseTasks.TasksByStatus | client/src/hooks/use-tasks.ts:22-31 | exactly the fetched tasks with that status name; nothing when nothing was fetched |
| UseTasks.TasksByStatusKeepsOrder | client/src/hooks/use-tasks.ts:25 | the fetched order is kept |
| UseTasks.TasksByStatusMatchesStore | client/src/hooks/use-tasks.ts:22-31 | for a non-zero project id the result is the store's `getTasksByStatus` |
| UseTasks.ZeroProjectFetchesAll | client/src/hooks/use-tasks.ts:8-14 | for project id 0 the hook filters every task instead |
| TaskForm.Trim | client/src/components/tasks/task-detail-modal.tsx:50 | the result neither starts nor ends with white space |
| TaskForm.TrimPadded | client/src/components/tasks/task-detail-modal.tsx:50 | trimming removes exactly the white space around a trimmed text |
| TaskForm.Split | client/src/components/tasks/task-detail-modal.tsx:50 | one piece more than there are commas, none containing a comma |
| TaskForm.SplitThenJoin | client/src/components/tasks/task-detail-modal.tsx:50 | joining the pieces with the separator gives the text back |
| TaskForm.JoinThenSplit | client/src/components/tasks/task-detail-modal.tsx:50 | splitting joined separator-free pieces gives the pieces back |
| TaskForm.ParseTags | client/src/components/tasks/task-create-modal.tsx:35 | no tags for an absent or empty text; otherwise one trimmed tag per comma-separated piece |
| TaskForm.ShowTags | client/src/components/tasks/task-detail-modal.tsx:125 | an absent or empty list shows as `""` |
| TaskForm.TagsRoundTrip | client/src/components/tasks/task-detail-modal.tsx:50-125 | reading back the shown text gives the same tags, for trimmed comma-free tags other than `[""]` |
| TaskForm.SingleEmptyTagLost | client/src/components/tasks/task-detail-modal.tsx:50-125 | the list `[""]` reads back as no tags |
| TaskForm.SubmitDueDate | client/src/components/tasks/task-create-modal.tsx:81 | an absent or empty due date becomes undefined; any other is converted |
| TaskDetailModal.Reset | client/src/components/tasks/task-detail-modal.tsx:115-127 | a missing description becomes `""`, a falsy assignee undefined, a falsy progress 0, and the tags their text |
| TaskDetailModal.Submit | client/src/components/tasks/task-detail-modal.tsx:131-137 | the tags are parsed, an empty due date is left out, the assignee key is kept only when set, and the body, handed over as an in-process object, passes the PATCH validation |
| TaskDetailModal.SubmitOverJson | client/src/components/tasks/task-detail-modal.tsx:131-137 | the body `onSubmit` sends passes the PATCH validation after crossing the wire exactly when the form has no due date to convert |
| TaskDetailModal.Save | client/src/components/tasks/task-detail-modal.tsx:49-52 | `onSubmit` runs exactly when the form has a project and no due-date text, and then sends a body without a due date |
| TaskDetailModal.SaveUnedited | client/src/components/tasks/task-detail-modal.tsx:115-137 | saving the form unedited is refused by the resolver exactly when the task has a due date; otherwise the body crosses the wire, validates, and changes the task only by normalising its description, progress and tags |
| TaskDetailModal.NormalisedUnchanged | client/src/components/tasks/task-detail-modal.tsx:115-137 | with a description, a truthy progress and round-trippable tags, saving unedited changes nothing |
| TaskDetailModal.CommentRequest | client/src/components/tasks/task-detail-modal.tsx:58 | a comment is posted exactly when its content is non-empty, by user 1 |
| TaskDetailModal.CommentAccepted | client/src/components/tasks/task-detail-modal.tsx:158-166 | a posted comment passes the server's validation once the route adds the task id |
| TaskCreateModal.OnAssigneeChange | client/src/components/tasks/task-create-modal.tsx:238-248 | the "unassigned" option becomes `NaN`, a user's option becomes that user's id |
| TaskCreateModal.SubmitAssignee | client/src/components/tasks/task-create-modal.tsx:82 | a non-zero number is submitted as is; undefined, `NaN` and 0 become `null` |
| TaskCreateModal.AssigneeChoice | client/src/components/tasks/task-create-modal.tsx:82 | choosing "unassigned" or touching nothing submits `null`; choosing a user submits that user's id |
| TaskCreateModal.Defaults | client/src/components/tasks/task-create-modal.tsx:63-73 | status `todo`, priority `medium`, creator 1, and the given project unless it is absent or 0 |
| TaskCreateModal.Submit | client/src/components/tasks/task-create-modal.tsx:76-83 | the other fields are passed through unchanged, the tags are parsed, and the assignee and due date are normalised |
| TaskCreateModal.Create | client/src/components/tasks/task-create-modal.tsx:34-36 | `onSubmit` runs exactly when the form has a project, an assignee other than "unassigned", and no due-date text, and then sends a body without a due date |
| TaskCreateModal.SubmitAccepted | client/src/components/tasks/task-create-modal.tsx:76-83 | a form the resolver lets through passes the POST validation after crossing the wire, which reads back what the form held; a body with a due date, or without a project, is refused by the server |

## Left out

- `MemStorage.initSampleData` (server/storage.ts:86-280) and its fixed sample rows. The
  model starts from the empty store.
- GET /teams (server/routes.ts:51-54) answers `getTeams()` as it is, so it has no member
  of its own.
- The AdonisJS `index`, `show`, `store` and `destroy` actions are not modelled, nor are
  its other controllers. The stored tasks of a project are a parameter of the stats:
  the Lucid relation loading is not part of this model.
- ProjectsController.Stats: the status column of the AdonisJS tasks table is free text.
  The model only allows the four status names the Express schema allows.
- Timestamps are integers. Date parsing and formatting (`new Date(...)`,
  `toISOString().split("T")[0]`) are parameters.
- Only the due date's passage through JSON is modelled (`Schema.Wire`). The ISO text
  is a parameter. `apiRequest` in client/src/lib/queryClient.ts, which calls
  `JSON.stringify`, and the `express.json()` set-up in server/index.ts are not part of
  this model.
- Path and query parameters are integers that are already parsed. A `parseInt` that
  gives `NaN` is not modelled, apart from the assignee select, where `NaN` is a
  constructor of its own.
- A JSON field of the wrong type is not modelled. Zod's error messages and the
  `errors` payload of a 400 are not modelled either.
- The react-hook-form resolver is modelled only where it decides whether `onSubmit`
  runs: the `tags` transform, a missing project, the due-date text
  (`TaskForm.DueDateResolves`) and, in the create dialog, the `NaN` assignee. Its checks
  of the other fields, its error messages and the form state are left out.
- UseProjects.ProjectsKeyAgreesWithRoute rests on `UseProjects.KeyParam`, which assumes
  that the query client's default fetcher sends the object in a query key as the
  query string of GET /projects. That fetcher (client/src/lib/queryClient.ts) is not
  part of this model, so the lemma relates the key to the route only under that
  mapping.
- UseTasks.KeyMatchesRoute rests on `UseTasks.KeyFilter` in the same way: it assumes the
  key's object becomes the `projectId` or `assigneeId` query parameter of GET /tasks.
- React rendering, cache invalidation and toasts are not part of this model.
- Concurrency: every store call is atomic, because JavaScript runs one callback at a
  time.
- The AdonisJS migration's cascade deletes and its different project defaults are
  not modelled (adonisjs/database/migrations/1712568000000_initial.ts:39-40). The
  AdonisJS `StatsController` is not modelled either; it counts projects by status
  rather than tasks.
- The AdonisJS tasks controller orders comments newest first. It is not part of this
  model; `MemStorage` orders them oldest first.
