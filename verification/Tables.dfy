/** The tables, and what the repositories' statements do to them as functions: the specification the repository and
    service methods are proved against. */
module Tables {

  import opened Wrappers
  import opened Text
  import opened Entities
  import opened Filter
  import Sql

  type Rows = Sql.Rows

  /** `members` is keyed by (team, user), the primary key of team_members. Rows are never physically deleted, so a
      history or comment row's id is its position, counted from 1. */
  datatype Db = Db(
    users: set<nat>,
    teams: map<nat, Team>, nextTeam: nat,
    members: map<(nat, nat), TeamMember>,
    tasks: Rows, nextTask: nat,
    history: seq<TaskHistory>,
    comments: seq<TaskComment>)

  // ---- tasks -----------------------------------------------------------------------------------

  predicate Matches(f: TaskFilter, t: Task)
  {
    && t.Live()
    && (f.teamId != 0 ==> t.teamId == f.teamId)
    && (f.status != "" ==> t.status == f.status)
    && (f.assigneeId.Some? ==> t.assigneeId == f.assigneeId)
  }

  /** All live tasks a filter asks for, in id order. */
  function Matching(db: Db, f: TaskFilter): seq<Task>
  {
    Sql.Select(db.tasks, db.nextTask, t => Matches(f, t))
  }

  /** `TaskRepository.List`: MySQL rejects a negative LIMIT or OFFSET. */
  function ListRows(db: Db, f: TaskFilter): Result<seq<Task>>
  {
    if f.limit < 0 || Offset(f) < 0 then Err(Internal) else Ok(Page(Matching(db, f), Offset(f), f.limit))
  }

  function ApplyPatch(t: Task, p: TaskPatch, now: int): Task
  {
    t.(title := OrElse(p.title, t.title),
       description := if p.description.Some? then p.description else t.description,
       status := OrElse(p.status, t.status),
       assigneeId := if p.clearAssignee then None else if p.assigneeId.Some? then p.assigneeId else t.assigneeId,
       updatedAt := now)
  }

  /** Only live rows are updated. */
  predicate IsLive(rows: Rows, id: nat) { id in rows && rows[id].Live() }

  function Deleted(t: Task, now: int): Task { t.(deletedAt := Some(now), updatedAt := now) }

  // ---- history ---------------------------------------------------------------------------------

  /** `InsertTx` for each entry in turn; ids are assigned on insertion. */
  function InsertAll(history: seq<TaskHistory>, entries: seq<TaskHistory>): seq<TaskHistory>
  {
    history + seq(|entries|, i requires 0 <= i < |entries| => entries[i].(id := |history| + i + 1))
  }

  /** `ListByTask`. */
  function EntriesOf(history: seq<TaskHistory>, taskId: nat): seq<TaskHistory>
  {
    if history == [] then []
    else
      var h := history[|history| - 1];
      EntriesOf(history[..|history| - 1], taskId) + (if h.taskId == taskId then [h] else [])
  }

  // ---- membership ------------------------------------------------------------------------------

  predicate IsMember(db: Db, teamId: nat, userId: nat) { (teamId, userId) in db.members }

  // ---- what an update writes -------------------------------------------------------------------

  /** `buildPatchRich`: None is a validation failure. */
  function BuildPatch(req: UpdateTaskRequest): Option<TaskPatch>
  {
    if req.title.Some? && (TrimSpace(req.title.value) == "" || ByteLen(TrimSpace(req.title.value)) > 255) then None
    else if req.status.Some? && !IsValidStatus(req.status.value) then None
    else Some(TaskPatch(
      if req.title.Some? then Some(TrimSpace(req.title.value)) else None,
      req.description,
      req.status,
      if req.assigneeId.Some? && req.assigneeId.value != 0 then req.assigneeId else None,
      req.assigneeId == Some(0)))
  }

  predicate HasChanges(req: UpdateTaskRequest)
  {
    req.title.Some? || req.description.Some? || req.status.Some? || req.assigneeId.Some?
  }

  /** `hasChanges` is exactly "the patch is not empty", and a patch never both sets and clears the assignee. Applied to
      a row it writes the fields the request mentions, with the title trimmed and assignee 0 meaning none, and no
      others. */
  lemma PatchMeaning(req: UpdateTaskRequest, t: Task, now: int)
    requires BuildPatch(req).Some?
    ensures HasChanges(req) <==> !BuildPatch(req).value.Empty()
    ensures !(BuildPatch(req).value.assigneeId.Some? && BuildPatch(req).value.clearAssignee)
    ensures var u := ApplyPatch(t, BuildPatch(req).value, now);
      && u.title == (if req.title.Some? then TrimSpace(req.title.value) else t.title)
      && u.description == (if req.description.Some? then req.description else t.description)
      && u.status == (if req.status.Some? then req.status.value else t.status)
      && u.assigneeId == (if req.assigneeId == Some(0) then None
                          else if req.assigneeId.Some? then req.assigneeId else t.assigneeId)
      && u == t.(title := u.title, description := u.description, status := u.status, assigneeId := u.assigneeId,
                 updatedAt := now)
  {
  }

  function Show(assignee: Option<nat>): Option<string>
  {
    if assignee.Some? then Some(PrintNat(assignee.value)) else None
  }

  const F_TITLE := "title"
  const F_DESCRIPTION := "description"
  const F_STATUS := "status"
  const F_ASSIGNEE := "assignee_id"

  function Entry(taskId: nat, actor: nat, now: int, field: string, o: Option<string>, n: Option<string>): TaskHistory
  {
    TaskHistory(0, taskId, actor, field, o, n, now)
  }

  predicate LogsTitle(o: Task, n: Task, p: TaskPatch) { p.title.Some? && o.title != n.title }

  predicate LogsDescription(o: Task, n: Task, p: TaskPatch)
  {
    p.description.Some? && (o.description.None? || n.description.None? || o.description != n.description)
  }

  predicate LogsStatus(o: Task, n: Task, p: TaskPatch) { p.status.Some? && o.status != n.status }

  predicate LogsAssignee(p: TaskPatch) { p.assigneeId.Some? || p.clearAssignee }

  /** `buildHistoryEntries`: at most one entry a field, title first; the assignee is logged whenever it is written. */
  function HistoryEntries(taskId: nat, actor: nat, now: int, o: Task, n: Task, p: TaskPatch): seq<TaskHistory>
  {
    (if LogsTitle(o, n, p) then [Entry(taskId, actor, now, F_TITLE, Some(o.title), Some(n.title))] else []) +
    (if LogsDescription(o, n, p) then [Entry(taskId, actor, now, F_DESCRIPTION, o.description, n.description)]
     else []) +
    (if LogsStatus(o, n, p) then [Entry(taskId, actor, now, F_STATUS, Some(o.status), Some(n.status))] else []) +
    (if LogsAssignee(p) then [Entry(taskId, actor, now, F_ASSIGNEE, Show(o.assigneeId), Show(n.assigneeId))] else [])
  }
}
