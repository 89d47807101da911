/** The services as one small-step system. A request starts with reads and checks (`Begin`) and then takes one
    table or cache action at a time (`Advance`). Run without interruption it is a sequential service call
    (`Serve`); with steps of other requests in between it is the interleaved semantics. */
module Requests {

  import opened Wrappers
  import opened Text
  import opened Entities
  import opened Filter
  import opened Tables
  import opened CacheIndex

  /** `cache` is None for a service built with a nil cache. */
  datatype Sys = Sys(db: Db, cache: Option<Cached>)

  datatype Op =
    | CreateTask(actor: nat, create: CreateTaskRequest)
    | GetTask(caller: nat, id: nat)
    | ListTasks(caller: nat, filter: TaskFilter)
    | UpdateTask(actor: nat, id: nat, update: UpdateTaskRequest)
    | DeleteTask(actor: nat, id: nat)
    | History(caller: nat, id: nat)
    | CreateTeam(actor: nat, name: string)
    | Invite(actor: nat, teamId: nat, userId: nat, role: string)
    | Comment(caller: nat, id: nat, body: string)

  datatype Reply =
    | Failed(error: Error)
    | TaskReply(task: Task)
    | ListReply(list: TasksListResponse)
    | HistoryReply(entries: seq<TaskHistory>)
    | TeamReply(team: Team)
    | IdReply(id: nat)
    | Success

  /** The clock and the faults one step meets. `failingDel` and `failingEntry` number the Del or the history insert
      that fails; `foundRows` is the client's row-count mode. */
  datatype Env = Env(
    now: int,
    readFails: bool, writeFails: bool, ownerFails: bool, queryFails: bool, countFails: bool,
    beginFails: bool, failingEntry: Option<nat>, commitFails: bool, foundRows: bool,
    getFails: bool, setFails: bool, failingDel: Option<nat>)

  /** What a request still has to do, with what it has read so far. An invalidation's `next` is the Del it is at. */
  datatype Pending =
    | InsertTask(row: Task)
    | RunUpdateTx(actor: nat, id: nat, patch: TaskPatch, existing: Task, at: int)
    | RunSoftDelete(id: nat, teamId: nat)
    | LookUp(f: TaskFilter)
    | QueryRows(f: TaskFilter)
    | QueryCount(f: TaskFilter, rows: seq<Task>)
    | StoreList(f: TaskFilter, resp: TasksListResponse)
    | Invalidate(teamId: nat, next: nat, reply: Reply)
    | InsertTeam(team: Team)
    | AddOwner(team: Team, joinedAt: int)
    | AddMember(member: TeamMember, inviter: nat)
    | InsertComment(comment: TaskComment)

  datatype Next = Done(reply: Reply) | More(pending: Pending)

  // ---- reads and checks ------------------------------------------------------------------------

  function BeginCreateTask(db: Db, actor: nat, req: CreateTaskRequest, env: Env): Next
  {
    if req.title == "" || TrimSpace(req.title) == "" then Done(Failed(Validation))
    else if ByteLen(req.title) > 255 then Done(Failed(Validation))
    else if !IsValidStatus(req.status) then Done(Failed(Validation))
    else if req.teamId == 0 then Done(Failed(Validation))
    else if env.readFails then Done(Failed(Internal))
    else if !IsMember(db, req.teamId, actor) then Done(Failed(Forbidden))
    else
      More(InsertTask(Task(0, req.teamId, TrimSpace(req.title), req.description, req.status, req.assigneeId, actor,
                           env.now, env.now, None)))
  }

  /** FindByID, then GetMember on the task's team. Deleted rows are found too. */
  function FindForMember(db: Db, user: nat, id: nat, env: Env): Result<Task>
  {
    if env.readFails then Err(Internal)
    else if id !in db.tasks then Err(NotFound)
    else if !IsMember(db, db.tasks[id].teamId, user) then Err(Forbidden)
    else Ok(db.tasks[id])
  }

  function BeginGetTask(db: Db, caller: nat, id: nat, env: Env): Next
  {
    match FindForMember(db, caller, id, env)
    case Err(e) => Done(Failed(e))
    case Ok(t) => Done(TaskReply(t))
  }

  function BeginListTasks(db: Db, caller: nat, f: TaskFilter, env: Env): Next
  {
    if f.teamId == 0 then Done(Failed(Validation))
    else if env.readFails then Done(Failed(Internal))
    else if !IsMember(db, f.teamId, caller) then Done(Failed(Forbidden))
    else if f.status != "" && !IsValidStatus(f.status) then Done(Failed(Validation))
    else More(LookUp(f))
  }

  function BeginUpdateTask(db: Db, actor: nat, id: nat, req: UpdateTaskRequest, env: Env): Next
  {
    match BuildPatch(req)
    case None => Done(Failed(Validation))
    case Some(patch) =>
      if !HasChanges(req) then BeginGetTask(db, actor, id, env)
      else
        match FindForMember(db, actor, id, env)
        case Err(e) => Done(Failed(e))
        case Ok(t) => More(RunUpdateTx(actor, id, patch, t, env.now))
  }

  function BeginDeleteTask(db: Db, actor: nat, id: nat, env: Env): Next
  {
    match FindForMember(db, actor, id, env)
    case Err(e) => Done(Failed(e))
    case Ok(t) => More(RunSoftDelete(id, t.teamId))
  }

  function BeginHistory(db: Db, caller: nat, id: nat, env: Env): Next
  {
    match FindForMember(db, caller, id, env)
    case Err(e) => Done(Failed(e))
    case Ok(t) => if env.queryFails then Done(Failed(Internal)) else Done(HistoryReply(EntriesOf(db.history, id)))
  }

  function BeginCreateTeam(db: Db, actor: nat, rawName: string, env: Env): Next
  {
    var name := TrimSpace(rawName);
    if name == "" || ByteLen(name) > 100 then Done(Failed(Validation))
    else if env.readFails then Done(Failed(Internal))
    else if actor !in db.users then Done(Failed(NotFound))
    else More(InsertTeam(Team(0, name, actor, env.now, env.now)))
  }

  function BeginInvite(db: Db, actor: nat, teamId: nat, userId: nat, role: string, env: Env): Next
  {
    if env.readFails then Done(Failed(Internal))
    else if teamId !in db.teams then Done(Failed(NotFound))
    else if !IsMember(db, teamId, actor) then Done(Failed(Forbidden))
    else if !CanInvite(db.members[(teamId, actor)].role) then Done(Failed(Forbidden))
    else if userId !in db.users then Done(Failed(NotFound))
    else if !IsValidRole(role) then Done(Failed(Validation))
    else More(AddMember(TeamMember(userId, teamId, role, env.now), actor))
  }

  function BeginComment(db: Db, caller: nat, id: nat, rawBody: string, env: Env): Next
  {
    var body := TrimSpace(rawBody);
    if body == "" || ByteLen(body) > 4000 then Done(Failed(Validation))
    else
      match FindForMember(db, caller, id, env)
      case Err(e) => Done(Failed(e))
      case Ok(t) => More(InsertComment(TaskComment(0, id, caller, body, env.now, env.now)))
  }

  function Begin(db: Db, op: Op, env: Env): Next
  {
    match op
    case CreateTask(actor, req) => BeginCreateTask(db, actor, req, env)
    case GetTask(caller, id) => BeginGetTask(db, caller, id, env)
    case ListTasks(caller, f) => BeginListTasks(db, caller, f, env)
    case UpdateTask(actor, id, req) => BeginUpdateTask(db, actor, id, req, env)
    case DeleteTask(actor, id) => BeginDeleteTask(db, actor, id, env)
    case History(caller, id) => BeginHistory(db, caller, id, env)
    case CreateTeam(actor, name) => BeginCreateTeam(db, actor, name, env)
    case Invite(actor, teamId, userId, role) => BeginInvite(db, actor, teamId, userId, role, env)
    case Comment(caller, id, body) => BeginComment(db, caller, id, body, env)
  }

  // ---- actions ---------------------------------------------------------------------------------

  /** The foreign key on tasks.assignee_id. */
  predicate BadAssignee(db: Db, a: Option<nat>) { a.Some? && a.value !in db.users }

  function AdvanceInsertTask(db: Db, row: Task, env: Env): (Db, Next)
  {
    if env.writeFails || BadAssignee(db, row.assigneeId) then (db, Done(Failed(Internal)))
    else
      var t := row.(id := db.nextTask);
      (db.(tasks := db.tasks[t.id := t], nextTask := t.id + 1), More(Invalidate(t.teamId, 0, TaskReply(t))))
  }

  /** The whole transaction: it commits with the row and all its entries, or leaves the tables as they were. */
  function AdvanceUpdateTx(db: Db, p: Pending, env: Env): (Db, Next)
    requires p.RunUpdateTx?
  {
    if env.beginFails || env.writeFails then (db, Done(Failed(Internal)))
    else if !IsLive(db.tasks, p.id) then (db, Done(Failed(NotFound)))
    else if BadAssignee(db, p.patch.assigneeId) then (db, Done(Failed(Internal)))
    else
      var t := ApplyPatch(db.tasks[p.id], p.patch, env.now);
      var entries := HistoryEntries(p.id, p.actor, p.at, p.existing, t, p.patch);
      if (env.failingEntry.Some? && env.failingEntry.value < |entries|) || env.commitFails then
        (db, Done(Failed(Internal)))
      else
        (db.(tasks := db.tasks[p.id := t], history := InsertAll(db.history, entries)),
         More(Invalidate(p.existing.teamId, 0, TaskReply(t))))
  }

  function AdvanceSoftDelete(db: Db, id: nat, teamId: nat, env: Env): (Db, Next)
  {
    if env.writeFails then (db, Done(Failed(Internal)))
    else if !IsLive(db.tasks, id) then (db, Done(Failed(NotFound)))
    else (db.(tasks := db.tasks[id := Deleted(db.tasks[id], env.now)]), More(Invalidate(teamId, 0, Success)))
  }

  function AdvanceInsertTeam(db: Db, team: Team, env: Env): (Db, Next)
  {
    if env.writeFails then (db, Done(Failed(Internal)))
    else
      var t := team.(id := db.nextTeam);
      (db.(teams := db.teams[t.id := t], nextTeam := t.id + 1), More(AddOwner(t, env.now)))
  }

  function AddMemberRow(db: Db, m: TeamMember, fails: bool): Result<Db>
  {
    if fails then Err(Internal)
    else if IsMember(db, m.teamId, m.userId) then Err(AlreadyExists)
    else Ok(db.(members := db.members[(m.teamId, m.userId) := m]))
  }

  function AdvanceAddOwner(db: Db, team: Team, joinedAt: int, env: Env): (Db, Next)
  {
    match AddMemberRow(db, TeamMember(team.createdBy, team.id, OWNER, joinedAt), env.ownerFails)
    case Err(e) => (db, Done(Failed(e)))
    case Ok(db') => (db', Done(TeamReply(team)))
  }

  function AdvanceAddMember(db: Db, m: TeamMember, env: Env): (Db, Next)
  {
    match AddMemberRow(db, m, env.writeFails)
    case Err(e) => (db, Done(Failed(e)))
    case Ok(db') => (db', Done(Success))
  }

  function AdvanceInsertComment(db: Db, c: TaskComment, env: Env): (Db, Next)
  {
    if env.writeFails then (db, Done(Failed(Internal)))
    else
      var id := |db.comments| + 1;
      (db.(comments := db.comments + [c.(id := id)]), Done(IdReply(id)))
  }

  /** The task writes; each is followed by an invalidation when it succeeds. */
  predicate Writes(p: Pending) { p.InsertTask? || p.RunUpdateTx? || p.RunSoftDelete? }

  /** The actions on the tables; the cache actions leave them alone. */
  function AdvanceDb(db: Db, p: Pending, env: Env): (r: (Db, Next))
    requires !(p.LookUp? || p.StoreList? || p.Invalidate?)
    ensures Writes(p) && r.1.More? ==> r.1.pending.Invalidate? && r.1.pending.next == 0
  {
    match p
    case InsertTask(row) => AdvanceInsertTask(db, row, env)
    case RunUpdateTx(_, _, _, _, _) => AdvanceUpdateTx(db, p, env)
    case RunSoftDelete(id, teamId) => AdvanceSoftDelete(db, id, teamId, env)
    case QueryRows(f) =>
      (match ListRows(db, f)
       case Err(e) => (db, Done(Failed(e)))
       case Ok(rows) => if env.queryFails then (db, Done(Failed(Internal))) else (db, More(QueryCount(f, rows))))
    case QueryCount(f, rows) =>
      if env.countFails then (db, Done(Failed(Internal)))
      else (db, More(StoreList(f, ToResponse(f, rows, |Matching(db, f)|))))
    case InsertTeam(team) => AdvanceInsertTeam(db, team, env)
    case AddOwner(team, joinedAt) => AdvanceAddOwner(db, team, joinedAt, env)
    case AddMember(m, _) => AdvanceAddMember(db, m, env)
    case InsertComment(c) => AdvanceInsertComment(db, c, env)
  }

  function ToResponse(f: TaskFilter, rows: seq<Task>, total: nat): TasksListResponse
  {
    TasksListResponse(
      seq(|rows|, i requires 0 <= i < |rows| => ToTaskResponse(rows[i])), Pagination(f.page, f.limit, total))
  }

  /** One Del. The first that fails ends the invalidation; a nil cache has nothing to delete. */
  function AdvanceInvalidate(cache: Option<Cached>, p: Pending, env: Env): (Option<Cached>, Next)
    requires p.Invalidate?
  {
    if cache.None? || p.next >= KEYS_PER_TEAM || env.failingDel == Some(p.next) then (cache, Done(p.reply))
    else
      (Some(cache.value - {DeletionKey(p.teamId, p.next)}),
       if p.next + 1 < KEYS_PER_TEAM then More(p.(next := p.next + 1)) else Done(p.reply))
  }

  function Advance(s: Sys, p: Pending, env: Env): (Sys, Next)
  {
    match p
    case LookUp(f) =>
      (match Hit(s.cache, f, env.now, env.getFails)
       case Some(resp) => (s, Done(ListReply(resp)))
       case None => (s, More(QueryRows(f))))
    case StoreList(f, resp) => (s.(cache := Stored(s.cache, f, resp, env.now, env.setFails)), Done(ListReply(resp)))
    case Invalidate(_, _, _) => var (cache, next) := AdvanceInvalidate(s.cache, p, env); (s.(cache := cache), next)
    case _ => var (db, next) := AdvanceDb(s.db, p, env); (s.(db := db), next)
  }

  // ---- a request run without interruption ------------------------------------------------------

  function Rank(n: Next): nat
  {
    match n
    case Done(_) => 0
    case More(LookUp(_)) => 4
    case More(QueryRows(_)) => 3
    case More(QueryCount(_, _)) => 2
    case More(StoreList(_, _)) => 1
    case More(Invalidate(_, n, _)) => if n < KEYS_PER_TEAM then KEYS_PER_TEAM + 1 - n else 1
    case More(AddOwner(_, _)) => 1
    case More(_) => KEYS_PER_TEAM + 2
  }

  function Complete(s: Sys, n: Next, env: Env): (Sys, Reply)
    decreases Rank(n)
  {
    match n
    case Done(r) => (s, r)
    case More(p) => var (s', n') := Advance(s, p, env); Complete(s', n', env)
  }

  /** One sequential service call. */
  function Serve(s: Sys, op: Op, env: Env): (Sys, Reply) { Complete(s, Begin(s.db, op, env), env) }

  // ---- what each request comes to --------------------------------------------------------------

  /** A create, update or delete: one table action, then the invalidation if it succeeded. */
  function ServeWrite(s: Sys, p: Pending, env: Env): (Sys, Reply)
    requires Writes(p)
  {
    var (db, n) := AdvanceDb(s.db, p, env);
    match n
    case Done(r) => (s.(db := db), r)
    case More(q) => (Sys(db, Invalidated(s.cache, q.teamId, env.failingDel)), q.reply)
  }

  lemma OneMoreKey(cache: Cached, teamId: nat, n: nat)
    requires n < KEYS_PER_TEAM
    ensures cache - DeletionKeys(teamId, n) - {DeletionKey(teamId, n)} == cache - DeletionKeys(teamId, n + 1)
  {
    assert DeletionKeys(teamId, n + 1) == DeletionKeys(teamId, n) + {DeletionKey(teamId, n)};
  }

  /** The Dels that are left, one after another, up to the failing one. */
  lemma {:induction false} CompleteDels(s: Sys, before: Cached, p: Pending, env: Env)
    requires p.Invalidate? && p.next <= DelsDone(env.failingDel)
    requires s.cache == Some(before - DeletionKeys(p.teamId, p.next))
    ensures Complete(s, More(p), env) == (s.(cache := Invalidated(Some(before), p.teamId, env.failingDel)), p.reply)
    decreases KEYS_PER_TEAM - p.next
  {
    if p.next < DelsDone(env.failingDel) {
      OneMoreKey(before, p.teamId, p.next);
      var (s', n') := Advance(s, p, env);
      if n'.More? {
        CompleteDels(s', before, n'.pending, env);
      }
    }
  }

  lemma CompleteInvalidate(s: Sys, p: Pending, env: Env)
    requires p.Invalidate? && p.next == 0
    ensures Complete(s, More(p), env) == (s.(cache := Invalidated(s.cache, p.teamId, env.failingDel)), p.reply)
  {
    if s.cache.Some? {
      assert s.cache.value - DeletionKeys(p.teamId, 0) == s.cache.value;
      CompleteDels(s, s.cache.value, p, env);
    }
  }

  lemma CompleteWrite(s: Sys, p: Pending, env: Env)
    requires Writes(p)
    ensures Complete(s, More(p), env) == ServeWrite(s, p, env)
  {
    var (s1, n1) := Advance(s, p, env);
    if n1.More? {
      CompleteInvalidate(s1, n1.pending, env);
    }
  }

  /** Requests that take a single action. */
  lemma CompleteOne(s: Sys, p: Pending, env: Env)
    requires p.AddMember? || p.InsertComment?
    ensures Complete(s, More(p), env) == (Advance(s, p, env).0, Advance(s, p, env).1.reply)
  {
  }

  /** The page and the total the tables give for a filter. */
  function Response(db: Db, f: TaskFilter): Result<TasksListResponse>
  {
    match ListRows(db, f)
    case Err(e) => Err(e)
    case Ok(rows) => Ok(ToResponse(f, rows, |Matching(db, f)|))
  }

  /** What an uncached List answers. */
  function FreshList(db: Db, f: TaskFilter, env: Env): Result<TasksListResponse>
  {
    if Response(db, f).Ok? && (env.queryFails || env.countFails) then Err(Internal) else Response(db, f)
  }

  function ServeList(s: Sys, f: TaskFilter, env: Env): (Sys, Reply)
  {
    match Hit(s.cache, f, env.now, env.getFails)
    case Some(hit) => (s, ListReply(hit))
    case None =>
      match FreshList(s.db, f, env)
      case Err(e) => (s, Failed(e))
      case Ok(resp) => (s.(cache := Stored(s.cache, f, resp, env.now, env.setFails)), ListReply(resp))
  }

  lemma CompleteList(s: Sys, f: TaskFilter, env: Env)
    ensures Complete(s, More(LookUp(f)), env) == ServeList(s, f, env)
  {
    var (s1, n1) := Advance(s, QueryRows(f), env);
    if n1.More? {
      var (s2, n2) := Advance(s1, n1.pending, env);
      assert Complete(s1, n1, env) == Complete(s2, n2, env);
    }
    assert Complete(s, More(QueryRows(f)), env) == Complete(s1, n1, env);
  }

  /** Team creation is two writes with nothing around them: the team row stays when adding its owner fails. */
  function ServeTeam(s: Sys, team: Team, env: Env): (Sys, Reply)
  {
    if env.writeFails then (s, Failed(Internal))
    else
      var t := team.(id := s.db.nextTeam);
      var db := s.db.(teams := s.db.teams[t.id := t], nextTeam := t.id + 1);
      var (db', n) := AdvanceAddOwner(db, t, env.now, env);
      (s.(db := db'), n.reply)
  }

  lemma CompleteTeam(s: Sys, team: Team, env: Env)
    ensures Complete(s, More(InsertTeam(team)), env) == ServeTeam(s, team, env)
  {
    var (s1, n1) := Advance(s, InsertTeam(team), env);
    if n1.More? {
      var (s2, n2) := Advance(s1, n1.pending, env);
      assert Complete(s1, n1, env) == Complete(s2, n2, env);
    }
  }
}
