/** The services, updating the database and the cache step by step. Each method is proved to do what the request
    system does when it runs the same request without interruption. */
module Services {

  import opened Wrappers
  import opened Text
  import opened Entities
  import opened Filter
  import opened Tables
  import opened CacheIndex
  import opened Requests
  import opened Invariants
  import opened Repositories
  import opened CacheStore

  /** `buildPatchRich`: the patch, whether it is valid, and whether it changes anything. */
  method BuildPatchRich(req: UpdateTaskRequest) returns (p: TaskPatch, ok: bool, hasChanges: bool)
    ensures ok <==> BuildPatch(req).Some?
    ensures ok ==> p == BuildPatch(req).value && hasChanges == HasChanges(req)
    ensures ok && hasChanges ==> !p.Empty() && !(p.assigneeId.Some? && p.clearAssignee)
  {
    p := TaskPatch(None, None, None, None, false);
    var changes := 0;
    if req.title.Some? {
      var title := TrimSpace(req.title.value);
      if title == "" || ByteLen(title) > 255 {
        return p, false, false;
      }
      p := p.(title := Some(title));
      changes := changes + 1;
    }
    if req.description.Some? {
      p := p.(description := req.description);
      changes := changes + 1;
    }
    if req.status.Some? {
      if !IsValidStatus(req.status.value) {
        return p, false, false;
      }
      p := p.(status := req.status);
      changes := changes + 1;
    }
    if req.assigneeId.Some? {
      if req.assigneeId.value == 0 {
        p := p.(clearAssignee := true);
      } else {
        p := p.(assigneeId := req.assigneeId);
      }
      changes := changes + 1;
    }
    return p, true, changes > 0;
  }

  /** `buildHistoryEntries`. */
  method BuildHistoryEntries(taskId: nat, actor: nat, now: int, oldT: Task, newT: Task, patch: TaskPatch)
    returns (out: seq<TaskHistory>)
    ensures out == HistoryEntries(taskId, actor, now, oldT, newT, patch)
  {
    out := [];
    if patch.title.Some? && oldT.title != newT.title {
      out := out + [Entry(taskId, actor, now, F_TITLE, Some(oldT.title), Some(newT.title))];
    }
    if patch.description.Some? && (oldT.description.None? || newT.description.None?
                                   || oldT.description.value != newT.description.value) {
      out := out + [Entry(taskId, actor, now, F_DESCRIPTION, oldT.description, newT.description)];
    }
    if patch.status.Some? && oldT.status != newT.status {
      out := out + [Entry(taskId, actor, now, F_STATUS, Some(oldT.status), Some(newT.status))];
    }
    if patch.assigneeId.Some? || patch.clearAssignee {
      var oldStr: Option<string>, newStr: Option<string> := None, None;
      if oldT.assigneeId.Some? {
        oldStr := Some(PrintNat(oldT.assigneeId.value));
      }
      if newT.assigneeId.Some? {
        newStr := Some(PrintNat(newT.assigneeId.value));
      }
      out := out + [Entry(taskId, actor, now, F_ASSIGNEE, oldStr, newStr)];
    }
  }

  /** The response items of a page, row by row. */
  method ToItems(rows: seq<Task>) returns (items: seq<TaskResponse>)
    ensures items == seq(|rows|, k requires 0 <= k < |rows| => ToTaskResponse(rows[k]))
  {
    items := [];
    for i := 0 to |rows|
      invariant |items| == i
      invariant forall k :: 0 <= k < i ==> items[k] == ToTaskResponse(rows[k])
    {
      items := items + [ToTaskResponse(rows[i])];
    }
  }

  /** A missing membership row is a refusal. */
  function Denied(e: Error): Error { if e == NotFound then Forbidden else e }

  class TaskService {
    const db: Database
    const cache: Cache?
    const tasks: TaskRepo
    const history: HistoryRepo
    const teams: TeamRepo
    const lists: TaskListCache

    constructor (db: Database, cache: Cache?)
      ensures this.db == db && this.cache == cache && Wired()
    {
      this.db := db;
      this.cache := cache;
      tasks := new TaskRepo(db);
      history := new HistoryRepo(db);
      teams := new TeamRepo(db);
      lists := new TaskListCache(cache);
    }

    predicate Wired() { tasks.db == db && history.db == db && teams.db == db && lists.cache == cache }

    function State(): Sys
      reads db, cache
    {
      Sys(db.tables, View(cache))
    }

    method Create(actor: nat, req: CreateTaskRequest, env: Env) returns (out: Reply)
      requires Wired()
      modifies db, cache
      ensures (State(), out) == Serve(old(State()), CreateTask(actor, req), env)
    {
      ghost var s := State();
      if req.title == "" || TrimSpace(req.title) == "" {
        return Failed(Validation);
      }
      if ByteLen(req.title) > 255 {
        return Failed(Validation);
      }
      if !IsValidStatus(req.status) || req.status == "" {
        return Failed(Validation);
      }
      if req.teamId == 0 {
        return Failed(Validation);
      }
      var mem := teams.GetMember(req.teamId, actor, env.readFails);
      if mem.Err? {
        return Failed(Denied(mem.error));
      }
      var t := Task(0, req.teamId, TrimSpace(req.title), req.description, req.status, req.assigneeId, actor,
                    env.now, env.now, None);
      CompleteWrite(s, InsertTask(t), env);
      var id := tasks.Create(t, env.writeFails);
      if id.Err? {
        return Failed(id.error);
      }
      t := t.(id := id.value);
      var _ := lists.Invalidate(t.teamId, env.failingDel);
      out := TaskReply(t);
    }

    method Get(caller: nat, id: nat, env: Env) returns (out: Reply)
      requires Wired()
      ensures (State(), out) == Serve(State(), GetTask(caller, id), env)
    {
      var t := tasks.FindByID(id, env.readFails);
      if t.Err? {
        return Failed(t.error);
      }
      var mem := teams.GetMember(t.value.teamId, caller, env.readFails);
      if mem.Err? {
        return Failed(Denied(mem.error));
      }
      out := TaskReply(t.value);
    }

    method List(caller: nat, f: TaskFilter, env: Env) returns (out: Reply)
      requires Wired()
      modifies cache
      ensures (State(), out) == Serve(old(State()), ListTasks(caller, f), env)
    {
      ghost var s := State();
      if f.teamId == 0 {
        return Failed(Validation);
      }
      var mem := teams.GetMember(f.teamId, caller, env.readFails);
      if mem.Err? {
        return Failed(Denied(mem.error));
      }
      if f.status != "" && !IsValidStatus(f.status) {
        return Failed(Validation);
      }
      CompleteList(s, f, env);
      var cached := lists.Get(f, env.now, env.getFails);
      if cached.Some? {
        return ListReply(cached.value);
      }
      var rows := tasks.List(f, env.queryFails);
      if rows.Err? {
        return Failed(rows.error);
      }
      var total := tasks.Count(f, env.countFails);
      if total.Err? {
        return Failed(total.error);
      }
      var items := ToItems(rows.value);
      var resp := TasksListResponse(items, Pagination(f.page, f.limit, total.value));
      lists.Store(f, resp, env.now, env.setFails);
      out := ListReply(resp);
    }

    /** Inserts the entries one after another, stopping at the first insert that fails. */
    method InsertEntries(entries: seq<TaskHistory>, failingEntry: Option<nat>) returns (ok: bool)
      requires Wired()
      modifies db
      ensures ok == (failingEntry.None? || failingEntry.value >= |entries|)
      ensures ok ==>
        db.tables == old(db.tables).(history := InsertAll(old(db.tables).history, entries))
    {
      ghost var before := db.tables;
      ok := true;
      var i := 0;
      while i < |entries| && ok
        invariant 0 <= i <= |entries|
        invariant ok ==> db.tables == before.(history := InsertAll(before.history, entries[..i]))
        invariant ok ==> failingEntry.None? || failingEntry.value >= i
        invariant !ok ==> failingEntry.Some? && failingEntry.value < |entries|
      {
        InsertOneMore(before.history, entries, i);
        ok := history.InsertTx(entries[i], failingEntry == Some(i));
        i := i + 1;
      }
      assert entries[..|entries|] == entries;
    }

    /** `WithinTx` around the row update and its history entries: anything but a commit rolls back. */
    method UpdateWithinTx(actor: nat, id: nat, patch: TaskPatch, existing: Task, now: int, env: Env)
      returns (r: Result<Task>)
      requires Wired() && KeysOk(db.tables) && PatchOk(patch)
      modifies db
      ensures var (after, next) := AdvanceUpdateTx(old(db.tables), RunUpdateTx(actor, id, patch, existing, now), env);
        && db.tables == after
        && (r.Ok? ==> next == More(Invalidate(existing.teamId, 0, TaskReply(r.value))))
        && (r.Err? ==> next == Done(Failed(r.error)) && db.tables == old(db.tables))
    {
      if env.beginFails {
        return Err(Internal);
      }
      var tx := new Tx.Begin(db);
      var committed := false;
      var u := tasks.UpdateTx(id, patch, env.now, env.foundRows, env.writeFails);
      if u.Err? {
        r := Err(u.error);
      } else {
        var t := u.value.value;
        var entries := BuildHistoryEntries(id, actor, now, existing, t, patch);
        var inserted := InsertEntries(entries, env.failingEntry);
        if inserted && !env.commitFails {
          committed := true;
          r := Ok(t);
        } else {
          r := Err(Internal);
        }
      }
      if !committed {
        tx.Rollback();
      }
    }

    method Update(actor: nat, id: nat, req: UpdateTaskRequest, env: Env) returns (out: Reply)
      requires Wired() && Inv(db.tables)
      modifies db, cache
      ensures (State(), out) == Serve(old(State()), UpdateTask(actor, id, req), env)
      ensures out.Failed? ==> State() == old(State())
    {
      ghost var s := State();
      BeginOk(db.tables, UpdateTask(actor, id, req), env);
      RowKeys(db.tables);
      var patch, patchOk, hasChanges := BuildPatchRich(req);
      if !patchOk {
        return Failed(Validation);
      }
      if !hasChanges {
        out := Get(actor, id, env);
        return;
      }
      var existing := tasks.FindByID(id, env.readFails);
      if existing.Err? {
        return Failed(existing.error);
      }
      var mem := teams.GetMember(existing.value.teamId, actor, env.readFails);
      if mem.Err? {
        return Failed(Denied(mem.error));
      }
      CompleteWrite(s, RunUpdateTx(actor, id, patch, existing.value, env.now), env);
      var updated := UpdateWithinTx(actor, id, patch, existing.value, env.now, env);
      if updated.Err? {
        return Failed(updated.error);
      }
      var _ := lists.Invalidate(existing.value.teamId, env.failingDel);
      out := TaskReply(updated.value);
    }

    method Delete(actor: nat, id: nat, env: Env) returns (out: Reply)
      requires Wired() && Inv(db.tables)
      modifies db, cache
      ensures (State(), out) == Serve(old(State()), DeleteTask(actor, id), env)
    {
      ghost var s := State();
      var t := tasks.FindByID(id, env.readFails);
      if t.Err? {
        return Failed(t.error);
      }
      var mem := teams.GetMember(t.value.teamId, actor, env.readFails);
      if mem.Err? {
        return Failed(Denied(mem.error));
      }
      CompleteWrite(s, RunSoftDelete(id, t.value.teamId), env);
      RowKeys(db.tables);
      var r := tasks.SoftDelete(id, env.now, env.foundRows, env.writeFails);
      if r.Err? {
        return Failed(r.error);
      }
      var _ := lists.Invalidate(t.value.teamId, env.failingDel);
      out := Success;
    }

    method TaskHistory(caller: nat, id: nat, env: Env) returns (out: Reply)
      requires Wired()
      ensures (State(), out) == Serve(State(), History(caller, id), env)
    {
      var t := tasks.FindByID(id, env.readFails);
      if t.Err? {
        return Failed(t.error);
      }
      var mem := teams.GetMember(t.value.teamId, caller, env.readFails);
      if mem.Err? {
        return Failed(Denied(mem.error));
      }
      var rows := history.ListByTask(id, env.queryFails);
      if rows.Err? {
        return Failed(rows.error);
      }
      var entries: seq<Entities.TaskHistory> := [];
      for i := 0 to |rows.value|
        invariant entries == rows.value[..i]
      {
        entries := entries + [rows.value[i]];
      }
      assert rows.value[..|rows.value|] == rows.value;
      out := HistoryReply(entries);
    }
  }

  lemma RowKeys(db: Db)
    requires Inv(db)
    ensures KeysOk(db)
  {
    forall i | i in db.tasks
      ensures db.tasks[i].id == i < db.nextTask
      ensures db.tasks[i].assigneeId.Some? ==> db.tasks[i].assigneeId.value in db.users
    {
      assert TaskOk(db, i);
    }
  }

  lemma InsertOneMore(h: seq<TaskHistory>, es: seq<TaskHistory>, i: nat)
    requires i < |es|
    ensures InsertAll(h, es[..i + 1]) ==
      InsertAll(h, es[..i]) + [es[i].(id := |InsertAll(h, es[..i])| + 1)]
  {
  }

  class TeamService {
    const db: Database
    const cache: Cache?
    const teams: TeamRepo

    constructor (db: Database, cache: Cache?)
      ensures this.db == db && this.cache == cache && Wired()
    {
      this.db := db;
      this.cache := cache;
      teams := new TeamRepo(db);
    }

    predicate Wired() { teams.db == db }

    function State(): Sys
      reads db, cache
    {
      Sys(db.tables, View(cache))
    }

    /** Two writes and no transaction. */
    method Create(actor: nat, rawName: string, env: Env) returns (out: Reply)
      requires Wired()
      modifies db
      ensures (State(), out) == Serve(old(State()), CreateTeam(actor, rawName), env)
    {
      ghost var s := State();
      var name := TrimSpace(rawName);
      if name == "" {
        return Failed(Validation);
      }
      if ByteLen(name) > 100 {
        return Failed(Validation);
      }
      if env.readFails {
        return Failed(Internal);
      }
      if actor !in db.tables.users {
        return Failed(NotFound);
      }
      var t := Team(0, name, actor, env.now, env.now);
      CompleteTeam(s, t, env);
      var id := teams.Create(t, env.writeFails);
      if id.Err? {
        return Failed(id.error);
      }
      t := t.(id := id.value);
      var added := teams.AddMember(TeamMember(actor, id.value, OWNER, env.now), env.ownerFails);
      if added.Err? {
        return Failed(added.error);
      }
      out := TeamReply(t);
    }

    method InviteMember(actor: nat, teamId: nat, userId: nat, role: string, env: Env) returns (out: Reply)
      requires Wired()
      modifies db
      ensures (State(), out) == Serve(old(State()), Invite(actor, teamId, userId, role), env)
    {
      if env.readFails {
        return Failed(Internal);
      }
      if teamId !in db.tables.teams {
        return Failed(NotFound);
      }
      var mem := teams.GetMember(teamId, actor, env.readFails);
      if mem.Err? {
        return Failed(Denied(mem.error));
      }
      if !CanInvite(mem.value.role) {
        return Failed(Forbidden);
      }
      if userId !in db.tables.users {
        return Failed(NotFound);
      }
      if !IsValidRole(role) {
        return Failed(Validation);
      }
      CompleteOne(State(), AddMember(TeamMember(userId, teamId, role, env.now), actor), env);
      var added := teams.AddMember(TeamMember(userId, teamId, role, env.now), env.writeFails);
      if added.Err? {
        return Failed(added.error);
      }
      out := Success;
    }
  }

  class CommentService {
    const db: Database
    const cache: Cache?
    const comments: CommentRepo
    const tasks: TaskRepo
    const teams: TeamRepo

    constructor (db: Database, cache: Cache?)
      ensures this.db == db && this.cache == cache && Wired()
    {
      this.db := db;
      this.cache := cache;
      comments := new CommentRepo(db);
      tasks := new TaskRepo(db);
      teams := new TeamRepo(db);
    }

    predicate Wired() { comments.db == db && tasks.db == db && teams.db == db }

    function State(): Sys
      reads db, cache
    {
      Sys(db.tables, View(cache))
    }

    method Create(caller: nat, taskId: nat, rawBody: string, env: Env) returns (out: Reply)
      requires Wired()
      modifies db
      ensures (State(), out) == Serve(old(State()), Comment(caller, taskId, rawBody), env)
    {
      var body := TrimSpace(rawBody);
      if body == "" {
        return Failed(Validation);
      }
      if ByteLen(body) > 4000 {
        return Failed(Validation);
      }
      var t := tasks.FindByID(taskId, env.readFails);
      if t.Err? {
        return Failed(t.error);
      }
      var mem := teams.GetMember(t.value.teamId, caller, env.readFails);
      if mem.Err? {
        return Failed(Denied(mem.error));
      }
      CompleteOne(State(), InsertComment(TaskComment(0, taskId, caller, body, env.now, env.now)), env);
      var id := comments.Create(TaskComment(0, taskId, caller, body, env.now, env.now), env.writeFails);
      out := if id.Err? then Failed(id.error) else IdReply(id.value);
    }
  }
}
