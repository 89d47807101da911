/** What each sequential request answers and leaves behind, field by field: which failure it gets when, and on success
    exactly which rows and cache entries are new. */
module Outcomes {

  import opened Wrappers
  import opened Text
  import opened Entities
  import opened Filter
  import opened Tables
  import opened CacheIndex
  import opened Requests
  import opened Invariants
  import opened Runs
  import opened HistoryReplay
  import opened Interleaving
  import opened Atomicity
  import Sql

  // ---- what requests have in common ------------------------------------------------------------

  predicate AStatus(s: string) { s == "todo" || s == "in_progress" || s == "done" }

  /** A user may be named as an assignee. */
  predicate Assignable(db: Db, a: Option<nat>) { a.Some? ==> a.value in db.users }

  predicate BelongsTo(db: Db, user: nat, team: nat) { (team, user) in db.members }

  /** The task exists, deleted or not, and the user is in its team. */
  predicate MayTouch(db: Db, user: nat, id: nat) { id in db.tasks && BelongsTo(db, user, db.tasks[id].teamId) }

  /** The row is there and not deleted. */
  predicate Standing(db: Db, id: nat) { id in db.tasks && db.tasks[id].deletedAt.None? }

  /** What asking for a task of somebody else's team, or for none, comes to. */
  predicate Turned(db: Db, user: nat, id: nat, env: Env, r: Reply)
  {
    && (env.readFails ==> r == Failed(Internal))
    && (!env.readFails && id !in db.tasks ==> r == Failed(NotFound))
    && (!env.readFails && id in db.tasks && !BelongsTo(db, user, db.tasks[id].teamId) ==> r == Failed(Forbidden))
  }

  /** The key is one of the team's that come up before the failing delete. */
  ghost predicate Dropped(key: string, team: nat, failingDel: Option<nat>)
  {
    exists f: TaskFilter :: Key(f) == key && Keyed(f) && f.teamId == team && 1 <= f.page <= 100
      && (failingDel.Some? ==> Ordinal(f) < failingDel.value)
  }

  /** Those entries are gone and the others are as they were. */
  ghost predicate ListsDropped(cache: Option<Cached>, cache': Option<Cached>, team: nat, failingDel: Option<nat>)
  {
    && cache'.Some? == cache.Some?
    && (cache.Some? ==>
          && (forall key :: key in cache'.value <==> key in cache.value && !Dropped(key, team, failingDel))
          && (forall key :: key in cache'.value ==> cache'.value[key] == cache.value[key]))
  }

  lemma DroppedExact(key: string, team: nat, failingDel: Option<nat>)
    ensures Dropped(key, team, failingDel) <==> key in DeletionKeys(team, DelsDone(failingDel))
  {
    hide Key, DeletionKey;
    if Dropped(key, team, failingDel) {
      var f: TaskFilter :| Key(f) == key && Keyed(f) && f.teamId == team && 1 <= f.page <= 100
        && (failingDel.Some? ==> Ordinal(f) < failingDel.value);
      LabelNumbered(f.status);
      DeletionExact(f, team, DelsDone(failingDel));
    }
    if key in DeletionKeys(team, DelsDone(failingDel)) {
      var i :| 0 <= i < DelsDone(failingDel) && key == DeletionKey(team, i);
      var status := if i / 100 == 0 then "" else Labels()[i / 100];
      var f := TaskFilter(team, status, None, i % 100 + 1, 1);
      FilterAt(i, f);
      DelExact(f, team, i);
    }
  }

  lemma FilterAt(i: nat, f: TaskFilter)
    requires i < KEYS_PER_TEAM && f.page == i % 100 + 1
    requires f.status == if i / 100 == 0 then "" else Labels()[i / 100]
    ensures Keyed(f) && Ordinal(f) == i
  {
    assert Labels()[1] == TODO && Labels()[2] == IN_PROGRESS && Labels()[3] == DONE;
    assert |TODO| == 4 && |DONE| == 4 && TODO[0] != DONE[0] && |IN_PROGRESS| == 11;
  }

  lemma InvalidatedDrops(cache: Option<Cached>, team: nat, failingDel: Option<nat>)
    ensures ListsDropped(cache, Invalidated(cache, team, failingDel), team, failingDel)
  {
    hide Dropped, DeletionKeys;
    if cache.Some? {
      forall key ensures Dropped(key, team, failingDel) <==> key in DeletionKeys(team, DelsDone(failingDel)) {
        DroppedExact(key, team, failingDel);
      }
    }
  }

  // ---- creating a task -------------------------------------------------------------------------

  predicate TaskAsked(req: CreateTaskRequest)
  {
    TrimSpace(req.title) != "" && ByteLen(req.title) <= 255 && AStatus(req.status) && req.teamId != 0
  }

  /** The row is the one asked for. */
  predicate RowAsked(t: Task, id: nat, actor: nat, req: CreateTaskRequest, now: int)
  {
    && t.id == id && t.teamId == req.teamId && t.title == TrimSpace(req.title) && t.description == req.description
    && t.status == req.status && t.assigneeId == req.assigneeId
    && t.createdBy == actor && t.createdAt == now && t.updatedAt == now && t.deletedAt == None
  }

  /** A creation succeeds exactly when the title is neither blank nor over 255 bytes, the status is one, the actor is in
      the team, the assignee is registered or absent, and neither the read nor the write fails. It then adds the row
      asked for under the next id, and no other; a failed one changes nothing. */
  lemma CreateAnswers(s: Sys, actor: nat, req: CreateTaskRequest, env: Env)
    ensures var (s', r) := Serve(s, CreateTask(actor, req), env);
      var allowed := TaskAsked(req) && !env.readFails && BelongsTo(s.db, actor, req.teamId);
      && (r == Failed(Validation) <==> !TaskAsked(req))
      && (r == Failed(Forbidden) <==> TaskAsked(req) && !env.readFails && !allowed)
      && (r.TaskReply? <==> allowed && !env.writeFails && Assignable(s.db, req.assigneeId))
      && (r.TaskReply? || r == Failed(Validation) || r == Failed(Forbidden) || r == Failed(Internal))
      && (!r.TaskReply? ==> s' == s)
      && (r.TaskReply? ==>
            && RowAsked(r.task, s.db.nextTask, actor, req, env.now)
            && s'.db == s.db.(tasks := s.db.tasks[s.db.nextTask := r.task], nextTask := s.db.nextTask + 1)
            && ListsDropped(s.cache, s'.cache, req.teamId, env.failingDel))
    ensures Inv(s.db) ==> s.db.nextTask !in s.db.tasks
  {
    hide Invalidated, ListsDropped, ByteLen;
    assert TrimSpace("") == "";
    var n := Begin(s.db, CreateTask(actor, req), env);
    assert Inv(s.db) && s.db.nextTask in s.db.tasks ==> TaskOk(s.db, s.db.nextTask);
    if n.More? {
      CompleteWrite(s, n.pending, env);
      InvalidatedDrops(s.cache, req.teamId, env.failingDel);
    }
  }

  // ---- fetching a task -------------------------------------------------------------------------

  /** A fetch answers the row, deleted or not, to the members of its team, and changes nothing. */
  lemma GetAnswers(s: Sys, caller: nat, id: nat, env: Env)
    ensures var (s', r) := Serve(s, GetTask(caller, id), env);
      && s' == s && Turned(s.db, caller, id, env, r)
      && (!env.readFails && MayTouch(s.db, caller, id) ==> r == TaskReply(s.db.tasks[id]))
  {
  }

  // ---- listing ---------------------------------------------------------------------------------

  /** The live tasks a filter asks for. */
  predicate Wanted(db: Db, f: TaskFilter, t: Task)
  {
    && t.id in db.tasks && db.tasks[t.id] == t && t.deletedAt.None? && t.teamId == f.teamId
    && (f.status != "" ==> t.status == f.status)
    && (f.assigneeId.Some? ==> t.assigneeId == f.assigneeId)
  }

  /** The item shows the row. */
  predicate Shows(item: TaskResponse, t: Task)
  {
    && item.id == t.id && item.teamId == t.teamId && item.title == t.title && item.description == t.description
    && item.status == t.status && item.assigneeId == t.assigneeId && item.createdBy == t.createdBy
    && item.createdAt == t.createdAt && item.updatedAt == t.updatedAt
  }

  /** All the wanted tasks in ascending order of id, and the answer shows its window of them. */
  ghost predicate ShowsPage(db: Db, f: TaskFilter, offset: nat, all: seq<Task>, list: TasksListResponse)
  {
    && (forall i, j :: 0 <= i < j < |all| ==> all[i].id < all[j].id)
    && (forall t :: t in all <==> Wanted(db, f, t))
    && list.meta.page == f.page && list.meta.limit == f.limit && list.meta.total == |all|
    && |list.items| == Min(f.limit, Max(0, |all| - offset))
    && (forall i :: 0 <= i < |list.items| ==> offset + i < |all| && Shows(list.items[i], all[offset + i]))
  }

  ghost predicate PageShown(db: Db, f: TaskFilter, offset: nat, list: TasksListResponse)
  {
    exists all: seq<Task> :: ShowsPage(db, f, offset, all, list)
  }

  lemma ResponseShows(db: Db, f: TaskFilter)
    requires Inv(db) && f.teamId != 0
    ensures Response(db, f).Ok? <==> f.limit >= 0 && Offset(f) >= 0
    ensures Response(db, f).Ok? ==> PageShown(db, f, Offset(f), Response(db, f).value)
  {
    hide Wrap64;
    if f.limit >= 0 && Offset(f) >= 0 {
      var all := Matching(db, f);
      forall id | id in db.tasks ensures db.tasks[id].id == id < db.nextTask {
        assert TaskOk(db, id);
      }
      Sql.SelectExact(db.tasks, db.nextTask, t => Matches(f, t));
      assert ShowsPage(db, f, Offset(f), all, Response(db, f).value);
    }
  }

  /** The cache has an answer for this key that is not past its last second. */
  predicate Held(s: Sys, f: TaskFilter, env: Env)
  {
    && s.cache.Some? && !env.getFails
    && Key(f) in s.cache.value && env.now <= s.cache.value[Key(f)].expiry
  }

  /** A member's list for a team, for any status or a real one. */
  predicate ListAsked(db: Db, caller: nat, f: TaskFilter, env: Env)
  {
    f.teamId != 0 && !env.readFails && BelongsTo(db, caller, f.teamId) && (f.status == "" || AStatus(f.status))
  }

  /** A list answers what the cache holds for its key. Otherwise it answers the filter's page, row by row and field by
      field, with the number of all matches, unless its queries fail or MySQL rejects the window; and it stores that
      answer for 300 seconds, unless the Set fails. */
  lemma ListAnswers(s: Sys, caller: nat, f: TaskFilter, env: Env)
    requires Inv(s.db)
    ensures var (s', r) := Serve(s, ListTasks(caller, f), env);
      var asked := ListAsked(s.db, caller, f, env);
      && (f.teamId == 0 ==> r == Failed(Validation))
      && (f.teamId != 0 && env.readFails ==> r == Failed(Internal))
      && (f.teamId != 0 && !env.readFails && !BelongsTo(s.db, caller, f.teamId) ==> r == Failed(Forbidden))
      && (f.teamId != 0 && !env.readFails && BelongsTo(s.db, caller, f.teamId) && !asked ==> r == Failed(Validation))
      && (!r.ListReply? ==> r.Failed? && s' == s)
      && (asked && Held(s, f, env) ==> s' == s && r == ListReply(s.cache.value[Key(f)].resp))
      && (asked && !Held(s, f, env) ==>
            && (r.ListReply? <==> f.limit >= 0 && Offset(f) >= 0 && !env.queryFails && !env.countFails)
            && (!r.ListReply? ==> r == Failed(Internal))
            && (r.ListReply? ==>
                  && PageShown(s.db, f, Offset(f), r.list)
                  && s' == s.(cache := if s.cache.None? || env.setFails then s.cache
                                       else Some(s.cache.value[Key(f) := CacheEntry(r.list, env.now + 300)]))))
  {
    hide Response, PageShown, Offset, Key;
    if ListAsked(s.db, caller, f, env) {
      CompleteList(s, f, env);
      ResponseShows(s.db, f);
      OnlyWindows(s.db, f);
    }
  }

  lemma OnlyWindows(db: Db, f: TaskFilter)
    ensures Response(db, f).Err? ==> Response(db, f).error == Internal
  {
  }

  // ---- updating a task -------------------------------------------------------------------------

  predicate UpdateAsked(req: UpdateTaskRequest)
  {
    && (req.title.Some? ==> TrimSpace(req.title.value) != "" && ByteLen(TrimSpace(req.title.value)) <= 255)
    && (req.status.Some? ==> AStatus(req.status.value))
  }

  predicate Mentions(req: UpdateTaskRequest)
  {
    req.title.Some? || req.description.Some? || req.status.Some? || req.assigneeId.Some?
  }

  /** The names of the fields an update of this row records: those it changes, and the assignee whenever mentioned. */
  function Recorded(o: Task, req: UpdateTaskRequest): seq<string>
  {
    (if req.title.Some? && TrimSpace(req.title.value) != o.title then ["title"] else []) +
    (if req.description.Some? && req.description != o.description then ["description"] else []) +
    (if req.status.Some? && req.status.value != o.status then ["status"] else []) +
    (if req.assigneeId.Some? then ["assignee_id"] else [])
  }

  /** The row with what the request mentions: the title trimmed, and assignee 0 for none. */
  predicate Rewritten(o: Task, u: Task, req: UpdateTaskRequest, now: int)
  {
    && u.title == (if req.title.Some? then TrimSpace(req.title.value) else o.title)
    && u.description == (if req.description.Some? then req.description else o.description)
    && u.status == (if req.status.Some? then req.status.value else o.status)
    && u.assigneeId == (if req.assigneeId.None? then o.assigneeId
                        else if req.assigneeId.value == 0 then None else req.assigneeId)
    && u.updatedAt == now
    && u.id == o.id && u.teamId == o.teamId && u.createdBy == o.createdBy && u.createdAt == o.createdAt
    && u.deletedAt == o.deletedAt
  }

  function Written(a: Option<nat>): Option<string> { if a.Some? then Some(PrintNat(a.value)) else None }

  /** The entry says what became of its field. */
  predicate Tells(h: TaskHistory, o: Task, u: Task)
  {
    || (h.field == "title" && h.oldValue == Some(o.title) && h.newValue == Some(u.title))
    || (h.field == "description" && h.oldValue == o.description && h.newValue == u.description)
    || (h.field == "status" && h.oldValue == Some(o.status) && h.newValue == Some(u.status))
    || (h.field == "assignee_id" && h.oldValue == Written(o.assigneeId) && h.newValue == Written(u.assigneeId))
  }

  /** The entry is about this field of the row. */
  predicate EntryFor(e: TaskHistory, field: string, actor: nat, o: Task, u: Task, now: int)
  {
    e.taskId == u.id && e.changedBy == actor && e.changedAt == now && e.field == field && Tells(e, o, u)
  }

  /** One entry a field, in that order. */
  predicate EntriesFor(es: seq<TaskHistory>, fields: seq<string>, actor: nat, o: Task, u: Task, now: int)
  {
    |es| == |fields| && forall i :: 0 <= i < |es| ==> EntryFor(es[i], fields[i], actor, o, u, now)
  }

  /** They follow the old ones under the next ids. */
  predicate Logged(h: seq<TaskHistory>, h': seq<TaskHistory>, actor: nat, o: Task, u: Task, req: UpdateTaskRequest,
                   now: int)
  {
    && |h'| >= |h| && h'[..|h|] == h && EntriesFor(h'[|h|..], Recorded(o, req), actor, o, u, now)
    && forall i :: |h| <= i < |h'| ==> h'[i].id == i + 1
  }

  lemma EntriesForBoth(a: seq<TaskHistory>, b: seq<TaskHistory>, fa: seq<string>, fb: seq<string>, actor: nat, o: Task,
                       u: Task, now: int)
    requires EntriesFor(a, fa, actor, o, u, now) && EntriesFor(b, fb, actor, o, u, now)
    ensures EntriesFor(a + b, fa + fb, actor, o, u, now)
  {
    hide EntryFor;
  }

  lemma EntryIf(logged: bool, e: TaskHistory, field: string, actor: nat, o: Task, u: Task, now: int)
    requires logged ==> EntryFor(e, field, actor, o, u, now)
    ensures EntriesFor(if logged then [e] else [], if logged then [field] else [], actor, o, u, now)
  {
    hide EntryFor;
  }

  lemma EntriesLogged(h: seq<TaskHistory>, actor: nat, o: Task, req: UpdateTaskRequest, now: int)
    requires BuildPatch(req).Some?
    ensures var u := ApplyPatch(o, BuildPatch(req).value, now);
      var es := HistoryEntries(o.id, actor, now, o, u, BuildPatch(req).value);
      |es| == |Recorded(o, req)| && Logged(h, InsertAll(h, es), actor, o, u, req, now)
  {
    var p := BuildPatch(req).value;
    var u := ApplyPatch(o, p, now);
    var es := HistoryEntries(o.id, actor, now, o, u, p);
    EntriesRecorded(actor, o, req, now);
    var tail := InsertAll(h, es)[|h|..];
    forall i | 0 <= i < |tail| ensures EntryFor(tail[i], Recorded(o, req)[i], actor, o, u, now) {
      assert EntryFor(es[i], Recorded(o, req)[i], actor, o, u, now);
    }
  }

  lemma EntriesRecorded(actor: nat, o: Task, req: UpdateTaskRequest, now: int)
    requires BuildPatch(req).Some?
    ensures var u := ApplyPatch(o, BuildPatch(req).value, now);
      EntriesFor(HistoryEntries(o.id, actor, now, o, u, BuildPatch(req).value), Recorded(o, req), actor, o, u, now)
  {
    hide TrimSpace, ByteLen;
    var p := BuildPatch(req).value;
    var u := ApplyPatch(o, p, now);
    var b1, e1 := LogsTitle(o, u, p), Entry(o.id, actor, now, F_TITLE, Some(o.title), Some(u.title));
    var b2, e2 := LogsDescription(o, u, p), Entry(o.id, actor, now, F_DESCRIPTION, o.description, u.description);
    var b3, e3 := LogsStatus(o, u, p), Entry(o.id, actor, now, F_STATUS, Some(o.status), Some(u.status));
    var b4, e4 := LogsAssignee(p), Entry(o.id, actor, now, F_ASSIGNEE, Show(o.assigneeId), Show(u.assigneeId));
    EntryIf(b1, e1, "title", actor, o, u, now);
    EntryIf(b2, e2, "description", actor, o, u, now);
    EntryIf(b3, e3, "status", actor, o, u, now);
    EntryIf(b4, e4, "assignee_id", actor, o, u, now);
    hide EntriesFor, EntryFor;
    var g1, g2 := if b1 then [e1] else [], if b2 then [e2] else [];
    var g3, g4 := if b3 then [e3] else [], if b4 then [e4] else [];
    var n1, n2 := if b1 then ["title"] else [], if b2 then ["description"] else [];
    var n3, n4 := if b3 then ["status"] else [], if b4 then ["assignee_id"] else [];
    EntriesForBoth(g1, g2, n1, n2, actor, o, u, now);
    EntriesForBoth(g1 + g2, g3, n1 + n2, n3, actor, o, u, now);
    EntriesForBoth(g1 + g2 + g3, g4, n1 + n2 + n3, n4, actor, o, u, now);
    assert Recorded(o, req) == n1 + n2 + n3 + n4;
    assert HistoryEntries(o.id, actor, now, o, u, p) == g1 + g2 + g3 + g4;
  }

  /** Nothing in the transaction of an update fails. */
  predicate Commits(o: Task, req: UpdateTaskRequest, env: Env)
  {
    && !env.beginFails && !env.writeFails && !env.commitFails
    && (env.failingEntry.Some? ==> env.failingEntry.value >= |Recorded(o, req)|)
  }

  /** An update succeeds exactly when what it asks for is valid, the task exists, the actor is in its team, and, if it
      mentions anything, the row is live, the new assignee is registered and nothing in the transaction fails. It then
      rewrites the row and records it, and nothing else; a failed one changes nothing. */
  lemma UpdateAnswers(s: Sys, actor: nat, id: nat, req: UpdateTaskRequest, env: Env)
    requires Inv(s.db)
    ensures var (s', r) := Serve(s, UpdateTask(actor, id, req), env);
      var allowed := UpdateAsked(req) && !env.readFails && MayTouch(s.db, actor, id);
      && (r == Failed(Validation) <==> !UpdateAsked(req))
      && (UpdateAsked(req) ==> Turned(s.db, actor, id, env, r))
      && (r.TaskReply? <==> allowed && (Mentions(req) ==>
            && Standing(s.db, id) && Commits(s.db.tasks[id], req, env)
            && (req.assigneeId != Some(0) ==> Assignable(s.db, req.assigneeId))))
      && (allowed && !r.TaskReply? ==>
            r == Failed(if !env.beginFails && !env.writeFails && !Standing(s.db, id) then NotFound else Internal))
      && (!r.TaskReply? ==> s' == s)
      && (r.TaskReply? && !Mentions(req) ==> s' == s && r.task == s.db.tasks[id])
      && (r.TaskReply? && Mentions(req) ==>
            && Rewritten(s.db.tasks[id], r.task, req, env.now)
            && s'.db == s.db.(tasks := s.db.tasks[id := r.task], history := s'.db.history)
            && Logged(s.db.history, s'.db.history, actor, s.db.tasks[id], r.task, req, env.now)
            && ListsDropped(s.cache, s'.cache, r.task.teamId, env.failingDel))
  {
    hide Invalidated, ListsDropped, ByteLen, HistoryEntries, Logged, Recorded, InsertAll, TrimSpace, Inv;
    assert id in s.db.tasks ==> s.db.tasks[id].id == id by { RowId(s.db, id); }
    var n := Begin(s.db, UpdateTask(actor, id, req), env);
    if n.More? {
      var o := s.db.tasks[id];
      CompleteWrite(s, n.pending, env);
      EntriesLogged(s.db.history, actor, o, req, env.now);
      InvalidatedDrops(s.cache, o.teamId, env.failingDel);
    }
  }

  lemma RowId(db: Db, id: nat)
    requires Inv(db)
    ensures id in db.tasks ==> db.tasks[id].id == id
  {
    assert id in db.tasks ==> TaskOk(db, id);
  }

  // ---- deleting a task -------------------------------------------------------------------------

  /** The row is marked deleted, and is otherwise as it was. */
  predicate Marked(o: Task, u: Task, now: int)
  {
    && u.deletedAt == Some(now) && u.updatedAt == now
    && u.id == o.id && u.teamId == o.teamId && u.title == o.title && u.description == o.description
    && u.status == o.status && u.assigneeId == o.assigneeId && u.createdBy == o.createdBy
    && u.createdAt == o.createdAt
  }

  /** The tables differ in that row only. */
  predicate OnlyMarked(db: Db, db': Db, id: nat, now: int)
  {
    && id in db.tasks && id in db'.tasks && Marked(db.tasks[id], db'.tasks[id], now)
    && db' == db.(tasks := db.tasks[id := db'.tasks[id]])
  }

  /** A delete by a member of a live task succeeds exactly when neither the read nor the write fails; and it deletes. */
  lemma DeleteAnswers(s: Sys, actor: nat, id: nat, env: Env)
    ensures var (s', r) := Serve(s, DeleteTask(actor, id), env);
      var allowed := !env.readFails && MayTouch(s.db, actor, id);
      && Turned(s.db, actor, id, env, r)
      && (r == Success <==> allowed && Standing(s.db, id) && !env.writeFails)
      && (allowed && env.writeFails ==> r == Failed(Internal))
      && (allowed && !env.writeFails && !Standing(s.db, id) ==> r == Failed(NotFound))
      && (r != Success ==> s' == s)
      && (r == Success ==>
            && OnlyMarked(s.db, s'.db, id, env.now)
            && ListsDropped(s.cache, s'.cache, s.db.tasks[id].teamId, env.failingDel))
  {
    hide Invalidated, ListsDropped;
    var n := Begin(s.db, DeleteTask(actor, id), env);
    if n.More? {
      CompleteWrite(s, n.pending, env);
      InvalidatedDrops(s.cache, s.db.tasks[id].teamId, env.failingDel);
    }
  }

  /** Interleaved, a waiting delete marks its row if it is still live and goes on to invalidate its team, or is answered
      a failure and changes nothing. */
  lemma DeleteHappens(w: World, pid: nat, env: Env)
    requires pid in w.pend && w.pend[pid].RunSoftDelete?
    ensures var w', ev, p := Happen(w, Resume(pid, env)), Resume(pid, env), w.pend[pid];
      if !env.writeFails && Standing(w.sys.db, p.id) then
        && OnlyMarked(w.sys.db, w'.sys.db, p.id, env.now) && w'.sys.cache == w.sys.cache
        && w'.pend == w.pend[pid := Invalidate(p.teamId, 0, Success)]
      else
        && w'.sys == w.sys && w'.pend == w.pend - {pid}
        && ReplyOf(w, ev) == Some(Failed(if env.writeFails then Internal else NotFound))
  {
  }

  // ---- the history -----------------------------------------------------------------------------

  /** A history request is answered all the task's entries and no others, in ascending order of id, and changes
      nothing. */
  lemma HistoryAnswers(s: Sys, caller: nat, id: nat, env: Env)
    requires Inv(s.db)
    ensures var (s', r) := Serve(s, History(caller, id), env);
      var allowed := !env.readFails && MayTouch(s.db, caller, id);
      && s' == s && Turned(s.db, caller, id, env, r)
      && (r.HistoryReply? <==> allowed && !env.queryFails)
      && (allowed && env.queryFails ==> r == Failed(Internal))
      && (r.HistoryReply? ==>
            && (forall e :: e in r.entries <==> e in s.db.history && e.taskId == id)
            && (forall i, j :: 0 <= i < j < |r.entries| ==> r.entries[i].id < r.entries[j].id))
  {
    hide EntriesOf;
    EntriesExact(s.db.history, id);
  }

  /** In every sequential run: what a member is answered as a task's history replays from the created row to the current
      one, undoes it, and links each entry to the one before. */
  lemma AnsweredHistoryReplays(s: Sys, steps: seq<Step>, n: nat, caller: nat, id: nat, env: Env)
    requires Inv(s.db) && s.db.history == [] && n <= |steps|
    requires Serve(At(s, steps, n), History(caller, id), env).1.HistoryReply?
    ensures id in At(s, steps, n).db.tasks && id in Origins(s, steps, n)
    ensures var hs := Serve(At(s, steps, n), History(caller, id), env).1.entries;
      var created, current := FieldsOf(Origins(s, steps, n)[id]), FieldsOf(At(s, steps, n).db.tasks[id]);
      && Replay(created, hs) == current && Undo(current, hs) == created
      && forall i, j :: Consecutive(hs, i, j) ==> hs[j].oldValue == hs[i].newValue
  {
    hide Replay, Undo, Origins, At;
    HistoryIsReplayable(s, steps, n, id);
  }

  // ---- teams -----------------------------------------------------------------------------------

  predicate TeamAsked(name: string) { TrimSpace(name) != "" && ByteLen(TrimSpace(name)) <= 100 }

  /** A team creation succeeds exactly when the trimmed name has 1 to 100 bytes, the actor is registered, and neither the
      read nor a write fails. It then adds the team asked for and the actor as its owner, and nothing else. */
  lemma CreateTeamAnswers(s: Sys, actor: nat, name: string, env: Env)
    requires Inv(s.db)
    ensures var (s', r) := Serve(s, CreateTeam(actor, name), env);
      && (r == Failed(Validation) <==> !TeamAsked(name))
      && (r == Failed(NotFound) <==> TeamAsked(name) && !env.readFails && actor !in s.db.users)
      && (r.TeamReply? <==>
            TeamAsked(name) && !env.readFails && actor in s.db.users && !env.writeFails && !env.ownerFails)
      && (r.TeamReply? || r == Failed(Validation) || r == Failed(NotFound) || r == Failed(Internal))
      && (r.TeamReply? ==>
            && r.team.id == s.db.nextTeam && r.team.name == TrimSpace(name) && r.team.createdBy == actor
            && r.team.createdAt == env.now && r.team.updatedAt == env.now
            && r.team.id !in s.db.teams && (r.team.id, actor) !in s.db.members && (r.team.id, actor) in s'.db.members
            && JoinedAs(s'.db.members[(r.team.id, actor)], actor, r.team.id, "owner", env.now)
            && s' == s.(db := s.db.(
                 teams := s.db.teams[r.team.id := r.team], nextTeam := r.team.id + 1,
                 members := s.db.members[(r.team.id, actor) := s'.db.members[(r.team.id, actor)]])))
  {
    hide ByteLen;
    var n := Begin(s.db, CreateTeam(actor, name), env);
    NewTeamEmpty(s.db);
    assert !IsMember(s.db, s.db.nextTeam, actor);
    if n.More? { CompleteTeam(s, n.pending.team, env); }
  }

  predicate JoinedAs(m: TeamMember, user: nat, team: nat, role: string, now: int)
  {
    m.userId == user && m.teamId == team && m.role == role && m.joinedAt == now
  }

  /** The user may bring others into the team. */
  predicate Inviter(db: Db, user: nat, team: nat)
  {
    BelongsTo(db, user, team) && (db.members[(team, user)].role == "owner" || db.members[(team, user)].role == "admin")
  }

  predicate ARole(role: string) { role == "owner" || role == "admin" || role == "member" }

  /** An invitation succeeds exactly when the team exists, the actor is an owner or an admin of it, the user is
      registered and not yet in it, the role is one, and neither the read nor the write fails. It then adds the user with the role
      asked for, and nothing else; a failed one changes nothing. */
  lemma InviteAnswers(s: Sys, actor: nat, team: nat, user: nat, role: string, env: Env)
    ensures var (s', r) := Serve(s, Invite(actor, team, user, role), env);
      var found := !env.readFails && team in s.db.teams;
      var allowed := found && Inviter(s.db, actor, team);
      && (r == Failed(NotFound) <==>
            (!env.readFails && team !in s.db.teams) || (allowed && user !in s.db.users))
      && (r == Failed(Forbidden) <==> found && !Inviter(s.db, actor, team))
      && (r == Failed(Validation) <==> allowed && user in s.db.users && !ARole(role))
      && (r == Failed(AlreadyExists) <==>
            allowed && user in s.db.users && ARole(role) && !env.writeFails && BelongsTo(s.db, user, team))
      && (r == Success <==>
            allowed && user in s.db.users && ARole(role) && !env.writeFails && !BelongsTo(s.db, user, team))
      && (r == Success || r.Failed?)
      && (r != Success ==> s' == s)
      && (r == Success ==>
            && (team, user) in s'.db.members
            && JoinedAs(s'.db.members[(team, user)], user, team, role, env.now)
            && s' == s.(db := s.db.(members := s.db.members[(team, user) := s'.db.members[(team, user)]])))
  {
    var n := Begin(s.db, Invite(actor, team, user, role), env);
    if n.More? { CompleteOne(s, n.pending, env); }
  }

  // ---- comments --------------------------------------------------------------------------------

  predicate CommentAsked(body: string) { TrimSpace(body) != "" && ByteLen(TrimSpace(body)) <= 4000 }

  /** A comment is accepted exactly when its trimmed text has 1 to 4000 bytes, the task exists, deleted or not, the
      caller is in its team, and neither the read nor the write fails. It is then stored under the next id, and nothing else
      changes; a refused one changes nothing. */
  lemma CommentAnswers(s: Sys, caller: nat, id: nat, body: string, env: Env)
    ensures var (s', r) := Serve(s, Comment(caller, id, body), env);
      var allowed := CommentAsked(body) && !env.readFails && MayTouch(s.db, caller, id);
      && (r == Failed(Validation) <==> !CommentAsked(body))
      && (CommentAsked(body) ==> Turned(s.db, caller, id, env, r))
      && (r.IdReply? <==> allowed && !env.writeFails)
      && (allowed && env.writeFails ==> r == Failed(Internal))
      && (!r.IdReply? ==> s' == s)
      && (r.IdReply? ==>
            && r.id == |s.db.comments| + 1 && |s'.db.comments| == r.id
            && var c := s'.db.comments[r.id - 1];
               && c.id == r.id && c.taskId == id && c.userId == caller && c.body == TrimSpace(body)
               && c.createdAt == env.now && c.updatedAt == env.now
               && s' == s.(db := s.db.(comments := s.db.comments + [c])))
  {
    hide ByteLen;
    var n := Begin(s.db, Comment(caller, id, body), env);
    if n.More? { CompleteOne(s, n.pending, env); }
  }
}
