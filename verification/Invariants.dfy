/** What every table action keeps, whoever's request it belongs to and however requests are interleaved. */
module Invariants {

  import opened Wrappers
  import opened Text
  import opened Entities
  import opened Filter
  import opened Tables
  import opened Requests

  // ---- the tables ------------------------------------------------------------------------------

  predicate TitleOk(title: string) { title != "" && ByteLen(title) <= 255 }

  predicate TaskOk(db: Db, id: nat)
    requires id in db.tasks
  {
    var t := db.tasks[id];
    && t.id == id < db.nextTask
    && t.teamId != 0 && t.teamId in db.teams
    && IsMember(db, t.teamId, t.createdBy)
    && IsValidStatus(t.status) && TitleOk(t.title)
    && (t.assigneeId.Some? ==> t.assigneeId.value in db.users)
  }

  ghost predicate TasksOk(db: Db) { forall id {:trigger TaskOk(db, id)} :: id in db.tasks ==> TaskOk(db, id) }

  ghost predicate TeamsOk(db: Db)
  {
    && 0 < db.nextTeam
    && forall id {:trigger db.teams[id]} :: id in db.teams ==>
         db.teams[id].id == id && 0 < id < db.nextTeam && db.teams[id].createdBy in db.users
  }

  ghost predicate MembersOk(db: Db)
  {
    forall t, u {:trigger db.members[(t, u)]} :: (t, u) in db.members ==>
      var m := db.members[(t, u)];
      m.teamId == t && m.userId == u && IsValidRole(m.role) && t in db.teams && u in db.users
  }

  predicate WriterOk(db: Db, taskId: nat, userId: nat)
  {
    taskId in db.tasks && IsMember(db, db.tasks[taskId].teamId, userId)
  }

  /** Every entry's author is a member of the team of the task it is about. */
  ghost predicate HistoryOk(db: Db)
  {
    forall i :: 0 <= i < |db.history| ==>
      db.history[i].id == i + 1 && WriterOk(db, db.history[i].taskId, db.history[i].changedBy)
  }

  ghost predicate CommentsOk(db: Db)
  {
    forall i :: 0 <= i < |db.comments| ==>
      db.comments[i].id == i + 1 && WriterOk(db, db.comments[i].taskId, db.comments[i].userId)
  }

  ghost predicate Inv(db: Db)
  {
    TasksOk(db) && TeamsOk(db) && MembersOk(db) && HistoryOk(db) && CommentsOk(db)
  }

  ghost predicate Memberless(db: Db, teamId: nat)
  {
    forall u :: !IsMember(db, teamId, u)
  }

  // ---- what a suspended request may still rely on ----------------------------------------------

  predicate PatchOk(p: TaskPatch)
  {
    && (p.title.Some? ==> TitleOk(p.title.value))
    && (p.status.Some? ==> IsValidStatus(p.status.value))
    && !p.Empty() && !(p.assigneeId.Some? && p.clearAssignee)
  }

  ghost predicate PendingOk(db: Db, p: Pending)
  {
    match p
    case InsertTask(row) =>
      && row.teamId != 0 && row.teamId in db.teams && IsMember(db, row.teamId, row.createdBy)
      && IsValidStatus(row.status) && TitleOk(row.title) && row.Live()
    case RunUpdateTx(actor, id, patch, existing, _) =>
      && WriterOk(db, id, actor) && PatchOk(patch)
      && existing.id == id && existing.teamId == db.tasks[id].teamId
    case RunSoftDelete(id, teamId) => id in db.tasks && db.tasks[id].teamId == teamId
    case AddOwner(team, _) => team.id in db.teams && db.teams[team.id] == team && Memberless(db, team.id)
    case AddMember(m, inviter) =>
      && IsMember(db, m.teamId, inviter) && CanInvite(db.members[(m.teamId, inviter)].role)
      && m.userId in db.users && IsValidRole(m.role)
    case InsertTeam(team) => team.createdBy in db.users
    case InsertComment(c) => WriterOk(db, c.taskId, c.userId)
    case _ => true
  }

  ghost predicate NextOk(db: Db, n: Next) { n.More? ==> PendingOk(db, n.pending) }

  // ---- how tables may change -------------------------------------------------------------------

  /** A task keeps its identity for ever, and a deleted one keeps everything. */
  predicate TaskEvolves(t: Task, t': Task)
  {
    && t'.id == t.id && t'.teamId == t.teamId && t'.createdBy == t.createdBy && t'.createdAt == t.createdAt
    && (!t.Live() ==> t' == t)
  }

  ghost predicate Evolves(db: Db, db': Db)
  {
    && db'.users == db.users
    && (forall id {:trigger db'.teams[id]} {:trigger id in db'.teams} :: id in db.teams ==>
          id in db'.teams && db'.teams[id] == db.teams[id])
    && (forall k {:trigger db'.members[k]} {:trigger k in db'.members} :: k in db.members ==>
          k in db'.members && db'.members[k] == db.members[k])
    && (forall id {:trigger db'.tasks[id]} {:trigger id in db'.tasks} :: id in db.tasks ==>
          id in db'.tasks && TaskEvolves(db.tasks[id], db'.tasks[id]))
    && db.history <= db'.history && db.comments <= db'.comments
    && (forall id {:trigger EntriesOf(db'.history, id)} :: id in db.tasks && !db.tasks[id].Live() ==>
          EntriesOf(db'.history, id) == EntriesOf(db.history, id))
  }

  lemma EvolvesTransitive(a: Db, b: Db, c: Db)
    requires Evolves(a, b) && Evolves(b, c)
    ensures Evolves(a, c)
  {
    forall id | id in a.tasks && !a.tasks[id].Live()
      ensures EntriesOf(c.history, id) == EntriesOf(a.history, id)
    {
      assert b.tasks[id] == a.tasks[id];
    }
  }

  // ---- history lookups -------------------------------------------------------------------------

  lemma {:induction false} EntriesOfConcat(h: seq<TaskHistory>, more: seq<TaskHistory>, id: nat)
    ensures EntriesOf(h + more, id) == EntriesOf(h, id) + EntriesOf(more, id)
  {
    if more == [] {
      assert h + more == h;
    } else {
      assert (h + more)[..|h + more| - 1] == h + more[..|more| - 1];
      EntriesOfConcat(h, more[..|more| - 1], id);
    }
  }

  lemma {:induction false} EntriesOfNone(h: seq<TaskHistory>, id: nat)
    requires forall i :: 0 <= i < |h| ==> h[i].taskId != id
    ensures EntriesOf(h, id) == []
  {
    if h != [] { EntriesOfNone(h[..|h| - 1], id); }
  }

  lemma {:induction false} EntriesOfAll(h: seq<TaskHistory>, id: nat)
    requires forall i :: 0 <= i < |h| ==> h[i].taskId == id
    ensures EntriesOf(h, id) == h
  {
    if h != [] { EntriesOfAll(h[..|h| - 1], id); }
  }

  /** Reading a task's history back gives exactly the entries about it, in the order they were inserted. */
  lemma {:induction false} EntriesExact(h: seq<TaskHistory>, id: nat)
    requires forall i :: 0 <= i < |h| ==> h[i].id == i + 1
    ensures forall e :: e in EntriesOf(h, id) <==> e in h && e.taskId == id
    ensures forall i, j :: 0 <= i < j < |EntriesOf(h, id)| ==> EntriesOf(h, id)[i].id < EntriesOf(h, id)[j].id
  {
    if h != [] {
      var init := h[..|h| - 1];
      EntriesExact(init, id);
      assert h == init + [h[|h| - 1]];
      var es := EntriesOf(init, id);
      assert forall i :: 0 <= i < |es| ==> es[i] in es;
      assert forall e :: e in init ==> e.id <= |init|;
    }
  }

  lemma EntriesAbout(id: nat, actor: nat, now: int, o: Task, n: Task, p: TaskPatch)
    ensures var es := HistoryEntries(id, actor, now, o, n, p);
      forall i :: 0 <= i < |es| ==> es[i].taskId == id && es[i].changedBy == actor && es[i].changedAt == now
  {
  }

  /** Inserting entries about one task leaves every other task's history alone. */
  lemma InsertAllFrame(h: seq<TaskHistory>, es: seq<TaskHistory>, id: nat, other: nat)
    requires forall i :: 0 <= i < |es| ==> es[i].taskId == id
    ensures h <= InsertAll(h, es)
    ensures other != id ==> EntriesOf(InsertAll(h, es), other) == EntriesOf(h, other)
    ensures EntriesOf(InsertAll(h, es), id) == EntriesOf(h, id) + InsertAll(h, es)[|h|..]
  {
    var tail := InsertAll(h, es)[|h|..];
    assert InsertAll(h, es) == h + tail;
    EntriesOfConcat(h, tail, other);
    EntriesOfConcat(h, tail, id);
    EntriesOfAll(tail, id);
    if other != id { EntriesOfNone(tail, other); }
  }

  // ---- preservation ----------------------------------------------------------------------------

  lemma PatchIsOk(req: UpdateTaskRequest)
    requires BuildPatch(req).Some? && HasChanges(req)
    ensures PatchOk(BuildPatch(req).value)
  {
  }

  /** The checks establish what the actions rely on. */
  lemma BeginOk(db: Db, op: Op, env: Env)
    requires Inv(db)
    ensures NextOk(db, Begin(db, op, env))
  {
    match op {
      case CreateTask(actor, req) => TrimSpaceShrinks(req.title);
      case UpdateTask(actor, id, req) =>
        if BuildPatch(req).Some? && HasChanges(req) { PatchIsOk(req); }
        assert id in db.tasks ==> TaskOk(db, id);
      case _ =>
    }
  }

  /** Nothing that rows refer to goes away. */
  ghost predicate Grows(db: Db, db': Db)
  {
    && db'.users == db.users
    && (forall id :: id in db.teams ==> id in db'.teams)
    && (forall t, u :: IsMember(db, t, u) ==> IsMember(db', t, u))
    && (forall id :: id in db.tasks ==> id in db'.tasks && db'.tasks[id].teamId == db.tasks[id].teamId)
    && db.nextTask <= db'.nextTask
  }

  lemma WritersStay(db: Db, db': Db)
    requires HistoryOk(db) && CommentsOk(db) && Grows(db, db')
    ensures db'.history == db.history ==> HistoryOk(db')
    ensures db'.comments == db.comments ==> CommentsOk(db')
  {
  }

  lemma TaskStays(db: Db, db': Db, id: nat)
    requires id in db.tasks && TaskOk(db, id) && Grows(db, db')
    requires db'.tasks[id] == db.tasks[id]
    ensures TaskOk(db', id)
  {
  }

  /** A task row is added or replaced: everything else stays. */
  lemma PutTaskKeeps(db: Db, t: Task, next: nat)
    requires Inv(db)
    requires t.id !in db.tasks || t.teamId == db.tasks[t.id].teamId
    requires db.nextTask <= next
    ensures var db' := db.(tasks := db.tasks[t.id := t], nextTask := next);
      && Grows(db, db')
      && (TaskOk(db', t.id) ==> TasksOk(db'))
      && TeamsOk(db') && MembersOk(db') && HistoryOk(db') && CommentsOk(db')
  {
    var db' := db.(tasks := db.tasks[t.id := t], nextTask := next);
    assert Grows(db, db');
    forall id | id in db.tasks && id != t.id ensures TaskOk(db', id) {
      TaskStays(db, db', id);
    }
    WritersStay(db, db');
  }

  lemma InsertTaskKeeps(db: Db, row: Task, env: Env)
    requires Inv(db) && PendingOk(db, InsertTask(row))
    ensures Kept(db, AdvanceInsertTask(db, row, env))
  {
    var t := row.(id := db.nextTask);
    assert t.id in db.tasks ==> TaskOk(db, t.id);
    PutTaskKeeps(db, t, db.nextTask + 1);
  }

  lemma UpdateTxKeeps(db: Db, p: Pending, env: Env)
    requires Inv(db) && p.RunUpdateTx? && PendingOk(db, p)
    ensures Kept(db, AdvanceUpdateTx(db, p, env))
  {
    hide HistoryEntries, InsertAll, EntriesOf, ByteLen;
    var db' := AdvanceUpdateTx(db, p, env).0;
    if db' != db {
      var t := ApplyPatch(db.tasks[p.id], p.patch, env.now);
      var es := HistoryEntries(p.id, p.actor, p.at, p.existing, t, p.patch);
      assert TaskOk(db, p.id);
      var mid := db.(tasks := db.tasks[t.id := t]);
      PutTaskKeeps(db, t, db.nextTask);
      assert TaskOk(mid, p.id);
      EntriesAbout(p.id, p.actor, p.at, p.existing, t, p.patch);
      AddEntriesKeeps(mid, es, p.id, p.actor);
    }
  }

  lemma AddEntriesKeeps(db: Db, es: seq<TaskHistory>, id: nat, actor: nat)
    requires Inv(db) && WriterOk(db, id, actor) && db.tasks[id].Live()
    requires forall i :: 0 <= i < |es| ==> es[i].taskId == id && es[i].changedBy == actor
    ensures var db' := db.(history := InsertAll(db.history, es)); Inv(db') && Evolves(db, db')
  {
    var db' := db.(history := InsertAll(db.history, es));
    forall i | i in db.tasks ensures TaskOk(db', i) {
      TaskStays(db, db', i);
    }
    WritersStay(db, db');
    AddEntriesHistory(db, es, id, actor);
    forall i | i in db.tasks && i != id ensures EntriesOf(db'.history, i) == EntriesOf(db.history, i) {
      InsertAllFrame(db.history, es, id, i);
    }
  }

  lemma AddEntriesHistory(db: Db, es: seq<TaskHistory>, id: nat, actor: nat)
    requires HistoryOk(db) && WriterOk(db, id, actor)
    requires forall i :: 0 <= i < |es| ==> es[i].taskId == id && es[i].changedBy == actor
    ensures HistoryOk(db.(history := InsertAll(db.history, es)))
    ensures db.history <= InsertAll(db.history, es)
  {
    var h' := InsertAll(db.history, es);
    assert forall i :: 0 <= i < |db.history| ==> h'[i] == db.history[i];
    assert forall i :: |db.history| <= i < |h'| ==> h'[i].taskId == es[i - |db.history|].taskId;
  }

  lemma SoftDeleteKeeps(db: Db, id: nat, teamId: nat, env: Env)
    requires Inv(db) && PendingOk(db, RunSoftDelete(id, teamId))
    ensures Kept(db, AdvanceSoftDelete(db, id, teamId, env))
  {
    assert TaskOk(db, id);
    PutTaskKeeps(db, Deleted(db.tasks[id], env.now), db.nextTask);
  }

  lemma MemberRowKeeps(db: Db, m: TeamMember, fails: bool)
    requires Inv(db) && m.teamId in db.teams && m.userId in db.users && IsValidRole(m.role)
    ensures AddMemberRow(db, m, fails).Ok? ==>
      Inv(AddMemberRow(db, m, fails).value) && Evolves(db, AddMemberRow(db, m, fails).value)
  {
    var db' := db.(members := db.members[(m.teamId, m.userId) := m]);
    forall id | id in db.tasks ensures TaskOk(db', id) {
      TaskStays(db, db', id);
    }
    WritersStay(db, db');
  }

  lemma InsertTeamKeeps(db: Db, team: Team, env: Env)
    requires Inv(db) && PendingOk(db, InsertTeam(team))
    ensures Kept(db, AdvanceInsertTeam(db, team, env))
  {
    var t := team.(id := db.nextTeam);
    var db' := db.(teams := db.teams[t.id := t], nextTeam := t.id + 1);
    assert db.nextTeam !in db.teams;
    forall id | id in db.tasks ensures TaskOk(db', id) {
      TaskStays(db, db', id);
    }
    WritersStay(db, db');
  }

  lemma InsertCommentKeeps(db: Db, c: TaskComment, env: Env)
    requires Inv(db) && PendingOk(db, InsertComment(c))
    ensures Kept(db, AdvanceInsertComment(db, c, env))
  {
    var db' := db.(comments := db.comments + [c.(id := |db.comments| + 1)]);
    forall id | id in db.tasks ensures TaskOk(db', id) {
      TaskStays(db, db', id);
    }
    WritersStay(db, db');
  }

  ghost predicate Kept(db: Db, r: (Db, Next)) { Inv(r.0) && Evolves(db, r.0) && NextOk(r.0, r.1) }

  lemma AdvanceDbKeeps(db: Db, p: Pending, env: Env)
    requires !(p.LookUp? || p.StoreList? || p.Invalidate?)
    requires Inv(db) && PendingOk(db, p)
    ensures Kept(db, AdvanceDb(db, p, env))
  {
    match p {
      case InsertTask(row) => InsertTaskKeeps(db, row, env);
      case RunUpdateTx(_, _, _, _, _) => UpdateTxKeeps(db, p, env);
      case RunSoftDelete(id, teamId) => SoftDeleteKeeps(db, id, teamId, env);
      case InsertTeam(team) => InsertTeamKeeps(db, team, env);
      case AddOwner(team, at) => MemberRowKeeps(db, TeamMember(team.createdBy, team.id, OWNER, at), env.ownerFails);
      case AddMember(m, inviter) => MemberRowKeeps(db, m, env.writeFails);
      case InsertComment(c) => InsertCommentKeeps(db, c, env);
      case _ =>
    }
  }

  /** Every action keeps the invariant, only lets the tables evolve, and leaves its successor well prepared. */
  lemma AdvanceKeeps(s: Sys, p: Pending, env: Env)
    requires Inv(s.db) && PendingOk(s.db, p)
    ensures Kept(s.db, (Advance(s, p, env).0.db, Advance(s, p, env).1))
  {
    if !(p.LookUp? || p.StoreList? || p.Invalidate?) {
      AdvanceDbKeeps(s.db, p, env);
    }
  }

  lemma CompleteKeeps(s: Sys, n: Next, env: Env)
    requires Inv(s.db) && NextOk(s.db, n)
    ensures Inv(Complete(s, n, env).0.db) && Evolves(s.db, Complete(s, n, env).0.db)
    decreases Rank(n)
  {
    if n.More? {
      var (s', n') := Advance(s, n.pending, env);
      AdvanceKeeps(s, n.pending, env);
      CompleteKeeps(s', n', env);
      EvolvesTransitive(s.db, s'.db, Complete(s', n', env).0.db);
    }
  }

  /** A sequential service call keeps the invariant. */
  lemma ServeKeeps(s: Sys, op: Op, env: Env)
    requires Inv(s.db)
    ensures Inv(Serve(s, op, env).0.db) && Evolves(s.db, Serve(s, op, env).0.db)
  {
    BeginOk(s.db, op, env);
    CompleteKeeps(s, Begin(s.db, op, env), env);
  }
}
