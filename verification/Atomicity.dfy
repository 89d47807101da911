/** What a single update or delete call comes to: all or nothing under every fault, and nothing on a deleted task. */
module Atomicity {

  import opened Wrappers
  import opened Text
  import opened Entities
  import opened Tables
  import opened CacheIndex
  import opened Requests
  import opened Invariants
  import opened HistoryReplay
  import opened Interleaving

  /** The patch a valid request asks for. */
  function PatchOf(req: UpdateTaskRequest): TaskPatch
    requires BuildPatch(req).Some?
  {
    BuildPatch(req).value
  }

  /** The state after an update that went through: the row and all its entries, and the team's lists dropped. */
  ghost predicate Updated(s: Sys, s': Sys, actor: nat, id: nat, req: UpdateTaskRequest, env: Env)
    requires BuildPatch(req).Some? && id in s.db.tasks
  {
    var o, patch := s.db.tasks[id], PatchOf(req);
    var t := ApplyPatch(o, patch, env.now);
    && s.db.history <= s'.db.history
    && s'.db == s.db.(tasks := s.db.tasks[id := t], history := s'.db.history)
    && SameButIds(s'.db.history[|s.db.history|..], HistoryEntries(id, actor, env.now, o, t, patch))
    && s'.cache == Invalidated(s.cache, t.teamId, env.failingDel)
  }

  /** Whichever of the row update, the history inserts and the commit fails, a failed update leaves tables, history and
      cache as they were; one that succeeds writes the row and every entry together. */
  lemma UpdateAllOrNothing(s: Sys, actor: nat, id: nat, req: UpdateTaskRequest, env: Env)
    ensures var (s', r) := Serve(s, UpdateTask(actor, id, req), env);
      if r.Failed? then s' == s
      else
        && BuildPatch(req).Some? && id in s.db.tasks && IsMember(s.db, s.db.tasks[id].teamId, actor)
        && id in s'.db.tasks && r == TaskReply(s'.db.tasks[id])
        && if HasChanges(req) then s.db.tasks[id].Live() && Updated(s, s', actor, id, req, env) else s' == s
  {
    var n := Begin(s.db, UpdateTask(actor, id, req), env);
    if n.More? { CompleteWrite(s, n.pending, env); }
  }

  /** A fault that stops the transaction of an update. */
  predicate StopsUpdate(db: Db, actor: nat, id: nat, patch: TaskPatch, env: Env)
    requires id in db.tasks
  {
    var o := db.tasks[id];
    || env.beginFails || env.writeFails || env.commitFails
    || (env.failingEntry.Some?
        && env.failingEntry.value < |HistoryEntries(id, actor, env.now, o, ApplyPatch(o, patch, env.now), patch)|)
  }

  /** Exactly when a member's valid update of a live task goes through: no statement of its transaction fails, and a new
      assignee is registered. */
  lemma UpdateSucceedsIff(s: Sys, actor: nat, id: nat, req: UpdateTaskRequest, env: Env)
    requires BuildPatch(req).Some? && HasChanges(req) && !env.readFails
    requires IsLive(s.db.tasks, id) && IsMember(s.db, s.db.tasks[id].teamId, actor)
    ensures Serve(s, UpdateTask(actor, id, req), env).1.TaskReply? <==>
      !StopsUpdate(s.db, actor, id, PatchOf(req), env) && !BadAssignee(s.db, PatchOf(req).assigneeId)
  {
    var n := Begin(s.db, UpdateTask(actor, id, req), env);
    CompleteWrite(s, n.pending, env);
  }

  /** A deleted task refuses every update that carries changes and every delete, even from its members, although it can
      still be fetched and commented on. */
  lemma DeletedRefusesWrites(s: Sys, user: nat, id: nat, req: UpdateTaskRequest, body: string, env: Env)
    requires IsDeleted(s.db, id) && IsMember(s.db, s.db.tasks[id].teamId, user)
    requires !env.readFails && !env.beginFails && !env.writeFails
    ensures BuildPatch(req).Some? && HasChanges(req) ==>
      Serve(s, UpdateTask(user, id, req), env) == (s, Failed(NotFound))
    ensures Serve(s, DeleteTask(user, id), env) == (s, Failed(NotFound))
    ensures Serve(s, GetTask(user, id), env) == (s, TaskReply(s.db.tasks[id]))
    ensures TrimSpace(body) != "" && ByteLen(TrimSpace(body)) <= 4000 ==>
      Serve(s, Comment(user, id, body), env).1 == IdReply(|s.db.comments| + 1)
  {
    var t := s.db.tasks[id];
    if BuildPatch(req).Some? && HasChanges(req) {
      CompleteWrite(s, RunUpdateTx(user, id, PatchOf(req), t, env.now), env);
    }
    CompleteWrite(s, RunSoftDelete(id, t.teamId), env);
    if TrimSpace(body) != "" && ByteLen(TrimSpace(body)) <= 4000 {
      var c := InsertComment(TaskComment(0, id, user, TrimSpace(body), env.now, env.now));
      assert Begin(s.db, Comment(user, id, body), env) == More(c);
      assert Complete(s, More(c), env) == (Advance(s, c, env).0, Advance(s, c, env).1.reply);
    }
  }

  // ---- every request ---------------------------------------------------------------------------

  /** The user a request comes from. */
  function Sender(op: Op): nat
  {
    match op
    case CreateTask(actor, _) => actor
    case GetTask(caller, _) => caller
    case ListTasks(caller, _) => caller
    case UpdateTask(actor, _, _) => actor
    case DeleteTask(actor, _) => actor
    case History(caller, _) => caller
    case CreateTeam(actor, _) => actor
    case Invite(actor, _, _, _) => actor
    case Comment(caller, _, _) => caller
  }

  /** The team a request is about; 0 when it names a task that does not exist. */
  function Addressed(db: Db, op: Op): nat
  {
    match op
    case CreateTask(_, create) => create.teamId
    case ListTasks(_, filter) => filter.teamId
    case Invite(_, teamId, _, _) => teamId
    case CreateTeam(_, _) => 0
    case _ => if op.id in db.tasks then db.tasks[op.id].teamId else 0
  }

  /** Nothing is read or written for anyone outside the team: whatever the request, a reply other than a failure and a
      state other than the old one go to its members only. */
  lemma MembersOnly(s: Sys, op: Op, env: Env)
    requires !op.CreateTeam? && !IsMember(s.db, Addressed(s.db, op), Sender(op))
    ensures Serve(s, op, env).0 == s && Serve(s, op, env).1.Failed?
  {
  }

  /** A team creation that gets past its checks and its first write and fails at its second. */
  predicate LosesTeam(db: Db, op: Op, env: Env)
  {
    && op.CreateTeam? && TrimSpace(op.name) != "" && ByteLen(TrimSpace(op.name)) <= 100
    && !env.readFails && op.actor in db.users && !env.writeFails && env.ownerFails
  }

  /** The tables with the team row and without an owner for it. */
  function WithTeam(db: Db, op: Op, env: Env): Db
    requires op.CreateTeam?
  {
    var t := Team(db.nextTeam, TrimSpace(op.name), op.actor, env.now, env.now);
    db.(teams := db.teams[t.id := t], nextTeam := t.id + 1)
  }

  /** A failed request leaves tables and cache as they were if and only if it is not such a creation, which leaves a team
      behind, without members. */
  lemma FailureLeavesNothing(s: Sys, op: Op, env: Env)
    requires Inv(s.db) && Serve(s, op, env).1.Failed?
    ensures var s', t := Serve(s, op, env).0, s.db.nextTeam;
      && (s' == s <==> !LosesTeam(s.db, op, env))
      && (s' != s ==> t !in s.db.teams && Memberless(s'.db, t))
      && (s' != s ==> op.CreateTeam? && s' == s.(db := WithTeam(s.db, op, env)))
  {
    var n := Begin(s.db, op, env);
    if n.More? {
      var p := n.pending;
      if Writes(p) {
        CompleteWrite(s, p, env);
      } else if p.LookUp? {
        CompleteList(s, p.f, env);
      } else if p.InsertTeam? {
        CompleteTeam(s, p.team, env);
        NewTeamEmpty(s.db);
      } else {
        assert Complete(s, n, env) == (Advance(s, p, env).0, Advance(s, p, env).1.reply);
      }
    }
  }

  /** Exactly when creating a team is not all or nothing: when the new team exists afterwards without a member. */
  lemma TeamLostIff(s: Sys, actor: nat, name: string, env: Env)
    requires Inv(s.db)
    ensures var op := CreateTeam(actor, name); var db' := Serve(s, op, env).0.db;
      s.db.nextTeam in db'.teams && Memberless(db', s.db.nextTeam) <==> LosesTeam(s.db, op, env)
  {
    var op, t := CreateTeam(actor, name), s.db.nextTeam;
    var n := Begin(s.db, op, env);
    NewTeamEmpty(s.db);
    if n.More? {
      CompleteTeam(s, n.pending.team, env);
      var db' := Serve(s, op, env).0.db;
      if !env.writeFails && !env.ownerFails {
        assert IsMember(db', t, actor);
      }
    }
  }

  lemma NewTeamEmpty(db: Db)
    requires Inv(db)
    ensures db.nextTeam !in db.teams && Memberless(db, db.nextTeam)
  {
    assert forall u :: IsMember(db, db.nextTeam, u) ==> db.members[(db.nextTeam, u)].teamId == db.nextTeam;
  }
}
