/** Requests interleaved action by action, in any order, with faults, abandoned requests and evictions anywhere. */
module Interleaving {

  import opened Wrappers
  import opened Entities
  import opened Filter
  import opened Tables
  import opened CacheIndex
  import opened Requests
  import opened Invariants
  import opened HistoryReplay
  import Sql

  /** `origins` and `invited` only record what happened: each task's created row, and who invited whom where. */
  datatype World = World(sys: Sys, pend: map<nat, Pending>, origins: Rows, invited: set<(nat, nat, nat)>)

  /** Request `pid` starts, takes its next action, or dies; or the cache drops a key. */
  datatype Event =
    | Start(pid: nat, op: Op, env: Env)
    | Resume(pid: nat, env: Env)
    | Abandon(pid: nat)
    | Drop(key: string)

  function Invited(w: World, p: Pending, db': Db): set<(nat, nat, nat)>
  {
    if p.AddMember? && db' != w.sys.db then w.invited + {(p.member.teamId, p.inviter, p.member.userId)}
    else w.invited
  }

  function Happen(w: World, ev: Event): World
  {
    match ev
    case Start(pid, op, env) =>
      if pid in w.pend then w
      else
        (match Begin(w.sys.db, op, env)
         case Done(_) => w
         case More(p) => w.(pend := w.pend[pid := p]))
    case Resume(pid, env) =>
      if pid !in w.pend then w
      else
        var p := w.pend[pid];
        var (sys', next) := Advance(w.sys, p, env);
        World(sys',
              if next.More? then w.pend[pid := next.pending] else w.pend - {pid},
              NewOrigins(w.origins, w.sys.db, sys'.db),
              Invited(w, p, sys'.db))
    case Abandon(pid) => w.(pend := w.pend - {pid})
    case Drop(key) =>
      w.(sys := w.sys.(cache := if w.sys.cache.Some? then Some(w.sys.cache.value - {key}) else None))
  }

  function Run(w: World, evs: seq<Event>): World
  {
    if evs == [] then w else Happen(Run(w, evs[..|evs| - 1]), evs[|evs| - 1])
  }

  lemma {:induction false} RunConcat(w: World, a: seq<Event>, b: seq<Event>)
    ensures Run(w, a + b) == Run(Run(w, a), b)
  {
    if b == [] {
      assert a + b == a;
    } else {
      assert (a + b)[..|a + b| - 1] == a + b[..|b| - 1];
      RunConcat(w, a, b[..|b| - 1]);
    }
  }

  lemma RunOne(w: World, ev: Event)
    ensures Run(w, [ev]) == Happen(w, ev)
  {
    assert [ev][..0] == [];
  }

  lemma RunFour(w: World, evs: seq<Event>)
    requires |evs| >= 4
    ensures Run(w, evs[..4]) == Happen(Happen(Happen(Happen(w, evs[0]), evs[1]), evs[2]), evs[3])
  {
    hide Happen;
    assert evs[..4][..3] == evs[..3] && evs[..3][..2] == evs[..2] && evs[..2][..1] == evs[..1] && evs[..1][..0] == [];
    assert Run(w, evs[..1]) == Happen(w, evs[0]);
    assert Run(w, evs[..2]) == Happen(Run(w, evs[..1]), evs[1]);
    assert Run(w, evs[..3]) == Happen(Run(w, evs[..2]), evs[2]);
  }

  /** The world before event n. */
  function Before(w: World, evs: seq<Event>, n: nat): World
    requires n <= |evs|
  {
    Run(w, evs[..n])
  }

  lemma BeforeFirst(w: World, evs: seq<Event>)
    ensures Before(w, evs, 0) == w
  {
  }

  lemma BeforeNext(w: World, evs: seq<Event>, n: nat)
    requires n < |evs|
    ensures Before(w, evs, n + 1) == Happen(Before(w, evs, n), evs[n])
  {
    assert evs[..n + 1][..n] == evs[..n];
  }

  /** Registered users and nothing else. */
  function Genesis(users: set<nat>, cache: Option<Cached>): World
  {
    World(Sys(Db(users, map[], 1, map[], map[], 1, [], []), cache), map[], map[], {})
  }

  // ---- the world invariant ---------------------------------------------------------------------

  ghost predicate AllPendingOk(w: World)
  {
    forall pid :: pid in w.pend ==> PendingOk(w.sys.db, w.pend[pid])
  }

  /** A new team's owner is awaited by one request only. */
  ghost predicate OwnersApart(w: World)
  {
    forall a, b :: a in w.pend && b in w.pend && a != b && w.pend[a].AddOwner? && w.pend[b].AddOwner? ==>
      w.pend[a].team.id != w.pend[b].team.id
  }

  ghost predicate WorldInv(w: World) { Inv(w.sys.db) && AllPendingOk(w) && OwnersApart(w) }

  lemma PendingStable(db: Db, db': Db, q: Pending)
    requires Evolves(db, db') && PendingOk(db, q)
    requires q.AddOwner? ==> Memberless(db', q.team.id)
    ensures PendingOk(db', q)
  {
  }

  /** Only the request that created a team can give it its first member. */
  lemma MemberlessStays(s: Sys, p: Pending, env: Env, team: nat)
    requires PendingOk(s.db, p) && Memberless(s.db, team)
    requires p.AddOwner? ==> p.team.id != team
    ensures Memberless(Advance(s, p, env).0.db, team)
  {
    var db' := Advance(s, p, env).0.db;
    forall u ensures !IsMember(db', team, u) {
      assert !IsMember(s.db, team, u);
      if p.AddMember? { assert !IsMember(s.db, team, p.inviter); }
    }
  }

  lemma ResumeKeeps(w: World, pid: nat, env: Env)
    requires WorldInv(w) && pid in w.pend
    ensures WorldInv(Happen(w, Resume(pid, env))) && Evolves(w.sys.db, Happen(w, Resume(pid, env)).sys.db)
  {
    var w', p := Happen(w, Resume(pid, env)), w.pend[pid];
    AdvanceKeeps(w.sys, p, env);
    forall q | q in w'.pend ensures PendingOk(w'.sys.db, w'.pend[q]) {
      if q != pid {
        if w.pend[q].AddOwner? { MemberlessStays(w.sys, p, env, w.pend[q].team.id); }
        PendingStable(w.sys.db, w'.sys.db, w.pend[q]);
      }
    }
    NewOwnersApart(w, pid, env);
  }

  lemma NewOwnersApart(w: World, pid: nat, env: Env)
    requires WorldInv(w) && pid in w.pend
    ensures OwnersApart(Happen(w, Resume(pid, env)))
  {
    var w', p := Happen(w, Resume(pid, env)), w.pend[pid];
    if pid in w'.pend && w'.pend[pid].AddOwner? {
      assert p.InsertTeam? && w'.pend[pid].team.id == w.sys.db.nextTeam;
      forall q | q in w.pend && w.pend[q].AddOwner? ensures w.pend[q].team.id != w.sys.db.nextTeam {
        assert PendingOk(w.sys.db, w.pend[q]);
        assert w.pend[q].team.id in w.sys.db.teams;
        assert w.sys.db.teams[w.pend[q].team.id].id < w.sys.db.nextTeam;
      }
    }
  }

  lemma BeginNeverAwaitsOwner(db: Db, op: Op, env: Env)
    ensures Begin(db, op, env).More? ==> !Begin(db, op, env).pending.AddOwner?
  {
  }

  lemma HappenKeeps(w: World, ev: Event)
    requires WorldInv(w)
    ensures WorldInv(Happen(w, ev)) && Evolves(w.sys.db, Happen(w, ev).sys.db)
  {
    match ev {
      case Start(pid, op, env) =>
        BeginOk(w.sys.db, op, env);
        BeginNeverAwaitsOwner(w.sys.db, op, env);
      case Resume(pid, env) =>
        if pid in w.pend { ResumeKeeps(w, pid, env); }
      case _ =>
    }
  }

  /** In every interleaving the tables stay well formed and only ever evolve. */
  lemma {:induction false} RunKeepsWorld(w: World, evs: seq<Event>)
    requires WorldInv(w)
    ensures WorldInv(Run(w, evs)) && Evolves(w.sys.db, Run(w, evs).sys.db)
  {
    if evs != [] {
      var mid := Run(w, evs[..|evs| - 1]);
      RunKeepsWorld(w, evs[..|evs| - 1]);
      HappenKeeps(mid, evs[|evs| - 1]);
      EvolvesTransitive(w.sys.db, mid.sys.db, Run(w, evs).sys.db);
    }
  }

  lemma GenesisOk(users: set<nat>, cache: Option<Cached>)
    ensures WorldInv(Genesis(users, cache))
  {
  }

  // ---- tombstones ------------------------------------------------------------------------------

  predicate IsDeleted(db: Db, id: nat) { id in db.tasks && !db.tasks[id].Live() }

  lemma NeverListed(db: Db, id: nat, f: TaskFilter)
    requires Inv(db) && IsDeleted(db, id)
    ensures forall t :: t in Matching(db, f) ==> t.id != id
  {
    hide HistoryOk, MembersOk, CommentsOk, TeamsOk;
    assert forall i :: i in db.tasks ==> TaskOk(db, i);
    Sql.SelectExact(db.tasks, db.nextTask, t => Matches(f, t));
  }

  /** Once deleted, in every continuation: the row and its history never change again, and no fresh list or count
      includes it. */
  lemma Tombstone(w: World, evs: seq<Event>, id: nat, f: TaskFilter)
    requires WorldInv(w) && IsDeleted(w.sys.db, id)
    ensures var db, db' := w.sys.db, Run(w, evs).sys.db;
      && IsDeleted(db', id) && db'.tasks[id] == db.tasks[id]
      && EntriesOf(db'.history, id) == EntriesOf(db.history, id)
      && forall t :: t in Matching(db', f) ==> t.id != id
  {
    RunKeepsWorld(w, evs);
    NeverListed(Run(w, evs).sys.db, id, f);
  }

  /** The action is an update or a delete of this task. */
  predicate WritesTo(p: Pending, id: nat) { (p.RunUpdateTx? || p.RunSoftDelete?) && p.id == id }

  /** The request is an update that carries changes, or a delete, of this task. */
  predicate AsksToWrite(op: Op, id: nat)
  {
    (op.UpdateTask? && op.id == id && HasChanges(op.update)) || (op.DeleteTask? && op.id == id)
  }

  /** A fault that stops the action before it looks at the row. */
  predicate StopsWrite(p: Pending, env: Env) { env.writeFails || (p.RunUpdateTx? && env.beginFails) }

  /** What a request is answered by an event, if it is. */
  function ReplyOf(w: World, ev: Event): Option<Reply>
  {
    match ev
    case Start(pid, op, env) =>
      if pid in w.pend || Begin(w.sys.db, op, env).More? then None else Some(Begin(w.sys.db, op, env).reply)
    case Resume(pid, env) =>
      if pid !in w.pend || Advance(w.sys, w.pend[pid], env).1.More? then None
      else Some(Advance(w.sys, w.pend[pid], env).1.reply)
    case _ => None
  }

  /** How an event of a request to write a deleted task ends. A started one fails at once, or is a member's valid one and
      is left waiting for its write. A waiting one, whether it started before or after the deletion, fails and changes
      nothing; and it fails with not-found exactly when no fault stops it first. */
  predicate Refused(w: World, ev: Event, id: nat)
    requires id in w.sys.db.tasks
  {
    && (ev.Start? && ev.pid !in w.pend && AsksToWrite(ev.op, id) ==>
          && Happen(w, ev).sys == w.sys
          && (ReplyOf(w, ev).Some? ==> ReplyOf(w, ev).value.Failed?)
          && (ReplyOf(w, ev).None? ==> ev.pid in Happen(w, ev).pend && WritesTo(Happen(w, ev).pend[ev.pid], id))
          && (ReplyOf(w, ev).None? <==> ValidFor(w.sys.db, ev.op, id) && !ev.env.readFails))
    && (ev.Resume? && ev.pid in w.pend && WritesTo(w.pend[ev.pid], id) ==>
          && Happen(w, ev).sys == w.sys && ReplyOf(w, ev).Some? && ReplyOf(w, ev).value.Failed?
          && (ReplyOf(w, ev).value.error == NotFound <==> !StopsWrite(w.pend[ev.pid], ev.env)))
  }

  /** A valid request by a member of the task's team. */
  predicate ValidFor(db: Db, op: Op, id: nat)
    requires AsksToWrite(op, id) && id in db.tasks
  {
    IsMember(db, db.tasks[id].teamId, op.actor) && (op.UpdateTask? ==> BuildPatch(op.update).Some?)
  }

  lemma DeletedRefuses(w: World, ev: Event, id: nat)
    requires IsDeleted(w.sys.db, id)
    ensures Refused(w, ev, id)
  {
  }

  /** In every interleaving, once a task is deleted every later event of an update carrying changes or of a delete of it
      is refused. */
  lemma TombstoneRefuses(w: World, evs: seq<Event>, i: nat, id: nat)
    requires WorldInv(w) && IsDeleted(w.sys.db, id) && i < |evs|
    ensures id in Run(w, evs[..i]).sys.db.tasks && Refused(Run(w, evs[..i]), evs[i], id)
  {
    RunKeepsWorld(w, evs[..i]);
    DeletedRefuses(Run(w, evs[..i]), evs[i], id);
  }

  // ---- assignee replay -------------------------------------------------------------------------

  function LastOf(hs: seq<TaskHistory>, field: string): Option<TaskHistory>
  {
    if hs == [] then None
    else if hs[|hs| - 1].field == field then Some(hs[|hs| - 1])
    else LastOf(hs[..|hs| - 1], field)
  }

  lemma {:induction false} LastOfConcat(a: seq<TaskHistory>, b: seq<TaskHistory>, field: string)
    ensures LastOf(a + b, field) == if LastOf(b, field).Some? then LastOf(b, field) else LastOf(a, field)
  {
    if b == [] {
      assert a + b == a;
    } else {
      assert (a + b)[..|a + b| - 1] == a + b[..|b| - 1];
      LastOfConcat(a, b[..|b| - 1], field);
    }
  }

  /** The last recorded assignee is the current one; with none recorded it is the created one. */
  predicate AssigneeTracked(db: Db, origins: Rows, id: nat)
    requires id in db.tasks
  {
    id in origins &&
    match LastOf(EntriesOf(db.history, id), F_ASSIGNEE)
    case None => db.tasks[id].assigneeId == origins[id].assigneeId
    case Some(h) => h.newValue == Show(db.tasks[id].assigneeId)
  }

  ghost predicate AssigneesTracked(db: Db, origins: Rows)
  {
    && origins.Keys == db.tasks.Keys
    && forall id {:trigger AssigneeTracked(db, origins, id)} :: id in db.tasks ==> AssigneeTracked(db, origins, id)
  }

  /** Whatever row the request had read, the assignee entry records the row it wrote. */
  lemma LastAssigneeEntry(h: seq<TaskHistory>, id: nat, actor: nat, at: int, existing: Task, n: Task, p: TaskPatch)
    ensures var h' := InsertAll(h, HistoryEntries(id, actor, at, existing, n, p));
      var last := LastOf(EntriesOf(h', id), F_ASSIGNEE);
      if LogsAssignee(p) then last.Some? && last.value.newValue == Show(n.assigneeId)
      else last == LastOf(EntriesOf(h, id), F_ASSIGNEE)
  {
    hide EntriesOf;
    var es := HistoryEntries(id, actor, at, existing, n, p);
    var tail := InsertAll(h, es)[|h|..];
    EntriesAbout(id, actor, at, existing, n, p);
    InsertAllFrame(h, es, id, id);
    LastOfConcat(EntriesOf(h, id), tail, F_ASSIGNEE);
    if LogsAssignee(p) {
      assert es[|es| - 1] == Entry(id, actor, at, F_ASSIGNEE, Show(existing.assigneeId), Show(n.assigneeId));
      assert tail[|tail| - 1].field == F_ASSIGNEE;
    } else {
      assert forall i :: 0 <= i < |es| ==> es[i].field != F_ASSIGNEE;
      NoneOf(tail, F_ASSIGNEE);
    }
  }

  lemma {:induction false} NoneOf(hs: seq<TaskHistory>, field: string)
    requires forall i :: 0 <= i < |hs| ==> hs[i].field != field
    ensures LastOf(hs, field) == None
  {
    if hs != [] { NoneOf(hs[..|hs| - 1], field); }
  }

  lemma UpdateTracks(db: Db, p: Pending, env: Env, origins: Rows)
    requires p.RunUpdateTx? && AssigneesTracked(db, origins)
    ensures AssigneesTracked(AdvanceUpdateTx(db, p, env).0, origins)
  {
    var db' := AdvanceUpdateTx(db, p, env).0;
    if db' != db {
      var n := ApplyPatch(db.tasks[p.id], p.patch, env.now);
      var es := HistoryEntries(p.id, p.actor, p.at, p.existing, n, p.patch);
      EntriesAbout(p.id, p.actor, p.at, p.existing, n, p.patch);
      forall id | id in db'.tasks ensures AssigneeTracked(db', origins, id) {
        assert AssigneeTracked(db, origins, id);
        if id == p.id {
          LastAssigneeEntry(db.history, id, p.actor, p.at, p.existing, n, p.patch);
        } else {
          InsertAllFrame(db.history, es, p.id, id);
        }
      }
    }
  }

  lemma InsertTracks(db: Db, row: Task, env: Env, origins: Rows)
    requires Inv(db) && AssigneesTracked(db, origins)
    ensures var db' := AdvanceInsertTask(db, row, env).0; AssigneesTracked(db', NewOrigins(origins, db, db'))
  {
    var db' := AdvanceInsertTask(db, row, env).0;
    var origins' := NewOrigins(origins, db, db');
    if db' == db {
      NothingNew(origins, db, db');
    } else {
      assert db.nextTask in db.tasks ==> TaskOk(db, db.nextTask);
      assert forall i :: 0 <= i < |db.history| ==> db.history[i].taskId in db.tasks;
      EntriesOfNone(db.history, db.nextTask);
      forall id | id in db'.tasks ensures AssigneeTracked(db', origins', id) {
        assert id in db.tasks ==> AssigneeTracked(db, origins, id);
      }
    }
  }

  lemma OtherTracks(db: Db, db': Db, origins: Rows)
    requires AssigneesTracked(db, origins) && db'.tasks.Keys == db.tasks.Keys && db'.history == db.history
    requires forall id :: id in db.tasks ==> db'.tasks[id].assigneeId == db.tasks[id].assigneeId
    ensures AssigneesTracked(db', origins)
  {
    forall id | id in db'.tasks ensures AssigneeTracked(db', origins, id) {
      assert AssigneeTracked(db, origins, id);
    }
  }

  /** Everything but a creation and an update leaves tasks' assignees and the history alone. */
  lemma OthersLeave(s: Sys, p: Pending, env: Env)
    requires !p.InsertTask? && !p.RunUpdateTx?
    ensures var db' := Advance(s, p, env).0.db;
      && db'.tasks.Keys == s.db.tasks.Keys && db'.history == s.db.history
      && forall id :: id in s.db.tasks ==> db'.tasks[id].assigneeId == s.db.tasks[id].assigneeId
  {
    if p.RunSoftDelete? {
      assert AdvanceDb(s.db, p, env) == AdvanceSoftDelete(s.db, p.id, p.teamId, env);
    }
  }

  lemma ResumeTracks(w: World, pid: nat, env: Env)
    requires Inv(w.sys.db) && pid in w.pend && AssigneesTracked(w.sys.db, w.origins)
    ensures var w' := Happen(w, Resume(pid, env)); AssigneesTracked(w'.sys.db, w'.origins)
  {
    var p, db, db' := w.pend[pid], w.sys.db, Happen(w, Resume(pid, env)).sys.db;
    if p.InsertTask? {
      InsertTracks(db, p.row, env, w.origins);
    } else {
      if p.RunUpdateTx? {
        UpdateTracks(db, p, env, w.origins);
      } else {
        OthersLeave(w.sys, p, env);
        OtherTracks(db, db', w.origins);
      }
      NothingNew(w.origins, db, db');
    }
  }

  /** In every interleaving, however stale the rows updates had read: the NewValue of a task's last assignee entry is
      its current assignee, and a task with none still has the assignee it was created with. */
  lemma {:induction false} AssigneeReplay(w: World, evs: seq<Event>)
    requires WorldInv(w) && AssigneesTracked(w.sys.db, w.origins)
    ensures AssigneesTracked(Run(w, evs).sys.db, Run(w, evs).origins)
  {
    if evs != [] {
      var mid, ev := Run(w, evs[..|evs| - 1]), evs[|evs| - 1];
      AssigneeReplay(w, evs[..|evs| - 1]);
      RunKeepsWorld(w, evs[..|evs| - 1]);
      if ev.Resume? && ev.pid in mid.pend { ResumeTracks(mid, ev.pid, ev.env); }
    }
  }

  /** From the empty service, in every interleaving. */
  lemma AssigneesTrackedAlways(users: set<nat>, cache: Option<Cached>, evs: seq<Event>)
    ensures var w := Run(Genesis(users, cache), evs); AssigneesTracked(w.sys.db, w.origins)
  {
    GenesisOk(users, cache);
    AssigneeReplay(Genesis(users, cache), evs);
  }
}
