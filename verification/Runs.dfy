/** Sequential runs: service calls one after another, with cache evictions anywhere in between. */
module Runs {

  import opened Wrappers
  import opened Entities
  import opened Filter
  import opened Tables
  import opened CacheIndex
  import opened Requests
  import opened Invariants
  import Sql

  datatype Step = Call(op: Op, env: Env) | Evict(key: string)

  function Exec(s: Sys, st: Step): (Sys, Reply)
  {
    match st
    case Call(op, env) => Serve(s, op, env)
    case Evict(key) => (if s.cache.Some? then s.(cache := Some(s.cache.value - {key})) else s, Success)
  }

  /** The state after a run. */
  function After(s: Sys, steps: seq<Step>): Sys
  {
    if steps == [] then s else Exec(After(s, steps[..|steps| - 1]), steps[|steps| - 1]).0
  }

  /** The state in which step i is taken, and what it answers. */
  function At(s: Sys, steps: seq<Step>, i: nat): Sys
    requires i <= |steps|
  {
    After(s, steps[..i])
  }

  function ReplyAt(s: Sys, steps: seq<Step>, i: nat): Reply
    requires i < |steps|
  {
    Exec(At(s, steps, i), steps[i]).1
  }

  lemma AtNext(s: Sys, steps: seq<Step>, i: nat)
    requires i < |steps|
    ensures At(s, steps, i + 1) == Exec(At(s, steps, i), steps[i]).0
  {
    assert steps[..i + 1][..i] == steps[..i];
  }

  lemma AtStart(s: Sys, steps: seq<Step>)
    ensures At(s, steps, 0) == s
  {
  }

  lemma AfterTwo(s: Sys, steps: seq<Step>, mid: Sys)
    requires |steps| >= 2 && Exec(s, steps[0]).0 == mid
    ensures At(s, steps, 2) == Exec(mid, steps[1]).0
  {
    AtStart(s, steps);
    AtNext(s, steps, 0);
    AtNext(s, steps, 1);
  }

  /** The invariant holds throughout every run. */
  lemma {:induction false} RunKeeps(s: Sys, steps: seq<Step>, i: nat)
    requires Inv(s.db) && i <= |steps|
    ensures Inv(At(s, steps, i).db)
    ensures Evolves(s.db, At(s, steps, i).db)
  {
    if i > 0 {
      RunKeeps(s, steps, i - 1);
      AtNext(s, steps, i - 1);
      var mid := At(s, steps, i - 1);
      match steps[i - 1] {
        case Call(op, env) =>
          ServeKeeps(mid, op, env);
          EvolvesTransitive(s.db, mid.db, At(s, steps, i).db);
        case Evict(_) =>
      }
    }
  }

  // ---- the cache never affects the tables ------------------------------------------------------

  function NilCache(s: Sys): Sys { s.(cache := None) }

  predicate ReadsCache(n: Next)
  {
    n.More? && (n.pending.LookUp? || n.pending.QueryRows? || n.pending.QueryCount? || n.pending.StoreList?)
  }

  lemma CompleteNilCache(s: Sys, n: Next, env: Env)
    requires !ReadsCache(n)
    ensures Complete(NilCache(s), n, env) == (NilCache(Complete(s, n, env).0), Complete(s, n, env).1)
    decreases Rank(n)
  {
    if n.More? {
      var (s', n') := Advance(s, n.pending, env);
      CompleteNilCache(s', n', env);
      if n.pending.Invalidate? {
        assert Complete(NilCache(s), n, env) == (NilCache(s), n.pending.reply);
        assert Complete(NilCache(s'), n', env) == (NilCache(s), n.pending.reply);
      } else {
        assert Advance(NilCache(s), n.pending, env) == (NilCache(s'), n');
      }
    }
  }

  lemma ServeNilCache(s: Sys, op: Op, env: Env)
    ensures Serve(NilCache(s), op, env).0 == NilCache(Serve(s, op, env).0)
    ensures !op.ListTasks? ==> Serve(NilCache(s), op, env).1 == Serve(s, op, env).1
  {
    var n := Begin(s.db, op, env);
    if ReadsCache(n) {
      CompleteList(s, op.filter, env);
      CompleteList(NilCache(s), op.filter, env);
    } else {
      CompleteNilCache(s, n, env);
    }
  }

  /** Cached or not, a run leaves the same tables: the cache can only ever change what List answers. */
  lemma {:induction false} TablesIgnoreCache(s: Sys, steps: seq<Step>, i: nat)
    requires i <= |steps|
    ensures At(NilCache(s), steps, i) == NilCache(At(s, steps, i))
    ensures i < |steps| && !(steps[i].Call? && steps[i].op.ListTasks?) ==>
      ReplyAt(NilCache(s), steps, i) == ReplyAt(s, steps, i)
  {
    if i > 0 {
      TablesIgnoreCache(s, steps, i - 1);
      AtNext(s, steps, i - 1);
      AtNext(NilCache(s), steps, i - 1);
      var mid := At(s, steps, i - 1);
      if steps[i - 1].Call? { ServeNilCache(mid, steps[i - 1].op, steps[i - 1].env); }
    }
    if i < |steps| && steps[i].Call? { ServeNilCache(At(s, steps, i), steps[i].op, steps[i].env); }
  }

  // ---- what a sequential call does to the tables -----------------------------------------------

  /** What a sequential call does to tasks and history. */
  lemma ServeShape(s: Sys, op: Op, env: Env)
    ensures var n := Begin(s.db, op, env);
      var db' := Serve(s, op, env).0.db;
      if n.More? && Writes(n.pending) then db' == AdvanceDb(s.db, n.pending, env).0
      else db'.tasks == s.db.tasks && db'.history == s.db.history && db'.nextTask == s.db.nextTask
    ensures var n := Begin(s.db, op, env);
      n.More? && n.pending.RunUpdateTx? ==>
        n.pending.id in s.db.tasks && n.pending.existing == s.db.tasks[n.pending.id]
        && n.pending.at == env.now && op.UpdateTask? && op.id == n.pending.id
  {
    var n := Begin(s.db, op, env);
    if n.More? {
      var p := n.pending;
      if Writes(p) {
        CompleteWrite(s, p, env);
      } else if p.LookUp? {
        CompleteList(s, p.f, env);
      } else if p.InsertTeam? {
        CompleteTeam(s, p.team, env);
      } else {
        assert Complete(s, n, env) == (Advance(s, p, env).0, Advance(s, p, env).1.reply);
      }
    }
  }

  // ---- what a task write can disturb -----------------------------------------------------------

  /** The team whose tasks a write touches. */
  function TeamOf(p: Pending): nat
    requires Writes(p)
  {
    match p
    case InsertTask(row) => row.teamId
    case RunUpdateTx(_, _, _, existing, _) => existing.teamId
    case RunSoftDelete(_, teamId) => teamId
  }

  lemma MatchingFrame(db: Db, db': Db, f: TaskFilter, id: nat)
    requires Inv(db) && db.nextTask <= db'.nextTask <= db.nextTask + 1 && id < db'.nextTask
    requires db'.nextTask > db.nextTask ==> id == db.nextTask
    requires forall i :: i in db'.tasks && i != id ==> i in db.tasks && db'.tasks[i] == db.tasks[i]
    requires forall i :: i in db.tasks && i != id ==> i in db'.tasks
    requires id in db'.tasks && !Matches(f, db'.tasks[id])
    requires id in db.tasks ==> !Matches(f, db.tasks[id])
    ensures Matching(db', f) == Matching(db, f)
  {
    var p := (t: Task) => Matches(f, t);
    Sql.SelectFrame(db.tasks, db'.tasks, db.nextTask, p);
    assert Sql.Select(db.tasks, db.nextTask, p) == Sql.Select(db'.tasks, db.nextTask, p);
    if db'.nextTask > db.nextTask {
      assert Sql.Select(db'.tasks, db'.nextTask, p) == Sql.Select(db'.tasks, db.nextTask, p);
    }
  }

  /** A write to a task of one team leaves every list and count of every other team as it was. */
  lemma TeamFrame(db: Db, p: Pending, f: TaskFilter, env: Env)
    requires Inv(db) && Writes(p) && PendingOk(db, p)
    requires f.teamId != 0 && f.teamId != TeamOf(p)
    ensures var db' := AdvanceDb(db, p, env).0;
      Matching(db', f) == Matching(db, f) && Response(db', f) == Response(db, f)
  {
    var db' := AdvanceDb(db, p, env).0;
    if db' != db {
      var id := if p.InsertTask? then db.nextTask else p.id;
      assert id in db.tasks ==> TaskOk(db, id);
      MatchingFrame(db, db', f, id);
    }
  }

  /** Invalidating one team's keys leaves every cached list of every other team. */
  lemma InvalidateFrame(cache: Option<Cached>, teamId: nat, f: TaskFilter, failingDel: Option<nat>)
    requires cache.Some? && Keyed(f) && f.teamId != teamId && Key(f) in cache.value
    ensures var c := Invalidated(cache, teamId, failingDel);
      Key(f) in c.value && c.value[Key(f)] == cache.value[Key(f)]
  {
    DeletionExact(f, teamId, DelsDone(failingDel));
  }
}
