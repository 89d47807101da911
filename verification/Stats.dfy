/** Counting: the status totals the history accounts for, and the weekly statistics computed from it. */
module Stats {

  import opened Wrappers
  import opened Entities
  import opened Filter
  import opened Tables
  import opened Requests
  import opened Invariants
  import opened Runs
  import opened HistoryReplay
  import Sql

  // ---- counts ----------------------------------------------------------------------------------

  function Count(h: seq<TaskHistory>, p: TaskHistory -> bool): nat
  {
    if h == [] then 0 else Count(h[..|h| - 1], p) + (if p(h[|h| - 1]) then 1 else 0)
  }

  lemma {:induction false} CountConcat(a: seq<TaskHistory>, b: seq<TaskHistory>, p: TaskHistory -> bool)
    ensures Count(a + b, p) == Count(a, p) + Count(b, p)
  {
    if b == [] {
      assert a + b == a;
    } else {
      assert (a + b)[..|a + b| - 1] == a + b[..|b| - 1];
      CountConcat(a, b[..|b| - 1], p);
    }
  }

  lemma {:induction false} CountSame(h: seq<TaskHistory>, h': seq<TaskHistory>, p: TaskHistory -> bool,
                                     q: TaskHistory -> bool)
    requires |h| == |h'| && forall i :: 0 <= i < |h| ==> p(h[i]) == q(h'[i])
    ensures Count(h, p) == Count(h', q)
  {
    if h != [] { CountSame(h[..|h| - 1], h'[..|h'| - 1], p, q); }
  }

  lemma CountOptional(logged: bool, h: TaskHistory, p: TaskHistory -> bool)
    ensures Count(if logged then [h] else [], p) == if logged && p(h) then 1 else 0
  {
    assert [h][..0] == [];
  }

  /** A status entry about a task of this team. */
  predicate StatusEntry(tasks: Rows, team: nat, h: TaskHistory)
  {
    h.field == F_STATUS && h.taskId in tasks && tasks[h.taskId].teamId == team
  }

  function Into(tasks: Rows, team: nat, status: string): TaskHistory -> bool
  {
    h => StatusEntry(tasks, team, h) && h.newValue == Some(status)
  }

  function OutOf(tasks: Rows, team: nat, status: string): TaskHistory -> bool
  {
    h => StatusEntry(tasks, team, h) && h.oldValue == Some(status)
  }

  function Since(tasks: Rows, team: nat, cutoff: int): TaskHistory -> bool
  {
    h => StatusEntry(tasks, team, h) && h.newValue == Some(DONE) && h.changedAt >= cutoff
  }

  function InStatus(team: nat, status: string): Task -> bool { (t: Task) => t.teamId == team && t.status == status }

  /** How many of a team's tasks, deleted ones included, have a status. */
  function StatusTotal(rows: Rows, next: nat, team: nat, status: string): nat
  {
    |Sql.Select(rows, next, InStatus(team, status))|
  }

  /** `TeamStatsLastWeek`. */
  datatype TeamStats = TeamStats(teamId: nat, teamName: string, memberCount: nat, doneLast7Days: nat)

  const WEEK := 7 * 24 * 3600

  function DoneSince(db: Db, team: nat, cutoff: int): nat { Count(db.history, Since(db.tasks, team, cutoff)) }

  function MemberCount(db: Db, team: nat): nat { |set k | k in db.members && k.0 == team| }

  /** The rows for teams with an id below n, in id order. */
  function StatsRows(db: Db, n: nat, now: int): seq<TeamStats>
  {
    if n == 0 then []
    else
      var t := n - 1;
      StatsRows(db, t, now) +
      (if t in db.teams then
         [TeamStats(t, db.teams[t].name, MemberCount(db, t), DoneSince(db, t, now - WEEK))]
       else [])
  }

  function TeamStatsLastWeek(db: Db, now: int): seq<TeamStats> { StatsRows(db, db.nextTeam, now) }

  // ---- what one update contributes -------------------------------------------------------------

  /** Among an update's entries only the status entry is a status entry. */
  lemma UpdateCount(id: nat, actor: nat, at: int, o: Task, n: Task, patch: TaskPatch, p: TaskHistory -> bool)
    requires forall h :: p(h) ==> h.field == F_STATUS
    ensures Count(HistoryEntries(id, actor, at, o, n, patch), p) ==
      if LogsStatus(o, n, patch) && p(Entry(id, actor, at, F_STATUS, Some(o.status), Some(n.status))) then 1 else 0
  {
    var h1 := Entry(id, actor, at, F_TITLE, Some(o.title), Some(n.title));
    var h2 := Entry(id, actor, at, F_DESCRIPTION, o.description, n.description);
    var h3 := Entry(id, actor, at, F_STATUS, Some(o.status), Some(n.status));
    var h4 := Entry(id, actor, at, F_ASSIGNEE, Show(o.assigneeId), Show(n.assigneeId));
    var g1 := if LogsTitle(o, n, patch) then [h1] else [];
    var g2 := if LogsDescription(o, n, patch) then [h2] else [];
    var g3 := if LogsStatus(o, n, patch) then [h3] else [];
    var g4 := if LogsAssignee(patch) then [h4] else [];
    CountConcat(g1, g2, p);
    CountConcat(g1 + g2, g3, p);
    CountConcat(g1 + g2 + g3, g4, p);
    CountOptional(LogsTitle(o, n, patch), h1, p);
    CountOptional(LogsDescription(o, n, patch), h2, p);
    CountOptional(LogsStatus(o, n, patch), h3, p);
    CountOptional(LogsAssignee(patch), h4, p);
    assert HistoryEntries(id, actor, at, o, n, patch) == g1 + g2 + g3 + g4;
  }

  /** p looks at an entry's field, task, values and time, not at its id. */
  ghost predicate IgnoresId(p: TaskHistory -> bool)
  {
    forall h: TaskHistory, i: nat :: p(h.(id := i)) == p(h)
  }

  lemma InsertedCount(h: seq<TaskHistory>, es: seq<TaskHistory>, p: TaskHistory -> bool)
    requires IgnoresId(p)
    ensures Count(InsertAll(h, es), p) == Count(h, p) + Count(es, p)
  {
    var tail := InsertAll(h, es)[|h|..];
    assert InsertAll(h, es) == h + tail;
    CountConcat(h, tail, p);
    CountSame(tail, es, p, p);
  }

  // ---- status conservation ---------------------------------------------------------------------

  /** Tasks in a status = tasks created in it + entries into it - entries out of it. */
  predicate Conserved(db: Db, origins: Rows, team: nat, status: string)
  {
    StatusTotal(db.tasks, db.nextTask, team, status) ==
      StatusTotal(origins, db.nextTask, team, status)
      + Count(db.history, Into(db.tasks, team, status)) - Count(db.history, OutOf(db.tasks, team, status))
  }

  lemma TeamsStay(db: Db, db': Db, team: nat, status: string, cutoff: int)
    requires HistoryOk(db) && Grows(db, db')
    ensures Count(db.history, Into(db'.tasks, team, status)) == Count(db.history, Into(db.tasks, team, status))
    ensures Count(db.history, OutOf(db'.tasks, team, status)) == Count(db.history, OutOf(db.tasks, team, status))
    ensures Count(db.history, Since(db'.tasks, team, cutoff)) == Count(db.history, Since(db.tasks, team, cutoff))
  {
    CountSame(db.history, db.history, Into(db'.tasks, team, status), Into(db.tasks, team, status));
    CountSame(db.history, db.history, OutOf(db'.tasks, team, status), OutOf(db.tasks, team, status));
    CountSame(db.history, db.history, Since(db'.tasks, team, cutoff), Since(db.tasks, team, cutoff));
  }

  lemma UpdateConserves(db: Db, p: Pending, env: Env, origins: Rows, team: nat, status: string)
    requires Inv(db) && p.RunUpdateTx? && PendingOk(db, p) && p.existing == db.tasks[p.id]
    requires Conserved(db, origins, team, status)
    ensures Conserved(AdvanceUpdateTx(db, p, env).0, origins, team, status)
  {
    var db' := AdvanceUpdateTx(db, p, env).0;
    if db' != db {
      var o := db.tasks[p.id];
      var n := ApplyPatch(o, p.patch, env.now);
      var es := HistoryEntries(p.id, p.actor, p.at, o, n, p.patch);
      var into, outOf := Into(db'.tasks, team, status), OutOf(db'.tasks, team, status);
      assert TaskOk(db, p.id);
      assert Grows(db, db');
      TeamsStay(db, db', team, status, 0);
      InsertedCount(db.history, es, into);
      InsertedCount(db.history, es, outOf);
      UpdateCount(p.id, p.actor, p.at, o, n, p.patch, into);
      UpdateCount(p.id, p.actor, p.at, o, n, p.patch, outOf);
      Sql.SelectCountReplace(db.tasks, db.nextTask, InStatus(team, status), p.id, n);
    }
  }

  /** A new row counts alike among the tasks and among the created rows. */
  lemma NewRowCounts(rows: Rows, next: nat, t: Task, team: nat, status: string)
    requires next !in rows
    ensures StatusTotal(rows[next := t], next + 1, team, status) ==
      StatusTotal(rows, next, team, status) + (if InStatus(team, status)(t) then 1 else 0)
  {
    Sql.SelectFrame(rows, rows[next := t], next, InStatus(team, status));
  }

  lemma InsertConserves(db: Db, row: Task, env: Env, origins: Rows, team: nat, status: string)
    requires Inv(db) && origins.Keys == db.tasks.Keys && Conserved(db, origins, team, status)
    ensures var db' := AdvanceInsertTask(db, row, env).0;
      Conserved(db', NewOrigins(origins, db, db'), team, status)
  {
    var db' := AdvanceInsertTask(db, row, env).0;
    var origins' := NewOrigins(origins, db, db');
    if db' != db {
      var id := db.nextTask;
      assert id in db.tasks ==> TaskOk(db, id);
      assert Grows(db, db');
      TeamsStay(db, db', team, status, 0);
      assert origins' == origins[id := db'.tasks[id]];
      NewRowCounts(db.tasks, id, db'.tasks[id], team, status);
      NewRowCounts(origins, id, db'.tasks[id], team, status);
    } else {
      NothingNew(origins, db, db');
    }
  }

  lemma DeleteConserves(db: Db, id: nat, teamId: nat, env: Env, origins: Rows, team: nat, status: string)
    requires Inv(db) && PendingOk(db, RunSoftDelete(id, teamId)) && Conserved(db, origins, team, status)
    ensures Conserved(AdvanceSoftDelete(db, id, teamId, env).0, origins, team, status)
  {
    var db' := AdvanceSoftDelete(db, id, teamId, env).0;
    if db' != db {
      assert Grows(db, db');
      TeamsStay(db, db', team, status, 0);
      Sql.SelectCountReplace(db.tasks, db.nextTask, InStatus(team, status), id, Deleted(db.tasks[id], env.now));
    }
  }

  lemma ServeConserves(s: Sys, op: Op, env: Env, origins: Rows, team: nat, status: string)
    requires Inv(s.db) && origins.Keys == s.db.tasks.Keys && Conserved(s.db, origins, team, status)
    ensures var db' := Serve(s, op, env).0.db; Conserved(db', NewOrigins(origins, s.db, db'), team, status)
  {
    ServeShape(s, op, env);
    BeginOk(s.db, op, env);
    var n, db' := Begin(s.db, op, env), Serve(s, op, env).0.db;
    if n.More? && n.pending.InsertTask? {
      InsertConserves(s.db, n.pending.row, env, origins, team, status);
    } else {
      if n.More? && n.pending.RunUpdateTx? {
        UpdateConserves(s.db, n.pending, env, origins, team, status);
      } else if n.More? && n.pending.RunSoftDelete? {
        DeleteConserves(s.db, n.pending.id, n.pending.teamId, env, origins, team, status);
      }
      NothingNew(origins, s.db, db');
    }
  }

  /** In every sequential run the history accounts for every status total of every team. */
  lemma {:induction false} StatusConservation(s: Sys, steps: seq<Step>, n: nat, team: nat, status: string)
    requires Inv(s.db) && s.db.history == [] && n <= |steps|
    ensures Conserved(At(s, steps, n).db, Origins(s, steps, n), team, status)
  {
    if n > 0 {
      StatusConservation(s, steps, n - 1, team, status);
      RunKeeps(s, steps, n - 1);
      RunReplays(s, steps, n - 1);
      AtNext(s, steps, n - 1);
      var mid, origins := At(s, steps, n - 1), Origins(s, steps, n - 1);
      match steps[n - 1] {
        case Call(op, env) => ServeConserves(mid, op, env, origins, team, status);
        case Evict(_) => NothingNew(origins, mid.db, At(s, steps, n).db);
      }
    }
  }

  // ---- done in the last seven days -------------------------------------------------------------

  /** Step i is an update, inside the window, that took a task of the team from not done to done. */
  predicate MovesToDone(s: Sys, steps: seq<Step>, i: nat, team: nat, cutoff: int)
    requires i < |steps|
  {
    && steps[i].Call? && steps[i].op.UpdateTask? && steps[i].env.now >= cutoff
    && var id, before, after := steps[i].op.id, At(s, steps, i).db, At(s, steps, i + 1).db;
       && id in before.tasks && id in after.tasks && before.tasks[id].teamId == team
       && before.tasks[id].status != DONE && after.tasks[id].status == DONE
  }

  function MovesIn(s: Sys, steps: seq<Step>, n: nat, team: nat, cutoff: int): nat
    requires n <= |steps|
  {
    if n == 0 then 0
    else MovesIn(s, steps, n - 1, team, cutoff) + (if MovesToDone(s, steps, n - 1, team, cutoff) then 1 else 0)
  }

  lemma EntriesDone(tasks: Rows, p: Pending, o: Task, n: Task, team: nat, cutoff: int)
    requires p.RunUpdateTx? && p.id in tasks
    ensures Count(HistoryEntries(p.id, p.actor, p.at, o, n, p.patch), Since(tasks, team, cutoff)) ==
      if LogsStatus(o, n, p.patch) && tasks[p.id].teamId == team && p.at >= cutoff && n.status == DONE then 1 else 0
  {
    UpdateCount(p.id, p.actor, p.at, o, n, p.patch, Since(tasks, team, cutoff));
  }

  lemma UpdateDone(db: Db, p: Pending, env: Env, team: nat, cutoff: int)
    requires Inv(db) && p.RunUpdateTx? && PendingOk(db, p) && p.existing == db.tasks[p.id] && p.at == env.now
    ensures var db' := AdvanceUpdateTx(db, p, env).0;
      DoneSince(db', team, cutoff) == DoneSince(db, team, cutoff) +
        (if db.tasks[p.id].teamId == team && env.now >= cutoff
            && db.tasks[p.id].status != DONE && db'.tasks[p.id].status == DONE then 1 else 0)
  {
    var db' := AdvanceUpdateTx(db, p, env).0;
    if db' != db {
      var o := db.tasks[p.id];
      var n := ApplyPatch(o, p.patch, env.now);
      assert Grows(db, db');
      TeamsStay(db, db', team, DONE, cutoff);
      InsertedCount(db.history, HistoryEntries(p.id, p.actor, p.at, o, n, p.patch), Since(db'.tasks, team, cutoff));
      EntriesDone(db'.tasks, p, o, n, team, cutoff);
    }
  }

  /** The other writes finish nothing. */
  lemma OthersFinishNothing(db: Db, p: Pending, env: Env, team: nat, cutoff: int)
    requires Inv(db) && Writes(p) && !p.RunUpdateTx? && PendingOk(db, p)
    ensures DoneSince(AdvanceDb(db, p, env).0, team, cutoff) == DoneSince(db, team, cutoff)
  {
    var db' := AdvanceDb(db, p, env).0;
    assert db.nextTask in db.tasks ==> TaskOk(db, db.nextTask);
    assert Grows(db, db');
    TeamsStay(db, db', team, DONE, cutoff);
  }

  lemma ServeDone(s: Sys, op: Op, env: Env, team: nat, cutoff: int)
    requires Inv(s.db)
    ensures var db' := Serve(s, op, env).0.db;
      DoneSince(db', team, cutoff) == DoneSince(s.db, team, cutoff) +
        (if op.UpdateTask? && env.now >= cutoff && op.id in s.db.tasks && op.id in db'.tasks
            && s.db.tasks[op.id].teamId == team
            && s.db.tasks[op.id].status != DONE && db'.tasks[op.id].status == DONE then 1 else 0)
  {
    ServeShape(s, op, env);
    BeginOk(s.db, op, env);
    var n := Begin(s.db, op, env);
    if n.More? && n.pending.RunUpdateTx? {
      UpdateDone(s.db, n.pending, env, team, cutoff);
    } else if n.More? && Writes(n.pending) {
      OthersFinishNothing(s.db, n.pending, env, team, cutoff);
    }
  }

  /** The history query counts exactly the updates that finished a task. */
  lemma {:induction false} DoneCountsMoves(s: Sys, steps: seq<Step>, n: nat, team: nat, cutoff: int)
    requires Inv(s.db) && s.db.history == [] && n <= |steps|
    ensures DoneSince(At(s, steps, n).db, team, cutoff) == MovesIn(s, steps, n, team, cutoff)
  {
    if n > 0 {
      DoneCountsMoves(s, steps, n - 1, team, cutoff);
      RunKeeps(s, steps, n - 1);
      AtNext(s, steps, n - 1);
      match steps[n - 1] {
        case Call(op, env) => ServeDone(At(s, steps, n - 1), op, env, team, cutoff);
        case Evict(_) =>
      }
    }
  }

  /** The users in a set of (team, user) pairs of one team. */
  lemma {:induction false} PairedUsers(keys: set<(nat, nat)>, team: nat) returns (users: set<nat>)
    requires forall k :: k in keys ==> k.0 == team
    ensures |users| == |keys| && forall u :: u in users <==> (team, u) in keys
    decreases keys
  {
    users := {};
    if keys != {} {
      var k :| k in keys;
      users := PairedUsers(keys - {k}, team);
      users := users + {k.1};
      assert k == (team, k.1);
    }
  }

  /** The number of members is that of the users in the team. */
  lemma MemberCountExact(db: Db, team: nat) returns (users: set<nat>)
    ensures |users| == MemberCount(db, team) && forall u :: u in users <==> IsMember(db, team, u)
  {
    var keys := set k | k in db.members && k.0 == team;
    users := PairedUsers(keys, team);
  }

  /** One row a team, in id order, with its name, its number of members and its count. */
  lemma {:induction false} StatsRowsExact(db: Db, n: nat, now: int)
    ensures var rows := StatsRows(db, n, now);
      && (forall i, j :: 0 <= i < j < |rows| ==> rows[i].teamId < rows[j].teamId)
      && (forall r :: r in rows <==>
            && r.teamId < n && r.teamId in db.teams && r.teamName == db.teams[r.teamId].name
            && r.memberCount == MemberCount(db, r.teamId)
            && r.doneLast7Days == DoneSince(db, r.teamId, now - 7 * 24 * 3600))
  {
    if n > 0 {
      StatsRowsExact(db, n - 1, now);
      var rows := StatsRows(db, n - 1, now);
      assert forall i :: 0 <= i < |rows| ==> rows[i] in rows;
    }
  }

  /** Every row of the weekly statistics reports the number of successful updates of the last seven days that moved a
      task of that team from not done to done. */
  lemma WeeklyStatsCountMoves(s: Sys, steps: seq<Step>, n: nat, now: int, r: TeamStats)
    requires Inv(s.db) && s.db.history == [] && n <= |steps|
    requires r in TeamStatsLastWeek(At(s, steps, n).db, now)
    ensures r.doneLast7Days == MovesIn(s, steps, n, r.teamId, now - 7 * 24 * 3600)
  {
    StatsRowsExact(At(s, steps, n).db, At(s, steps, n).db.nextTeam, now);
    DoneCountsMoves(s, steps, n, r.teamId, now - WEEK);
  }
}
