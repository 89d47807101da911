/** The status totals and the weekly statistics when updates interleave: exactly which committed updates make the history
    miscount, and a run with one. */
module InterleavedStats {

  import opened Wrappers
  import opened Text
  import opened Entities
  import opened Filter
  import opened Tables
  import opened Requests
  import opened Invariants
  import opened HistoryReplay
  import opened Stats
  import opened CacheLimits
  import opened Interleaving
  import opened StaleUpdates
  import Sql

  // ---- tables ----------------------------------------------------------------------------------

  lemma NextTaskGrows(s: Sys, p: Pending, env: Env)
    ensures s.db.nextTask <= Advance(s, p, env).0.db.nextTask
  {
  }

  lemma HappenGrows(w: World, ev: Event)
    requires WorldInv(w)
    ensures Grows(w.sys.db, Happen(w, ev).sys.db)
  {
    HappenKeeps(w, ev);
    if ev.Resume? && ev.pid in w.pend { NextTaskGrows(w.sys, w.pend[ev.pid], ev.env); }
  }

  // ---- status totals ---------------------------------------------------------------------------

  /** The update mentions the status, and whether the row had status s is not what it had read. */
  predicate Misread(existing: Task, o: Task, p: TaskPatch, s: string)
  {
    p.status.Some? && (existing.status == s) != (o.status == s)
  }

  predicate CommitsMisread(w: World, ev: Event, team: nat, s: string)
  {
    && Commits(w, ev) && w.pend[ev.pid].id in w.sys.db.tasks
    && var p, o := w.pend[ev.pid], w.sys.db.tasks[w.pend[ev.pid].id];
       o.teamId == team && Misread(p.existing, o, p.patch, s)
  }

  lemma CommitConservesIff(w: World, ev: Event, team: nat, s: string)
    requires WorldInv(w) && Commits(w, ev) && Conserved(w.sys.db, w.origins, team, s)
    ensures Conserved(Happen(w, ev).sys.db, Happen(w, ev).origins, team, s) <==> !CommitsMisread(w, ev, team, s)
  {
    CommitsLive(w, ev);
    HappenGrows(w, ev);
    var p, db, db' := w.pend[ev.pid], w.sys.db, Happen(w, ev).sys.db;
    NothingNew(w.origins, db, db');
    CountsMove(db, db', p, ev.env.now, team, s);
  }

  /** What a committed update adds to the total and to the entries. */
  lemma CountsMove(db: Db, db': Db, p: Pending, now: int, team: nat, s: string)
    requires Inv(db) && Grows(db, db') && p.RunUpdateTx? && IsLive(db.tasks, p.id)
    requires var t := ApplyPatch(db.tasks[p.id], p.patch, now);
      db' == db.(tasks := db.tasks[p.id := t],
                 history := InsertAll(db.history, HistoryEntries(p.id, p.actor, p.at, p.existing, t, p.patch)))
    ensures var o, t := db.tasks[p.id], db'.tasks[p.id];
      var ours := o.teamId == team;
      && StatusTotal(db'.tasks, db'.nextTask, team, s) == StatusTotal(db.tasks, db.nextTask, team, s)
           + (if ours && t.status == s then 1 else 0) - (if ours && o.status == s then 1 else 0)
      && Count(db'.history, Into(db'.tasks, team, s)) == Count(db.history, Into(db.tasks, team, s))
           + (if ours && LogsStatus(p.existing, t, p.patch) && t.status == s then 1 else 0)
      && Count(db'.history, OutOf(db'.tasks, team, s)) == Count(db.history, OutOf(db.tasks, team, s))
           + (if ours && LogsStatus(p.existing, t, p.patch) && p.existing.status == s then 1 else 0)
  {
    var o, t := db.tasks[p.id], db'.tasks[p.id];
    var es := HistoryEntries(p.id, p.actor, p.at, p.existing, t, p.patch);
    assert TaskOk(db, p.id);
    TeamsStay(db, db', team, s, 0);
    InsertedCount(db.history, es, Into(db'.tasks, team, s));
    InsertedCount(db.history, es, OutOf(db'.tasks, team, s));
    UpdateCount(p.id, p.actor, p.at, p.existing, t, p.patch, Into(db'.tasks, team, s));
    UpdateCount(p.id, p.actor, p.at, p.existing, t, p.patch, OutOf(db'.tasks, team, s));
    Sql.SelectCountReplace(db.tasks, db.nextTask, InStatus(team, s), p.id, t);
  }

  /** Actions that are neither task writes nor anything else that touches tasks or history. */
  lemma OthersKeepAll(s: Sys, p: Pending, env: Env)
    requires !p.InsertTask? && !p.RunSoftDelete? && !(p.RunUpdateTx? && Advance(s, p, env).1.More?)
    ensures var db' := Advance(s, p, env).0.db;
      db'.tasks == s.db.tasks && db'.nextTask == s.db.nextTask && db'.history == s.db.history
  {
  }

  lemma NotCommittedConserves(w: World, ev: Event, team: nat, s: string)
    requires WorldInv(w) && w.origins.Keys == w.sys.db.tasks.Keys && !Commits(w, ev)
    requires Conserved(w.sys.db, w.origins, team, s)
    ensures Conserved(Happen(w, ev).sys.db, Happen(w, ev).origins, team, s)
  {
    if ev.Resume? && ev.pid in w.pend {
      var p, db, db' := w.pend[ev.pid], w.sys.db, Happen(w, ev).sys.db;
      assert PendingOk(db, p);
      if p.InsertTask? {
        InsertConserves(db, p.row, ev.env, w.origins, team, s);
      } else if p.RunSoftDelete? {
        DeleteConserves(db, p.id, p.teamId, ev.env, w.origins, team, s);
        DeleteKeepsKeys(db, p.id, p.teamId, ev.env);
        NothingNew(w.origins, db, db');
      } else {
        OthersKeepAll(w.sys, p, ev.env);
        NothingNew(w.origins, db, db');
      }
    }
  }

  lemma DeleteKeepsKeys(db: Db, id: nat, teamId: nat, env: Env)
    ensures AdvanceSoftDelete(db, id, teamId, env).0.tasks.Keys == db.tasks.Keys
  {
  }

  /** One event keeps the totals accounted for if and only if it does not commit a misread update. */
  lemma HappenConservesIff(w: World, ev: Event, team: nat, s: string)
    requires WorldInv(w) && w.origins.Keys == w.sys.db.tasks.Keys && Conserved(w.sys.db, w.origins, team, s)
    ensures Conserved(Happen(w, ev).sys.db, Happen(w, ev).origins, team, s) <==> !CommitsMisread(w, ev, team, s)
  {
    if Commits(w, ev) {
      CommitConservesIff(w, ev, team, s);
    } else {
      NotCommittedConserves(w, ev, team, s);
    }
  }

  lemma {:induction false} OriginsThrough(w: World, evs: seq<Event>, m: nat)
    requires WorldInv(w) && w.origins.Keys == w.sys.db.tasks.Keys && m <= |evs|
    ensures Before(w, evs, m).origins.Keys == Before(w, evs, m).sys.db.tasks.Keys
  {
    hide Happen, WorldInv, Evolves;
    if m == 0 {
      BeforeFirst(w, evs);
    } else {
      OriginsThrough(w, evs, m - 1);
      RunKeepsWorld(w, evs[..m - 1]);
      BeforeNext(w, evs, m - 1);
      OriginsFollow(Before(w, evs, m - 1), evs[m - 1]);
    }
  }

  ghost predicate ConservedUpTo(w: World, evs: seq<Event>, team: nat, s: string, m: nat)
    requires m <= |evs|
  {
    forall n {:trigger Before(w, evs, n)} :: 0 <= n <= m ==>
      Conserved(Before(w, evs, n).sys.db, Before(w, evs, n).origins, team, s)
  }

  ghost predicate ReadUpTo(w: World, evs: seq<Event>, team: nat, s: string, m: nat)
    requires m <= |evs|
  {
    forall n {:trigger evs[n]} :: 0 <= n < m ==> !CommitsMisread(Before(w, evs, n), evs[n], team, s)
  }

  /** In every interleaving: the history accounts for a team's total of a status throughout if and only if no committed
      update that mentions the status of one of its tasks had misread whether the task was in it. */
  lemma {:induction false} ConservedThroughoutIff(w: World, evs: seq<Event>, team: nat, s: string, m: nat)
    requires WorldInv(w) && w.origins.Keys == w.sys.db.tasks.Keys && Conserved(w.sys.db, w.origins, team, s)
    requires m <= |evs|
    ensures ConservedUpTo(w, evs, team, s, m) <==> ReadUpTo(w, evs, team, s, m)
  {
    hide Conserved, CommitsMisread, WorldInv, Happen, Evolves;
    if m == 0 {
      BeforeFirst(w, evs);
    } else {
      ConservedThroughoutIff(w, evs, team, s, m - 1);
      RunKeepsWorld(w, evs[..m - 1]);
      OriginsThrough(w, evs, m - 1);
      BeforeNext(w, evs, m - 1);
      var mid := Before(w, evs, m - 1);
      if Conserved(mid.sys.db, mid.origins, team, s) {
        HappenConservesIff(mid, evs[m - 1], team, s);
      } else {
        assert !ConservedUpTo(w, evs, team, s, m - 1);
      }
    }
  }

  // ---- the weekly count ------------------------------------------------------------------------

  /** The committed update, begun no earlier than the cutoff, takes a task of the team from not done to done. */
  predicate Finishes(w: World, ev: Event, team: nat, cutoff: int)
  {
    && Commits(w, ev) && w.pend[ev.pid].id in w.sys.db.tasks
    && var p, o := w.pend[ev.pid], w.sys.db.tasks[w.pend[ev.pid].id];
       o.teamId == team && p.at >= cutoff && o.status != DONE && OrElse(p.patch.status, o.status) == DONE
  }

  /** It asks for done and had misread whether the task was. */
  predicate MisreadsDone(w: World, ev: Event, team: nat, cutoff: int)
  {
    CommitsMisread(w, ev, team, DONE) && w.pend[ev.pid].at >= cutoff && w.pend[ev.pid].patch.status == Some(DONE)
  }

  function FinishesIn(w: World, evs: seq<Event>, m: nat, team: nat, cutoff: int): nat
    requires m <= |evs|
  {
    if m == 0 then 0
    else
      FinishesIn(w, evs, m - 1, team, cutoff)
      + (if Finishes(Before(w, evs, m - 1), evs[m - 1], team, cutoff) then 1 else 0)
  }

  lemma CommitCounts(w: World, ev: Event, team: nat, cutoff: int)
    requires WorldInv(w) && Commits(w, ev)
    ensures var p := w.pend[ev.pid];
      p.id in w.sys.db.tasks &&
      DoneSince(Happen(w, ev).sys.db, team, cutoff) == DoneSince(w.sys.db, team, cutoff) +
        (if w.sys.db.tasks[p.id].teamId == team && p.at >= cutoff && p.patch.status == Some(DONE)
            && p.existing.status != DONE then 1 else 0)
  {
    CommitsLive(w, ev);
    HappenGrows(w, ev);
    var p, db, db' := w.pend[ev.pid], w.sys.db, Happen(w, ev).sys.db;
    var t := ApplyPatch(db.tasks[p.id], p.patch, ev.env.now);
    TeamsStay(db, db', team, DONE, cutoff);
    var es := HistoryEntries(p.id, p.actor, p.at, p.existing, t, p.patch);
    InsertedCount(db.history, es, Since(db'.tasks, team, cutoff));
    EntriesDone(db'.tasks, p, p.existing, t, team, cutoff);
  }

  lemma NotCommittedCounts(w: World, ev: Event, team: nat, cutoff: int)
    requires WorldInv(w) && !Commits(w, ev)
    ensures DoneSince(Happen(w, ev).sys.db, team, cutoff) == DoneSince(w.sys.db, team, cutoff)
  {
    HappenGrows(w, ev);
    if ev.Resume? && ev.pid in w.pend { OthersKeepHistory(w.sys, w.pend[ev.pid], ev.env); }
    TeamsStay(w.sys.db, Happen(w, ev).sys.db, team, DONE, cutoff);
  }

  /** An event counts what it finishes if and only if it does not misread. */
  lemma HappenCountsIff(w: World, ev: Event, team: nat, cutoff: int)
    requires WorldInv(w)
    ensures DoneSince(Happen(w, ev).sys.db, team, cutoff) ==
        DoneSince(w.sys.db, team, cutoff) + (if Finishes(w, ev, team, cutoff) then 1 else 0)
      <==> !MisreadsDone(w, ev, team, cutoff)
  {
    if Commits(w, ev) {
      CommitCounts(w, ev, team, cutoff);
    } else {
      NotCommittedCounts(w, ev, team, cutoff);
    }
  }

  /** The count has moved by exactly what the first n events finished. */
  predicate CountsAt(w: World, evs: seq<Event>, team: nat, cutoff: int, n: nat)
    requires n <= |evs|
  {
    DoneSince(Before(w, evs, n).sys.db, team, cutoff) ==
      DoneSince(w.sys.db, team, cutoff) + FinishesIn(w, evs, n, team, cutoff)
  }

  ghost predicate CountsUpTo(w: World, evs: seq<Event>, team: nat, cutoff: int, m: nat)
    requires m <= |evs|
  {
    forall n {:trigger CountsAt(w, evs, team, cutoff, n)} :: 0 <= n <= m ==> CountsAt(w, evs, team, cutoff, n)
  }

  ghost predicate DoneReadUpTo(w: World, evs: seq<Event>, team: nat, cutoff: int, m: nat)
    requires m <= |evs|
  {
    forall n {:trigger evs[n]} :: 0 <= n < m ==> !MisreadsDone(Before(w, evs, n), evs[n], team, cutoff)
  }

  lemma CountsNext(w: World, evs: seq<Event>, team: nat, cutoff: int, n: nat)
    requires WorldInv(w) && n < |evs| && CountsAt(w, evs, team, cutoff, n)
    ensures CountsAt(w, evs, team, cutoff, n + 1) <==> !MisreadsDone(Before(w, evs, n), evs[n], team, cutoff)
  {
    hide WorldInv, Happen, Evolves, DoneSince, Finishes, MisreadsDone, Run;
    RunKeepsWorld(w, evs[..n]);
    BeforeNext(w, evs, n);
    HappenCountsIff(Before(w, evs, n), evs[n], team, cutoff);
  }

  /** In every interleaving: the history counts exactly the updates of the window that finished a task, throughout, if
      and only if none of them that asks for done had misread whether the task was. */
  lemma {:induction false} CountsThroughoutIff(w: World, evs: seq<Event>, team: nat, cutoff: int, m: nat)
    requires WorldInv(w) && m <= |evs|
    ensures CountsUpTo(w, evs, team, cutoff, m) <==> DoneReadUpTo(w, evs, team, cutoff, m)
  {
    hide WorldInv, CountsAt, MisreadsDone, Run;
    if m == 0 {
      CountsFirst(w, evs, team, cutoff);
    } else {
      CountsThroughoutIff(w, evs, team, cutoff, m - 1);
      if CountsUpTo(w, evs, team, cutoff, m - 1) {
        assert CountsAt(w, evs, team, cutoff, m - 1);
        CountsNext(w, evs, team, cutoff, m - 1);
      }
    }
  }

  lemma CountsFirst(w: World, evs: seq<Event>, team: nat, cutoff: int)
    ensures CountsAt(w, evs, team, cutoff, 0)
  {
    BeforeFirst(w, evs);
  }

  /** Every row of the weekly statistics of such a run reports the last seven days' updates that finished a task. */
  lemma InterleavedWeeklyStats(w: World, evs: seq<Event>, m: nat, now: int, r: TeamStats)
    requires WorldInv(w) && w.sys.db.history == [] && m <= |evs|
    requires r in TeamStatsLastWeek(Before(w, evs, m).sys.db, now)
    requires DoneReadUpTo(w, evs, r.teamId, now - 7 * 24 * 3600, m)
    ensures r.doneLast7Days == FinishesIn(w, evs, m, r.teamId, now - 7 * 24 * 3600)
  {
    var db := Before(w, evs, m).sys.db;
    StatsRowsExact(db, db.nextTeam, now);
    CountsThroughoutIff(w, evs, r.teamId, now - WEEK, m);
    assert CountsAt(w, evs, r.teamId, now - WEEK, m);
  }

  // ---- a task finished twice -------------------------------------------------------------------

  const FINISH := UpdateTask(1, 1, UpdateTaskRequest(None, None, Some(DONE), None))

  const FINISHING := RunUpdateTx(1, 1, TaskPatch(None, None, Some(DONE), None, false), FirstTask(1, TODO, None), 0)

  /** Two members finish the same task; both had read it as not done. */
  function FinishedTwice(): seq<Event>
  {
    [Start(1, FINISH, QUIET), Start(2, FINISH, QUIET), Resume(2, QUIET), Resume(1, QUIET)]
  }

  lemma FinishStarts()
    ensures Begin(OneTask().sys.db, FINISH, QUIET) == More(FINISHING)
  {
  }

  const FINISHED := FirstTask(1, TODO, None).(status := DONE)

  function FinishEntry(id: nat): TaskHistory { TaskHistory(id, 1, 1, F_STATUS, Some(TODO), Some(DONE), 0) }

  /** The tables after n commits. */
  function FinishedDb(n: nat): Db
  {
    if n == 0 then OneTask().sys.db
    else
      OneTask().sys.db.(tasks := map[1 := FINISHED],
                        history := if n == 1 then [FinishEntry(1)] else [FinishEntry(1), FinishEntry(2)])
  }

  lemma FinishCommits(n: nat)
    requires n < 2
    ensures AdvanceUpdateTx(FinishedDb(n), FINISHING, QUIET) ==
      (FinishedDb(n + 1), More(Invalidate(1, 0, TaskReply(FINISHED))))
  {
    var db, o := FinishedDb(n), FirstTask(1, TODO, None);
    assert db.tasks == map[1 := if n == 0 then o else FINISHED];
    assert db.tasks[1 := FINISHED] == map[1 := FINISHED];
    assert ApplyPatch(db.tasks[1], FINISHING.patch, 0) == FINISHED;
    var e := Entry(1, 1, 0, F_STATUS, Some(TODO), Some(DONE));
    assert HistoryEntries(1, 1, 0, o, FINISHED, FINISHING.patch) == [e];
    assert InsertAll(db.history, [e]) == FinishedDb(n + 1).history;
  }

  lemma FinishedTwiceEnds()
    ensures var w := Run(OneTask(), FinishedTwice());
      w.sys.db == FinishedDb(2) && w.origins == OneTask().origins
  {
    hide AdvanceUpdateTx, Begin, FINISH;
    var w0, evs := OneTask(), FinishedTwice();
    FinishStarts();
    FinishCommits(0);
    FinishCommits(1);
    OneTaskRows();
    assert evs[..4] == evs;
    RunFour(w0, evs);
    var w2 := w0.(pend := map[1 := FINISHING, 2 := FINISHING]);
    assert Happen(Happen(w0, evs[0]), evs[1]) == w2;
    var done := Invalidate(1, 0, TaskReply(FINISHED));
    CommitHappens(w2, 2, FinishedDb(1), done);
    var w3 := w2.(sys := w2.sys.(db := FinishedDb(1)), pend := w2.pend[2 := done]);
    CommitHappens(w3, 1, FinishedDb(2), done);
  }

  lemma CountTwo(a: TaskHistory, b: TaskHistory, p: TaskHistory -> bool)
    ensures Count([a, b], p) == (if p(a) then 1 else 0) + (if p(b) then 1 else 0)
  {
    assert [a, b] == [a] + [b];
    CountConcat([a], [b], p);
    CountOptional(true, a, p);
    CountOptional(true, b, p);
  }

  lemma FinishedCounts()
    ensures var db, rows := FinishedDb(2), OneTask().sys.db.tasks;
      && DoneSince(db, 1, 0) == 2 && Count(db.history, Into(db.tasks, 1, DONE)) == 2
      && Count(db.history, OutOf(db.tasks, 1, DONE)) == 0
      && StatusTotal(db.tasks, db.nextTask, 1, DONE) == 1 && StatusTotal(rows, db.nextTask, 1, DONE) == 0
  {
    var db := FinishedDb(2);
    CountTwo(FinishEntry(1), FinishEntry(2), Since(db.tasks, 1, 0));
    CountTwo(FinishEntry(1), FinishEntry(2), Into(db.tasks, 1, DONE));
    CountTwo(FinishEntry(1), FinishEntry(2), OutOf(db.tasks, 1, DONE));
    var tasks, rows := FinishedDb(2).tasks, OneTask().sys.db.tasks;
    assert Sql.Select(tasks, 1, InStatus(1, DONE)) == [] && Sql.Select(rows, 1, InStatus(1, DONE)) == [];
  }

  /** A fault-free interleaving that finishes one task and counts it twice, in the week's count and in the totals. */
  lemma FinishedOnceCountedTwice()
    ensures WorldInv(OneTask()) && Conserved(OneTask().sys.db, OneTask().origins, 1, DONE)
    ensures var w := Run(OneTask(), FinishedTwice());
      && StatusTotal(w.sys.db.tasks, w.sys.db.nextTask, 1, DONE) == 1 && DoneSince(w.sys.db, 1, 0) == 2
      && !Conserved(w.sys.db, w.origins, 1, DONE)
  {
    OneTaskOk();
    FinishedTwiceEnds();
    FinishedCounts();
    hide Run;
  }
}
