/** The sequential semantics is one schedule of the interleaved one, and what other schedules can do to the cache. */
module Scheduling {

  import opened Wrappers
  import opened Text
  import opened Entities
  import opened Filter
  import opened Tables
  import opened CacheIndex
  import opened Requests
  import opened Invariants
  import opened HistoryReplay
  import opened Interleaving
  import opened CacheTheorems
  import opened CacheLimits

  /** The events of one request run without interruption. */
  function Uninterrupted(s: Sys, pid: nat, n: Next, env: Env): seq<Event>
    decreases Rank(n)
  {
    if n.Done? then []
    else var (s', n') := Advance(s, n.pending, env); [Resume(pid, env)] + Uninterrupted(s', pid, n', env)
  }

  lemma AdvanceGetsOn(s: Sys, p: Pending, env: Env)
    ensures Rank(Advance(s, p, env).1) < Rank(More(p))
  {
  }

  lemma UninterruptedCompletes(w: World, pid: nat, env: Env)
    requires pid in w.pend
    ensures var w' := Run(w, Uninterrupted(w.sys, pid, More(w.pend[pid]), env));
      w'.sys == Complete(w.sys, More(w.pend[pid]), env).0 && w'.pend == w.pend - {pid}
    decreases Rank(More(w.pend[pid]))
  {
    hide Advance, Rank;
    AdvanceGetsOn(w.sys, w.pend[pid], env);
    var (s', n') := Advance(w.sys, w.pend[pid], env);
    var w1 := Happen(w, Resume(pid, env));
    var rest := Uninterrupted(s', pid, n', env);
    RunConcat(w, [Resume(pid, env)], rest);
    RunOne(w, Resume(pid, env));
    if n'.More? {
      UninterruptedCompletes(w1, pid, env);
      assert w1.pend - {pid} == w.pend - {pid};
    }
  }

  /** A sequential service call is the schedule that starts a request and lets nothing else happen until it is done. */
  lemma ServeIsASchedule(w: World, pid: nat, op: Op, env: Env)
    requires pid !in w.pend
    ensures var evs := [Start(pid, op, env)] + Uninterrupted(w.sys, pid, Begin(w.sys.db, op, env), env);
      Run(w, evs).sys == Serve(w.sys, op, env).0 && Run(w, evs).pend == w.pend
  {
    var n := Begin(w.sys.db, op, env);
    var w1 := Happen(w, Start(pid, op, env));
    RunConcat(w, [Start(pid, op, env)], Uninterrupted(w.sys, pid, n, env));
    RunOne(w, Start(pid, op, env));
    if n.More? {
      UninterruptedCompletes(w1, pid, env);
      assert w1.pend - {pid} == w.pend;
    }
  }

  // ---- a list stored after its key's Del -------------------------------------------------------

  /** The list reads the tables. */
  function ListReading(f: TaskFilter): seq<Event>
  {
    [Start(1, ListTasks(1, f), QUIET), Resume(1, QUIET), Resume(1, QUIET), Resume(1, QUIET)]
  }

  function Creating(f: TaskFilter): seq<Event>
  {
    [Start(2, Creation(f, f.assigneeId, None).op, QUIET), Resume(2, QUIET)]
  }

  /** So many actions of one request. */
  function Resumes(pid: nat, n: nat): (evs: seq<Event>)
    ensures |evs| == n
  {
    if n == 0 then [] else Resumes(pid, n - 1) + [Resume(pid, QUIET)]
  }

  /** Up to the store: the list reads the tables, a creation commits, and its invalidation takes d Dels. */
  function UntilStore(f: TaskFilter, d: nat): seq<Event> { ListReading(f) + Creating(f) + Resumes(2, d) }

  /** Only then does the list store its answer, and the invalidation takes the remaining Dels. */
  function RaceEvents(f: TaskFilter, d: nat): seq<Event>
    requires d <= KEYS_PER_TEAM
  {
    UntilStore(f, d) + [Resume(1, QUIET)] + Resumes(2, KEYS_PER_TEAM - d)
  }

  function RaceWorld(f: TaskFilter): World { World(Sys(Base(f.teamId, f.assigneeId), Some(map[])), map[], map[], {}) }

  /** The listing's reads, one action at a time. */
  lemma ListActions(f: TaskFilter)
    requires ValidFilter(f) && Cacheable(f)
    ensures var db, s := Base(f.teamId, f.assigneeId), RaceWorld(f).sys;
      && Response(db, f).Ok?
      && Begin(db, ListTasks(1, f), QUIET) == More(LookUp(f))
      && Advance(s, LookUp(f), QUIET) == (s, More(QueryRows(f)))
      && Advance(s, QueryRows(f), QUIET) == (s, More(QueryCount(f, ListRows(db, f).value)))
      && Advance(s, QueryCount(f, ListRows(db, f).value), QUIET) == (s, More(StoreList(f, Response(db, f).value)))
  {
    ResponseMeta(Base(f.teamId, f.assigneeId), f);
  }

  /** A request whose action leaves the system alone just moves on. */
  lemma MovesOn(w: World, pid: nat, p: Pending, next: Pending)
    requires w.pend == map[pid := p] && Advance(w.sys, p, QUIET) == (w.sys, More(next))
    ensures Happen(w, Resume(pid, QUIET)) == w.(pend := map[pid := next])
  {
    NothingNew(w.origins, w.sys.db, w.sys.db);
    assert w.pend[pid := next] == map[pid := next];
  }

  lemma ListReads(f: TaskFilter)
    requires ValidFilter(f) && Cacheable(f)
    ensures Response(Base(f.teamId, f.assigneeId), f).Ok?
    ensures var w := RaceWorld(f);
      Run(w, ListReading(f)) == w.(pend := map[1 := StoreList(f, Response(w.sys.db, f).value)])
  {
    var w := RaceWorld(f);
    ListActions(f);
    var p1, p2 := LookUp(f), QueryRows(f);
    var p3 := QueryCount(f, ListRows(w.sys.db, f).value);
    var p4 := StoreList(f, Response(w.sys.db, f).value);
    assert Happen(w, Start(1, ListTasks(1, f), QUIET)) == w.(pend := map[1 := p1]);
    MovesOn(w.(pend := map[1 := p1]), 1, p1, p2);
    MovesOn(w.(pend := map[1 := p2]), 1, p2, p3);
    MovesOn(w.(pend := map[1 := p3]), 1, p3, p4);
    assert ListReading(f)[..4] == ListReading(f);
    RunFour(w, ListReading(f));
  }

  lemma CreateBetween(f: TaskFilter, store: Pending)
    requires ValidFilter(f) && Cacheable(f)
    ensures var w := RaceWorld(f).(pend := map[1 := store]);
      var w' := Run(w, Creating(f));
      && w'.sys == w.sys.(db := WithTask(f.teamId, StatusFor(f), f.assigneeId)) && w'.pend.Keys == {1, 2}
      && w'.pend[1] == store && w'.pend[2].Invalidate? && w'.pend[2].teamId == f.teamId && w'.pend[2].next == 0
  {
    var w, a := RaceWorld(f).(pend := map[1 := store]), f.assigneeId;
    OneLetter();
    var row := FirstTask(f.teamId, StatusFor(f), a);
    var evs := Creating(f);
    assert Begin(w.sys.db, evs[0].op, QUIET) == More(InsertTask(row.(id := 0)));
    assert Advance(w.sys, InsertTask(row.(id := 0)), QUIET) ==
      (w.sys.(db := WithTask(f.teamId, StatusFor(f), a)), More(Invalidate(f.teamId, 0, TaskReply(row))));
    RunConcat(w, [evs[0]], [evs[1]]);
    RunOne(w, evs[0]);
    RunOne(Happen(w, evs[0]), evs[1]);
    assert evs == [evs[0]] + [evs[1]];
  }

  /** The filter's key is one of the n Dels from this one on. */
  predicate Among(p: Pending, n: nat, f: TaskFilter)
    requires p.Invalidate?
  {
    f.teamId == p.teamId && 1 <= f.page <= LAST_PAGE && p.next <= Ordinal(f) < p.next + n
  }

  /** An entry is kept, and not for long when its key is among the next n Dels. */
  predicate KeptBut(before: Cached, after: Cached, key: string, gone: bool)
  {
    (key in after <==> key in before && !gone) && (key in after ==> after[key] == before[key])
  }

  /** Request `pid` has done n more Dels. */
  predicate DelsTaken(w: World, w': World, pid: nat, n: nat, key: string, f: TaskFilter)
    requires pid in w.pend && w.pend[pid].Invalidate?
  {
    var p := w.pend[pid];
    && w'.sys.db == w.sys.db && w.sys.cache.Some? && w'.sys.cache.Some?
    && w'.pend == (if p.next + n < KEYS_PER_TEAM then w.pend[pid := p.(next := p.next + n)] else w.pend - {pid})
    && KeptBut(w.sys.cache.value, w'.sys.cache.value, key, Among(p, n, f))
  }

  lemma KeptAll(cache: Cached, key: string, gone: bool)
    requires !gone
    ensures KeptBut(cache, cache, key, gone)
  {
  }

  lemma OneDel(w: World, pid: nat, f: TaskFilter)
    requires pid in w.pend && w.pend[pid].Invalidate? && w.pend[pid].next < KEYS_PER_TEAM
    requires w.sys.cache.Some? && Keyed(f)
    ensures DelsTaken(w, Happen(w, Resume(pid, QUIET)), pid, 1, Key(f), f)
  {
    hide Key, DeletionKey;
    DelExact(f, w.pend[pid].teamId, w.pend[pid].next);
  }

  lemma OneMoreDel(w: World, mid: World, w': World, pid: nat, n: nat, key: string, f: TaskFilter)
    requires pid in w.pend && w.pend[pid].Invalidate? && w.pend[pid].next + n < KEYS_PER_TEAM
    requires DelsTaken(w, mid, pid, n, key, f) && DelsTaken(mid, w', pid, 1, key, f)
    ensures DelsTaken(w, w', pid, n + 1, key, f)
  {
    var p := w.pend[pid];
    assert w.pend[pid := p.(next := p.next + n)] - {pid} == w.pend - {pid};
  }

  lemma RunResumes(w: World, pid: nat, n: nat)
    ensures Run(w, Resumes(pid, n)) ==
      if n == 0 then w else Happen(Run(w, Resumes(pid, n - 1)), Resume(pid, QUIET))
  {
    hide Happen;
    if n > 0 {
      RunConcat(w, Resumes(pid, n - 1), [Resume(pid, QUIET)]);
      RunOne(Run(w, Resumes(pid, n - 1)), Resume(pid, QUIET));
    }
  }

  /** n Dels of a pending invalidation. */
  lemma {:induction false} RunDels(w: World, pid: nat, n: nat, f: TaskFilter)
    requires pid in w.pend && w.pend[pid].Invalidate? && w.pend[pid].next + n <= KEYS_PER_TEAM
    requires w.pend[pid].next < KEYS_PER_TEAM && w.sys.cache.Some? && Keyed(f)
    ensures DelsTaken(w, Run(w, Resumes(pid, n)), pid, n, Key(f), f)
  {
    hide Run, Resumes, Key, Keyed, Happen, KeptBut;
    var p := w.pend[pid];
    RunResumes(w, pid, n);
    if n == 0 {
      KeptAll(w.sys.cache.value, Key(f), Among(p, n, f));
      assert w.pend[pid := p.(next := p.next + n)] == w.pend;
    } else {
      RunDels(w, pid, n - 1, f);
      var mid := Run(w, Resumes(pid, n - 1));
      OneDel(mid, pid, f);
      OneMoreDel(w, mid, Run(w, Resumes(pid, n)), pid, n - 1, Key(f), f);
    }
  }

  /** The world when the list is about to store. */
  lemma AboutToStore(f: TaskFilter, d: nat)
    requires ValidFilter(f) && Cacheable(f) && d <= KEYS_PER_TEAM
    ensures Response(RaceWorld(f).sys.db, f).Ok?
    ensures var w := Run(RaceWorld(f), UntilStore(f, d));
      && w.sys.db == WithTask(f.teamId, StatusFor(f), f.assigneeId) && w.sys.cache.Some?
      && w.pend.Keys == (if d < KEYS_PER_TEAM then {1, 2} else {1})
      && w.pend[1] == StoreList(f, Response(RaceWorld(f).sys.db, f).value)
      && (d < KEYS_PER_TEAM ==> w.pend[2].Invalidate? && w.pend[2].teamId == f.teamId && w.pend[2].next == d)
  {
    hide Happen, Base, WithTask;
    var w := RaceWorld(f);
    ListReads(f);
    CreateBetween(f, StoreList(f, Response(w.sys.db, f).value));
    RunConcat(w, ListReading(f), Creating(f));
    RunConcat(w, ListReading(f) + Creating(f), Resumes(2, d));
    RunDels(Run(w, ListReading(f) + Creating(f)), 2, d, f);
  }

  lemma RaceRuns(f: TaskFilter, d: nat)
    requires d <= KEYS_PER_TEAM
    ensures var mid := Run(RaceWorld(f), UntilStore(f, d));
      Run(RaceWorld(f), RaceEvents(f, d)) == Run(Happen(mid, Resume(1, QUIET)), Resumes(2, KEYS_PER_TEAM - d))
  {
    hide Happen, Resumes, RaceWorld, UntilStore;
    var w, until, rest := RaceWorld(f), UntilStore(f, d), Resumes(2, KEYS_PER_TEAM - d);
    RunConcat(w, until, [Resume(1, QUIET)]);
    RunOne(Run(w, until), Resume(1, QUIET));
    RunConcat(w, until + [Resume(1, QUIET)], rest);
  }

  /** The Dels that are left when the list has stored. */
  lemma RemainingDels(w: World, f: TaskFilter, d: nat)
    requires Keyed(f) && d <= KEYS_PER_TEAM && w.sys.cache.Some? && Key(f) in w.sys.cache.value
    requires if d < KEYS_PER_TEAM then
               && w.pend.Keys == {2} && w.pend[2].Invalidate? && w.pend[2].teamId == f.teamId && w.pend[2].next == d
             else w.pend == map[]
    ensures var w' := Run(w, Resumes(2, KEYS_PER_TEAM - d));
      && w'.pend == map[] && w'.sys.db == w.sys.db && w'.sys.cache.Some?
      && (Key(f) in w'.sys.cache.value <==> (Covered(f, KEYS_PER_TEAM) ==> Ordinal(f) < d))
      && (Key(f) in w'.sys.cache.value ==> w'.sys.cache.value[Key(f)] == w.sys.cache.value[Key(f)])
  {
    hide Key, Happen, Run, Resumes;
    LabelNumbered(f.status);
    if d < KEYS_PER_TEAM {
      RunDels(w, 2, KEYS_PER_TEAM - d, f);
    } else {
      RunResumes(w, 2, 0);
    }
  }

  /** A list whose answer is out of date by the time it stores it leaves that answer behind exactly when its own key's
      Del, if there is one, is already done: for every cacheable filter and however many Dels d come before the store,
      without any fault, and with the rest of the invalidation still on its way. */
  lemma StoreBetweenDels(f: TaskFilter, d: nat)
    requires ValidFilter(f) && Cacheable(f) && d <= KEYS_PER_TEAM
    ensures var mid := Run(RaceWorld(f), UntilStore(f, d));
      && 1 in mid.pend && mid.pend[1].StoreList? && mid.pend[1].f == f
      && (d < KEYS_PER_TEAM ==>
            2 in mid.pend && mid.pend[2].Invalidate? && mid.pend[2].teamId == f.teamId && mid.pend[2].next == d)
    ensures var w := Run(RaceWorld(f), RaceEvents(f, d));
      && w.pend == map[]
      && (Hit(w.sys.cache, f, 0, false).Some? <==> (Covered(f, KEYS_PER_TEAM) ==> Ordinal(f) < d))
      && (Hit(w.sys.cache, f, 0, false).Some? ==>
            Response(w.sys.db, f) != Ok(Hit(w.sys.cache, f, 0, false).value))
  {
    hide Base, WithTask, Key, Response, Happen, Run, Resumes, UntilStore, RaceEvents, RaceWorld, Covered;
    var mid := Run(RaceWorld(f), UntilStore(f, d));
    AboutToStore(f, d);
    StoreHappens(mid, f, Response(RaceWorld(f).sys.db, f).value);
    RaceRuns(f, d);
    RemainingDels(Happen(mid, Resume(1, QUIET)), f, d);
    RaceAnswersDiffer(f);
  }

  lemma StoreHappens(w: World, f: TaskFilter, resp: TasksListResponse)
    requires 1 in w.pend && w.pend[1] == StoreList(f, resp) && w.sys.cache.Some?
    ensures var w' := Happen(w, Resume(1, QUIET));
      && w'.sys.db == w.sys.db && w'.pend == w.pend - {1} && w'.sys.cache.Some? && Key(f) in w'.sys.cache.value
      && w'.sys.cache.value[Key(f)] == CacheEntry(resp, TASK_LIST_CACHE_TTL)
  {
  }

  lemma RaceAnswersDiffer(f: TaskFilter)
    requires ValidFilter(f) && Cacheable(f)
    ensures Response(RaceWorld(f).sys.db, f) != Response(WithTask(f.teamId, StatusFor(f), f.assigneeId), f)
  {
    MatchingSmall(f, f, f.assigneeId);
    ResponseMeta(RaceWorld(f).sys.db, f);
    ResponseMeta(WithTask(f.teamId, StatusFor(f), f.assigneeId), f);
  }

  /** In particular after all of them: for every cacheable filter there is an interleaving without any fault after which
      the cache serves an answer the tables no longer give, so the sequential hypothesis of the freshness results cannot
      be dropped. */
  lemma StoreAfterInvalidate(f: TaskFilter)
    requires ValidFilter(f) && Cacheable(f)
    ensures var w := Run(RaceWorld(f), RaceEvents(f, KEYS_PER_TEAM));
      && w.pend == map[]
      && Hit(w.sys.cache, f, 0, false).Some?
      && Response(w.sys.db, f) != Ok(Hit(w.sys.cache, f, 0, false).value)
  {
    StoreBetweenDels(f, KEYS_PER_TEAM);
  }
}
