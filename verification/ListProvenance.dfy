/** Where a cached answer comes from when requests interleave: one list's own two reads. When those agree, how stale an
    answer can be, and a discipline on schedules that keeps entries current. */
module ListProvenance {

  import opened Wrappers
  import opened Text
  import opened Entities
  import opened Filter
  import opened Tables
  import opened CacheIndex
  import opened Requests
  import opened Invariants
  import opened Runs
  import opened CacheTheorems
  import opened CacheLimits
  import opened Interleaving
  import opened Scheduling
  import opened InterleavedCache
  import Sql

  // ---- where an entry comes from ---------------------------------------------------------------

  /** Request `pid` is in this state from after event i until event m. */
  predicate Waits(w: World, evs: seq<Event>, pid: nat, p: Pending, i: nat, m: nat)
    requires m <= |evs|
  {
    forall n {:trigger Before(w, evs, n)} :: i < n <= m ==>
      pid in Before(w, evs, n).pend && Before(w, evs, n).pend[pid] == p
  }

  /** Event i is this request's action p. */
  predicate Acts(w: World, evs: seq<Event>, i: nat, pid: nat, p: Pending)
    requires i < |evs|
  {
    evs[i].Resume? && evs[i].pid == pid && pid in Before(w, evs, i).pend && Before(w, evs, i).pend[pid] == p
  }

  /** Request `pid` read these rows at event i and has been about to count ever since. */
  predicate RowsReadAt(w: World, evs: seq<Event>, m: nat, i: nat, pid: nat, f: TaskFilter, rows: seq<Task>)
    requires i < m <= |evs|
  {
    && Acts(w, evs, i, pid, QueryRows(f)) && ListRows(Before(w, evs, i).sys.db, f) == Ok(rows)
    && Waits(w, evs, pid, QueryCount(f, rows), i, m)
  }

  /** It counted at event j and has been about to store ever since. */
  predicate ListedAt(w: World, evs: seq<Event>, m: nat, i: nat, j: nat, pid: nat, f: TaskFilter, rows: seq<Task>,
                     resp: TasksListResponse)
    requires i < j < m <= |evs|
  {
    && RowsReadAt(w, evs, j, i, pid, f, rows) && Acts(w, evs, j, pid, QueryCount(f, rows))
    && resp == ToResponse(f, rows, |Matching(Before(w, evs, j).sys.db, f)|)
    && Waits(w, evs, pid, StoreList(f, resp), j, m)
  }

  ghost predicate RowsRead(w: World, evs: seq<Event>, m: nat, pid: nat, f: TaskFilter, rows: seq<Task>)
    requires m <= |evs|
  {
    exists i: nat :: i < m && RowsReadAt(w, evs, m, i, pid, f, rows)
  }

  ghost predicate Listed(w: World, evs: seq<Event>, m: nat, pid: nat, f: TaskFilter, resp: TasksListResponse)
    requires m <= |evs|
  {
    exists i: nat, j: nat, rows :: i < j < m && ListedAt(w, evs, m, i, j, pid, f, rows, resp)
  }

  /** The entry was stored at event n, to last five minutes, by a list that had read its items and its total itself. */
  ghost predicate StoredAt(w: World, evs: seq<Event>, n: nat, pid: nat, f: TaskFilter, key: string, e: CacheEntry)
    requires n < |evs|
  {
    && Acts(w, evs, n, pid, StoreList(f, e.resp)) && !evs[n].env.setFails && Key(f) == key
    && e.expiry == evs[n].env.now + TASK_LIST_CACHE_TTL
    && Listed(w, evs, n, pid, f, e.resp)
  }

  ghost predicate Traceable(w: World, evs: seq<Event>, m: nat, key: string, e: CacheEntry)
    requires m <= |evs|
  {
    exists n: nat, pid: nat, f :: n < m && StoredAt(w, evs, n, pid, f, key, e)
  }

  ghost predicate PendingTraced(w: World, evs: seq<Event>, m: nat, pid: nat, p: Pending)
    requires m <= |evs|
  {
    match p
    case QueryCount(f, rows) => RowsRead(w, evs, m, pid, f, rows)
    case StoreList(f, resp) => Listed(w, evs, m, pid, f, resp)
    case _ => true
  }

  ghost predicate AllTraceable(w: World, evs: seq<Event>, m: nat)
    requires m <= |evs|
  {
    var now := Before(w, evs, m);
    && (forall pid :: pid in now.pend ==> PendingTraced(w, evs, m, pid, now.pend[pid]))
    && (now.sys.cache.Some? ==> forall key :: key in now.sys.cache.value ==>
          Traceable(w, evs, m, key, now.sys.cache.value[key]))
  }

  lemma WaitsOn(w: World, evs: seq<Event>, pid: nat, p: Pending, i: nat, m: nat)
    requires i <= m < |evs| && Waits(w, evs, pid, p, i, m)
    requires pid in Before(w, evs, m + 1).pend && Before(w, evs, m + 1).pend[pid] == p
    ensures Waits(w, evs, pid, p, i, m + 1)
  {
  }

  lemma StillTraced(w: World, evs: seq<Event>, m: nat, pid: nat, p: Pending)
    requires m < |evs| && PendingTraced(w, evs, m, pid, p)
    requires pid in Before(w, evs, m + 1).pend && Before(w, evs, m + 1).pend[pid] == p
    ensures PendingTraced(w, evs, m + 1, pid, p)
  {
    match p {
      case QueryCount(f, rows) =>
        var i: nat :| i < m && RowsReadAt(w, evs, m, i, pid, f, rows);
        WaitsOn(w, evs, pid, p, i, m);
        assert RowsReadAt(w, evs, m + 1, i, pid, f, rows);
      case StoreList(f, resp) =>
        var i: nat, j: nat, rows :| i < j < m && ListedAt(w, evs, m, i, j, pid, f, rows, resp);
        WaitsOn(w, evs, pid, p, j, m);
        assert ListedAt(w, evs, m + 1, i, j, pid, f, rows, resp);
      case _ =>
    }
  }

  /** What a list that moves on has just read. */
  lemma JustRead(s: Sys, p: Pending, env: Env)
    requires Advance(s, p, env).1.More?
    ensures var q := Advance(s, p, env).1.pending;
      && (q.QueryCount? ==> p == QueryRows(q.f) && ListRows(s.db, q.f) == Ok(q.rows))
      && (q.StoreList? ==> p.QueryCount? && p.f == q.f && q.resp == ToResponse(p.f, p.rows, |Matching(s.db, p.f)|))
  {
  }

  /** The request that takes an action is in the state it leads to. */
  lemma ResumedIs(w: World, pid: nat, env: Env)
    requires pid in w.pend && pid in Happen(w, Resume(pid, env)).pend
    ensures var (sys', next) := Advance(w.sys, w.pend[pid], env);
      next.More? && Happen(w, Resume(pid, env)).pend[pid] == next.pending
  {
  }

  /** A request that moves on has done the reading itself. */
  lemma MovedOnTraced(w: World, evs: seq<Event>, m: nat)
    requires m < |evs| && AllTraceable(w, evs, m) && evs[m].Resume? && evs[m].pid in Before(w, evs, m).pend
    requires evs[m].pid in Before(w, evs, m + 1).pend
    ensures PendingTraced(w, evs, m + 1, evs[m].pid, Before(w, evs, m + 1).pend[evs[m].pid])
  {
    hide Advance, Happen, Matching, ListRows, Traceable;
    BeforeNext(w, evs, m);
    var now, pid := Before(w, evs, m), evs[m].pid;
    var p, q := now.pend[pid], Before(w, evs, m + 1).pend[pid];
    ResumedIs(now, pid, evs[m].env);
    JustRead(now.sys, p, evs[m].env);
    if q.QueryCount? {
      assert RowsReadAt(w, evs, m + 1, m, pid, q.f, q.rows);
    } else if q.StoreList? {
      assert PendingTraced(w, evs, m, pid, p);
      var i: nat :| i < m && RowsReadAt(w, evs, m, i, pid, p.f, p.rows);
      assert ListedAt(w, evs, m + 1, i, m, pid, q.f, p.rows, q.resp);
    }
  }

  lemma StartedUntraced(db: Db, op: Op, env: Env)
    ensures Begin(db, op, env).More? ==>
      !Begin(db, op, env).pending.QueryCount? && !Begin(db, op, env).pending.StoreList?
  {
  }

  /** An entry stays as it was, or is the one a list stores. */
  lemma EntryChanges(w: World, ev: Event, key: string)
    requires Happen(w, ev).sys.cache.Some? && key in Happen(w, ev).sys.cache.value
    ensures w.sys.cache.Some?
    ensures var e := Happen(w, ev).sys.cache.value[key];
      || (key in w.sys.cache.value && w.sys.cache.value[key] == e)
      || (ev.Resume? && ev.pid in w.pend && w.pend[ev.pid].StoreList? && Key(w.pend[ev.pid].f) == key
          && !ev.env.setFails && e == CacheEntry(w.pend[ev.pid].resp, ev.env.now + TASK_LIST_CACHE_TTL))
  {
  }

  lemma PendingsTraced(w: World, evs: seq<Event>, m: nat, pid: nat)
    requires m < |evs| && AllTraceable(w, evs, m) && pid in Before(w, evs, m + 1).pend
    ensures PendingTraced(w, evs, m + 1, pid, Before(w, evs, m + 1).pend[pid])
  {
    hide PendingTraced;
    BeforeNext(w, evs, m);
    var now, after := Before(w, evs, m), Before(w, evs, m + 1);
    if evs[m].Resume? && evs[m].pid == pid && pid in now.pend {
      MovedOnTraced(w, evs, m);
    } else if pid in now.pend {
      assert after.pend[pid] == now.pend[pid];
      StillTraced(w, evs, m, pid, now.pend[pid]);
    } else {
      StartedUntraced(now.sys.db, evs[m].op, evs[m].env);
      NothingToTrace(w, evs, m + 1, pid, after.pend[pid]);
    }
  }

  lemma NothingToTrace(w: World, evs: seq<Event>, m: nat, pid: nat, p: Pending)
    requires m <= |evs| && !p.QueryCount? && !p.StoreList?
    ensures PendingTraced(w, evs, m, pid, p)
  {
  }

  lemma EntryTraced(w: World, evs: seq<Event>, m: nat, key: string)
    requires m < |evs| && AllTraceable(w, evs, m)
    requires Before(w, evs, m + 1).sys.cache.Some? && key in Before(w, evs, m + 1).sys.cache.value
    ensures Traceable(w, evs, m + 1, key, Before(w, evs, m + 1).sys.cache.value[key])
  {
    BeforeNext(w, evs, m);
    var now, e := Before(w, evs, m), Before(w, evs, m + 1).sys.cache.value[key];
    EntryChanges(now, evs[m], key);
    if key in now.sys.cache.value && now.sys.cache.value[key] == e {
      var n: nat, pid: nat, f :| n < m && StoredAt(w, evs, n, pid, f, key, e);
    } else {
      var pid := evs[m].pid;
      assert PendingTraced(w, evs, m, pid, now.pend[pid]);
      assert StoredAt(w, evs, m, pid, now.pend[pid].f, key, e);
    }
  }

  /** In every interleaving whatever: each cached entry was stored, to last five minutes, by one list request that had
      itself read the items from the tables of an earlier moment and then the total from those of a later one. */
  lemma {:induction false} EntriesTraceable(w: World, evs: seq<Event>, m: nat)
    requires w.pend == map[] && (w.sys.cache.Some? ==> w.sys.cache.value == map[]) && m <= |evs|
    ensures AllTraceable(w, evs, m)
  {
    hide PendingTraced, Traceable;
    if m == 0 {
      BeforeFirst(w, evs);
    } else {
      EntriesTraceable(w, evs, m - 1);
      forall pid | pid in Before(w, evs, m).pend
        ensures PendingTraced(w, evs, m, pid, Before(w, evs, m).pend[pid])
      {
        PendingsTraced(w, evs, m - 1, pid);
      }
      if Before(w, evs, m).sys.cache.Some? {
        forall key | key in Before(w, evs, m).sys.cache.value
          ensures Traceable(w, evs, m, key, Before(w, evs, m).sys.cache.value[key])
        {
          EntryTraced(w, evs, m - 1, key);
        }
      }
    }
  }

  /** So every cached answer was put together and stored by one list, no more than five minutes before it is served. */
  lemma HitsTraceable(w: World, evs: seq<Event>, m: nat, f: TaskFilter, now: int, fails: bool)
    requires w.pend == map[] && (w.sys.cache.Some? ==> w.sys.cache.value == map[]) && m <= |evs|
    requires Hit(Before(w, evs, m).sys.cache, f, now, fails).Some?
    ensures exists n: nat, pid: nat, g, e ::
      n < m && StoredAt(w, evs, n, pid, g, Key(f), e)
      && e.resp == Hit(Before(w, evs, m).sys.cache, f, now, fails).value
      && now - 300 <= evs[n].env.now
  {
    EntriesTraceable(w, evs, m);
    var e := Before(w, evs, m).sys.cache.value[Key(f)];
    assert Traceable(w, evs, m, Key(f), e);
    var n: nat, pid: nat, g :| n < m && StoredAt(w, evs, n, pid, g, Key(f), e);
  }

  // ---- answers that are whole ------------------------------------------------------------------

  /** No task write of the team commits strictly between these events. */
  predicate NoCommits(w: World, evs: seq<Event>, team: nat, i: nat, m: nat)
    requires m <= |evs|
  {
    forall c {:trigger evs[c]} :: i < c < m ==> !CommitsWrite(Before(w, evs, c), evs[c], team)
  }

  lemma SameListsOn(a: Db, b: Db, c: Db, team: nat)
    requires SameLists(a, b, team) && SameLists(b, c, team)
    ensures SameLists(a, c, team)
  {
    forall f: TaskFilter | f.teamId == team
      ensures ListRows(c, f) == ListRows(a, f) && Response(c, f) == Response(a, f)
    {
      assert ListRows(b, f) == ListRows(a, f) && Response(b, f) == Response(a, f);
    }
  }

  /** A list's own actions commit nothing, so lists of its team are the same from one of them to the next. */
  lemma {:induction false} SameThrough(w: World, evs: seq<Event>, team: nat, i: nat, m: nat)
    requires WorldInv(w) && team != 0 && i < m <= |evs| && NoCommits(w, evs, team, i, m)
    requires !CommitsWrite(Before(w, evs, i), evs[i], team)
    ensures SameLists(Before(w, evs, i).sys.db, Before(w, evs, m).sys.db, team)
  {
    hide WorldInv, CommitsWrite, SameLists, Happen, Evolves, Response, ListRows;
    RunKeepsWorld(w, evs[..m - 1]);
    BeforeNext(w, evs, m - 1);
    HappenSameLists(Before(w, evs, m - 1), evs[m - 1], team);
    if i < m - 1 {
      SameThrough(w, evs, team, i, m - 1);
      SameListsOn(Before(w, evs, i).sys.db, Before(w, evs, m - 1).sys.db, Before(w, evs, m).sys.db, team);
    }
  }

  /** An answer whose list saw no write of its team between its two reads is the uncached one when it counted. */
  lemma WholeIfUncut(w: World, evs: seq<Event>, m: nat, i: nat, j: nat, pid: nat, f: TaskFilter, rows: seq<Task>,
                     resp: TasksListResponse)
    requires WorldInv(w) && f.teamId != 0 && i < j < m <= |evs|
    requires ListedAt(w, evs, m, i, j, pid, f, rows, resp) && NoCommits(w, evs, f.teamId, i, j)
    ensures Response(Before(w, evs, j).sys.db, f) == Ok(resp)
  {
    SameThrough(w, evs, f.teamId, i, j);
    assert ListRows(Before(w, evs, j).sys.db, f) == ListRows(Before(w, evs, i).sys.db, f);
  }

  lemma RowsLive(db: Db, f: TaskFilter)
    requires Inv(db)
    ensures ListRows(db, f).Ok? ==> forall t :: t in ListRows(db, f).value ==> t.Live()
  {
    assert forall id :: id in db.tasks ==> TaskOk(db, id);
    Sql.SelectExact(db.tasks, db.nextTask, t => Matches(f, t));
    var all := Matching(db, f);
    if ListRows(db, f).Ok? {
      var rows := ListRows(db, f).value;
      assert forall i :: 0 <= i < |rows| ==> rows[i] in all;
    }
  }

  lemma ItemsTellRows(f: TaskFilter, a: seq<Task>, b: seq<Task>, total: nat)
    requires (forall t :: t in a ==> t.Live()) && (forall t :: t in b ==> t.Live())
    requires ToResponse(f, a, total) == ToResponse(f, b, total)
    ensures a == b
  {
    assert |a| == |ToResponse(f, a, total).items| == |ToResponse(f, b, total).items| == |b|;
    forall i | 0 <= i < |a| ensures a[i] == b[i] {
      assert ToResponse(f, a, total).items[i] == ToTaskResponse(a[i]);
      assert ToResponse(f, b, total).items[i] == ToTaskResponse(b[i]);
      assert a[i] in a && b[i] in b;
    }
  }

  /** An answer is whole when it is counted if and only if the rows read are still the filter's page then. */
  lemma WholeIff(w: World, evs: seq<Event>, m: nat, i: nat, j: nat, pid: nat, f: TaskFilter, rows: seq<Task>,
                 resp: TasksListResponse)
    requires WorldInv(w) && i < j < m <= |evs| && ListedAt(w, evs, m, i, j, pid, f, rows, resp)
    ensures Response(Before(w, evs, j).sys.db, f) == Ok(resp) <==> ListRows(Before(w, evs, j).sys.db, f) == Ok(rows)
  {
    RunKeepsWorld(w, evs[..i]);
    RunKeepsWorld(w, evs[..j]);
    var db := Before(w, evs, j).sys.db;
    RowsLive(Before(w, evs, i).sys.db, f);
    RowsLive(db, f);
    if Response(db, f) == Ok(resp) {
      ItemsTellRows(f, rows, ListRows(db, f).value, |Matching(db, f)|);
    }
  }

  // ---- an answer no moment gives ---------------------------------------------------------------

  /** A list reads its page, a creation commits, and the list counts. */
  function HalfEvents(f: TaskFilter): seq<Event>
  {
    [Start(1, ListTasks(1, f), QUIET), Resume(1, QUIET), Resume(1, QUIET),
     Start(2, Creation(f, f.assigneeId, None).op, QUIET), Resume(2, QUIET), Resume(1, QUIET)]
  }

  function HalfAnswer(f: TaskFilter): TasksListResponse { ToResponse(f, [], 1) }

  function OneRow(f: TaskFilter): Task { FirstTask(f.teamId, StatusFor(f), f.assigneeId) }

  function HalfPending(f: TaskFilter, n: nat): map<nat, Pending>
  {
    var create, invalidate := InsertTask(OneRow(f).(id := 0)), Invalidate(f.teamId, 0, TaskReply(OneRow(f)));
    if n == 0 then map[]
    else if n == 1 then map[1 := LookUp(f)]
    else if n == 2 then map[1 := QueryRows(f)]
    else if n == 3 then map[1 := QueryCount(f, [])]
    else if n == 4 then map[1 := QueryCount(f, []), 2 := create]
    else if n == 5 then map[1 := QueryCount(f, []), 2 := invalidate]
    else map[1 := StoreList(f, HalfAnswer(f)), 2 := invalidate]
  }

  function HalfDb(f: TaskFilter, n: nat): Db
  {
    if n < 5 then Base(f.teamId, f.assigneeId) else WithTask(f.teamId, StatusFor(f), f.assigneeId)
  }

  lemma HalfReads(f: TaskFilter)
    requires ValidFilter(f) && Cacheable(f)
    ensures ListRows(HalfDb(f, 0), f) == Ok([]) && |Matching(HalfDb(f, 5), f)| == 1
  {
    MatchingSmall(f, f, f.assigneeId);
  }

  lemma HalfBegins(f: TaskFilter)
    requires ValidFilter(f) && Cacheable(f)
    ensures Begin(HalfDb(f, 0), ListTasks(1, f), QUIET) == More(LookUp(f))
    ensures Begin(HalfDb(f, 0), Creation(f, f.assigneeId, None).op, QUIET) == More(InsertTask(OneRow(f).(id := 0)))
  {
    OneLetter();
  }

  lemma HalfCreates(f: TaskFilter, cache: Option<Cached>)
    requires ValidFilter(f) && Cacheable(f)
    ensures Advance(Sys(HalfDb(f, 0), cache), InsertTask(OneRow(f).(id := 0)), QUIET) ==
      (Sys(HalfDb(f, 5), cache), More(Invalidate(f.teamId, 0, TaskReply(OneRow(f)))))
  {
  }

  /** An action of request 1 that leaves the system alone. */
  lemma OwnStep(w: World, next: Pending)
    requires 1 in w.pend && Advance(w.sys, w.pend[1], QUIET) == (w.sys, More(next))
    ensures var w' := Happen(w, Resume(1, QUIET)); w'.sys == w.sys && w'.pend == w.pend[1 := next]
  {
  }

  lemma HalfAdvances(f: TaskFilter)
    requires ValidFilter(f) && Cacheable(f)
    ensures var s, s' := Sys(HalfDb(f, 0), Some(map[])), Sys(HalfDb(f, 5), Some(map[]));
      && Advance(s, LookUp(f), QUIET) == (s, More(QueryRows(f)))
      && Advance(s, QueryRows(f), QUIET) == (s, More(QueryCount(f, [])))
      && Advance(s', QueryCount(f, []), QUIET) == (s', More(StoreList(f, HalfAnswer(f))))
  {
    hide Base, WithTask, Matching, ListRows;
    HalfReads(f);
  }

  lemma HalfListStep(w: World, f: TaskFilter, n: nat)
    requires ValidFilter(f) && Cacheable(f) && (n < 3 || n == 5)
    requires w.sys == Sys(HalfDb(f, n), Some(map[])) && w.pend == HalfPending(f, n)
    ensures var w' := Happen(w, HalfEvents(f)[n]);
      w'.sys == Sys(HalfDb(f, n + 1), Some(map[])) && w'.pend == HalfPending(f, n + 1)
  {
    hide Base, WithTask, Creation, OneRow, Advance, Begin;
    if n == 0 {
      HalfBegins(f);
    } else {
      HalfAdvances(f);
      OwnStep(w, HalfPending(f, n + 1)[1]);
    }
  }

  lemma HalfCreateStep(w: World, f: TaskFilter, n: nat)
    requires ValidFilter(f) && Cacheable(f) && 3 <= n < 5
    requires w.sys == Sys(HalfDb(f, n), Some(map[])) && w.pend == HalfPending(f, n)
    ensures var w' := Happen(w, HalfEvents(f)[n]);
      w'.sys == Sys(HalfDb(f, n + 1), Some(map[])) && w'.pend == HalfPending(f, n + 1)
  {
    hide Base, WithTask, Matching, ListRows, OneRow;
    HalfBegins(f);
    HalfCreates(f, Some(map[]));
  }

  lemma {:induction false} HalfBefore(f: TaskFilter, n: nat)
    requires ValidFilter(f) && Cacheable(f) && n <= 6
    ensures var w := Before(RaceWorld(f), HalfEvents(f), n);
      w.sys == Sys(HalfDb(f, n), Some(map[])) && w.pend == HalfPending(f, n)
  {
    hide Happen, HalfPending, HalfDb;
    if n == 0 {
      BeforeFirst(RaceWorld(f), HalfEvents(f));
      HalfStarts(f);
    } else {
      HalfBefore(f, n - 1);
      BeforeNext(RaceWorld(f), HalfEvents(f), n - 1);
      var w := Before(RaceWorld(f), HalfEvents(f), n - 1);
      if 3 <= n - 1 < 5 { HalfCreateStep(w, f, n - 1); } else { HalfListStep(w, f, n - 1); }
    }
  }

  lemma HalfStarts(f: TaskFilter)
    ensures RaceWorld(f).sys == Sys(HalfDb(f, 0), Some(map[])) && RaceWorld(f).pend == HalfPending(f, 0)
  {
  }

  lemma HalfDiffers(f: TaskFilter, n: nat)
    requires ValidFilter(f) && Cacheable(f)
    ensures n < 5 || f.page == 1 ==> Response(HalfDb(f, n), f) != Ok(HalfAnswer(f))
  {
    MatchingSmall(f, f, f.assigneeId);
    ResponseMeta(HalfDb(f, n), f);
    if n < 5 {
      assert |Matching(HalfDb(f, n), f)| == 0 && HalfAnswer(f).meta.total == 1;
    } else if f.page == 1 {
      assert Offset(f) == 0;
      assert |ListRows(HalfDb(f, n), f).value| == 1;
      assert |Response(HalfDb(f, n), f).value.items| == 1 && |HalfAnswer(f).items| == 0;
    }
  }

  /** A fault-free interleaving in which a list of the first page ends up with no items and a total of one, an answer the
      tables gave at no moment. */
  lemma HalfListing(f: TaskFilter)
    requires ValidFilter(f) && Cacheable(f)
    ensures var w := Before(RaceWorld(f), HalfEvents(f), 6);
      && 1 in w.pend && w.pend[1] == StoreList(f, HalfAnswer(f))
      && HalfAnswer(f).items == [] && HalfAnswer(f).meta.total == 1
      && ReplyOf(w, Resume(1, QUIET)) == Some(ListReply(HalfAnswer(f)))
    ensures f.page == 1 ==> forall n {:trigger Before(RaceWorld(f), HalfEvents(f), n)} :: 0 <= n <= 6 ==>
      Response(Before(RaceWorld(f), HalfEvents(f), n).sys.db, f) != Ok(HalfAnswer(f))
  {
    hide Base, WithTask, ListRows, Matching, Before, Creation;
    HalfBefore(f, 6);
    if f.page == 1 {
      forall n | 0 <= n <= 6
        ensures Response(Before(RaceWorld(f), HalfEvents(f), n).sys.db, f) != Ok(HalfAnswer(f))
      {
        HalfBefore(f, n);
        HalfDiffers(f, n);
      }
    }
  }

  // ---- staleness -------------------------------------------------------------------------------

  /** Event n stores what the list had read at events i and j. */
  predicate StoresRead(w: World, evs: seq<Event>, n: nat, i: nat, j: nat, pid: nat, f: TaskFilter, rows: seq<Task>,
                       resp: TasksListResponse)
  {
    && i < j < n < |evs| && Acts(w, evs, n, pid, StoreList(f, resp)) && !evs[n].env.setFails
    && ListedAt(w, evs, n, i, j, pid, f, rows, resp)
  }

  /** Every answer stored before event m was the uncached one when its list counted. */
  ghost predicate StoredWhole(w: World, evs: seq<Event>, m: nat)
  {
    forall n: nat, i: nat, j: nat, pid: nat, f, rows, resp ::
      n < m && StoresRead(w, evs, n, i, j, pid, f, rows, resp) ==> Response(Before(w, evs, j).sys.db, f) == Ok(resp)
  }

  /** Every list that stored before event m had read what was still its filter's page when it counted. */
  ghost predicate PagesStood(w: World, evs: seq<Event>, m: nat)
  {
    forall n: nat, i: nat, j: nat, pid: nat, f, rows, resp ::
      n < m && StoresRead(w, evs, n, i, j, pid, f, rows, resp) ==> ListRows(Before(w, evs, j).sys.db, f) == Ok(rows)
  }

  /** In every interleaving whatever: every stored answer was whole when it was counted if and only if every storing list
      still had its filter's page then. */
  lemma StoredWholeIff(w: World, evs: seq<Event>, m: nat)
    requires WorldInv(w)
    ensures StoredWhole(w, evs, m) <==> PagesStood(w, evs, m)
  {
    hide WorldInv, Acts, ListedAt, Response, ListRows;
    forall n: nat, i: nat, j: nat, pid: nat, f, rows, resp |
      n < m && StoresRead(w, evs, n, i, j, pid, f, rows, resp)
      ensures Response(Before(w, evs, j).sys.db, f) == Ok(resp) <==> ListRows(Before(w, evs, j).sys.db, f) == Ok(rows)
    {
      WholeIff(w, evs, n, i, j, pid, f, rows, resp);
    }
  }

  /** No task write of a team commits while a list of that team is between its two reads. */
  ghost predicate UncutRun(w: World, evs: seq<Event>)
  {
    forall n, q {:trigger evs[n], Before(w, evs, n).pend[q]} :: 0 <= n < |evs| && q in Before(w, evs, n).pend ==>
      var p := Before(w, evs, n).pend[q];
      !(p.QueryCount? && CommitsWrite(Before(w, evs, n), evs[n], p.f.teamId))
  }

  lemma UncutNoCommits(w: World, evs: seq<Event>, pid: nat, f: TaskFilter, rows: seq<Task>, i: nat, j: nat)
    requires UncutRun(w, evs) && i < j <= |evs| && Waits(w, evs, pid, QueryCount(f, rows), i, j)
    ensures NoCommits(w, evs, f.teamId, i, j)
  {
    forall c {:trigger evs[c]} | i < c < j ensures !CommitsWrite(Before(w, evs, c), evs[c], f.teamId) {
      assert Before(w, evs, c).pend[pid] == QueryCount(f, rows);
    }
  }

  /** Every filter. */
  ghost const ANY_FILTER: iset<TaskFilter> := iset f: TaskFilter | true

  /** A list that has something to store is of a team. */
  lemma StoresForTeam(w: World, evs: seq<Event>, n: nat, pid: nat, f: TaskFilter, resp: TasksListResponse)
    requires w.pend == map[] && n < |evs| && Acts(w, evs, n, pid, StoreList(f, resp))
    ensures f.teamId != 0
  {
    assert AllAskFrom(evs, ANY_FILTER);
    RunAsks(w, evs, ANY_FILTER, n);
  }

  /** For that it is enough that no write comes between a list's two reads. */
  lemma UncutPagesStood(w: World, evs: seq<Event>, m: nat)
    requires WorldInv(w) && w.pend == map[] && UncutRun(w, evs)
    ensures PagesStood(w, evs, m)
  {
    hide WorldInv, UncutRun;
    forall n: nat, i: nat, j: nat, pid: nat, f, rows, resp |
      n < m && StoresRead(w, evs, n, i, j, pid, f, rows, resp)
      ensures Response(Before(w, evs, j).sys.db, f) == Ok(resp)
    {
      StoresForTeam(w, evs, n, pid, f, resp);
      UncutNoCommits(w, evs, pid, f, rows, i, j);
      WholeIfUncut(w, evs, n, i, j, pid, f, rows, resp);
    }
    StoredWholeIff(w, evs, m);
  }

  /** The hit was stored at event n by a list whose answer was the uncached one when it counted, at event j. */
  ghost predicate WholeAt(w: World, evs: seq<Event>, n: nat, j: nat, pid: nat, g: TaskFilter, key: string, e: CacheEntry)
    requires j < n < |evs|
  {
    && StoredAt(w, evs, n, pid, g, key, e) && Response(Before(w, evs, j).sys.db, g) == Ok(e.resp)
    && exists rows :: Acts(w, evs, j, pid, QueryCount(g, rows)) && Waits(w, evs, pid, StoreList(g, e.resp), j, n)
  }

  /** In every interleaving in which storing lists still have their filter's page when they count: every cached answer is
      the uncached answer to a filter with that key at one moment before a store no more than five minutes old. */
  lemma HitsBounded(w: World, evs: seq<Event>, m: nat, f: TaskFilter, now: int, fails: bool)
    requires WorldInv(w) && w.pend == map[] && (w.sys.cache.Some? ==> w.sys.cache.value == map[]) && m <= |evs|
    requires PagesStood(w, evs, m) && Hit(Before(w, evs, m).sys.cache, f, now, fails).Some?
    ensures exists n: nat, j: nat, pid: nat, g, e ::
      j < n < m && WholeAt(w, evs, n, j, pid, g, Key(f), e)
      && e.resp == Hit(Before(w, evs, m).sys.cache, f, now, fails).value
      && now - 300 <= evs[n].env.now
  {
    HitsTraceable(w, evs, m, f, now, fails);
    var n: nat, pid: nat, g, e :|
      n < m && StoredAt(w, evs, n, pid, g, Key(f), e)
      && e.resp == Hit(Before(w, evs, m).sys.cache, f, now, fails).value
      && now - 300 <= evs[n].env.now;
    var i: nat, j: nat, rows :| i < j < n && ListedAt(w, evs, n, i, j, pid, g, rows, e.resp);
    StoredWholeIff(w, evs, m);
    assert StoresRead(w, evs, n, i, j, pid, g, rows, e.resp);
    assert WholeAt(w, evs, n, j, pid, g, Key(f), e);
  }

  // ---- overtaken lists -------------------------------------------------------------------------

  /** A task write of the list's team has committed since it read its rows. */
  ghost predicate Overtaken(w: World, evs: seq<Event>, n: nat, pid: nat, f: TaskFilter, resp: TasksListResponse)
    requires n <= |evs|
  {
    forall i: nat, j: nat, rows :: i < j < n && ListedAt(w, evs, n, i, j, pid, f, rows, resp) ==>
      !NoCommits(w, evs, f.teamId, i, n)
  }

  /** No invalidation fails or dies before it has done its first k Dels, and a list overtaken by a write of its team is
      stored, if at all, while the Del of its own key is still on its way. */
  ghost predicate Considerate(w: World, evs: seq<Event>, k: nat, n: nat)
    requires n < |evs|
  {
    var now, ev := Before(w, evs, n), evs[n];
    && Invalidates(now, ev, k)
    && (ev.Resume? && ev.pid in now.pend && now.pend[ev.pid].StoreList? && !ev.env.setFails
        && Overtaken(w, evs, n, ev.pid, now.pend[ev.pid].f, now.pend[ev.pid].resp) ==>
          Coming(now, now.pend[ev.pid].f))
  }

  /** A list nothing has overtaken still holds the tables' answer. */
  lemma NotOvertakenHolds(w: World, evs: seq<Event>, n: nat, pid: nat, f: TaskFilter, resp: TasksListResponse)
    requires WorldInv(w) && n < |evs| && f.teamId != 0 && !Overtaken(w, evs, n, pid, f, resp)
    ensures Response(Before(w, evs, n).sys.db, f) == Ok(resp)
  {
    var i: nat, j: nat, rows :| i < j < n && ListedAt(w, evs, n, i, j, pid, f, rows, resp)
      && NoCommits(w, evs, f.teamId, i, n);
    WholeIfUncut(w, evs, n, i, j, pid, f, rows, resp);
    SameThrough(w, evs, f.teamId, j, n);
  }

  lemma ConsiderateDoesNotSpoil(w: World, evs: seq<Event>, F: iset<TaskFilter>, k: nat, n: nat)
    requires WorldInv(w) && AllAsk(w, F) && ValidFilters(F) && k <= KEYS_PER_TEAM && AllAskFrom(evs, F)
    requires n < |evs| && Considerate(w, evs, k, n)
    ensures !Spoils(Before(w, evs, n), evs[n], F, k)
  {
    var now, ev := Before(w, evs, n), evs[n];
    RunAsks(w, evs, F, n);
    if ev.Resume? && ev.pid in now.pend {
      var p := now.pend[ev.pid];
      if p.StoreList? {
        if !Overtaken(w, evs, n, ev.pid, p.f, p.resp) {
          NotOvertakenHolds(w, evs, n, ev.pid, p.f, p.resp);
          HeldIsBacked(now.sys.db, p.f, p.resp, F);
        }
      } else if DelFails(p, ev.env) {
        ReachesAll(now, ev.pid, F, k);
      }
    } else if ev.Abandon? && ev.pid in now.pend {
      ReachesAll(now, ev.pid, F, k);
    }
  }

  /** In every interleaving of that kind, races included, entries are current unless the Del of their key is on its way. */
  lemma ConsiderateStaysFresh(w: World, evs: seq<Event>, F: iset<TaskFilter>, k: nat, m: nat)
    requires WorldInv(w) && AllAsk(w, F) && FreshUnlessComing(w, F, k)
    requires ValidFilters(F) && k <= KEYS_PER_TEAM && AllAskFrom(evs, F) && m <= |evs|
    requires forall n {:trigger evs[n]} :: 0 <= n < m ==> Considerate(w, evs, k, n)
    ensures FreshUpTo(w, evs, F, k, m)
  {
    hide Considerate, Spoils, FreshUnlessComing, AllAsk, WorldInv;
    forall n {:trigger evs[n]} | 0 <= n < m ensures !Spoils(Before(w, evs, n), evs[n], F, k) {
      ConsiderateDoesNotSpoil(w, evs, F, k, n);
    }
    FreshThroughoutIff(w, evs, F, k, m);
  }
}
