/** Cached lists when requests interleave: exactly which events leave an entry out of date, and disciplines on schedules
    that avoid them. */
module InterleavedCache {

  import opened Wrappers
  import opened Text
  import opened Entities
  import opened Filter
  import opened Tables
  import opened CacheIndex
  import opened Requests
  import opened Invariants
  import opened Runs
  import opened CacheTheorems
  import opened CacheLimits
  import opened Interleaving
  import opened Scheduling
  import Sql

  // ---- freshness -------------------------------------------------------------------------------

  /** The request has yet to delete the filter's key. */
  predicate WillDrop(p: Pending, f: TaskFilter)
  {
    p.Invalidate? && p.teamId == f.teamId && Covered(f, KEYS_PER_TEAM) && p.next <= Ordinal(f)
  }

  /** The Del of the filter's key is on its way. */
  predicate Coming(w: World, f: TaskFilter)
  {
    exists pid :: pid in w.pend && WillDrop(w.pend[pid], f)
  }

  /** Every entry under one of a team's first k keys is current, unless the Del of its key is on its way. */
  ghost predicate FreshUnlessComing(w: World, F: iset<TaskFilter>, k: nat)
  {
    w.sys.cache.Some? ==>
      forall f :: Reachable(f, k) && Key(f) in w.sys.cache.value && !Coming(w, f) ==>
        Backed(w.sys.db, f, w.sys.cache.value[Key(f)].resp, F)
  }

  /** Suspended lists ask for filters in F. */
  ghost predicate ListAsks(p: Pending, F: iset<TaskFilter>)
  {
    p.LookUp? || p.QueryRows? || p.QueryCount? || p.StoreList? ==> p.f in F && p.f.teamId != 0
  }

  ghost predicate AllAsk(w: World, F: iset<TaskFilter>)
  {
    forall pid :: pid in w.pend ==> ListAsks(w.pend[pid], F)
  }

  /** New lists ask for filters in F. */
  predicate AsksFrom(ev: Event, F: iset<TaskFilter>) { ev.Start? && ev.op.ListTasks? ==> ev.op.filter in F }

  ghost predicate AllAskFrom(evs: seq<Event>, F: iset<TaskFilter>)
  {
    forall n {:trigger evs[n]} :: 0 <= n < |evs| ==> AsksFrom(evs[n], F)
  }

  // ---- what spoils it --------------------------------------------------------------------------

  /** The list stores an answer that is out of date by now, and the Del of its key is not on its way. */
  ghost predicate StoresStale(w: World, p: Pending, env: Env, F: iset<TaskFilter>, k: nat)
  {
    && p.StoreList? && w.sys.cache.Some? && !env.setFails && Reachable(p.f, k)
    && !Coming(w, p.f) && !Backed(w.sys.db, p.f, p.resp, F)
  }

  /** Ending here, the request leaves an entry out of date that it has not come to yet and nobody else will drop. */
  ghost predicate LeavesStale(w: World, pid: nat, F: iset<TaskFilter>, k: nat)
    requires pid in w.pend
  {
    w.sys.cache.Some? &&
    exists f: TaskFilter :: Reachable(f, k) && Key(f) in w.sys.cache.value && WillDrop(w.pend[pid], f)
      && (forall q :: q in w.pend && q != pid ==> !WillDrop(w.pend[q], f))
      && !Backed(w.sys.db, f, w.sys.cache.value[Key(f)].resp, F)
  }

  /** The request is at the Del that fails. */
  predicate DelFails(p: Pending, env: Env) { p.Invalidate? && env.failingDel == Some(p.next) }

  /** A stale store; or an invalidation that ends, by dying or by its next Del failing, before it has come to something
      out of date that nobody else will drop. */
  ghost predicate Spoils(w: World, ev: Event, F: iset<TaskFilter>, k: nat)
  {
    match ev
    case Resume(pid, env) =>
      pid in w.pend &&
      (StoresStale(w, w.pend[pid], env, F, k) || (DelFails(w.pend[pid], env) && LeavesStale(w, pid, F, k)))
    case Abandon(pid) => pid in w.pend && LeavesStale(w, pid, F, k)
    case _ => false
  }

  // ---- what table changes leave current --------------------------------------------------------

  /** The tables answer the same to lists of this team. */
  ghost predicate SameLists(db: Db, db': Db, team: nat)
  {
    forall f: TaskFilter {:trigger Response(db', f)} {:trigger ListRows(db', f)} :: f.teamId == team ==>
      ListRows(db', f) == ListRows(db, f) && Response(db', f) == Response(db, f)
  }

  lemma SameTasksSameLists(db: Db, db': Db, team: nat)
    requires db'.tasks == db.tasks && db'.nextTask == db.nextTask
    ensures SameLists(db, db', team)
  {
  }

  lemma OtherTeamsSameLists(db: Db, p: Pending, env: Env, team: nat)
    requires Inv(db) && Writes(p) && PendingOk(db, p) && team != 0 && team != TeamOf(p)
    ensures SameLists(db, AdvanceDb(db, p, env).0, team)
  {
    forall f: TaskFilter | f.teamId == team
      ensures var db' := AdvanceDb(db, p, env).0;
        ListRows(db', f) == ListRows(db, f) && Response(db', f) == Response(db, f)
    {
      TeamFrame(db, p, f, env);
    }
  }

  lemma BackedStill(db: Db, db': Db, f: TaskFilter, resp: TasksListResponse, F: iset<TaskFilter>)
    requires Keyed(f) && Backed(db, f, resp, F) && SameLists(db, db', f.teamId)
    ensures Backed(db', f, resp, F)
  {
    var g :| g in F && FreshFor(db, f, g, resp);
    KeyExact(f, g);
    assert FreshFor(db', f, g, resp);
  }

  // ---- one event at a time ---------------------------------------------------------------------

  /** Tables and cache answer as before, and the pending invalidations are still pending. */
  lemma QuietFresh(w: World, w': World, F: iset<TaskFilter>, k: nat)
    requires FreshUnlessComing(w, F, k)
    requires w'.sys.cache == w.sys.cache && w'.sys.db.tasks == w.sys.db.tasks && w'.sys.db.nextTask == w.sys.db.nextTask
    requires forall pid :: pid in w.pend && w.pend[pid].Invalidate? ==> pid in w'.pend && w'.pend[pid] == w.pend[pid]
    ensures FreshUnlessComing(w', F, k)
  {
    if w.sys.cache.Some? {
      forall f | Reachable(f, k) && Key(f) in w'.sys.cache.value && !Coming(w', f)
        ensures Backed(w'.sys.db, f, w'.sys.cache.value[Key(f)].resp, F)
      {
        assert !Coming(w, f);
        SameTasksSameLists(w.sys.db, w'.sys.db, f.teamId);
        BackedStill(w.sys.db, w'.sys.db, f, w.sys.cache.value[Key(f)].resp, F);
      }
    }
  }

  lemma ActionKeepsTasks(s: Sys, p: Pending, env: Env)
    requires !Writes(p) && !p.StoreList? && !p.Invalidate?
    ensures var (s', n) := Advance(s, p, env);
      s'.cache == s.cache && s'.db.tasks == s.db.tasks && s'.db.nextTask == s.db.nextTask
      && (n.More? ==> !n.pending.Invalidate?)
  {
  }

  /** What comes does not depend on a request that will not drop the key. */
  lemma ComesElsewhere(w: World, w': World, pid: nat, f: TaskFilter)
    requires w'.pend == w.pend - {pid} && (pid in w.pend ==> !WillDrop(w.pend[pid], f))
    ensures Coming(w', f) <==> Coming(w, f)
  {
    if Coming(w, f) {
      var q :| q in w.pend && WillDrop(w.pend[q], f);
      assert q in w'.pend && WillDrop(w'.pend[q], f);
    }
  }

  lemma SameKeyComing(w: World, f: TaskFilter, g: TaskFilter)
    requires f.teamId == g.teamId && f.status == g.status && f.page == g.page
    ensures Coming(w, f) <==> Coming(w, g)
  {
    forall q | q in w.pend ensures WillDrop(w.pend[q], f) <==> WillDrop(w.pend[q], g) {
    }
  }

  lemma StoreFreshIff(w: World, pid: nat, env: Env, F: iset<TaskFilter>, k: nat)
    requires FreshUnlessComing(w, F, k) && AllAsk(w, F) && ValidFilters(F) && pid in w.pend && w.pend[pid].StoreList?
    ensures FreshUnlessComing(Happen(w, Resume(pid, env)), F, k) <==> !StoresStale(w, w.pend[pid], env, F, k)
  {
    var w', p := Happen(w, Resume(pid, env)), w.pend[pid];
    if w'.sys.cache.Some? {
      var stored := w.sys.cache.Some? && !env.setFails;
      if StoresStale(w, p, env, F, k) {
        ComesElsewhere(w, w', pid, p.f);
        assert w'.sys.cache.value[Key(p.f)].resp == p.resp;
      } else {
        forall f | Reachable(f, k) && Key(f) in w'.sys.cache.value && !Coming(w', f)
          ensures Backed(w'.sys.db, f, w'.sys.cache.value[Key(f)].resp, F)
        {
          ComesElsewhere(w, w', pid, f);
          if stored && Key(f) == Key(p.f) {
            KeyExact(f, p.f);
            SameKeyComing(w, f, p.f);
            SameKeyBacked(w.sys.db, p.f, f, p.resp, F);
          }
        }
      }
    }
  }

  lemma SameKeyBacked(db: Db, f: TaskFilter, g: TaskFilter, resp: TasksListResponse, F: iset<TaskFilter>)
    requires Key(f) == Key(g) && Backed(db, f, resp, F)
    ensures Backed(db, g, resp, F)
  {
    var h :| h in F && FreshFor(db, f, h, resp);
    assert FreshFor(db, g, h, resp);
  }

  /** A request ends and changes neither tables nor cache. */
  lemma EndFreshIff(w: World, w': World, pid: nat, F: iset<TaskFilter>, k: nat)
    requires FreshUnlessComing(w, F, k) && pid in w.pend
    requires w'.pend == w.pend - {pid} && w'.sys == w.sys
    ensures FreshUnlessComing(w', F, k) <==> !LeavesStale(w, pid, F, k)
  {
    if w.sys.cache.Some? {
      if LeavesStale(w, pid, F, k) {
        var f: TaskFilter :| Reachable(f, k) && Key(f) in w.sys.cache.value && WillDrop(w.pend[pid], f)
          && (forall q :: q in w.pend && q != pid ==> !WillDrop(w.pend[q], f))
          && !Backed(w.sys.db, f, w.sys.cache.value[Key(f)].resp, F);
        assert !Coming(w', f);
      } else {
        forall f | Reachable(f, k) && Key(f) in w'.sys.cache.value && !Coming(w', f)
          ensures Backed(w'.sys.db, f, w'.sys.cache.value[Key(f)].resp, F)
        {
          if WillDrop(w.pend[pid], f) {
            forall q | q in w.pend && q != pid ensures !WillDrop(w.pend[q], f) {
              assert q in w'.pend && w'.pend[q] == w.pend[q];
            }
          } else {
            ComesElsewhere(w, w', pid, f);
          }
        }
      }
    }
  }

  /** An entry that outlives a Del which does not fail is no more on its way out than before. */
  lemma DelPasses(w: World, pid: nat, env: Env, f: TaskFilter)
    requires pid in w.pend && w.pend[pid].Invalidate? && !DelFails(w.pend[pid], env)
    requires w.sys.cache.Some? && Keyed(f) && Coming(w, f)
    ensures var w' := Happen(w, Resume(pid, env));
      w'.sys.cache.Some? && (Key(f) in w'.sys.cache.value ==> Coming(w', f))
  {
    hide Key, DeletionKey;
    var w', p := Happen(w, Resume(pid, env)), w.pend[pid];
    var q :| q in w.pend && WillDrop(w.pend[q], f);
    if p.next < KEYS_PER_TEAM { DelExact(f, p.teamId, p.next); }
    LabelNumbered(f.status);
    if Key(f) in w'.sys.cache.value {
      assert q in w'.pend && WillDrop(w'.pend[q], f);
    }
  }

  lemma DelKeepsEntries(w: World, pid: nat, env: Env, key: string)
    requires pid in w.pend && w.pend[pid].Invalidate?
    ensures var w' := Happen(w, Resume(pid, env));
      && w'.sys.db == w.sys.db && w'.sys.cache.Some? == w.sys.cache.Some?
      && (w.sys.cache.Some? && key in w'.sys.cache.value ==>
            key in w.sys.cache.value && w'.sys.cache.value[key] == w.sys.cache.value[key])
  {
  }

  /** A Del that does not fail spoils nothing. */
  lemma DelFresh(w: World, pid: nat, env: Env, F: iset<TaskFilter>, k: nat)
    requires FreshUnlessComing(w, F, k) && pid in w.pend && w.pend[pid].Invalidate? && !DelFails(w.pend[pid], env)
    ensures FreshUnlessComing(Happen(w, Resume(pid, env)), F, k)
  {
    hide Happen, Key, Coming;
    var w' := Happen(w, Resume(pid, env));
    DelKeepsEntries(w, pid, env, "");
    if w.sys.cache.Some? {
      forall f | Reachable(f, k) && Key(f) in w'.sys.cache.value && !Coming(w', f)
        ensures Backed(w'.sys.db, f, w'.sys.cache.value[Key(f)].resp, F)
      {
        DelKeepsEntries(w, pid, env, Key(f));
        if Coming(w, f) { DelPasses(w, pid, env, f); }
      }
    }
  }

  lemma InvalidateFreshIff(w: World, pid: nat, env: Env, F: iset<TaskFilter>, k: nat)
    requires FreshUnlessComing(w, F, k) && pid in w.pend && w.pend[pid].Invalidate?
    ensures FreshUnlessComing(Happen(w, Resume(pid, env)), F, k) <==> !Spoils(w, Resume(pid, env), F, k)
  {
    if DelFails(w.pend[pid], env) {
      EndFreshIff(w, Happen(w, Resume(pid, env)), pid, F, k);
    } else {
      DelFresh(w, pid, env, F, k);
    }
  }

  lemma AbandonFreshIff(w: World, pid: nat, F: iset<TaskFilter>, k: nat)
    requires FreshUnlessComing(w, F, k)
    ensures FreshUnlessComing(Happen(w, Abandon(pid)), F, k) <==> !Spoils(w, Abandon(pid), F, k)
  {
    if pid in w.pend {
      EndFreshIff(w, Happen(w, Abandon(pid)), pid, F, k);
    } else {
      assert w.pend - {pid} == w.pend;
    }
  }

  lemma WriteMovesOn(s: Sys, p: Pending, env: Env)
    requires Writes(p)
    ensures var (s', n) := Advance(s, p, env);
      && s'.cache == s.cache && s'.db == AdvanceDb(s.db, p, env).0
      && if n.More? then n.pending.Invalidate? && n.pending.teamId == TeamOf(p) && n.pending.next == 0 else s' == s
  {
  }

  lemma WriteFresh(w: World, pid: nat, env: Env, F: iset<TaskFilter>, k: nat)
    requires WorldInv(w) && FreshUnlessComing(w, F, k) && pid in w.pend && Writes(w.pend[pid])
    requires Advance(w.sys, w.pend[pid], env).1.More?
    ensures FreshUnlessComing(Happen(w, Resume(pid, env)), F, k)
  {
    var w', p := Happen(w, Resume(pid, env)), w.pend[pid];
    WriteMovesOn(w.sys, p, env);
    assert PendingOk(w.sys.db, p);
    if w.sys.cache.Some? {
      forall f | Reachable(f, k) && Key(f) in w'.sys.cache.value && !Coming(w', f)
        ensures Backed(w'.sys.db, f, w'.sys.cache.value[Key(f)].resp, F)
      {
        LabelNumbered(f.status);
        assert !WillDrop(w'.pend[pid], f);
        assert f.teamId != TeamOf(p);
        NoneElsewhere(w, w', pid, f);
        OtherTeamsSameLists(w.sys.db, p, env, f.teamId);
        BackedStill(w.sys.db, w'.sys.db, f, w.sys.cache.value[Key(f)].resp, F);
      }
    }
  }

  lemma NoneElsewhere(w: World, w': World, pid: nat, f: TaskFilter)
    requires pid in w.pend && !w.pend[pid].Invalidate? && !Coming(w', f)
    requires forall q :: q in w.pend && q != pid ==> q in w'.pend && w'.pend[q] == w.pend[q]
    ensures !Coming(w, f)
  {
  }

  /** The other actions keep entries current whatever the schedule: a write leaves an invalidation on its way. */
  lemma OtherResumeFresh(w: World, pid: nat, env: Env, F: iset<TaskFilter>, k: nat)
    requires WorldInv(w) && FreshUnlessComing(w, F, k) && pid in w.pend
    requires !w.pend[pid].StoreList? && !w.pend[pid].Invalidate?
    ensures FreshUnlessComing(Happen(w, Resume(pid, env)), F, k)
  {
    var p := w.pend[pid];
    if Writes(p) {
      WriteMovesOn(w.sys, p, env);
      if Advance(w.sys, p, env).1.More? {
        WriteFresh(w, pid, env, F, k);
      } else {
        QuietFresh(w, Happen(w, Resume(pid, env)), F, k);
      }
    } else {
      ActionKeepsTasks(w.sys, p, env);
      QuietFresh(w, Happen(w, Resume(pid, env)), F, k);
    }
  }

  lemma DropFresh(w: World, key: string, F: iset<TaskFilter>, k: nat)
    requires FreshUnlessComing(w, F, k)
    ensures FreshUnlessComing(Happen(w, Drop(key)), F, k)
  {
    var w' := Happen(w, Drop(key));
    if w'.sys.cache.Some? {
      forall f | Reachable(f, k) && Key(f) in w'.sys.cache.value && !Coming(w', f)
        ensures Backed(w'.sys.db, f, w'.sys.cache.value[Key(f)].resp, F)
      {
        assert !Coming(w, f);
        assert w'.sys.cache.value[Key(f)] == w.sys.cache.value[Key(f)];
      }
    }
  }

  /** One event keeps every entry current if and only if it does not spoil one. */
  lemma HappenFreshIff(w: World, ev: Event, F: iset<TaskFilter>, k: nat)
    requires WorldInv(w) && AllAsk(w, F) && FreshUnlessComing(w, F, k) && ValidFilters(F) && k <= KEYS_PER_TEAM
    ensures FreshUnlessComing(Happen(w, ev), F, k) <==> !Spoils(w, ev, F, k)
  {
    match ev {
      case Start(_, _, _) => QuietFresh(w, Happen(w, ev), F, k);
      case Resume(pid, env) =>
        if pid in w.pend {
          if w.pend[pid].StoreList? { StoreFreshIff(w, pid, env, F, k); }
          else if w.pend[pid].Invalidate? { InvalidateFreshIff(w, pid, env, F, k); }
          else { OtherResumeFresh(w, pid, env, F, k); }
        }
      case Abandon(pid) => AbandonFreshIff(w, pid, F, k);
      case Drop(key) => DropFresh(w, key, F, k);
    }
  }

  lemma ListMovesOn(s: Sys, p: Pending, env: Env, F: iset<TaskFilter>)
    requires ListAsks(p, F)
    ensures Advance(s, p, env).1.More? ==> ListAsks(Advance(s, p, env).1.pending, F)
  {
  }

  lemma BeginAsks(db: Db, op: Op, env: Env, F: iset<TaskFilter>)
    requires op.ListTasks? ==> op.filter in F
    ensures Begin(db, op, env).More? ==> ListAsks(Begin(db, op, env).pending, F)
  {
  }

  lemma HappenAsks(w: World, ev: Event, F: iset<TaskFilter>)
    requires AllAsk(w, F) && AsksFrom(ev, F)
    ensures AllAsk(Happen(w, ev), F)
  {
    match ev {
      case Start(_, op, env) => BeginAsks(w.sys.db, op, env, F);
      case Resume(pid, env) =>
        if pid in w.pend { ListMovesOn(w.sys, w.pend[pid], env, F); }
      case _ =>
    }
  }

  // ---- runs ------------------------------------------------------------------------------------

  ghost predicate FreshUpTo(w: World, evs: seq<Event>, F: iset<TaskFilter>, k: nat, m: nat)
    requires m <= |evs|
  {
    forall n {:trigger Before(w, evs, n)} :: 0 <= n <= m ==> FreshUnlessComing(Before(w, evs, n), F, k)
  }

  ghost predicate UnspoiledUpTo(w: World, evs: seq<Event>, F: iset<TaskFilter>, k: nat, m: nat)
    requires m <= |evs|
  {
    forall n {:trigger evs[n]} :: 0 <= n < m ==> !Spoils(Before(w, evs, n), evs[n], F, k)
  }

  lemma {:induction false} RunAsks(w: World, evs: seq<Event>, F: iset<TaskFilter>, m: nat)
    requires AllAsk(w, F) && AllAskFrom(evs, F) && m <= |evs|
    ensures AllAsk(Before(w, evs, m), F)
  {
    hide AllAsk, AsksFrom, Happen;
    if m == 0 {
      BeforeFirst(w, evs);
    } else {
      RunAsks(w, evs, F, m - 1);
      BeforeNext(w, evs, m - 1);
      HappenAsks(Before(w, evs, m - 1), evs[m - 1], F);
    }
  }

  /** In every interleaving whatever, over every fault: each entry under one of a team's first k keys (with k = 400, each
      page 1..100 entry) is a current response to some filter with that team, status and page, or the Del of its key is
      on its way, throughout, if and only if no event spoils an entry. */
  lemma {:induction false} FreshThroughoutIff(w: World, evs: seq<Event>, F: iset<TaskFilter>, k: nat, m: nat)
    requires WorldInv(w) && AllAsk(w, F) && FreshUnlessComing(w, F, k)
    requires ValidFilters(F) && k <= KEYS_PER_TEAM && AllAskFrom(evs, F) && m <= |evs|
    ensures FreshUpTo(w, evs, F, k, m) <==> UnspoiledUpTo(w, evs, F, k, m)
  {
    hide WorldInv, AllAsk, FreshUnlessComing, Spoils, Happen, Evolves;
    if m == 0 {
      BeforeFirst(w, evs);
    } else {
      FreshThroughoutIff(w, evs, F, k, m - 1);
      RunKeepsWorld(w, evs[..m - 1]);
      RunAsks(w, evs, F, m - 1);
      BeforeNext(w, evs, m - 1);
      var mid := Before(w, evs, m - 1);
      if FreshUnlessComing(mid, F, k) {
        HappenFreshIff(mid, evs[m - 1], F, k);
      } else {
        assert !FreshUpTo(w, evs, F, k, m - 1);
      }
    }
  }

  /** The empty service meets the hypotheses. */
  lemma GenesisFresh(users: set<nat>, F: iset<TaskFilter>, k: nat)
    ensures var g := Genesis(users, Some(map[]));
      WorldInv(g) && AllAsk(g, F) && FreshUnlessComing(g, F, k) && ListsHold(g)
  {
    GenesisOk(users, Some(map[]));
  }

  // ---- orderly schedules -----------------------------------------------------------------------

  /** The event commits a task write of this team. */
  predicate CommitsWrite(w: World, ev: Event, team: nat)
  {
    && ev.Resume? && ev.pid in w.pend && Writes(w.pend[ev.pid]) && TeamOf(w.pend[ev.pid]) == team
    && Advance(w.sys, w.pend[ev.pid], ev.env).1.More?
  }

  /** No invalidation fails or dies before it has done its first k Dels. */
  predicate Invalidates(w: World, ev: Event, k: nat)
  {
    && (ev.Resume? && ev.pid in w.pend && DelFails(w.pend[ev.pid], ev.env) ==> w.pend[ev.pid].next >= k)
    && (ev.Abandon? && ev.pid in w.pend && w.pend[ev.pid].Invalidate? ==> w.pend[ev.pid].next >= k)
  }

  /** And no task write of a team commits while a list of that team holds rows. */
  ghost predicate Orderly(w: World, ev: Event, k: nat)
  {
    && Invalidates(w, ev, k)
    && forall q :: q in w.pend && (w.pend[q].QueryCount? || w.pend[q].StoreList?) ==>
         !CommitsWrite(w, ev, w.pend[q].f.teamId)
  }

  ghost predicate OrderlyRun(w: World, evs: seq<Event>, k: nat)
  {
    forall n {:trigger evs[n]} :: 0 <= n < |evs| ==> Orderly(Before(w, evs, n), evs[n], k)
  }

  /** What a suspended list holds is still what the tables say. */
  predicate ListHolds(db: Db, p: Pending)
  {
    match p
    case QueryCount(f, rows) => ListRows(db, f) == Ok(rows)
    case StoreList(f, resp) => Response(db, f) == Ok(resp)
    case _ => true
  }

  predicate ListsHold(w: World)
  {
    forall pid :: pid in w.pend ==> ListHolds(w.sys.db, w.pend[pid])
  }

  /** Unless it commits a write of the team, an event leaves the team's lists as they were. */
  lemma HappenSameLists(w: World, ev: Event, team: nat)
    requires WorldInv(w) && team != 0 && !CommitsWrite(w, ev, team)
    ensures SameLists(w.sys.db, Happen(w, ev).sys.db, team)
  {
    if ev.Resume? && ev.pid in w.pend {
      var p := w.pend[ev.pid];
      assert PendingOk(w.sys.db, p);
      if Writes(p) && TeamOf(p) != team {
        WriteMovesOn(w.sys, p, ev.env);
        OtherTeamsSameLists(w.sys.db, p, ev.env, team);
      } else if Writes(p) {
        WriteMovesOn(w.sys, p, ev.env);
      } else {
        OthersKeepTasks(w.sys, p, ev.env);
        SameTasksSameLists(w.sys.db, Happen(w, ev).sys.db, team);
      }
    }
  }

  lemma OthersKeepTasks(s: Sys, p: Pending, env: Env)
    requires !Writes(p)
    ensures Advance(s, p, env).0.db.tasks == s.db.tasks && Advance(s, p, env).0.db.nextTask == s.db.nextTask
  {
  }

  /** A list that moves on holds what it has just read. */
  lemma MovedOnHolds(s: Sys, p: Pending, env: Env)
    requires ListHolds(s.db, p)
    ensures var (s', n) := Advance(s, p, env); n.More? ==> ListHolds(s'.db, n.pending)
  {
    if Writes(p) { WriteMovesOn(s, p, env); }
  }

  lemma BeginHolds(db: Db, op: Op, env: Env)
    ensures Begin(db, op, env).More? ==> ListHolds(db, Begin(db, op, env).pending)
  {
  }

  lemma OrderlyHolds(w: World, ev: Event, F: iset<TaskFilter>, k: nat)
    requires WorldInv(w) && AllAsk(w, F) && ListsHold(w) && Orderly(w, ev, k)
    ensures ListsHold(Happen(w, ev))
  {
    var w' := Happen(w, ev);
    forall q | q in w'.pend ensures ListHolds(w'.sys.db, w'.pend[q]) {
      if ev.Resume? && ev.pid in w.pend && q == ev.pid {
        MovedOnHolds(w.sys, w.pend[q], ev.env);
      } else if q in w.pend {
        if w.pend[q].QueryCount? || w.pend[q].StoreList? {
          HappenSameLists(w, ev, w.pend[q].f.teamId);
        }
      } else {
        BeginHolds(w.sys.db, ev.op, ev.env);
      }
    }
  }

  /** An answer the tables still give is a current response. */
  lemma HeldIsBacked(db: Db, f: TaskFilter, resp: TasksListResponse, F: iset<TaskFilter>)
    requires f in F && ValidFilter(f) && f.teamId != 0 && Response(db, f) == Ok(resp)
    ensures Backed(db, f, resp, F)
  {
    assert FreshFor(db, f, f, resp);
  }

  /** What is past its k-th Del, or no invalidation, leaves nothing stale behind. */
  lemma ReachesAll(w: World, pid: nat, F: iset<TaskFilter>, k: nat)
    requires pid in w.pend && (w.pend[pid].Invalidate? ==> w.pend[pid].next >= k)
    ensures !LeavesStale(w, pid, F, k)
  {
  }

  lemma OrderlyDoesNotSpoil(w: World, ev: Event, F: iset<TaskFilter>, k: nat)
    requires AllAsk(w, F) && ListsHold(w) && ValidFilters(F) && k <= KEYS_PER_TEAM && Orderly(w, ev, k)
    ensures !Spoils(w, ev, F, k)
  {
    if ev.Resume? && ev.pid in w.pend {
      var p := w.pend[ev.pid];
      if p.StoreList? {
        HeldIsBacked(w.sys.db, p.f, p.resp, F);
      } else if DelFails(p, ev.env) {
        ReachesAll(w, ev.pid, F, k);
      }
    } else if ev.Abandon? && ev.pid in w.pend {
      ReachesAll(w, ev.pid, F, k);
    }
  }

  /** In every interleaving in which no write of a team commits while a list of it holds rows and no invalidation fails or
      dies before it has done its first k Dels: entries are current unless the Del of their key is on its way, and what
      every suspended list holds is current. */
  lemma {:induction false} InterleavedCacheFresh(w: World, evs: seq<Event>, F: iset<TaskFilter>, k: nat, m: nat)
    requires WorldInv(w) && AllAsk(w, F) && FreshUnlessComing(w, F, k) && ListsHold(w)
    requires ValidFilters(F) && k <= KEYS_PER_TEAM && AllAskFrom(evs, F)
    requires OrderlyRun(w, evs, k) && m <= |evs|
    ensures UnspoiledUpTo(w, evs, F, k, m) && ListsHold(Before(w, evs, m))
    ensures FreshUnlessComing(Before(w, evs, m), F, k)
  {
    hide WorldInv, AllAsk, FreshUnlessComing, Spoils, Happen, Orderly, ListsHold, Evolves;
    if m == 0 {
      BeforeFirst(w, evs);
    } else {
      InterleavedCacheFresh(w, evs, F, k, m - 1);
      RunKeepsWorld(w, evs[..m - 1]);
      RunAsks(w, evs, F, m - 1);
      BeforeNext(w, evs, m - 1);
      OrderlyDoesNotSpoil(Before(w, evs, m - 1), evs[m - 1], F, k);
      OrderlyHolds(Before(w, evs, m - 1), evs[m - 1], F, k);
    }
    FreshThroughoutIff(w, evs, F, k, m);
    assert FreshUpTo(w, evs, F, k, m);
  }

  // ---- an invalidation that never comes --------------------------------------------------------

  /** A list is cached; then a creation commits and dies before its invalidation. */
  function AbandonEvents(f: TaskFilter): seq<Event>
  {
    var s := RaceWorld(f).sys;
    [Start(1, ListTasks(1, f), QUIET)] + Uninterrupted(s, 1, Begin(s.db, ListTasks(1, f), QUIET), QUIET)
    + [Start(2, Creation(f, f.assigneeId, None).op, QUIET), Resume(2, QUIET), Abandon(2)]
  }

  /** The creation, up to its death. */
  lemma CreationDies(w: World, f: TaskFilter)
    requires ValidFilter(f) && Cacheable(f) && w.pend == map[] && w.sys.db == Base(f.teamId, f.assigneeId)
    ensures var evs := [Start(2, Creation(f, f.assigneeId, None).op, QUIET), Resume(2, QUIET), Abandon(2)];
      var w' := Run(w, evs);
      && w'.sys == w.sys.(db := WithTask(f.teamId, StatusFor(f), f.assigneeId)) && w'.pend == map[]
  {
    var op, a := Creation(f, f.assigneeId, None).op, f.assigneeId;
    var evs := [Start(2, op, QUIET), Resume(2, QUIET), Abandon(2)];
    OneLetter();
    var row := FirstTask(f.teamId, StatusFor(f), a);
    assert Begin(w.sys.db, op, QUIET) == More(InsertTask(row.(id := 0)));
    var w1 := Happen(w, evs[0]);
    assert w1 == w.(pend := map[2 := InsertTask(row.(id := 0))]);
    assert Advance(w.sys, InsertTask(row.(id := 0)), QUIET).0 == w.sys.(db := WithTask(f.teamId, StatusFor(f), a));
    assert evs[..2][..1] == evs[..1] && evs[..1][..0] == [];
    assert Run(w, evs[..1]) == w1;
    assert Run(w, evs[..2]) == Happen(w1, evs[1]);
  }

  /** That no request dies before its invalidation cannot be dropped either: for every cacheable filter there is a
      fault-free interleaving, orderly but for one abandoned request, that leaves an answer the tables no longer give. */
  lemma AbandonedInvalidation(f: TaskFilter)
    requires ValidFilter(f) && Cacheable(f)
    ensures var w := Run(RaceWorld(f), AbandonEvents(f));
      && w.pend == map[]
      && Hit(w.sys.cache, f, 0, false).Some?
      && Response(w.sys.db, f) != Ok(Hit(w.sys.cache, f, 0, false).value)
  {
    var w, db0 := RaceWorld(f), Base(f.teamId, f.assigneeId);
    var db1 := WithTask(f.teamId, StatusFor(f), f.assigneeId);
    var listed := [Start(1, ListTasks(1, f), QUIET)]
      + Uninterrupted(w.sys, 1, Begin(w.sys.db, ListTasks(1, f), QUIET), QUIET);
    var created := [Start(2, Creation(f, f.assigneeId, None).op, QUIET), Resume(2, QUIET), Abandon(2)];
    ServeIsASchedule(w, 1, ListTasks(1, f), QUIET);
    ListedFirst(db0, f);
    RunConcat(w, listed, created);
    CreationDies(Run(w, listed), f);
    MatchingSmall(f, f, f.assigneeId);
    ResponseMeta(db0, f);
    ResponseMeta(db1, f);
  }
}
