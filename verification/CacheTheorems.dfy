/** What cached listing is worth: what its entries and answers are, and when it is indistinguishable from no cache. */
module CacheTheorems {

  import opened Wrappers
  import opened Text
  import opened Entities
  import opened Filter
  import opened Tables
  import opened CacheIndex
  import opened Requests
  import opened Invariants
  import opened Runs
  import Sql

  // ---- runs under consideration ----------------------------------------------------------------

  /** Filters whose List reaches the cache and the tables and does not fail there. */
  predicate Cacheable(f: TaskFilter) { f.teamId != 0 && Offset(f) >= 0 }

  ghost predicate ValidFilters(F: iset<TaskFilter>) { forall f :: f in F ==> ValidFilter(f) }

  /** Every List asks for a filter in F. */
  ghost predicate ListFilters(steps: seq<Step>, F: iset<TaskFilter>)
  {
    forall i :: 0 <= i < |steps| && steps[i].Call? && steps[i].op.ListTasks? ==> steps[i].op.filter in F
  }

  /** The first k Dels of an invalidation succeed; all of them when k is 400. */
  predicate DelsReach(env: Env, k: nat) { env.failingDel.Some? ==> env.failingDel.value >= k }

  ghost predicate AllDelsReach(steps: seq<Step>, k: nat)
  {
    forall i :: 0 <= i < |steps| && steps[i].Call? ==> DelsReach(steps[i].env, k)
  }

  // ---- the invariant of successful invalidation ------------------------------------------------

  /** The entry is what the current tables answer to g, which shares the key. */
  predicate FreshFor(db: Db, f: TaskFilter, g: TaskFilter, resp: TasksListResponse)
  {
    ValidFilter(g) && Cacheable(g) && Key(g) == Key(f) && Response(db, g) == Ok(resp)
  }

  ghost predicate Backed(db: Db, f: TaskFilter, resp: TasksListResponse, F: iset<TaskFilter>)
  {
    exists g :: g in F && FreshFor(db, f, g, resp)
  }

  predicate Reachable(f: TaskFilter, k: nat) { Keyed(f) && f.teamId != 0 && Covered(f, k) }

  /** Each entry under one of a team's first k keys is a current response to some filter of F with that team, status and
      page. */
  ghost predicate CacheFresh(s: Sys, F: iset<TaskFilter>, k: nat)
  {
    s.cache.Some? ==>
      forall f :: Reachable(f, k) && Key(f) in s.cache.value ==> Backed(s.db, f, s.cache.value[Key(f)].resp, F)
  }

  lemma WriteKeepsFresh(s: Sys, p: Pending, env: Env, F: iset<TaskFilter>, k: nat)
    requires Inv(s.db) && Writes(p) && PendingOk(s.db, p) && DelsReach(env, k) && CacheFresh(s, F, k)
    requires ValidFilters(F) && k <= KEYS_PER_TEAM
    ensures CacheFresh(ServeWrite(s, p, env).0, F, k)
  {
    var s' := ServeWrite(s, p, env).0;
    if s.cache.Some? && s'.db != s.db {
      forall f | Reachable(f, k) && Key(f) in s'.cache.value
        ensures Backed(s'.db, f, s'.cache.value[Key(f)].resp, F)
      {
        DeletionExact(f, TeamOf(p), DelsDone(env.failingDel));
        assert f.teamId != TeamOf(p);
        var resp := s.cache.value[Key(f)].resp;
        assert Backed(s.db, f, resp, F);
        var g :| g in F && FreshFor(s.db, f, g, resp);
        KeyExact(f, g);
        TeamFrame(s.db, p, g, env);
        assert FreshFor(s'.db, f, g, resp);
      }
    }
  }

  /** Actions that touch no task row leave every response as it was. */
  lemma OtherKeepsFresh(s: Sys, s': Sys, F: iset<TaskFilter>, k: nat)
    requires CacheFresh(s, F, k)
    requires s'.db.tasks == s.db.tasks && s'.db.nextTask == s.db.nextTask && s'.cache == s.cache
    ensures CacheFresh(s', F, k)
  {
    if s.cache.Some? {
      forall f | Reachable(f, k) && Key(f) in s'.cache.value
        ensures Backed(s'.db, f, s'.cache.value[Key(f)].resp, F)
      {
        var resp := s.cache.value[Key(f)].resp;
        var g :| g in F && FreshFor(s.db, f, g, resp);
        assert FreshFor(s'.db, f, g, resp);
      }
    }
  }

  lemma ListKeepsFresh(s: Sys, h: TaskFilter, env: Env, F: iset<TaskFilter>, k: nat)
    requires CacheFresh(s, F, k) && h in F && ValidFilter(h) && h.teamId != 0
    ensures CacheFresh(ServeList(s, h, env).0, F, k)
  {
    var s' := ServeList(s, h, env).0;
    if s' != s {
      forall f | Reachable(f, k) && Key(f) in s'.cache.value
        ensures Backed(s'.db, f, s'.cache.value[Key(f)].resp, F)
      {
        if Key(f) == Key(h) {
          assert FreshFor(s'.db, f, h, s'.cache.value[Key(f)].resp);
        } else {
          var resp := s.cache.value[Key(f)].resp;
          var g :| g in F && FreshFor(s.db, f, g, resp);
          assert FreshFor(s'.db, f, g, resp);
        }
      }
    }
  }

  lemma ServeKeepsFresh(s: Sys, op: Op, env: Env, F: iset<TaskFilter>, k: nat)
    requires Inv(s.db) && CacheFresh(s, F, k) && DelsReach(env, k) && ValidFilters(F) && k <= KEYS_PER_TEAM
    requires op.ListTasks? ==> op.filter in F
    ensures CacheFresh(Serve(s, op, env).0, F, k)
  {
    BeginOk(s.db, op, env);
    var n := Begin(s.db, op, env);
    if n.More? {
      var p := n.pending;
      if Writes(p) {
        CompleteWrite(s, p, env);
        WriteKeepsFresh(s, p, env, F, k);
      } else if p.LookUp? {
        CompleteList(s, p.f, env);
        ListKeepsFresh(s, p.f, env, F, k);
      } else if p.InsertTeam? {
        CompleteTeam(s, p.team, env);
        OtherKeepsFresh(s, Serve(s, op, env).0, F, k);
      } else {
        assert Complete(s, n, env) == (Advance(s, p, env).0, Advance(s, p, env).1.reply);
        OtherKeepsFresh(s, Serve(s, op, env).0, F, k);
      }
    }
  }

  lemma EvictKeepsFresh(s: Sys, key: string, F: iset<TaskFilter>, k: nat)
    requires CacheFresh(s, F, k)
    ensures CacheFresh(Exec(s, Evict(key)).0, F, k)
  {
    var s' := Exec(s, Evict(key)).0;
    if s.cache.Some? {
      forall f | Reachable(f, k) && Key(f) in s'.cache.value
        ensures Backed(s'.db, f, s'.cache.value[Key(f)].resp, F)
      {
        assert Key(f) in s.cache.value && s'.cache.value[Key(f)] == s.cache.value[Key(f)];
      }
    }
  }

  /** In every sequential run in which no invalidation fails before its k-th Del, over all other faults and whatever the
      limits and assignees asked for: each entry under one of a team's first k keys is a current response to a filter
      with that team, status and page. */
  lemma {:induction false} CacheStaysFresh(s: Sys, steps: seq<Step>, F: iset<TaskFilter>, k: nat, i: nat)
    requires Inv(s.db) && CacheFresh(s, F, k) && ValidFilters(F) && k <= KEYS_PER_TEAM
    requires ListFilters(steps, F) && AllDelsReach(steps, k) && i <= |steps|
    ensures CacheFresh(At(s, steps, i), F, k)
  {
    if i > 0 {
      CacheStaysFresh(s, steps, F, k, i - 1);
      RunKeeps(s, steps, i - 1);
      AtNext(s, steps, i - 1);
      var mid := At(s, steps, i - 1);
      match steps[i - 1] {
        case Call(op, env) => ServeKeepsFresh(mid, op, env, F, k);
        case Evict(key) => EvictKeepsFresh(mid, key, F, k);
      }
    }
  }

  // ---- every served page is internally consistent ----------------------------------------------

  /** A page holds as many items as its own limit, page number and total say. */
  predicate Consistent(r: TasksListResponse)
  {
    |r.items| == Min(r.meta.limit, Max(0, r.meta.total - (r.meta.page - 1) * r.meta.limit))
  }

  lemma ResponseConsistent(db: Db, f: TaskFilter)
    requires ValidFilter(f) && (f.page - 1) * f.limit < INT64_LIMIT
    ensures Response(db, f).Ok? && Consistent(Response(db, f).value)
    ensures Response(db, f).value.meta == Pagination(f.page, f.limit, |Matching(db, f)|)
  {
    hide Wrap64, Offset, Matching;
    OffsetExactIff(f);
    assert (f.page - 1) * f.limit >= 0;
  }

  lemma SmallPageOffset(f: TaskFilter)
    requires ValidFilter(f) && f.page <= LAST_PAGE
    ensures (f.page - 1) * f.limit < INT64_LIMIT && Offset(f) >= 0
  {
    hide Wrap64, Offset;
    MulMonotone(f.page - 1, LAST_PAGE - 1, f.limit);
    OffsetExactIff(f);
  }

  /** With no restriction on limits and assignees: every answer to a List the first k Dels cover is in such a run a
      current response to a filter with the same key. */
  lemma ServedPagesCurrent(s: Sys, steps: seq<Step>, F: iset<TaskFilter>, k: nat, i: nat)
    requires Inv(s.db) && CacheFresh(s, F, k) && ValidFilters(F) && k <= KEYS_PER_TEAM
    requires ListFilters(steps, F) && AllDelsReach(steps, k) && i < |steps|
    requires steps[i].Call? && steps[i].op.ListTasks? && Covered(steps[i].op.filter, k)
    requires ReplyAt(s, steps, i).ListReply?
    ensures Backed(At(s, steps, i).db, steps[i].op.filter, ReplyAt(s, steps, i).list, F)
  {
    CacheStaysFresh(s, steps, F, k, i);
    CompleteList(At(s, steps, i), steps[i].op.filter, steps[i].env);
    ListServesCurrent(At(s, steps, i), steps[i].op.filter, steps[i].env, F, k);
  }

  lemma ListServesCurrent(s: Sys, f: TaskFilter, env: Env, F: iset<TaskFilter>, k: nat)
    requires ValidFilters(F) && f in F && f.teamId != 0 && Covered(f, k) && CacheFresh(s, F, k)
    requires ServeList(s, f, env).1.ListReply?
    ensures Backed(s.db, f, ServeList(s, f, env).1.list, F)
  {
    if Hit(s.cache, f, env.now, env.getFails).None? {
      SmallPageOffset(f);
      assert FreshFor(s.db, f, f, ServeList(s, f, env).1.list);
    } else {
      assert Reachable(f, k);
    }
  }

  // ---- transparency ----------------------------------------------------------------------------

  /** Cacheable filters have their keys among a team's first k, and those that share a key are the same. */
  ghost predicate Disciplined(F: iset<TaskFilter>, k: nat)
  {
    && (forall f :: f in F && Cacheable(f) ==> Covered(f, k))
    && (forall f, g :: f in F && g in F && Cacheable(f) && Cacheable(g) && Key(f) == Key(g) ==> f == g)
  }

  /** The same call, with its queries not failing. */
  function Mended(st: Step): Step
  {
    if st.Call? then Call(st.op, st.env.(queryFails := false, countFails := false)) else st
  }

  /** The answer is the uncached service's: for a List whose own queries fail, which a cached answer does not notice,
      the uncached answer when they do not. */
  predicate AnswersUncached(s: Sys, steps: seq<Step>, i: nat)
    requires i < |steps|
  {
    || ReplyAt(s, steps, i) == ReplyAt(NilCache(s), steps, i)
    || (steps[i].Call? && steps[i].op.ListTasks?
        && ReplyAt(s, steps, i) == Exec(At(NilCache(s), steps, i), Mended(steps[i])).1)
  }

  /** With lists drawn from F and invalidations that do not fail before their k-th Del, no sequential run can tell the
      cache from its absence. */
  ghost predicate Transparent(F: iset<TaskFilter>, k: nat)
  {
    forall s: Sys, steps: seq<Step>, i: nat {:trigger AnswersUncached(s, steps, i)} ::
      Inv(s.db) && s.cache == Some(map[]) && ListFilters(steps, F) && AllDelsReach(steps, k) && i < |steps| ==>
        AnswersUncached(s, steps, i)
  }

  /** Entries are only ever stored by cacheable filters of F. */
  ghost predicate KeysFrom(s: Sys, F: iset<TaskFilter>)
  {
    s.cache.Some? ==> forall k :: k in s.cache.value ==> exists g :: g in F && Cacheable(g) && Key(g) == k
  }

  lemma StepKeepsKeys(s: Sys, st: Step, F: iset<TaskFilter>)
    requires KeysFrom(s, F)
    requires st.Call? && st.op.ListTasks? ==> st.op.filter in F
    ensures KeysFrom(Exec(s, st).0, F)
  {
    if st.Call? {
      var n := Begin(s.db, st.op, st.env);
      if ReadsCache(n) {
        CompleteList(s, st.op.filter, st.env);
      } else {
        CompleteShrinks(s, n, st.env);
      }
    }
  }

  lemma CompleteShrinks(s: Sys, n: Next, env: Env)
    requires !ReadsCache(n)
    ensures var c := Complete(s, n, env).0.cache;
      c.Some? == s.cache.Some? && (c.Some? ==> c.value.Keys <= s.cache.value.Keys)
    decreases Rank(n)
  {
    if n.More? {
      var (s', n') := Advance(s, n.pending, env);
      CompleteShrinks(s', n', env);
    }
  }

  lemma {:induction false} KeysStay(s: Sys, steps: seq<Step>, F: iset<TaskFilter>, i: nat)
    requires KeysFrom(s, F) && ListFilters(steps, F) && i <= |steps|
    ensures KeysFrom(At(s, steps, i), F)
  {
    if i > 0 {
      KeysStay(s, steps, F, i - 1);
      AtNext(s, steps, i - 1);
      StepKeepsKeys(At(s, steps, i - 1), steps[i - 1], F);
    }
  }

  lemma ListTransparent(s: Sys, f: TaskFilter, env: Env, F: iset<TaskFilter>, k: nat)
    requires ValidFilters(F) && Disciplined(F, k) && f in F && f.teamId != 0
    requires CacheFresh(s, F, k) && KeysFrom(s, F)
    ensures var env' := env.(queryFails := false, countFails := false);
      || ServeList(s, f, env).1 == ServeList(NilCache(s), f, env).1
      || ServeList(s, f, env).1 == ServeList(NilCache(s), f, env').1
  {
    hide Response, Wrap64, Key;
    var hit := Hit(s.cache, f, env.now, env.getFails);
    if hit.Some? {
      var h :| h in F && Cacheable(h) && Key(h) == Key(f);
      KeyExact(f, h);
      SmallPageOffset(f);
      assert Reachable(f, k);
      var g :| g in F && FreshFor(s.db, f, g, hit.value);
      assert g == f;
    }
  }

  lemma DisciplineSuffices(F: iset<TaskFilter>, k: nat, s: Sys, steps: seq<Step>, i: nat)
    requires ValidFilters(F) && Disciplined(F, k) && k <= KEYS_PER_TEAM
    requires Inv(s.db) && s.cache == Some(map[]) && ListFilters(steps, F) && AllDelsReach(steps, k) && i < |steps|
    ensures AnswersUncached(s, steps, i)
  {
    TablesIgnoreCache(s, steps, i);
    if steps[i].Call? && steps[i].op.ListTasks? {
      CacheStaysFresh(s, steps, F, k, i);
      KeysStay(s, steps, F, i);
      StepTransparent(At(s, steps, i), steps[i], F, k);
    }
  }

  lemma StepTransparent(s: Sys, st: Step, F: iset<TaskFilter>, k: nat)
    requires ValidFilters(F) && Disciplined(F, k) && st.Call? && st.op.ListTasks? && st.op.filter in F
    requires CacheFresh(s, F, k) && KeysFrom(s, F)
    ensures Exec(s, st).1 == Exec(NilCache(s), st).1 || Exec(s, st).1 == Exec(NilCache(s), Mended(st)).1
  {
    var f, env, env' := st.op.filter, st.env, Mended(st).env;
    if Begin(s.db, st.op, env).More? {
      CompleteList(s, f, env);
      CompleteList(NilCache(s), f, env);
      CompleteList(NilCache(s), f, env');
      ListTransparent(s, f, env, F, k);
    }
  }
}
