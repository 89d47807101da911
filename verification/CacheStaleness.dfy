/** How stale a cached list can get when anything may fail: any page, any failing Get, Set or Del. */
module CacheStaleness {

  import opened Wrappers
  import opened Text
  import opened Entities
  import opened Filter
  import opened Tables
  import opened CacheIndex
  import opened Requests
  import opened Invariants
  import opened Runs
  import opened CacheTheorems
  import opened CacheLimits

  /** The clock never runs backwards between calls. */
  ghost predicate Monotone(steps: seq<Step>)
  {
    forall i, j :: 0 <= i < j < |steps| && steps[i].Call? && steps[j].Call? ==> steps[i].env.now <= steps[j].env.now
  }

  /** Whoever could store an answer under a filter's key asks the same as that filter. */
  ghost predicate Agreeing(F: iset<TaskFilter>)
  {
    forall f, g :: f in F && g in F && Cacheable(g) && Key(f) == Key(g) ==> f == g
  }

  /** An entry was computed for g from the tables step j saw, and expires five minutes after step j. */
  predicate ComputedAt(s: Sys, steps: seq<Step>, j: nat, g: TaskFilter, key: string, e: CacheEntry)
    requires j < |steps|
  {
    && steps[j].Call? && e.expiry == steps[j].env.now + TASK_LIST_CACHE_TTL
    && Cacheable(g) && Key(g) == key && Response(At(s, steps, j).db, g) == Ok(e.resp)
  }

  ghost predicate Provenance(s: Sys, steps: seq<Step>, F: iset<TaskFilter>, n: nat, key: string, e: CacheEntry)
    requires n <= |steps|
  {
    exists j, g :: 0 <= j < n && g in F && ComputedAt(s, steps, j, g, key, e)
  }

  ghost predicate AllDated(s: Sys, steps: seq<Step>, F: iset<TaskFilter>, n: nat)
    requires n <= |steps|
  {
    var cache := At(s, steps, n).cache;
    cache.Some? ==> forall k :: k in cache.value ==> Provenance(s, steps, F, n, k, cache.value[k])
  }

  lemma ProvenanceLater(s: Sys, steps: seq<Step>, F: iset<TaskFilter>, n: nat, key: string, e: CacheEntry)
    requires n < |steps| && Provenance(s, steps, F, n, key, e)
    ensures Provenance(s, steps, F, n + 1, key, e)
  {
    var j, g :| 0 <= j < n && g in F && ComputedAt(s, steps, j, g, key, e);
  }

  /** Anything but a List can only drop entries. */
  lemma CompleteOnlyDrops(s: Sys, n: Next, env: Env)
    requires !ReadsCache(n)
    ensures var c := Complete(s, n, env).0.cache;
      && c.Some? == s.cache.Some?
      && (c.Some? ==> forall k :: k in c.value ==> k in s.cache.value && c.value[k] == s.cache.value[k])
    decreases Rank(n)
  {
    if n.More? {
      var (s', n') := Advance(s, n.pending, env);
      CompleteOnlyDrops(s', n', env);
    }
  }

  /** A step keeps an entry as it was, or is the List that stores it. */
  lemma EntryAfter(s: Sys, st: Step, key: string)
    requires Exec(s, st).0.cache.Some? && key in Exec(s, st).0.cache.value
    ensures s.cache.Some?
    ensures var e := Exec(s, st).0.cache.value[key];
      || (key in s.cache.value && s.cache.value[key] == e)
      || (st.Call? && st.op.ListTasks? && Cacheable(st.op.filter) && Key(st.op.filter) == key
          && Response(s.db, st.op.filter) == Ok(e.resp) && e.expiry == st.env.now + TASK_LIST_CACHE_TTL)
  {
    if st.Call? {
      var next := Begin(s.db, st.op, st.env);
      if ReadsCache(next) {
        CompleteList(s, st.op.filter, st.env);
      } else {
        CompleteOnlyDrops(s, next, st.env);
      }
    }
  }

  lemma {:induction false} EntriesDated(s: Sys, steps: seq<Step>, F: iset<TaskFilter>, n: nat)
    requires s.cache == Some(map[]) && ListFilters(steps, F) && n <= |steps|
    ensures AllDated(s, steps, F, n)
  {
    if n > 0 {
      EntriesDated(s, steps, F, n - 1);
      AtNext(s, steps, n - 1);
      var before, after, st := At(s, steps, n - 1), At(s, steps, n), steps[n - 1];
      if after.cache.Some? {
        forall k | k in after.cache.value ensures Provenance(s, steps, F, n, k, after.cache.value[k]) {
          EntryAfter(before, st, k);
          if k in before.cache.value && before.cache.value[k] == after.cache.value[k] {
            ProvenanceLater(s, steps, F, n - 1, k, before.cache.value[k]);
          } else {
            assert ComputedAt(s, steps, n - 1, st.op.filter, k, after.cache.value[k]);
          }
        }
      }
    }
  }

  /** The answer is what step j saw for g, which shares the key, no more than five minutes before step i. */
  predicate SeenAt(s: Sys, steps: seq<Step>, i: nat, j: nat, g: TaskFilter, f: TaskFilter, r: TasksListResponse)
    requires i < |steps| && steps[i].Call? && j < |steps|
  {
    && steps[j].Call? && steps[i].env.now - 300 <= steps[j].env.now
    && Cacheable(g) && Key(g) == Key(f) && Response(At(s, steps, j).db, g) == Ok(r)
  }

  lemma AnswerSeen(s: Sys, steps: seq<Step>, F: iset<TaskFilter>, i: nat) returns (j: nat, g: TaskFilter)
    requires s.cache == Some(map[]) && ListFilters(steps, F)
    requires i < |steps| && steps[i].Call? && steps[i].op.ListTasks? && ReplyAt(s, steps, i).ListReply?
    ensures j <= i && g in F && SeenAt(s, steps, i, j, g, steps[i].op.filter, ReplyAt(s, steps, i).list)
  {
    EntriesDated(s, steps, F, i);
    var f, env, mid := steps[i].op.filter, steps[i].env, At(s, steps, i);
    CompleteList(mid, f, env);
    if Hit(mid.cache, f, env.now, env.getFails).Some? {
      var e := mid.cache.value[Key(f)];
      assert Provenance(s, steps, F, i, Key(f), e);
      var j0, g0 :| 0 <= j0 < i && g0 in F && ComputedAt(s, steps, j0, g0, Key(f), e);
      j, g := j0, g0;
    } else {
      j, g := i, f;
    }
  }

  /** The answer is what the tables held for that filter at a call no more than five minutes earlier. */
  ghost predicate AnsweredWithin(s: Sys, steps: seq<Step>, i: nat, f: TaskFilter, r: TasksListResponse)
    requires i < |steps| && steps[i].Call?
  {
    exists j :: 0 <= j <= i && steps[j].Call?
      && steps[i].env.now - 300 <= steps[j].env.now <= steps[i].env.now
      && Response(At(s, steps, j).db, f) == Ok(r)
  }

  /** Step i is a List that is answered. */
  predicate Answered(s: Sys, steps: seq<Step>, i: nat)
  {
    i < |steps| && steps[i].Call? && steps[i].op.ListTasks? && ReplyAt(s, steps, i).ListReply?
  }

  /** Under every combination of faults, including failing deletes and pages no invalidation covers. */
  lemma BoundedStaleness(s: Sys, steps: seq<Step>, F: iset<TaskFilter>, i: nat)
    requires s.cache == Some(map[]) && ValidFilters(F) && Agreeing(F) && ListFilters(steps, F) && Monotone(steps)
    requires Answered(s, steps, i)
    ensures AnsweredWithin(s, steps, i, steps[i].op.filter, ReplyAt(s, steps, i).list)
  {
    var f := steps[i].op.filter;
    var j, g := AnswerSeen(s, steps, F, i);
    assert g == f;
    assert Response(At(s, steps, j).db, f) == Ok(ReplyAt(s, steps, i).list);
  }

  /** With lists drawn from F, no answer of any run is more than five minutes out of date. */
  ghost predicate AlwaysWithin(F: iset<TaskFilter>)
  {
    forall s: Sys, steps: seq<Step>, i: nat {:trigger Answered(s, steps, i)} ::
      Inv(s.db) && s.cache == Some(map[]) && ListFilters(steps, F) && Monotone(steps) && Answered(s, steps, i) ==>
        AnsweredWithin(s, steps, i, steps[i].op.filter, ReplyAt(s, steps, i).list)
  }

  /** Listed after f, g is served what no table of the run answers to it. */
  lemma SharedNeverWithin(f: TaskFilter, g: TaskFilter)
    requires ValidFilter(f) && ValidFilter(g) && Cacheable(f) && Cacheable(g) && Key(f) == Key(g) && f != g
    requires f.assigneeId.None? || g.assigneeId.Some?
    ensures var s, steps := SharedStart(f, g), SharedSteps(f, g);
      Answered(s, steps, 2) && !AnsweredWithin(s, steps, 2, g, ReplyAt(s, steps, 2).list)
  {
    hide Response, Key, Telling;
    var s, steps, db := SharedStart(f, g), SharedSteps(f, g), WithTask(f.teamId, StatusFor(f), Telling(f, g));
    Told(f, g);
    CreatedThenListed(f, g);
    LastListing(s, steps, 2, db, g, Cached1(db, f));
    SharedStates(f, g);
    var r := Response(db, f).value;
    assert ReplyAt(s, steps, 2).list == r;
    TotalOfOne(f, g);
    forall j | 0 <= j <= 2 ensures Response(At(s, steps, j).db, g) != Ok(r) {
      assert j == 0 || At(s, steps, j).db == db;
    }
  }

  lemma SharedStates(f: TaskFilter, g: TaskFilter)
    requires ValidFilter(f) && Cacheable(f)
    ensures var s, steps := SharedStart(f, g), SharedSteps(f, g);
      && At(s, steps, 0).db == Base(f.teamId, Telling(f, g))
      && At(s, steps, 1).db == WithTask(f.teamId, StatusFor(f), Telling(f, g))
  {
    var s, steps := SharedStart(f, g), SharedSteps(f, g);
    AtStart(s, steps);
    AtNext(s, steps, 0);
    CreationStep(f, Telling(f, g), None, Some(map[]));
  }

  /** The first list counts the telling task, and before its creation the second one counts none. */
  lemma TotalOfOne(f: TaskFilter, g: TaskFilter)
    requires ValidFilter(f) && ValidFilter(g) && Cacheable(f) && Cacheable(g) && Key(f) == Key(g)
    requires f.assigneeId.None? || g.assigneeId.Some?
    ensures Response(Base(f.teamId, Telling(f, g)), g) !=
      Response(WithTask(f.teamId, StatusFor(f), Telling(f, g)), f)
  {
    var a := Telling(f, g);
    KeyExact(f, g);
    MatchingSmall(f, g, a);
    MatchingSmall(f, f, a);
    ResponseMeta(Base(f.teamId, a), g);
    ResponseMeta(WithTask(f.teamId, StatusFor(f), a), f);
  }

  /** A filter whose offset overflows has no answer of its own, and is served the one listed before. */
  lemma OverflowNeverWithin(f: TaskFilter, g: TaskFilter)
    requires ValidFilter(f) && ValidFilter(g) && Cacheable(g) && !Cacheable(f) && Key(f) == Key(g)
    ensures var s, steps := SharedStart(g, f), SharedSteps(g, f);
      Answered(s, steps, 2) && !AnsweredWithin(s, steps, 2, f, ReplyAt(s, steps, 2).list)
  {
    hide Key, Telling;
    KeyExact(f, g);
    CreatedThenListed(g, f);
    HeldListing(SharedStart(g, f), SharedSteps(g, f), 2, WithTask(g.teamId, StatusFor(g), Telling(g, f)), f,
                Cached1(WithTask(g.teamId, StatusFor(g), Telling(g, f)), g));
  }

  lemma OverflowBreaks(F: iset<TaskFilter>, f: TaskFilter, g: TaskFilter)
    requires ValidFilters(F) && f in F && g in F && Cacheable(g) && !Cacheable(f) && Key(f) == Key(g)
    ensures !AlwaysWithin(F)
  {
    hide Response, Telling, Inv, Exec;
    var s, steps := SharedStart(g, f), SharedSteps(g, f);
    KeyExact(f, g);
    BaseOk(g.teamId, Telling(g, f));
    OverflowNeverWithin(f, g);
    assert ListFilters(steps, F) && Monotone(steps) && Answered(s, steps, 2);
  }

  lemma SharedBreaks(F: iset<TaskFilter>, f: TaskFilter, g: TaskFilter)
    requires ValidFilters(F) && f in F && g in F && Cacheable(f) && Cacheable(g) && Key(f) == Key(g) && f != g
    requires f.assigneeId.None? || g.assigneeId.Some?
    ensures !AlwaysWithin(F)
  {
    hide Response, Telling, Inv, Exec;
    var s, steps := SharedStart(f, g), SharedSteps(f, g);
    BaseOk(f.teamId, Telling(f, g));
    SharedNeverWithin(f, g);
    assert ListFilters(steps, F) && Monotone(steps) && Answered(s, steps, 2);
  }

  /** The exact condition: answers are never more than five minutes out of date, under every fault, if and only if
      filters that share a key with a cacheable one are that one. A list whose offset overflows, which fails uncached,
      breaks it too: it can be served another list's answer. */
  lemma BoundedIffAgreeing(F: iset<TaskFilter>)
    requires ValidFilters(F)
    ensures AlwaysWithin(F) <==> Agreeing(F)
  {
    if Agreeing(F) {
      forall s: Sys, steps: seq<Step>, i: nat |
        Inv(s.db) && s.cache == Some(map[]) && ListFilters(steps, F) && Monotone(steps) && Answered(s, steps, i)
        ensures AnsweredWithin(s, steps, i, steps[i].op.filter, ReplyAt(s, steps, i).list)
      {
        BoundedStaleness(s, steps, F, i);
      }
    } else {
      var f, g :| f in F && g in F && Cacheable(g) && Key(f) == Key(g) && f != g;
      if !Cacheable(f) {
        OverflowBreaks(F, f, g);
      } else if f.assigneeId.None? || g.assigneeId.Some? {
        SharedBreaks(F, f, g);
      } else {
        SharedBreaks(F, g, f);
      }
    }
  }

  // ---- every served page is internally consistent ----------------------------------------------

  /** The page is small enough for its offset not to overflow whatever the limit. */
  predicate Addressable(f: TaskFilter) { (f.page - 1) * MAX_PAGE_LIMIT < INT64_LIMIT }

  lemma LimitBelow(page: nat, limit: nat)
    requires limit <= MAX_PAGE_LIMIT
    ensures 0 <= page * limit <= page * MAX_PAGE_LIMIT
  {
  }

  lemma AddressableOffset(f: TaskFilter)
    requires ValidFilter(f) && Addressable(f)
    ensures (f.page - 1) * f.limit < INT64_LIMIT && Offset(f) >= 0
  {
    hide Wrap64, Offset;
    LimitBelow(f.page - 1, f.limit);
    OffsetExactIff(f);
  }

  /** A response to any filter with that page is consistent. */
  lemma SamePageConsistent(db: Db, f: TaskFilter, g: TaskFilter, r: TasksListResponse)
    requires ValidFilter(f) && ValidFilter(g) && Addressable(f) && Key(g) == Key(f) && Response(db, g) == Ok(r)
    ensures Consistent(r)
  {
    KeyExact(f, g);
    AddressableOffset(g);
    ResponseConsistent(db, g);
  }

  /** In every sequential run, under every fault and for every page whose offset cannot overflow: an answer to a List has
      exactly the number of items its own metadata says, even when it is out of date or another filter's. */
  lemma ServedPagesConsistent(s: Sys, steps: seq<Step>, F: iset<TaskFilter>, i: nat)
    requires s.cache == Some(map[]) && ValidFilters(F) && ListFilters(steps, F) && i < |steps|
    requires steps[i].Call? && steps[i].op.ListTasks? && Addressable(steps[i].op.filter)
    requires ReplyAt(s, steps, i).ListReply?
    ensures Consistent(ReplyAt(s, steps, i).list)
  {
    var j, g := AnswerSeen(s, steps, F, i);
    SamePageConsistent(At(s, steps, j).db, steps[i].op.filter, g, ReplyAt(s, steps, i).list);
  }
}
