/** Why the discipline of CacheTheorems is needed: each way of breaking it has a run in which the cached service
    answers differently from the uncached one. */
module CacheLimits {

  import opened Wrappers
  import opened Text
  import opened Entities
  import opened Filter
  import opened Tables
  import opened CacheIndex
  import opened Requests
  import opened Invariants
  import opened Runs
  import opened CacheTheorems
  import Sql

  /** No fault at all, at time zero. */
  const QUIET := Env(0, false, false, false, false, false, false, None, false, false, false, false, None)

  /** One team, its owner with id 1, and possibly a second user to assign tasks to. */
  function Base(team: nat, a: Option<nat>): Db
  {
    Db({1} + (if a.Some? then {a.value} else {}), map[team := Team(team, "t", 1, 0, 0)], team + 1,
       map[(team, 1) := TeamMember(1, team, OWNER, 0)], map[], 1, [], [])
  }

  function FirstTask(team: nat, status: string, a: Option<nat>): Task
  {
    Task(1, team, "x", None, status, a, 1, 0, 0, None)
  }

  function WithTask(team: nat, status: string, a: Option<nat>): Db
  {
    Base(team, a).(tasks := map[1 := FirstTask(team, status, a)], nextTask := 2)
  }

  /** A status the filter accepts. */
  function StatusFor(f: TaskFilter): string { if f.status == "" then TODO else f.status }

  /** A creation in the listed team; `dels` numbers the Del that fails, if any. */
  function Creation(f: TaskFilter, a: Option<nat>, dels: Option<nat>): Step
  {
    Call(CreateTask(1, CreateTaskRequest(f.teamId, "x", None, StatusFor(f), a)), QUIET.(failingDel := dels))
  }

  function Listing(f: TaskFilter): Step { Call(ListTasks(1, f), QUIET) }

  lemma BaseOk(team: nat, a: Option<nat>)
    requires team != 0
    ensures Inv(Base(team, a))
  {
  }

  lemma CreationStep(f: TaskFilter, a: Option<nat>, dels: Option<nat>, cache: Option<Cached>)
    requires ValidFilter(f) && f.teamId != 0
    ensures Exec(Sys(Base(f.teamId, a), cache), Creation(f, a, dels)).0 ==
      Sys(WithTask(f.teamId, StatusFor(f), a), Invalidated(cache, f.teamId, dels))
  {
    var s, op, env := Sys(Base(f.teamId, a), cache), Creation(f, a, dels).op, Creation(f, a, dels).env;
    OneLetter();
    var n := Begin(s.db, op, env);
    assert n == More(InsertTask(FirstTask(f.teamId, StatusFor(f), a).(id := 0)));
    CompleteWrite(s, n.pending, env);
  }

  lemma ListingStep(db: Db, f: TaskFilter, cache: Option<Cached>)
    requires ValidFilter(f) && f.teamId != 0 && IsMember(db, f.teamId, 1)
    ensures Exec(Sys(db, cache), Listing(f)) == ServeList(Sys(db, cache), f, QUIET)
  {
    CompleteList(Sys(db, cache), f, QUIET);
  }

  lemma MatchingSmall(f: TaskFilter, g: TaskFilter, a: Option<nat>)
    requires ValidFilter(f) && ValidFilter(g)
    ensures |Matching(Base(f.teamId, a), g)| == 0
    ensures |Matching(WithTask(f.teamId, StatusFor(f), a), g)| ==
      if Matches(g, FirstTask(f.teamId, StatusFor(f), a)) then 1 else 0
  {
    var rows, p := map[1 := FirstTask(f.teamId, StatusFor(f), a)], (t: Task) => Matches(g, t);
    assert |Sql.Select(rows, 1, p)| == 0;
  }

  lemma ResponseMeta(db: Db, f: TaskFilter)
    requires ValidFilter(f) && Offset(f) >= 0
    ensures Response(db, f).Ok? && Response(db, f).value.meta == Pagination(f.page, f.limit, |Matching(db, f)|)
  {
  }

  lemma Missed(db: Db, f: TaskFilter, cache: Cached)
    requires ValidFilter(f) && Offset(f) >= 0 && Key(f) !in cache
    ensures ServeList(Sys(db, Some(cache)), f, QUIET) ==
      (Sys(db, Some(cache[Key(f) := CacheEntry(Response(db, f).value, TASK_LIST_CACHE_TTL)])),
       ListReply(Response(db, f).value))
  {
    ResponseMeta(db, f);
  }

  /** The cache after the first answer is stored. */
  function Cached1(db: Db, f: TaskFilter): Cached
    requires Response(db, f).Ok?
  {
    map[Key(f) := CacheEntry(Response(db, f).value, TASK_LIST_CACHE_TTL)]
  }

  lemma ListedFirst(db: Db, f: TaskFilter)
    requires ValidFilter(f) && Cacheable(f) && IsMember(db, f.teamId, 1)
    ensures Response(db, f).Ok? && Exec(Sys(db, Some(map[])), Listing(f)).0 == Sys(db, Some(Cached1(db, f)))
  {
    ListingStep(db, f, Some(map[]));
    ResponseMeta(db, f);
    Missed(db, f, map[]);
  }

  /** What no Del reaches stays: a page beyond the last one deleted, or a key that would come up after the failing
      Del. */
  predicate Escapes(f: TaskFilter, dels: Option<nat>) { !Covered(f, DelsDone(dels)) }

  lemma SurvivesInvalidate(db: Db, f: TaskFilter, dels: Option<nat>)
    requires ValidFilter(f) && Escapes(f, dels) && Response(db, f).Ok?
    ensures Invalidated(Some(Cached1(db, f)), f.teamId, dels) == Some(Cached1(db, f))
  {
    DeletionExact(f, f.teamId, DelsDone(dels));
    var gone := DeletionKeys(f.teamId, DelsDone(dels));
    assert Key(f) !in gone;
    assert Cached1(db, f) - gone == Cached1(db, f);
  }

  /** What the last step of a run answers when it is a List that the cache holds. */
  lemma HeldListing(s: Sys, steps: seq<Step>, i: nat, db: Db, f: TaskFilter, c: Cached)
    requires i < |steps| && steps[i] == Listing(f) && At(s, steps, i) == Sys(db, Some(c))
    requires ValidFilter(f) && f.teamId != 0 && IsMember(db, f.teamId, 1)
    requires Key(f) in c && c[Key(f)].expiry >= 0
    ensures ReplyAt(s, steps, i) == ListReply(c[Key(f)].resp)
  {
    ListingStep(db, f, Some(c));
  }

  /** And with and without the cache, when the tables have an answer too. */
  lemma LastListing(s: Sys, steps: seq<Step>, i: nat, db: Db, f: TaskFilter, c: Cached)
    requires i < |steps| && steps[i] == Listing(f) && At(s, steps, i) == Sys(db, Some(c))
    requires ValidFilter(f) && Cacheable(f) && IsMember(db, f.teamId, 1)
    requires Key(f) in c && c[Key(f)].expiry >= 0
    ensures ReplyAt(s, steps, i) == ListReply(c[Key(f)].resp)
    ensures Response(db, f).Ok? && ReplyAt(NilCache(s), steps, i) == ListReply(Response(db, f).value)
  {
    HeldListing(s, steps, i, db, f, c);
    TablesIgnoreCache(s, steps, i);
    ListingStep(db, f, None);
    ResponseMeta(db, f);
  }

  /** List, create a task of the listed team, and list again. */
  function StaleSteps(f: TaskFilter, dels: Option<nat>): seq<Step>
  {
    [Listing(f), Creation(f, f.assigneeId, dels), Listing(f)]
  }

  function StaleStart(f: TaskFilter): Sys { Sys(Base(f.teamId, f.assigneeId), Some(map[])) }

  lemma ListedThenCreated(f: TaskFilter, dels: Option<nat>)
    requires ValidFilter(f) && Cacheable(f) && Escapes(f, dels)
    ensures var s := StaleStart(f);
      && Response(s.db, f).Ok?
      && At(s, StaleSteps(f, dels), 2) ==
           Sys(WithTask(f.teamId, StatusFor(f), f.assigneeId), Some(Cached1(s.db, f)))
  {
    var s, steps := StaleStart(f), StaleSteps(f, dels);
    ListedFirst(s.db, f);
    AfterTwo(s, steps, Sys(s.db, Some(Cached1(s.db, f))));
    CreationStep(f, f.assigneeId, dels, Some(Cached1(s.db, f)));
    SurvivesInvalidate(s.db, f, dels);
  }

  /** The second list is served the first one's answer, although the table has changed in between. */
  lemma ServedStale(f: TaskFilter, dels: Option<nat>)
    requires ValidFilter(f) && Cacheable(f) && Escapes(f, dels)
    ensures !AnswersUncached(StaleStart(f), StaleSteps(f, dels), 2)
  {
    var s, db1 := StaleStart(f), WithTask(f.teamId, StatusFor(f), f.assigneeId);
    ListedThenCreated(f, dels);
    LastListing(s, StaleSteps(f, dels), 2, db1, f, Cached1(s.db, f));
    MatchingSmall(f, f, f.assigneeId);
    ResponseMeta(s.db, f);
    ResponseMeta(db1, f);
  }

  /** A key that is not among a team's first k goes stale in some run in which at most the k-th Del fails. */
  lemma UncoveredKey(F: iset<TaskFilter>, f: TaskFilter, k: nat)
    requires ValidFilters(F) && f in F && Cacheable(f) && !Covered(f, k) && k <= KEYS_PER_TEAM
    ensures !Transparent(F, k)
  {
    BaseOk(f.teamId, f.assigneeId);
    var steps := StaleSteps(f, Some(k));
    assert ListFilters(steps, F) && AllDelsReach(steps, k);
    ServedStale(f, Some(k));
  }

  /** One failing Del, whose error the caller ignores, is enough for a stale answer to every filter whose key comes up
      no earlier; and with no failing Del at all, a page beyond 100 is. */
  lemma FailingDel(f: TaskFilter, dels: Option<nat>)
    requires ValidFilter(f) && Cacheable(f)
    requires f.page > LAST_PAGE || (dels.Some? && dels.value <= Ordinal(f))
    ensures Inv(StaleStart(f).db) && !AnswersUncached(StaleStart(f), StaleSteps(f, dels), 2)
  {
    BaseOk(f.teamId, f.assigneeId);
    DeletionExact(f, f.teamId, KEYS_PER_TEAM);
    ServedStale(f, dels);
  }

  /** An assignee that tells two different assignee filters apart. */
  function Telling(f: TaskFilter, g: TaskFilter): Option<nat>
  {
    if f.assigneeId.None? || g.assigneeId.None? then None else f.assigneeId
  }

  /** Filters that share a key but differ get different metadata from a table holding one telling task. */
  lemma Told(f: TaskFilter, g: TaskFilter)
    requires ValidFilter(f) && ValidFilter(g) && Cacheable(f) && Cacheable(g)
    requires Key(f) == Key(g) && f != g
    ensures var db := WithTask(f.teamId, StatusFor(f), Telling(f, g));
      Response(db, f).Ok? && Response(db, g).Ok? && Response(db, f) != Response(db, g)
    ensures g.teamId == f.teamId
  {
    KeyExact(f, g);
    var a := Telling(f, g);
    var db := WithTask(f.teamId, StatusFor(f), a);
    MatchingSmall(f, f, a);
    MatchingSmall(f, g, a);
    ResponseMeta(db, f);
    ResponseMeta(db, g);
  }

  /** Create a task, list its team, and list it again with another filter. */
  function SharedSteps(f: TaskFilter, g: TaskFilter): seq<Step>
  {
    [Creation(f, Telling(f, g), None), Listing(f), Listing(g)]
  }

  function SharedStart(f: TaskFilter, g: TaskFilter): Sys { Sys(Base(f.teamId, Telling(f, g)), Some(map[])) }

  lemma NothingCached(teamId: nat)
    ensures Invalidated(Some(map[]), teamId, None) == Some(map[])
  {
  }

  lemma CreatedThenListed(f: TaskFilter, g: TaskFilter)
    requires ValidFilter(f) && Cacheable(f)
    ensures var db := WithTask(f.teamId, StatusFor(f), Telling(f, g));
      Response(db, f).Ok? && At(SharedStart(f, g), SharedSteps(f, g), 2) == Sys(db, Some(Cached1(db, f)))
  {
    var db := WithTask(f.teamId, StatusFor(f), Telling(f, g));
    CreationStep(f, Telling(f, g), None, Some(map[]));
    NothingCached(f.teamId);
    AfterTwo(SharedStart(f, g), SharedSteps(f, g), Sys(db, Some(map[])));
    ListedFirst(db, f);
  }

  /** The second list is served the first one's answer. */
  lemma ServedAnother(f: TaskFilter, g: TaskFilter)
    requires ValidFilter(f) && ValidFilter(g) && Cacheable(f) && Cacheable(g)
    requires Key(f) == Key(g) && f != g
    ensures !AnswersUncached(SharedStart(f, g), SharedSteps(f, g), 2)
  {
    var db := WithTask(f.teamId, StatusFor(f), Telling(f, g));
    Told(f, g);
    CreatedThenListed(f, g);
    LastListing(SharedStart(f, g), SharedSteps(f, g), 2, db, g, Cached1(db, f));
  }

  /** Two lists that share a key but differ in limit or assignee can be told from uncached ones. */
  lemma SharedKey(F: iset<TaskFilter>, f: TaskFilter, g: TaskFilter, k: nat)
    requires ValidFilters(F) && f in F && g in F && Cacheable(f) && Cacheable(g)
    requires Key(f) == Key(g) && f != g
    ensures !Transparent(F, k)
  {
    var steps := SharedSteps(f, g);
    BaseOk(f.teamId, Telling(f, g));
    assert ListFilters(steps, F) && AllDelsReach(steps, k);
    ServedAnother(f, g);
  }

  /** The exact condition: over any set of valid filters, caching is invisible in every sequential run whose
      invalidations do not fail before their k-th Del if and only if the set is disciplined up to k. With k = 400 that
      is: in every run with successful invalidations, if and only if no filter goes beyond page 100 and no two share a
      key. */
  lemma TransparentIffDisciplined(F: iset<TaskFilter>, k: nat)
    requires ValidFilters(F) && k <= KEYS_PER_TEAM
    ensures Transparent(F, k) <==> Disciplined(F, k)
  {
    if Disciplined(F, k) {
      forall s: Sys, steps: seq<Step>, i: nat |
        Inv(s.db) && s.cache == Some(map[]) && ListFilters(steps, F) && AllDelsReach(steps, k) && i < |steps|
        ensures AnswersUncached(s, steps, i)
      {
        DisciplineSuffices(F, k, s, steps, i);
      }
    } else if exists f :: f in F && Cacheable(f) && !Covered(f, k) {
      var f :| f in F && Cacheable(f) && !Covered(f, k);
      UncoveredKey(F, f, k);
    } else {
      var f, g :| f in F && g in F && Cacheable(f) && Cacheable(g) && Key(f) == Key(g) && f != g;
      SharedKey(F, f, g, k);
    }
  }
}
