/** What dropping idle buckets changes: nothing, exactly when an idle bucket has had time to fill up again. */
module RateTheorems {

  import opened RateLimit

  /** A request of a user, or a collection, at a time. */
  datatype Event = Request(user: nat, at: real) | Gc(ttl: real, at: real)

  /** What the configuration accepts. */
  predicate Configured(p: Params) { p.rps > 0.0 && p.burst > 0 }

  function Happen(p: Params, l: Limiter, ev: Event): Limiter
  {
    match ev
    case Request(u, t) => Decide(p, l, u, t).0
    case Gc(ttl, t) => Collect(l, ttl, t)
  }

  function After(p: Params, evs: seq<Event>): Limiter
  {
    if evs == [] then Initial(p) else Happen(p, After(p, evs[..|evs| - 1]), evs[|evs| - 1])
  }

  predicate EndsInRequest(evs: seq<Event>) { evs != [] && evs[|evs| - 1].Request? }

  /** Whether the last request of the sequence goes through. */
  predicate Admits(p: Params, evs: seq<Event>)
    requires EndsInRequest(evs)
  {
    var last := evs[|evs| - 1];
    Decide(p, After(p, evs[..|evs| - 1]), last.user, last.at).1
  }

  predicate Monotone(evs: seq<Event>) { forall i, j :: 0 <= i < j < |evs| ==> evs[i].at <= evs[j].at }

  /** Every collection that does anything leaves a bucket long enough to fill. */
  predicate Patient(p: Params, evs: seq<Event>)
  {
    forall i :: 0 <= i < |evs| && evs[i].Gc? ==> evs[i].ttl <= 0.0 || evs[i].ttl * p.rps >= p.burst as real
  }

  function WithoutGc(evs: seq<Event>): seq<Event>
  {
    if evs == [] then []
    else WithoutGc(evs[..|evs| - 1]) + (if evs[|evs| - 1].Request? then [evs[|evs| - 1]] else [])
  }

  /** One user's requests, and nothing else. */
  function Own(evs: seq<Event>, user: nat): seq<Event>
  {
    if evs == [] then []
    else
      var last := evs[|evs| - 1];
      Own(evs[..|evs| - 1], user) + (if last.Request? && last.user == user then [last] else [])
  }

  /** The bucket of a user who is alone and never collected. */
  function Reference(p: Params, evs: seq<Event>, user: nat): Bucket
  {
    if evs == [] then Full(p)
    else
      var b, last := Reference(p, evs[..|evs| - 1], user), evs[|evs| - 1];
      if last.Request? && last.user == user then Take(p, b, last.at).0 else b
  }

  // ---- sequences without collections -----------------------------------------------------------

  lemma {:induction false} WithoutGcIsReference(p: Params, evs: seq<Event>, user: nat)
    ensures BucketOf(p, After(p, WithoutGc(evs)), user) == Reference(p, evs, user)
  {
    if evs != [] {
      var init, last := evs[..|evs| - 1], evs[|evs| - 1];
      WithoutGcIsReference(p, init, user);
      if last.Request? {
        var w := WithoutGc(init);
        assert (w + [last])[..|w + [last]| - 1] == w;
      } else {
        assert WithoutGc(evs) == WithoutGc(init);
      }
    }
  }

  lemma {:induction false} OwnIsReference(p: Params, evs: seq<Event>, user: nat)
    ensures BucketOf(p, After(p, Own(evs, user)), user) == Reference(p, evs, user)
  {
    if evs != [] {
      var init, last := evs[..|evs| - 1], evs[|evs| - 1];
      OwnIsReference(p, init, user);
      if last.Request? && last.user == user {
        var w := Own(init, user);
        assert (w + [last])[..|w + [last]| - 1] == w;
      } else {
        assert Own(evs, user) == Own(init, user);
      }
    }
  }

  // ---- levels over time ------------------------------------------------------------------------

  lemma YieldUp(p: Params, a: real, b: real)
    requires Configured(p) && a <= b
    ensures Yield(p, a) <= Yield(p, b)
    ensures 0.0 <= a ==> 0.0 <= Yield(p, a)
  {
  }

  lemma YieldSum(p: Params, a: real, b: real)
    ensures Yield(p, a + b) == Yield(p, a) + Yield(p, b)
  {
  }

  lemma NothingYet(p: Params)
    ensures Yield(p, 0.0) == 0.0
  {
  }

  lemma LevelLater(p: Params, b: Bucket, t: real, t': real)
    requires Configured(p) && t <= t'
    ensures Level(p, b, t) <= Level(p, b, t') <= Level(p, b, t) + Yield(p, t' - t)
  {
    hide Yield;
    var d, d' := Elapsed(b.last, t), Elapsed(b.last, t');
    YieldUp(p, d, d');
    YieldUp(p, d', d + (t' - t));
    YieldSum(p, d, t' - t);
    YieldUp(p, 0.0, t' - t);
  }

  predicate Brimming(p: Params, b: Bucket, t: real) { Level(p, b, t) == p.burst as real }

  lemma FullBrims(p: Params, t: real)
    requires Configured(p)
    ensures Brimming(p, Full(p), t)
  {
    hide Yield;
    YieldUp(p, Elapsed(0.0, t), Elapsed(0.0, t));
  }

  /** A bucket left with anything at all is full again after a time that yields `burst` tokens. */
  lemma FillsUp(p: Params, b: Bucket, t: real, ttl: real)
    requires Configured(p) && b.tokens >= 0.0 && t - b.last >= ttl > 0.0 && ttl * p.rps >= p.burst as real
    ensures Brimming(p, b, t)
  {
    YieldUp(p, ttl, t - b.last);
  }

  // ---- patient collections ---------------------------------------------------------------------

  /** Untouched, or last touched no later than `t`. */
  predicate Settled(p: Params, b: Bucket, t: real) { b == Full(p) || (b.tokens >= 0.0 && b.last <= t) }

  /** The limiter and the reference treat this user alike from `now` on. */
  predicate Tracks(p: Params, l: Limiter, ref: Bucket, user: nat, now: real)
  {
    var b := BucketOf(p, l, user);
    && (b == ref || (Brimming(p, b, now) && Brimming(p, ref, now)))
    && Settled(p, ref, now)
    && (user != 0 && user in l.perUser ==> l.perUser[user].lastUse <= now && Settled(p, ref, l.perUser[user].lastUse))
  }

  lemma InitialTracks(p: Params, user: nat, now: real)
    ensures Tracks(p, Initial(p), Full(p), user, now)
  {
  }

  lemma TracksLater(p: Params, l: Limiter, ref: Bucket, user: nat, now: real, later: real)
    requires Configured(p) && Tracks(p, l, ref, user, now) && now <= later
    ensures Tracks(p, l, ref, user, later)
  {
    hide Yield;
    LevelLater(p, BucketOf(p, l, user), now, later);
    LevelLater(p, ref, now, later);
  }

  lemma RequestTracks(p: Params, l: Limiter, ref: Bucket, user: nat, who: nat, t: real)
    requires Configured(p) && Tracks(p, l, ref, user, t)
    ensures Tracks(p, Decide(p, l, who, t).0, if who == user then Take(p, ref, t).0 else ref, user, t)
    ensures who == user ==> Decide(p, l, who, t).1 == Take(p, ref, t).1
  {
    hide Yield;
    NothingYet(p);
  }

  lemma CollectTracks(p: Params, l: Limiter, ref: Bucket, user: nat, ttl: real, t: real)
    requires Configured(p) && Tracks(p, l, ref, user, t)
    requires ttl <= 0.0 || ttl * p.rps >= p.burst as real
    ensures Tracks(p, Collect(l, ttl, t), ref, user, t)
  {
    FullBrims(p, t);
    if ttl > 0.0 && user != 0 && user in l.perUser && l.perUser[user].lastUse < t - ttl && ref != Full(p) {
      FillsUp(p, ref, t, ttl);
    }
  }

  lemma {:induction false} PatientTracks(p: Params, evs: seq<Event>, user: nat, now: real)
    requires Configured(p) && Monotone(evs) && Patient(p, evs)
    requires evs != [] ==> evs[|evs| - 1].at <= now
    ensures Tracks(p, After(p, evs), Reference(p, evs, user), user, now)
  {
    hide Tracks, Level, Take, Decide, Collect;
    InitialTracks(p, user, now);
    if evs != [] {
      var init, last := evs[..|evs| - 1], evs[|evs| - 1];
      PatientTracks(p, init, user, last.at);
      var l, ref := After(p, init), Reference(p, init, user);
      match last {
        case Request(u, t) => RequestTracks(p, l, ref, user, u, t);
        case Gc(ttl, t) => CollectTracks(p, l, ref, user, ttl, t);
      }
      TracksLater(p, After(p, evs), Reference(p, evs, user), user, last.at, now);
    }
  }

  lemma AdmitsAsReference(p: Params, evs: seq<Event>)
    requires Configured(p) && Monotone(evs) && Patient(p, evs) && EndsInRequest(evs)
    ensures var last := evs[|evs| - 1];
      Admits(p, evs) == Take(p, Reference(p, evs[..|evs| - 1], last.user), last.at).1
  {
    var init, last := evs[..|evs| - 1], evs[|evs| - 1];
    PatientTracks(p, init, last.user, last.at);
    RequestTracks(p, After(p, init), Reference(p, init, last.user), last.user, last.user, last.at);
  }

  lemma AdmitsWithoutGc(p: Params, evs: seq<Event>)
    requires EndsInRequest(evs)
    ensures EndsInRequest(WithoutGc(evs))
    ensures var last := evs[|evs| - 1];
      Admits(p, WithoutGc(evs)) == Take(p, Reference(p, evs[..|evs| - 1], last.user), last.at).1
  {
    var init, last := evs[..|evs| - 1], evs[|evs| - 1];
    var w := WithoutGc(init);
    assert WithoutGc(evs) == w + [last] && (w + [last])[..|w + [last]| - 1] == w;
    WithoutGcIsReference(p, init, last.user);
  }

  /** For any timed run with patient collections anywhere in it: every decision is the one made without collections. */
  lemma GcInvisible(p: Params, evs: seq<Event>)
    requires Configured(p) && Monotone(evs) && Patient(p, evs) && EndsInRequest(evs)
    ensures EndsInRequest(WithoutGc(evs)) && Admits(p, evs) == Admits(p, WithoutGc(evs))
  {
    AdmitsAsReference(p, evs);
    AdmitsWithoutGc(p, evs);
  }

  // ---- isolation -------------------------------------------------------------------------------

  predicate OthersRequest(ev: Event, user: nat) { ev.Request? && ev.user != user }

  /** Other users' requests dropped, and every collection kept. */
  function Alone(evs: seq<Event>, user: nat): seq<Event>
  {
    if evs == [] then []
    else
      Alone(evs[..|evs| - 1], user)
      + (if OthersRequest(evs[|evs| - 1], user) then [] else [evs[|evs| - 1]])
  }

  /** The limiters hold the same for this user. */
  predicate SameFor(l: Limiter, l': Limiter, user: nat)
  {
    if user == 0 then l.fallback == l'.fallback
    else (user in l.perUser <==> user in l'.perUser) && (user in l.perUser ==> l.perUser[user] == l'.perUser[user])
  }

  /** Other users' requests leave this user's bucket alone; its own, and collections, change it by itself only. */
  lemma HappenSameFor(p: Params, l: Limiter, l': Limiter, ev: Event, user: nat)
    requires SameFor(l, l', user)
    ensures OthersRequest(ev, user) ==> SameFor(Happen(p, l, ev), l', user)
    ensures !OthersRequest(ev, user) ==> SameFor(Happen(p, l, ev), Happen(p, l', ev), user)
  {
    hide Take;
  }

  lemma {:induction false} AloneSame(p: Params, evs: seq<Event>, user: nat)
    ensures SameFor(After(p, evs), After(p, Alone(evs, user)), user)
  {
    hide Happen, SameFor;
    if evs == [] {
      SameForSelf(Initial(p), user);
    } else {
      var init, last := evs[..|evs| - 1], evs[|evs| - 1];
      var w := Alone(init, user);
      AloneSame(p, init, user);
      HappenSameFor(p, After(p, init), After(p, w), last, user);
      if OthersRequest(last, user) {
        assert Alone(evs, user) == w;
      } else {
        assert (w + [last])[..|w + [last]| - 1] == w;
      }
    }
  }

  lemma SameForSelf(l: Limiter, user: nat)
    ensures SameFor(l, l, user)
  {
  }

  /** A user's decisions never depend on other users' requests, whatever the collections, their ttl and the times. */
  lemma Isolation(p: Params, evs: seq<Event>)
    requires EndsInRequest(evs)
    ensures var alone := Alone(evs, evs[|evs| - 1].user); EndsInRequest(alone) && Admits(p, evs) == Admits(p, alone)
  {
    hide Take;
    var init, last := evs[..|evs| - 1], evs[|evs| - 1];
    var w := Alone(init, last.user);
    assert Alone(evs, last.user) == w + [last] && (w + [last])[..|w + [last]| - 1] == w;
    AloneSame(p, init, last.user);
  }

  /** With patient collections the decision is even the one made if nothing but that user's requests had happened. */
  lemma IsolationPatient(p: Params, evs: seq<Event>)
    requires Configured(p) && Monotone(evs) && Patient(p, evs) && EndsInRequest(evs)
    ensures var own := Own(evs, evs[|evs| - 1].user); EndsInRequest(own) && Admits(p, evs) == Admits(p, own)
  {
    var init, last := evs[..|evs| - 1], evs[|evs| - 1];
    var w := Own(init, last.user);
    assert Own(evs, last.user) == w + [last] && (w + [last])[..|w + [last]| - 1] == w;
    AdmitsAsReference(p, evs);
    OwnIsReference(p, init, last.user);
  }

  /** Requests without a user share one bucket, which no collection, patient or not, ever touches. */
  lemma {:induction false} SharedBucket(p: Params, evs: seq<Event>)
    ensures After(p, evs).fallback == Reference(p, evs, 0)
  {
    if evs != [] {
      SharedBucket(p, evs[..|evs| - 1]);
    }
  }

  // ---- the rate --------------------------------------------------------------------------------

  /** How many of the user's requests from event `from` on went through. */
  function Admitted(p: Params, evs: seq<Event>, user: nat, from: nat): nat
  {
    if |evs| <= from then 0
    else
      var last := evs[|evs| - 1];
      Admitted(p, evs[..|evs| - 1], user, from)
      + (if last.Request? && last.user == user && Admits(p, evs) then 1 else 0)
  }

  lemma LevelNonNegative(p: Params, b: Bucket, t: real)
    requires Configured(p) && b.tokens >= 0.0
    ensures Level(p, b, t) >= 0.0
  {
    hide Yield;
    YieldUp(p, Elapsed(b.last, t), Elapsed(b.last, t));
  }

  /** Taking from a settled bucket settles it at that time. */
  lemma TakeSettles(p: Params, b: Bucket, before: real, t: real)
    requires Settled(p, b, before) && before <= t
    ensures Settled(p, Take(p, b, t).0, t)
  {
    hide Level;
  }

  lemma {:induction false} ReferenceSettled(p: Params, evs: seq<Event>, user: nat)
    requires evs != [] && Monotone(evs)
    ensures Settled(p, Reference(p, evs, user), evs[|evs| - 1].at)
  {
    hide Settled, Take;
    var init, last := evs[..|evs| - 1], evs[|evs| - 1];
    var b := Reference(p, init, user);
    if init != [] {
      ReferenceSettled(p, init, user);
      SettledLater(p, b, init[|init| - 1].at, last.at);
    } else {
      FullSettled(p, last.at);
    }
    TakeSettles(p, b, last.at, last.at);
  }

  lemma SettledLater(p: Params, b: Bucket, before: real, t: real)
    requires Settled(p, b, before) && before <= t
    ensures Settled(p, b, t)
  {
  }

  lemma FullSettled(p: Params, t: real)
    ensures Settled(p, Full(p), t)
  {
  }

  lemma SettledLevel(p: Params, b: Bucket, t: real)
    requires Configured(p) && Settled(p, b, t)
    ensures Level(p, b, t) >= 0.0
  {
    hide Level;
    LevelNonNegative(p, b, t);
  }

  /** A token let through is a token less. */
  lemma TakeSpends(p: Params, b: Bucket, t: real)
    ensures Level(p, Take(p, b, t).0, t) + (if Take(p, b, t).1 then 1.0 else 0.0) == Level(p, b, t)
  {
    hide Yield;
    NothingYet(p);
  }

  /** The budget of a window that began at `start`. */
  predicate WithinBudget(p: Params, n: nat, b: Bucket, start: real, now: real)
  {
    n as real + Level(p, b, now) <= p.burst as real + Yield(p, now - start)
  }

  lemma BudgetAtStart(p: Params, b: Bucket, t: real)
    ensures WithinBudget(p, 0, b, t, t)
  {
    hide Yield;
    NothingYet(p);
  }

  lemma BudgetLater(p: Params, n: nat, b: Bucket, start: real, before: real, now: real)
    requires Configured(p) && before <= now && WithinBudget(p, n, b, start, before)
    ensures WithinBudget(p, n, b, start, now)
  {
    hide Yield;
    LevelLater(p, b, before, now);
    YieldSum(p, now - before, before - start);
  }

  lemma BudgetTaken(p: Params, n: nat, b: Bucket, start: real, t: real)
    requires WithinBudget(p, n, b, start, t)
    ensures WithinBudget(p, n + (if Take(p, b, t).1 then 1 else 0), Take(p, b, t).0, start, t)
  {
    hide Yield, Take, Level;
    TakeSpends(p, b, t);
  }

  /** The last event stays within the budget of the window. */
  lemma SpendingLast(p: Params, evs: seq<Event>, user: nat, from: nat, start: real)
    requires Configured(p) && Monotone(evs) && Patient(p, evs) && from < |evs|
    requires var init := evs[..|evs| - 1];
      WithinBudget(p, Admitted(p, init, user, from), Reference(p, init, user), start, evs[|evs| - 1].at)
    ensures WithinBudget(p, Admitted(p, evs, user, from), Reference(p, evs, user), start, evs[|evs| - 1].at)
  {
    hide Yield, Take, Level, WithinBudget;
    var init, last := evs[..|evs| - 1], evs[|evs| - 1];
    if last.Request? && last.user == user {
      AdmitsAsReference(p, evs);
      BudgetTaken(p, Admitted(p, init, user, from), Reference(p, init, user), start, last.at);
    }
  }

  lemma {:induction false} Spending(p: Params, evs: seq<Event>, user: nat, from: nat, start: real)
    requires Configured(p) && Monotone(evs) && Patient(p, evs) && from < |evs| && start == evs[from].at
    ensures WithinBudget(p, Admitted(p, evs, user, from), Reference(p, evs, user), start, evs[|evs| - 1].at)
  {
    hide Yield, Level, WithinBudget;
    var init, last := evs[..|evs| - 1], evs[|evs| - 1];
    if |init| > from {
      Spending(p, init, user, from, start);
      var n, ref, before := Admitted(p, init, user, from), Reference(p, init, user), init[|init| - 1].at;
      BudgetLater(p, n, ref, start, before, last.at);
    } else {
      BudgetAtStart(p, Reference(p, init, user), start);
    }
    SpendingLast(p, evs, user, from, start);
  }

  lemma BudgetBounds(p: Params, n: nat, b: Bucket, start: real, now: real)
    requires WithinBudget(p, n, b, start, now) && Level(p, b, now) >= 0.0
    ensures n as real <= p.burst as real + (now - start) * p.rps
  {
    hide Level;
  }

  /** In any window of length w, however many collections fall into it, a user gets at most burst + rps * w requests
      through. */
  lemma RateBound(p: Params, evs: seq<Event>, user: nat, from: nat)
    requires Configured(p) && Monotone(evs) && Patient(p, evs) && from < |evs|
    ensures Admitted(p, evs, user, from) as real <=
      p.burst as real + (evs[|evs| - 1].at - evs[from].at) * p.rps
  {
    hide *;
    Spending(p, evs, user, from, evs[from].at);
    ReferenceSettled(p, evs, user);
    SettledLevel(p, Reference(p, evs, user), evs[|evs| - 1].at);
    BudgetBounds(p, Admitted(p, evs, user, from), Reference(p, evs, user), evs[from].at, evs[|evs| - 1].at);
  }

  // ---- every decision --------------------------------------------------------------------------

  /** The window from event `from` on has used up all that the bucket does not still hold. */
  predicate Spent(p: Params, evs: seq<Event>, user: nat, from: nat, b: Bucket, now: real)
  {
    from < |evs|
    && Admitted(p, evs, user, from) as real + Level(p, b, now) == p.burst as real + Yield(p, now - evs[from].at)
  }

  /** A bucket that is not full owes what it lacks to one window. */
  ghost predicate Accounted(p: Params, evs: seq<Event>, user: nat, b: Bucket, now: real)
  {
    Brimming(p, b, now) || exists from: nat :: Spent(p, evs, user, from, b, now)
  }

  /** A settled bucket gains what comes in, up to the burst. */
  lemma LevelGains(p: Params, b: Bucket, t: real, t': real)
    requires Configured(p) && t <= t' && (b.last <= t || b == Full(p))
    ensures Level(p, b, t') == MinReal(p.burst as real, Level(p, b, t) + Yield(p, t' - t))
  {
    hide Yield;
    YieldUp(p, 0.0, t' - t);
    if b == Full(p) {
      FullBrims(p, t);
      FullBrims(p, t');
    } else {
      YieldSum(p, t - b.last, t' - t);
    }
  }

  lemma AccountedLater(p: Params, evs: seq<Event>, user: nat, b: Bucket, before: real, now: real)
    requires Configured(p) && before <= now && Settled(p, b, before) && Accounted(p, evs, user, b, before)
    ensures Accounted(p, evs, user, b, now)
  {
    hide Yield, Level, Admitted;
    LevelGains(p, b, before, now);
    YieldUp(p, 0.0, now - before);
    if !Brimming(p, b, now) {
      var from: nat :| Spent(p, evs, user, from, b, before);
      YieldSum(p, now - before, before - evs[from].at);
      assert Spent(p, evs, user, from, b, now);
    }
  }

  /** Accounting goes on over the last event. */
  lemma AccountedLast(p: Params, evs: seq<Event>, user: nat)
    requires Configured(p) && Monotone(evs) && Patient(p, evs) && evs != []
    requires var init := evs[..|evs| - 1]; Accounted(p, init, user, Reference(p, init, user), evs[|evs| - 1].at)
    ensures Accounted(p, evs, user, Reference(p, evs, user), evs[|evs| - 1].at)
  {
    hide Yield, Take, Level, Admits;
    var init, last := evs[..|evs| - 1], evs[|evs| - 1];
    var b, b' := Reference(p, init, user), Reference(p, evs, user);
    if last.Request? && last.user == user {
      AdmitsAsReference(p, evs);
      TakeSpends(p, b, last.at);
    }
    if Brimming(p, b, last.at) {
      NothingYet(p);
      TakesWhenFull(p, b, last.at);
      assert Admitted(p, init, user, |init|) == 0;
      assert Brimming(p, b', last.at) || Spent(p, evs, user, |init|, b', last.at);
    } else {
      var from: nat :| Spent(p, init, user, from, b, last.at);
      assert Spent(p, evs, user, from, b', last.at);
    }
  }

  lemma TakesWhenFull(p: Params, b: Bucket, t: real)
    requires Configured(p) && Brimming(p, b, t)
    ensures Take(p, b, t).1
  {
    hide Level;
  }

  lemma {:induction false} AlwaysAccounted(p: Params, evs: seq<Event>, user: nat, now: real)
    requires Configured(p) && Monotone(evs) && Patient(p, evs)
    requires evs != [] ==> evs[|evs| - 1].at <= now
    ensures Accounted(p, evs, user, Reference(p, evs, user), now)
  {
    hide Accounted, Take, Settled;
    if evs == [] {
      FullAccounted(p, user, now);
    } else {
      var last := evs[|evs| - 1];
      AlwaysAccounted(p, evs[..|evs| - 1], user, last.at);
      AccountedLast(p, evs, user);
      ReferenceSettled(p, evs, user);
      AccountedLater(p, evs, user, Reference(p, evs, user), last.at, now);
    }
  }

  lemma FullAccounted(p: Params, user: nat, now: real)
    requires Configured(p)
    ensures Accounted(p, [], user, Full(p), now)
  {
    FullBrims(p, now);
  }

  /** Counting the last request as let through keeps the window from event `from` on within its bound. */
  predicate WindowAllows(p: Params, evs: seq<Event>, from: nat)
    requires EndsInRequest(evs) && from < |evs|
  {
    var init, last := evs[..|evs| - 1], evs[|evs| - 1];
    Admitted(p, init, last.user, from) as real + 1.0 <= p.burst as real + (last.at - evs[from].at) * p.rps
  }

  /** A window that has used up all but a fraction of a token does not allow another request. */
  lemma SpentDisallows(p: Params, evs: seq<Event>, from: nat, b: Bucket)
    requires EndsInRequest(evs) && from < |evs| - 1
    requires var last := evs[|evs| - 1]; Spent(p, evs[..|evs| - 1], last.user, from, b, last.at)
    requires Level(p, b, evs[|evs| - 1].at) < 1.0
    ensures !WindowAllows(p, evs, from)
  {
    hide Admitted, Level, EndsInRequest;
    assert evs[..|evs| - 1][from] == evs[from];
  }

  lemma RefusedDisallows(p: Params, evs: seq<Event>) returns (from: nat)
    requires Configured(p) && Monotone(evs) && Patient(p, evs) && EndsInRequest(evs) && !Admits(p, evs)
    ensures from < |evs| && !WindowAllows(p, evs, from)
  {
    hide Admits, Monotone, Patient, Reference, Take, Level, Admitted, WindowAllows, Yield;
    var init, last := evs[..|evs| - 1], evs[|evs| - 1];
    var b := Reference(p, init, last.user);
    InitTimed(p, evs);
    AlwaysAccounted(p, init, last.user, last.at);
    AdmitsAsReference(p, evs);
    RefusedIsLow(p, b, last.at);
    from :| Spent(p, init, last.user, from, b, last.at);
    SpentDisallows(p, evs, from, b);
  }

  lemma AdmittedAllows(p: Params, evs: seq<Event>, from: nat)
    requires Configured(p) && Monotone(evs) && Patient(p, evs) && EndsInRequest(evs) && Admits(p, evs)
    requires from < |evs|
    ensures WindowAllows(p, evs, from)
  {
    hide Admits, Monotone, Patient;
    RateBound(p, evs, evs[|evs| - 1].user, from);
  }

  /** With patient collections, a request goes through if and only if letting it through keeps every window that ends
      with it within burst + rps * w. */
  lemma AdmitsIff(p: Params, evs: seq<Event>)
    requires Configured(p) && Monotone(evs) && Patient(p, evs) && EndsInRequest(evs)
    ensures Admits(p, evs) <==> forall from: nat :: from < |evs| ==> WindowAllows(p, evs, from)
  {
    hide *;
    if Admits(p, evs) {
      forall from: nat | from < |evs| ensures WindowAllows(p, evs, from) {
        AdmittedAllows(p, evs, from);
      }
    } else {
      var from := RefusedDisallows(p, evs);
    }
  }

  lemma InitTimed(p: Params, evs: seq<Event>)
    requires Monotone(evs) && Patient(p, evs) && evs != []
    ensures var init := evs[..|evs| - 1];
      Monotone(init) && Patient(p, init) && (init != [] ==> init[|init| - 1].at <= evs[|evs| - 1].at)
  {
  }

  lemma RefusedIsLow(p: Params, b: Bucket, t: real)
    requires Configured(p) && !Take(p, b, t).1
    ensures Level(p, b, t) < 1.0 && !Brimming(p, b, t)
  {
    hide Level;
  }

  // ---- the exact condition ---------------------------------------------------------------------

  predicate GcsUse(evs: seq<Event>, ttl: real) { forall i :: 0 <= i < |evs| && evs[i].Gc? ==> evs[i].ttl == ttl }

  /** Collecting with this ttl, whenever and however often, never changes a decision. */
  ghost predicate Invisible(p: Params, ttl: real)
  {
    forall evs: seq<Event> {:trigger Admits(p, evs)} :: EndsInRequest(evs) && Monotone(evs) && GcsUse(evs, ttl) ==>
      EndsInRequest(WithoutGc(evs)) && Admits(p, evs) == Admits(p, WithoutGc(evs))
  }

  function Repeat(n: nat, t: real): seq<Event> { seq(n, _ => Request(1, t)) }

  /** Empty the bucket at time 0, collect at `t`, and ask k more times. */
  function Refill(p: Params, ttl: real, t: real, k: nat): seq<Event>
    requires p.burst > 0
  {
    Repeat(p.burst, 0.0) + [Gc(ttl, t)] + Repeat(k, t)
  }

  lemma {:induction false} Drained(p: Params, n: nat)
    requires Configured(p) && n <= p.burst
    ensures After(p, Repeat(n, 0.0)) ==
      if n == 0 then Initial(p)
      else Initial(p).(perUser := map[1 := Slot(Bucket((p.burst - n) as real, 0.0), 0.0)])
    ensures Reference(p, Repeat(n, 0.0), 1) == Bucket((p.burst - n) as real, 0.0)
  {
    if n > 0 {
      Drained(p, n - 1);
      assert Repeat(n, 0.0)[..n - 1] == Repeat(n - 1, 0.0);
    }
  }

  lemma RefillPrefix(p: Params, ttl: real, t: real, k: nat)
    requires Configured(p)
    ensures var evs := Refill(p, ttl, t, k);
      if k > 0 then evs[..|evs| - 1] == Refill(p, ttl, t, k - 1) && evs[|evs| - 1] == Request(1, t)
      else evs[..|evs| - 1] == Repeat(p.burst, 0.0) && evs[|evs| - 1] == Gc(ttl, t)
  {
    var evs := Refill(p, ttl, t, k);
    if k > 0 {
      assert Repeat(k, t) == Repeat(k - 1, t) + [Request(1, t)];
      assert evs == Refill(p, ttl, t, k - 1) + [Request(1, t)];
    } else {
      assert evs == Repeat(p.burst, 0.0) + [Gc(ttl, t)];
    }
  }

  lemma CollectsTheOne(p: Params, slot: Slot, ttl: real, t: real)
    requires 0.0 < ttl && slot.lastUse < t - ttl
    ensures Collect(Initial(p).(perUser := map[1 := slot]), ttl, t) == Initial(p)
  {
  }

  /** After the collection the limiter starts from a full bucket again. */
  lemma {:induction false} Refilled(p: Params, ttl: real, t: real, k: nat)
    requires Configured(p) && 0.0 < ttl < t && k <= p.burst
    ensures After(p, Refill(p, ttl, t, k)) ==
      if k == 0 then Initial(p)
      else Initial(p).(perUser := map[1 := Slot(Bucket((p.burst - k) as real, t), t)])
    ensures k > 0 ==> EndsInRequest(Refill(p, ttl, t, k)) && Admits(p, Refill(p, ttl, t, k))
  {
    hide Yield;
    RefillPrefix(p, ttl, t, k);
    if k == 0 {
      Drained(p, p.burst);
      CollectsTheOne(p, Slot(Bucket(0.0, 0.0), 0.0), ttl, t);
    } else {
      Refilled(p, ttl, t, k - 1);
      FullBrims(p, t);
      NothingYet(p);
    }
  }

  lemma RefillTimed(p: Params, ttl: real, t: real, k: nat)
    requires Configured(p) && 0.0 < ttl < t
    ensures Monotone(Refill(p, ttl, t, k)) && GcsUse(Refill(p, ttl, t, k), ttl)
  {
  }

  /** Without the collection there is only what came in since time 0. */
  lemma {:induction false} Underfilled(p: Params, ttl: real, t: real, k: nat)
    requires Configured(p) && 0.0 < ttl < t && Yield(p, t) < p.burst as real && k as real <= Yield(p, t)
    ensures Level(p, Reference(p, Refill(p, ttl, t, k), 1), t) == Yield(p, t) - k as real
  {
    hide Yield;
    RefillPrefix(p, ttl, t, k);
    if k == 0 {
      Drained(p, p.burst);
      assert Reference(p, Refill(p, ttl, t, 0), 1) == Bucket(0.0, 0.0);
    } else {
      Underfilled(p, ttl, t, k - 1);
      TakeSpends(p, Reference(p, Refill(p, ttl, t, k - 1), 1), t);
    }
  }

  /** A run with this ttl whose last request gets through only because of a collection. */
  predicate Notices(p: Params, ttl: real, evs: seq<Event>)
  {
    && Monotone(evs) && GcsUse(evs, ttl) && EndsInRequest(evs) && EndsInRequest(WithoutGc(evs))
    && Admits(p, evs) && !Admits(p, WithoutGc(evs))
  }

  /** The first request the refill does not pay for. */
  lemma RefillNoticed(p: Params, ttl: real, t: real, k: nat)
    requires Configured(p) && 0.0 < ttl < t && Yield(p, t) < p.burst as real
    requires 0 < k <= p.burst && (k - 1) as real <= Yield(p, t) < k as real
    ensures Notices(p, ttl, Refill(p, ttl, t, k))
  {
    hide Yield;
    var evs := Refill(p, ttl, t, k);
    RefillTimed(p, ttl, t, k);
    Refilled(p, ttl, t, k);
    RefillPrefix(p, ttl, t, k);
    Underfilled(p, ttl, t, k - 1);
    AdmitsWithoutGc(p, evs);
  }

  /** A time after the ttl at which an emptied bucket is not yet full. */
  lemma TooEarly(p: Params, ttl: real) returns (t: real)
    requires Configured(p) && 0.0 < ttl && ttl * p.rps < p.burst as real
    ensures ttl < t && t * p.rps < p.burst as real
  {
    var gap := p.burst as real - ttl * p.rps;
    t := ttl + gap / (2.0 * p.rps);
    assert gap / (2.0 * p.rps) * p.rps == gap / 2.0;
    assert t * p.rps == ttl * p.rps + gap / (2.0 * p.rps) * p.rps;
  }

  /** The number of requests at time t that a bucket emptied at time 0 does not pay for in full. */
  function BeyondRefill(p: Params, t: real): nat
    requires Configured(p) && 0.0 <= t
  {
    YieldUp(p, 0.0, t);
    (t * p.rps).Floor + 1
  }

  lemma BeyondRefillBounds(p: Params, t: real)
    requires Configured(p) && 0.0 <= t && t * p.rps < p.burst as real
    ensures var k := BeyondRefill(p, t);
      0 < k <= p.burst && (k - 1) as real <= Yield(p, t) < k as real && Yield(p, t) < p.burst as real
  {
    YieldUp(p, 0.0, t);
    FloorBetween(Yield(p, t), p.burst);
  }

  lemma FloorBetween(x: real, n: int)
    requires 0.0 <= x < n as real
    ensures 0 <= x.Floor < n && x.Floor as real <= x < (x.Floor + 1) as real
  {
    assert x.Floor as real <= x;
  }

  /** Whenever an emptied bucket is not yet full at a time t after the ttl, a collection at t is noticed. */
  lemma GcNoticed(p: Params, ttl: real, t: real)
    requires Configured(p) && 0.0 < ttl < t && t * p.rps < p.burst as real
    ensures Notices(p, ttl, Refill(p, ttl, t, BeyondRefill(p, t)))
  {
    hide Notices, Refill, Yield, BeyondRefill;
    BeyondRefillBounds(p, t);
    RefillNoticed(p, ttl, t, BeyondRefill(p, t));
  }

  /** The exact condition: collecting entries idle for longer than ttl is invisible in every run if and only if ttl is
      long enough for an empty bucket to fill. */
  lemma InvisibleIff(p: Params, ttl: real)
    requires Configured(p) && 0.0 < ttl
    ensures Invisible(p, ttl) <==> ttl * p.rps >= p.burst as real
  {
    hide Refill, BeyondRefill, Admits, WithoutGc, Yield;
    if ttl * p.rps >= p.burst as real {
      forall evs: seq<Event> | EndsInRequest(evs) && Monotone(evs) && GcsUse(evs, ttl)
        ensures EndsInRequest(WithoutGc(evs)) && Admits(p, evs) == Admits(p, WithoutGc(evs))
      {
        GcInvisible(p, evs);
      }
    } else {
      var t := TooEarly(p, ttl);
      GcNoticed(p, ttl, t);
      assert Notices(p, ttl, Refill(p, ttl, t, BeyondRefill(p, t)));
    }
  }

  // ---- the bound is attained -------------------------------------------------------------------

  function Tick(p: Params, k: nat): real
    requires Configured(p)
  {
    k as real / p.rps
  }

  lemma TickZero(p: Params)
    requires Configured(p)
    ensures Tick(p, 0) == 0.0
  {
  }

  lemma TickYields(p: Params, k: nat)
    requires Configured(p) && k > 0
    ensures Tick(p, k - 1) < Tick(p, k) && Yield(p, Tick(p, k) - Tick(p, k - 1)) == 1.0
  {
    var a, b := Tick(p, k - 1), Tick(p, k);
    assert a * p.rps == (k - 1) as real && b * p.rps == k as real;
    assert (b - a) * p.rps == 1.0;
  }

  lemma {:induction false} TicksAscend(p: Params, i: nat, j: nat)
    requires Configured(p) && i <= j
    ensures 0.0 <= Tick(p, i) <= Tick(p, j)
  {
    if i < j {
      TicksAscend(p, i, j - 1);
      TickYields(p, j);
    }
  }

  /** The whole burst at time 0, and then a request whenever a token has come in. */
  function Trickle(p: Params, k: nat): seq<Event>
    requires Configured(p)
  {
    Repeat(p.burst, 0.0) + seq(k, i requires 0 <= i < k => Request(1, Tick(p, i + 1)))
  }

  lemma TricklePrefix(p: Params, k: nat)
    requires Configured(p) && k > 0
    ensures var evs := Trickle(p, k); evs[..|evs| - 1] == Trickle(p, k - 1) && evs[|evs| - 1] == Request(1, Tick(p, k))
  {
  }

  lemma TrickleTimed(p: Params, k: nat)
    requires Configured(p)
    ensures Monotone(Trickle(p, k)) && WithoutGc(Trickle(p, k)) == Trickle(p, k)
  {
    hide Tick;
    var evs := Trickle(p, k);
    forall i, j | 0 <= i < j < |evs| ensures evs[i].at <= evs[j].at {
      if j >= p.burst {
        TicksAscend(p, if i < p.burst then 0 else i - p.burst + 1, j - p.burst + 1);
      }
    }
    AllRequests(evs);
  }

  lemma {:induction false} BurstAdmitted(p: Params, n: nat)
    requires Configured(p) && n <= p.burst
    ensures Admitted(p, Repeat(n, 0.0), 1, 0) == n
  {
    hide Yield;
    if n > 0 {
      var evs := Repeat(n, 0.0);
      assert evs[..n - 1] == Repeat(n - 1, 0.0);
      BurstAdmitted(p, n - 1);
      Drained(p, n - 1);
      NothingYet(p);
    }
  }

  /** A bucket that was empty a tick ago lets one request through and is empty again. */
  lemma TickTaken(p: Params, k: nat)
    requires Configured(p) && k > 0
    ensures Take(p, Bucket(0.0, Tick(p, k - 1)), Tick(p, k)) == (Bucket(0.0, Tick(p, k)), true)
  {
    hide Yield, Tick;
    TickYields(p, k);
  }

  lemma {:induction false} TrickleAdmitted(p: Params, k: nat)
    requires Configured(p)
    ensures Admitted(p, Trickle(p, k), 1, 0) == p.burst + k
    ensures BucketOf(p, After(p, Trickle(p, k)), 1) == Bucket(0.0, Tick(p, k))
  {
    hide Take, Tick;
    if k == 0 {
      assert Trickle(p, 0) == Repeat(p.burst, 0.0);
      BurstAdmitted(p, p.burst);
      Drained(p, p.burst);
      TickZero(p);
    } else {
      TricklePrefix(p, k);
      TrickleAdmitted(p, k - 1);
      TickTaken(p, k);
    }
  }

  lemma TickWithin(p: Params, w: real, k: nat)
    requires Configured(p) && k as real <= w * p.rps
    ensures Tick(p, k) <= w
  {
    assert Tick(p, k) * p.rps == k as real;
    if Tick(p, k) > w {
      MulStrictly(w, Tick(p, k), p.rps);
    }
  }

  lemma MulStrictly(a: real, b: real, c: real)
    requires a < b && 0.0 < c
    ensures a * c < b * c
  {
  }

  /** The bound cannot be lowered: for every w, a window of length w lets burst + k requests through for every whole k up
      to rps * w. */
  lemma RateAttained(p: Params, w: real, k: nat)
    requires Configured(p) && 0.0 <= w && k as real <= w * p.rps
    ensures var evs := Trickle(p, k);
      && Monotone(evs) && WithoutGc(evs) == evs
      && evs[0].at == 0.0 && evs[|evs| - 1].at <= w
      && Admitted(p, evs, 1, 0) == p.burst + k
  {
    hide Admitted, After, BucketOf, Monotone, WithoutGc, Tick;
    TrickleAdmitted(p, k);
    TrickleTimed(p, k);
    TickWithin(p, w, k);
    if k > 0 { TricklePrefix(p, k); }
  }

  lemma {:induction false} AllRequests(evs: seq<Event>)
    requires forall i :: 0 <= i < |evs| ==> evs[i].Request?
    ensures WithoutGc(evs) == evs
  {
    if evs != [] {
      AllRequests(evs[..|evs| - 1]);
    }
  }

  // ---- when the bound holds --------------------------------------------------------------------

  /** With this ttl, no window of any run lets more than burst + rps * w requests of a user through. */
  ghost predicate Bounded(p: Params, ttl: real)
  {
    forall evs: seq<Event>, user: nat, from: nat {:trigger Admitted(p, evs, user, from)} ::
      Monotone(evs) && GcsUse(evs, ttl) && from < |evs| ==>
        Admitted(p, evs, user, from) as real <= p.burst as real + (evs[|evs| - 1].at - evs[from].at) * p.rps
  }

  /** A noticed collection lets a second burst through. */
  lemma {:induction false} RefillAdmitted(p: Params, ttl: real, t: real, k: nat)
    requires Configured(p) && 0.0 < ttl < t && k <= p.burst
    ensures Admitted(p, Refill(p, ttl, t, k), 1, 0) == p.burst + k
  {
    hide Admits, Refill, Repeat;
    var evs := Refill(p, ttl, t, k);
    RefillPrefix(p, ttl, t, k);
    RefillNonEmpty(p, ttl, t, k);
    if k == 0 {
      BurstAdmitted(p, p.burst);
    } else {
      RefillAdmitted(p, ttl, t, k - 1);
      Refilled(p, ttl, t, k);
    }
  }

  lemma RefillNonEmpty(p: Params, ttl: real, t: real, k: nat)
    requires Configured(p)
    ensures Refill(p, ttl, t, k) != [] && Refill(p, ttl, t, k)[0].at == 0.0
  {
  }

  /** The bound holds of all runs with this ttl if and only if ttl is long enough for an empty bucket to fill. */
  lemma BoundedIff(p: Params, ttl: real)
    requires Configured(p) && 0.0 < ttl
    ensures Bounded(p, ttl) <==> ttl * p.rps >= p.burst as real
  {
    hide Refill, Admitted, Monotone;
    if ttl * p.rps >= p.burst as real {
      forall evs: seq<Event>, user: nat, from: nat | Monotone(evs) && GcsUse(evs, ttl) && from < |evs|
        ensures Admitted(p, evs, user, from) as real <=
          p.burst as real + (evs[|evs| - 1].at - evs[from].at) * p.rps
      {
        RateBound(p, evs, user, from);
      }
    } else {
      var t := TooEarly(p, ttl);
      var evs := Refill(p, ttl, t, p.burst);
      RefillTimed(p, ttl, t, p.burst);
      RefillAdmitted(p, ttl, t, p.burst);
      RefillPrefix(p, ttl, t, p.burst);
      RefillNonEmpty(p, ttl, t, p.burst);
      assert (evs[|evs| - 1].at - evs[0].at) * p.rps == t * p.rps;
      assert Admitted(p, evs, 1, 0) == 2 * p.burst;
    }
  }
}
