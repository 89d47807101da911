/** The per-user rate limiter: token buckets in exact arithmetic, dropped when idle. */
module RateLimit {

  // ---- one bucket ------------------------------------------------------------------------------

  /** `rate.NewLimiter(rps, burst)`. */
  datatype Params = Params(rps: real, burst: int)

  /** `tokens` were left at time `last`. */
  datatype Bucket = Bucket(tokens: real, last: real)

  function MinReal(a: real, b: real): real { if a < b then a else b }

  function Elapsed(from: real, t: real): real { if t < from then 0.0 else t - from }

  /** `tokensFromDuration`. */
  function Yield(p: Params, d: real): real { d * p.rps }

  function Level(p: Params, b: Bucket, t: real): real
  {
    MinReal(p.burst as real, b.tokens + Yield(p, Elapsed(b.last, t)))
  }

  function Full(p: Params): Bucket { Bucket(p.burst as real, 0.0) }

  /** `Allow` at time t: takes a token when there is one, and otherwise leaves the bucket alone. */
  function Take(p: Params, b: Bucket, t: real): (Bucket, bool)
  {
    var tokens := Level(p, b, t);
    if tokens >= 1.0 then (Bucket(tokens - 1.0, t), true) else (b, false)
  }

  // ---- the limiter as a value ------------------------------------------------------------------

  datatype Slot = Slot(bucket: Bucket, lastUse: real)

  datatype Limiter = Limiter(perUser: map<nat, Slot>, fallback: Bucket)

  function Initial(p: Params): Limiter { Limiter(map[], Full(p)) }

  /** The bucket a request of this user meets: user 0 has the shared one. */
  function BucketOf(p: Params, l: Limiter, user: nat): Bucket
  {
    if user == 0 then l.fallback else if user in l.perUser then l.perUser[user].bucket else Full(p)
  }

  function Used(l: Limiter, user: nat, b: Bucket, t: real): Limiter
  {
    if user == 0 then l.(fallback := b) else l.(perUser := l.perUser[user := Slot(b, t)])
  }

  function Decide(p: Params, l: Limiter, user: nat, t: real): (Limiter, bool)
  {
    var (b, ok) := Take(p, BucketOf(p, l, user), t);
    (Used(l, user, b, t), ok)
  }

  function Collect(l: Limiter, ttl: real, t: real): Limiter
  {
    if ttl <= 0.0 then l
    else l.(perUser := l.perUser - set u | u in l.perUser && l.perUser[u].lastUse < t - ttl)
  }

  // ---- the limiter updated in place ------------------------------------------------------------

  /** `owner` is the user the bucket was made for, 0 for the shared one. */
  class TokenBucket {
    const p: Params
    ghost const owner: nat
    var tokens: real
    var last: real

    constructor (p: Params, ghost owner: nat)
      ensures this.p == p && this.owner == owner && View() == Full(p)
    {
      this.p := p;
      this.owner := owner;
      tokens := p.burst as real;
      last := 0.0;
    }

    function View(): Bucket
      reads this
    {
      Bucket(tokens, last)
    }

    method Allow(now: real) returns (ok: bool)
      modifies this
      ensures (View(), ok) == Take(p, old(View()), now)
    {
      hide Yield;
      var from := if now < last then now else last;
      assert now - from == Elapsed(last, now);
      var level := tokens + Yield(p, now - from);
      if level > p.burst as real {
        level := p.burst as real;
      }
      ok := level >= 1.0;
      if ok {
        tokens, last := level - 1.0, now;
      }
    }
  }

  class Entry {
    const limiter: TokenBucket
    var lastUse: real

    constructor (limiter: TokenBucket, lastUse: real)
      ensures this.limiter == limiter && this.lastUse == lastUse
    {
      this.limiter := limiter;
      this.lastUse := lastUse;
    }

    function View(): Slot
      reads this, limiter
    {
      Slot(limiter.View(), lastUse)
    }
  }

  class PerUserLimiter {
    const p: Params
    var perUser: map<nat, Entry>
    const fallback: TokenBucket
    ghost var Contents: Limiter
    ghost var Repr: set<object>

    constructor (rps: real, burst: int)
      ensures p == Params(rps, burst) && Valid() && fresh(Repr) && Contents == Initial(p)
    {
      var params := Params(rps, burst);
      p := params;
      perUser := map[];
      fallback := new TokenBucket(params, 0);
      new;
      Repr := {this, fallback};
      Contents := Initial(p);
    }

    /** The entry belongs to this limiter, and its bucket to this user. */
    ghost predicate Owned(u: nat, e: Entry)
      reads this
    {
      u != 0 && e in Repr && e.limiter in Repr && e.limiter.p == p && e.limiter.owner == u
    }

    /** Contents is what the entries hold; no two users share a bucket. */
    ghost predicate Valid()
      reads this, Repr
    {
      && this in Repr && fallback in Repr && fallback.p == p && fallback.owner == 0
      && Contents.fallback == fallback.View()
      && Contents.perUser.Keys == perUser.Keys
      && (forall u :: u in perUser ==> Owned(u, perUser[u]))
      && (forall u :: u in perUser ==> Contents.perUser[u] == perUser[u].View())
    }

    /** The user's bucket, with its time of last use recorded; a new one when there is none. */
    method Get(user: nat, now: real) returns (b: TokenBucket)
      requires Valid()
      modifies Repr
      ensures Valid() && fresh(Repr - old(Repr))
      ensures if user == 0 then b == fallback else user in perUser && b == perUser[user].limiter
      ensures b.View() == BucketOf(p, old(Contents), user)
      ensures Contents == if user == 0 then old(Contents) else Used(old(Contents), user, b.View(), now)
    {
      if user == 0 {
        return fallback;
      }
      if user !in perUser {
        Add(user, now);
      }
      b := Touch(user, now);
    }

    method Touch(user: nat, now: real) returns (b: TokenBucket)
      requires Valid() && user in perUser
      modifies this`Contents, perUser[user]
      ensures Valid() && b == perUser[user].limiter
      ensures b.View() == old(b.View()) == old(Contents).perUser[user].bucket
      ensures Contents == Used(old(Contents), user, b.View(), now)
    {
      var e := perUser[user];
      e.lastUse := now;
      b := e.limiter;
      Contents := Used(Contents, user, b.View(), now);
    }

    method Add(user: nat, now: real)
      requires Valid() && user != 0 && user !in perUser
      modifies this
      ensures Valid() && fresh(Repr - old(Repr))
      ensures Contents == Used(old(Contents), user, Full(p), now)
    {
      var limiter := new TokenBucket(p, user);
      var e := new Entry(limiter, now);
      perUser := perUser[user := e];
      Repr := Repr + {limiter, e};
      Contents := Used(Contents, user, Full(p), now);
    }

    /** One pass of the middleware: whether the request goes through. */
    method Request(user: nat, now: real) returns (ok: bool)
      requires Valid()
      modifies Repr
      ensures Valid() && fresh(Repr - old(Repr))
      ensures (Contents, ok) == Decide(p, old(Contents), user, now)
    {
      var b := Get(user, now);
      ok := b.Allow(now);
      UsedTwice(old(Contents), user, BucketOf(p, old(Contents), user), b.View(), now);
      Contents := Used(Contents, user, b.View(), now);
    }

    /** `gc`: drops the entries not used for longer than ttl. */
    method Gc(ttl: real, now: real)
      requires Valid()
      modifies this
      ensures Valid() && Repr == old(Repr)
      ensures Contents == Collect(old(Contents), ttl, now)
    {
      if ttl <= 0.0 {
        return;
      }
      var cutoff := now - ttl;
      Sweep(cutoff);
      Contents := Collect(Contents, ttl, now);
    }

    /** The loop of `gc`. */
    method Sweep(cutoff: real)
      modifies this`perUser
      ensures forall u :: u in perUser <==> u in old(perUser) && old(perUser)[u].lastUse >= cutoff
      ensures forall u :: u in perUser ==> perUser[u] == old(perUser)[u]
    {
      ghost var before := perUser;
      var keys := perUser.Keys;
      while keys != {}
        invariant keys <= perUser.Keys
        invariant forall u :: u in perUser ==> u in before && perUser[u] == before[u]
        invariant forall u :: u in before && u !in keys ==> (u in perUser <==> before[u].lastUse >= cutoff)
        invariant forall u :: u in keys ==> u in perUser
        decreases |keys|
      {
        var k :| k in keys;
        if perUser[k].lastUse < cutoff {
          perUser := perUser - {k};
        }
        keys := keys - {k};
      }
    }
  }

  lemma UsedTwice(l: Limiter, user: nat, a: Bucket, b: Bucket, t: real)
    ensures Used(Used(l, user, a, t), user, b, t) == Used(l, user, b, t)
  {
    assert l.perUser[user := Slot(a, t)][user := Slot(b, t)] == l.perUser[user := Slot(b, t)];
  }
}
