/** The cache client and the task-list cache on top of it, updated in place. */
module CacheStore {

  import opened Wrappers
  import opened Text
  import opened Entities
  import opened Filter
  import opened CacheIndex

  class Cache {
    var entries: Cached

    constructor ()
      ensures entries == map[]
    {
      entries := map[];
    }

    /** A missing or expired key is a nil value without an error. */
    method Get(key: string, now: int, fails: bool) returns (r: Result<Option<TasksListResponse>>)
      ensures r == if fails then Err(Internal)
        else if key in entries && now <= entries[key].expiry then Ok(Some(entries[key].resp)) else Ok(None)
    {
      r := if fails then Err(Internal)
        else if key in entries && now <= entries[key].expiry then Ok(Some(entries[key].resp)) else Ok(None);
    }

    method Set(key: string, resp: TasksListResponse, now: int, ttl: int, fails: bool) returns (ok: bool)
      modifies this
      ensures ok == !fails
      ensures entries == if fails then old(entries) else old(entries)[key := CacheEntry(resp, now + ttl)]
    {
      ok := !fails;
      if ok {
        entries := entries[key := CacheEntry(resp, now + ttl)];
      }
    }

    method Del(key: string, fails: bool) returns (ok: bool)
      modifies this
      ensures ok == !fails
      ensures entries == if fails then old(entries) else old(entries) - {key}
    {
      ok := !fails;
      if ok {
        entries := entries - {key};
      }
    }
  }

  function View(c: Cache?): Option<Cached>
    reads c
  {
    if c == null then None else Some(c.entries)
  }

  /** What n successful Dels leave of the entries. */
  function Remaining(entries: Cached, teamId: nat, n: nat): Cached
    requires n <= KEYS_PER_TEAM
  {
    entries - DeletionKeys(teamId, n)
  }

  lemma NoneDeleted(entries: Cached, teamId: nat)
    ensures Remaining(entries, teamId, 0) == entries
  {
  }

  lemma OneMoreDeleted(entries: Cached, teamId: nat, i: nat, page: nat)
    requires i < 4 && 1 <= page <= LAST_PAGE
    ensures var n := i * LAST_PAGE + page - 1;
      Remaining(entries, teamId, n + 1) == Remaining(entries, teamId, n) - {KeyText(teamId, Labels()[i], page)}
  {
    hide KeyText, Labels;
    var n := i * LAST_PAGE + page - 1;
    assert n / LAST_PAGE == i && n % LAST_PAGE == page - 1;
    assert DeletionKeys(teamId, n + 1) == DeletionKeys(teamId, n) + {DeletionKey(teamId, n)};
  }

  /** `taskListCache`; a nil cache is allowed and always misses. */
  class TaskListCache {
    const cache: Cache?

    constructor (cache: Cache?)
      ensures this.cache == cache
    {
      this.cache := cache;
    }

    method Get(f: TaskFilter, now: int, fails: bool) returns (hit: Option<TasksListResponse>)
      ensures hit == Hit(View(cache), f, now, fails)
    {
      if cache == null {
        return None;
      }
      var r := cache.Get(Key(f), now, fails);
      hit := if r.Err? then None else r.value;
    }

    method Store(f: TaskFilter, resp: TasksListResponse, now: int, fails: bool)
      modifies cache
      ensures View(cache) == Stored(old(View(cache)), f, resp, now, fails)
    {
      if cache != null {
        var _ := cache.Set(Key(f), resp, now, TASK_LIST_CACHE_TTL, fails);
      }
    }

    /** The nested deletion loops, stopping at the first Del that fails. */
    method Invalidate(teamId: nat, failingDel: Option<nat>) returns (ok: bool)
      modifies cache
      ensures View(cache) == Invalidated(old(View(cache)), teamId, failingDel)
      ensures ok == (cache == null || failingDel.None? || failingDel.value >= KEYS_PER_TEAM)
    {
      if cache == null {
        return true;
      }
      ghost var before := cache.entries;
      NoneDeleted(before, teamId);
      var labels := Labels();
      for i := 0 to 4
        invariant failingDel.None? || failingDel.value >= i * LAST_PAGE
        invariant cache.entries == Remaining(before, teamId, i * LAST_PAGE)
      {
        for page := 1 to LAST_PAGE + 1
          invariant failingDel.None? || failingDel.value >= i * LAST_PAGE + page - 1
          invariant cache.entries == Remaining(before, teamId, i * LAST_PAGE + page - 1)
        {
          OneMoreDeleted(before, teamId, i, page);
          var key := KeyText(teamId, labels[i], page);
          var deleted := cache.Del(key, failingDel == Some(i * LAST_PAGE + page - 1));
          if !deleted {
            return false;
          }
        }
      }
      ok := true;
    }
  }
}
