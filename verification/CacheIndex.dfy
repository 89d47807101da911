/** The task-list cache: its string keys, and reading, storing and invalidating entries. */
module CacheIndex {

  import opened Wrappers
  import opened Text
  import opened Entities
  import opened Filter

  /** A stored response and the last second at which it is still served. */
  datatype CacheEntry = CacheEntry(resp: TasksListResponse, expiry: int)

  type Cached = map<string, CacheEntry>

  /** Five minutes. */
  const TASK_LIST_CACHE_TTL := 300

  const LAST_PAGE := 100

  const KEY_HEAD := "task:list:team:"
  const KEY_STATUS := ":status:"
  const KEY_PAGE := ":page:"
  const ANY := "any"

  function StatusLabel(status: string): string { if status == "" then ANY else status }

  function KeyText(teamId: nat, tag: string, page: int): string
  {
    KEY_HEAD + PrintNat(teamId) + KEY_STATUS + tag + KEY_PAGE + PrintInt(page)
  }

  /** `taskListCacheKey`. */
  function Key(f: TaskFilter): string { KeyText(f.teamId, StatusLabel(f.status), f.page) }

  function Labels(): seq<string> { [ANY, TODO, IN_PROGRESS, DONE] }

  /** The n-th key Invalidate deletes: labels outside, pages 1..100 inside. */
  function DeletionKey(teamId: nat, n: nat): string
    requires n < 400
  {
    KeyText(teamId, Labels()[n / LAST_PAGE], n % LAST_PAGE + 1)
  }

  const KEYS_PER_TEAM := 400

  function DeletionKeys(teamId: nat, n: nat): set<string>
    requires n <= KEYS_PER_TEAM
  {
    set i | 0 <= i < n :: DeletionKey(teamId, i)
  }

  /** How many Del calls succeed before the one that stops the loop. */
  function DelsDone(failingDel: Option<nat>): nat
  {
    if failingDel.Some? && failingDel.value < KEYS_PER_TEAM then failingDel.value else KEYS_PER_TEAM
  }

  /** A failing Get, an absent entry and an expired one are all misses; so is a nil cache. */
  function Hit(cache: Option<Cached>, f: TaskFilter, now: int, fails: bool): Option<TasksListResponse>
  {
    if cache.None? || fails || Key(f) !in cache.value || cache.value[Key(f)].expiry < now then None
    else Some(cache.value[Key(f)].resp)
  }

  function Stored(cache: Option<Cached>, f: TaskFilter, resp: TasksListResponse, now: int, fails: bool)
    : Option<Cached>
  {
    if cache.None? || fails then cache
    else Some(cache.value[Key(f) := CacheEntry(resp, now + TASK_LIST_CACHE_TTL)])
  }

  function Invalidated(cache: Option<Cached>, teamId: nat, failingDel: Option<nat>): Option<Cached>
  {
    if cache.None? then None else Some(cache.value - DeletionKeys(teamId, DelsDone(failingDel)))
  }

  // ---- exactness of the keys -------------------------------------------------------------------

  predicate Keyed(f: TaskFilter) { f.status == "" || IsValidStatus(f.status) }

  lemma NoColon(n: nat)
    ensures ':' !in PrintNat(n)
  {
    PrintNatParses(n);
  }

  /** What follows the team number in a key. */
  function KeyTail(tag: string, page: int): string { "status:" + tag + KEY_PAGE + PrintInt(page) }

  lemma KeyTailInjective(l: string, p: int, l': string, p': int)
    requires ':' !in l && ':' !in l'
    requires KeyTail(l, p) == KeyTail(l', p')
    ensures l == l' && p == p'
  {
    var n, n' := PrintInt(p), PrintInt(p');
    var page, page' := "page:" + n, "page:" + n';
    assert KeyTail(l, p) == "status:" + (l + [':'] + page);
    assert KeyTail(l', p') == "status:" + (l' + [':'] + page');
    CancelPrefix("status:", l + [':'] + page, l' + [':'] + page');
    SplitAtDelimiter(':', l, page, l', page');
    CancelPrefix("page:", n, n');
    PrintIntInjective(p, p');
  }

  lemma KeyTextSplit(t: nat, l: string, p: int)
    ensures KeyText(t, l, p) == KEY_HEAD + (PrintNat(t) + [':'] + KeyTail(l, p))
  {
    var n, m := PrintNat(t), PrintInt(p);
    assert KEY_HEAD + n + KEY_STATUS + l + KEY_PAGE + m == KEY_HEAD + (n + [':'] + ("status:" + l + KEY_PAGE + m));
  }

  lemma KeyTextInjective(t: nat, l: string, p: int, t': nat, l': string, p': int)
    requires ':' !in l && ':' !in l'
    requires KeyText(t, l, p) == KeyText(t', l', p')
    ensures t == t' && l == l' && p == p'
  {
    var tail, tail' := KeyTail(l, p), KeyTail(l', p');
    KeyTextSplit(t, l, p);
    KeyTextSplit(t', l', p');
    CancelPrefix(KEY_HEAD, PrintNat(t) + [':'] + tail, PrintNat(t') + [':'] + tail');
    NoColon(t);
    NoColon(t');
    SplitAtDelimiter(':', PrintNat(t), tail, PrintNat(t'), tail');
    PrintNatInjective(t, t');
    KeyTailInjective(l, p, l', p');
  }

  lemma CancelPrefix(a: string, x: string, y: string)
    requires a + x == a + y
    ensures x == y
  {
    assert (a + x)[|a|..] == x && (a + y)[|a|..] == y;
  }

  lemma LabelExact(s: string)
    requires s == "" || IsValidStatus(s)
    ensures ':' !in StatusLabel(s)
    ensures StatusLabel(s) in Labels()
    ensures forall s' :: (s' == "" || IsValidStatus(s')) && StatusLabel(s') == StatusLabel(s) ==> s' == s
  {
    assert Labels()[0] == ANY && Labels()[1] == TODO && Labels()[2] == IN_PROGRESS && Labels()[3] == DONE;
    assert |ANY| == 3 && |TODO| == 4 && |DONE| == 4;
  }

  /** Two filters share a key exactly when they agree on team, status and page. */
  lemma KeyExact(f: TaskFilter, g: TaskFilter)
    requires Keyed(f) && Keyed(g)
    ensures Key(f) == Key(g) <==> f.teamId == g.teamId && f.status == g.status && f.page == g.page
  {
    LabelExact(f.status);
    LabelExact(g.status);
    if Key(f) == Key(g) {
      KeyTextInjective(f.teamId, StatusLabel(f.status), f.page, g.teamId, StatusLabel(g.status), g.page);
    }
  }

  function LabelNumber(status: string): nat
  {
    if status == "" then 0 else if status == TODO then 1 else if status == IN_PROGRESS then 2 else 3
  }

  /** Where in Invalidate's loops the key of a filter comes up, if its page does. */
  function Ordinal(f: TaskFilter): int { LabelNumber(f.status) * LAST_PAGE + f.page - 1 }

  /** The key comes up before the k-th Del, counted from 0. */
  predicate Covered(f: TaskFilter, k: nat) { 1 <= f.page <= LAST_PAGE && Ordinal(f) < k }

  lemma LabelNumbered(status: string)
    requires status == "" || IsValidStatus(status)
    ensures LabelNumber(status) < 4
    ensures forall i :: 0 <= i < 4 ==> (Labels()[i] == StatusLabel(status) <==> i == LabelNumber(status))
  {
    LabelExact(status);
    assert Labels()[0] == ANY && Labels()[1] == TODO && Labels()[2] == IN_PROGRESS && Labels()[3] == DONE;
    assert |ANY| == 3 && |TODO| == 4 && |DONE| == 4 && ANY != TODO && TODO != DONE;
  }

  /** The n-th Del drops a filter's key exactly when it is that team's and comes up there. */
  lemma DelExact(f: TaskFilter, teamId: nat, n: nat)
    requires Keyed(f) && n < KEYS_PER_TEAM
    ensures Key(f) == DeletionKey(teamId, n) <==> f.teamId == teamId && 1 <= f.page <= LAST_PAGE && Ordinal(f) == n
  {
    LabelNumbered(f.status);
    LabelExact(f.status);
    if f.teamId == teamId && 1 <= f.page <= LAST_PAGE && Ordinal(f) == n {
      assert n / LAST_PAGE == LabelNumber(f.status) && n % LAST_PAGE == f.page - 1;
    }
    if Key(f) == DeletionKey(teamId, n) {
      LabelsHaveNoColon(n / LAST_PAGE);
      KeyTextInjective(f.teamId, StatusLabel(f.status), f.page, teamId, Labels()[n / LAST_PAGE], n % LAST_PAGE + 1);
    }
  }

  /** The first k Dels of an invalidation reach a key exactly when it is that team's, its page is between 1 and 100, and
      it comes up before; for all of them that is every page from 1 to 100. */
  lemma DeletionExact(f: TaskFilter, teamId: nat, k: nat)
    requires Keyed(f) && k <= KEYS_PER_TEAM
    ensures Key(f) in DeletionKeys(teamId, k) <==> f.teamId == teamId && Covered(f, k)
    ensures Covered(f, KEYS_PER_TEAM) <==> 1 <= f.page <= LAST_PAGE
  {
    hide Key, DeletionKey;
    LabelNumbered(f.status);
    if f.teamId == teamId && Covered(f, k) {
      DelExact(f, teamId, Ordinal(f));
    }
    if Key(f) in DeletionKeys(teamId, k) {
      var i :| 0 <= i < k && Key(f) == DeletionKey(teamId, i);
      DelExact(f, teamId, i);
    }
  }

  lemma LabelsHaveNoColon(k: nat)
    requires k < 4
    ensures ':' !in Labels()[k]
  {
    LabelExact("");
    LabelExact(TODO);
    LabelExact(IN_PROGRESS);
    LabelExact(DONE);
  }
}
