/** Query-string binding, clamping and pagination arithmetic. */
module Filter {

  import opened Wrappers
  import opened Text
  import opened Entities

  const DEFAULT_PAGE_LIMIT := 20
  const MAX_PAGE_LIMIT := 100
  const MIN_PAGE_LIMIT := 1

  /** Two's-complement wrap-around of a 64-bit `int`. */
  function Wrap64(x: int): int
  {
    (x + INT64_LIMIT) % UINT64_LIMIT - INT64_LIMIT
  }

  function Offset(f: TaskFilter): int { Wrap64((f.page - 1) * f.limit) }

  /** What the handlers can pass to the service. */
  predicate ValidFilter(f: TaskFilter)
  {
    && f.teamId < UINT64_LIMIT
    && (f.assigneeId.Some? ==> f.assigneeId.value < UINT64_LIMIT)
    && (f.status == "" || IsValidStatus(f.status))
    && 1 <= f.page < INT64_LIMIT
    && MIN_PAGE_LIMIT <= f.limit <= MAX_PAGE_LIMIT
  }

  function OrElse<T>(o: Option<T>, d: T): T
  {
    if o.Some? then o.value else d
  }

  function Clamp(x: int): int
  {
    if x > MAX_PAGE_LIMIT then MAX_PAGE_LIMIT else if x < MIN_PAGE_LIMIT then MIN_PAGE_LIMIT else x
  }

  function Bound(get: string -> string): TaskFilter
  {
    var page := Atoi(get("page"));
    var limit := Atoi(get("limit"));
    TaskFilter(
      OrElse(ParseUint(get("team_id")), 0),
      OrElse(ParseTaskStatus(get("status")), ""),
      ParseUint(get("assignee_id")),
      if page.Some? && page.value > 0 then page.value else 1,
      Clamp(if limit.Some? && limit.value >= 0 then limit.value else DEFAULT_PAGE_LIMIT))
  }

  /** `BindTaskFilter`: defaults first, then each parameter that parses overrides its field, then the clamp. */
  method BindTaskFilter(get: string -> string) returns (f: TaskFilter)
    ensures f == Bound(get)
  {
    EmptyDoesNotParse();
    ghost var r := Bound(get);
    f := TaskFilter(0, "", None, 1, DEFAULT_PAGE_LIMIT);
    var v := get("team_id");
    if v != "" {
      var id := ParseUint(v);
      if id.Some? { f := f.(teamId := id.value); }
    }
    assert f == TaskFilter(r.teamId, "", None, 1, DEFAULT_PAGE_LIMIT);
    v := get("assignee_id");
    if v != "" {
      var id := ParseUint(v);
      if id.Some? { f := f.(assigneeId := id); }
    }
    assert f == TaskFilter(r.teamId, "", r.assigneeId, 1, DEFAULT_PAGE_LIMIT);
    v := get("status");
    if v != "" {
      var s := ParseTaskStatus(v);
      if s.Some? { f := f.(status := s.value); }
    }
    assert f == TaskFilter(r.teamId, r.status, r.assigneeId, 1, DEFAULT_PAGE_LIMIT);
    v := get("page");
    if v != "" {
      var p := Atoi(v);
      if p.Some? && p.value > 0 { f := f.(page := p.value); }
    }
    assert f == r.(limit := DEFAULT_PAGE_LIMIT);
    v := get("limit");
    if v != "" {
      var l := Atoi(v);
      if l.Some? && l.value >= 0 { f := f.(limit := l.value); }
    }
    assert f.(limit := Clamp(f.limit)) == r;
    if f.limit > MAX_PAGE_LIMIT { f := f.(limit := MAX_PAGE_LIMIT); }
    if f.limit < MIN_PAGE_LIMIT { f := f.(limit := MIN_PAGE_LIMIT); }
  }

  lemma EmptyDoesNotParse()
    ensures ParseUint("") == None && Atoi("") == None && ParseTaskStatus("") == None
  {
    assert Lower("") == "";
  }

  lemma AtoiFits(s: string)
    ensures Atoi(s).Some? ==> -INT64_LIMIT <= Atoi(s).value < INT64_LIMIT
  {
  }

  /** Binding establishes the bounds for every query string, parseable or not. */
  lemma BoundIsValid(get: string -> string)
    ensures ValidFilter(Bound(get)) && 1 <= Bound(get).limit <= 100
  {
    AtoiFits(get("page"));
    ParseTaskStatusCanonical(get("status"));
  }

  /** What each parameter comes to, in numbers: the limit is 20 unless a number that is not negative is asked for, which
      is cut to 1..100; the page is 1 unless a positive one is asked for; a team, assignee or status that does not parse
      is none. */
  lemma BoundExact(get: string -> string, n: int)
    ensures var limit := Atoi(get("limit")); var f := Bound(get);
      && (limit.None? || limit.value < 0 ==> f.limit == 20)
      && (limit == Some(n) && 1 <= n <= 100 ==> f.limit == n)
      && (limit == Some(0) ==> f.limit == 1)
      && (limit == Some(n) && n > 100 ==> f.limit == 100)
    ensures var page := Atoi(get("page"));
      Bound(get).page == n <==> n >= 1 && (page == Some(n) || (n == 1 && (page.None? || page.value < 1)))
    ensures var team := ParseUint(get("team_id"));
      Bound(get).teamId == n <==> (team == Some(n) || (team.None? && n == 0))
    ensures Bound(get).assigneeId == ParseUint(get("assignee_id"))
    ensures forall status :: status != "" ==>
      (Bound(get).status == status <==> ParseTaskStatus(get("status")) == Some(status))
  {
  }

  /** The query string a client writes for a filter. */
  ghost predicate Renders(get: string -> string, f: TaskFilter)
  {
    && get("team_id") == PrintNat(f.teamId)
    && get("assignee_id") == (if f.assigneeId.Some? then PrintNat(f.assigneeId.value) else "")
    && get("status") == f.status
    && get("page") == PrintInt(f.page)
    && get("limit") == PrintInt(f.limit)
  }

  /** Every valid filter can be asked for: binding its rendering gives it back. */
  lemma BindRoundTrip(get: string -> string, f: TaskFilter)
    requires ValidFilter(f) && Renders(get, f)
    ensures Bound(get) == f
  {
    EmptyDoesNotParse();
    PrintParseRoundTrip(f.teamId);
    if f.assigneeId.Some? { PrintParseRoundTrip(f.assigneeId.value); }
    PrintParseRoundTrip(f.page);
    PrintParseRoundTrip(f.limit);
    ParseTaskStatusCanonical(f.status);
  }

  /** For bound filters the offset is exact unless it overflows, and then it is not. */
  lemma OffsetExactIff(f: TaskFilter)
    requires ValidFilter(f)
    ensures Offset(f) == (f.page - 1) * f.limit <==> (f.page - 1) * f.limit < INT64_LIMIT
  {
    assert 0 <= (f.page - 1) * f.limit;
    WrapExact((f.page - 1) * f.limit);
  }

  lemma WrapExact(x: int)
    requires 0 <= x
    ensures Wrap64(x) == x <==> x < INT64_LIMIT
  {
  }

  // ---- pages -----------------------------------------------------------------------------------

  function Min(a: int, b: int): int { if a < b then a else b }

  function Max(a: int, b: int): int { if a < b then b else a }

  /** `LIMIT limit OFFSET offset` applied to an ordered result. */
  function Page<T>(all: seq<T>, offset: nat, limit: nat): seq<T>
  {
    all[Min(offset, |all|)..Min(offset + limit, |all|)]
  }

  /** Pages 1..p one after another. */
  function Pages<T>(all: seq<T>, limit: nat, p: nat): seq<T>
  {
    if p == 0 then [] else Pages(all, limit, p - 1) + Page(all, (p - 1) * limit, limit)
  }

  /** The number of pages that hold anything. */
  function PageCount(total: nat, limit: nat): nat
    requires limit > 0
  {
    (total + limit - 1) / limit
  }

  lemma {:induction false} PagesArePrefix<T>(all: seq<T>, limit: nat, p: nat)
    ensures p * limit >= 0
    ensures Pages(all, limit, p) == all[..Min(p * limit, |all|)]
  {
    if p == 0 {
    } else {
      PagesArePrefix(all, limit, p - 1);
      assert (p - 1) * limit + limit == p * limit;
    }
  }

  /** Nothing is missed or repeated over the pages that count, and later pages are empty. */
  lemma PagesPartition<T>(all: seq<T>, limit: nat, p: nat)
    requires limit > 0
    ensures Pages(all, limit, PageCount(|all|, limit)) == all
    ensures p > PageCount(|all|, limit) ==> (p - 1) * limit >= |all| && Page(all, (p - 1) * limit, limit) == []
  {
    var n := PageCount(|all|, limit);
    CeilDiv(|all|, limit);
    PagesArePrefix(all, limit, n);
    if p > n {
      MulMonotone(n, p - 1, limit);
    }
  }

  lemma MulMonotone(a: nat, b: nat, c: nat)
    requires a <= b
    ensures a * c <= b * c
  {
  }

  lemma CeilDiv(total: nat, limit: nat)
    requires limit > 0
    ensures total <= PageCount(total, limit) * limit
  {
    var q, r := (total + limit - 1) / limit, (total + limit - 1) % limit;
    assert total + limit - 1 == q * limit + r;
  }
}
