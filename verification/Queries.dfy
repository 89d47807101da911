/** The statements the task repository compiles, and that executing their text means what the filter or patch says. */
module Queries {

  import opened Wrappers
  import opened Text
  import opened Entities
  import opened Filter
  import opened Tables
  import opened Sql

  // ---- filters ---------------------------------------------------------------------------------

  /** The conditions of a filter, in the order they are appended. */
  function FilterTerms(f: TaskFilter): seq<Term>
  {
    (if f.teamId != 0 then [EqArg("team_id", VInt(f.teamId))] else []) +
    (if f.status != "" then [EqArg("status", VStr(f.status))] else []) +
    (if f.assigneeId.Some? then [EqArg("assignee_id", VInt(f.assigneeId.value))] else []) +
    [IsNull("deleted_at")]
  }

  lemma FilterTermsNamed(f: TaskFilter)
    ensures FilterTerms(f) != [] && AllWellNamed(FilterTerms(f))
  {
    assert WellNamed("team_id") && WellNamed("status") && WellNamed("assignee_id") && WellNamed("deleted_at");
  }

  lemma AllHoldConcat(a: seq<Term>, b: seq<Term>, t: Task)
    ensures AllHold(a + b, t) <==> AllHold(a, t) && AllHold(b, t)
  {
    if AllHold(a + b, t) {
      assert forall i :: 0 <= i < |a| ==> (a + b)[i] == a[i];
      assert forall i :: 0 <= i < |b| ==> (a + b)[|a| + i] == b[i];
    }
  }

  lemma AllHoldOne(a: seq<Term>, t: Task)
    requires |a| <= 1
    ensures AllHold(a, t) <==> a == [] || Holds(a[0], t)
  {
  }

  /** The conditions hold of exactly the live tasks the filter matches. */
  lemma FilterTermsMean(f: TaskFilter, t: Task)
    ensures AllHold(FilterTerms(f), t) <==> Matches(f, t)
  {
    var c1 := if f.teamId != 0 then [EqArg("team_id", VInt(f.teamId))] else [];
    var c2 := if f.status != "" then [EqArg("status", VStr(f.status))] else [];
    var c3 := if f.assigneeId.Some? then [EqArg("assignee_id", VInt(f.assigneeId.value))] else [];
    var c4 := [IsNull("deleted_at")];
    AllHoldConcat(c1, c2, t);
    AllHoldConcat(c1 + c2, c3, t);
    AllHoldConcat(c1 + c2 + c3, c4, t);
    AllHoldOne(c1, t);
    AllHoldOne(c2, t);
    AllHoldOne(c3, t);
    AllHoldOne(c4, t);
    assert FilterTerms(f) == c1 + c2 + c3 + c4;
  }

  function WhereText(f: TaskFilter): string { "WHERE " + Join(Texts(FilterTerms(f)), " AND ") }

  /** The condition and assignment texts as the source spells them. */
  lemma ArgTexts()
    ensures "team_id" + " = ?" == "team_id = ?"
    ensures "status" + " = ?" == "status = ?"
    ensures "assignee_id" + " = ?" == "assignee_id = ?"
    ensures "title" + " = ?" == "title = ?"
    ensures "description" + " = ?" == "description = ?"
  {
  }

  lemma ConstantTexts()
    ensures TermText(IsNull("deleted_at")) == "deleted_at IS NULL"
    ensures TermText(EqNull("assignee_id")) == "assignee_id = NULL"
    ensures TermText(EqNow("updated_at")) == "updated_at = CURRENT_TIMESTAMP"
    ensures TermText(EqNow("deleted_at")) == "deleted_at = CURRENT_TIMESTAMP"
  {
  }

  lemma Appended(ts: seq<Term>, col: string, v: Value)
    ensures Texts(ts + [EqArg(col, v)]) == Texts(ts) + [col + " = ?"]
    ensures Args(ts + [EqArg(col, v)]) == Args(ts) + [v]
  {
    AppendTerm(ts, EqArg(col, v));
  }

  lemma SelectByTerms(rows: Rows, next: nat, f: TaskFilter)
    ensures Select(rows, next, t => AllHold(FilterTerms(f), t)) == Select(rows, next, t => Matches(f, t))
  {
    forall t ensures AllHold(FilterTerms(f), t) == Matches(f, t) { FilterTermsMean(f, t); }
    SelectSame(rows, next, t => AllHold(FilterTerms(f), t), t => Matches(f, t));
  }

  lemma SelectRead(rows: Rows, next: nat, clause: string, args: seq<Value>, ts: seq<Term>, limit: int, offset: int)
    requires ReadTerms(" AND ", clause, args) == Some(ReadMany(ts, LIST_TAIL, [VInt(limit), VInt(offset)]))
    ensures RunSelect(rows, next, "WHERE " + clause, args) ==
      if limit < 0 || offset < 0 then None
      else Some(Page(Select(rows, next, t => AllHold(ts, t)), offset, limit))
  {
    assert ("WHERE " + clause)[6..] == clause;
  }

  lemma CountRead(rows: Rows, next: nat, clause: string, args: seq<Value>, ts: seq<Term>)
    requires ReadTerms(" AND ", clause, args) == Some(ReadMany(ts, "", []))
    ensures RunCount(rows, next, "WHERE " + clause, args) == Some(|Select(rows, next, t => AllHold(ts, t))|)
  {
    assert ("WHERE " + clause)[6..] == clause;
  }

  /** List's text, read left to right with its arguments and then LIMIT and OFFSET, selects the filter's page. */
  lemma ListQueryMeans(rows: Rows, next: nat, f: TaskFilter, limit: int, offset: int)
    ensures RunSelect(rows, next, WhereText(f) + LIST_TAIL, Args(FilterTerms(f)) + [VInt(limit), VInt(offset)]) ==
      if limit < 0 || offset < 0 then None
      else Some(Page(Select(rows, next, t => Matches(f, t)), offset, limit))
  {
    var ts, args := FilterTerms(f), Args(FilterTerms(f)) + [VInt(limit), VInt(offset)];
    var clause := Join(Texts(ts), " AND ") + LIST_TAIL;
    FilterTermsNamed(f);
    assert !(" AND " <= LIST_TAIL) by { assert LIST_TAIL[0] != ' '; }
    ReadTermsBack(" AND ", ts, LIST_TAIL, [VInt(limit), VInt(offset)]);
    SelectRead(rows, next, clause, args, ts, limit, offset);
    assert WhereText(f) + LIST_TAIL == "WHERE " + clause;
    SelectByTerms(rows, next, f);
  }

  /** Count's clause selects the same tasks as List's. */
  lemma CountQueryMeans(rows: Rows, next: nat, f: TaskFilter)
    ensures RunCount(rows, next, WhereText(f), Args(FilterTerms(f))) ==
      Some(|Select(rows, next, t => Matches(f, t))|)
  {
    var ts := FilterTerms(f);
    var clause := Join(Texts(ts), " AND ");
    FilterTermsNamed(f);
    ReadTermsBack(" AND ", ts, "", []);
    assert clause + "" == clause && Args(ts) + [] == Args(ts);
    CountRead(rows, next, clause, Args(ts), ts);
    SelectByTerms(rows, next, f);
  }

  /** As many placeholders as arguments. */
  lemma FilterPlaceholders(f: TaskFilter)
    ensures Placeholders(WhereText(f)) == |Args(FilterTerms(f))|
  {
    FilterTermsNamed(f);
    JoinIsClause(FilterTerms(f), " AND ");
    ClausePlaceholders(" AND ", FilterTerms(f));
    NoPlaceholders("WHERE ");
    PlaceholdersConcat("WHERE ", Join(Texts(FilterTerms(f)), " AND "));
  }

  // ---- patches ---------------------------------------------------------------------------------

  /** The assignments of a patch, in the order they are appended. */
  function PatchTerms(p: TaskPatch): seq<Term>
  {
    (if p.title.Some? then [EqArg("title", VStr(p.title.value))] else []) +
    (if p.description.Some? then [EqArg("description", VStr(p.description.value))] else []) +
    (if p.status.Some? then [EqArg("status", VStr(p.status.value))] else []) +
    (if p.clearAssignee then [EqNull("assignee_id")]
     else if p.assigneeId.Some? then [EqArg("assignee_id", VInt(p.assigneeId.value))]
     else []) +
    [EqNow("updated_at")]
  }

  lemma PatchTermsNamed(p: TaskPatch)
    ensures PatchTerms(p) != [] && AllWellNamed(PatchTerms(p))
    ensures Assigns(PatchTerms(p), "updated_at")
  {
    assert WellNamed("title") && WellNamed("description") && WellNamed("status") && WellNamed("assignee_id");
    assert WellNamed("updated_at");
    assert PatchTerms(p)[|PatchTerms(p)| - 1].col == "updated_at";
  }

  lemma AssignMore(terms: seq<Term>, more: seq<Term>, t: Task, now: int)
    requires |more| <= 1 && Assign(terms, t, now).Some?
    ensures Assign(terms + more, t, now) ==
      if more == [] then Assign(terms, t, now) else AssignOne(more[0], Assign(terms, t, now).value, now)
  {
    if more == [] {
      assert terms + more == terms;
    } else {
      assert (terms + more)[..|terms + more| - 1] == terms;
    }
  }

  lemma SetText(t: Task, s: string)
    ensures SetColumn(t, "title", VStr(s)) == Some(t.(title := s))
    ensures SetColumn(t, "description", VStr(s)) == Some(t.(description := Some(s)))
    ensures SetColumn(t, "status", VStr(s)) == Some(t.(status := s))
  {
  }

  lemma SetOther(t: Task, a: nat, now: int)
    ensures SetColumn(t, "assignee_id", VInt(a)) == Some(t.(assigneeId := Some(a)))
    ensures SetColumn(t, "assignee_id", VNull) == Some(t.(assigneeId := None))
    ensures SetColumn(t, "updated_at", VInt(now)) == Some(t.(updatedAt := now))
  {
  }

  lemma TextTermsMean(p: TaskPatch, t: Task, now: int)
    ensures var c1 := if p.title.Some? then [EqArg("title", VStr(p.title.value))] else [];
      var c2 := if p.description.Some? then [EqArg("description", VStr(p.description.value))] else [];
      var c3 := if p.status.Some? then [EqArg("status", VStr(p.status.value))] else [];
      Assign(c1 + c2 + c3, t, now) == Some(t.(
        title := OrElse(p.title, t.title),
        description := if p.description.Some? then p.description else t.description,
        status := OrElse(p.status, t.status)))
  {
    var c1 := if p.title.Some? then [EqArg("title", VStr(p.title.value))] else [];
    var c2 := if p.description.Some? then [EqArg("description", VStr(p.description.value))] else [];
    var c3 := if p.status.Some? then [EqArg("status", VStr(p.status.value))] else [];
    var t1 := t.(title := OrElse(p.title, t.title));
    var t2 := t1.(description := if p.description.Some? then p.description else t.description);
    if p.title.Some? { SetText(t, p.title.value); }
    if p.description.Some? { SetText(t1, p.description.value); }
    if p.status.Some? { SetText(t2, p.status.value); }
    AssignMore([], c1, t, now);
    assert [] + c1 == c1;
    AssignMore(c1, c2, t, now);
    AssignMore(c1 + c2, c3, t, now);
  }

  /** Executing the assignments applies the patch. */
  lemma PatchTermsMean(p: TaskPatch, t: Task, now: int)
    ensures Assign(PatchTerms(p), t, now) == Some(ApplyPatch(t, p, now))
  {
    var c1 := if p.title.Some? then [EqArg("title", VStr(p.title.value))] else [];
    var c2 := if p.description.Some? then [EqArg("description", VStr(p.description.value))] else [];
    var c3 := if p.status.Some? then [EqArg("status", VStr(p.status.value))] else [];
    var c4 := if p.clearAssignee then [EqNull("assignee_id")]
      else if p.assigneeId.Some? then [EqArg("assignee_id", VInt(p.assigneeId.value))] else [];
    TextTermsMean(p, t, now);
    var t3 := Assign(c1 + c2 + c3, t, now).value;
    SetOther(t3, OrElse(p.assigneeId, 0), now);
    AssignMore(c1 + c2 + c3, c4, t, now);
    var t4 := Assign(c1 + c2 + c3 + c4, t, now).value;
    SetOther(t4, 0, now);
    AssignMore(c1 + c2 + c3 + c4, [EqNow("updated_at")], t, now);
    assert PatchTerms(p) == c1 + c2 + c3 + c4 + [EqNow("updated_at")];
  }

  /** `id = ? AND deleted_at IS NULL`. */
  function LiveTerms(id: nat): seq<Term> { [EqArg("id", VInt(id)), IsNull("deleted_at")] }

  const LIVE_TEXT := "id = ?" + " AND " + "deleted_at IS NULL"

  lemma LiveTextWritten(id: nat)
    ensures Join(Texts(LiveTerms(id)), " AND ") == LIVE_TEXT
    ensures Args(LiveTerms(id)) == [VInt(id)]
    ensures AllWellNamed(LiveTerms(id))
  {
    var a, b := EqArg("id", VInt(id)), IsNull("deleted_at");
    var ts := [a, b];
    assert TermText(a) == "id = ?";
    assert TermText(b) == "deleted_at IS NULL";
    JoinFirst(TermText(a), [TermText(b)], " AND ");
    assert Texts(ts) == [TermText(a)] + [TermText(b)];
    assert ts[1..] == [b] && [b][1..] == [];
    assert Args([b]) == TermArgs(b) + Args([b][1..]) == [];
    assert Args(ts) == TermArgs(a) + Args(ts[1..]) == [VInt(id)];
    assert WellNamed("id") && WellNamed("deleted_at");
  }

  lemma JoinFirst(first: string, others: seq<string>, sep: string)
    requires others != []
    ensures Join([first] + others, sep) == first + sep + Join(others, sep)
  {
    assert ([first] + others)[1..] == others;
  }

  function UpdateText(terms: seq<Term>): string
  {
    "UPDATE tasks SET " + Join(Texts(terms), ", ") + " WHERE " + LIVE_TEXT
  }

  lemma UpdateReadParts(rows: Rows, next: nat, clause: string, args: seq<Value>, terms: seq<Term>, conds: seq<Term>,
                        condText: string, more: seq<Value>, now: int)
    requires ReadTerms(", ", clause, args) == Some(ReadMany(terms, " WHERE " + condText, more))
    requires ReadTerms(" AND ", condText, more) == Some(ReadMany(conds, "", []))
    ensures RunUpdate(rows, next, "UPDATE tasks SET " + clause, args, now) == ApplyUpdate(rows, next, terms, conds, now)
  {
    assert ("UPDATE tasks SET " + clause)[17..] == clause;
    assert (" WHERE " + condText)[7..] == condText;
  }

  lemma UpdateTextParts(terms: seq<Term>)
    ensures UpdateText(terms) == "UPDATE tasks SET " + (Join(Texts(terms), ", ") + (" WHERE " + LIVE_TEXT))
  {
    Associate("UPDATE tasks SET ", Join(Texts(terms), ", "), " WHERE ", LIVE_TEXT);
  }

  lemma Associate(a: string, b: string, c: string, d: string)
    ensures a + b + c + d == a + (b + (c + d))
  {
  }

  lemma NoComma(x: string)
    ensures !(", " <= " WHERE " + x)
  {
    assert (" WHERE " + x)[0] == ' ';
  }

  /** The text of an update of one live row is read back as its terms and its condition. */
  lemma UpdateRead(rows: Rows, next: nat, terms: seq<Term>, id: nat, now: int)
    requires terms != [] && AllWellNamed(terms)
    ensures RunUpdate(rows, next, UpdateText(terms), Args(terms) + [VInt(id)], now) ==
      ApplyUpdate(rows, next, terms, LiveTerms(id), now)
  {
    NoComma(LIVE_TEXT);
    ReadTermsBack(", ", terms, " WHERE " + LIVE_TEXT, [VInt(id)]);
    LiveReadBack(id);
    UpdateReadParts(rows, next, Join(Texts(terms), ", ") + (" WHERE " + LIVE_TEXT), Args(terms) + [VInt(id)], terms,
                    LiveTerms(id), LIVE_TEXT, [VInt(id)], now);
    UpdateTextParts(terms);
  }

  lemma LiveReadBack(id: nat)
    ensures ReadTerms(" AND ", LIVE_TEXT, [VInt(id)]) == Some(ReadMany(LiveTerms(id), "", []))
  {
    LiveTextWritten(id);
    ReadTermsBack(" AND ", LiveTerms(id), "", []);
    assert Join(Texts(LiveTerms(id)), " AND ") + "" == LIVE_TEXT;
    assert Args(LiveTerms(id)) + [] == [VInt(id)];
  }

  lemma LiveTermsHold(id: nat, t: Task)
    ensures AllHold(LiveTerms(id), t) <==> t.id == id && t.Live()
  {
    AllHoldConcat([EqArg("id", VInt(id))], [IsNull("deleted_at")], t);
    AllHoldOne([EqArg("id", VInt(id))], t);
    AllHoldOne([IsNull("deleted_at")], t);
    assert LiveTerms(id) == [EqArg("id", VInt(id))] + [IsNull("deleted_at")];
  }

  /** The update of one row by terms that turn it into `after` when it is live. */
  lemma LiveUpdate(rows: Rows, next: nat, terms: seq<Term>, id: nat, now: int, after: Task)
    requires forall i :: i in rows ==> rows[i].id == i < next
    requires IsLive(rows, id) ==>
      Assign(terms, rows[id], now).Some? && Touch(terms, rows[id], Assign(terms, rows[id], now).value, now) == after
    ensures ApplyUpdate(rows, next, terms, LiveTerms(id), now) ==
      Some(if IsLive(rows, id) then Updated(rows[id := after], {id}) else Updated(rows, {}))
  {
    forall i | i in rows ensures AllHold(LiveTerms(id), rows[i]) <==> i == id && rows[i].Live() {
      LiveTermsHold(id, rows[i]);
    }
    var matched := set i | i in rows && i < next && AllHold(LiveTerms(id), rows[i]);
    assert matched == if IsLive(rows, id) then {id} else {};
    UpdateOne(rows, next, terms, id, matched, now);
    assert ApplyUpdate(rows, next, terms, LiveTerms(id), now) ==
      Some(Updated(UpdateMatched(rows, next, terms, matched, now), matched));
  }

  /** At most one row is matched. */
  lemma {:induction false} UpdateOne(rows: Rows, n: nat, terms: seq<Term>, id: nat, matched: set<nat>, now: int)
    requires matched <= {id} && (id in matched ==> id in rows && Assign(terms, rows[id], now).Some?)
    ensures UpdateMatched(rows, n, terms, matched, now) ==
      if id in matched && id < n then rows[id := Touch(terms, rows[id], Assign(terms, rows[id], now).value, now)]
      else rows
  {
    if n > 0 {
      UpdateOne(rows, n - 1, terms, id, matched, now);
    }
  }

  /** UpdateTx's statement, executed: a live row takes the patch, and nothing else happens. */
  lemma PatchQueryMeans(rows: Rows, next: nat, p: TaskPatch, id: nat, now: int)
    requires forall i :: i in rows ==> rows[i].id == i < next
    ensures RunUpdate(rows, next, UpdateText(PatchTerms(p)), Args(PatchTerms(p)) + [VInt(id)], now) ==
      Some(if IsLive(rows, id) then Updated(rows[id := ApplyPatch(rows[id], p, now)], {id}) else Updated(rows, {}))
  {
    PatchTermsNamed(p);
    UpdateRead(rows, next, PatchTerms(p), id, now);
    if IsLive(rows, id) {
      PatchTermsMean(p, rows[id], now);
      LiveUpdate(rows, next, PatchTerms(p), id, now, ApplyPatch(rows[id], p, now));
    } else {
      LiveUpdate(rows, next, PatchTerms(p), id, now, Task(0, 0, "", None, "", None, 0, 0, 0, None));
    }
  }

  /** SoftDelete's statement, executed: a live row is marked deleted. */
  lemma DeleteQueryMeans(rows: Rows, next: nat, id: nat, now: int)
    requires forall i :: i in rows ==> rows[i].id == i < next
    ensures RunUpdate(rows, next, UpdateText([EqNow("deleted_at")]), [VInt(id)], now) ==
      Some(if IsLive(rows, id) then Updated(rows[id := Deleted(rows[id], now)], {id}) else Updated(rows, {}))
  {
    var terms := [EqNow("deleted_at")];
    assert WellNamed("deleted_at");
    assert terms[1..] == [] && Args(terms) + [VInt(id)] == [VInt(id)];
    UpdateRead(rows, next, terms, id, now);
    if IsLive(rows, id) {
      MarkDeleted(rows[id], now);
      LiveUpdate(rows, next, terms, id, now, Deleted(rows[id], now));
    } else {
      LiveUpdate(rows, next, terms, id, now, Task(0, 0, "", None, "", None, 0, 0, 0, None));
    }
  }

  lemma MarkDeleted(t: Task, now: int)
    requires t.Live()
    ensures var terms := [EqNow("deleted_at")];
      Assign(terms, t, now).Some? && Touch(terms, t, Assign(terms, t, now).value, now) == Deleted(t, now)
  {
    var terms := [EqNow("deleted_at")];
    assert terms[..0] == [];
    assert SetColumn(t, "deleted_at", VInt(now)) == Some(t.(deletedAt := Some(now)));
    assert !Assigns(terms, "updated_at");
  }

  // ---- pagination ------------------------------------------------------------------------------

  /** For a fixed store and filter, the pages that Total promises hold every match once, in ascending id order, and
      every later page is empty. */
  lemma PaginationPartition(db: Db, f: TaskFilter, p: nat)
    requires forall id :: id in db.tasks ==> db.tasks[id].id == id < db.nextTask
    requires ValidFilter(f)
    ensures var all := Matching(db, f);
      && Pages(all, f.limit, PageCount(|all|, f.limit)) == all
      && Ascending(all) && (forall t :: t in all <==> t.id in db.tasks && db.tasks[t.id] == t && Matches(f, t))
    ensures p > PageCount(|Matching(db, f)|, f.limit) && (p - 1) * f.limit < INT64_LIMIT ==>
      ListRows(db, f.(page := p)) == Ok([])
    ensures p >= 1 && (p - 1) * f.limit < INT64_LIMIT ==>
      (p - 1) * f.limit >= 0 &&
      ListRows(db, f.(page := p)) == Ok(Page(Matching(db, f), (p - 1) * f.limit, f.limit))
  {
    var all := Matching(db, f);
    PagesPartition(all, f.limit, p);
    SelectExact(db.tasks, db.nextTask, t => Matches(f, t));
    if p >= 1 && (p - 1) * f.limit < INT64_LIMIT {
      SamePages(db, f, p);
    }
  }

  lemma SamePages(db: Db, f: TaskFilter, p: nat)
    requires ValidFilter(f) && p >= 1 && (p - 1) * f.limit < INT64_LIMIT
    ensures (p - 1) * f.limit >= 0
    ensures ListRows(db, f.(page := p)) == Ok(Page(Matching(db, f), (p - 1) * f.limit, f.limit))
  {
    hide Wrap64;
    var g := f.(page := p);
    WrapExact((p - 1) * f.limit);
    forall t ensures Matches(g, t) == Matches(f, t) {}
    SelectSame(db.tasks, db.nextTask, t => Matches(g, t), t => Matches(f, t));
  }

  // ---- pages whose offset overflows ------------------------------------------------------------

  /** The page a filter asks for, with its offset computed in unbounded integers. */
  function TruePage(db: Db, f: TaskFilter): seq<Task>
    requires ValidFilter(f)
  {
    Page(Matching(db, f), TrueOffset(f), f.limit)
  }

  function TrueOffset(f: TaskFilter): (n: nat)
    requires ValidFilter(f)
    ensures n == (f.page - 1) * f.limit
  {
    (f.page - 1) * f.limit
  }

  lemma WrapsBelow(x: int)
    requires x >= INT64_LIMIT
    ensures Wrap64(x) < x
  {
  }

  /** Windows of an ascending list that start at different places are the same only when both are empty. */
  lemma WindowsDiffer(all: seq<Task>, a: nat, b: nat, limit: nat)
    requires Ascending(all) && limit > 0 && a < b
    ensures Page(all, a, limit) == Page(all, b, limit) <==> |all| <= a
  {
    if a < |all| {
      assert Page(all, a, limit)[0] == all[a];
      if b < |all| {
        assert Page(all, b, limit)[0] == all[b];
      } else {
        assert Page(all, b, limit) == [];
      }
    }
  }

  /** List answers the page asked for if and only if the offset does not overflow, or wraps to one that is past the last
      match as well. */
  lemma ListExactIff(db: Db, f: TaskFilter)
    requires forall id :: id in db.tasks ==> db.tasks[id].id == id < db.nextTask
    requires ValidFilter(f)
    ensures ListRows(db, f) == Ok(TruePage(db, f)) <==>
      TrueOffset(f) < INT64_LIMIT || Offset(f) >= |Matching(db, f)|
  {
    OffsetExactIff(f);
    if TrueOffset(f) >= INT64_LIMIT && Offset(f) >= 0 {
      SelectExact(db.tasks, db.nextTask, t => Matches(f, t));
      WrapsBelow(TrueOffset(f));
      WindowsDiffer(Matching(db, f), Offset(f), TrueOffset(f), f.limit);
    }
  }

  /** A page number any query string may carry, far beyond the last page, that is answered with the first page again. */
  lemma FirstPageAgain(db: Db)
    ensures var f := TaskFilter(1, "", None, 0x4000_0000_0000_0001, 4);
      ValidFilter(f) && ListRows(db, f) == ListRows(db, f.(page := 1))
  {
    var f := TaskFilter(1, "", None, 0x4000_0000_0000_0001, 4);
    var g := f.(page := 1);
    assert Offset(f) == 0 == Offset(g);
    forall t ensures Matches(g, t) == Matches(f, t) {}
    SelectSame(db.tasks, db.nextTask, t => Matches(g, t), t => Matches(f, t));
  }
}
