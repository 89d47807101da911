/** What the database does with the statements the task repository builds: the text is read left to right, each
    `?` takes the next positional argument, and the terms read are evaluated against the rows of `tasks`. */
module Sql {

  import opened Wrappers
  import opened Text
  import opened Entities
  import opened Filter

  datatype Value = VNull | VInt(n: int) | VStr(s: string)

  /** One condition of a WHERE clause or one assignment of a SET clause, with its argument bound. */
  datatype Term =
    | EqArg(col: string, arg: Value)
    | EqNull(col: string)
    | EqNow(col: string)
    | IsNull(col: string)

  // ---- reading ---------------------------------------------------------------------------------

  predicate IsNameChar(c: char) { 'a' <= c <= 'z' || c == '_' }

  function NameLength(s: string): (n: nat)
    ensures n <= |s|
  {
    if s != [] && IsNameChar(s[0]) then 1 + NameLength(s[1..]) else 0
  }

  datatype ReadOne = ReadOne(term: Term, rest: string, args: seq<Value>)
  datatype ReadMany = ReadMany(terms: seq<Term>, rest: string, args: seq<Value>)

  function ReadTerm(text: string, args: seq<Value>): (r: Option<ReadOne>)
    ensures r.Some? ==> |r.value.rest| < |text|
  {
    var n := NameLength(text);
    if n == 0 then None else ReadOperator(text[..n], text[n..], args)
  }

  function ReadOperator(col: string, rest: string, args: seq<Value>): (r: Option<ReadOne>)
    ensures r.Some? ==> |r.value.rest| < |rest|
  {
    if " = ?" <= rest then
      if args == [] then None else Some(ReadOne(EqArg(col, args[0]), rest[4..], args[1..]))
    else if " = NULL" <= rest then Some(ReadOne(EqNull(col), rest[7..], args))
    else if " = CURRENT_TIMESTAMP" <= rest then Some(ReadOne(EqNow(col), rest[20..], args))
    else if " IS NULL" <= rest then Some(ReadOne(IsNull(col), rest[8..], args))
    else None
  }

  /** A non-empty list of terms with a separator between them. */
  function ReadTerms(sep: string, text: string, args: seq<Value>): Option<ReadMany>
    decreases |text|
  {
    match ReadTerm(text, args)
    case None => None
    case Some(ReadOne(t, rest, more)) =>
      if sep <= rest then
        match ReadTerms(sep, rest[|sep|..], more)
        case None => None
        case Some(r) => Some(r.(terms := [t] + r.terms))
      else Some(ReadMany([t], rest, more))
  }

  // ---- writing ---------------------------------------------------------------------------------

  function TermSuffix(t: Term): string
  {
    match t
    case EqArg(_, _) => " = ?"
    case EqNull(_) => " = NULL"
    case EqNow(_) => " = CURRENT_TIMESTAMP"
    case IsNull(_) => " IS NULL"
  }

  function TermText(t: Term): string { t.col + TermSuffix(t) }

  function TermArgs(t: Term): seq<Value> { if t.EqArg? then [t.arg] else [] }

  function Texts(ts: seq<Term>): seq<string> { seq(|ts|, i requires 0 <= i < |ts| => TermText(ts[i])) }

  function Args(ts: seq<Term>): seq<Value>
  {
    if ts == [] then [] else TermArgs(ts[0]) + Args(ts[1..])
  }

  /** The joined text, term by term. */
  function Clause(ts: seq<Term>, sep: string): string
  {
    if ts == [] then ""
    else if |ts| == 1 then TermText(ts[0])
    else TermText(ts[0]) + (sep + Clause(ts[1..], sep))
  }

  predicate WellNamed(col: string) { col != "" && forall i :: 0 <= i < |col| ==> IsNameChar(col[i]) }

  ghost predicate AllWellNamed(ts: seq<Term>) { forall i :: 0 <= i < |ts| ==> WellNamed(ts[i].col) }

  lemma AppendTerm(ts: seq<Term>, t: Term)
    ensures Texts(ts + [t]) == Texts(ts) + [TermText(t)]
    ensures Args(ts + [t]) == Args(ts) + TermArgs(t)
  {
    AppendArgs(ts, t);
  }

  lemma {:induction false} AppendArgs(ts: seq<Term>, t: Term)
    ensures Args(ts + [t]) == Args(ts) + TermArgs(t)
  {
    if ts == [] {
      assert ts + [t] == [t] && [t][1..] == [];
      assert Args([t]) == TermArgs(t) + Args([]);
    } else {
      var all := ts + [t];
      assert all[0] == ts[0] && all[1..] == ts[1..] + [t];
      AppendArgs(ts[1..], t);
      assert Args(all) == TermArgs(ts[0]) + (Args(ts[1..]) + TermArgs(t));
    }
  }

  lemma {:induction false} JoinIsClause(ts: seq<Term>, sep: string)
    ensures Join(Texts(ts), sep) == Clause(ts, sep)
  {
    if |ts| > 1 {
      assert Texts(ts)[1..] == Texts(ts[1..]);
      JoinIsClause(ts[1..], sep);
      assert Join(Texts(ts), sep) == TermText(ts[0]) + sep + Clause(ts[1..], sep);
    }
  }

  lemma {:induction false} NameLengthStops(col: string, rest: string)
    requires WellNamed(col) || col == ""
    requires rest != [] && !IsNameChar(rest[0])
    ensures NameLength(col + rest) == |col|
  {
    if col == "" {
      assert col + rest == rest;
    } else {
      assert (col + rest)[1..] == col[1..] + rest;
      NameLengthStops(col[1..], rest);
    }
  }

  lemma ReadOperatorBack(t: Term, rest: string, tail: string, more: seq<Value>)
    requires rest == TermSuffix(t) + tail
    ensures ReadOperator(t.col, rest, TermArgs(t) + more) == Some(ReadOne(t, tail, more))
  {
    assert TermSuffix(t) <= rest && rest[|TermSuffix(t)|..] == tail;
    if t.EqArg? {
      assert (TermArgs(t) + more)[1..] == more;
    } else {
      assert TermArgs(t) + more == more;
      assert t.EqNull? ==> rest[3] == 'N';
      assert t.EqNow? ==> rest[3] == 'C';
      assert t.IsNull? ==> rest[1] == 'I';
    }
  }

  lemma ReadTermBack(t: Term, tail: string, more: seq<Value>)
    requires WellNamed(t.col)
    ensures ReadTerm(TermText(t) + tail, TermArgs(t) + more) == Some(ReadOne(t, tail, more))
  {
    var suffix := TermSuffix(t);
    assert suffix[0] == ' ';
    assert TermText(t) + tail == t.col + (suffix + tail);
    ReadNamed(t.col, suffix + tail, TermArgs(t) + more);
    ReadOperatorBack(t, suffix + tail, tail, more);
  }

  lemma ReadNamed(col: string, rest: string, args: seq<Value>)
    requires WellNamed(col) && rest != [] && !IsNameChar(rest[0])
    ensures ReadTerm(col + rest, args) == ReadOperator(col, rest, args)
  {
    NameLengthStops(col, rest);
    assert (col + rest)[..|col|] == col && (col + rest)[|col|..] == rest;
  }

  /** Reading what was written gives the terms back, takes exactly their arguments, and stops at the tail. */
  lemma {:induction false} ReadTermsBack(sep: string, ts: seq<Term>, tail: string, more: seq<Value>)
    requires ts != [] && AllWellNamed(ts)
    requires !(sep <= tail)
    ensures ReadTerms(sep, Join(Texts(ts), sep) + tail, Args(ts) + more) == Some(ReadMany(ts, tail, more))
  {
    JoinIsClause(ts, sep);
    ReadClauseBack(sep, ts, tail, more);
  }

  lemma {:induction false} ReadClauseBack(sep: string, ts: seq<Term>, tail: string, more: seq<Value>)
    requires ts != [] && AllWellNamed(ts)
    requires !(sep <= tail)
    ensures ReadTerms(sep, Clause(ts, sep) + tail, Args(ts) + more) == Some(ReadMany(ts, tail, more))
  {
    var t, rest := ts[0], ts[1..];
    assert [t] + rest == ts;
    ClauseFirst(sep, ts, tail, more);
    if rest == [] {
      assert ts == [t];
      ReadTermsLast(sep, t, tail, more);
    } else {
      ReadClauseBack(sep, rest, tail, more);
      ReadTermsCons(sep, t, Clause(rest, sep) + tail, Args(rest) + more, ReadMany(rest, tail, more));
    }
  }

  lemma ClauseFirst(sep: string, ts: seq<Term>, tail: string, more: seq<Value>)
    requires ts != []
    ensures Clause(ts, sep) + tail ==
      TermText(ts[0]) + (if |ts| == 1 then tail else sep + (Clause(ts[1..], sep) + tail))
    ensures Args(ts) + more == TermArgs(ts[0]) + (if |ts| == 1 then more else Args(ts[1..]) + more)
  {
    if |ts| == 1 {
      assert Args(ts) == TermArgs(ts[0]) + Args(ts[1..]) == TermArgs(ts[0]);
    }
  }

  lemma ReadTermsLast(sep: string, t: Term, tail: string, more: seq<Value>)
    requires WellNamed(t.col) && !(sep <= tail)
    ensures ReadTerms(sep, TermText(t) + tail, TermArgs(t) + more) == Some(ReadMany([t], tail, more))
  {
    ReadTermBack(t, tail, more);
  }

  lemma ReadTermsCons(sep: string, t: Term, inner: string, args: seq<Value>, r: ReadMany)
    requires WellNamed(t.col)
    requires ReadTerms(sep, inner, args) == Some(r)
    ensures ReadTerms(sep, TermText(t) + (sep + inner), TermArgs(t) + args) == Some(r.(terms := [t] + r.terms))
  {
    ReadTermBack(t, sep + inner, args);
    assert (sep + inner)[|sep|..] == inner;
  }

  // ---- placeholders ----------------------------------------------------------------------------

  function Placeholders(s: string): nat
  {
    if s == "" then 0 else Placeholders(s[..|s| - 1]) + (if s[|s| - 1] == '?' then 1 else 0)
  }

  lemma {:induction false} PlaceholdersConcat(a: string, b: string)
    ensures Placeholders(a + b) == Placeholders(a) + Placeholders(b)
  {
    if b == "" {
      assert a + b == a;
    } else {
      assert (a + b)[..|a + b| - 1] == a + b[..|b| - 1];
      PlaceholdersConcat(a, b[..|b| - 1]);
    }
  }

  lemma {:induction false} NoPlaceholders(s: string)
    requires '?' !in s
    ensures Placeholders(s) == 0
  {
    if s != "" { NoPlaceholders(s[..|s| - 1]); }
  }

  lemma TermPlaceholders(t: Term)
    requires WellNamed(t.col)
    ensures Placeholders(TermText(t)) == |TermArgs(t)|
  {
    NoPlaceholders(t.col);
    PlaceholdersConcat(t.col, TermSuffix(t));
    if t.EqArg? {
      NoPlaceholders(" = ");
      assert " = ?"[..3] == " = ";
    } else {
      NoPlaceholders(TermSuffix(t));
    }
  }

  /** The clause holds as many `?` as there are arguments. */
  lemma {:induction false} ClausePlaceholders(sep: string, ts: seq<Term>)
    requires AllWellNamed(ts) && '?' !in sep
    ensures Placeholders(Clause(ts, sep)) == |Args(ts)|
  {
    if ts != [] {
      TermPlaceholders(ts[0]);
      if |ts| > 1 {
        ClausePlaceholders(sep, ts[1..]);
        NoPlaceholders(sep);
        PlaceholdersConcat(TermText(ts[0]), sep + Clause(ts[1..], sep));
        PlaceholdersConcat(sep, Clause(ts[1..], sep));
      }
    }
  }

  // ---- evaluation ------------------------------------------------------------------------------

  function IntOrNull(o: Option<int>): Value { if o.Some? then VInt(o.value) else VNull }

  function StrOrNull(o: Option<string>): Value { if o.Some? then VStr(o.value) else VNull }

  function Column(t: Task, col: string): Option<Value>
  {
    if col == "id" then Some(VInt(t.id))
    else if col == "team_id" then Some(VInt(t.teamId))
    else if col == "title" then Some(VStr(t.title))
    else if col == "description" then Some(StrOrNull(t.description))
    else if col == "status" then Some(VStr(t.status))
    else if col == "assignee_id" then Some(IntOrNull(t.assigneeId))
    else if col == "updated_at" then Some(VInt(t.updatedAt))
    else if col == "deleted_at" then Some(IntOrNull(t.deletedAt))
    else None
  }

  /** A comparison with NULL is never true. */
  predicate Holds(c: Term, t: Task)
  {
    match c
    case EqArg(col, v) => Column(t, col) == Some(v) && v != VNull
    case IsNull(col) => Column(t, col) == Some(VNull)
    case _ => false
  }

  predicate AllHold(cs: seq<Term>, t: Task)
  {
    forall i :: 0 <= i < |cs| ==> Holds(cs[i], t)
  }

  function SetColumn(t: Task, col: string, v: Value): Option<Task>
  {
    if col == "title" && v.VStr? then Some(t.(title := v.s))
    else if col == "description" && v.VStr? then Some(t.(description := Some(v.s)))
    else if col == "description" && v.VNull? then Some(t.(description := None))
    else if col == "status" && v.VStr? then Some(t.(status := v.s))
    else if col == "assignee_id" && v.VInt? && v.n >= 0 then Some(t.(assigneeId := Some(v.n)))
    else if col == "assignee_id" && v.VNull? then Some(t.(assigneeId := None))
    else if col == "updated_at" && v.VInt? then Some(t.(updatedAt := v.n))
    else if col == "deleted_at" && v.VInt? then Some(t.(deletedAt := Some(v.n)))
    else None
  }

  function AssignOne(a: Term, t: Task, now: int): Option<Task>
  {
    match a
    case EqArg(col, v) => SetColumn(t, col, v)
    case EqNull(col) => SetColumn(t, col, VNull)
    case EqNow(col) => SetColumn(t, col, VInt(now))
    case IsNull(_) => None
  }

  function Assign(terms: seq<Term>, t: Task, now: int): Option<Task>
  {
    if terms == [] then Some(t)
    else
      match Assign(terms[..|terms| - 1], t, now)
      case None => None
      case Some(u) => AssignOne(terms[|terms| - 1], u, now)
  }

  predicate Assigns(terms: seq<Term>, col: string)
  {
    exists i :: 0 <= i < |terms| && terms[i].col == col
  }

  /** `updated_at` is declared ON UPDATE CURRENT_TIMESTAMP: a changed row gets the time unless it was assigned. */
  function Touch(terms: seq<Term>, before: Task, after: Task, now: int): Task
  {
    if after != before && !Assigns(terms, "updated_at") then after.(updatedAt := now) else after
  }

  type Rows = map<nat, Task>

  /** The rows with an id below `n` that satisfy p, in id order. */
  function Select(rows: Rows, n: nat, p: Task -> bool): seq<Task>
  {
    if n == 0 then []
    else Select(rows, n - 1, p) + (if n - 1 in rows && p(rows[n - 1]) then [rows[n - 1]] else [])
  }

  const LIST_TAIL := "\n\t\tORDER BY id\n\t\tLIMIT ? OFFSET ?\n\t"

  /** `SELECT ... FROM tasks <text>`, where text holds the conditions, the order and the window. */
  function RunSelect(rows: Rows, next: nat, text: string, args: seq<Value>): Option<seq<Task>>
  {
    if !("WHERE " <= text) then None
    else
      match ReadTerms(" AND ", text[6..], args)
      case None => None
      case Some(ReadMany(conds, rest, window)) =>
        if rest == LIST_TAIL && |window| == 2 && window[0].VInt? && window[1].VInt?
           && window[0].n >= 0 && window[1].n >= 0
        then Some(Page(Select(rows, next, t => AllHold(conds, t)), window[1].n, window[0].n))
        else None
  }

  /** `SELECT COUNT(*) FROM tasks <text>`. */
  function RunCount(rows: Rows, next: nat, text: string, args: seq<Value>): Option<nat>
  {
    if !("WHERE " <= text) then None
    else
      match ReadTerms(" AND ", text[6..], args)
      case None => None
      case Some(ReadMany(conds, rest, more)) =>
        if rest == "" && more == [] then Some(|Select(rows, next, t => AllHold(conds, t))|) else None
  }

  /** The table after an update, and the rows its condition met. */
  datatype Updated = Updated(rows: Rows, matched: set<nat>)

  /** `UPDATE tasks SET ... WHERE ...`: every row that meets the condition takes the assignments. */
  function RunUpdate(rows: Rows, next: nat, text: string, args: seq<Value>, now: int): Option<Updated>
  {
    if !("UPDATE tasks SET " <= text) then None
    else
      match ReadTerms(", ", text[17..], args)
      case None => None
      case Some(ReadMany(terms, rest, more)) =>
        if !(" WHERE " <= rest) then None
        else
          match ReadTerms(" AND ", rest[7..], more)
          case None => None
          case Some(ReadMany(conds, end, left)) =>
            if end == "" && left == [] then ApplyUpdate(rows, next, terms, conds, now) else None
  }

  function ApplyUpdate(rows: Rows, next: nat, terms: seq<Term>, conds: seq<Term>, now: int): Option<Updated>
  {
    var matched := set id | id in rows && id < next && AllHold(conds, rows[id]);
    if exists id :: id in matched && Assign(terms, rows[id], now).None? then None
    else Some(Updated(UpdateMatched(rows, next, terms, matched, now), matched))
  }

  /** The rows with an id below n that are matched take the assignments. */
  function UpdateMatched(rows: Rows, n: nat, terms: seq<Term>, matched: set<nat>, now: int): Rows
    requires forall id :: id in matched ==> id in rows && Assign(terms, rows[id], now).Some?
  {
    if n == 0 then rows
    else
      var r, id := UpdateMatched(rows, n - 1, terms, matched, now), n - 1;
      if id in matched then r[id := Touch(terms, rows[id], Assign(terms, rows[id], now).value, now)] else r
  }

  /** What the client reports as rows affected: changed rows, or matched rows when CLIENT_FOUND_ROWS is set. */
  function RowsAffected(before: Rows, u: Updated, foundRows: bool): nat
  {
    |set id | id in u.matched && Counts(before, u, foundRows, id)|
  }

  predicate Counts(before: Rows, u: Updated, foundRows: bool, id: nat)
  {
    id in before && id in u.rows && (foundRows || before[id] != u.rows[id])
  }

  // ---- properties of Select --------------------------------------------------------------------

  lemma {:induction false} SelectSame(rows: Rows, n: nat, p: Task -> bool, q: Task -> bool)
    requires forall t :: p(t) == q(t)
    ensures Select(rows, n, p) == Select(rows, n, q)
  {
    if n > 0 { SelectSame(rows, n - 1, p, q); }
  }

  /** Rows that p does not tell apart give the same selection. */
  lemma {:induction false} SelectFrame(rows: Rows, rows': Rows, n: nat, p: Task -> bool)
    requires forall id :: id < n ==> (id in rows && p(rows[id])) == (id in rows' && p(rows'[id]))
    requires forall id :: id < n && id in rows && p(rows[id]) ==> rows'[id] == rows[id]
    ensures Select(rows, n, p) == Select(rows', n, p)
  {
    if n > 0 { SelectFrame(rows, rows', n - 1, p); }
  }

  /** Replacing one row moves the count by what that row contributed before and after. */
  lemma {:induction false} SelectCountReplace(rows: Rows, n: nat, p: Task -> bool, id: nat, t: Task)
    requires id in rows
    ensures |Select(rows[id := t], n, p)| ==
      |Select(rows, n, p)| + (if id < n then (if p(t) then 1 else 0) - (if p(rows[id]) then 1 else 0) else 0)
  {
    if n > 0 { SelectCountReplace(rows, n - 1, p, id, t); }
  }

  ghost predicate Ascending(ts: seq<Task>)
  {
    forall i, j :: 0 <= i < j < |ts| ==> ts[i].id < ts[j].id
  }

  /** A selection is strictly ascending by id and holds exactly the rows asked for. */
  lemma {:induction false} SelectExact(rows: Rows, n: nat, p: Task -> bool)
    requires forall id :: id in rows ==> rows[id].id == id
    ensures Ascending(Select(rows, n, p))
    ensures forall t :: t in Select(rows, n, p) <==> t.id < n && t.id in rows && rows[t.id] == t && p(t)
  {
    if n > 0 {
      SelectExact(rows, n - 1, p);
      var s := Select(rows, n - 1, p);
      assert forall i :: 0 <= i < |s| ==> s[i] in s;
    }
  }
}
