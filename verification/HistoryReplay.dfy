/** The change history as a log that can be played forwards and backwards. */
module HistoryReplay {

  import opened Wrappers
  import opened Text
  import opened Entities
  import opened Filter
  import opened Tables
  import opened Requests
  import opened Invariants
  import opened Runs

  /** What an update can change, and the history records. */
  datatype Fields = Fields(title: string, description: Option<string>, status: string, assigneeId: Option<nat>)

  function FieldsOf(t: Task): Fields { Fields(t.title, t.description, t.status, t.assigneeId) }

  function ParseAssignee(v: Option<string>): Option<nat>
  {
    if v.Some? && AllDigits(v.value) then Some(NatValue(v.value)) else None
  }

  /** Sets the named field to a recorded value. */
  function Put(f: Fields, field: string, v: Option<string>): Fields
  {
    if field == F_TITLE then if v.Some? then f.(title := v.value) else f
    else if field == F_DESCRIPTION then f.(description := v)
    else if field == F_STATUS then if v.Some? then f.(status := v.value) else f
    else if field == F_ASSIGNEE then f.(assigneeId := ParseAssignee(v))
    else f
  }

  /** The recorded form of a field's value. */
  function ValueOf(f: Fields, field: string): Option<string>
  {
    if field == F_TITLE then Some(f.title)
    else if field == F_DESCRIPTION then f.description
    else if field == F_STATUS then Some(f.status)
    else if field == F_ASSIGNEE then Show(f.assigneeId)
    else None
  }

  /** Folds NewValues forwards, in id order. */
  function Replay(f: Fields, hs: seq<TaskHistory>): Fields
  {
    if hs == [] then f
    else var h := hs[|hs| - 1]; Put(Replay(f, hs[..|hs| - 1]), h.field, h.newValue)
  }

  /** Folds OldValues backwards, from the last entry to the first. */
  function Undo(f: Fields, hs: seq<TaskHistory>): Fields
    decreases |hs|
  {
    if hs == [] then f
    else var h := hs[|hs| - 1]; Undo(Put(f, h.field, h.oldValue), hs[..|hs| - 1])
  }

  /** Each entry's OldValue is the value its field had when it was written, and its NewValue is then in force. */
  predicate Linked(f: Fields, hs: seq<TaskHistory>)
  {
    hs == [] ||
    var init, h := hs[..|hs| - 1], hs[|hs| - 1];
    && Linked(f, init)
    && ValueOf(Replay(f, init), h.field) == h.oldValue
    && ValueOf(Put(Replay(f, init), h.field, h.newValue), h.field) == h.newValue
  }

  /** Assignee ids survive printing and parsing. */
  lemma ShowParses(a: Option<nat>)
    ensures ParseAssignee(Show(a)) == a
  {
    if a.Some? { PrintNatParses(a.value); }
  }

  lemma PutBack(f: Fields, field: string, v: Option<string>)
    ensures Put(Put(f, field, v), field, ValueOf(f, field)) == f
  {
    ShowParses(f.assigneeId);
  }

  /** A linked history undoes what it replays. */
  lemma {:induction false} UndoReplay(f: Fields, hs: seq<TaskHistory>)
    requires Linked(f, hs)
    ensures Undo(Replay(f, hs), hs) == f
  {
    if hs != [] {
      var init, h := hs[..|hs| - 1], hs[|hs| - 1];
      PutBack(Replay(f, init), h.field, h.newValue);
      UndoReplay(f, init);
    }
  }

  lemma PutOther(f: Fields, field: string, v: Option<string>, other: string)
    requires field != other
    ensures ValueOf(Put(f, field, v), other) == ValueOf(f, other)
  {
  }

  /** Entries i and j are about the same field, with none about it in between. */
  predicate Consecutive(hs: seq<TaskHistory>, i: int, j: int)
  {
    0 <= i < j < |hs| && hs[i].field == hs[j].field && forall k :: i < k < j ==> hs[k].field != hs[i].field
  }

  /** In a linked history each entry's OldValue is the NewValue of the previous entry for the same field. */
  lemma {:induction false} OldIsPreviousNew(f: Fields, hs: seq<TaskHistory>, i: nat, j: nat)
    requires Linked(f, hs) && Consecutive(hs, i, j)
    ensures hs[j].oldValue == hs[i].newValue
  {
    LinkedPrefix(f, hs, j + 1);
    LinkedPrefix(f, hs, i + 1);
    assert hs[..j + 1][..j] == hs[..j] && hs[..i + 1][..i] == hs[..i];
    ValueStands(f, hs, i, j);
  }

  lemma {:induction false} LinkedPrefix(f: Fields, hs: seq<TaskHistory>, n: nat)
    requires Linked(f, hs) && n <= |hs|
    ensures Linked(f, hs[..n])
  {
    if n == |hs| {
      assert hs[..n] == hs;
    } else {
      var init := hs[..|hs| - 1];
      LinkedPrefix(f, init, n);
      assert init[..n] == hs[..n];
    }
  }

  lemma {:induction false} ValueStands(f: Fields, hs: seq<TaskHistory>, i: nat, j: nat)
    requires i < j <= |hs| && forall k :: i < k < j ==> hs[k].field != hs[i].field
    requires Linked(f, hs[..i + 1])
    ensures ValueOf(Replay(f, hs[..j]), hs[i].field) == hs[i].newValue
  {
    assert hs[..j][..j - 1] == hs[..j - 1];
    if j > i + 1 {
      ValueStands(f, hs, i, j - 1);
      PutOther(Replay(f, hs[..j - 1]), hs[j - 1].field, hs[j - 1].newValue, hs[i].field);
    }
  }

  // ---- concatenation ---------------------------------------------------------------------------

  lemma {:induction false} ReplayConcat(f: Fields, a: seq<TaskHistory>, b: seq<TaskHistory>)
    ensures Replay(f, a + b) == Replay(Replay(f, a), b)
    ensures Linked(f, a) && Linked(Replay(f, a), b) ==> Linked(f, a + b)
  {
    if b == [] {
      assert a + b == a;
    } else {
      assert (a + b)[..|a + b| - 1] == a + b[..|b| - 1];
      ReplayConcat(f, a, b[..|b| - 1]);
    }
  }

  ghost predicate SameButIds(a: seq<TaskHistory>, b: seq<TaskHistory>)
  {
    |a| == |b| && forall i :: 0 <= i < |a| ==> a[i].(id := 0) == b[i].(id := 0)
  }

  lemma {:induction false} IdsDoNotMatter(f: Fields, a: seq<TaskHistory>, b: seq<TaskHistory>)
    requires SameButIds(a, b)
    ensures Replay(f, a) == Replay(f, b) && Linked(f, a) == Linked(f, b)
  {
    if a != [] {
      var n := |a| - 1;
      assert a[n].(id := 0) == b[n].(id := 0);
      IdsDoNotMatter(f, a[..n], b[..n]);
    }
  }

  // ---- what one update records -----------------------------------------------------------------

  lemma OneEntry(f: Fields, h: TaskHistory)
    requires h.oldValue == ValueOf(f, h.field) && ValueOf(Put(f, h.field, h.newValue), h.field) == h.newValue
    ensures Linked(f, [h]) && Replay(f, [h]) == Put(f, h.field, h.newValue)
  {
    var hs, init := [h], [h][..0];
    assert init == [] && Linked(f, init) && Replay(f, init) == f;
    assert hs[..|hs| - 1] == init && hs[|hs| - 1] == h;
  }

  /** At most one entry, which moves f to g. */
  lemma AtMostOneEntry(f: Fields, g: Fields, logged: bool, h: TaskHistory)
    requires logged ==> h.oldValue == ValueOf(f, h.field) && h.newValue == ValueOf(g, h.field)
    requires logged ==> Put(f, h.field, h.newValue) == g
    requires !logged ==> g == f
    ensures var hs := if logged then [h] else [];
      Linked(f, hs) && Replay(f, hs) == g
  {
    if logged { OneEntry(f, h); }
  }

  /** The entries of an update of `o` by `p` lead from o's fields to the updated row's. */
  lemma EntriesLead(id: nat, actor: nat, at: int, o: Task, p: TaskPatch, now: int)
    ensures var n := ApplyPatch(o, p, now);
      var hs := HistoryEntries(id, actor, at, o, n, p);
      Linked(FieldsOf(o), hs) && Replay(FieldsOf(o), hs) == FieldsOf(n)
  {
    var n := ApplyPatch(o, p, now);
    var f0 := FieldsOf(o);
    var f1 := f0.(title := n.title);
    var f2 := f1.(description := n.description);
    var f3 := f2.(status := n.status);
    var f4 := f3.(assigneeId := n.assigneeId);
    var h1 := Entry(id, actor, at, F_TITLE, Some(o.title), Some(n.title));
    var h2 := Entry(id, actor, at, F_DESCRIPTION, o.description, n.description);
    var h3 := Entry(id, actor, at, F_STATUS, Some(o.status), Some(n.status));
    var h4 := Entry(id, actor, at, F_ASSIGNEE, Show(o.assigneeId), Show(n.assigneeId));
    ShowParses(n.assigneeId);
    AtMostOneEntry(f0, f1, LogsTitle(o, n, p), h1);
    AtMostOneEntry(f1, f2, LogsDescription(o, n, p), h2);
    AtMostOneEntry(f2, f3, LogsStatus(o, n, p), h3);
    AtMostOneEntry(f3, f4, LogsAssignee(p), h4);
    var g1 := if LogsTitle(o, n, p) then [h1] else [];
    var g2 := if LogsDescription(o, n, p) then [h2] else [];
    var g3 := if LogsStatus(o, n, p) then [h3] else [];
    var g4 := if LogsAssignee(p) then [h4] else [];
    LeadOn(f0, g1, g2);
    LeadOn(f0, g1 + g2, g3);
    LeadOn(f0, g1 + g2 + g3, g4);
    assert HistoryEntries(id, actor, at, o, n, p) == g1 + g2 + g3 + g4;
  }

  lemma LeadOn(f: Fields, a: seq<TaskHistory>, b: seq<TaskHistory>)
    requires Linked(f, a) && Linked(Replay(f, a), b)
    ensures Linked(f, a + b) && Replay(f, a + b) == Replay(Replay(f, a), b)
  {
    ReplayConcat(f, a, b);
  }

  // ---- sequential runs -------------------------------------------------------------------------

  /** The row each task had when it first appeared in the run. */
  function Origins(s: Sys, steps: seq<Step>, n: nat): Rows
    requires n <= |steps|
  {
    if n == 0 then s.db.tasks
    else NewOrigins(Origins(s, steps, n - 1), At(s, steps, n - 1).db, At(s, steps, n).db)
  }

  function NewOrigins(origins: Rows, before: Db, after: Db): Rows
  {
    origins + (after.tasks - before.tasks.Keys)
  }

  predicate TaskReplays(db: Db, origins: Rows, id: nat)
    requires id in db.tasks
  {
    && id in origins
    && Linked(FieldsOf(origins[id]), EntriesOf(db.history, id))
    && Replay(FieldsOf(origins[id]), EntriesOf(db.history, id)) == FieldsOf(db.tasks[id])
  }

  ghost predicate AllReplay(db: Db, origins: Rows)
  {
    && origins.Keys == db.tasks.Keys
    && forall id {:trigger TaskReplays(db, origins, id)} :: id in db.tasks ==> TaskReplays(db, origins, id)
  }

  lemma UpdatedTaskReplays(h: seq<TaskHistory>, id: nat, actor: nat, at: int, created: Fields, o: Task,
                           patch: TaskPatch, now: int)
    requires Linked(created, EntriesOf(h, id)) && Replay(created, EntriesOf(h, id)) == FieldsOf(o)
    ensures var n := ApplyPatch(o, patch, now);
      var h' := InsertAll(h, HistoryEntries(id, actor, at, o, n, patch));
      Linked(created, EntriesOf(h', id)) && Replay(created, EntriesOf(h', id)) == FieldsOf(n)
  {
    hide HistoryEntries, Put;
    var n := ApplyPatch(o, patch, now);
    var es := HistoryEntries(id, actor, at, o, n, patch);
    var tail := InsertAll(h, es)[|h|..];
    EntriesAbout(id, actor, at, o, n, patch);
    InsertAllFrame(h, es, id, id);
    EntriesLead(id, actor, at, o, patch, now);
    assert SameButIds(es, tail);
    IdsDoNotMatter(FieldsOf(o), es, tail);
    ReplayConcat(created, EntriesOf(h, id), tail);
  }

  lemma UpdateReplays(db: Db, p: Pending, env: Env, origins: Rows)
    requires p.RunUpdateTx? && p.id in db.tasks && p.existing == db.tasks[p.id]
    requires AllReplay(db, origins)
    ensures AllReplay(AdvanceUpdateTx(db, p, env).0, origins)
  {
    var db' := AdvanceUpdateTx(db, p, env).0;
    if db' != db {
      var o := db.tasks[p.id];
      var n := ApplyPatch(o, p.patch, env.now);
      var es := HistoryEntries(p.id, p.actor, p.at, o, n, p.patch);
      EntriesAbout(p.id, p.actor, p.at, o, n, p.patch);
      forall id | id in db'.tasks ensures TaskReplays(db', origins, id) {
        assert TaskReplays(db, origins, id);
        if id == p.id {
          UpdatedTaskReplays(db.history, id, p.actor, p.at, FieldsOf(origins[id]), o, p.patch, env.now);
        } else {
          InsertAllFrame(db.history, es, p.id, id);
        }
      }
    }
  }

  lemma InsertReplays(db: Db, row: Task, env: Env, origins: Rows)
    requires Inv(db) && AllReplay(db, origins)
    ensures var db' := AdvanceInsertTask(db, row, env).0; AllReplay(db', NewOrigins(origins, db, db'))
  {
    var db' := AdvanceInsertTask(db, row, env).0;
    var origins' := NewOrigins(origins, db, db');
    if db' != db {
      assert db.nextTask in db.tasks ==> TaskOk(db, db.nextTask);
      assert forall i :: 0 <= i < |db.history| ==> db.history[i].taskId in db.tasks;
      EntriesOfNone(db.history, db.nextTask);
      forall id | id in db'.tasks ensures TaskReplays(db', origins', id) {
        assert id in db.tasks ==> TaskReplays(db, origins, id);
      }
    } else {
      assert origins' == origins;
    }
  }

  lemma DeleteReplays(db: Db, id: nat, teamId: nat, env: Env, origins: Rows)
    requires Inv(db) && PendingOk(db, RunSoftDelete(id, teamId)) && AllReplay(db, origins)
    ensures AllReplay(AdvanceSoftDelete(db, id, teamId, env).0, origins)
  {
    var db' := AdvanceSoftDelete(db, id, teamId, env).0;
    forall i | i in db'.tasks ensures TaskReplays(db', origins, i) {
      assert TaskReplays(db, origins, i);
    }
  }

  lemma NothingNew(origins: Rows, before: Db, after: Db)
    requires after.tasks.Keys == before.tasks.Keys
    ensures NewOrigins(origins, before, after) == origins
  {
  }

  /** Requests that touch neither tasks nor history. */
  lemma OtherReplays(db: Db, db': Db, origins: Rows)
    requires AllReplay(db, origins) && db'.tasks == db.tasks && db'.history == db.history
    ensures AllReplay(db', origins)
  {
    forall i | i in db'.tasks ensures TaskReplays(db', origins, i) {
      assert TaskReplays(db, origins, i);
    }
  }

  lemma ServeReplays(s: Sys, op: Op, env: Env, origins: Rows)
    requires Inv(s.db) && AllReplay(s.db, origins)
    ensures var db' := Serve(s, op, env).0.db; AllReplay(db', NewOrigins(origins, s.db, db'))
  {
    ServeShape(s, op, env);
    BeginOk(s.db, op, env);
    var n, db' := Begin(s.db, op, env), Serve(s, op, env).0.db;
    if n.More? && n.pending.InsertTask? {
      InsertReplays(s.db, n.pending.row, env, origins);
    } else {
      if n.More? && n.pending.RunUpdateTx? {
        UpdateReplays(s.db, n.pending, env, origins);
      } else if n.More? && n.pending.RunSoftDelete? {
        DeleteReplays(s.db, n.pending.id, n.pending.teamId, env, origins);
      } else {
        OtherReplays(s.db, db', origins);
      }
      NothingNew(origins, s.db, db');
    }
  }

  lemma {:induction false} RunReplays(s: Sys, steps: seq<Step>, n: nat)
    requires Inv(s.db) && s.db.history == [] && n <= |steps|
    ensures AllReplay(At(s, steps, n).db, Origins(s, steps, n))
  {
    if n == 0 {
      forall id | id in s.db.tasks ensures TaskReplays(s.db, s.db.tasks, id) {
        assert EntriesOf(s.db.history, id) == [];
      }
    } else {
      RunReplays(s, steps, n - 1);
      RunKeeps(s, steps, n - 1);
      AtNext(s, steps, n - 1);
      var mid, origins := At(s, steps, n - 1), Origins(s, steps, n - 1);
      match steps[n - 1] {
        case Call(op, env) => ServeReplays(mid, op, env, origins);
        case Evict(_) => NothingNew(origins, mid.db, At(s, steps, n).db);
      }
    }
  }

  /** In every sequential run, over whatever faults: replaying a task's history from its created row gives its current
      row, undoing it from the current row gives the created one, and consecutive entries of a field fit together. */
  lemma HistoryIsReplayable(s: Sys, steps: seq<Step>, n: nat, id: nat)
    requires Inv(s.db) && s.db.history == [] && n <= |steps| && id in At(s, steps, n).db.tasks
    ensures id in Origins(s, steps, n)
    ensures var db, created := At(s, steps, n).db, FieldsOf(Origins(s, steps, n)[id]);
      var hs := EntriesOf(db.history, id);
      && Replay(created, hs) == FieldsOf(db.tasks[id])
      && Undo(FieldsOf(db.tasks[id]), hs) == created
      && forall i, j {:trigger Consecutive(hs, i, j)} :: Consecutive(hs, i, j) ==> hs[j].oldValue == hs[i].newValue
  {
    RunReplays(s, steps, n);
    var db, created := At(s, steps, n).db, FieldsOf(Origins(s, steps, n)[id]);
    assert TaskReplays(db, Origins(s, steps, n), id);
    var hs := EntriesOf(db.history, id);
    UndoReplay(created, hs);
    forall i, j | Consecutive(hs, i, j)
      ensures hs[j].oldValue == hs[i].newValue
    {
      OldIsPreviousNew(created, hs, i, j);
    }
  }
}
