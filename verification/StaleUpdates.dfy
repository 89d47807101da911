/** What reading the row before the transaction costs the history: exactly which interleaved updates it fails to account
    for, and a run with one. */
module StaleUpdates {

  import opened Wrappers
  import opened Text
  import opened Entities
  import opened Filter
  import opened Tables
  import opened CacheIndex
  import opened Requests
  import opened Invariants
  import opened HistoryReplay
  import opened Interleaving
  import opened CacheLimits

  // ---- one update whose row may have moved on --------------------------------------------------

  /** The request writes back the very value it had read, while the row has moved on since. */
  predicate Unrecorded(existing: Task, current: Task, p: TaskPatch)
  {
    || (p.title.Some? && existing.title == p.title.value && current.title != p.title.value)
    || (p.description.Some? && existing.description == p.description && current.description != p.description)
    || (p.status.Some? && existing.status == p.status.value && current.status != p.status.value)
  }

  lemma ReplayOptional(f: Fields, logged: bool, h: TaskHistory)
    ensures Replay(f, if logged then [h] else []) == if logged then Put(f, h.field, h.newValue) else f
  {
    assert [h][..0] == [];
  }

  /** What an update's entries replay to when the row it read may differ from the row it changed. */
  lemma EntriesEffect(id: nat, actor: nat, at: int, existing: Task, o: Task, n: Task, p: TaskPatch)
    ensures Replay(FieldsOf(o), HistoryEntries(id, actor, at, existing, n, p)) == Fields(
      if LogsTitle(existing, n, p) then n.title else o.title,
      if LogsDescription(existing, n, p) then n.description else o.description,
      if LogsStatus(existing, n, p) then n.status else o.status,
      if LogsAssignee(p) then n.assigneeId else o.assigneeId)
  {
    var h1 := Entry(id, actor, at, F_TITLE, Some(existing.title), Some(n.title));
    var h2 := Entry(id, actor, at, F_DESCRIPTION, existing.description, n.description);
    var h3 := Entry(id, actor, at, F_STATUS, Some(existing.status), Some(n.status));
    var h4 := Entry(id, actor, at, F_ASSIGNEE, Show(existing.assigneeId), Show(n.assigneeId));
    var g1 := if LogsTitle(existing, n, p) then [h1] else [];
    var g2 := if LogsDescription(existing, n, p) then [h2] else [];
    var g3 := if LogsStatus(existing, n, p) then [h3] else [];
    var g4 := if LogsAssignee(p) then [h4] else [];
    var f0 := FieldsOf(o);
    ReplayConcat(f0, g1, g2);
    ReplayConcat(f0, g1 + g2, g3);
    ReplayConcat(f0, g1 + g2 + g3, g4);
    ReplayOptional(f0, LogsTitle(existing, n, p), h1);
    ReplayOptional(Replay(f0, g1), LogsDescription(existing, n, p), h2);
    ReplayOptional(Replay(f0, g1 + g2), LogsStatus(existing, n, p), h3);
    ReplayOptional(Replay(f0, g1 + g2 + g3), LogsAssignee(p), h4);
    ShowParses(n.assigneeId);
    assert HistoryEntries(id, actor, at, existing, n, p) == g1 + g2 + g3 + g4;
  }

  lemma EntriesAfter(h: seq<TaskHistory>, id: nat, actor: nat, at: int, created: Fields, existing: Task, o: Task,
                     n: Task, p: TaskPatch)
    requires Replay(created, EntriesOf(h, id)) == FieldsOf(o)
    ensures var es := HistoryEntries(id, actor, at, existing, n, p);
      Replay(created, EntriesOf(InsertAll(h, es), id)) == Replay(FieldsOf(o), es)
  {
    hide HistoryEntries, Put;
    var es := HistoryEntries(id, actor, at, existing, n, p);
    var tail := InsertAll(h, es)[|h|..];
    EntriesAbout(id, actor, at, existing, n, p);
    InsertAllFrame(h, es, id, id);
    assert SameButIds(es, tail);
    IdsDoNotMatter(FieldsOf(o), es, tail);
    ReplayConcat(created, EntriesOf(h, id), tail);
  }

  /** The exact price of reading `existing` outside the transaction: a history that replayed to the row before the
      update replays to the row after it if and only if the update is not of the unrecorded kind. */
  lemma ReplaySurvivesIff(h: seq<TaskHistory>, id: nat, actor: nat, at: int, created: Fields, existing: Task, o: Task,
                          p: TaskPatch, now: int)
    requires Replay(created, EntriesOf(h, id)) == FieldsOf(o)
    ensures var n := ApplyPatch(o, p, now);
      var h' := InsertAll(h, HistoryEntries(id, actor, at, existing, n, p));
      Replay(created, EntriesOf(h', id)) == FieldsOf(n) <==> !Unrecorded(existing, o, p)
  {
    var n := ApplyPatch(o, p, now);
    EntriesAfter(h, id, actor, at, created, existing, o, n, p);
    EntriesEffect(id, actor, at, existing, o, n, p);
  }

  // ---- the chain of old values -----------------------------------------------------------------

  lemma {:induction false} LinkedConcat(f: Fields, a: seq<TaskHistory>, b: seq<TaskHistory>)
    ensures Linked(f, a + b) <==> Linked(f, a) && Linked(Replay(f, a), b)
  {
    if b == [] {
      assert a + b == a;
    } else {
      assert (a + b)[..|a + b| - 1] == a + b[..|b| - 1];
      LinkedConcat(f, a, b[..|b| - 1]);
      ReplayConcat(f, a, b[..|b| - 1]);
    }
  }

  /** An entry fits on f when it records what its field held and what it holds after. */
  predicate Fits(f: Fields, h: TaskHistory)
  {
    ValueOf(f, h.field) == h.oldValue && ValueOf(Put(f, h.field, h.newValue), h.field) == h.newValue
  }

  lemma LinkedNothing(f: Fields)
    ensures Linked(f, [])
  {
  }

  lemma FitsElsewhere(f: Fields, other: string, v: Option<string>, h: TaskHistory)
    requires other != h.field
    ensures Fits(Put(f, other, v), h) <==> Fits(f, h)
  {
  }

  lemma {:induction false} FitsAfter(f: Fields, a: seq<TaskHistory>, h: TaskHistory)
    requires forall i :: 0 <= i < |a| ==> a[i].field != h.field
    ensures Fits(Replay(f, a), h) <==> Fits(f, h)
  {
    if a != [] {
      var init, e := a[..|a| - 1], a[|a| - 1];
      FitsAfter(f, init, h);
      FitsElsewhere(Replay(f, init), e.field, e.newValue, h);
    }
  }

  /** One more optional entry, about a field not mentioned so far. */
  lemma AddOptional(f: Fields, a: seq<TaskHistory>, logged: bool, h: TaskHistory)
    requires forall i :: 0 <= i < |a| ==> a[i].field != h.field
    ensures Linked(f, a + (if logged then [h] else [])) <==> Linked(f, a) && (logged ==> Fits(f, h))
  {
    if logged {
      LinkedConcat(f, a, [h]);
      FitsAfter(f, a, h);
      assert [h][..0] == [];
    } else {
      assert a + [] == a;
    }
  }

  /** The row that was read agrees with the live one on the fields the update logs. */
  predicate LogsAgree(existing: Task, o: Task, n: Task, p: TaskPatch)
  {
    && (LogsTitle(existing, n, p) ==> existing.title == o.title)
    && (LogsDescription(existing, n, p) ==> existing.description == o.description)
    && (LogsStatus(existing, n, p) ==> existing.status == o.status)
    && (LogsAssignee(p) ==> existing.assigneeId == o.assigneeId)
  }

  lemma ShowInjective(a: Option<nat>, b: Option<nat>)
    ensures Show(a) == Show(b) <==> a == b
  {
    ShowParses(a);
    ShowParses(b);
  }

  /** The entries of one update follow on from the live row exactly when the logged fields of the row read are its. */
  lemma EntriesLinkedIff(id: nat, actor: nat, at: int, existing: Task, o: Task, n: Task, p: TaskPatch)
    ensures Linked(FieldsOf(o), HistoryEntries(id, actor, at, existing, n, p)) <==> LogsAgree(existing, o, n, p)
  {
    hide Linked, Fits, Show;
    var h1 := Entry(id, actor, at, F_TITLE, Some(existing.title), Some(n.title));
    var h2 := Entry(id, actor, at, F_DESCRIPTION, existing.description, n.description);
    var h3 := Entry(id, actor, at, F_STATUS, Some(existing.status), Some(n.status));
    var h4 := Entry(id, actor, at, F_ASSIGNEE, Show(existing.assigneeId), Show(n.assigneeId));
    var g1 := if LogsTitle(existing, n, p) then [h1] else [];
    var g2 := if LogsDescription(existing, n, p) then [h2] else [];
    var g3 := if LogsStatus(existing, n, p) then [h3] else [];
    var g4 := if LogsAssignee(p) then [h4] else [];
    var f := FieldsOf(o);
    LinkedNothing(f);
    AddOptional(f, [], LogsTitle(existing, n, p), h1);
    assert [] + g1 == g1;
    AddOptional(f, g1, LogsDescription(existing, n, p), h2);
    AddOptional(f, g1 + g2, LogsStatus(existing, n, p), h3);
    AddOptional(f, g1 + g2 + g3, LogsAssignee(p), h4);
    EntriesFitIff(existing, o, n, h1, h2, h3, h4);
    assert HistoryEntries(id, actor, at, existing, n, p) == g1 + g2 + g3 + g4;
  }

  lemma EntriesFitIff(existing: Task, o: Task, n: Task, h1: TaskHistory, h2: TaskHistory, h3: TaskHistory,
                      h4: TaskHistory)
    requires h1.field == F_TITLE && h1.oldValue == Some(existing.title) && h1.newValue == Some(n.title)
    requires h2.field == F_DESCRIPTION && h2.oldValue == existing.description && h2.newValue == n.description
    requires h3.field == F_STATUS && h3.oldValue == Some(existing.status) && h3.newValue == Some(n.status)
    requires h4.field == F_ASSIGNEE && h4.oldValue == Show(existing.assigneeId) && h4.newValue == Show(n.assigneeId)
    ensures Fits(FieldsOf(o), h1) <==> existing.title == o.title
    ensures Fits(FieldsOf(o), h2) <==> existing.description == o.description
    ensures Fits(FieldsOf(o), h3) <==> existing.status == o.status
    ensures Fits(FieldsOf(o), h4) <==> existing.assigneeId == o.assigneeId
  {
    ShowInjective(existing.assigneeId, o.assigneeId);
    ShowParses(n.assigneeId);
  }

  /** The row that was read agrees with the live one on every field the patch mentions. */
  predicate MentionsAgree(existing: Task, o: Task, p: TaskPatch)
  {
    && (p.title.Some? ==> existing.title == o.title)
    && (p.description.Some? ==> existing.description == o.description)
    && (p.status.Some? ==> existing.status == o.status)
    && (LogsAssignee(p) ==> existing.assigneeId == o.assigneeId)
  }

  /** After an update of a live row with a linked history: the OldValue chain holds if and only if the logged fields of
      the row read are the live ones, and chain and replay both hold if and only if all mentioned fields are. */
  lemma ChainSurvivesIff(h: seq<TaskHistory>, id: nat, actor: nat, at: int, created: Fields, existing: Task, o: Task,
                         p: TaskPatch, now: int)
    requires Linked(created, EntriesOf(h, id)) && Replay(created, EntriesOf(h, id)) == FieldsOf(o)
    ensures var n := ApplyPatch(o, p, now);
      var hs := EntriesOf(InsertAll(h, HistoryEntries(id, actor, at, existing, n, p)), id);
      && (Linked(created, hs) <==> LogsAgree(existing, o, n, p))
      && (Linked(created, hs) && Replay(created, hs) == FieldsOf(n) <==> MentionsAgree(existing, o, p))
  {
    var n := ApplyPatch(o, p, now);
    var es := HistoryEntries(id, actor, at, existing, n, p);
    var tail := InsertAll(h, es)[|h|..];
    EntriesAbout(id, actor, at, existing, n, p);
    InsertAllFrame(h, es, id, id);
    assert SameButIds(es, tail);
    IdsDoNotMatter(FieldsOf(o), es, tail);
    LinkedConcat(created, EntriesOf(h, id), tail);
    EntriesLinkedIff(id, actor, at, existing, o, n, p);
    ReplaySurvivesIff(h, id, actor, at, created, existing, o, p, now);
  }

  // ---- interleaved runs ------------------------------------------------------------------------

  /** The event commits an update's transaction. */
  predicate Commits(w: World, ev: Event)
  {
    ev.Resume? && ev.pid in w.pend && w.pend[ev.pid].RunUpdateTx? && Advance(w.sys, w.pend[ev.pid], ev.env).1.More?
  }

  lemma CommitsLive(w: World, ev: Event)
    requires Commits(w, ev)
    ensures var p := w.pend[ev.pid]; IsLive(w.sys.db.tasks, p.id)
    ensures var p, db := w.pend[ev.pid], w.sys.db; var t := ApplyPatch(db.tasks[p.id], p.patch, ev.env.now);
      Happen(w, ev).sys.db == db.(tasks := db.tasks[p.id := t],
        history := InsertAll(db.history, HistoryEntries(p.id, p.actor, p.at, p.existing, t, p.patch)))
  {
  }

  /** The committed update is of the kind the history does not show. */
  predicate CommitsUnrecorded(w: World, ev: Event)
  {
    Commits(w, ev) && w.pend[ev.pid].id in w.sys.db.tasks
    && var p := w.pend[ev.pid]; Unrecorded(p.existing, w.sys.db.tasks[p.id], p.patch)
  }

  /** The committed update had read a row that differs from the live one in a field it mentions. */
  predicate CommitsStale(w: World, ev: Event)
  {
    Commits(w, ev) && w.pend[ev.pid].id in w.sys.db.tasks
    && var p := w.pend[ev.pid]; !MentionsAgree(p.existing, w.sys.db.tasks[p.id], p.patch)
  }

  predicate TaskFolds(db: Db, origins: Rows, id: nat)
    requires id in db.tasks
  {
    id in origins && Replay(FieldsOf(origins[id]), EntriesOf(db.history, id)) == FieldsOf(db.tasks[id])
  }

  /** Folding each task's NewValues over its created row gives its current row. */
  ghost predicate AllFold(db: Db, origins: Rows)
  {
    && origins.Keys == db.tasks.Keys
    && forall id {:trigger TaskFolds(db, origins, id)} :: id in db.tasks ==> TaskFolds(db, origins, id)
  }

  /** Fields, history and created row of a task are as before, or it is new and as created. */
  predicate Untouched(w: World, w': World, id: nat)
    requires id in w'.sys.db.tasks
  {
    && id in w'.origins
    && if id in w.sys.db.tasks then
         && id in w.origins && w'.origins[id] == w.origins[id]
         && EntriesOf(w'.sys.db.history, id) == EntriesOf(w.sys.db.history, id)
         && FieldsOf(w'.sys.db.tasks[id]) == FieldsOf(w.sys.db.tasks[id])
       else EntriesOf(w'.sys.db.history, id) == [] && w'.origins[id] == w'.sys.db.tasks[id]
  }

  lemma NoEntriesYet(db: Db, id: nat)
    requires HistoryOk(db) && id !in db.tasks
    ensures EntriesOf(db.history, id) == []
  {
    assert forall i :: 0 <= i < |db.history| ==> db.history[i].taskId in db.tasks;
    EntriesOfNone(db.history, id);
  }

  /** Actions other than an update leave fields and history alone. */
  lemma OthersKeepFields(s: Sys, p: Pending, env: Env, id: nat)
    requires Inv(s.db) && !(p.RunUpdateTx? && Advance(s, p, env).1.More?)
    requires id in s.db.tasks
    ensures var db' := Advance(s, p, env).0.db;
      db'.history == s.db.history && id in db'.tasks && FieldsOf(db'.tasks[id]) == FieldsOf(s.db.tasks[id])
  {
    assert TaskOk(s.db, id);
  }

  lemma OthersKeepHistory(s: Sys, p: Pending, env: Env)
    requires !(p.RunUpdateTx? && Advance(s, p, env).1.More?)
    ensures Advance(s, p, env).0.db.history == s.db.history
  {
  }

  lemma NotCommittedUntouched(w: World, ev: Event, id: nat)
    requires WorldInv(w) && w.origins.Keys == w.sys.db.tasks.Keys && !Commits(w, ev)
    requires id in Happen(w, ev).sys.db.tasks
    ensures Untouched(w, Happen(w, ev), id)
  {
    var w' := Happen(w, ev);
    if ev.Resume? && ev.pid in w.pend {
      OthersKeepHistory(w.sys, w.pend[ev.pid], ev.env);
      if id in w.sys.db.tasks {
        OthersKeepFields(w.sys, w.pend[ev.pid], ev.env, id);
      } else {
        NoEntriesYet(w.sys.db, id);
      }
    }
  }

  lemma CommitUntouched(w: World, ev: Event, id: nat)
    requires w.origins.Keys == w.sys.db.tasks.Keys && Commits(w, ev) && id != w.pend[ev.pid].id
    requires id in Happen(w, ev).sys.db.tasks
    ensures Untouched(w, Happen(w, ev), id)
  {
    CommitsLive(w, ev);
    var p, db := w.pend[ev.pid], w.sys.db;
    var t := ApplyPatch(db.tasks[p.id], p.patch, ev.env.now);
    EntriesAbout(p.id, p.actor, p.at, p.existing, t, p.patch);
    InsertAllFrame(db.history, HistoryEntries(p.id, p.actor, p.at, p.existing, t, p.patch), p.id, id);
    NothingNew(w.origins, db, Happen(w, ev).sys.db);
  }

  lemma OriginsFollow(w: World, ev: Event)
    requires WorldInv(w) && w.origins.Keys == w.sys.db.tasks.Keys
    ensures Happen(w, ev).origins.Keys == Happen(w, ev).sys.db.tasks.Keys
  {
    HappenKeeps(w, ev);
  }

  /** One event keeps the fold if and only if it does not commit an unrecorded update. */
  lemma HappenFoldsIff(w: World, ev: Event)
    requires WorldInv(w) && AllFold(w.sys.db, w.origins)
    ensures AllFold(Happen(w, ev).sys.db, Happen(w, ev).origins) <==> !CommitsUnrecorded(w, ev)
  {
    var w' := Happen(w, ev);
    OriginsFollow(w, ev);
    forall id | id in w'.sys.db.tasks && !(Commits(w, ev) && w.pend[ev.pid].id == id)
      ensures TaskFolds(w'.sys.db, w'.origins, id)
    {
      assert id in w.sys.db.tasks ==> TaskFolds(w.sys.db, w.origins, id);
      if Commits(w, ev) { CommitUntouched(w, ev, id); } else { NotCommittedUntouched(w, ev, id); }
    }
    if Commits(w, ev) {
      CommittedFoldsIff(w, ev);
    }
  }

  lemma CommittedFoldsIff(w: World, ev: Event)
    requires AllFold(w.sys.db, w.origins) && Commits(w, ev)
    ensures var w', id := Happen(w, ev), w.pend[ev.pid].id;
      id in w.sys.db.tasks && id in w'.sys.db.tasks
      && (TaskFolds(w'.sys.db, w'.origins, id) <==> !CommitsUnrecorded(w, ev))
  {
    CommitsLive(w, ev);
    var p, db := w.pend[ev.pid], w.sys.db;
    assert TaskFolds(db, w.origins, p.id);
    NothingNew(w.origins, db, Happen(w, ev).sys.db);
    ReplaySurvivesIff(db.history, p.id, p.actor, p.at, FieldsOf(w.origins[p.id]), p.existing, db.tasks[p.id], p.patch,
                      ev.env.now);
  }

  /** One event keeps replay and chain if and only if it does not commit a stale update. */
  lemma HappenReplaysIff(w: World, ev: Event)
    requires WorldInv(w) && AllReplay(w.sys.db, w.origins)
    ensures AllReplay(Happen(w, ev).sys.db, Happen(w, ev).origins) <==> !CommitsStale(w, ev)
  {
    var w' := Happen(w, ev);
    OriginsFollow(w, ev);
    forall id | id in w'.sys.db.tasks && !(Commits(w, ev) && w.pend[ev.pid].id == id)
      ensures TaskReplays(w'.sys.db, w'.origins, id)
    {
      assert id in w.sys.db.tasks ==> TaskReplays(w.sys.db, w.origins, id);
      if Commits(w, ev) { CommitUntouched(w, ev, id); } else { NotCommittedUntouched(w, ev, id); }
    }
    if Commits(w, ev) {
      CommittedReplaysIff(w, ev);
    }
  }

  lemma CommittedReplaysIff(w: World, ev: Event)
    requires AllReplay(w.sys.db, w.origins) && Commits(w, ev)
    ensures var w', id := Happen(w, ev), w.pend[ev.pid].id;
      id in w.sys.db.tasks && id in w'.sys.db.tasks
      && (TaskReplays(w'.sys.db, w'.origins, id) <==> !CommitsStale(w, ev))
  {
    CommitsLive(w, ev);
    var p, db := w.pend[ev.pid], w.sys.db;
    assert TaskReplays(db, w.origins, p.id);
    NothingNew(w.origins, db, Happen(w, ev).sys.db);
    ChainSurvivesIff(db.history, p.id, p.actor, p.at, FieldsOf(w.origins[p.id]), p.existing, db.tasks[p.id], p.patch,
                     ev.env.now);
  }

  ghost predicate FoldsUpTo(w: World, evs: seq<Event>, m: nat)
    requires m <= |evs|
  {
    forall n {:trigger Before(w, evs, n)} :: 0 <= n <= m ==>
      AllFold(Before(w, evs, n).sys.db, Before(w, evs, n).origins)
  }

  ghost predicate RecordedUpTo(w: World, evs: seq<Event>, m: nat)
    requires m <= |evs|
  {
    forall n {:trigger evs[n]} :: 0 <= n < m ==> !CommitsUnrecorded(Before(w, evs, n), evs[n])
  }

  /** In every interleaving: the history folds to the current rows throughout if and only if no committed update is of
      the unrecorded kind against the row it changes. */
  lemma {:induction false} FoldsThroughoutIff(w: World, evs: seq<Event>, m: nat)
    requires WorldInv(w) && AllFold(w.sys.db, w.origins) && m <= |evs|
    ensures FoldsUpTo(w, evs, m) <==> RecordedUpTo(w, evs, m)
  {
    hide AllFold, CommitsUnrecorded, WorldInv, Happen, Run, Evolves;
    if m == 0 {
      BeforeFirst(w, evs);
    } else {
      FoldsThroughoutIff(w, evs, m - 1);
      RunKeepsWorld(w, evs[..m - 1]);
      BeforeNext(w, evs, m - 1);
      var mid := Before(w, evs, m - 1);
      if AllFold(mid.sys.db, mid.origins) {
        HappenFoldsIff(mid, evs[m - 1]);
      } else {
        assert !FoldsUpTo(w, evs, m - 1);
      }
    }
  }

  ghost predicate ReplaysUpTo(w: World, evs: seq<Event>, m: nat)
    requires m <= |evs|
  {
    forall n {:trigger Before(w, evs, n)} :: 0 <= n <= m ==>
      AllReplay(Before(w, evs, n).sys.db, Before(w, evs, n).origins)
  }

  ghost predicate CurrentUpTo(w: World, evs: seq<Event>, m: nat)
    requires m <= |evs|
  {
    forall n {:trigger evs[n]} :: 0 <= n < m ==> !CommitsStale(Before(w, evs, n), evs[n])
  }

  /** In every interleaving: every history replays, undoes and chains as in a sequential run, throughout, if and only if
      every committed update had read the live values of the fields it mentions. */
  lemma {:induction false} ReplaysThroughoutIff(w: World, evs: seq<Event>, m: nat)
    requires WorldInv(w) && AllReplay(w.sys.db, w.origins) && m <= |evs|
    ensures ReplaysUpTo(w, evs, m) <==> CurrentUpTo(w, evs, m)
  {
    hide AllReplay, CommitsStale, WorldInv, Happen, Run, Evolves;
    if m == 0 {
      BeforeFirst(w, evs);
    } else {
      ReplaysThroughoutIff(w, evs, m - 1);
      RunKeepsWorld(w, evs[..m - 1]);
      BeforeNext(w, evs, m - 1);
      var mid := Before(w, evs, m - 1);
      if AllReplay(mid.sys.db, mid.origins) {
        HappenReplaysIff(mid, evs[m - 1]);
      } else {
        assert !ReplaysUpTo(w, evs, m - 1);
      }
    }
  }

  /** Both hold of the empty service. */
  lemma GenesisReplays(users: set<nat>, cache: Option<Cached>)
    ensures var g := Genesis(users, cache);
      WorldInv(g) && AllFold(g.sys.db, g.origins) && AllReplay(g.sys.db, g.origins)
  {
    GenesisOk(users, cache);
  }

  // ---- a run whose history does not add up -----------------------------------------------------

  function Retitle(title: string): Op { UpdateTask(1, 1, UpdateTaskRequest(Some(title), None, None, None)) }

  /** A task titled "x". */
  function OneTask(): World
  {
    var db := WithTask(1, TODO, None);
    World(Sys(db, None), map[], db.tasks, {})
  }

  /** One member asks for the title it already has, another changes it, and the first one's transaction comes last. */
  function LostTitle(): seq<Event>
  {
    [Start(1, Retitle("x"), QUIET), Start(2, Retitle("y"), QUIET), Resume(2, QUIET), Resume(1, QUIET)]
  }

  lemma RetitlePatch(title: string)
    requires title == "x" || title == "y"
    ensures BuildPatch(Retitle(title).update) == Some(TaskPatch(Some(title), None, None, None, false))
  {
    OneLetter();
    assert TrimLeft("y") == "y";
    assert "y"[..0] == "";
  }

  function Retitling(title: string): Pending
  {
    RunUpdateTx(1, 1, TaskPatch(Some(title), None, None, None, false), FirstTask(1, TODO, None), 0)
  }

  lemma RetitleStarts(title: string)
    requires title == "x" || title == "y"
    ensures Begin(OneTask().sys.db, Retitle(title), QUIET) == More(Retitling(title))
  {
    RetitlePatch(title);
  }

  function Titled(title: string): Task { FirstTask(1, TODO, None).(title := title) }

  /** What a retitling makes of the tables, when the task is titled `current` by then. */
  lemma RetitleCommits(db: Db, current: string, title: string)
    requires db.tasks == map[1 := Titled(current)]
    ensures var es := if title == "x" then [] else [Entry(1, 1, 0, F_TITLE, Some("x"), Some(title))];
      AdvanceUpdateTx(db, Retitling(title), QUIET).0 ==
        db.(tasks := map[1 := Titled(title)], history := InsertAll(db.history, es))
    ensures AdvanceUpdateTx(db, Retitling(title), QUIET).1.More?
  {
    assert db.tasks[1 := Titled(title)] == map[1 := Titled(title)];
    assert ApplyPatch(Titled(current), Retitling(title).patch, 0) == Titled(title);
  }

  lemma OneTaskOk()
    ensures WorldInv(OneTask()) && AllFold(OneTask().sys.db, OneTask().origins)
  {
    OneLetter();
    var db := OneTask().sys.db;
    assert TaskOk(db, 1);
    assert TaskFolds(db, db.tasks, 1);
  }

  /** The one entry the run writes. */
  const RETITLED := TaskHistory(1, 1, 1, F_TITLE, Some("x"), Some("y"), 0)

  /** The tables with the task titled `title`, after the entry. */
  function Afterwards(title: string): Db
  {
    OneTask().sys.db.(tasks := map[1 := Titled(title)], history := [RETITLED])
  }

  lemma FirstCommits()
    ensures var db := OneTask().sys.db;
      AdvanceUpdateTx(db, Retitling("y"), QUIET) == (Afterwards("y"), More(Invalidate(1, 0, TaskReply(Titled("y")))))
  {
    var db := OneTask().sys.db;
    RetitleCommits(db, "x", "y");
    var e := Entry(1, 1, 0, F_TITLE, Some("x"), Some("y"));
    assert InsertAll([], [e]) == [RETITLED];
  }

  lemma SecondCommits()
    ensures AdvanceUpdateTx(Afterwards("y"), Retitling("x"), QUIET) ==
      (Afterwards("x"), More(Invalidate(1, 0, TaskReply(Titled("x")))))
  {
    RetitleCommits(Afterwards("y"), "y", "x");
    assert InsertAll([RETITLED], []) == [RETITLED];
  }

  /** A commit of request `pid`, with the other request's state as it was. */
  lemma CommitHappens(w: World, pid: nat, db': Db, next: Pending)
    requires pid in w.pend && w.pend[pid].RunUpdateTx?
    requires AdvanceUpdateTx(w.sys.db, w.pend[pid], QUIET) == (db', More(next))
    requires db'.tasks.Keys == w.sys.db.tasks.Keys
    ensures Happen(w, Resume(pid, QUIET)) == w.(sys := w.sys.(db := db'), pend := w.pend[pid := next])
  {
    NothingNew(w.origins, w.sys.db, db');
  }

  lemma OneTaskRows()
    ensures OneTask().sys.db.tasks == map[1 := Titled("x")]
  {
  }

  lemma LostTitleEnds()
    ensures var w := Run(OneTask(), LostTitle());
      w.sys.db == Afterwards("x") && w.pend.Keys == {1, 2} && w.origins == OneTask().origins
  {
    hide AdvanceUpdateTx, Advance, WithTask, Retitle, Begin;
    var w0, evs := OneTask(), LostTitle();
    OneTaskRows();
    RetitleStarts("x");
    RetitleStarts("y");
    FirstCommits();
    SecondCommits();
    assert evs[..4] == evs;
    RunFour(w0, evs);
    var w2 := w0.(pend := map[1 := Retitling("x"), 2 := Retitling("y")]);
    assert Happen(Happen(w0, evs[0]), evs[1]) == w2;
    var done := Invalidate(1, 0, TaskReply(Titled("y")));
    CommitHappens(w2, 2, Afterwards("y"), done);
    var w3 := w2.(sys := w2.sys.(db := Afterwards("y")), pend := w2.pend[2 := done]);
    CommitHappens(w3, 1, Afterwards("x"), Invalidate(1, 0, TaskReply(Titled("x"))));
  }

  /** A fault-free interleaving after which the task is titled "x", while its history ends with the title "y". */
  lemma HistoryLosesTitle()
    ensures WorldInv(OneTask()) && AllFold(OneTask().sys.db, OneTask().origins)
    ensures var w := Run(OneTask(), LostTitle());
      && 1 in w.sys.db.tasks && w.sys.db.tasks[1].title == "x"
      && Replay(FieldsOf(OneTask().sys.db.tasks[1]), EntriesOf(w.sys.db.history, 1)).title == "y"
      && !AllFold(w.sys.db, w.origins)
  {
    OneTaskOk();
    LostTitleEnds();
    hide Run;
    var f, h := FieldsOf(Titled("x")), [RETITLED];
    assert h[..0] == [];
    assert EntriesOf(h, 1) == EntriesOf([], 1) + h == h;
    assert Replay(f, h) == Put(f, F_TITLE, Some("y"));
    var w := Run(OneTask(), LostTitle());
    assert AllFold(w.sys.db, w.origins) ==> TaskFolds(w.sys.db, w.origins, 1);
  }
}
