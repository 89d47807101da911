/** The database handle, transactions, and the repositories that run statements on it. */
module Repositories {

  import opened Wrappers
  import opened Text
  import opened Entities
  import opened Filter
  import opened Tables
  import opened Queries
  import Sql

  /** The tables behind a connection pool, and the statements it executes. A `fails` flag is any driver error. */
  class Database {
    var tables: Db

    constructor (tables: Db)
      ensures this.tables == tables
    {
      this.tables := tables;
    }

    method SelectTasks(text: string, args: seq<Sql.Value>, fails: bool) returns (r: Result<seq<Task>>)
      ensures var rows := Sql.RunSelect(tables.tasks, tables.nextTask, text, args);
        r == if fails || rows.None? then Err(Internal) else Ok(rows.value)
    {
      var rows := Sql.RunSelect(tables.tasks, tables.nextTask, text, args);
      r := if fails || rows.None? then Err(Internal) else Ok(rows.value);
    }

    method CountTasks(text: string, args: seq<Sql.Value>, fails: bool) returns (r: Result<nat>)
      ensures var n := Sql.RunCount(tables.tasks, tables.nextTask, text, args);
        r == if fails || n.None? then Err(Internal) else Ok(n.value)
    {
      var n := Sql.RunCount(tables.tasks, tables.nextTask, text, args);
      r := if fails || n.None? then Err(Internal) else Ok(n.value);
    }

    /** An UPDATE of tasks. */
    method ExecUpdate(text: string, args: seq<Sql.Value>, now: int, foundRows: bool, fails: bool)
      returns (r: Result<nat>)
      modifies this
      ensures var u := Sql.RunUpdate(old(tables.tasks), old(tables.nextTask), text, args, now);
        (tables, r) == Updating(old(tables), u, foundRows, fails)
    {
      var u := Sql.RunUpdate(tables.tasks, tables.nextTask, text, args, now);
      var (after, res) := Updating(tables, u, foundRows, fails);
      tables := after;
      r := res;
    }
  }

  /** What executing an update that was read as `u` comes to: an error leaves the tables alone, and a row may only take
      an assignee that is a registered user. */
  function Updating(db: Db, u: Option<Sql.Updated>, foundRows: bool, fails: bool): (Db, Result<nat>)
  {
    if fails || u.None? || BreaksForeignKey(db, u.value) then (db, Err(Internal))
    else (db.(tasks := u.value.rows), Ok(Sql.RowsAffected(db.tasks, u.value, foundRows)))
  }

  predicate BreaksForeignKey(db: Db, u: Sql.Updated)
  {
    exists id :: id in u.matched && id in u.rows && u.rows[id].assigneeId.Some?
      && u.rows[id].assigneeId.value !in db.users && id in db.tasks
      && u.rows[id].assigneeId != db.tasks[id].assigneeId
  }

  /** An update of at most one row: what it reports, and when the foreign key stops it. */
  lemma OneRowUpdating(db: Db, id: nat, after: Task, foundRows: bool)
    requires id in db.tasks
    ensures var u := Some(Sql.Updated(db.tasks[id := after], {id}));
      Updating(db, u, foundRows, false) ==
        if after.assigneeId.Some? && after.assigneeId.value !in db.users && after.assigneeId != db.tasks[id].assigneeId
        then (db, Err(Internal))
        else (db.(tasks := db.tasks[id := after]), Ok(if foundRows || after != db.tasks[id] then 1 else 0))
  {
    var one := Sql.Updated(db.tasks[id := after], {id});
    assert (set i | i in one.matched && Sql.Counts(db.tasks, one, foundRows, i)) ==
      if foundRows || after != db.tasks[id] then {id} else {};
  }

  lemma NoRowUpdating(db: Db, foundRows: bool)
    ensures Updating(db, Some(Sql.Updated(db.tasks, {})), foundRows, false) == (db, Ok(0))
  {
    var none := Sql.Updated(db.tasks, {});
    assert (set i | i in none.matched && Sql.Counts(db.tasks, none, foundRows, i)) == {};
    assert db.(tasks := db.tasks) == db;
  }

  /** The keys the schema of `tasks` declares. */
  ghost predicate KeysOk(db: Db)
  {
    forall i :: i in db.tasks ==>
      db.tasks[i].id == i < db.nextTask && (db.tasks[i].assigneeId.Some? ==> db.tasks[i].assigneeId.value in db.users)
  }

  /** A transaction: what it began from can be restored until it commits. */
  class Tx {
    const db: Database
    const saved: Db

    constructor Begin(db: Database)
      ensures this.db == db && saved == db.tables
    {
      this.db := db;
      saved := db.tables;
    }

    method Rollback()
      modifies db
      ensures db.tables == saved
    {
      db.tables := saved;
    }
  }

  class TaskRepo {
    const db: Database

    constructor (db: Database)
      ensures this.db == db
    {
      this.db := db;
    }

    method Create(t: Task, fails: bool) returns (r: Result<nat>)
      modifies db
      ensures var t0 := old(db.tables);
        if fails || (t.assigneeId.Some? && t.assigneeId.value !in t0.users) then
          r == Err(Internal) && db.tables == t0
        else
          && r == Ok(t0.nextTask)
          && db.tables == t0.(tasks := t0.tasks[t0.nextTask := t.(id := t0.nextTask)], nextTask := t0.nextTask + 1)
    {
      if fails || (t.assigneeId.Some? && t.assigneeId.value !in db.tables.users) {
        return Err(Internal);
      }
      var id := db.tables.nextTask;
      db.tables := db.tables.(tasks := db.tables.tasks[id := t.(id := id)], nextTask := id + 1);
      r := Ok(id);
    }

    /** Finds deleted rows too. */
    method FindByID(id: nat, fails: bool) returns (r: Result<Task>)
      ensures r == if fails then Err(Internal)
        else if id in db.tables.tasks then Ok(db.tables.tasks[id]) else Err(NotFound)
    {
      r := if fails then Err(Internal) else if id in db.tables.tasks then Ok(db.tables.tasks[id]) else Err(NotFound);
    }

    /** `buildTaskListWhere`. */
    method BuildTaskListWhere(f: TaskFilter) returns (clause: string, args: seq<Sql.Value>, conds: seq<string>)
      ensures conds == Sql.Texts(FilterTerms(f)) && args == Sql.Args(FilterTerms(f)) && clause == WhereText(f)
      ensures Sql.Placeholders(clause) == |args|
    {
      ArgTexts();
      conds, args := [], [];
      ghost var t1 := if f.teamId != 0 then [Sql.EqArg("team_id", Sql.VInt(f.teamId))] else [];
      if f.teamId != 0 {
        Appended([], "team_id", Sql.VInt(f.teamId));
        conds := conds + ["team_id = ?"];
        args := args + [Sql.VInt(f.teamId)];
      }
      assert conds == Sql.Texts(t1) && args == Sql.Args(t1);
      ghost var t2 := t1 + (if f.status != "" then [Sql.EqArg("status", Sql.VStr(f.status))] else []);
      if f.status != "" {
        Appended(t1, "status", Sql.VStr(f.status));
        conds := conds + ["status = ?"];
        args := args + [Sql.VStr(f.status)];
      } else {
        assert t2 == t1;
      }
      assert conds == Sql.Texts(t2) && args == Sql.Args(t2);
      ghost var t3 := t2 +
        (if f.assigneeId.Some? then [Sql.EqArg("assignee_id", Sql.VInt(f.assigneeId.value))] else []);
      if f.assigneeId.Some? {
        Appended(t2, "assignee_id", Sql.VInt(f.assigneeId.value));
        conds := conds + ["assignee_id = ?"];
        args := args + [Sql.VInt(f.assigneeId.value)];
      } else {
        assert t3 == t2;
      }
      assert conds == Sql.Texts(t3) && args == Sql.Args(t3);
      ConstantTexts();
      Sql.AppendTerm(t3, Sql.IsNull("deleted_at"));
      conds := conds + ["deleted_at IS NULL"];
      clause := "";
      if |conds| > 0 {
        clause := "WHERE " + Join(conds, " AND ");
      }
      FilterPlaceholders(f);
    }

    method List(f: TaskFilter, fails: bool) returns (r: Result<seq<Task>>)
      ensures r == if ListRows(db.tables, f).Err? then ListRows(db.tables, f)
        else if fails then Err(Internal) else ListRows(db.tables, f)
    {
      var clause, args, _ := BuildTaskListWhere(f);
      var q := clause + Sql.LIST_TAIL;
      args := args + [Sql.VInt(f.limit), Sql.VInt(Offset(f))];
      ListQueryMeans(db.tables.tasks, db.tables.nextTask, f, f.limit, Offset(f));
      r := db.SelectTasks(q, args, fails);
    }

    method Count(f: TaskFilter, fails: bool) returns (r: Result<nat>)
      ensures r == if fails then Err(Internal) else Ok(|Matching(db.tables, f)|)
    {
      var clause, args, conds := BuildTaskListWhere(f);
      if |conds| == 1 {
        clause := "WHERE " + Join(conds, " AND ");
      }
      CountQueryMeans(db.tables.tasks, db.tables.nextTask, f);
      r := db.CountTasks(clause, args, fails);
    }

    method FindByIDWith(id: nat) returns (t: Option<Task>)
      ensures t == if id in db.tables.tasks then Some(db.tables.tasks[id]) else None
    {
      t := if id in db.tables.tasks then Some(db.tables.tasks[id]) else None;
    }

    /** The SET clause of `UpdateTx`. */
    method BuildSet(patch: TaskPatch) returns (assigns: seq<string>, args: seq<Sql.Value>)
      ensures assigns == Sql.Texts(PatchTerms(patch)) && args == Sql.Args(PatchTerms(patch))
    {
      ArgTexts();
      assigns, args := [], [];
      ghost var t1 := if patch.title.Some? then [Sql.EqArg("title", Sql.VStr(patch.title.value))] else [];
      if patch.title.Some? {
        Appended([], "title", Sql.VStr(patch.title.value));
        assigns := assigns + ["title = ?"];
        args := args + [Sql.VStr(patch.title.value)];
      }
      assert assigns == Sql.Texts(t1) && args == Sql.Args(t1);
      ghost var t2 := t1 +
        (if patch.description.Some? then [Sql.EqArg("description", Sql.VStr(patch.description.value))] else []);
      if patch.description.Some? {
        Appended(t1, "description", Sql.VStr(patch.description.value));
        assigns := assigns + ["description = ?"];
        args := args + [Sql.VStr(patch.description.value)];
      } else {
        assert t2 == t1;
      }
      assert assigns == Sql.Texts(t2) && args == Sql.Args(t2);
      ghost var t3 := t2 + (if patch.status.Some? then [Sql.EqArg("status", Sql.VStr(patch.status.value))] else []);
      if patch.status.Some? {
        Appended(t2, "status", Sql.VStr(patch.status.value));
        assigns := assigns + ["status = ?"];
        args := args + [Sql.VStr(patch.status.value)];
      } else {
        assert t3 == t2;
      }
      assert assigns == Sql.Texts(t3) && args == Sql.Args(t3);
      ghost var t4 := t3 +
        (if patch.clearAssignee then [Sql.EqNull("assignee_id")]
         else if patch.assigneeId.Some? then [Sql.EqArg("assignee_id", Sql.VInt(patch.assigneeId.value))]
         else []);
      if patch.clearAssignee {
        ConstantTexts();
        Sql.AppendTerm(t3, Sql.EqNull("assignee_id"));
        assigns := assigns + ["assignee_id = NULL"];
      } else if patch.assigneeId.Some? {
        Appended(t3, "assignee_id", Sql.VInt(patch.assigneeId.value));
        assigns := assigns + ["assignee_id = ?"];
        args := args + [Sql.VInt(patch.assigneeId.value)];
      } else {
        assert t4 == t3;
      }
      assert assigns == Sql.Texts(t4) && args == Sql.Args(t4);
      ConstantTexts();
      Sql.AppendTerm(t4, Sql.EqNow("updated_at"));
      assigns := assigns + ["updated_at = CURRENT_TIMESTAMP"];
    }

    /** A nil row without an error is possible only for the empty patch of a missing task. */
    method UpdateTx(id: nat, patch: TaskPatch, now: int, foundRows: bool, fails: bool)
      returns (r: Result<Option<Task>>)
      requires KeysOk(db.tables)
      modifies db
      ensures var t0 := old(db.tables);
        if patch.Empty() then
          db.tables == t0 && r == Ok(if id in t0.tasks then Some(t0.tasks[id]) else None)
        else if fails then db.tables == t0 && r == Err(Internal)
        else if !IsLive(t0.tasks, id) then db.tables == t0 && r == Err(NotFound)
        else if !patch.clearAssignee && patch.assigneeId.Some? && patch.assigneeId.value !in t0.users then
          db.tables == t0 && r == Err(Internal)
        else
          var t := ApplyPatch(t0.tasks[id], patch, now);
          db.tables == t0.(tasks := t0.tasks[id := t]) && r == Ok(Some(t))
    {
      if patch.title.None? && patch.description.None? && patch.status.None? && patch.assigneeId.None?
         && !patch.clearAssignee {
        var row := FindByIDWith(id);
        return Ok(row);
      }
      var assigns, args := BuildSet(patch);
      var q := "UPDATE tasks SET " + Join(assigns, ", ") + " WHERE " + LIVE_TEXT;
      args := args + [Sql.VInt(id)];
      PatchQueryMeans(db.tables.tasks, db.tables.nextTask, patch, id, now);
      NoRowUpdating(db.tables, foundRows);
      if IsLive(db.tables.tasks, id) {
        OneRowUpdating(db.tables, id, ApplyPatch(db.tables.tasks[id], patch, now), foundRows);
      }
      var res := db.ExecUpdate(q, args, now, foundRows, fails);
      if res.Err? {
        return Err(res.error);
      }
      var updated := FindByIDWith(id);
      if updated.None? {
        return Err(NotFound);
      }
      if res.value == 0 && updated.value.deletedAt.Some? {
        return Err(NotFound);
      }
      r := Ok(updated);
    }

    /** With no row affected the source looks the row up; missing or deleted, the answer is the same. */
    method SoftDelete(id: nat, now: int, foundRows: bool, fails: bool) returns (r: Result<()>)
      requires KeysOk(db.tables)
      modifies db
      ensures var t0 := old(db.tables);
        if fails then db.tables == t0 && r == Err(Internal)
        else if !IsLive(t0.tasks, id) then db.tables == t0 && r == Err(NotFound)
        else db.tables == t0.(tasks := t0.tasks[id := Deleted(t0.tasks[id], now)]) && r == Ok(())
    {
      DeleteQueryMeans(db.tables.tasks, db.tables.nextTask, id, now);
      NoRowUpdating(db.tables, foundRows);
      if IsLive(db.tables.tasks, id) {
        OneRowUpdating(db.tables, id, Deleted(db.tables.tasks[id], now), foundRows);
      }
      var q := UpdateText([Sql.EqNow("deleted_at")]);
      var res := db.ExecUpdate(q, [Sql.VInt(id)], now, foundRows, fails);
      if res.Err? {
        return Err(res.error);
      }
      if res.value == 0 {
        return Err(NotFound);
      }
      r := Ok(());
    }
  }

  class HistoryRepo {
    const db: Database

    constructor (db: Database)
      ensures this.db == db
    {
      this.db := db;
    }

    method InsertTx(h: TaskHistory, fails: bool) returns (ok: bool)
      modifies db
      ensures ok == !fails
      ensures db.tables == if fails then old(db.tables)
        else old(db.tables).(history := old(db.tables).history + [h.(id := |old(db.tables).history| + 1)])
    {
      if fails {
        return false;
      }
      db.tables := db.tables.(history := db.tables.history + [h.(id := |db.tables.history| + 1)]);
      ok := true;
    }

    method ListByTask(taskId: nat, fails: bool) returns (r: Result<seq<TaskHistory>>)
      ensures r == if fails then Err(Internal) else Ok(EntriesOf(db.tables.history, taskId))
    {
      r := if fails then Err(Internal) else Ok(EntriesOf(db.tables.history, taskId));
    }
  }

  class TeamRepo {
    const db: Database

    constructor (db: Database)
      ensures this.db == db
    {
      this.db := db;
    }

    method Create(t: Team, fails: bool) returns (r: Result<nat>)
      modifies db
      ensures var t0 := old(db.tables);
        if fails then r == Err(Internal) && db.tables == t0
        else
          && r == Ok(t0.nextTeam)
          && db.tables == t0.(teams := t0.teams[t0.nextTeam := t.(id := t0.nextTeam)], nextTeam := t0.nextTeam + 1)
    {
      if fails {
        return Err(Internal);
      }
      var id := db.tables.nextTeam;
      db.tables := db.tables.(teams := db.tables.teams[id := t.(id := id)], nextTeam := id + 1);
      r := Ok(id);
    }

    /** The primary key (user, team) rejects a second row. */
    method AddMember(m: TeamMember, fails: bool) returns (r: Result<()>)
      modifies db
      ensures var t0 := old(db.tables);
        if fails then r == Err(Internal) && db.tables == t0
        else if IsMember(t0, m.teamId, m.userId) then r == Err(AlreadyExists) && db.tables == t0
        else r == Ok(()) && db.tables == t0.(members := t0.members[(m.teamId, m.userId) := m])
    {
      if fails {
        return Err(Internal);
      }
      if IsMember(db.tables, m.teamId, m.userId) {
        return Err(AlreadyExists);
      }
      db.tables := db.tables.(members := db.tables.members[(m.teamId, m.userId) := m]);
      r := Ok(());
    }

    method GetMember(teamId: nat, userId: nat, fails: bool) returns (r: Result<TeamMember>)
      ensures r == if fails then Err(Internal)
        else if IsMember(db.tables, teamId, userId) then Ok(db.tables.members[(teamId, userId)]) else Err(NotFound)
    {
      r := if fails then Err(Internal)
        else if IsMember(db.tables, teamId, userId) then Ok(db.tables.members[(teamId, userId)]) else Err(NotFound);
    }
  }

  class CommentRepo {
    const db: Database

    constructor (db: Database)
      ensures this.db == db
    {
      this.db := db;
    }

    method Create(c: TaskComment, fails: bool) returns (r: Result<nat>)
      modifies db
      ensures var t0 := old(db.tables);
        if fails then r == Err(Internal) && db.tables == t0
        else
          && r == Ok(|t0.comments| + 1)
          && db.tables == t0.(comments := t0.comments + [c.(id := |t0.comments| + 1)])
    {
      if fails {
        return Err(Internal);
      }
      var id := |db.tables.comments| + 1;
      db.tables := db.tables.(comments := db.tables.comments + [c.(id := id)]);
      r := Ok(id);
    }
  }
}
