/** How team membership grows: every member can be traced back to the team's creator through invitations by people
    entitled to invite. */
module Membership {

  import opened Wrappers
  import opened Text
  import opened Entities
  import opened Tables
  import opened Requests
  import opened Invariants
  import opened Interleaving
  import opened CacheIndex

  /** a, an owner or admin of the team, invited b. */
  predicate Link(db: Db, invited: set<(nat, nat, nat)>, team: nat, a: nat, b: nat)
  {
    (team, a, b) in invited && IsMember(db, team, a) && CanInvite(db.members[(team, a)].role) && IsMember(db, team, b)
  }

  predicate HasOwner(db: Db, team: nat)
  {
    && team in db.teams
    && var creator := db.teams[team].createdBy;
       IsMember(db, team, creator) && db.members[(team, creator)].role == OWNER
  }

  /** A chain of invitations from the creator, in which nobody occurs twice. */
  ghost predicate Chain(db: Db, invited: set<(nat, nat, nat)>, team: nat, path: seq<nat>)
  {
    && path != [] && HasOwner(db, team) && path[0] == db.teams[team].createdBy
    && (forall k :: 0 <= k < |path| ==> IsMember(db, team, path[k]))
    && (forall k :: 0 < k < |path| ==> Link(db, invited, team, path[k - 1], path[k]))
    && (forall i, j :: 0 <= i < j < |path| ==> path[i] != path[j])
  }

  ghost predicate Traced(db: Db, invited: set<(nat, nat, nat)>, team: nat, user: nat)
  {
    exists path :: Chain(db, invited, team, path) && path[|path| - 1] == user
  }

  ghost predicate AllTraced(w: World)
  {
    forall t, u :: IsMember(w.sys.db, t, u) ==> Traced(w.sys.db, w.invited, t, u)
  }

  /** Chains survive: member and team rows never change, invitations are never forgotten. */
  lemma TracedLater(db: Db, db': Db, invited: set<(nat, nat, nat)>, invited': set<(nat, nat, nat)>, team: nat,
                    user: nat)
    requires Evolves(db, db') && invited <= invited' && Traced(db, invited, team, user)
    ensures Traced(db', invited', team, user)
  {
    var path :| Chain(db, invited, team, path) && path[|path| - 1] == user;
    assert HasOwner(db', team);
    assert forall k :: 0 < k < |path| ==> Link(db, invited, team, path[k - 1], path[k]);
    assert forall k :: 0 <= k < |path| ==> IsMember(db, team, path[k]);
    assert Chain(db', invited', team, path);
  }

  lemma OwnerTraced(db: Db, invited: set<(nat, nat, nat)>, team: nat)
    requires HasOwner(db, team)
    ensures Traced(db, invited, team, db.teams[team].createdBy)
  {
    assert Chain(db, invited, team, [db.teams[team].createdBy]);
  }

  /** The invited extend their inviter's chain. */
  lemma InviteeTraced(db: Db, db': Db, invited: set<(nat, nat, nat)>, team: nat, a: nat, b: nat)
    requires Evolves(db, db') && Traced(db, invited, team, a) && !IsMember(db, team, b) && IsMember(db', team, b)
    requires CanInvite(db.members[(team, a)].role)
    ensures Traced(db', invited + {(team, a, b)}, team, b)
  {
    var path :| Chain(db, invited, team, path) && path[|path| - 1] == a;
    var longer, more := path + [b], invited + {(team, a, b)};
    assert forall k :: 0 <= k < |path| ==> IsMember(db, team, path[k]);
    forall k | 0 < k < |longer| ensures Link(db', more, team, longer[k - 1], longer[k]) {
      assert k < |path| ==> Link(db, invited, team, path[k - 1], path[k]);
    }
    assert HasOwner(db', team);
    assert Chain(db', more, team, longer);
  }

  /** A new member is a team's creator, made its owner, or was invited by someone entitled to. */
  lemma NewMember(s: Sys, p: Pending, env: Env, team: nat, user: nat)
    requires PendingOk(s.db, p)
    requires IsMember(Advance(s, p, env).0.db, team, user) && !IsMember(s.db, team, user)
    ensures if p.AddOwner? then
        HasOwner(Advance(s, p, env).0.db, team) && user == s.db.teams[team].createdBy == p.team.createdBy
        && Advance(s, p, env).0.db.teams == s.db.teams
      else p.AddMember? && team == p.member.teamId && user == p.member.userId
  {
  }

  lemma ResumeTraces(w: World, pid: nat, env: Env)
    requires WorldInv(w) && AllTraced(w) && pid in w.pend
    ensures AllTraced(Happen(w, Resume(pid, env)))
  {
    var w', p := Happen(w, Resume(pid, env)), w.pend[pid];
    var db, db' := w.sys.db, w'.sys.db;
    ResumeKeeps(w, pid, env);
    forall t, u | IsMember(db', t, u) ensures Traced(db', w'.invited, t, u) {
      if IsMember(db, t, u) {
        TracedLater(db, db', w.invited, w'.invited, t, u);
      } else {
        NewMember(w.sys, p, env, t, u);
        if p.AddOwner? {
          OwnerTraced(db', w'.invited, t);
        } else {
          InviteeTraced(db, db', w.invited, t, p.inviter, u);
        }
      }
    }
  }

  lemma {:induction false} RunTraces(w: World, evs: seq<Event>)
    requires WorldInv(w) && AllTraced(w)
    ensures AllTraced(Run(w, evs))
  {
    if evs != [] {
      var mid, ev := Run(w, evs[..|evs| - 1]), evs[|evs| - 1];
      RunTraces(w, evs[..|evs| - 1]);
      RunKeepsWorld(w, evs[..|evs| - 1]);
      if ev.Resume? && ev.pid in mid.pend { ResumeTraces(mid, ev.pid, ev.env); }
    }
  }

  predicate NoTasks(db: Db, team: nat) { forall id :: id in db.tasks ==> db.tasks[id].teamId != team }

  ghost predicate NoComments(db: Db, team: nat)
  {
    forall i :: 0 <= i < |db.comments| && db.comments[i].taskId in db.tasks ==>
      db.tasks[db.comments[i].taskId].teamId != team
  }

  /** From an empty database, in every interleaving and over every fault: a team either has its creator as owner and
      every member traced back to the creator, or has no member, no task and no comment. */
  lemma TeamsOwnedOrEmpty(users: set<nat>, cache: Option<Cached>, evs: seq<Event>, team: nat)
    requires team in Run(Genesis(users, cache), evs).sys.db.teams
    ensures var w := Run(Genesis(users, cache), evs);
      || (HasOwner(w.sys.db, team) && forall u :: IsMember(w.sys.db, team, u) ==> Traced(w.sys.db, w.invited, team, u))
      || (Memberless(w.sys.db, team) && NoTasks(w.sys.db, team) && NoComments(w.sys.db, team))
  {
    var g, w := Genesis(users, cache), Run(Genesis(users, cache), evs);
    GenesisOk(users, cache);
    RunTraces(g, evs);
    RunKeepsWorld(g, evs);
    if Memberless(w.sys.db, team) {
      EmptyTeam(w.sys.db, team);
    } else {
      var u :| IsMember(w.sys.db, team, u);
      var path :| Chain(w.sys.db, w.invited, team, path) && path[|path| - 1] == u;
    }
  }

  lemma EmptyTeam(db: Db, team: nat)
    requires Inv(db) && Memberless(db, team)
    ensures NoTasks(db, team) && NoComments(db, team)
  {
    forall id | id in db.tasks ensures db.tasks[id].teamId != team {
      assert TaskOk(db, id);
      assert !IsMember(db, team, db.tasks[id].createdBy);
    }
  }

  // ---- a team whose owner row was never written ------------------------------------------------

  predicate Awaited(w: World, team: nat)
  {
    exists pid :: pid in w.pend && w.pend[pid].AddOwner? && w.pend[pid].team.id == team
  }

  ghost predicate Lost(w: World, team: nat)
  {
    WorldInv(w) && team in w.sys.db.teams && Memberless(w.sys.db, team) && !Awaited(w, team)
  }

  lemma HappenStaysLost(w: World, ev: Event, team: nat)
    requires Lost(w, team)
    ensures Lost(Happen(w, ev), team)
  {
    HappenKeeps(w, ev);
    var w' := Happen(w, ev);
    match ev {
      case Start(pid, op, env) => BeginNeverAwaitsOwner(w.sys.db, op, env);
      case Resume(pid, env) =>
        if pid in w.pend {
          var p := w.pend[pid];
          MemberlessStays(w.sys, p, env, team);
          if pid in w'.pend && w'.pend[pid].AddOwner? {
            assert w.sys.db.teams[team].id < w.sys.db.nextTeam;
            assert w'.pend[pid].team.id == w.sys.db.nextTeam;
          }
        }
      case _ =>
    }
  }

  /** Exactly how a team is lost: the request about to add its owner dies, or its second write fails. */
  lemma LostIff(w: World, ev: Event, pid: nat)
    requires WorldInv(w) && pid in w.pend && w.pend[pid].AddOwner?
    ensures Lost(Happen(w, ev), w.pend[pid].team.id) <==>
      ev == Abandon(pid) || (ev.Resume? && ev.pid == pid && ev.env.ownerFails)
  {
    var team, w' := w.pend[pid].team, Happen(w, ev);
    HappenKeeps(w, ev);
    assert PendingOk(w.sys.db, w.pend[pid]);
    if pid in w'.pend && w'.pend[pid] == w.pend[pid] {
      assert Awaited(w', team.id);
    } else if ev.Resume? && !ev.env.ownerFails {
      assert IsMember(w'.sys.db, team.id, team.createdBy);
    } else {
      assert w'.sys.db == w.sys.db;
    }
  }

  function Losing(actor: nat, name: string, env: Env): seq<Event>
  {
    [Start(0, CreateTeam(actor, name), env), Resume(0, env), Abandon(0)]
  }

  /** From the empty service: any registered user's creation of a validly named team can lose it. */
  lemma LostReached(users: set<nat>, cache: Option<Cached>, actor: nat, name: string, env: Env)
    requires actor in users && TrimSpace(name) != "" && ByteLen(TrimSpace(name)) <= 100
    requires !env.readFails && !env.writeFails
    ensures Lost(Run(Genesis(users, cache), Losing(actor, name, env)), 1)
  {
    var g, evs := Genesis(users, cache), Losing(actor, name, env);
    var row := Team(0, TrimSpace(name), actor, env.now, env.now);
    var w1 := g.(pend := map[0 := InsertTeam(row)]);
    assert Happen(g, evs[0]) == w1;
    var w2 := Happen(w1, evs[1]);
    assert w2.pend[0] == AddOwner(row.(id := 1), env.now);
    assert evs[..2][..1] == evs[..1] && evs[..1][..0] == [];
    assert Run(g, evs[..1]) == w1;
    assert Run(g, evs[..2]) == Happen(Run(g, evs[..1]), evs[1]);
    GenesisOk(users, cache);
    RunKeepsWorld(g, evs[..2]);
    LostIff(w2, Abandon(0), 0);
  }

  /** A team left without members by a failed creation stays that way for ever. */
  lemma {:induction false} LostForEver(w: World, evs: seq<Event>, team: nat)
    requires Lost(w, team)
    ensures Lost(Run(w, evs), team)
    ensures NoTasks(Run(w, evs).sys.db, team) && NoComments(Run(w, evs).sys.db, team)
  {
    if evs != [] {
      LostForEver(w, evs[..|evs| - 1], team);
      HappenStaysLost(Run(w, evs[..|evs| - 1]), evs[|evs| - 1], team);
    }
    EmptyTeam(Run(w, evs).sys.db, team);
  }

  /** In every interleaving, every task creator, history author and commenter is a member of that task's team. */
  lemma WritersAreMembers(users: set<nat>, cache: Option<Cached>, evs: seq<Event>)
    ensures var db := Run(Genesis(users, cache), evs).sys.db;
      && (forall id :: id in db.tasks ==> IsMember(db, db.tasks[id].teamId, db.tasks[id].createdBy))
      && (forall i :: 0 <= i < |db.history| ==> WriterOk(db, db.history[i].taskId, db.history[i].changedBy))
      && (forall i :: 0 <= i < |db.comments| ==> WriterOk(db, db.comments[i].taskId, db.comments[i].userId))
  {
    GenesisOk(users, cache);
    RunKeepsWorld(Genesis(users, cache), evs);
    var db := Run(Genesis(users, cache), evs).sys.db;
    forall id | id in db.tasks ensures IsMember(db, db.tasks[id].teamId, db.tasks[id].createdBy) {
      assert TaskOk(db, id);
    }
  }
}
