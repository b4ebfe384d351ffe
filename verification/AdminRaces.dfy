/** Taking admins away, with the guard and the write as the two calls they are: when the last admin can go all the same. */
module AdminRaces {
  import opened Common
  import opened AuthModel
  import opened AdminSafety
  import RefreshFamilies

  type CallId = nat

  /** A deactivation, or a change of roles to ones without admin, that has passed its guard. */
  datatype Removal = Deactivate(id: UserId) | Demote(id: UserId, roles: set<string>)

  datatype World = World(users: Users, calls: map<CallId, Removal>)

  datatype Step =
    | Guard(c: CallId, actor: string, removal: Removal)
    | Write(c: CallId)
    | Fail(c: CallId)
    | Other(id: UserId, user: User)

  predicate ActiveAdmin(u: User) {
    u.active && IsAdmin(u)
  }

  function Removed(u: User, removal: Removal): User {
    match removal
    case Deactivate(_) => u.(active := false)
    case Demote(_, roles) => u.(roles := roles)
  }

  /** The guard reads the user and counts the other active admins; nothing keeps that count true until the write. Every other call
    * leaves an active admin one. */
  ghost predicate Next(w: World, step: Step, r: World) {
    match step
    case Guard(c, actor, removal) =>
      && c !in w.calls && removal.id in w.users && (removal.Demote? ==> "admin" !in removal.roles)
      && Refusal(w.users, actor, removal.id).None?
      && r == w.(calls := w.calls[c := removal])
    case Write(c) =>
      && c in w.calls
      && var id := w.calls[c].id;
         r == World(if id in w.users then w.users[id := Removed(w.users[id], w.calls[c])] else w.users, w.calls - {c})
    case Fail(c) => c in w.calls && r == w.(calls := w.calls - {c})
    case Other(id, user) => (id in w.users && ActiveAdmin(w.users[id]) ==> ActiveAdmin(user)) && r == w.(users := w.users[id := user])
  }

  ghost predicate IsRun(worlds: seq<World>, steps: seq<Step>) {
    && |worlds| == |steps| + 1
    && worlds[0].calls == map[] && SomeAdmin(worlds[0].users)
    && forall i :: 0 <= i < |steps| ==> Next(worlds[i], steps[i], worlds[i + 1])
  }

  lemma RunStep(worlds: seq<World>, steps: seq<Step>, i: nat)
    requires IsRun(worlds, steps) && i < |steps|
    ensures |worlds| == |steps| + 1 && Next(worlds[i], steps[i], worlds[i + 1])
  {
  }

  /** The guard and the write, one right after the other, are the deactivation of the coarser model, or the change of roles, as far as the
    * users go: whatever fails between the two, and with the same refusals. */
  lemma UninterruptedIsWhole(s: State, w: World, c: CallId, actor: string, removal: Removal, now: int, fault: AdminFault)
    returns (guarded: World, r: World)
    requires w.users == s.users && c !in w.calls && removal.id in s.users && s.users[removal.id].active && fault != ReadFails
    requires removal.Demote? ==> IsAdmin(s.users[removal.id]) && removal.roles <= ALLOWED_ROLES - {"admin"}
    ensures var whole := if removal.Deactivate? then DeactivateUser(s, actor, removal.id, now, fault)
                         else SetUserRoles(s, actor, removal.id, removal.roles, fault);
      if whole.1 == ForbiddenSelfDemote || whole.1 == LastAdmin
      then whole.0 == s && forall x :: !Next(w, Guard(c, actor, removal), x)
      else && Next(w, Guard(c, actor, removal), guarded)
           && Next(guarded, if fault == WriteFails then Fail(c) else Write(c), r)
           && r == World(whole.0.users, w.calls)
  {
    hide ActiveAdmins;
    guarded := w.(calls := w.calls[c := removal]);
    assert guarded.calls - {c} == w.calls;
    r := World(if fault == WriteFails then w.users else w.users[removal.id := Removed(w.users[removal.id], removal)], w.calls);
  }

  /** The calls that may take an active admin away. */
  predicate Removes(op: RefreshFamilies.Op) {
    match op
    case UpdateUser(_, _, isActive, _, _) => isActive == Some(false)
    case DeactivateUser(_, _, _) => true
    case SetUserRoles(_, _, roles, _) => "admin" !in roles
    case RemoveUserRole(_, _, role, _) => role == "admin"
    case _ => false
  }

  /** Every other call of the coarser model, whatever fails, is such a step or leaves the users alone. */
  lemma OthersAreSteps(s: State, op: RefreshFamilies.Op, now: int, r: State, w: World) returns (id: UserId, user: User)
    requires RefreshFamilies.Next(s, op, now, r) && !Removes(op) && w.users == s.users
    ensures r.users == s.users || Next(w, Other(id, user), w.(users := r.users))
  {
    id, user := 0, User("", false, {});
    match op
    case Authenticate(u, _, _) =>
      id, user := u, if u in r.users then r.users[u] else user;
    case UpdateUser(_, u, _, _, _) =>
      id, user := u, if u in r.users then r.users[u] else user;
    case SetUserRoles(_, u, _, _) =>
      id, user := u, if u in r.users then r.users[u] else user;
    case RemoveUserRole(_, u, _, _) =>
      id, user := u, if u in r.users then r.users[u] else user;
    case CreateUser(u, _, _, _) =>
      id, user := u, if u in r.users then r.users[u] else user;
    case _ =>
  }

  function Leaving(w: World): set<UserId> {
    set c | c in w.calls :: w.calls[c].id
  }

  /** Some active admin would be left if every removal that has passed its guard were written. */
  ghost predicate Safe(w: World) {
    exists u :: u in w.users && ActiveAdmin(w.users[u]) && u !in Leaving(w)
  }

  /** The guard passes for an active admin because of others, all of whom are themselves about to be removed. */
  ghost predicate CountsLeaving(w: World, step: Step) {
    && step.Guard? && step.removal.id in w.users && ActiveAdmin(w.users[step.removal.id])
    && forall u :: u in ActiveAdmins(w.users, step.removal.id) ==> u in Leaving(w)
  }

  /** One step gives safety up exactly when a guard counts only admins that are about to be removed. */
  lemma NextSafeIff(w: World, step: Step, r: World)
    requires Safe(w) && Next(w, step, r) && CallsCarryNoAdmin(w)
    ensures Safe(r) <==> !CountsLeaving(w, step)
  {
    var u :| u in w.users && ActiveAdmin(w.users[u]) && u !in Leaving(w);
    match step
    case Guard(c, actor, removal) =>
      assert Leaving(r) == Leaving(w) + {removal.id} by {
        assert forall b :: b in w.calls ==> r.calls[b] == w.calls[b];
        assert r.calls[c] == removal;
      }
    case Write(c) => assert u in r.users && ActiveAdmin(r.users[u]) && u !in Leaving(r);
    case Fail(c) => assert u !in Leaving(r);
    case Other(id, user) => assert u in r.users && ActiveAdmin(r.users[u]) && u !in Leaving(r);
  }

  ghost predicate CallsCarryNoAdmin(w: World) {
    forall c :: c in w.calls && w.calls[c].Demote? ==> "admin" !in w.calls[c].roles
  }

  lemma {:induction false} RunsCarryNoAdmin(worlds: seq<World>, steps: seq<Step>, i: nat)
    requires IsRun(worlds, steps) && i < |worlds|
    ensures CallsCarryNoAdmin(worlds[i])
  {
    if i > 0 {
      RunsCarryNoAdmin(worlds, steps, i - 1);
      RunStep(worlds, steps, i - 1);
      hide IsRun, Refusal;
    }
  }

  lemma StepSafeIff(worlds: seq<World>, steps: seq<Step>, i: nat)
    requires IsRun(worlds, steps) && i < |steps| && Safe(worlds[i])
    ensures Safe(worlds[i + 1]) <==> !CountsLeaving(worlds[i], steps[i])
  {
    hide Next, Safe, CountsLeaving;
    RunsCarryNoAdmin(worlds, steps, i);
    RunStep(worlds, steps, i);
    NextSafeIff(worlds[i], steps[i], worlds[i + 1]);
  }

  lemma {:induction false} RunsSafe(worlds: seq<World>, steps: seq<Step>, i: nat)
    requires IsRun(worlds, steps) && i < |worlds|
    requires forall k :: 0 <= k < i ==> !CountsLeaving(worlds[k], steps[k])
    ensures Safe(worlds[i]) && SomeAdmin(worlds[i].users)
  {
    hide Next, CountsLeaving;
    if i > 0 {
      RunsSafe(worlds, steps, i - 1);
      StepSafeIff(worlds, steps, i - 1);
    }
  }

  /** Over any interleaving an active admin would survive whatever is under way, in every state, if and only if no guard counts only
    * admins that are about to be removed. */
  lemma RunsSafeIff(worlds: seq<World>, steps: seq<Step>)
    requires IsRun(worlds, steps)
    ensures (forall i :: 0 <= i < |worlds| ==> Safe(worlds[i])) <==> (forall k :: 0 <= k < |steps| ==> !CountsLeaving(worlds[k], steps[k]))
  {
    hide Safe, CountsLeaving, Next;
    if forall k :: 0 <= k < |steps| ==> !CountsLeaving(worlds[k], steps[k]) {
      forall i | 0 <= i < |worlds|
        ensures Safe(worlds[i])
      {
        RunsSafe(worlds, steps, i);
      }
    }
    if forall i :: 0 <= i < |worlds| ==> Safe(worlds[i]) {
      forall k | 0 <= k < |steps|
        ensures !CountsLeaving(worlds[k], steps[k])
      {
        StepSafeIff(worlds, steps, k);
      }
    }
  }

  lemma WriteStaysUnsafe(w: World, c: CallId) returns (r: World)
    requires !Safe(w) && c in w.calls && CallsCarryNoAdmin(w)
    ensures Next(w, Write(c), r) && !Safe(r) && CallsCarryNoAdmin(r) && r.calls == w.calls - {c}
  {
    var id := w.calls[c].id;
    r := World(if id in w.users then w.users[id := Removed(w.users[id], w.calls[c])] else w.users, w.calls - {c});
    forall u | u in r.users && ActiveAdmin(r.users[u])
      ensures u in Leaving(r)
    {
      assert u != id && w.users[u] == r.users[u] && u in Leaving(w);
      var b :| b in w.calls && w.calls[b].id == u;
      assert b in r.calls && r.calls[b].id == u;
    }
  }

  /** Safety given up is an admin lost: writing what has passed its guard leaves no active admin at all. */
  lemma {:induction false} UnsafeLosesAdmins(w: World) returns (path: seq<World>, steps: seq<Step>)
    requires !Safe(w) && CallsCarryNoAdmin(w)
    ensures |path| == |steps| + 1 && path[0] == w && forall i :: 0 <= i < |steps| ==> Next(path[i], steps[i], path[i + 1])
    ensures |steps| == |w.calls| && forall i :: 0 <= i < |steps| ==> steps[i].Write?
    ensures !SomeAdmin(path[|steps|].users)
    decreases |w.calls|
  {
    hide Next;
    if w.calls == map[] {
      assert Leaving(w) == {};
      path, steps := [w], [];
    } else {
      var c :| c in w.calls;
      var r := WriteStaysUnsafe(w, c);
      assert |w.calls| == |r.calls| + 1 by {
        assert w.calls.Keys == r.calls.Keys + {c};
      }
      hide Safe, SomeAdmin, CallsCarryNoAdmin;
      var later, more := UnsafeLosesAdmins(r);
      path, steps := [w] + later, [Write(c)] + more;
      forall i | 0 <= i < |steps|
        ensures Next(path[i], steps[i], path[i + 1])
      {
        if i > 0 {
          assert Next(later[i - 1], more[i - 1], later[i - 1 + 1]);
        }
      }
    }
  }

  /** Two admins deactivate each other at the same moment. */
  lemma AdminsRemoveEachOther() returns (worlds: seq<World>, steps: seq<Step>)
    ensures IsRun(worlds, steps) && |worlds| == 5
    ensures steps == [Guard(0, "local:root", Deactivate(2)), Guard(1, "local:ann", Deactivate(1)), Write(0), Write(1)]
    ensures !SomeAdmin(worlds[4].users)
  {
    var root, ann := User("local:root", true, {"admin"}), User("local:ann", true, {"admin"});
    var users: Users := map[1 := root, 2 := ann];
    var w0, w1 := World(users, map[]), World(users, map[0 := Deactivate(2)]);
    var w2 := World(users, map[0 := Deactivate(2), 1 := Deactivate(1)]);
    var w3 := World(users[2 := ann.(active := false)], map[1 := Deactivate(1)]);
    var w4 := World(users[2 := ann.(active := false)][1 := root.(active := false)], map[]);
    worlds := [w0, w1, w2, w3, w4];
    steps := [Guard(0, "local:root", Deactivate(2)), Guard(1, "local:ann", Deactivate(1)), Write(0), Write(1)];
    assert 1 in ActiveAdmins(users, 2) && 2 in ActiveAdmins(users, 1);
    assert SomeAdmin(users) by { assert ActiveAdmin(users[1]); }
    assert Next(w0, steps[0], w1) && Next(w1, steps[1], w2);
    assert w2.calls - {0} == w3.calls && w3.calls - {1} == w4.calls;
    assert Next(w2, steps[2], w3) && Next(w3, steps[3], w4);
    hide Next;
  }
}
