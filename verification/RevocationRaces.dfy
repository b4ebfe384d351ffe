/** Families and users that end while a rotation is on its way. */
module RevocationRaces {
  import opened Common
  import opened AuthModel
  import RefreshFamilies
  import opened AdminSafety
  import opened RotationRaces

  /** A family that is over comes back to life exactly when a rotation that had loaded its user by then inserts its child. */
  lemma NextDeadIff(w: World, step: Step, r: World, family: Family)
    requires Sound(w) && RefreshFamilies.Dead(w.s, family) && Next(w, step, r)
    ensures RefreshFamilies.Dead(r.s, family) <==> !Revives(w, step, family)
  {
    match step
    case Whole(op, now) => RefreshFamilies.NextKeepsDead(w.s, op, now, r.s, family);
    case Create(c, ttl, draw) =>
      if Revives(w, step, family) {
        assert r.s.tokens[draw.id].family == family && r.s.tokens[draw.id].revokedAt.None?;
      }
    case _ =>
  }

  predicate Revives(w: World, step: Step, family: Family) {
    && step.Create? && step.c in w.calls && w.calls[step.c].Loaded?
    && w.calls[step.c].record.family == family && w.calls[step.c].id in w.s.tokens
  }

  /** Inactive users stay without sessions exactly when no call orphans one, and no rotation inserts the child of a user who was
    * deactivated after it had loaded the user. */
  lemma NextSessionsIff(w: World, step: Step, r: World)
    requires Sound(w) && Keyed(w) && NoIdleSessions(w.s) && Next(w, step, r)
    ensures NoIdleSessions(r.s) <==> !(OrphansWhole(w, step) || OrphansChild(w, step))
  {
    match step
    case Whole(op, now) => NextKeepsSessionsIff(w.s, op, now, r.s);
    case Create(c, ttl, draw) =>
      if w.calls[c].id in w.s.tokens {
        assert r.s.tokens[draw.id].user == w.calls[c].record.user && r.s.tokens[draw.id].revokedAt.None?;
        assert forall i :: i in w.s.tokens ==> r.s.tokens[i] == w.s.tokens[i];
      }
    case _ =>
  }

  ghost predicate OrphansWhole(w: World, step: Step) {
    step.Whole? && Orphans(w.s, step.op)
  }

  predicate OrphansChild(w: World, step: Step) {
    && step.Create? && step.c in w.calls && w.calls[step.c].Loaded? && w.calls[step.c].id in w.s.tokens
    && !IsActive(w.s.users, w.calls[step.c].record.user)
  }

  // ---- over whole runs ------------------------------------------------------------------------------------------

  lemma StepDeadIff(worlds: seq<World>, steps: seq<Step>, i: nat, family: Family)
    requires IsRun(worlds, steps) && i < |steps| && RefreshFamilies.Dead(worlds[i].s, family)
    ensures RefreshFamilies.Dead(worlds[i + 1].s, family) <==> !Revives(worlds[i], steps[i], family)
  {
    hide Next, Sound, Keyed, RefreshFamilies.Dead, Revives;
    RunsAreSound(worlds, steps, i);
    RunStep(worlds, steps, i);
    NextDeadIff(worlds[i], steps[i], worlds[i + 1], family);
  }

  lemma {:induction false} StaysDead(worlds: seq<World>, steps: seq<Step>, from: nat, i: nat, family: Family)
    requires IsRun(worlds, steps) && from <= i < |worlds| && RefreshFamilies.Dead(worlds[from].s, family)
    requires forall k :: from <= k < i ==> !Revives(worlds[k], steps[k], family)
    ensures RefreshFamilies.Dead(worlds[i].s, family)
  {
    hide Next, RefreshFamilies.Dead, Revives;
    if i > from {
      StaysDead(worlds, steps, from, i - 1, family);
      StepDeadIff(worlds, steps, i - 1, family);
    }
  }

  /** Over any interleaving a family that is over stays so, in every later state, if and only if no rotation that had loaded its user
    * inserts its child later on. */
  lemma RunsDeadIff(worlds: seq<World>, steps: seq<Step>, from: nat, family: Family)
    requires IsRun(worlds, steps) && from < |worlds| && RefreshFamilies.Dead(worlds[from].s, family)
    ensures (forall i :: from <= i < |worlds| ==> RefreshFamilies.Dead(worlds[i].s, family))
      <==> (forall k :: from <= k < |steps| ==> !Revives(worlds[k], steps[k], family))
  {
    hide Next, RefreshFamilies.Dead, Revives;
    if forall k :: from <= k < |steps| ==> !Revives(worlds[k], steps[k], family) {
      forall i | from <= i < |worlds|
        ensures RefreshFamilies.Dead(worlds[i].s, family)
      {
        StaysDead(worlds, steps, from, i, family);
      }
    }
    if forall i :: from <= i < |worlds| ==> RefreshFamilies.Dead(worlds[i].s, family) {
      forall k | from <= k < |steps|
        ensures !Revives(worlds[k], steps[k], family)
      {
        StepDeadIff(worlds, steps, k, family);
      }
    }
  }

  /** A call gives an inactive user a session. */
  ghost predicate OrphansOne(w: World, step: Step) {
    OrphansWhole(w, step) || OrphansChild(w, step)
  }

  lemma StepSessionsIff(worlds: seq<World>, steps: seq<Step>, i: nat)
    requires IsRun(worlds, steps) && i < |steps| && NoIdleSessions(worlds[i].s)
    ensures NoIdleSessions(worlds[i + 1].s) <==> !OrphansOne(worlds[i], steps[i])
  {
    hide Next, NoIdleSessions, Sound, Keyed, OrphansWhole, OrphansChild;
    RunsAreSound(worlds, steps, i);
    RunStep(worlds, steps, i);
    NextSessionsIff(worlds[i], steps[i], worlds[i + 1]);
  }

  lemma {:induction false} RunsKeepIdle(worlds: seq<World>, steps: seq<Step>, i: nat)
    requires IsRun(worlds, steps) && i < |worlds|
    requires forall k :: 0 <= k < i ==> !OrphansOne(worlds[k], steps[k])
    ensures NoIdleSessions(worlds[i].s)
  {
    hide Next, OrphansOne;
    if i > 0 {
      RunsKeepIdle(worlds, steps, i - 1);
      StepSessionsIff(worlds, steps, i - 1);
    }
  }

  /** Over any interleaving inactive users hold no session in any state if and only if no step gives one of them a session. */
  lemma RunsSessionsIff(worlds: seq<World>, steps: seq<Step>)
    requires IsRun(worlds, steps)
    ensures (forall i :: 0 <= i < |worlds| ==> NoIdleSessions(worlds[i].s))
      <==> (forall k :: 0 <= k < |steps| ==> !OrphansOne(worlds[k], steps[k]))
  {
    hide Next, NoIdleSessions, OrphansOne;
    if forall k :: 0 <= k < |steps| ==> !OrphansOne(worlds[k], steps[k]) {
      forall i | 0 <= i < |worlds|
        ensures NoIdleSessions(worlds[i].s)
      {
        RunsKeepIdle(worlds, steps, i);
      }
    }
    if forall i :: 0 <= i < |worlds| ==> NoIdleSessions(worlds[i].s) {
      forall k | 0 <= k < |steps|
        ensures !OrphansOne(worlds[k], steps[k])
      {
        StepSessionsIff(worlds, steps, k);
      }
    }
  }

  // ---- both happen ------------------------------------------------------------------------------------------------

  const ANN_MARKED := ANN_TOKEN.(usedAt := Some(2))

  /** The child that a rotation of Ann's token inserts. */
  const ANN_CHILD := Record(2, 9, 18, Some(7), 2, 102, None, None)

  /** Ann's rotation has loaded her. */
  function AnnIsLoaded(users: Users, revokedAt: Option<int>): World {
    World(State(users, map[7 := ANN_MARKED.(revokedAt := revokedAt)], Drawn({7}, {8}, {9}), multiset{}),
          map[0 := Loaded(7, ANN_TOKEN, 2)], [])
  }

  /** The rotation's last call adds the child whatever has become of the user and the family. */
  lemma ChildIsInserted(users: Users, revokedAt: Option<int>) returns (r: World)
    ensures Next(AnnIsLoaded(users, revokedAt), Create(0, 100, Draw(17, 18, 19)), r)
    ensures r.s.users == users && r.s.tokens == map[7 := ANN_MARKED.(revokedAt := revokedAt), 17 := ANN_CHILD] && r.exchanges == [7]
  {
    r := Creates(AnnIsLoaded(users, revokedAt), 0, 100, Draw(17, 18, 19));
  }

  /** Ann logs in and rotates her token as far as her row's look-up. */
  lemma AnnRotates() returns (worlds: seq<World>, steps: seq<Step>)
    ensures IsRun(worlds, steps) && |worlds| == 6 && worlds[5] == AnnIsLoaded(TWO_USERS, None)
    ensures steps == [Whole(ANN_LOGS_IN, 0), Whole(ANN_IS_ISSUED, 1), Find(0, 8, 2), Mark(0), Load(0)]
  {
    worlds, steps := AnnIsLoggedIn();
    var w2, w3 := LoggedIn(map[]), LoggedIn(map[0 := Passed(7, ANN_TOKEN, 2)]);
    FindPasses(w2, 0, 7, 2);
    assert w2.calls[0 := Passed(7, ANN_TOKEN, 2)] == w3.calls;
    var w4 := Marks(w3, 0);
    var w5 := Loads(w4, 0);
    assert w5 == AnnIsLoaded(TWO_USERS, None);
    hide Next;
    assert |worlds| == 3;
    Extends(worlds, steps, Find(0, 8, 2), w3);
    Extends(worlds + [w3], steps + [Find(0, 8, 2)], Mark(0), w4);
    Extends(worlds + [w3] + [w4], steps + [Find(0, 8, 2)] + [Mark(0)], Load(0), w5);
    worlds, steps := worlds + [w3] + [w4] + [w5], steps + [Find(0, 8, 2)] + [Mark(0)] + [Load(0)];
  }

  /** Ann's family is revoked while her rotation is on its way: no error, and it ends with an unrevoked token of the revoked family. */
  lemma RevokedFamilyRevives() returns (worlds: seq<World>, steps: seq<Step>)
    ensures IsRun(worlds, steps) && |worlds| == 8
    ensures steps == [Whole(ANN_LOGS_IN, 0), Whole(ANN_IS_ISSUED, 1), Find(0, 8, 2), Mark(0), Load(0),
                      Whole(RefreshFamilies.Op.Revoke(Some(8)), 3), Create(0, 100, Draw(17, 18, 19))]
    ensures RefreshFamilies.Dead(worlds[6].s, 9) && Revives(worlds[6], steps[6], 9)
    ensures worlds[7].exchanges == [7] && 17 in worlds[7].s.tokens && worlds[7].s.tokens[17] == ANN_CHILD
  {
    worlds, steps := AnnRotates();
    var w6 := AnnIsLoaded(TWO_USERS, Some(3));
    AnnIsRevoked();
    var w7 := ChildIsInserted(TWO_USERS, Some(3));
    assert RefreshFamilies.Dead(w6.s, 9) && Revives(w6, Create(0, 100, Draw(17, 18, 19)), 9);
    hide Next, RefreshFamilies.Dead, Revives;
    Extends(worlds, steps, Whole(RefreshFamilies.Op.Revoke(Some(8)), 3), w6);
    worlds, steps := worlds + [w6], steps + [Whole(RefreshFamilies.Op.Revoke(Some(8)), 3)];
    Extends(worlds, steps, Create(0, 100, Draw(17, 18, 19)), w7);
    worlds, steps := worlds + [w7], steps + [Create(0, 100, Draw(17, 18, 19))];
  }

  lemma AnnIsRevoked()
    ensures Next(AnnIsLoaded(TWO_USERS, None), Whole(RefreshFamilies.Op.Revoke(Some(8)), 3), AnnIsLoaded(TWO_USERS, Some(3)))
  {
    var w, r := AnnIsLoaded(TWO_USERS, None), AnnIsLoaded(TWO_USERS, Some(3));
    assert RefreshFamilies.FindsRow(w.s.tokens, Some(8), Some(7));
    assert AuthModel.Revoke(w.s, Some(7), 3).tokens == r.s.tokens;
  }

  const ANN_INACTIVE: Users := TWO_USERS[2 := User("local:ann", false, {})]

  /** Ann is deactivated, her sessions revoked with success, while her rotation is on its way: it ends with a session of hers. */
  lemma DeactivatedUserKeepsSession() returns (worlds: seq<World>, steps: seq<Step>)
    ensures IsRun(worlds, steps) && |worlds| == 8
    ensures steps == [Whole(ANN_LOGS_IN, 0), Whole(ANN_IS_ISSUED, 1), Find(0, 8, 2), Mark(0), Load(0),
                      Whole(ANN_IS_DEACTIVATED, 3), Create(0, 100, Draw(17, 18, 19))]
    ensures AuthModel.DeactivateUser(worlds[5].s, "local:root", 2, 3, NoAdminFault) == (worlds[6].s, Done)
    ensures NoIdleSessions(worlds[6].s) && !IsActive(worlds[7].s.users, 2) && HoldsSession(worlds[7].s, 2)
  {
    worlds, steps := AnnRotates();
    var w6 := AnnIsLoaded(ANN_INACTIVE, Some(3));
    AnnIsDeactivatedMeanwhile();
    var w7 := ChildIsInserted(ANN_INACTIVE, Some(3));
    assert NoIdleSessions(w6.s);
    assert w7.s.tokens[17] == ANN_CHILD && !IsActive(w7.s.users, 2) && HoldsSession(w7.s, 2);
    hide Next, AuthModel.DeactivateUser, NoIdleSessions, HoldsSession;
    Extends(worlds, steps, Whole(ANN_IS_DEACTIVATED, 3), w6);
    worlds, steps := worlds + [w6], steps + [Whole(ANN_IS_DEACTIVATED, 3)];
    Extends(worlds, steps, Create(0, 100, Draw(17, 18, 19)), w7);
    worlds, steps := worlds + [w7], steps + [Create(0, 100, Draw(17, 18, 19))];
  }

  lemma AnnIsDeactivatedMeanwhile()
    ensures var w, r := AnnIsLoaded(TWO_USERS, None), AnnIsLoaded(ANN_INACTIVE, Some(3));
      AuthModel.DeactivateUser(w.s, "local:root", 2, 3, NoAdminFault) == (r.s, Done) && Next(w, Whole(ANN_IS_DEACTIVATED, 3), r)
  {
    var w, r := AnnIsLoaded(TWO_USERS, None), AnnIsLoaded(ANN_INACTIVE, Some(3));
    assert RevokeAllForUser(w.s.tokens, 2, 3) == r.s.tokens;
  }
}
