/** Runs of the admin, login and token calls: an active admin is kept, and exactly when inactive users hold no sessions. */
module AdminSafety {
  import opened Common
  import opened AuthModel
  import opened RefreshFamilies

  ghost predicate SomeAdmin(users: Users) {
    exists u :: u in users && users[u].active && IsAdmin(users[u])
  }

  lemma OthersAreAdmins(users: Users, id: UserId) returns (other: UserId)
    requires |ActiveAdmins(users, id)| != 0
    ensures other in users && other != id && users[other].active && IsAdmin(users[other])
  {
    assert exists u :: u in ActiveAdmins(users, id);
    other :| other in ActiveAdmins(users, id);
  }

  /** Changing one row keeps an active admin if that row stays one, was not one, or is not the only one. */
  lemma RowChangeKeepsAdmin(users: Users, id: UserId, u: User)
    requires SomeAdmin(users)
    requires (u.active && IsAdmin(u)) || |ActiveAdmins(users, id)| != 0 || (id in users ==> !(users[id].active && IsAdmin(users[id])))
    ensures SomeAdmin(users[id := u])
  {
    if u.active && IsAdmin(u) {
      assert users[id := u][id] == u;
    } else if |ActiveAdmins(users, id)| != 0 {
      var other := OthersAreAdmins(users, id);
      assert users[id := u][other] == users[other];
    } else {
      var other :| other in users && users[other].active && IsAdmin(users[other]);
      assert users[id := u][other] == users[other];
    }
  }

  lemma UpdateKeepsAdmin(s: State, actor: string, id: UserId, isActive: Option<bool>, blank: bool, now: int, fault: AdminFault)
    requires SomeAdmin(s.users)
    ensures SomeAdmin(AuthModel.UpdateUser(s, actor, id, isActive, blank, now, fault).0.users)
  {
    hide ActiveAdmins, SomeAdmin;
    var r := AuthModel.UpdateUser(s, actor, id, isActive, blank, now, fault).0;
    if r.users != s.users {
      RowChangeKeepsAdmin(s.users, id, s.users[id].(active := if isActive.Some? then isActive.value else s.users[id].active));
    }
  }

  lemma RolesKeepAdmin(s: State, actor: string, id: UserId, roles: set<string>, fault: AdminFault)
    requires SomeAdmin(s.users)
    ensures SomeAdmin(AuthModel.SetUserRoles(s, actor, id, roles, fault).0.users)
  {
    hide ActiveAdmins, SomeAdmin;
    var r := AuthModel.SetUserRoles(s, actor, id, roles, fault).0;
    if r.users != s.users {
      RowChangeKeepsAdmin(s.users, id, s.users[id].(roles := roles));
    }
  }

  lemma NextKeepsAdmin(s: State, op: Op, now: int, r: State)
    requires SomeAdmin(s.users) && Next(s, op, now, r)
    ensures SomeAdmin(r.users)
  {
    hide SomeAdmin;
    match op
    case UpdateUser(actor, user, isActive, blank, fault) => UpdateKeepsAdmin(s, actor, user, isActive, blank, now, fault);
    case DeactivateUser(actor, user, fault) => UpdateKeepsAdmin(s, actor, user, Some(false), false, now, fault);
    case SetUserRoles(actor, user, roles, fault) => RolesKeepAdmin(s, actor, user, roles, fault);
    case RemoveUserRole(actor, user, role, fault) =>
      RolesKeepAdmin(s, actor, user, (if user in s.users then s.users[user].roles else {}) - {role}, fault);
    case CreateUser(user, subject, roles, _) =>
      if user !in s.users {
        RowChangeKeepsAdmin(s.users, user, User(subject, true, {}));
        RowChangeKeepsAdmin(s.users, user, User(subject, true, roles));
        assert s.users[user := User(subject, true, {})][user := User(subject, true, roles)] == s.users[user := User(subject, true, roles)];
      }
    case Authenticate(user, subject, _) =>
      if user !in s.users {
        RowChangeKeepsAdmin(s.users, user, User(subject, true, {}));
      }
    case _ =>
  }

  /** From a state with an active admin, no run of whole calls, failing wherever they may, leaves the system without one. */
  lemma {:induction false} RunsKeepAdmin(states: seq<State>, ops: seq<Op>, times: seq<int>, i: nat)
    requires IsRun(states, ops, times) && i < |states| && SomeAdmin(states[0].users)
    ensures SomeAdmin(states[i].users)
  {
    hide Next, SomeAdmin;
    if i > 0 {
      RunsKeepAdmin(states, ops, times, i - 1);
      RunStep(states, ops, times, i - 1);
      NextKeepsAdmin(states[i - 1], ops[i - 1], times[i - 1], states[i]);
    }
  }

  /** Without another active admin, neither deactivation nor demotion of an active admin goes through. */
  lemma LastAdminStays(s: State, op: Op, now: int, r: State, id: UserId)
    requires Next(s, op, now, r) && id in s.users && s.users[id].active && IsAdmin(s.users[id])
    requires forall u :: u in s.users && u != id ==> !(s.users[u].active && IsAdmin(s.users[u]))
    ensures id in r.users && r.users[id].active && IsAdmin(r.users[id])
  {
    assert SomeAdmin(s.users);
    NextKeepsAdmin(s, op, now, r);
    NoOtherBecomesAdmin(s, op, now, r, id);
  }

  lemma NoOtherBecomesAdmin(s: State, op: Op, now: int, r: State, id: UserId)
    requires Next(s, op, now, r) && id in s.users
    requires s.users[id].active && IsAdmin(s.users[id])
    requires ActiveAdmins(s.users, id) == {}
    ensures id in r.users && r.users[id].active && IsAdmin(r.users[id])
  {
  }

  // ---- sessions of inactive users ----------------------------------------------------------------------------

  /** Whoever holds an unrevoked refresh token is an active user. */
  ghost predicate NoIdleSessions(s: State) {
    forall i :: i in s.tokens && s.tokens[i].revokedAt.None? ==>
      s.tokens[i].user in s.users && s.users[s.tokens[i].user].active
  }

  ghost predicate HoldsSession(s: State, id: UserId) {
    exists i :: i in s.tokens && s.tokens[i].user == id && s.tokens[i].revokedAt.None?
  }

  /** A user is deactivated but the call fails before the sessions are revoked, or is given a session although no longer active. */
  ghost predicate Orphans(s: State, op: Op) {
    match op
    case UpdateUser(actor, id, isActive, blank, fault) => isActive == Some(false) && !blank && OrphansUser(s, actor, id, fault)
    case DeactivateUser(actor, id, fault) => OrphansUser(s, actor, id, fault)
    case IssueForUser(id, _, _, fails) => !fails && !IsActive(s.users, id)
    case _ => false
  }

  predicate IsActive(users: Users, id: UserId) {
    id in users && users[id].active
  }

  ghost predicate OrphansUser(s: State, actor: string, id: UserId, fault: AdminFault) {
    && fault in {ReloadFails, SessionsFail}
    && id in s.users && s.users[id].active && Refusal(s.users, actor, id).None?
    && HoldsSession(s, id)
  }

  lemma UpdateKeepsSessionsIff(s: State, actor: string, id: UserId, isActive: Option<bool>, blank: bool, now: int, fault: AdminFault)
    requires NoIdleSessions(s)
    ensures NoIdleSessions(AuthModel.UpdateUser(s, actor, id, isActive, blank, now, fault).0)
      <==> !(isActive == Some(false) && !blank && OrphansUser(s, actor, id, fault))
  {
  }

  /** Each call keeps inactive users without sessions exactly when it is neither a deactivation that fails half way on a user with
    * one nor the second half of a login whose user is inactive by then. */
  lemma NextKeepsSessionsIff(s: State, op: Op, now: int, r: State)
    requires NoIdleSessions(s) && AllDrawn(s) && Next(s, op, now, r)
    ensures NoIdleSessions(r) <==> !Orphans(s, op)
  {
    hide OrphansUser, NoIdleSessions;
    match op
    case UpdateUser(actor, user, isActive, blank, fault) => UpdateKeepsSessionsIff(s, actor, user, isActive, blank, now, fault);
    case DeactivateUser(actor, user, fault) => DeactivateKeepsSessionsIff(s, actor, user, now, fault);
    case Rotate(hash, ttl, draw, fault) =>
      var found :| FindsRow(s.tokens, hash, found) && r == AuthModel.Rotate(s, found, now, ttl, draw, fault).0;
      RotateKeepsSessions(s, found, now, ttl, draw, fault);
    case Revoke(hash) =>
      var found :| FindsRow(s.tokens, hash, found) && r == AuthModel.Revoke(s, found, now);
      OthersKeepSessions(s, op, now, r);
    case IssueForUser(user, ttl, draw, fails) => IssueKeepsSessionsIff(s, user, now, ttl, draw, fails);
    case _ => OthersKeepSessions(s, op, now, r);
  }

  lemma RotateKeepsSessions(s: State, found: Option<RecordId>, now: int, ttl: int, draw: Draw, fault: RotateFault)
    requires NoIdleSessions(s)
    ensures NoIdleSessions(AuthModel.Rotate(s, found, now, ttl, draw, fault).0)
  {
  }

  lemma OthersKeepSessions(s: State, op: Op, now: int, r: State)
    requires NoIdleSessions(s) && Next(s, op, now, r) && !op.UpdateUser? && !op.DeactivateUser? && !op.Rotate? && !op.IssueForUser?
    ensures NoIdleSessions(r)
  {
    hide ActiveAdmins;
  }

  lemma DeactivateKeepsSessionsIff(s: State, actor: string, id: UserId, now: int, fault: AdminFault)
    requires NoIdleSessions(s)
    ensures NoIdleSessions(AuthModel.DeactivateUser(s, actor, id, now, fault).0) <==> !OrphansUser(s, actor, id, fault)
  {
  }

  /** Over any run inactive users hold no session in any state if and only if no call leaves one of them with one. */
  lemma RunsKeepSessionsIff(states: seq<State>, ops: seq<Op>, times: seq<int>)
    requires IsRun(states, ops, times)
    ensures (forall i :: 0 <= i < |states| ==> NoIdleSessions(states[i]))
      <==> (forall k :: 0 <= k < |ops| ==> !Orphans(states[k], ops[k]))
  {
    hide NoIdleSessions, Orphans, Next, Families;
    if forall k :: 0 <= k < |ops| ==> !Orphans(states[k], ops[k]) {
      forall i | 0 <= i < |states|
        ensures NoIdleSessions(states[i])
      {
        RunsKeepSessions(states, ops, times, i);
      }
    }
    if forall i :: 0 <= i < |states| ==> NoIdleSessions(states[i]) {
      forall k | 0 <= k < |ops|
        ensures !Orphans(states[k], ops[k])
      {
        StepKeepsSessionsIff(states, ops, times, k);
      }
    }
  }

  lemma {:induction false} RunsKeepSessions(states: seq<State>, ops: seq<Op>, times: seq<int>, i: nat)
    requires IsRun(states, ops, times) && i < |states|
    requires forall k :: 0 <= k < i ==> !Orphans(states[k], ops[k])
    ensures NoIdleSessions(states[i])
  {
    hide Next, Orphans;
    if i > 0 {
      RunsKeepSessions(states, ops, times, i - 1);
      StepKeepsSessionsIff(states, ops, times, i - 1);
    }
  }

  lemma StepKeepsSessionsIff(states: seq<State>, ops: seq<Op>, times: seq<int>, k: nat)
    requires IsRun(states, ops, times) && k < |ops| && NoIdleSessions(states[k])
    ensures NoIdleSessions(states[k + 1]) <==> !Orphans(states[k], ops[k])
  {
    hide NoIdleSessions, Orphans, Next;
    RunsKeepFamilies(states, ops, times, k);
    RunStep(states, ops, times, k);
    NextKeepsSessionsIff(states[k], ops[k], times[k], states[k + 1]);
  }

  /** Deactivating again does not make good a deactivation that failed half way: the user is inactive, so nothing is done. */
  lemma RetryDoesNotRepair(s: State, actor: string, id: UserId, now: int, fault: AdminFault, later: int)
    requires OrphansUser(s, actor, id, fault)
    ensures var (r, result) := AuthModel.DeactivateUser(s, actor, id, now, fault);
      result == AdminFailed && HoldsSession(r, id) && !r.users[id].active
      && AuthModel.DeactivateUser(r, actor, id, later, NoAdminFault) == (r, Done)
  {
  }

  /** Revoking the user's sessions does. */
  lemma RevokingSessionsRepairs(s: State, id: UserId, now: int)
    requires id in s.users
    ensures var (r, result) := AuthModel.RevokeUserSessions(s, id, now, NoAdminFault);
      result == Done && !HoldsSession(r, id)
      && forall i :: i in s.tokens && s.tokens[i].user != id ==> r.tokens[i] == s.tokens[i]
  {
  }

  /** Even so an inactive user gets nothing: presenting such a token revokes its family when nothing fails. */
  lemma IdleTokenIsRefused(s: State, id: RecordId, now: int, ttl: int, draw: Draw, fault: RotateFault)
    requires Families(s) && id in s.tokens && s.tokens[id].user in s.users && !s.users[s.tokens[id].user].active
    ensures var (r, result) := AuthModel.Rotate(s, Some(id), now, ttl, draw, fault);
      && result != Rotated && r.tokens.Keys == s.tokens.Keys
      && (fault == NoFault && now < s.tokens[id].expiresAt ==> Dead(r, s.tokens[id].family))
  {
    hide HashesUnique, ParentsUsed, OneChildEach;
  }

  /** Issuing is a call of its own after authentication: it keeps the rule exactly when it fails or the user is still active by then. */
  lemma IssueKeepsSessionsIff(s: State, user: UserId, now: int, ttl: int, draw: Draw, fails: bool)
    requires NoIdleSessions(s) && AllDrawn(s) && FreshDraw(s.drawn, draw)
    ensures NoIdleSessions(AuthModel.IssueForUser(s, user, now, ttl, draw, fails)) <==> fails || IsActive(s.users, user)
  {
    var r := AuthModel.IssueForUser(s, user, now, ttl, draw, fails);
    if !fails {
      assert r.tokens[draw.id].user == user && r.tokens[draw.id].revokedAt.None?;
      assert draw.id !in s.tokens;
    }
  }

  // ---- both ways happen ------------------------------------------------------------------------------------------

  const TWO_USERS: Users := map[1 := User("local:root", true, {"admin"}), 2 := User("local:ann", true, {})]

  const START := State(TWO_USERS, map[], Drawn({}, {}, {}), multiset{})

  const DRAW := Draw(7, 8, 9)

  const ANN_LOGS_IN := Op.Authenticate(2, "local:ann", NoAuthFault)

  const ANN_IS_ISSUED := Op.IssueForUser(2, 100, DRAW, false)

  const ANN_IS_DEACTIVATED := Op.DeactivateUser("local:root", 2, NoAdminFault)

  lemma AnnAuthenticates(now: int)
    ensures Next(START, ANN_LOGS_IN, now, START.(authenticated := multiset{2}))
  {
  }

  lemma AnnIsIssued(s: State, now: int)
    requires s.authenticated == multiset{2} && s.tokens == map[] && s.drawn == START.drawn
    ensures var r := AuthModel.IssueForUser(s, 2, now, 100, DRAW, false);
      Next(s, ANN_IS_ISSUED, now, r) && r.users == s.users && HoldsSession(r, 2)
  {
    var r := AuthModel.IssueForUser(s, 2, now, 100, DRAW, false);
    assert r.tokens[7].user == 2 && r.tokens[7].revokedAt.None?;
  }

  lemma AnnIsDeactivated(s: State, now: int)
    requires s.users == TWO_USERS && s.tokens == map[]
    ensures var r := s.(users := TWO_USERS[2 := User("local:ann", false, {})]);
      && AuthModel.DeactivateUser(s, "local:root", 2, now, NoAdminFault) == (r, Done)
      && Next(s, ANN_IS_DEACTIVATED, now, r)
  {
    assert RevokeAllForUser(s.tokens, 2, now) == s.tokens;
  }

  /** Deactivated, without an error, between the two calls of her login. */
  lemma LoginOutlivesDeactivation()
    ensures exists states: seq<State>, ops: seq<Op>, times: seq<int> ::
      && IsRun(states, ops, times) && states[0] == START
      && ops == [ANN_LOGS_IN, ANN_IS_DEACTIVATED, ANN_IS_ISSUED]
      && AuthModel.DeactivateUser(states[1], "local:root", 2, times[1], NoAdminFault) == (states[2], Done)
      && !IsActive(states[3].users, 2) && HoldsSession(states[3], 2)
  {
    hide Next, AuthModel.DeactivateUser, AuthModel.IssueForUser, HoldsSession;
    var s1 := START.(authenticated := multiset{2});
    var s2 := s1.(users := TWO_USERS[2 := User("local:ann", false, {})]);
    var s3 := AuthModel.IssueForUser(s2, 2, 2, 100, DRAW, false);
    var states, ops, times := [START, s1, s2, s3], [ANN_LOGS_IN, ANN_IS_DEACTIVATED, ANN_IS_ISSUED], [0, 1, 2];
    AnnAuthenticates(0);
    AnnIsDeactivated(s1, 1);
    AnnIsIssued(s2, 2);
    assert IsRun(states, ops, times);
  }

  /** Deactivated by a call that fails after the row is written. */
  lemma HalfDeactivationIsReached()
    ensures exists states: seq<State>, ops: seq<Op>, times: seq<int> ::
      && IsRun(states, ops, times) && states[0] == START && ops == [ANN_LOGS_IN, ANN_IS_ISSUED]
      && OrphansUser(states[2], "local:root", 2, SessionsFail) && OrphansUser(states[2], "local:root", 2, ReloadFails)
  {
    hide Next, AuthModel.IssueForUser, HoldsSession;
    var s1 := START.(authenticated := multiset{2});
    var s2 := AuthModel.IssueForUser(s1, 2, 1, 100, DRAW, false);
    var states, ops, times := [START, s1, s2], [ANN_LOGS_IN, ANN_IS_ISSUED], [0, 1];
    AnnAuthenticates(0);
    AnnIsIssued(s1, 1);
    assert IsRun(states, ops, times);
  }
}
