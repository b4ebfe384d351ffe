/** Who may take whose rights away: what the guards of the admin service answer, and what that means over whole runs. */
module AdminGuards {
  import opened Common
  import opened AuthModel
  import opened RefreshFamilies

  /** Another user is active and an admin. */
  ghost predicate AnotherAdmin(users: Users, id: UserId) {
    exists u :: u in users && u != id && users[u].active && "admin" in users[u].roles
  }

  lemma NoOtherCounted(users: Users, id: UserId)
    ensures |ActiveAdmins(users, id)| == 0 <==> !AnotherAdmin(users, id)
  {
    if u :| u in users && u != id && users[u].active && "admin" in users[u].roles {
      assert u in ActiveAdmins(users, id);
    } else {
      assert ActiveAdmins(users, id) == {};
    }
  }

  // ---- deactivation ------------------------------------------------------------------------------------------

  /** What a deactivation without a failing call leaves: the user is inactive, its unrevoked tokens are revoked now, and nothing else
    * differs. */
  function Deactivated(s: State, id: UserId, now: int): State
    requires id in s.users
  {
    s.(users := s.users[id := s.users[id].(active := false)],
       tokens := map i | i in s.tokens ::
         if s.tokens[i].user == id && s.tokens[i].revokedAt.None? then s.tokens[i].(revokedAt := Some(now)) else s.tokens[i])
  }

  /** Every answer of a deactivation in which no call fails: an admin does not deactivate oneself, the last active admin stays, and anyone
    * else goes. */
  lemma DeactivationAnswers(s: State, actor: string, id: UserId, now: int)
    requires id in s.users && s.users[id].active
    ensures var u := s.users[id];
      AuthModel.DeactivateUser(s, actor, id, now, NoAdminFault) ==
      if u.subject == actor && "admin" in u.roles then (s, ForbiddenSelfDemote)
      else if "admin" in u.roles && !AnotherAdmin(s.users, id) then (s, LastAdmin)
      else (Deactivated(s, id, now), Done)
  {
    NoOtherCounted(s.users, id);
    assert RevokeAllForUser(s.tokens, id, now) == Deactivated(s, id, now).tokens;
    hide ActiveAdmins, AnotherAdmin;
  }

  /** An update that turns the active flag off answers the same, and one that does not leaves tokens alone. */
  lemma UpdateAnswers(s: State, actor: string, id: UserId, isActive: Option<bool>, now: int)
    requires id in s.users
    ensures AuthModel.UpdateUser(s, actor, id, isActive, false, now, NoAdminFault) ==
      if isActive == Some(false) && s.users[id].active then AuthModel.DeactivateUser(s, actor, id, now, NoAdminFault)
      else if isActive == Some(true) then (s.(users := s.users[id := s.users[id].(active := true)]), Done)
      else (s, Done)
  {
    hide Refusal;
    assert s.users[id := s.users[id]] == s.users;
  }

  /** The guard comes before every write, so only a failing read or a blank password is reported instead of its refusal. */
  lemma RefusedWhateverFails(s: State, actor: string, id: UserId, blank: bool, now: int, fault: AdminFault)
    requires id in s.users && s.users[id].active && "admin" in s.users[id].roles && fault != ReadFails
    requires s.users[id].subject == actor || !AnotherAdmin(s.users, id)
    ensures var refusal := if s.users[id].subject == actor then ForbiddenSelfDemote else LastAdmin;
      && AuthModel.DeactivateUser(s, actor, id, now, fault) == (s, refusal)
      && AuthModel.UpdateUser(s, actor, id, Some(false), blank, now, fault) == (s, if blank then Invalid else refusal)
  {
    NoOtherCounted(s.users, id);
    hide ActiveAdmins, AnotherAdmin;
  }

  /** A read that fails changes nothing; nor does a write, and it is reported when the call comes to it. */
  lemma FailedReadsAndWrites(s: State, actor: string, id: UserId, isActive: Option<bool>, blank: bool, roles: set<string>, now: int)
    requires roles <= {"admin", "engineer", "operator"}
    ensures AuthModel.UpdateUser(s, actor, id, isActive, blank, now, ReadFails) == (s, AdminFailed)
    ensures AuthModel.DeactivateUser(s, actor, id, now, ReadFails) == (s, AdminFailed)
    ensures AuthModel.SetUserRoles(s, actor, id, roles, ReadFails) == (s, AdminFailed)
    ensures AuthModel.RemoveUserRole(s, actor, id, "admin", ReadFails) == (s, AdminFailed)
    ensures AuthModel.RevokeUserSessions(s, id, now, ReadFails) == (s, AdminFailed)
    ensures AuthModel.UpdateUser(s, actor, id, isActive, blank, now, NoAdminFault).1 == Done ==>
      AuthModel.UpdateUser(s, actor, id, isActive, blank, now, WriteFails) == (s, AdminFailed)
    ensures AuthModel.DeactivateUser(s, actor, id, now, NoAdminFault).1 == Done && id in s.users && s.users[id].active ==>
      AuthModel.DeactivateUser(s, actor, id, now, WriteFails) == (s, AdminFailed)
    ensures AuthModel.SetUserRoles(s, actor, id, roles, NoAdminFault).1 == Done ==>
      AuthModel.SetUserRoles(s, actor, id, roles, WriteFails) == (s, AdminFailed)
  {
    hide ActiveAdmins;
  }

  /** A deactivation that fails after the write leaves the user inactive and every token as it was, and says that it failed. */
  lemma HalfDone(s: State, actor: string, id: UserId, now: int, fault: AdminFault)
    requires id in s.users && s.users[id].active && fault in {ReloadFails, SessionsFail}
    requires AuthModel.DeactivateUser(s, actor, id, now, NoAdminFault).1 == Done
    ensures AuthModel.DeactivateUser(s, actor, id, now, fault)
      == AuthModel.UpdateUser(s, actor, id, Some(false), false, now, fault)
      == (s.(users := s.users[id := s.users[id].(active := false)]), AdminFailed)
  {
    hide ActiveAdmins;
  }

  /** Sessions are revoked for a known user when neither call fails, and then those of that user, now. */
  lemma RevokingAnswers(s: State, id: UserId, now: int, fault: AdminFault)
    ensures var (r, result) := AuthModel.RevokeUserSessions(s, id, now, fault);
      && (result == Done <==> id in s.users && fault !in {ReadFails, SessionsFail})
      && (result == UserNotFound <==> id !in s.users && fault != ReadFails)
      && (result !in {Done, UserNotFound} ==> result == AdminFailed)
      && r.users == s.users
      && r.tokens.Keys == s.tokens.Keys
      && (forall i :: i in s.tokens ==>
            r.tokens[i] == if result == Done && s.tokens[i].user == id && s.tokens[i].revokedAt.None?
                           then s.tokens[i].(revokedAt := Some(now)) else s.tokens[i])
  {
  }

  /** A new user is active and has the roles given; if setting them fails there is a user without roles, and before that nothing. */
  lemma CreationAnswers(s: State, id: UserId, subject: string, roles: set<string>, fault: AdminFault)
    requires id !in s.users
    ensures AuthModel.CreateUser(s, id, subject, roles, fault) ==
      if exists role :: role in roles && role !in {"admin", "engineer", "operator"} then (s, Invalid)
      else if fault == ReadFails then (s, AdminFailed)
      else if fault == WriteFails then (s.(users := s.users[id := User(subject, true, {})]), AdminFailed)
      else (s.(users := s.users[id := User(subject, true, roles)]), Done)
  {
    assert s.users[id := User(subject, true, {})][id := User(subject, true, roles)] == s.users[id := User(subject, true, roles)];
  }

  // ---- the first half of a login -----------------------------------------------------------------------------

  /** A subject never gets a second row: a login finds the one it has, and makes one only when there is none. */
  lemma SubjectKeepsItsRow(users: Users, subject: string, id: UserId)
    requires FindsUser(users, subject, id)
    ensures id in users <==> exists u :: u in users && users[u].subject == subject
    ensures id in users ==> users[id].subject == subject
  {
  }

  /** Every answer of an authentication, known subject or new, and what each failing call leaves. */
  lemma AuthenticationAnswers(s: State, id: UserId, subject: string, fault: AuthFault)
    ensures var (r, result) := AuthModel.Authenticate(s, id, subject, fault);
      var fails := fault == FindUserFails || (fault == CreateUserFails && id !in s.users);
      var users := if fails || id in s.users then s.users else s.users[id := User(subject, true, {})];
      var active := id in users && users[id].active;
      && r == State(users, s.tokens, s.drawn, if result == Authenticated then s.authenticated + multiset{id} else s.authenticated)
      && (result == Authenticated <==> !fails && active && fault != RolesFail)
      && (result == AuthDisabled <==> !fails && !active)
  {
  }

  // ---- roles -------------------------------------------------------------------------------------------------

  /** Every answer of a change of roles in which no call fails. */
  lemma RoleAnswers(s: State, actor: string, id: UserId, roles: set<string>)
    requires id in s.users && roles <= {"admin", "engineer", "operator"}
    ensures var u := s.users[id];
      AuthModel.SetUserRoles(s, actor, id, roles, NoAdminFault) ==
      if "admin" in u.roles && "admin" !in roles && u.subject == actor then (s, ForbiddenSelfDemote)
      else if "admin" in u.roles && "admin" !in roles && u.active && !AnotherAdmin(s.users, id) then (s, LastAdmin)
      else (s.(users := s.users[id := u.(roles := roles)]), Done)
  {
    NoOtherCounted(s.users, id);
    hide ActiveAdmins, AnotherAdmin;
  }

  /** Roles that do not exist are refused before anything is read. */
  lemma UnknownRoles(s: State, actor: string, id: UserId, roles: set<string>, fault: AdminFault)
    requires exists role :: role in roles && role !in {"admin", "engineer", "operator"}
    ensures AuthModel.SetUserRoles(s, actor, id, roles, fault) == (s, Invalid)
  {
  }

  /** Removing a role is setting the others; removing one's own admin role is refused. */
  lemma RemovalAnswers(s: State, actor: string, id: UserId, role: string)
    requires id in s.users
    ensures AuthModel.RemoveUserRole(s, actor, id, role, NoAdminFault)
      == AuthModel.SetUserRoles(s, actor, id, (set r | r in s.users[id].roles && r != role), NoAdminFault)
    ensures s.users[id].subject == actor && "admin" in s.users[id].roles && s.users[id].roles <= {"admin", "engineer", "operator"} ==>
      AuthModel.RemoveUserRole(s, actor, id, "admin", NoAdminFault) == (s, ForbiddenSelfDemote)
  {
    assert s.users[id].roles - {role} == (set r | r in s.users[id].roles && r != role);
    hide ActiveAdmins;
  }

  // ---- over whole runs -----------------------------------------------------------------------------------------

  ghost predicate IsActiveAdmin(users: Users, id: UserId) {
    id in users && users[id].active && "admin" in users[id].roles
  }

  /** The call is one that can take rights from the user, by someone else, with another active admin to stay. */
  ghost predicate TakesRights(s: State, op: Op, id: UserId) {
    && (op.UpdateUser? || op.DeactivateUser? || op.SetUserRoles? || op.RemoveUserRole?)
    && op.user == id && id in s.users && op.actor != s.users[id].subject && AnotherAdmin(s.users, id)
  }

  lemma NextTakesRights(s: State, op: Op, now: int, r: State, id: UserId)
    requires RefreshFamilies.Next(s, op, now, r) && IsActiveAdmin(s.users, id)
    ensures id in r.users && r.users[id].subject == s.users[id].subject
    ensures !IsActiveAdmin(r.users, id) ==> TakesRights(s, op, id)
  {
    NoOtherCounted(s.users, id);
    hide ActiveAdmins, AnotherAdmin, RevokeAllForUser, RevokeFamily, MarkUsed, AuthModel.DeleteExpired;
  }

  /** Whoever is an active admin at one moment and no longer so at a later one was deactivated or demoted in between, by someone else and
    * while there was another active admin. */
  lemma {:induction false} NobodyRemovesOneself(states: seq<State>, ops: seq<Op>, times: seq<int>, i: nat, j: nat, id: UserId)
    returns (k: nat)
    requires IsRun(states, ops, times) && i <= j < |states|
    requires IsActiveAdmin(states[i].users, id) && !IsActiveAdmin(states[j].users, id)
    ensures i <= k < j && IsActiveAdmin(states[k].users, id) && TakesRights(states[k], ops[k], id)
    decreases j
  {
    hide IsActiveAdmin, TakesRights;
    assert i < j;
    if IsActiveAdmin(states[j - 1].users, id) {
      k := j - 1;
      RunStep(states, ops, times, k);
      NextTakesRights(states[k], ops[k], times[k], states[k + 1], id);
    } else {
      k := NobodyRemovesOneself(states, ops, times, i, j - 1, id);
    }
  }
}
