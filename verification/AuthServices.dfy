/** The token and admin services over their repositories, call by call. */
module AuthServices {
  import opened Common
  import opened Uuids
  import opened AuthModel

  class UserRepository {
    var users: Users
    ghost var authenticated: multiset<UserId>

    constructor (users: Users)
      ensures this.users == users && authenticated == multiset{}
    {
      this.users, authenticated := users, multiset{};
    }

    method FindByID(id: UserId, fails: bool) returns (found: Option<User>, ok: bool)
      ensures ok == !fails
      ensures found == if ok && id in users then Some(users[id]) else None
    {
      ok := !fails;
      found := if ok && id in users then Some(users[id]) else None;
    }

    method FindBySubject(subject: string, fails: bool) returns (found: Option<UserId>, ok: bool)
      ensures ok == !fails
      ensures ok && found.Some? ==> found.value in users && users[found.value].subject == subject
      ensures ok && found.None? ==> forall u :: u in users ==> users[u].subject != subject
    {
      if fails {
        return None, false;
      }
      var keys := Enumerate(users.Keys);
      ToSetEnds(keys);
      for n := 0 to |keys|
        invariant forall u :: u in ToSet(keys[..n]) ==> u in users && users[u].subject != subject
      {
        ToSetPrefix(keys, n);
        if users[keys[n]].subject == subject {
          return Some(keys[n]), true;
        }
      }
      found, ok := None, true;
    }

    method GetRoles(id: UserId) returns (roles: set<string>)
      ensures roles == if id in users then users[id].roles else {}
    {
      roles := if id in users then users[id].roles else {};
    }

    method CountActiveAdminsExcluding(id: UserId) returns (total: nat)
      ensures total == |ActiveAdmins(users, id)|
    {
      var keys := Enumerate(users.Keys);
      ToSetEnds(keys);
      total := 0;
      ghost var admins := ActiveAdmins(users, id);
      for n := 0 to |keys|
        invariant total == |admins * ToSet(keys[..n])|
      {
        ToSetPrefix(keys, n);
        CountsOne(admins, ToSet(keys[..n]), keys[n]);
        var u := users[keys[n]];
        if keys[n] != id && u.active && "admin" in u.roles {
          total := total + 1;
        }
      }
      assert admins * users.Keys == admins;
    }

    static lemma CountsOne(admins: set<UserId>, seen: set<UserId>, u: UserId)
      requires u !in seen
      ensures |admins * (seen + {u})| == |admins * seen| + if u in admins then 1 else 0
    {
      assert admins * (seen + {u}) == admins * seen + if u in admins then {u} else {};
    }

    method Create(id: UserId, subject: string) returns (ok: bool)
      modifies this`users
      ensures ok == (id !in old(users))
      ensures users == if ok then old(users)[id := User(subject, true, {})] else old(users)
    {
      ok := id !in users;
      if ok {
        users := users[id := User(subject, true, {})];
      }
    }

    /** COALESCE keeps the flag when none is given. The row is read back afterwards, which may fail on its own. */
    method Update(id: UserId, isActive: Option<bool>, fails: bool, reloadFails: bool) returns (ok: bool)
      modifies this`users
      ensures ok == (!fails && !reloadFails && id in old(users))
      ensures users ==
        if !fails && id in old(users)
        then old(users)[id := old(users)[id].(active := if isActive.Some? then isActive.value else old(users)[id].active)]
        else old(users)
    {
      if fails || id !in users {
        return false;
      }
      users := users[id := users[id].(active := if isActive.Some? then isActive.value else users[id].active)];
      ok := !reloadFails;
    }

    /** One transaction: the old roles are deleted and the new ones inserted, or neither. */
    method SetRoles(id: UserId, roles: set<string>, fails: bool) returns (ok: bool)
      modifies this`users
      ensures ok == (!fails && roles <= ALLOWED_ROLES && id in old(users))
      ensures users == if ok then old(users)[id := old(users)[id].(roles := roles)] else old(users)
    {
      ok := !fails && roles <= ALLOWED_ROLES && id in users;
      if ok {
        users := users[id := users[id].(roles := roles)];
      }
    }
  }

  class RefreshTokenRepository {
    var tokens: Tokens
    ghost var drawn: Drawn

    constructor ()
      ensures tokens == map[] && drawn == Drawn({}, {}, {})
    {
      tokens, drawn := map[], Drawn({}, {}, {});
    }

    method FindByHash(hash: Hash, fails: bool) returns (found: Option<RecordId>, ok: bool)
      ensures ok == !fails
      ensures ok ==> Finds(tokens, hash, found)
    {
      if fails {
        return None, false;
      }
      var keys := Enumerate(tokens.Keys);
      ToSetEnds(keys);
      for n := 0 to |keys|
        invariant forall i :: i in ToSet(keys[..n]) ==> i in tokens && tokens[i].hash != hash
      {
        ToSetPrefix(keys, n);
        if tokens[keys[n]].hash == hash {
          return Some(keys[n]), true;
        }
      }
      found, ok := None, true;
    }

    method MarkUsed(id: RecordId, now: int, fails: bool) returns (ok: bool)
      modifies this`tokens
      ensures ok == !fails
      ensures tokens == if ok then AuthModel.MarkUsed(old(tokens), id, now) else old(tokens)
    {
      ok := !fails;
      if ok && id in tokens {
        tokens := tokens[id := tokens[id].(usedAt := Some(now))];
      }
    }

    method RevokeFamily(family: Family, now: int, fails: bool) returns (ok: bool)
      modifies this`tokens
      ensures ok == !fails
      ensures tokens == if ok then AuthModel.RevokeFamily(old(tokens), family, now) else old(tokens)
    {
      ok := !fails;
      if ok {
        tokens := map i | i in tokens ::
          if tokens[i].family == family && tokens[i].revokedAt.None? then tokens[i].(revokedAt := Some(now)) else tokens[i];
      }
    }

    method RevokeAllForUser(user: UserId, now: int, fails: bool) returns (ok: bool)
      modifies this`tokens
      ensures ok == !fails
      ensures tokens == if ok then AuthModel.RevokeAllForUser(old(tokens), user, now) else old(tokens)
    {
      ok := !fails;
      if ok {
        tokens := map i | i in tokens ::
          if tokens[i].user == user && tokens[i].revokedAt.None? then tokens[i].(revokedAt := Some(now)) else tokens[i];
      }
    }

    method Create(id: RecordId, record: Record, fails: bool) returns (ok: bool)
      modifies this
      ensures ok == !fails
      ensures tokens == if ok then old(tokens)[id := record] else old(tokens)
      ensures drawn == if ok
        then Drawn(old(drawn).ids + {id}, old(drawn).hashes + {record.hash}, old(drawn).families + {record.family}) else old(drawn)
    {
      ok := !fails;
      if ok {
        tokens := tokens[id := record];
        drawn := Drawn(drawn.ids + {id}, drawn.hashes + {record.hash}, drawn.families + {record.family});
      }
    }

    method DeleteExpired(now: int) returns (count: nat)
      modifies this`tokens
      ensures tokens == AuthModel.DeleteExpired(old(tokens), now)
      ensures count == |old(tokens)| - |tokens|
    {
      var before := tokens;
      tokens := map i | i in before && !(before[i].expiresAt < now) ::
        if before[i].parent.Some? && before[i].parent.value in before && before[before[i].parent.value].expiresAt < now
        then before[i].(parent := None) else before[i];
      FewerKeys(tokens, before);
      count := |before| - |tokens|;
    }
  }

  lemma FewerKeys(kept: Tokens, all: Tokens)
    requires kept.Keys <= all.Keys
    ensures |kept| <= |all|
  {
    assert |kept.Keys| <= |all.Keys| by {
      assert all.Keys == kept.Keys + (all.Keys - kept.Keys);
    }
  }

  class TokenService {
    const users: UserRepository
    const refresh: RefreshTokenRepository
    const refreshTTL: int

    constructor (users: UserRepository, refresh: RefreshTokenRepository, refreshTTL: int)
      ensures this.users == users && this.refresh == refresh && this.refreshTTL == refreshTTL
    {
      this.users, this.refresh, this.refreshTTL := users, refresh, refreshTTL;
    }

    ghost function Contents(): State
      reads users, refresh
    {
      State(users.users, refresh.tokens, refresh.drawn, users.authenticated)
    }

    /** Exchanges a refresh token. `hash` is None when the token cannot be decoded. */
    method Rotate(hash: Option<Hash>, now: int, draw: Draw, fault: RotateFault)
      returns (result: RotateResult, ghost found: Option<RecordId>)
      modifies refresh
      ensures fault != FindFails && hash.Some? ==> Finds(old(refresh.tokens), hash.value, found)
      ensures hash.None? ==> found.None?
      ensures hash.Some? || fault != FindFails ==>
        (Contents(), result) == AuthModel.Rotate(old(Contents()), found, now, refreshTTL, draw, fault)
      ensures hash.None? ==> Contents() == old(Contents()) && result == InvalidRefresh
    {
      found := None;
      if hash.None? {
        return InvalidRefresh, None;
      }
      var row, ok := refresh.FindByHash(hash.value, fault == FindFails);
      found := row;
      if !ok {
        return RotateFailed, found;
      }
      if row.None? {
        return InvalidRefresh, found;
      }
      var id := row.value;
      var record := refresh.tokens[id];
      if record.revokedAt.Some? || !(now < record.expiresAt) {
        return InvalidRefresh, found;
      }
      if record.usedAt.Some? {
        ok := refresh.RevokeFamily(record.family, now, fault == RevokeFails);
        if !ok || fault == LookupFails {
          return RotateFailed, found;
        }
        return RefreshReused, found;
      }
      ok := refresh.MarkUsed(id, now, fault == MarkFails);
      if !ok {
        return RotateFailed, found;
      }
      var user, loaded := users.FindByID(record.user, fault == LookupFails);
      if !loaded || user.None? {
        return RotateFailed, found;
      }
      if !user.value.active {
        ok := refresh.RevokeFamily(record.family, now, fault == RevokeFails);
        return if ok then UserDisabled else RotateFailed, found;
      }
      if fault == IssueFails {
        return RotateFailed, found;
      }
      ok := refresh.Create(draw.id, Record(record.user, record.family, draw.hash, Some(id), now, now + refreshTTL, None, None),
                           fault == CreateFails);
      result := if ok then Rotated else RotateFailed;
    }

    method IssueForUser(user: UserId, now: int, draw: Draw, fails: bool) returns (ok: bool)
      modifies refresh, users`authenticated
      ensures ok == !fails
      ensures Contents() == AuthModel.IssueForUser(old(Contents()), user, now, refreshTTL, draw, fails)
    {
      users.authenticated := users.authenticated - multiset{user};
      ok := refresh.Create(draw.id, Record(user, draw.family, draw.hash, None, now, now + refreshTTL, None, None), fails);
    }

    method Revoke(hash: Option<Hash>, now: int, findFails: bool, revokeFails: bool) returns (ok: bool, ghost found: Option<RecordId>)
      modifies refresh
      ensures !findFails && hash.Some? ==> Finds(old(refresh.tokens), hash.value, found)
      ensures ok <==> hash.None? || (!findFails && (found.None? || !revokeFails))
      ensures Contents() == if ok && hash.Some? then AuthModel.Revoke(old(Contents()), found, now) else old(Contents())
    {
      found := None;
      if hash.None? {
        return true, None;
      }
      var row;
      row, ok := refresh.FindByHash(hash.value, findFails);
      found := row;
      if !ok || row.None? {
        return ok, found;
      }
      ok := refresh.RevokeFamily(refresh.tokens[row.value].family, now, revokeFails);
    }
  }

  class AuthService {
    const users: UserRepository
    const refresh: RefreshTokenRepository

    constructor (users: UserRepository, refresh: RefreshTokenRepository)
      ensures this.users == users && this.refresh == refresh
    {
      this.users, this.refresh := users, refresh;
    }

    ghost function Contents(): State
      reads users, refresh
    {
      State(users.users, refresh.tokens, refresh.drawn, users.authenticated)
    }

    /** Once the identity provider has named the subject; `newId` is the id that a new row would get. */
    method Authenticate(subject: string, newId: UserId, fault: AuthFault) returns (result: AuthResult, id: UserId)
      requires newId !in users.users
      modifies users
      ensures fault != FindUserFails ==> FindsUser(old(users.users), subject, id)
      ensures (Contents(), result) == AuthModel.Authenticate(old(Contents()), id, subject, fault)
    {
      var found, ok := users.FindBySubject(subject, fault == FindUserFails);
      id := if found.Some? then found.value else newId;
      if !ok {
        return AuthFailed, id;
      }
      if found.None? {
        if fault == CreateUserFails {
          return AuthFailed, id;
        }
        ok := users.Create(id, subject);
      }
      if !users.users[id].active {
        return AuthDisabled, id;
      }
      if fault == RolesFail {
        return AuthFailed, id;
      }
      users.authenticated := users.authenticated + multiset{id};
      result := Authenticated;
    }
  }

  class AdminService {
    const users: UserRepository
    const refresh: RefreshTokenRepository

    constructor (users: UserRepository, refresh: RefreshTokenRepository)
      ensures this.users == users && this.refresh == refresh
    {
      this.users, this.refresh := users, refresh;
    }

    ghost function Contents(): State
      reads users, refresh
    {
      State(users.users, refresh.tokens, refresh.drawn, users.authenticated)
    }

    method EnsureCanDeactivateUser(actor: string, id: UserId) returns (refusal: Option<AdminResult>)
      requires id in users.users
      ensures refusal == Refusal(users.users, actor, id)
    {
      var user := users.users[id];
      var roles := users.GetRoles(id);
      if user.subject == actor && "admin" in roles {
        return Some(ForbiddenSelfDemote);
      }
      if user.active && "admin" in roles {
        var count := users.CountActiveAdminsExcluding(id);
        if count == 0 {
          return Some(LastAdmin);
        }
      }
      refusal := None;
    }

    method UpdateUser(actor: string, id: UserId, isActive: Option<bool>, passwordBlank: bool, now: int, fault: AdminFault)
      returns (result: AdminResult)
      modifies users, refresh
      ensures (Contents(), result) == AuthModel.UpdateUser(old(Contents()), actor, id, isActive, passwordBlank, now, fault)
    {
      hide Refusal;
      var user, ok := users.FindByID(id, fault == ReadFails);
      if !ok {
        return AdminFailed;
      }
      if user.None? {
        return UserNotFound;
      }
      if passwordBlank {
        return Invalid;
      }
      var deactivates := isActive == Some(false) && user.value.active;
      if deactivates {
        var refusal := EnsureCanDeactivateUser(actor, id);
        if refusal.Some? {
          return refusal.value;
        }
      }
      ok := users.Update(id, isActive, fault == WriteFails, fault == ReloadFails);
      if !ok {
        return AdminFailed;
      }
      if deactivates {
        ok := refresh.RevokeAllForUser(id, now, fault == SessionsFail);
        if !ok {
          return AdminFailed;
        }
      }
      result := Done;
    }

    method DeactivateUser(actor: string, id: UserId, now: int, fault: AdminFault) returns (result: AdminResult)
      modifies users, refresh
      ensures (Contents(), result) == AuthModel.DeactivateUser(old(Contents()), actor, id, now, fault)
    {
      hide Refusal;
      var user, ok := users.FindByID(id, fault == ReadFails);
      if !ok {
        return AdminFailed;
      }
      if user.None? {
        return UserNotFound;
      }
      if !user.value.active {
        return Done;
      }
      var refusal := EnsureCanDeactivateUser(actor, id);
      if refusal.Some? {
        return refusal.value;
      }
      ok := users.Update(id, Some(false), fault == WriteFails, fault == ReloadFails);
      if !ok {
        return AdminFailed;
      }
      ok := refresh.RevokeAllForUser(id, now, fault == SessionsFail);
      result := if ok then Done else AdminFailed;
    }

    method SetUserRoles(actor: string, id: UserId, roles: set<string>, fault: AdminFault) returns (result: AdminResult)
      modifies users
      ensures (Contents(), result) == AuthModel.SetUserRoles(old(Contents()), actor, id, roles, fault)
    {
      hide ActiveAdmins;
      if !(roles <= ALLOWED_ROLES) {
        return Invalid;
      }
      var user, ok := users.FindByID(id, fault == ReadFails);
      if !ok {
        return AdminFailed;
      }
      if user.None? {
        return UserNotFound;
      }
      var currentRoles := users.GetRoles(id);
      var currentIsAdmin, nextIsAdmin := "admin" in currentRoles, "admin" in roles;
      if user.value.subject == actor && currentIsAdmin && !nextIsAdmin {
        return ForbiddenSelfDemote;
      }
      if user.value.active && currentIsAdmin && !nextIsAdmin {
        var count := users.CountActiveAdminsExcluding(id);
        if count == 0 {
          return LastAdmin;
        }
      }
      ok := users.SetRoles(id, roles, fault == WriteFails);
      result := if ok then Done else AdminFailed;
    }

    method RemoveUserRole(actor: string, id: UserId, role: string, fault: AdminFault) returns (result: AdminResult)
      modifies users
      ensures (Contents(), result) == AuthModel.RemoveUserRole(old(Contents()), actor, id, role, fault)
    {
      if fault == ReadFails {
        return AdminFailed;
      }
      var currentRoles := users.GetRoles(id);
      result := SetUserRoles(actor, id, currentRoles - {role}, fault);
    }

    method RevokeUserSessions(id: UserId, now: int, fault: AdminFault) returns (result: AdminResult)
      modifies refresh
      ensures (Contents(), result) == AuthModel.RevokeUserSessions(old(Contents()), id, now, fault)
    {
      var user, ok := users.FindByID(id, fault == ReadFails);
      if !ok {
        return AdminFailed;
      }
      if user.None? {
        return UserNotFound;
      }
      ok := refresh.RevokeAllForUser(id, now, fault == SessionsFail);
      result := if ok then Done else AdminFailed;
    }

    method CreateUser(id: UserId, subject: string, roles: set<string>, fault: AdminFault) returns (result: AdminResult)
      modifies users
      ensures (Contents(), result) == AuthModel.CreateUser(old(Contents()), id, subject, roles, fault)
    {
      if !(roles <= ALLOWED_ROLES) {
        return Invalid;
      }
      if fault == ReadFails {
        return AdminFailed;
      }
      var created := users.Create(id, subject);
      if !created {
        return AdminFailed;
      }
      var ok := users.SetRoles(id, roles, fault == WriteFails);
      result := if ok then Done else AdminFailed;
    }
  }
}
