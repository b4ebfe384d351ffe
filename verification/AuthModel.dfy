/** Users and refresh tokens as tables, and what each call of the token and admin services does to them. */
module AuthModel {
  import opened Common

  type UserId = nat
  type RecordId = nat
  type Family = nat
  type Hash = nat

  datatype User = User(subject: string, active: bool, roles: set<string>)

  datatype Record = Record(
    user: UserId, family: Family, hash: Hash, parent: Option<RecordId>, issuedAt: int, expiresAt: int,
    usedAt: Option<int>, revokedAt: Option<int>)

  type Tokens = map<RecordId, Record>
  type Users = map<UserId, User>

  /** Every id, hash and family ever drawn; random draws avoid them. */
  datatype Drawn = Drawn(ids: set<RecordId>, hashes: set<Hash>, families: set<Family>)

  /** `authenticated` holds the logins that have passed authentication and are still to be issued tokens. */
  datatype State = State(users: Users, tokens: Tokens, drawn: Drawn, authenticated: multiset<UserId>)

  const ALLOWED_ROLES := {"admin", "engineer", "operator"}

  // ---- the refresh_tokens table --------------------------------------------------------------------------

  predicate Finds(tokens: Tokens, hash: Hash, found: Option<RecordId>) {
    if found.Some? then found.value in tokens && tokens[found.value].hash == hash
    else forall i :: i in tokens ==> tokens[i].hash != hash
  }

  function MarkUsed(tokens: Tokens, id: RecordId, now: int): Tokens {
    if id in tokens then tokens[id := tokens[id].(usedAt := Some(now))] else tokens
  }

  function RevokedNow(r: Record, now: int): Record {
    if r.revokedAt.None? then r.(revokedAt := Some(now)) else r
  }

  function RevokeFamily(tokens: Tokens, family: Family, now: int): Tokens {
    map i | i in tokens :: if tokens[i].family == family then RevokedNow(tokens[i], now) else tokens[i]
  }

  function RevokeAllForUser(tokens: Tokens, user: UserId, now: int): Tokens {
    map i | i in tokens :: if tokens[i].user == user then RevokedNow(tokens[i], now) else tokens[i]
  }

  /** Rows past their expiry go; a row whose parent goes keeps no parent. */
  function DeleteExpired(tokens: Tokens, now: int): Tokens {
    map i | i in tokens && !(tokens[i].expiresAt < now) ::
      if tokens[i].parent.Some? && tokens[i].parent.value in tokens && tokens[tokens[i].parent.value].expiresAt < now
      then tokens[i].(parent := None) else tokens[i]
  }

  // ---- the token service -----------------------------------------------------------------------------------

  /** The call that fails, if any; those after it are not made. */
  datatype RotateFault = NoFault | FindFails | RevokeFails | MarkFails | LookupFails | IssueFails | CreateFails

  datatype RotateResult = Rotated | InvalidRefresh | RefreshReused | UserDisabled | RotateFailed

  datatype Draw = Draw(id: RecordId, hash: Hash, family: Family)

  predicate FreshDraw(drawn: Drawn, draw: Draw) {
    draw.id !in drawn.ids && draw.hash !in drawn.hashes && draw.family !in drawn.families
  }

  function WithRecord(s: State, id: RecordId, r: Record): State {
    s.(tokens := s.tokens[id := r],
       drawn := Drawn(s.drawn.ids + {id}, s.drawn.hashes + {r.hash}, s.drawn.families + {r.family}))
  }

  /** `found` is the row of the presented token's hash; a token that cannot be decoded has no row. */
  function Rotate(s: State, found: Option<RecordId>, now: int, ttl: int, draw: Draw, fault: RotateFault): (State, RotateResult) {
    if fault == FindFails then (s, RotateFailed)
    else if found.None? || found.value !in s.tokens then (s, InvalidRefresh)
    else
      var id := found.value;
      var r := s.tokens[id];
      if r.revokedAt.Some? || now >= r.expiresAt then (s, InvalidRefresh)
      else if r.usedAt.Some? then
        if fault == RevokeFails then (s, RotateFailed)
        else (s.(tokens := RevokeFamily(s.tokens, r.family, now)), if fault == LookupFails then RotateFailed else RefreshReused)
      else if fault == MarkFails then (s, RotateFailed)
      else
        var marked := s.(tokens := MarkUsed(s.tokens, id, now));
        if fault == LookupFails || r.user !in s.users then (marked, RotateFailed)
        else if !s.users[r.user].active then
          if fault == RevokeFails then (marked, RotateFailed)
          else (marked.(tokens := RevokeFamily(marked.tokens, r.family, now)), UserDisabled)
        else if fault == IssueFails || fault == CreateFails then (marked, RotateFailed)
        else (WithRecord(marked, draw.id, Record(r.user, r.family, draw.hash, Some(id), now, now + ttl, None, None)), Rotated)
  }

  /** A new family for the user, whoever that is by now. */
  function Issue(s: State, user: UserId, now: int, ttl: int, draw: Draw): State {
    WithRecord(s, draw.id, Record(user, draw.family, draw.hash, None, now, now + ttl, None, None))
  }

  function Revoke(s: State, found: Option<RecordId>, now: int): State {
    if found.None? || found.value !in s.tokens then s
    else s.(tokens := RevokeFamily(s.tokens, s.tokens[found.value].family, now))
  }

  // ---- the admin service -----------------------------------------------------------------------------------

  predicate IsAdmin(u: User) {
    "admin" in u.roles
  }

  /** The users that CountActiveAdminsExcluding counts. */
  function ActiveAdmins(users: Users, except: UserId): set<UserId> {
    set u | u in users && u != except && users[u].active && IsAdmin(users[u])
  }

  datatype AdminFault = NoAdminFault | ReadFails | WriteFails | ReloadFails | SessionsFail

  datatype AdminResult = Done | UserNotFound | Invalid | ForbiddenSelfDemote | LastAdmin | AdminFailed

  /** Why a user may not be deactivated, if there is a reason. */
  function Refusal(users: Users, actor: string, id: UserId): Option<AdminResult>
    requires id in users
  {
    var u := users[id];
    if u.subject == actor && IsAdmin(u) then Some(ForbiddenSelfDemote)
    else if u.active && IsAdmin(u) && |ActiveAdmins(users, id)| == 0 then Some(LastAdmin)
    else None
  }

  /** An update whose row is written but cannot be read back is reported as failed, and sessions are then left alone. */
  function UpdateUser(s: State, actor: string, id: UserId, isActive: Option<bool>, passwordBlank: bool, now: int, fault: AdminFault)
    : (State, AdminResult)
  {
    if fault == ReadFails then (s, AdminFailed)
    else if id !in s.users then (s, UserNotFound)
    else if passwordBlank then (s, Invalid)
    else
      var u := s.users[id];
      var deactivates := isActive == Some(false) && u.active;
      if deactivates && Refusal(s.users, actor, id).Some? then (s, Refusal(s.users, actor, id).value)
      else if fault == WriteFails then (s, AdminFailed)
      else
        var written := s.(users := s.users[id := u.(active := if isActive.Some? then isActive.value else u.active)]);
        if fault == ReloadFails then (written, AdminFailed)
        else if !deactivates then (written, Done)
        else if fault == SessionsFail then (written, AdminFailed)
        else (written.(tokens := RevokeAllForUser(s.tokens, id, now)), Done)
  }

  function DeactivateUser(s: State, actor: string, id: UserId, now: int, fault: AdminFault): (State, AdminResult) {
    if fault == ReadFails then (s, AdminFailed)
    else if id !in s.users then (s, UserNotFound)
    else if !s.users[id].active then (s, Done)
    else UpdateUser(s, actor, id, Some(false), false, now, fault)
  }

  function SetUserRoles(s: State, actor: string, id: UserId, roles: set<string>, fault: AdminFault): (State, AdminResult) {
    if !(roles <= ALLOWED_ROLES) then (s, Invalid)
    else if fault == ReadFails then (s, AdminFailed)
    else if id !in s.users then (s, UserNotFound)
    else
      var u := s.users[id];
      var demotes := IsAdmin(u) && "admin" !in roles;
      if u.subject == actor && demotes then (s, ForbiddenSelfDemote)
      else if u.active && demotes && |ActiveAdmins(s.users, id)| == 0 then (s, LastAdmin)
      else if fault == WriteFails then (s, AdminFailed)
      else (s.(users := s.users[id := u.(roles := roles)]), Done)
  }

  /** A user without a row has no roles to read, and is then reported as not found. */
  function RemoveUserRole(s: State, actor: string, id: UserId, role: string, fault: AdminFault): (State, AdminResult) {
    if fault == ReadFails then (s, AdminFailed)
    else SetUserRoles(s, actor, id, (if id in s.users then s.users[id].roles else {}) - {role}, fault)
  }

  function RevokeUserSessions(s: State, id: UserId, now: int, fault: AdminFault): (State, AdminResult) {
    if fault == ReadFails then (s, AdminFailed)
    else if id !in s.users then (s, UserNotFound)
    else if fault == SessionsFail then (s, AdminFailed)
    else (s.(tokens := RevokeAllForUser(s.tokens, id, now)), Done)
  }

  /** The row is created active and without roles; setting them is a second call. */
  function CreateUser(s: State, id: UserId, subject: string, roles: set<string>, fault: AdminFault): (State, AdminResult) {
    if !(roles <= ALLOWED_ROLES) then (s, Invalid)
    else if fault == ReadFails || id in s.users then (s, AdminFailed)
    else
      var created := s.(users := s.users[id := User(subject, true, {})]);
      if fault == WriteFails then (created, AdminFailed)
      else (created.(users := created.users[id := User(subject, true, roles)]), Done)
  }

  // ---- logging in: two calls, one after the other --------------------------------------------------------------

  datatype AuthFault = NoAuthFault | FindUserFails | CreateUserFails | RolesFail

  datatype AuthResult = Authenticated | AuthDisabled | AuthFailed

  /** The user with the subject or, when there is none, an id that is in no row. */
  predicate FindsUser(users: Users, subject: string, id: UserId) {
    if id in users then users[id].subject == subject else forall u :: u in users ==> users[u].subject != subject
  }

  /** A subject seen for the first time gets a row, which stays even if what comes after it fails. */
  function Authenticate(s: State, id: UserId, subject: string, fault: AuthFault): (State, AuthResult) {
    if fault == FindUserFails || (id !in s.users && fault == CreateUserFails) then (s, AuthFailed)
    else
      var known := if id in s.users then s else s.(users := s.users[id := User(subject, true, {})]);
      if !known.users[id].active then (known, AuthDisabled)
      else if fault == RolesFail then (known, AuthFailed)
      else (known.(authenticated := known.authenticated + multiset{id}), Authenticated)
  }

  /** The second call takes the user as the first one found it and does not look again. */
  function IssueForUser(s: State, user: UserId, now: int, ttl: int, draw: Draw, fails: bool): State {
    var served := s.(authenticated := s.authenticated - multiset{user});
    if fails then served else Issue(served, user, now, ttl, draw)
  }
}
