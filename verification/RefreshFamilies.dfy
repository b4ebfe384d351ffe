/** Refresh token families over whole runs: rotation, reuse detection and revocation. */
module RefreshFamilies {
  import opened Common
  import opened AuthModel

  // ---- the invariant ---------------------------------------------------------------------------------------

  /** Everything in the table was drawn. */
  ghost predicate AllDrawn(s: State) {
    forall i :: i in s.tokens ==>
      i in s.drawn.ids && s.tokens[i].hash in s.drawn.hashes && s.tokens[i].family in s.drawn.families
  }

  ghost predicate HashesUnique(tokens: Tokens) {
    forall i, j :: i in tokens && j in tokens && tokens[i].hash == tokens[j].hash ==> i == j
  }

  /** One user, one revocation instant and at most one unused record in each family. */
  ghost predicate FamilyUniform(tokens: Tokens) {
    forall i, j :: i in tokens && j in tokens && tokens[i].family == tokens[j].family ==>
      && tokens[i].user == tokens[j].user
      && tokens[i].revokedAt == tokens[j].revokedAt
      && (tokens[i].usedAt.None? && tokens[j].usedAt.None? ==> i == j)
  }

  /** A record's parent is a used record of its family. */
  ghost predicate ParentsUsed(tokens: Tokens) {
    forall i :: i in tokens && tokens[i].parent.Some? ==>
      var p := tokens[i].parent.value;
      p in tokens && tokens[p].usedAt.Some? && tokens[p].family == tokens[i].family
  }

  ghost predicate OneChildEach(tokens: Tokens) {
    forall i, j :: i in tokens && j in tokens && tokens[i].parent.Some? && tokens[i].parent == tokens[j].parent ==> i == j
  }

  ghost predicate Families(s: State) {
    AllDrawn(s) && HashesUnique(s.tokens) && FamilyUniform(s.tokens) && ParentsUsed(s.tokens) && OneChildEach(s.tokens)
  }

  // ---- runs ------------------------------------------------------------------------------------------------

  datatype Op =
    | Rotate(hash: Option<Hash>, ttl: int, draw: Draw, fault: RotateFault)
    | Revoke(hash: Option<Hash>)
    | Authenticate(user: UserId, subject: string, authFault: AuthFault)
    | IssueForUser(user: UserId, ttl: int, draw: Draw, issueFails: bool)
    | DeleteExpired
    | UpdateUser(actor: string, user: UserId, isActive: Option<bool>, passwordBlank: bool, adminFault: AdminFault)
    | DeactivateUser(actor: string, user: UserId, adminFault: AdminFault)
    | SetUserRoles(actor: string, user: UserId, roles: set<string>, adminFault: AdminFault)
    | RemoveUserRole(actor: string, user: UserId, role: string, adminFault: AdminFault)
    | RevokeUserSessions(user: UserId, adminFault: AdminFault)
    | CreateUser(user: UserId, subject: string, roles: set<string>, adminFault: AdminFault)

  predicate FindsRow(tokens: Tokens, hash: Option<Hash>, found: Option<RecordId>) {
    if hash.Some? then Finds(tokens, hash.value, found) else found.None?
  }

  ghost predicate Next(s: State, op: Op, now: int, r: State) {
    match op
    case Rotate(hash, ttl, draw, fault) =>
      && FreshDraw(s.drawn, draw)
      && exists found :: FindsRow(s.tokens, hash, found) && r == AuthModel.Rotate(s, found, now, ttl, draw, fault).0
    case Revoke(hash) => exists found :: FindsRow(s.tokens, hash, found) && r == AuthModel.Revoke(s, found, now)
    case Authenticate(user, subject, fault) =>
      FindsUser(s.users, subject, user) && r == AuthModel.Authenticate(s, user, subject, fault).0
    case IssueForUser(user, ttl, draw, fails) =>
      && user in s.authenticated && FreshDraw(s.drawn, draw)
      && r == AuthModel.IssueForUser(s, user, now, ttl, draw, fails)
    case DeleteExpired => r == s.(tokens := AuthModel.DeleteExpired(s.tokens, now))
    case UpdateUser(actor, user, isActive, blank, fault) => r == AuthModel.UpdateUser(s, actor, user, isActive, blank, now, fault).0
    case DeactivateUser(actor, user, fault) => r == AuthModel.DeactivateUser(s, actor, user, now, fault).0
    case SetUserRoles(actor, user, roles, fault) => r == AuthModel.SetUserRoles(s, actor, user, roles, fault).0
    case RemoveUserRole(actor, user, role, fault) => r == AuthModel.RemoveUserRole(s, actor, user, role, fault).0
    case RevokeUserSessions(user, fault) => r == AuthModel.RevokeUserSessions(s, user, now, fault).0
    case CreateUser(user, subject, roles, fault) => r == AuthModel.CreateUser(s, user, subject, roles, fault).0
  }

  /** Every call can be made at any time, given fresh random numbers where it draws some. */
  lemma EveryCallRuns(s: State, op: Op, now: int) returns (r: State)
    requires op.Rotate? || op.IssueForUser? ==> FreshDraw(s.drawn, op.draw)
    requires op.IssueForUser? ==> op.user in s.authenticated
    requires op.Authenticate? ==> FindsUser(s.users, op.subject, op.user)
    ensures Next(s, op, now, r)
  {
    match op
    case Rotate(hash, ttl, draw, fault) =>
      var found := RowOf(s.tokens, hash);
      r := AuthModel.Rotate(s, found, now, ttl, draw, fault).0;
    case Revoke(hash) =>
      var found := RowOf(s.tokens, hash);
      r := AuthModel.Revoke(s, found, now);
    case Authenticate(user, subject, fault) => r := AuthModel.Authenticate(s, user, subject, fault).0;
    case IssueForUser(user, ttl, draw, fails) => r := AuthModel.IssueForUser(s, user, now, ttl, draw, fails);
    case DeleteExpired => r := s.(tokens := AuthModel.DeleteExpired(s.tokens, now));
    case UpdateUser(actor, user, isActive, blank, fault) => r := AuthModel.UpdateUser(s, actor, user, isActive, blank, now, fault).0;
    case DeactivateUser(actor, user, fault) => r := AuthModel.DeactivateUser(s, actor, user, now, fault).0;
    case SetUserRoles(actor, user, roles, fault) => r := AuthModel.SetUserRoles(s, actor, user, roles, fault).0;
    case RemoveUserRole(actor, user, role, fault) => r := AuthModel.RemoveUserRole(s, actor, user, role, fault).0;
    case RevokeUserSessions(user, fault) => r := AuthModel.RevokeUserSessions(s, user, now, fault).0;
    case CreateUser(user, subject, roles, fault) => r := AuthModel.CreateUser(s, user, subject, roles, fault).0;
  }

  lemma RowOf(tokens: Tokens, hash: Option<Hash>) returns (found: Option<RecordId>)
    ensures FindsRow(tokens, hash, found)
  {
    found := None;
    if hash.Some? && exists i :: i in tokens && tokens[i].hash == hash.value {
      var i :| i in tokens && tokens[i].hash == hash.value;
      found := Some(i);
    }
  }

  ghost predicate IsRun(states: seq<State>, ops: seq<Op>, times: seq<int>) {
    && |states| == |ops| + 1 && |times| == |ops|
    && states[0].tokens == map[] && states[0].authenticated == multiset{}
    && forall i :: 0 <= i < |ops| ==> Next(states[i], ops[i], times[i], states[i + 1])
  }

  lemma RunStep(states: seq<State>, ops: seq<Op>, times: seq<int>, i: nat)
    requires IsRun(states, ops, times) && i < |ops|
    ensures |states| == |ops| + 1 && |times| == |ops| && Next(states[i], ops[i], times[i], states[i + 1])
  {
  }

  lemma RunLengths(states: seq<State>, ops: seq<Op>, times: seq<int>)
    requires IsRun(states, ops, times)
    ensures |states| == |ops| + 1 && |times| == |ops|
  {
  }

  // ---- each change of the table keeps the invariant ---------------------------------------------------------

  /** The rows are the same ones, perhaps used or revoked since. */
  ghost predicate Ages(tokens: Tokens, later: Tokens) {
    && later.Keys == tokens.Keys
    && forall i :: i in tokens ==>
         later[i] == tokens[i].(usedAt := later[i].usedAt, revokedAt := later[i].revokedAt)
         && (tokens[i].usedAt.Some? ==> later[i].usedAt.Some?)
  }

  /** Ageing keeps all but the uniformity of families. */
  lemma AgesKeeps(s: State, later: Tokens)
    requires Families(s) && Ages(s.tokens, later) && FamilyUniform(later)
    ensures Families(s.(tokens := later))
  {
  }

  lemma MarkKeeps(s: State, id: RecordId, now: int)
    requires Families(s) && id in s.tokens
    ensures Families(s.(tokens := MarkUsed(s.tokens, id, now)))
  {
    hide AllDrawn, HashesUnique, ParentsUsed, OneChildEach;
    AgesKeeps(s, MarkUsed(s.tokens, id, now));
  }

  /** Revoking by family, or by user, touches whole families. */
  lemma RevokeFamilyKeeps(s: State, family: Family, now: int)
    requires Families(s)
    ensures Families(s.(tokens := RevokeFamily(s.tokens, family, now)))
  {
    hide AllDrawn, HashesUnique, ParentsUsed, OneChildEach;
    AgesKeeps(s, RevokeFamily(s.tokens, family, now));
  }

  lemma RevokeUserKeeps(s: State, user: UserId, now: int)
    requires Families(s)
    ensures Families(s.(tokens := RevokeAllForUser(s.tokens, user, now)))
  {
    hide AllDrawn, HashesUnique, ParentsUsed, OneChildEach;
    AgesKeeps(s, RevokeAllForUser(s.tokens, user, now));
  }

  lemma ExpireKeeps(s: State, now: int)
    requires Families(s)
    ensures Families(s.(tokens := AuthModel.DeleteExpired(s.tokens, now)))
  {
    hide HashesUnique, FamilyUniform, ParentsUsed, OneChildEach;
    ExpireKeepsFamilies(s.tokens, now);
    ExpireKeepsParents(s.tokens, now);
  }

  lemma ExpireKeepsFamilies(tokens: Tokens, now: int)
    ensures FamilyUniform(tokens) ==> FamilyUniform(AuthModel.DeleteExpired(tokens, now))
    ensures HashesUnique(tokens) ==> HashesUnique(AuthModel.DeleteExpired(tokens, now))
  {
  }

  lemma ExpireKeepsParents(tokens: Tokens, now: int)
    ensures ParentsUsed(tokens) ==> ParentsUsed(AuthModel.DeleteExpired(tokens, now))
    ensures OneChildEach(tokens) ==> OneChildEach(AuthModel.DeleteExpired(tokens, now))
  {
  }

  /** A new row whose family, if not new, is the one its parent was the unused record of. */
  lemma InsertKeeps(s: State, id: RecordId, r: Record)
    requires Families(s) && id !in s.drawn.ids && r.hash !in s.drawn.hashes
    requires forall i :: i in s.tokens && s.tokens[i].family == r.family ==>
      s.tokens[i].user == r.user && s.tokens[i].revokedAt == r.revokedAt && s.tokens[i].usedAt.Some?
    requires r.parent.Some? ==>
      r.parent.value in s.tokens && s.tokens[r.parent.value].usedAt.Some? && s.tokens[r.parent.value].family == r.family
    requires r.parent.Some? ==> forall i :: i in s.tokens ==> s.tokens[i].parent != r.parent
    ensures Families(WithRecord(s, id, r))
  {
    assert id !in s.tokens && forall i :: i in s.tokens ==> s.tokens[i].hash != r.hash;
    hide HashesUnique, FamilyUniform, ParentsUsed, OneChildEach;
    InsertKeepsUniform(s.tokens, id, r);
    InsertKeepsParents(s.tokens, id, r);
  }

  lemma InsertKeepsUniform(tokens: Tokens, id: RecordId, r: Record)
    requires HashesUnique(tokens) && FamilyUniform(tokens) && id !in tokens && forall i :: i in tokens ==> tokens[i].hash != r.hash
    requires forall i :: i in tokens && tokens[i].family == r.family ==>
      tokens[i].user == r.user && tokens[i].revokedAt == r.revokedAt && tokens[i].usedAt.Some?
    ensures HashesUnique(tokens[id := r]) && FamilyUniform(tokens[id := r])
  {
  }

  lemma InsertKeepsParents(tokens: Tokens, id: RecordId, r: Record)
    requires ParentsUsed(tokens) && OneChildEach(tokens) && id !in tokens
    requires r.parent.Some? ==>
      r.parent.value in tokens && tokens[r.parent.value].usedAt.Some? && tokens[r.parent.value].family == r.family
    requires r.parent.Some? ==> forall i :: i in tokens ==> tokens[i].parent != r.parent
    ensures ParentsUsed(tokens[id := r]) && OneChildEach(tokens[id := r])
  {
  }

  lemma IssueKeeps(s: State, user: UserId, now: int, ttl: int, draw: Draw)
    requires Families(s) && FreshDraw(s.drawn, draw)
    ensures Families(Issue(s, user, now, ttl, draw))
  {
    InsertKeeps(s, draw.id, Record(user, draw.family, draw.hash, None, now, now + ttl, None, None));
  }

  /** The child of a record that was neither used nor revoked becomes its family's one unused record. */
  lemma ChildKeeps(s: State, id: RecordId, now: int, ttl: int, draw: Draw)
    requires Families(s) && FreshDraw(s.drawn, draw)
    requires id in s.tokens && s.tokens[id].usedAt.None? && s.tokens[id].revokedAt.None?
    ensures var r := s.tokens[id];
      Families(WithRecord(s.(tokens := MarkUsed(s.tokens, id, now)), draw.id,
                          Record(r.user, r.family, draw.hash, Some(id), now, now + ttl, None, None)))
  {
    var r, marked := s.tokens[id], s.(tokens := MarkUsed(s.tokens, id, now));
    MarkKeeps(s, id, now);
    assert forall i :: i in s.tokens && s.tokens[i].family == r.family && i != id ==> s.tokens[i].usedAt.Some? by {
      hide HashesUnique, ParentsUsed, OneChildEach, AllDrawn;
    }
    assert forall i :: i in s.tokens ==> s.tokens[i].parent != Some(id) by {
      hide HashesUnique, FamilyUniform, OneChildEach, AllDrawn;
    }
    hide HashesUnique, ParentsUsed, OneChildEach, AllDrawn;
    InsertKeeps(marked, draw.id, Record(r.user, r.family, draw.hash, Some(id), now, now + ttl, None, None));
  }

  lemma RotateKeeps(s: State, found: Option<RecordId>, now: int, ttl: int, draw: Draw, fault: RotateFault)
    requires Families(s) && FreshDraw(s.drawn, draw)
    ensures Families(AuthModel.Rotate(s, found, now, ttl, draw, fault).0)
  {
    hide Families;
    if found.Some? && found.value in s.tokens {
      var id := found.value;
      var r := s.tokens[id];
      MarkKeeps(s, id, now);
      RevokeFamilyKeeps(s, r.family, now);
      RevokeFamilyKeeps(s.(tokens := MarkUsed(s.tokens, id, now)), r.family, now);
      if r.usedAt.None? && r.revokedAt.None? {
        ChildKeeps(s, id, now, ttl, draw);
      }
    }
  }

  lemma SameTokensKeep(s: State, r: State)
    requires Families(s) && r.tokens == s.tokens && r.drawn == s.drawn
    ensures Families(r)
  {
  }

  lemma AdminTokens(s: State, op: Op, now: int, r: State)
    requires Next(s, op, now, r) && !op.Rotate? && !op.Revoke? && !op.IssueForUser? && !op.DeleteExpired?
    ensures r.drawn == s.drawn && (r.tokens == s.tokens || r.tokens == RevokeAllForUser(s.tokens, op.user, now))
  {
  }

  lemma NextKeepsFamilies(s: State, op: Op, now: int, r: State)
    requires Families(s) && Next(s, op, now, r)
    ensures Families(r)
  {
    match op
    case Rotate(hash, ttl, draw, fault) =>
      var found :| FindsRow(s.tokens, hash, found) && r == AuthModel.Rotate(s, found, now, ttl, draw, fault).0;
      RotateKeeps(s, found, now, ttl, draw, fault);
    case Revoke(hash) =>
      var found :| FindsRow(s.tokens, hash, found) && r == AuthModel.Revoke(s, found, now);
      if found.Some? && found.value in s.tokens {
        RevokeFamilyKeeps(s, s.tokens[found.value].family, now);
      }
    case IssueForUser(user, ttl, draw, _) =>
      var served := s.(authenticated := s.authenticated - multiset{user});
      SameTokensKeep(s, served);
      IssueKeeps(served, user, now, ttl, draw);
    case DeleteExpired => ExpireKeeps(s, now);
    case Authenticate(_, _, _) => SameTokensKeep(s, r);
    case _ =>
      AdminTokens(s, op, now, r);
      RevokeUserKeeps(s, op.user, now);
      SameTokensKeep(if r.tokens == s.tokens then s else s.(tokens := r.tokens), r);
  }

  /** Over every run, whatever fails after a token is marked: each family has one user, one revocation instant, at most one unused
    * record and at most one child of each record. */
  lemma {:induction false} RunsKeepFamilies(states: seq<State>, ops: seq<Op>, times: seq<int>, i: nat)
    requires IsRun(states, ops, times) && i < |states|
    ensures Families(states[i])
  {
    hide Families, Next;
    if i == 0 {
      EmptyFamilies(states[0]);
    } else {
      RunsKeepFamilies(states, ops, times, i - 1);
      RunStep(states, ops, times, i - 1);
      NextKeepsFamilies(states[i - 1], ops[i - 1], times[i - 1], states[i]);
    }
  }

  lemma EmptyFamilies(s: State)
    requires s.tokens == map[]
    ensures Families(s)
  {
  }

  // ---- when a rotation succeeds ----------------------------------------------------------------------------

  /** The result of presenting a token. */
  ghost predicate Results(s: State, op: Op, now: int, r: State, result: RotateResult)
    requires op.Rotate?
  {
    exists found :: FindsRow(s.tokens, op.hash, found) && AuthModel.Rotate(s, found, now, op.ttl, op.draw, op.fault) == (r, result)
  }

  /** A rotation succeeds exactly for a stored, unrevoked, unexpired, unused token of an active user, when nothing that it calls fails. */
  lemma RotatesIff(s: State, op: Op, now: int, r: State, result: RotateResult, id: RecordId)
    requires Families(s) && op.Rotate? && op.hash.Some? && Results(s, op, now, r, result)
    requires id in s.tokens && s.tokens[id].hash == op.hash.value
    ensures result == Rotated <==>
      var t := s.tokens[id];
      && t.revokedAt.None? && now < t.expiresAt && t.usedAt.None?
      && t.user in s.users && s.users[t.user].active
      && op.fault in {NoFault, RevokeFails}
  {
  }

  /** A good token of an inactive user is marked, its family is revoked, and the answer says that the user is disabled, unless one of the
    * calls up to there fails: then what came before it stays. */
  lemma DisabledAnswers(s: State, id: RecordId, now: int, ttl: int, draw: Draw, fault: RotateFault)
    requires id in s.tokens && s.tokens[id].usedAt.None? && s.tokens[id].revokedAt.None? && now < s.tokens[id].expiresAt
    requires s.tokens[id].user in s.users && !s.users[s.tokens[id].user].active
    ensures var (r, result) := AuthModel.Rotate(s, Some(id), now, ttl, draw, fault);
      var marked := s.tokens[id := s.tokens[id].(usedAt := Some(now))];
      && (result == UserDisabled <==> fault !in {FindFails, MarkFails, LookupFails, RevokeFails})
      && (result != UserDisabled ==> result == RotateFailed)
      && r.tokens == (if fault in {FindFails, MarkFails} then s.tokens
                      else if fault in {LookupFails, RevokeFails} then marked
                      else map i | i in marked :: if marked[i].family == s.tokens[id].family && marked[i].revokedAt.None?
                                                  then marked[i].(revokedAt := Some(now)) else marked[i])
  {
  }

  /** A call that is made and fails is reported, and any other answer is the one without a failure, with the state that goes with it. */
  lemma OtherAnswersAreClean(s: State, found: Option<RecordId>, now: int, ttl: int, draw: Draw, fault: RotateFault)
    ensures var (r, result) := AuthModel.Rotate(s, found, now, ttl, draw, fault);
      result != RotateFailed ==> (r, result) == AuthModel.Rotate(s, found, now, ttl, draw, NoFault)
    ensures fault == FindFails ==> AuthModel.Rotate(s, found, now, ttl, draw, fault) == (s, RotateFailed)
  {
  }

  /** The call can revoke tokens of the family, whose user that is. */
  ghost predicate MayRevoke(s: State, op: Op, user: UserId, family: Family) {
    match op
    case Rotate(hash, _, _, _) => hash.Some? && exists j :: j in s.tokens && s.tokens[j].hash == hash.value && s.tokens[j].family == family
    case Revoke(hash) => hash.Some? && exists j :: j in s.tokens && s.tokens[j].hash == hash.value && s.tokens[j].family == family
    case UpdateUser(_, id, _, _, _) => id == user
    case DeactivateUser(_, id, _) => id == user
    case RevokeUserSessions(id, _) => id == user
    case _ => false
  }

  /** Nobody else's sessions end: a token is revoked only by presenting one of its family, or by an admin call on its user, and then now. */
  lemma RevokesOwnOnly(s: State, op: Op, now: int, r: State, i: RecordId)
    requires Next(s, op, now, r) && AllDrawn(s) && i in s.tokens && i in r.tokens && r.tokens[i].revokedAt != s.tokens[i].revokedAt
    ensures s.tokens[i].revokedAt.None? && r.tokens[i].revokedAt == Some(now) && MayRevoke(s, op, s.tokens[i].user, s.tokens[i].family)
  {
    hide AuthModel.UpdateUser, AuthModel.DeactivateUser, AuthModel.RevokeUserSessions, AuthModel.Rotate, AuthModel.SetUserRoles, AllDrawn;
    match op
    case UpdateUser(actor, id, isActive, blank, fault) => AdminRevokesOwn(s, actor, id, isActive, blank, now, fault, i);
    case DeactivateUser(actor, id, fault) => AdminRevokesOwn(s, actor, id, Some(false), false, now, fault, i);
    case RevokeUserSessions(id, fault) => AdminRevokesOwn(s, "", id, None, false, now, fault, i);
    case Rotate(hash, ttl, draw, fault) =>
      var found :| FindsRow(s.tokens, hash, found) && r == AuthModel.Rotate(s, found, now, ttl, draw, fault).0;
      RotationRevokesOwn(s, found, now, ttl, draw, fault, i);
    case IssueForUser(user, ttl, draw, fails) => DrawnIsAnother(s, draw, i);
    case _ => OthersRevokeNothing(s, op, now, r, i);
  }

  /** The token is as before, or its user is the given one and it is revoked by now. */
  predicate OwnRevoked(s: State, r: State, id: UserId, now: int, i: RecordId)
    requires i in s.tokens
  {
    i in r.tokens && (r.tokens[i] == s.tokens[i] || (s.tokens[i].user == id && r.tokens[i] == RevokedNow(s.tokens[i], now)))
  }

  lemma AdminRevokesOwn(
    s: State, actor: string, id: UserId, isActive: Option<bool>, blank: bool, now: int, fault: AdminFault, i: RecordId)
    requires i in s.tokens
    ensures OwnRevoked(s, AuthModel.UpdateUser(s, actor, id, isActive, blank, now, fault).0, id, now, i)
    ensures OwnRevoked(s, AuthModel.DeactivateUser(s, actor, id, now, fault).0, id, now, i)
    ensures OwnRevoked(s, AuthModel.RevokeUserSessions(s, id, now, fault).0, id, now, i)
  {
    hide Refusal;
  }

  lemma RotationRevokesOwn(s: State, found: Option<RecordId>, now: int, ttl: int, draw: Draw, fault: RotateFault, i: RecordId)
    requires AllDrawn(s) && FreshDraw(s.drawn, draw) && i in s.tokens
    ensures var r := AuthModel.Rotate(s, found, now, ttl, draw, fault).0;
      && i in r.tokens
      && (r.tokens[i].revokedAt != s.tokens[i].revokedAt ==>
            s.tokens[i].revokedAt.None? && r.tokens[i].revokedAt == Some(now)
            && found.Some? && found.value in s.tokens && s.tokens[found.value].family == s.tokens[i].family)
  {
  }

  lemma DrawnIsAnother(s: State, draw: Draw, i: RecordId)
    requires AllDrawn(s) && FreshDraw(s.drawn, draw) && i in s.tokens
    ensures i != draw.id
  {
  }

  lemma OthersRevokeNothing(s: State, op: Op, now: int, r: State, i: RecordId)
    requires Next(s, op, now, r) && i in s.tokens && i in r.tokens && r.tokens[i].revokedAt != s.tokens[i].revokedAt
    requires op.Revoke? || op.Authenticate? || op.DeleteExpired? || op.SetUserRoles? || op.RemoveUserRole? || op.CreateUser?
    ensures s.tokens[i].revokedAt.None? && r.tokens[i].revokedAt == Some(now) && MayRevoke(s, op, s.tokens[i].user, s.tokens[i].family)
  {
    hide ActiveAdmins;
  }

  /** A sweep removes exactly the rows that are past their expiry. */
  lemma SweepRemovesExpired(s: State, now: int, r: State)
    requires Next(s, DeleteExpired, now, r)
    ensures forall i :: i in r.tokens <==> i in s.tokens && s.tokens[i].expiresAt >= now
    ensures forall i :: i in r.tokens ==> r.tokens[i] == s.tokens[i].(parent := r.tokens[i].parent)
    ensures forall i :: i in r.tokens ==>
      r.tokens[i].parent
      == if s.tokens[i].parent.Some? && s.tokens[i].parent.value in s.tokens.Keys - r.tokens.Keys then None else s.tokens[i].parent
    ensures r.users == s.users && r.drawn == s.drawn && r.authenticated == s.authenticated
  {
  }

  lemma FoundBy(s: State, op: Op, now: int, r: State, result: RotateResult) returns (found: Option<RecordId>)
    requires op.Rotate? && Results(s, op, now, r, result)
    ensures FindsRow(s.tokens, op.hash, found) && AuthModel.Rotate(s, found, now, op.ttl, op.draw, op.fault) == (r, result)
  {
    found :| FindsRow(s.tokens, op.hash, found) && AuthModel.Rotate(s, found, now, op.ttl, op.draw, op.fault) == (r, result);
  }

  lemma InvalidWithoutRow(s: State, found: Option<RecordId>, now: int, ttl: int, draw: Draw, fault: RotateFault)
    requires found.Some? ==> found.value !in s.tokens || s.tokens[found.value].expiresAt <= now
    ensures AuthModel.Rotate(s, found, now, ttl, draw, fault).1 == if fault == FindFails then RotateFailed else InvalidRefresh
  {
  }

  /** A rotation's answer depends on the row that it finds, but for its parent, and on the users. */
  lemma SameRowSameAnswer(s: State, r: State, i: RecordId, now: int, ttl: int, draw: Draw, fault: RotateFault)
    requires i in s.tokens && i in r.tokens && r.tokens[i] == s.tokens[i].(parent := r.tokens[i].parent) && r.users == s.users
    ensures AuthModel.Rotate(r, Some(i), now, ttl, draw, fault).1 == AuthModel.Rotate(s, Some(i), now, ttl, draw, fault).1
  {
  }

  /** Nobody notices: a rotation at or after the sweep is answered as it would have been without it. */
  lemma SweepIsInvisible(s: State, now: int, r: State, op: Op, later: int, result: RotateResult, swept: RotateResult, a: State, b: State)
    requires Families(s) && Next(s, DeleteExpired, now, r) && now <= later && op.Rotate?
    requires Results(s, op, later, a, result) && Results(r, op, later, b, swept)
    ensures result == swept
  {
    SweepRemovesExpired(s, now, r);
    hide AuthModel.Rotate, AuthModel.DeleteExpired, Next, Results, ParentsUsed, OneChildEach, FamilyUniform, AllDrawn;
    var x := FoundBy(s, op, later, a, result);
    var y := FoundBy(r, op, later, b, swept);
    if op.hash.Some? && x.Some? && s.tokens[x.value].expiresAt >= now {
      SameHashSameRow(s, r, x.value, y, op.hash.value);
      SameRowSameAnswer(s, r, x.value, later, op.ttl, op.draw, op.fault);
    } else {
      SweptIsNotFound(s, r, now, x, y, op.hash);
      InvalidWithoutRow(s, x, later, op.ttl, op.draw, op.fault);
      InvalidWithoutRow(r, y, later, op.ttl, op.draw, op.fault);
    }
  }

  lemma SameHashSameRow(s: State, r: State, i: RecordId, y: Option<RecordId>, hash: Hash)
    requires HashesUnique(s.tokens) && i in s.tokens && s.tokens[i].hash == hash && i in r.tokens && r.tokens[i].hash == hash
    requires Finds(r.tokens, hash, y) && forall k :: k in r.tokens ==> k in s.tokens && r.tokens[k].hash == s.tokens[k].hash
    ensures y == Some(i)
  {
  }

  lemma SweptIsNotFound(s: State, r: State, now: int, x: Option<RecordId>, y: Option<RecordId>, hash: Option<Hash>)
    requires HashesUnique(s.tokens)
    requires forall i :: i in r.tokens <==> i in s.tokens && s.tokens[i].expiresAt >= now
    requires forall i :: i in r.tokens ==> r.tokens[i].hash == s.tokens[i].hash
    requires FindsRow(s.tokens, hash, x) && FindsRow(r.tokens, hash, y)
    requires hash.None? || x.None? || s.tokens[x.value].expiresAt < now
    ensures y.None?
  {
  }

  /** The token was used: wherever it still stands, it stands as used. */
  ghost predicate Spent(s: State, hash: Hash) {
    hash in s.drawn.hashes && forall i :: i in s.tokens && s.tokens[i].hash == hash ==> s.tokens[i].usedAt.Some?
  }

  /** The family is over: drawn once, and nothing of it is left unrevoked. */
  ghost predicate Dead(s: State, family: Family) {
    family in s.drawn.families && forall i :: i in s.tokens && s.tokens[i].family == family ==> s.tokens[i].revokedAt.Some?
  }

  lemma NextKeepsSpent(s: State, op: Op, now: int, r: State, hash: Hash)
    requires Spent(s, hash) && Next(s, op, now, r)
    ensures Spent(r, hash)
  {
    if !op.Rotate? && !op.Revoke? && !op.IssueForUser? && !op.DeleteExpired? {
      AdminTokens(s, op, now, r);
    }
  }

  lemma NextKeepsDead(s: State, op: Op, now: int, r: State, family: Family)
    requires Dead(s, family) && Next(s, op, now, r)
    ensures Dead(r, family)
  {
    if !op.Rotate? && !op.Revoke? && !op.IssueForUser? && !op.DeleteExpired? {
      AdminTokens(s, op, now, r);
    }
  }

  lemma {:induction false} RunsKeepSpent(states: seq<State>, ops: seq<Op>, times: seq<int>, i: nat, j: nat, hash: Hash)
    requires IsRun(states, ops, times) && i <= j < |states| && Spent(states[i], hash)
    ensures Spent(states[j], hash)
    decreases j
  {
    hide *;
    RunLengths(states, ops, times);
    if i < j {
      RunsKeepSpent(states, ops, times, i, j - 1, hash);
      RunStep(states, ops, times, j - 1);
      NextKeepsSpent(states[j - 1], ops[j - 1], times[j - 1], states[j], hash);
    }
  }

  lemma {:induction false} RunsKeepDead(states: seq<State>, ops: seq<Op>, times: seq<int>, i: nat, j: nat, family: Family)
    requires IsRun(states, ops, times) && i <= j < |states| && Dead(states[i], family)
    ensures Dead(states[j], family)
    decreases j
  {
    hide *;
    RunLengths(states, ops, times);
    if i < j {
      RunsKeepDead(states, ops, times, i, j - 1, family);
      RunStep(states, ops, times, j - 1);
      NextKeepsDead(states[j - 1], ops[j - 1], times[j - 1], states[j], family);
    }
  }

  lemma RotatedIsSpent(s: State, id: RecordId, now: int, ttl: int, draw: Draw, fault: RotateFault)
    requires Families(s) && FreshDraw(s.drawn, draw) && id in s.tokens
    requires AuthModel.Rotate(s, Some(id), now, ttl, draw, fault).1 == Rotated
    ensures Spent(AuthModel.Rotate(s, Some(id), now, ttl, draw, fault).0, s.tokens[id].hash)
  {
  }

  /** Each refresh token is exchanged at most once in any run of whole calls. */
  lemma RotatesAtMostOnce(states: seq<State>, ops: seq<Op>, times: seq<int>, i: nat, j: nat)
    requires IsRun(states, ops, times) && i < j < |ops|
    requires ops[i].Rotate? && ops[j].Rotate? && ops[i].hash == ops[j].hash
    requires Results(states[i], ops[i], times[i], states[i + 1], Rotated)
    ensures !Results(states[j], ops[j], times[j], states[j + 1], Rotated)
  {
    RunsKeepFamilies(states, ops, times, i);
    RunStep(states, ops, times, i);
    var hash := ops[i].hash;
    var found :| FindsRow(states[i].tokens, hash, found)
                 && AuthModel.Rotate(states[i], found, times[i], ops[i].ttl, ops[i].draw, ops[i].fault) == (states[i + 1], Rotated);
    RotatedIsSpent(states[i], found.value, times[i], ops[i].ttl, ops[i].draw, ops[i].fault);
    RunsKeepSpent(states, ops, times, i + 1, j, hash.value);
  }

  /** Once reuse of a token is detected, no token of its family is ever exchanged again. */
  lemma ReuseEndsFamily(states: seq<State>, ops: seq<Op>, times: seq<int>, i: nat, j: nat, a: RecordId, b: RecordId)
    requires IsRun(states, ops, times) && i < j < |ops|
    requires ops[i].Rotate? && Results(states[i], ops[i], times[i], states[i + 1], RefreshReused)
    requires a in states[i].tokens && ops[i].hash == Some(states[i].tokens[a].hash)
    requires b in states[j].tokens && ops[j].Rotate? && ops[j].hash == Some(states[j].tokens[b].hash)
    requires states[j].tokens[b].family == states[i].tokens[a].family
    ensures !Results(states[j], ops[j], times[j], states[j + 1], Rotated)
  {
    var family := states[i].tokens[a].family;
    RunsKeepFamilies(states, ops, times, i);
    RunsKeepFamilies(states, ops, times, j);
    assert Dead(states[i + 1], family);
    RunsKeepDead(states, ops, times, i + 1, j, family);
  }

  /** A used token that is neither expired nor revoked, presented again, is reported as reuse exactly when revocation and lookup succeed. */
  lemma ReuseIsDetectedIff(s: State, op: Op, now: int, r: State, result: RotateResult, id: RecordId)
    requires Families(s) && op.Rotate? && op.hash.Some? && Results(s, op, now, r, result)
    requires id in s.tokens && s.tokens[id].hash == op.hash.value
    requires s.tokens[id].usedAt.Some? && s.tokens[id].revokedAt.None? && now < s.tokens[id].expiresAt
    ensures result == RefreshReused <==> op.fault !in {FindFails, RevokeFails, LookupFails}
    ensures Dead(r, s.tokens[id].family) <==> op.fault !in {FindFails, RevokeFails}
  {
  }
}
