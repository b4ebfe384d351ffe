/** Rotations taken apart into their repository calls, between which any other call may come. */
module RotationRaces {
  import opened Common
  import opened Uuids
  import opened AuthModel
  import opened RefreshFamilies
  import opened AdminSafety

  type CallId = nat

  /** A rotation on its way, with the record as it was read: about to revoke a family whose token was used before, past the guards and
    * about to mark, about to load the user, about to revoke an inactive user's family, about to insert the child. */
  datatype Call =
    | Reused(record: Record, now: int)
    | Passed(id: RecordId, record: Record, now: int)
    | Marked(id: RecordId, record: Record, now: int)
    | Disabled(record: Record, now: int)
    | Loaded(id: RecordId, record: Record, now: int)

  /** `exchanges` lists the tokens that were exchanged, in order. */
  datatype World = World(s: State, calls: map<CallId, Call>, exchanges: seq<RecordId>)

  datatype Step =
    | Find(c: CallId, hash: Hash, now: int)
    | Mark(c: CallId)
    | Load(c: CallId)
    | Create(c: CallId, ttl: int, draw: Draw)
    | RevokeFamily(c: CallId)
    | Fail(c: CallId)
    | Whole(op: Op, now: int)

  /** What a rotation goes on with once its token's row is read. */
  function Judged(calls: map<CallId, Call>, c: CallId, id: RecordId, record: Record, now: int): map<CallId, Call> {
    if record.revokedAt.Some? || now >= record.expiresAt then calls
    else calls[c := if record.usedAt.Some? then Reused(record, now) else Passed(id, record, now)]
  }

  function Child(call: Call, ttl: int, draw: Draw): Record
    requires call.Loaded?
  {
    Record(call.record.user, call.record.family, draw.hash, Some(call.id), call.now, call.now + ttl, None, None)
  }

  ghost predicate Next(w: World, step: Step, r: World) {
    match step
    case Find(c, hash, now) =>
      && c !in w.calls
      && exists found :: Finds(w.s.tokens, hash, found)
           && r == if found.None? then w else w.(calls := Judged(w.calls, c, found.value, w.s.tokens[found.value], now))
    case Mark(c) =>
      && c in w.calls && w.calls[c].Passed?
      && var call := w.calls[c];
         r == w.(s := w.s.(tokens := MarkUsed(w.s.tokens, call.id, call.now)),
                 calls := w.calls[c := Marked(call.id, call.record, call.now)])
    case Load(c) =>
      && c in w.calls && w.calls[c].Marked?
      && var call := w.calls[c];
         r == w.(calls :=
           if call.record.user !in w.s.users then w.calls - {c}
           else if w.s.users[call.record.user].active then w.calls[c := Loaded(call.id, call.record, call.now)]
           else w.calls[c := Disabled(call.record, call.now)])
    case Create(c, ttl, draw) =>
      && c in w.calls && w.calls[c].Loaded? && FreshDraw(w.s.drawn, draw)
      && r == if w.calls[c].id !in w.s.tokens then w.(calls := w.calls - {c})
              else World(WithRecord(w.s, draw.id, Child(w.calls[c], ttl, draw)), w.calls - {c}, w.exchanges + [w.calls[c].id])
    case RevokeFamily(c) =>
      && c in w.calls && (w.calls[c].Reused? || w.calls[c].Disabled?)
      && r == w.(s := w.s.(tokens := AuthModel.RevokeFamily(w.s.tokens, w.calls[c].record.family, w.calls[c].now)), calls := w.calls - {c})
    case Fail(c) => c in w.calls && r == w.(calls := w.calls - {c})
    case Whole(op, now) => !op.Rotate? && RefreshFamilies.Next(w.s, op, now, r.s) && r == w.(s := r.s)
  }

  ghost predicate IsRun(worlds: seq<World>, steps: seq<Step>) {
    && |worlds| == |steps| + 1
    && worlds[0].s.tokens == map[] && worlds[0].calls == map[] && worlds[0].exchanges == []
    && forall i :: 0 <= i < |steps| ==> Next(worlds[i], steps[i], worlds[i + 1])
  }

  lemma RunStep(worlds: seq<World>, steps: seq<Step>, i: nat)
    requires IsRun(worlds, steps) && i < |steps|
    ensures |worlds| == |steps| + 1 && Next(worlds[i], steps[i], worlds[i + 1])
  {
  }

  // ---- without interruption this is the whole call ------------------------------------------------------------

  /** The steps of the call lead from one world to the other. */
  ghost predicate Walk(c: CallId, worlds: seq<World>, steps: seq<Step>) {
    && |worlds| == |steps| + 1
    && forall i :: 0 <= i < |steps| ==> Next(worlds[i], steps[i], worlds[i + 1]) && !steps[i].Whole? && steps[i].c == c
  }

  /** The steps of a rotation, one right after the other, are the rotation of the coarser model: for every token and whatever fails. */
  lemma UninterruptedIsWhole(w: World, c: CallId, hash: Hash, found: Option<RecordId>, now: int, ttl: int, draw: Draw, fault: RotateFault)
    returns (worlds: seq<World>, steps: seq<Step>)
    requires c !in w.calls && Finds(w.s.tokens, hash, found) && FreshDraw(w.s.drawn, draw)
    ensures Walk(c, worlds, steps) && worlds[0] == w
    ensures var (s, result) := AuthModel.Rotate(w.s, found, now, ttl, draw, fault);
      worlds[|steps|] == World(s, w.calls, w.exchanges + if result == Rotated then [found.value] else [])
  {
    if fault == FindFails {
      worlds, steps := [w], [];
    } else if found.None? || !Judges(w.s.tokens[found.value], now) {
      worlds, steps := [w, w], [Find(c, hash, now)];
    } else if w.s.tokens[found.value].usedAt.Some? {
      worlds, steps := ReusedWalk(w, c, hash, found.value, now, fault);
    } else {
      worlds, steps := PassedWalk(w, c, hash, found.value, now, ttl, draw, fault);
    }
  }

  /** The row is neither revoked nor expired. */
  predicate Judges(record: Record, now: int) {
    record.revokedAt.None? && now < record.expiresAt
  }

  lemma Found(w: World, c: CallId, hash: Hash, id: RecordId, now: int) returns (r: World)
    requires c !in w.calls && id in w.s.tokens && Finds(w.s.tokens, hash, Some(id)) && Judges(w.s.tokens[id], now)
    ensures var record := w.s.tokens[id];
      r == w.(calls := w.calls[c := if record.usedAt.Some? then Reused(record, now) else Passed(id, record, now)])
    ensures Next(w, Find(c, hash, now), r) && r.calls - {c} == w.calls
  {
    var record := w.s.tokens[id];
    r := w.(calls := w.calls[c := if record.usedAt.Some? then Reused(record, now) else Passed(id, record, now)]);
    assert r.calls - {c} == w.calls;
  }

  lemma Revokes(w: World, c: CallId) returns (r: World)
    requires c in w.calls && (w.calls[c].Reused? || w.calls[c].Disabled?)
    ensures Next(w, RevokeFamily(c), r)
    ensures r == w.(s := w.s.(tokens := AuthModel.RevokeFamily(w.s.tokens, w.calls[c].record.family, w.calls[c].now)),
                    calls := w.calls - {c})
  {
    r := w.(s := w.s.(tokens := AuthModel.RevokeFamily(w.s.tokens, w.calls[c].record.family, w.calls[c].now)), calls := w.calls - {c});
  }

  lemma Fails(w: World, c: CallId) returns (r: World)
    requires c in w.calls
    ensures Next(w, Fail(c), r) && r == w.(calls := w.calls - {c})
  {
    r := w.(calls := w.calls - {c});
  }

  lemma WalkFrom(w: World, c: CallId, step: Step, worlds: seq<World>, steps: seq<Step>) returns (longer: seq<World>, all: seq<Step>)
    requires Walk(c, worlds, steps) && Next(w, step, worlds[0]) && !step.Whole? && step.c == c
    ensures Walk(c, longer, all) && longer[0] == w && longer[|all|] == worlds[|steps|]
  {
    hide Next;
    longer, all := [w] + worlds, [step] + steps;
    forall i | 0 <= i < |all|
      ensures Next(longer[i], all[i], longer[i + 1]) && !all[i].Whole? && all[i].c == c
    {
      if i > 0 {
        assert Next(worlds[i - 1], steps[i - 1], worlds[i - 1 + 1]);
      }
    }
  }

  lemma ReusedWalk(w: World, c: CallId, hash: Hash, id: RecordId, now: int, fault: RotateFault)
    returns (worlds: seq<World>, steps: seq<Step>)
    requires c !in w.calls && id in w.s.tokens && Finds(w.s.tokens, hash, Some(id)) && fault != FindFails
    requires Judges(w.s.tokens[id], now) && w.s.tokens[id].usedAt.Some?
    ensures Walk(c, worlds, steps) && worlds[0] == w
    ensures worlds[|steps|] == if fault == RevokeFails then w
      else w.(s := w.s.(tokens := AuthModel.RevokeFamily(w.s.tokens, w.s.tokens[id].family, now)))
  {
    hide Next;
    var w1 := Found(w, c, hash, id, now);
    if fault == RevokeFails {
      var r := Fails(w1, c);
      worlds, steps := [w, w1, r], [Find(c, hash, now), Fail(c)];
    } else {
      var r := Revokes(w1, c);
      worlds, steps := [w, w1, r], [Find(c, hash, now), Step.RevokeFamily(c)];
    }
  }

  lemma PassedWalk(w: World, c: CallId, hash: Hash, id: RecordId, now: int, ttl: int, draw: Draw, fault: RotateFault)
    returns (worlds: seq<World>, steps: seq<Step>)
    requires c !in w.calls && id in w.s.tokens && Finds(w.s.tokens, hash, Some(id)) && fault != FindFails && FreshDraw(w.s.drawn, draw)
    requires Judges(w.s.tokens[id], now) && w.s.tokens[id].usedAt.None?
    ensures Walk(c, worlds, steps) && worlds[0] == w
    ensures var (s, result) := AuthModel.Rotate(w.s, Some(id), now, ttl, draw, fault);
      worlds[|steps|] == World(s, w.calls, w.exchanges + if result == Rotated then [id] else [])
  {
    hide Next, Walk;
    var w1 := Found(w, c, hash, id, now);
    if fault == MarkFails {
      worlds, steps := FailedWalk(w1, c);
    } else {
      var w2 := Marks(w1, c);
      assert w2.calls - {c} == w.calls;
      worlds, steps := MarkedWalk(w2, c, ttl, draw, fault);
      worlds, steps := WalkFrom(w1, c, Mark(c), worlds, steps);
    }
    worlds, steps := WalkFrom(w, c, Find(c, hash, now), worlds, steps);
  }

  lemma FailedWalk(w: World, c: CallId) returns (worlds: seq<World>, steps: seq<Step>)
    requires c in w.calls
    ensures Walk(c, worlds, steps) && worlds[0] == w && worlds[|steps|] == w.(calls := w.calls - {c})
  {
    hide Next;
    var r := Fails(w, c);
    worlds, steps := [w, r], [Fail(c)];
  }

  /** What is left of a rotation once its token is marked. */
  function Finished(w: World, call: Call, ttl: int, draw: Draw, fault: RotateFault): (State, bool)
    requires call.Marked?
  {
    if fault == LookupFails || call.record.user !in w.s.users then (w.s, false)
    else if w.s.users[call.record.user].active then
      if fault == IssueFails || fault == CreateFails then (w.s, false)
      else (WithRecord(w.s, draw.id, Child(Loaded(call.id, call.record, call.now), ttl, draw)), true)
    else if fault == RevokeFails then (w.s, false)
    else (w.s.(tokens := AuthModel.RevokeFamily(w.s.tokens, call.record.family, call.now)), false)
  }

  lemma MarkedWalk(w: World, c: CallId, ttl: int, draw: Draw, fault: RotateFault) returns (worlds: seq<World>, steps: seq<Step>)
    requires c in w.calls && w.calls[c].Marked? && w.calls[c].id in w.s.tokens && FreshDraw(w.s.drawn, draw)
    ensures Walk(c, worlds, steps) && worlds[0] == w
    ensures var (s, exchanged) := Finished(w, w.calls[c], ttl, draw, fault);
      worlds[|steps|] == World(s, w.calls - {c}, w.exchanges + if exchanged then [w.calls[c].id] else [])
  {
    hide Next, AuthModel.RevokeFamily, WithRecord, Child;
    if fault == LookupFails {
      worlds, steps := FailedWalk(w, c);
    } else {
      var w1 := Looks(w, c);
      var r, last := Ends(w1, c, ttl, draw, fault);
      if last == [] {
        worlds, steps := [w, w1], [Load(c)];
      } else {
        worlds, steps := [w, w1, r], [Load(c), last[0]];
      }
    }
  }

  lemma Looks(w: World, c: CallId) returns (r: World)
    requires c in w.calls && w.calls[c].Marked?
    ensures Next(w, Load(c), r)
    ensures var call := w.calls[c];
      r == w.(calls :=
        if call.record.user !in w.s.users then w.calls - {c}
        else if w.s.users[call.record.user].active then w.calls[c := Loaded(call.id, call.record, call.now)]
        else w.calls[c := Disabled(call.record, call.now)])
    ensures r.calls - {c} == w.calls - {c}
  {
    var call := w.calls[c];
    r := w.(calls :=
      if call.record.user !in w.s.users then w.calls - {c}
      else if w.s.users[call.record.user].active then w.calls[c := Loaded(call.id, call.record, call.now)]
      else w.calls[c := Disabled(call.record, call.now)]);
    assert r.calls - {c} == w.calls - {c};
  }

  /** The last step of a rotation that has looked its user up, if there is one. */
  lemma Ends(w: World, c: CallId, ttl: int, draw: Draw, fault: RotateFault) returns (r: World, last: seq<Step>)
    requires c in w.calls ==> w.calls[c].Disabled? || (w.calls[c].Loaded? && w.calls[c].id in w.s.tokens && FreshDraw(w.s.drawn, draw))
    ensures |last| <= 1 && (last == [] ==> r == w && c !in w.calls)
    ensures last != [] ==> c in w.calls && Next(w, last[0], r) && !last[0].Whole? && last[0].c == c
    ensures r.calls == w.calls - {c}
    ensures c in w.calls && w.calls[c].Disabled? ==>
      r == w.(calls := r.calls, s := if fault == RevokeFails then w.s
              else w.s.(tokens := AuthModel.RevokeFamily(w.s.tokens, w.calls[c].record.family, w.calls[c].now)))
    ensures c in w.calls && w.calls[c].Loaded? ==>
      r == if fault == IssueFails || fault == CreateFails then w.(calls := r.calls)
           else World(WithRecord(w.s, draw.id, Child(w.calls[c], ttl, draw)), r.calls, w.exchanges + [w.calls[c].id])
  {
    hide Next;
    if c !in w.calls {
      r, last := w, [];
      assert w.calls - {c} == w.calls;
    } else if (w.calls[c].Disabled? && fault == RevokeFails) || (w.calls[c].Loaded? && (fault == IssueFails || fault == CreateFails)) {
      last := [Fail(c)];
      r := Fails(w, c);
    } else if w.calls[c].Disabled? {
      last := [Step.RevokeFamily(c)];
      r := Revokes(w, c);
    } else {
      last := [Create(c, ttl, draw)];
      r := Creates(w, c, ttl, draw);
    }
  }

  lemma FindPasses(w: World, c: CallId, id: RecordId, now: int)
    requires c !in w.calls && id in w.s.tokens && Good(w.s.tokens[id], now)
    ensures Next(w, Find(c, w.s.tokens[id].hash, now), w.(calls := w.calls[c := Passed(id, w.s.tokens[id], now)]))
  {
    assert Finds(w.s.tokens, w.s.tokens[id].hash, Some(id));
  }

  lemma Marks(w: World, c: CallId) returns (r: World)
    requires c in w.calls && w.calls[c].Passed?
    ensures var call := w.calls[c];
      Next(w, Mark(c), r)
      && r == w.(s := w.s.(tokens := MarkUsed(w.s.tokens, call.id, call.now)),
                 calls := w.calls[c := Marked(call.id, call.record, call.now)])
  {
    hide RefreshFamilies.Next;
    r := w.(s := w.s.(tokens := MarkUsed(w.s.tokens, w.calls[c].id, w.calls[c].now)),
            calls := w.calls[c := Marked(w.calls[c].id, w.calls[c].record, w.calls[c].now)]);
  }

  lemma Creates(w: World, c: CallId, ttl: int, draw: Draw) returns (r: World)
    requires c in w.calls && w.calls[c].Loaded? && w.calls[c].id in w.s.tokens && FreshDraw(w.s.drawn, draw)
    ensures Next(w, Create(c, ttl, draw), r)
    ensures r == World(WithRecord(w.s, draw.id, Child(w.calls[c], ttl, draw)), w.calls - {c}, w.exchanges + [w.calls[c].id])
  {
    hide RefreshFamilies.Next;
    r := World(WithRecord(w.s, draw.id, Child(w.calls[c], ttl, draw)), w.calls - {c}, w.exchanges + [w.calls[c].id]);
  }

  // ---- at most one exchange of each token ---------------------------------------------------------------------

  /** The call has passed the guards with this token and may still insert a child. */
  predicate Claims(call: Call, id: RecordId) {
    (call.Passed? || call.Marked? || call.Loaded?) && call.id == id
  }

  /** Wherever the row still stands, it stands as used. */
  ghost predicate UsedUp(s: State, id: RecordId) {
    id in s.drawn.ids && (id in s.tokens ==> s.tokens[id].usedAt.Some?)
  }

  /** A token past its mark, and one that was exchanged, is used up; ids are never drawn again. */
  ghost predicate Sound(w: World) {
    && (forall id :: id in w.s.tokens ==> id in w.s.drawn.ids)
    && (forall c :: c in w.calls && w.calls[c].Passed? ==> w.calls[c].id in w.s.drawn.ids)
    && (forall c :: c in w.calls && (w.calls[c].Marked? || w.calls[c].Loaded?) ==> UsedUp(w.s, w.calls[c].id))
    && (forall id :: id in w.exchanges ==> UsedUp(w.s, id))
  }

  /** No token is claimed twice, nor claimed and already exchanged, nor exchanged twice. */
  ghost predicate Exclusive(w: World) {
    && (forall a, b, id :: a in w.calls && b in w.calls && Claims(w.calls[a], id) && Claims(w.calls[b], id) ==> a == b)
    && (forall c, id :: c in w.calls && Claims(w.calls[c], id) ==> id !in w.exchanges)
    && NoDuplicates(w.exchanges)
  }

  /** A token is looked up, and found good, while another call has looked it up and not marked it yet. */
  ghost predicate Races(w: World, step: Step) {
    && step.Find?
    && exists id, c :: id in w.s.tokens && w.s.tokens[id].hash == step.hash && Good(w.s.tokens[id], step.now)
         && c in w.calls && w.calls[c].Passed? && w.calls[c].id == id
  }

  predicate Good(record: Record, now: int) {
    record.revokedAt.None? && now < record.expiresAt && record.usedAt.None?
  }

  /** Every other call keeps used rows used and draws new ids. */
  lemma WholeKeepsUse(s: State, op: Op, now: int, r: State)
    requires RefreshFamilies.Next(s, op, now, r) && !op.Rotate? && forall id :: id in s.tokens ==> id in s.drawn.ids
    ensures forall id :: id in r.tokens ==> id in r.drawn.ids
    ensures forall id :: UsedUp(s, id) ==> UsedUp(r, id)
  {
    if !op.Revoke? && !op.IssueForUser? && !op.DeleteExpired? {
      AdminTokens(s, op, now, r);
      hide RefreshFamilies.Next;
    }
  }

  lemma WholeKeepsKeys(s: State, op: Op, now: int, r: State)
    requires RefreshFamilies.Next(s, op, now, r) && !op.Rotate? && HashesUnique(s.tokens) && AllDrawn(s)
    ensures HashesUnique(r.tokens) && AllDrawn(r)
  {
    hide HashesUnique, AllDrawn, FindsRow;
    match op
    case IssueForUser(user, ttl, draw, fails) => IssueKeepsKeys(s, user, now, ttl, draw, fails);
    case DeleteExpired => ExpireKeepsKeys(s, now);
    case Revoke(hash) =>
      var found :| FindsRow(s.tokens, hash, found) && r == AuthModel.Revoke(s, found, now);
      SameRowsKeepKeys(s, r);
    case _ =>
      AdminTokens(s, op, now, r);
      hide RefreshFamilies.Next;
      SameRowsKeepKeys(s, r);
  }

  lemma IssueKeepsKeys(s: State, user: UserId, now: int, ttl: int, draw: Draw, fails: bool)
    requires HashesUnique(s.tokens) && AllDrawn(s) && FreshDraw(s.drawn, draw)
    ensures var r := AuthModel.IssueForUser(s, user, now, ttl, draw, fails); HashesUnique(r.tokens) && AllDrawn(r)
  {
  }

  lemma ExpireKeepsKeys(s: State, now: int)
    requires HashesUnique(s.tokens) && AllDrawn(s)
    ensures var r := s.(tokens := AuthModel.DeleteExpired(s.tokens, now)); HashesUnique(r.tokens) && AllDrawn(r)
  {
  }

  lemma SameRowsKeepKeys(s: State, r: State)
    requires HashesUnique(s.tokens) && AllDrawn(s) && r.drawn == s.drawn && r.tokens.Keys == s.tokens.Keys
    requires forall i :: i in s.tokens ==> r.tokens[i].hash == s.tokens[i].hash && r.tokens[i].family == s.tokens[i].family
    ensures HashesUnique(r.tokens) && AllDrawn(r)
  {
  }

  lemma NextKeepsSound(w: World, step: Step, r: World)
    requires Sound(w) && Next(w, step, r)
    ensures Sound(r)
  {
    match step
    case Whole(op, now) => WholeKeepsSound(w, op, now, r);
    case Create(c, ttl, draw) =>
    case RevokeFamily(c) => hide RefreshFamilies.Next;
    case _ => hide RefreshFamilies.Next;
  }

  lemma WholeKeepsSound(w: World, op: Op, now: int, r: World)
    requires Sound(w) && Next(w, Whole(op, now), r)
    ensures Sound(r)
  {
    WholeKeepsUse(w.s, op, now, r.s);
    WholeDraws(w.s, op, now, r.s);
    hide RefreshFamilies.Next, UsedUp;
  }

  lemma WholeDraws(s: State, op: Op, now: int, r: State)
    requires RefreshFamilies.Next(s, op, now, r) && !op.Rotate?
    ensures s.drawn.ids <= r.drawn.ids
  {
  }

  ghost predicate Keyed(w: World) {
    AllDrawn(w.s) && HashesUnique(w.s.tokens)
  }

  lemma NextKeepsKeyed(w: World, step: Step, r: World)
    requires Keyed(w) && Next(w, step, r)
    ensures Keyed(r)
  {
    if step.Whole? {
      WholeKeepsKeys(w.s, step.op, step.now, r.s);
    }
  }

  /** From a state without a doubly claimed token a step reaches one exactly when it races. */
  lemma NextExclusiveIff(w: World, step: Step, r: World)
    requires Sound(w) && Keyed(w) && Exclusive(w) && Next(w, step, r)
    ensures Exclusive(r) <==> !Races(w, step)
  {
    match step
    case Find(c, hash, now) => FindExclusiveIff(w, step, r);
    case Create(c, ttl, draw) =>
      if r.exchanges != w.exchanges {
        NoDuplicatesSnoc(w.exchanges, w.calls[c].id);
      }
    case _ =>
  }

  lemma FindExclusiveIff(w: World, step: Step, r: World)
    requires Sound(w) && Keyed(w) && Exclusive(w) && Next(w, step, r) && step.Find?
    ensures Exclusive(r) <==> !Races(w, step)
  {
    var found :| Finds(w.s.tokens, step.hash, found)
      && r == if found.None? then w else w.(calls := Judged(w.calls, step.c, found.value, w.s.tokens[found.value], step.now));
    if found.Some? && Good(w.s.tokens[found.value], step.now) {
      PassingExclusiveIff(w, step.c, found.value, step.now, r);
      if b :| b in w.calls && w.calls[b].Passed? && w.calls[b].id == found.value {
        assert Races(w, step);
      }
    } else {
      NoNewClaim(w, step.c, r);
    }
  }

  lemma NoNewClaim(w: World, c: CallId, r: World)
    requires Exclusive(w) && c !in w.calls && r.exchanges == w.exchanges
    requires r.calls == w.calls || (c in r.calls && r.calls[c].Reused? && r.calls == w.calls[c := r.calls[c]])
    ensures Exclusive(r)
  {
  }

  lemma PassingExclusiveIff(w: World, c: CallId, id: RecordId, now: int, r: World)
    requires Sound(w) && Exclusive(w) && c !in w.calls && id in w.s.tokens && Good(w.s.tokens[id], now)
    requires r == w.(calls := w.calls[c := Passed(id, w.s.tokens[id], now)])
    ensures Exclusive(r) <==> forall b :: b in w.calls && w.calls[b].Passed? ==> w.calls[b].id != id
  {
    assert !UsedUp(w.s, id);
    assert Claims(r.calls[c], id);
    if b :| b in w.calls && w.calls[b].Passed? && w.calls[b].id == id {
      assert b in r.calls && Claims(r.calls[b], id) && b != c;
    } else {
      assert forall b :: b in w.calls ==> !Claims(w.calls[b], id);
      assert id !in w.exchanges;
    }
  }

  lemma {:induction false} RunsAreSound(worlds: seq<World>, steps: seq<Step>, i: nat)
    requires IsRun(worlds, steps) && i < |worlds|
    ensures Sound(worlds[i]) && Keyed(worlds[i])
  {
    if i > 0 {
      RunsAreSound(worlds, steps, i - 1);
      hide Next, Sound, Keyed;
      RunStep(worlds, steps, i - 1);
      NextKeepsSound(worlds[i - 1], steps[i - 1], worlds[i]);
      NextKeepsKeyed(worlds[i - 1], steps[i - 1], worlds[i]);
    }
  }

  lemma StepExclusiveIff(worlds: seq<World>, steps: seq<Step>, i: nat)
    requires IsRun(worlds, steps) && i < |steps| && Exclusive(worlds[i])
    ensures Exclusive(worlds[i + 1]) <==> !Races(worlds[i], steps[i])
  {
    hide Next, Sound, Keyed, Exclusive, Races;
    RunsAreSound(worlds, steps, i);
    RunStep(worlds, steps, i);
    NextExclusiveIff(worlds[i], steps[i], worlds[i + 1]);
  }

  lemma {:induction false} RunsExclusive(worlds: seq<World>, steps: seq<Step>, i: nat)
    requires IsRun(worlds, steps) && i < |worlds|
    requires forall k :: 0 <= k < i ==> !Races(worlds[k], steps[k])
    ensures Exclusive(worlds[i])
  {
    hide Next, Races;
    if i > 0 {
      RunsExclusive(worlds, steps, i - 1);
      StepExclusiveIff(worlds, steps, i - 1);
    }
  }

  /** Over any interleaving no token is ever claimed or exchanged twice, in any state, if and only if no look-up races. */
  lemma RunsExclusiveIff(worlds: seq<World>, steps: seq<Step>)
    requires IsRun(worlds, steps)
    ensures (forall i :: 0 <= i < |worlds| ==> Exclusive(worlds[i])) <==> (forall k :: 0 <= k < |steps| ==> !Races(worlds[k], steps[k]))
  {
    hide Exclusive, Races, Next;
    if forall k :: 0 <= k < |steps| ==> !Races(worlds[k], steps[k]) {
      forall i | 0 <= i < |worlds|
        ensures Exclusive(worlds[i])
      {
        RunsExclusive(worlds, steps, i);
      }
    }
    if forall i :: 0 <= i < |worlds| ==> Exclusive(worlds[i]) {
      forall k | 0 <= k < |steps|
        ensures !Races(worlds[k], steps[k])
      {
        StepExclusiveIff(worlds, steps, k);
      }
    }
  }

  /** So each token is exchanged at most once in a run whose look-ups of one token wait for an earlier look-up to be marked. */
  lemma ExchangedAtMostOnce(worlds: seq<World>, steps: seq<Step>, i: nat)
    requires IsRun(worlds, steps) && i < |worlds|
    requires forall k :: 0 <= k < |steps| ==> !Races(worlds[k], steps[k])
    ensures NoDuplicates(worlds[i].exchanges)
  {
    RunsExclusive(worlds, steps, i);
  }

  /** A race is all that it takes: from any state in which two calls have passed with the same token of an active user, their remaining
    * steps exchange it twice and leave two unused children of one record. */
  lemma RaceExchangesTwice(w: World, a: CallId, b: CallId, id: RecordId, ttl: int, first: Draw, second: Draw)
    returns (r: World, path: seq<World>, steps: seq<Step>)
    requires a != b && a in w.calls && b in w.calls && w.calls[a].Passed? && w.calls[b].Passed?
    requires w.calls[a].id == id == w.calls[b].id && w.calls[a].record.user == w.calls[b].record.user
    requires id in w.s.tokens && w.calls[a].record.user in w.s.users && w.s.users[w.calls[a].record.user].active
    requires FreshDraw(w.s.drawn, first) && FreshDraw(w.s.drawn, second) && AllDrawn(w.s)
    requires first.id != second.id && first.hash != second.hash && w.calls[a].record.family in w.s.drawn.families
    ensures |path| == |steps| + 1 && path[0] == w && path[|steps|] == r
    ensures forall i :: 0 <= i < |steps| ==> Next(path[i], steps[i], path[i + 1])
    ensures steps == [Mark(a), Mark(b), Load(a), Load(b), Create(a, ttl, first), Create(b, ttl, second)]
    ensures r.exchanges == w.exchanges + [id] + [id] && !Exclusive(r) && !OneChildEach(r.s.tokens)
  {
    var user := w.calls[a].record.user;
    var w1 := Marks(w, a);
    var w2 := Marks(w1, b);
    var w3 := Loads(w2, a);
    var w4 := Loads(w3, b);
    var w5 := Creates(w4, a, ttl, first);
    r := Creates(w5, b, ttl, second);
    path, steps := [w, w1, w2, w3, w4, w5, r], [Mark(a), Mark(b), Load(a), Load(b), Create(a, ttl, first), Create(b, ttl, second)];
    hide Next;
    assert r.exchanges[|w.exchanges|] == r.exchanges[|w.exchanges| + 1];
    assert r.s.tokens[first.id].parent == Some(id) == r.s.tokens[second.id].parent;
  }

  lemma Loads(w: World, c: CallId) returns (r: World)
    requires c in w.calls && w.calls[c].Marked?
    requires w.calls[c].record.user in w.s.users && w.s.users[w.calls[c].record.user].active
    ensures Next(w, Load(c), r) && r == w.(calls := w.calls[c := Loaded(w.calls[c].id, w.calls[c].record, w.calls[c].now)])
  {
    hide RefreshFamilies.Next;
    r := w.(calls := w.calls[c := Loaded(w.calls[c].id, w.calls[c].record, w.calls[c].now)]);
  }

  // ---- one token, two children ----------------------------------------------------------------------------------

  lemma Extends(worlds: seq<World>, steps: seq<Step>, step: Step, r: World)
    requires IsRun(worlds, steps) && Next(worlds[|steps|], step, r)
    ensures IsRun(worlds + [r], steps + [step])
  {
    hide Next;
    var longer, all := worlds + [r], steps + [step];
    forall i | 0 <= i < |all|
      ensures Next(longer[i], all[i], longer[i + 1])
    {
      if i < |steps| {
        assert Next(worlds[i], steps[i], worlds[i + 1]);
      }
    }
  }

  lemma {:induction false} FollowsPath(worlds: seq<World>, steps: seq<Step>, path: seq<World>, more: seq<Step>)
    returns (longer: seq<World>, all: seq<Step>)
    requires IsRun(worlds, steps) && |path| == |more| + 1 && path[0] == worlds[|steps|]
    requires forall i :: 0 <= i < |more| ==> Next(path[i], more[i], path[i + 1])
    ensures IsRun(longer, all) && all == steps + more && longer[|all|] == path[|more|] && worlds <= longer
    decreases |more|
  {
    hide Next;
    if more == [] {
      longer, all := worlds, steps;
    } else {
      assert Next(path[0], more[0], path[1]);
      Extends(worlds, steps, more[0], path[1]);
      forall i | 0 <= i < |more[1..]|
        ensures Next(path[1..][i], more[1..][i], path[1..][i + 1])
      {
        assert Next(path[i + 1], more[i + 1], path[i + 2]);
      }
      longer, all := FollowsPath(worlds + [path[1]], steps + [more[0]], path[1..], more[1..]);
    }
  }

  const ANN_TOKEN := Record(2, 9, 8, None, 1, 101, None, None)

  /** The world once Ann has logged in, with the calls that have passed with her token. */
  function LoggedIn(calls: map<CallId, Call>): World {
    World(State(TWO_USERS, map[7 := ANN_TOKEN], Drawn({7}, {8}, {9}), multiset{}), calls, [])
  }

  lemma AnnIsLoggedIn() returns (worlds: seq<World>, steps: seq<Step>)
    ensures IsRun(worlds, steps) && steps == [Whole(ANN_LOGS_IN, 0), Whole(ANN_IS_ISSUED, 1)] && worlds[2] == LoggedIn(map[])
  {
    var s1 := START.(authenticated := multiset{2});
    var s2 := AuthModel.IssueForUser(s1, 2, 1, 100, DRAW, false);
    AnnAuthenticates(0);
    AnnIsIssued(s1, 1);
    assert s2 == LoggedIn(map[]).s;
    hide RefreshFamilies.Next, AuthModel.IssueForUser;
    worlds := [World(START, map[], []), World(s1, map[], []), LoggedIn(map[])];
    steps := [Whole(ANN_LOGS_IN, 0), Whole(ANN_IS_ISSUED, 1)];
  }

  lemma FoundTwice() returns (worlds: seq<World>, steps: seq<Step>, w3: World, w4: World)
    ensures IsRun(worlds, steps) && |worlds| == 3 && steps == [Whole(ANN_LOGS_IN, 0), Whole(ANN_IS_ISSUED, 1)]
    ensures Next(worlds[2], Find(0, 8, 2), w3) && Races(w3, Find(1, 8, 2)) && Next(w3, Find(1, 8, 2), w4)
    ensures var passed := Passed(7, ANN_TOKEN, 2); w4 == LoggedIn(map[0 := passed, 1 := passed])
  {
    worlds, steps := AnnIsLoggedIn();
    var passed := Passed(7, ANN_TOKEN, 2);
    w3, w4 := LoggedIn(map[0 := passed]), LoggedIn(map[0 := passed, 1 := passed]);
    FindPasses(worlds[2], 0, 7, 2);
    FindPasses(w3, 1, 7, 2);
    assert w3.calls[1 := passed] == w4.calls && worlds[2].calls[0 := passed] == w3.calls;
    hide RefreshFamilies.Next;
  }

  /** Ann logs in; her refresh token is presented twice at the same moment. */
  lemma RaceIsReached() returns (worlds: seq<World>, steps: seq<Step>)
    ensures IsRun(worlds, steps) && |worlds| == 11
    ensures steps == [Whole(ANN_LOGS_IN, 0), Whole(ANN_IS_ISSUED, 1), Find(0, 8, 2), Find(1, 8, 2),
                      Mark(0), Mark(1), Load(0), Load(1), Create(0, 100, Draw(17, 18, 19)), Create(1, 100, Draw(27, 28, 29))]
    ensures Races(worlds[3], steps[3]) && worlds[10].exchanges == [7, 7] && !OneChildEach(worlds[10].s.tokens)
  {
    var w3, w4;
    worlds, steps, w3, w4 := FoundTwice();
    var r, path, more := RaceExchangesTwice(w4, 0, 1, 7, 100, Draw(17, 18, 19), Draw(27, 28, 29));
    hide Next, Races, OneChildEach, Exclusive;
    assert |worlds| == 3;
    Extends(worlds, steps, Find(0, 8, 2), w3);
    Extends(worlds + [w3], steps + [Find(0, 8, 2)], Find(1, 8, 2), w4);
    var before := worlds + [w3] + [w4];
    worlds, steps := FollowsPath(before, steps + [Find(0, 8, 2)] + [Find(1, 8, 2)], path, more);
    assert before[3] == worlds[3];
  }
}
