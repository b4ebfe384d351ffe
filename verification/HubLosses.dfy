/** What the two lossy steps of the hub lead to, and runs from an empty hub that get there. */
module HubLosses {
  import opened Common
  import opened SetIndex
  import opened Uuids
  import opened HubModel
  import opened HubInvariants
  import opened HubCounts
  import opened HubRuns

  // ---- direct subscriptions that lose their tag --------------------------------------------------------------

  ghost predicate DirectHeld(g: Groups) {
    forall t :: t in g.directTags && t != NIL_UUID ==> t in g.tagRefs
  }

  /** Whoever subscribed to a tag directly is among its subscribers. */
  ghost predicate Delivers(s: State) {
    forall c, t :: c in s.connectionGroups && t in s.connectionGroups[c].directTags && t != NIL_UUID ==> Linked(s.subscriptions, t, c)
  }

  ghost predicate AllHeld(s: State) {
    forall c :: c in s.connectionGroups ==> DirectHeld(s.connectionGroups[c])
  }

  /** A topic gives up a tag that is also subscribed to directly but has one reference for both. */
  ghost predicate Strips(g: Groups, released: set<Uuid>) {
    exists t :: t in g.directTags && t != NIL_UUID && t in released && RefCount(g.tagRefs, t) <= 1
  }

  ghost predicate Starves(s: State, op: Op) {
    match op
    case UnsubscribeTopic(c, topic) => StripsTopic(GroupsOf(s, c), topic, {})
    case ReconcileLostTopic(c, topic) => StripsTopic(GroupsOf(s, c), topic, {})
    case ReconcileTopic(c, topic, resolved) => StripsTopic(GroupsOf(s, c), topic, resolved)
    case _ => false
  }

  ghost predicate StripsTopic(g: Groups, topic: Topic, resolved: set<Uuid>) {
    topic in g.groupedTopics && Strips(g, g.groupedTopics[topic] - resolved)
  }

  lemma DeliversIffHeld(s: State)
    requires IndexesAgree(s)
    ensures Delivers(s) <==> AllHeld(s)
  {
    forall c, t ensures Linked(s.subscriptions, t, c) <==> t in Refs(s.connectionGroups, c) {
    }
  }

  lemma HeldAfterAdopt(s: State, r: State, c: Connection, g: Groups)
    requires AllHeld(s) && r.connectionGroups == s.connectionGroups[c := g]
    ensures AllHeld(r) <==> DirectHeld(g)
  {
    assert r.connectionGroups[c] == g;
  }

  lemma NothingHeld()
    ensures DirectHeld(NO_GROUPS)
  {
  }

  lemma SubscribesHold(g: Groups, t: Uuid, topic: Topic, resolved: seq<Uuid>, limit: int)
    requires DirectHeld(g)
    ensures DirectHeld(WithDirect(g, t, limit)) && DirectHeld(WithTopic(g, topic, resolved, limit))
  {
    hide CountNew;
  }

  lemma UnsubscribeHolds(g: Groups, t: Uuid)
    requires DirectHeld(g)
    ensures DirectHeld(WithoutDirect(g, t)) && DirectHeld(Deleted(g, t))
  {
  }

  lemma LeaveHoldsIff(g: Groups, topic: Topic)
    requires DirectHeld(g) && topic in g.groupedTopics
    ensures DirectHeld(WithoutTopic(g, topic)) <==> !StripsTopic(g, topic, {})
  {
    var released := g.groupedTopics[topic];
    assert released - {} == released;
    DecrementHoldsIff(g, g.(groupedTopics := g.groupedTopics - {topic}), released);
  }

  lemma RetargetHoldsIff(g: Groups, topic: Topic, resolved: set<Uuid>, kept: set<Uuid>)
    requires DirectHeld(g) && topic in g.groupedTopics && kept <= NewMembers(g, topic, resolved)
    ensures DirectHeld(Retargeted(g, topic, resolved, kept)) <==> !StripsTopic(g, topic, resolved)
  {
    var released := g.groupedTopics[topic] - resolved;
    var left := g.(groupedTopics := g.groupedTopics[topic := resolved]);
    DecrementHoldsIff(g, left, released);
    var lowered := left.(tagRefs := Decremented(g.tagRefs, released - {NIL_UUID}));
    var raised := Retargeted(g, topic, resolved, kept);
    assert raised.tagRefs.Keys == lowered.tagRefs.Keys + (kept - {NIL_UUID});
    if Strips(g, released) {
      var t :| t in g.directTags && t != NIL_UUID && t in released && RefCount(g.tagRefs, t) <= 1;
      assert t !in raised.tagRefs;
    }
  }

  lemma DecrementHoldsIff(g: Groups, left: Groups, released: set<Uuid>)
    requires DirectHeld(g) && left.directTags == g.directTags
    ensures DirectHeld(left.(tagRefs := Decremented(g.tagRefs, released - {NIL_UUID}))) <==> !Strips(g, released)
  {
    var after := Decremented(g.tagRefs, released - {NIL_UUID});
    forall t | t in g.directTags && t != NIL_UUID
      ensures t in after <==> !(t in released && RefCount(g.tagRefs, t) <= 1)
    {
      assert t in g.tagRefs;
    }
  }

  lemma DeletionHolds(s: State, t: Uuid, r: State)
    requires IndexesAgree(s) && AllHeld(s) && DeletesTag(s, t, r)
    ensures AllHeld(r)
  {
    if t != NIL_UUID {
      DeleteTagForAll(s, t, r);
      hide DeletesTag, IndexesAgree, DirectHeld;
      forall c | c in r.connectionGroups
        ensures DirectHeld(r.connectionGroups[c])
      {
        UnsubscribeHolds(s.connectionGroups[c], t);
      }
    }
  }

  /** A step leaves every direct subscription with its tag precisely when no topic gives up a reference that was not its own. */
  lemma NextHoldsIff(cfg: Config, s: State, op: Op, r: State)
    requires IndexesAgree(s) && AllHeld(s) && Next(cfg, s, op, r)
    ensures AllHeld(r) <==> !Starves(s, op)
  {
    hide IndexesAgree, WithDirect, WithTopic, WithoutDirect, WithoutTopic, Retargeted, Deleted, Strips, DeletesTag, DirectHeld;
    NothingHeld();
    match op
    case RegisterConnection(c) => HeldAfterAdopt(s, r, c, NO_GROUPS);
    case UnregisterConnection(c) =>
    case SubscribeAlarms(c) =>
    case UnsubscribeAlarms(c) =>
    case SubscribeTag(c, t) =>
      SubscribesHold(GroupsOf(s, c), t, "", [], cfg.limit);
      HeldAfterAdopt(s, r, c, WithDirect(GroupsOf(s, c), t, cfg.limit));
    case UnsubscribeTag(c, t) =>
      UnsubscribeHolds(GroupsOf(s, c), t);
      if c in s.connectionGroups {
        HeldAfterAdopt(s, r, c, WithoutDirect(GroupsOf(s, c), t));
      }
    case SubscribeTopic(c, topic, resolved) =>
      SubscribesHold(GroupsOf(s, c), NIL_UUID, topic, resolved, cfg.limit);
      HeldAfterAdopt(s, r, c, WithTopic(GroupsOf(s, c), topic, resolved, cfg.limit));
    case UnsubscribeTopic(c, topic) => LeavingHoldsIff(s, c, topic);
    case ReconcileTopic(c, topic, resolved) =>
      var g := GroupsOf(s, c);
      if topic in g.groupedTopics {
        var kept :| Keeps(cfg.limit, g, topic, resolved, kept) && r == Retarget(s, c, topic, resolved, kept);
        RetargetHoldsIff(g, topic, resolved, kept);
        HeldAfterAdopt(s, r, c, Retargeted(g, topic, resolved, kept));
      }
    case ReconcileLostTopic(c, topic) => LeavingHoldsIff(s, c, topic);
    case DeleteTag(t) => DeletionHolds(s, t, r);
  }

  lemma LeavingHoldsIff(s: State, c: Connection, topic: Topic)
    requires AllHeld(s)
    ensures AllHeld(LeaveGroup(s, c, topic)) <==> !StripsTopic(GroupsOf(s, c), topic, {})
  {
    hide DirectHeld;
    if c in s.connectionGroups && topic in s.connectionGroups[c].groupedTopics {
      LeaveHoldsIff(s.connectionGroups[c], topic);
      HeldAfterAdopt(s, LeaveGroup(s, c, topic), c, WithoutTopic(s.connectionGroups[c], topic));
    }
  }

  lemma StepDeliversIff(cfg: Config, states: seq<State>, ops: seq<Op>, i: nat)
    requires IsRun(cfg, states, ops) && i < |ops| && Delivers(states[i])
    ensures Delivers(states[i + 1]) <==> !Starves(states[i], ops[i])
  {
    hide Delivers, AllHeld, Starves, Next;
    RunsAreConsistent(cfg, states, ops, i);
    RunsAreConsistent(cfg, states, ops, i + 1);
    DeliversIffHeld(states[i]);
    DeliversIffHeld(states[i + 1]);
    assert Next(cfg, states[i], ops[i], states[i + 1]);
    NextHoldsIff(cfg, states[i], ops[i], states[i + 1]);
  }

  lemma {:induction false} RunsDeliver(cfg: Config, states: seq<State>, ops: seq<Op>, i: nat)
    requires IsRun(cfg, states, ops) && i < |states|
    requires forall k :: 0 <= k < i ==> !Starves(states[k], ops[k])
    ensures Delivers(states[i])
  {
    hide Starves, Next;
    if i > 0 {
      RunsDeliver(cfg, states, ops, i - 1);
      StepDeliversIff(cfg, states, ops, i - 1);
    }
  }

  /** Over a whole run every direct subscription is served in every state if and only if no topic ever gives up a reference that was
    * not its own. */
  lemma RunsDeliverIff(cfg: Config, states: seq<State>, ops: seq<Op>)
    requires IsRun(cfg, states, ops)
    ensures (forall i :: 0 <= i < |states| ==> Delivers(states[i]))
      <==> (forall k :: 0 <= k < |ops| ==> !Starves(states[k], ops[k]))
  {
    hide Delivers, Starves, Next;
    if forall k :: 0 <= k < |ops| ==> !Starves(states[k], ops[k]) {
      forall i | 0 <= i < |states|
        ensures Delivers(states[i])
      {
        RunsDeliver(cfg, states, ops, i);
      }
    }
    if forall i :: 0 <= i < |states| ==> Delivers(states[i]) {
      forall k | 0 <= k < |ops|
        ensures !Starves(states[k], ops[k])
      {
        StepDeliversIff(cfg, states, ops, k);
      }
    }
  }

  /** With exact counts a tag held both ways has two references, so it takes a lossy step to get there. */
  lemma ExactStarvesNobody(s: State, op: Op)
    requires Exact(s)
    ensures !Starves(s, op)
  {
    if op.UnsubscribeTopic? || op.ReconcileLostTopic? || op.ReconcileTopic? {
      var g := GroupsOf(s, op.c);
      if op.topic in g.groupedTopics {
        forall t | t in g.directTags && t != NIL_UUID && t in g.groupedTopics[op.topic]
          ensures RefCount(g.tagRefs, t) >= 2
        {
          assert op.topic in Holders(g, t);
        }
      }
    }
  }

  // ---- a tag held twice, then deleted ----------------------------------------------------------------------------

  /** Connection 0 subscribed to tag 1 twice over: directly, then through a topic. */
  function HeldTwice(topic: Topic): State {
    State(map[1 := {0}], map[0 := {1}], map[0 := Groups({1}, map[topic := {1}], map[1 := 2])], map[topic := {0}], {}, map[])
  }

  lemma HeldTwiceIsExact(topic: Topic)
    ensures IndexesAgree(HeldTwice(topic)) && Exact(HeldTwice(topic))
  {
    var s := HeldTwice(topic);
    var g := s.connectionGroups[0];
    forall t | t != NIL_UUID ensures RefCount(g.tagRefs, t) == Owed(g, t) {
      assert Holders(g, t) == if t == 1 then {topic} else {};
    }
  }

  /** One more reference for one tag. */
  lemma IncrementedOne(refs: map<Uuid, int>, t: Uuid)
    requires t != NIL_UUID
    ensures Incremented(refs, {t} - {NIL_UUID}) == refs[t := RefCount(refs, t) + 1]
  {
  }

  lemma CountsOne(refs: map<Uuid, int>, t: Uuid)
    requires t != NIL_UUID
    ensures CountNew(refs, [t]) == if RefCount(refs, t) <= 0 then 1 else 0
  {
    var tags: seq<Uuid> := [t];
    assert CountNew(refs, tags[1..]) == 0;
  }

  lemma JoinsDirectly(g: Groups, t: Uuid, limit: int)
    requires t != NIL_UUID && t !in g.directTags && (limit > 0 ==> |g.tagRefs| + (if RefCount(g.tagRefs, t) <= 0 then 1 else 0) <= limit)
    ensures WithDirect(g, t, limit) == Groups(g.directTags + {t}, g.groupedTopics, g.tagRefs[t := RefCount(g.tagRefs, t) + 1])
  {
    hide Incremented, CountNew;
    IncrementedOne(g.tagRefs, t);
    CountsOne(g.tagRefs, t);
  }

  lemma JoinsTopic(g: Groups, topic: Topic, t: Uuid, limit: int)
    requires t != NIL_UUID && topic !in g.groupedTopics
    requires limit > 0 ==> |g.tagRefs| + (if RefCount(g.tagRefs, t) <= 0 then 1 else 0) <= limit
    ensures WithTopic(g, topic, [t], limit)
      == Groups(g.directTags, g.groupedTopics[topic := {t}], g.tagRefs[t := RefCount(g.tagRefs, t) + 1])
  {
    hide Incremented, CountNew;
    IncrementedOne(g.tagRefs, t);
    CountsOne(g.tagRefs, t);
    var tags: seq<Uuid> := [t];
    assert ToSet(tags) == {t};
  }

  // ---- steps of a hub with one connection, by its record --------------------------------------------------------

  ghost predicate Only(s: State, g: Groups) {
    GroupsOf(s, 0) == g && s.connectionGroups.Keys <= {0} && s.alarmsSubscribers == {} && s.connectionsByUser == map[]
  }

  lemma OnlyAdopts(s: State, g: Groups, after: Groups)
    requires Only(s, g)
    ensures Only(Adopt(s, 0, after), after) && Adopt(s, 0, after).connectionGroups == map[0 := after]
  {
  }

  lemma SubscribesStep(cfg: Config, s: State, t: Uuid)
    ensures var r := SubscribeDirect(s, 0, t, cfg.limit);
      r == Adopt(s, 0, WithDirect(GroupsOf(s, 0), t, cfg.limit)) && Next(cfg, s, SubscribeTag(0, t), r)
  {
  }

  lemma JoinsStep(cfg: Config, s: State, topic: Topic, tags: seq<Uuid>)
    ensures var r := CommitGroup(s, 0, topic, tags, cfg.limit);
      r == Adopt(s, 0, WithTopic(GroupsOf(s, 0), topic, tags, cfg.limit)) && Next(cfg, s, SubscribeTopic(0, topic, tags), r)
  {
  }

  lemma OnlySubscribes(cfg: Config, s: State, g: Groups, t: Uuid)
    requires Only(s, g) && t != NIL_UUID && t !in g.directTags
    requires cfg.limit > 0 ==> |g.tagRefs| + (if RefCount(g.tagRefs, t) <= 0 then 1 else 0) <= cfg.limit
    ensures var r := SubscribeDirect(s, 0, t, cfg.limit);
      && Next(cfg, s, SubscribeTag(0, t), r)
      && Only(r, Groups(g.directTags + {t}, g.groupedTopics, g.tagRefs[t := RefCount(g.tagRefs, t) + 1]))
  {
    OnlyRecord(s, g);
    hide *;
    JoinsDirectly(g, t, cfg.limit);
    OnlyAdopts(s, g, WithDirect(g, t, cfg.limit));
    SubscribesStep(cfg, s, t);
  }

  lemma OnlyJoins(cfg: Config, s: State, g: Groups, topic: Topic, t: Uuid)
    requires Only(s, g) && t != NIL_UUID && topic !in g.groupedTopics
    requires cfg.limit > 0 ==> |g.tagRefs| + (if RefCount(g.tagRefs, t) <= 0 then 1 else 0) <= cfg.limit
    ensures var r := CommitGroup(s, 0, topic, [t], cfg.limit);
      && Next(cfg, s, SubscribeTopic(0, topic, [t]), r)
      && Only(r, Groups(g.directTags, g.groupedTopics[topic := {t}], g.tagRefs[t := RefCount(g.tagRefs, t) + 1]))
  {
    OnlyRecord(s, g);
    hide *;
    JoinsTopic(g, topic, t, cfg.limit);
    OnlyAdopts(s, g, WithTopic(g, topic, [t], cfg.limit));
    JoinsStep(cfg, s, topic, [t]);
  }

  lemma OnlyRecord(s: State, g: Groups)
    requires Only(s, g)
    ensures GroupsOf(s, 0) == g
  {
  }

  /** A consistent hub is known from that record. */
  lemma OnlyDetermines(s: State, r: State, g: Groups)
    requires IndexesAgree(s) && IndexesAgree(r) && Only(s, g) && Only(r, g) && g != NO_GROUPS
    ensures s == r
  {
    assert 0 in s.connectionGroups && 0 in r.connectionGroups;
    assert s.connectionGroups == map[0 := g] == r.connectionGroups;
    IndexesDetermined(s, r);
  }

  lemma RunsInto(cfg: Config, states: seq<State>, ops: seq<Op>, r: State, g: Groups)
    requires IsRun(cfg, states, ops) && Only(states[|ops|], g) && g != NO_GROUPS && IndexesAgree(r) && Only(r, g)
    ensures states[|ops|] == r
  {
    RunsAreConsistent(cfg, states, ops, |ops|);
    OnlyDetermines(states[|ops|], r, g);
  }

  lemma Extends(cfg: Config, states: seq<State>, ops: seq<Op>, op: Op, r: State)
    requires IsRun(cfg, states, ops) && Next(cfg, states[|ops|], op, r)
    ensures IsRun(cfg, states + [r], ops + [op])
  {
    hide Next;
    var longer, all := states + [r], ops + [op];
    forall i | 0 <= i < |all|
      ensures Next(cfg, longer[i], all[i], longer[i + 1])
    {
      if i < |ops| {
        assert Next(cfg, states[i], ops[i], states[i + 1]);
      }
    }
  }

  lemma EmptyRun(cfg: Config)
    ensures IsRun(cfg, [EMPTY_HUB], [])
  {
  }

  const FIRST_TAG: seq<Uuid> := [1]

  /** Two ordinary subscriptions reach the state above from an empty hub. */
  lemma HeldTwiceIsReached(cfg: Config, topic: Topic) returns (states: seq<State>, ops: seq<Op>)
    ensures IsRun(cfg, states, ops) && ops == [SubscribeTag(0, 1), SubscribeTopic(0, topic, FIRST_TAG)]
    ensures states[2] == HeldTwice(topic)
  {
    var s1, s2 := HeldTwiceRecords(cfg, topic);
    HeldTwiceIsExact(topic);
    hide *;
    states, ops := [EMPTY_HUB] + [s1] + [s2], [] + [SubscribeTag(0, 1)] + [SubscribeTopic(0, topic, FIRST_TAG)];
    EmptyRun(cfg);
    Extends(cfg, [EMPTY_HUB], [], SubscribeTag(0, 1), s1);
    Extends(cfg, [EMPTY_HUB] + [s1], [] + [SubscribeTag(0, 1)], SubscribeTopic(0, topic, FIRST_TAG), s2);
    RunsInto(cfg, states, ops, HeldTwice(topic), HeldTwice(topic).connectionGroups[0]);
  }

  lemma HeldTwiceRecords(cfg: Config, topic: Topic) returns (s1: State, s2: State)
    ensures Next(cfg, EMPTY_HUB, SubscribeTag(0, 1), s1) && Next(cfg, s1, SubscribeTopic(0, topic, FIRST_TAG), s2)
    ensures 0 in HeldTwice(topic).connectionGroups && HeldTwice(topic).connectionGroups[0] != NO_GROUPS
    ensures Only(s2, HeldTwice(topic).connectionGroups[0]) && Only(HeldTwice(topic), HeldTwice(topic).connectionGroups[0])
  {
    hide Next, SubscribeDirect, CommitGroup;
    var none: map<Topic, set<Uuid>> := map[];
    var g1 := Groups({} + {1}, none, map[1 := 1]);
    OnlySubscribes(cfg, EMPTY_HUB, NO_GROUPS, 1);
    s1 := SubscribeDirect(EMPTY_HUB, 0, 1, cfg.limit);
    assert Only(s1, g1);
    hide Only;
    OnlyJoins(cfg, s1, g1, topic, 1);
    s2 := CommitGroup(s1, 0, topic, FIRST_TAG, cfg.limit);
    assert none[topic := {1}] == map[topic := {1}];
  }

  /** A subscriber holding a tag more than once stays subscribed to it after it is deleted, with no owner left to release it. */
  lemma DeletedTagStaysSubscribed(s: State, t: Uuid, r: State, c: Connection)
    requires IndexesAgree(s) && DeletesTag(s, t, r) && t != NIL_UUID
    requires Linked(s.subscriptions, t, c) && RefCount(GroupsOf(s, c).tagRefs, t) > 1
    ensures Linked(r.subscriptions, t, c) && Owed(GroupsOf(r, c), t) == 0
  {
    DeleteTagForAll(s, t, r);
    hide DeletesTag;
  }

  /** The concrete case: deleting tag 1 from the state above leaves its counts wrong. */
  lemma DeletingHeldTwiceIsInexact(topic: Topic, r: State)
    requires DeletesTag(HeldTwice(topic), 1, r)
    ensures !Exact(r) && Linked(r.subscriptions, 1, 0)
  {
    HeldTwiceIsExact(topic);
    assert Linked(HeldTwice(topic).subscriptions, 1, 0);
    DeletesTagExactIff(HeldTwice(topic), 1, r);
    DeletedTagStaysSubscribed(HeldTwice(topic), 1, r, 0);
  }

  /** Connection 0 subscribed to a topic of one tag, as many as a limit of one allows. */
  function FullConnection(topic: Topic): State {
    State(map[1 := {0}], map[0 := {1}], map[0 := Groups({}, map[topic := {1}], map[1 := 1])], map[topic := {0}], {}, map[])
  }

  lemma FullConnectionFits(topic: Topic)
    ensures IndexesAgree(FullConnection(topic)) && Exact(FullConnection(topic)) && WithinLimit(1, FullConnection(topic))
  {
    var g := FullConnection(topic).connectionGroups[0];
    forall t | t != NIL_UUID ensures RefCount(g.tagRefs, t) == Owed(g, t) {
      assert Holders(g, t) == if t == 1 then {topic} else {};
    }
  }

  /** One ordinary subscription reaches that state. */
  lemma FullConnectionIsReached(cfg: Config, topic: Topic) returns (states: seq<State>, ops: seq<Op>)
    ensures IsRun(cfg, states, ops) && ops == [SubscribeTopic(0, topic, FIRST_TAG)]
    ensures states[1] == FullConnection(topic)
  {
    var s1 := FullConnectionRecord(cfg, topic);
    FullConnectionFits(topic);
    hide *;
    states, ops := [EMPTY_HUB] + [s1], [] + [SubscribeTopic(0, topic, FIRST_TAG)];
    EmptyRun(cfg);
    Extends(cfg, [EMPTY_HUB], [], SubscribeTopic(0, topic, FIRST_TAG), s1);
    RunsInto(cfg, states, ops, FullConnection(topic), FullConnection(topic).connectionGroups[0]);
  }

  lemma FullConnectionRecord(cfg: Config, topic: Topic) returns (s1: State)
    ensures Next(cfg, EMPTY_HUB, SubscribeTopic(0, topic, FIRST_TAG), s1)
    ensures 0 in FullConnection(topic).connectionGroups && FullConnection(topic).connectionGroups[0] != NO_GROUPS
    ensures Only(s1, FullConnection(topic).connectionGroups[0]) && Only(FullConnection(topic), FullConnection(topic).connectionGroups[0])
  {
    hide Next, CommitGroup;
    OnlyJoins(cfg, EMPTY_HUB, NO_GROUPS, topic, 1);
    s1 := CommitGroup(EMPTY_HUB, 0, topic, FIRST_TAG, cfg.limit);
    var none: map<Topic, set<Uuid>> := map[];
    assert none[topic := {1}] == map[topic := {1}];
  }

  /** The concrete case for trimming: a connection at its limit whose topic gains a tag is left owing it a reference. */
  lemma TrimmingIsInexact(topic: Topic, kept: set<Uuid>)
    requires Keeps(1, FullConnection(topic).connectionGroups[0], topic, {1, 2}, kept)
    ensures !Exact(Retarget(FullConnection(topic), 0, topic, {1, 2}, kept))
  {
    FullConnectionFits(topic);
    var g := FullConnection(topic).connectionGroups[0];
    assert Unreferenced(g.tagRefs, NewMembers(g, topic, {1, 2})) == {2};
    RetargetExactIff(FullConnection(topic), 0, topic, {1, 2}, kept, 1);
  }

  // ---- a direct subscription starved --------------------------------------------------------------------------------

  lemma OnlyLeaves(cfg: Config, s: State, g: Groups, topic: Topic)
    requires Only(s, g) && topic in g.groupedTopics
    ensures var r := LeaveGroup(s, 0, topic);
      Next(cfg, s, UnsubscribeTopic(0, topic), r) && Only(r, WithoutTopic(g, topic))
  {
    OnlyAdopts(s, g, WithoutTopic(g, topic));
    hide Adopt, WithoutTopic;
  }

  lemma OnlyRetargets(cfg: Config, s: State, g: Groups, topic: Topic, resolved: set<Uuid>, kept: set<Uuid>)
    requires Only(s, g) && topic in g.groupedTopics && Keeps(cfg.limit, g, topic, resolved, kept)
    ensures var r := Retarget(s, 0, topic, resolved, kept);
      Next(cfg, s, ReconcileTopic(0, topic, resolved), r) && Only(r, Retargeted(g, topic, resolved, kept))
  {
    OnlyAdopts(s, g, Retargeted(g, topic, resolved, kept));
    hide Adopt, Retargeted;
  }

  const THIRD_TAG: seq<Uuid> := [3]

  /** The other topic left and the tag that was cut subscribed to directly: two owners, one reference. */
  function Cut(a: Topic): Groups {
    Groups({2}, map[a := {1, 2}], map[1 := 1, 2 := 1])
  }

  /** Both topics, full at two tags, then the second tag in the first one although there was no room for its reference. */
  function Both(a: Topic, b: Topic, first: set<Uuid>): Groups {
    Groups({}, map[a := first, b := {3}], map[1 := 1, 3 := 1])
  }

  lemma NothingChanges(refs: map<Uuid, int>)
    ensures Incremented(Decremented(refs, {}), {}) == refs
  {
    assert Decremented(refs, {}) == refs;
  }

  lemma TrimmedRecords(a: Topic, b: Topic)
    requires a != b
    ensures Keeps(2, Both(a, b, {1}), a, {1, 2}, {})
    ensures Retargeted(Both(a, b, {1}), a, {1, 2}, {}) == Both(a, b, {1, 2})
  {
    var g := Both(a, b, {1});
    assert g.groupedTopics[a := {1, 2}] == Both(a, b, {1, 2}).groupedTopics;
    assert Unreferenced(g.tagRefs, NewMembers(g, a, {1, 2})) == {2} && g.tagRefs.Keys == {1, 3};
    var none: set<Uuid> := {};
    assert {1} - {1, 2} - {NIL_UUID} == none && none - {NIL_UUID} == none;
    NothingChanges(g.tagRefs);
  }

  lemma LeftRecords(a: Topic, b: Topic)
    requires a != b
    ensures WithoutTopic(Both(a, b, {1, 2}), b) == Trimmed(a)
    ensures WithoutTopic(Cut(a), a) == Groups({2}, map[], map[])
  {
    var g3 := Both(a, b, {1, 2});
    assert {3} - {NIL_UUID} == {3} && {1, 2} - {NIL_UUID} == {1, 2};
    assert g3.groupedTopics - {b} == map[a := {1, 2}];
    assert Decremented(g3.tagRefs, {3}) == map[1 := 1];
    assert Cut(a).groupedTopics - {a} == map[];
    assert Decremented(Cut(a).tagRefs, {1, 2}) == map[];
  }

  lemma FillsBoth(cfg: Config, a: Topic, b: Topic) returns (s1: State, s2: State)
    requires cfg.limit == 2 && a != b
    ensures Next(cfg, EMPTY_HUB, SubscribeTopic(0, a, FIRST_TAG), s1) && Next(cfg, s1, SubscribeTopic(0, b, THIRD_TAG), s2)
    ensures Only(s2, Both(a, b, {1}))
  {
    hide Next, CommitGroup;
    var none: map<Topic, set<Uuid>> := map[];
    var refs: map<Uuid, int> := map[];
    var g1 := Groups({}, none[a := {1}], refs[1 := 1]);
    OnlyJoins(cfg, EMPTY_HUB, NO_GROUPS, a, 1);
    s1 := CommitGroup(EMPTY_HUB, 0, a, FIRST_TAG, cfg.limit);
    hide Only;
    assert |g1.tagRefs| == 1;
    OnlyJoins(cfg, s1, g1, b, 3);
    s2 := CommitGroup(s1, 0, b, THIRD_TAG, cfg.limit);
    assert none[a := {1}][b := {3}] == Both(a, b, {1}).groupedTopics;
    assert refs[1 := 1][3 := 1] == Both(a, b, {1}).tagRefs;
  }

  /** What is left once the other topic is gone: two tags in the topic, one reference. */
  function Trimmed(a: Topic): Groups {
    Groups({}, map[a := {1, 2}], map[1 := 1])
  }

  lemma BothRecord(a: Topic, b: Topic, first: set<Uuid>)
    ensures a in Both(a, b, first).groupedTopics && b in Both(a, b, first).groupedTopics
  {
  }

  lemma CutsAndLeaves(cfg: Config, a: Topic, b: Topic, s2: State) returns (s3: State, s4: State)
    requires cfg.limit == 2 && a != b && Only(s2, Both(a, b, {1}))
    ensures Next(cfg, s2, ReconcileTopic(0, a, {1, 2}), s3) && Next(cfg, s3, UnsubscribeTopic(0, b), s4)
    ensures Only(s4, Trimmed(a))
  {
    TrimmedRecords(a, b);
    LeftRecords(a, b);
    BothRecord(a, b, {1});
    BothRecord(a, b, {1, 2});
    hide *;
    OnlyRetargets(cfg, s2, Both(a, b, {1}), a, {1, 2}, {});
    s3 := Retarget(s2, 0, a, {1, 2}, {});
    OnlyLeaves(cfg, s3, Both(a, b, {1, 2}), b);
    s4 := LeaveGroup(s3, 0, b);
  }

  lemma Returns(cfg: Config, a: Topic, s4: State) returns (s5: State)
    requires cfg.limit == 2 && Only(s4, Trimmed(a))
    ensures Next(cfg, s4, SubscribeTag(0, 2), s5) && Only(s5, Cut(a))
  {
    hide Next, SubscribeDirect, Only;
    assert Trimmed(a).tagRefs.Keys == {1};
    OnlySubscribes(cfg, s4, Trimmed(a), 2);
    s5 := SubscribeDirect(s4, 0, 2, cfg.limit);
    assert Trimmed(a).tagRefs[2 := 1] == Cut(a).tagRefs && {} + {2} == Cut(a).directTags;
  }

  lemma NotDelivered(s: State)
    requires IndexesAgree(s) && Only(s, Groups({2}, map[], map[]))
    ensures 0 in s.connectionGroups && 2 in s.connectionGroups[0].directTags && !Linked(s.subscriptions, 2, 0) && !Delivers(s)
  {
    assert 2 !in Refs(s.connectionGroups, 0);
  }

  /** At a limit of two, six ordinary steps leave connection 0 subscribed directly to a tag that it is not sent. */
  lemma TrimStarvesDirectSubscription(cfg: Config, a: Topic, b: Topic) returns (states: seq<State>, ops: seq<Op>)
    requires cfg.limit == 2 && a != b
    ensures IsRun(cfg, states, ops)
    ensures ops == [SubscribeTopic(0, a, FIRST_TAG), SubscribeTopic(0, b, THIRD_TAG), ReconcileTopic(0, a, {1, 2}),
                    UnsubscribeTopic(0, b), SubscribeTag(0, 2), UnsubscribeTopic(0, a)]
    ensures |states| == 7 && 0 in states[6].connectionGroups && 2 in states[6].connectionGroups[0].directTags
    ensures !Linked(states[6].subscriptions, 2, 0) && !Delivers(states[6])
  {
    hide *;
    var s1, s2 := FillsBoth(cfg, a, b);
    var s3, s4 := CutsAndLeaves(cfg, a, b, s2);
    var s5 := Returns(cfg, a, s4);
    CutRecord(a);
    OnlyLeaves(cfg, s5, Cut(a), a);
    LeftRecords(a, b);
    var s6 := LeaveGroup(s5, 0, a);
    EmptyRun(cfg);
    states, ops := [EMPTY_HUB], [];
    states, ops := Grow(cfg, states, ops, SubscribeTopic(0, a, FIRST_TAG), s1);
    states, ops := Grow(cfg, states, ops, SubscribeTopic(0, b, THIRD_TAG), s2);
    states, ops := Grow(cfg, states, ops, ReconcileTopic(0, a, {1, 2}), s3);
    states, ops := Grow(cfg, states, ops, UnsubscribeTopic(0, b), s4);
    states, ops := Grow(cfg, states, ops, SubscribeTag(0, 2), s5);
    states, ops := Grow(cfg, states, ops, UnsubscribeTopic(0, a), s6);
    assert Consistent(cfg, states[6]) by { RunsAreConsistent(cfg, states, ops, 6); }
    ConsistentAgrees(cfg, states[6]);
    NotDelivered(s6);
  }

  lemma ConsistentAgrees(cfg: Config, s: State)
    requires Consistent(cfg, s)
    ensures IndexesAgree(s)
  {
  }

  lemma CutRecord(a: Topic)
    ensures a in Cut(a).groupedTopics
  {
  }

  lemma Grow(cfg: Config, states: seq<State>, ops: seq<Op>, op: Op, r: State) returns (longer: seq<State>, all: seq<Op>)
    requires IsRun(cfg, states, ops) && |states| == |ops| + 1 && Next(cfg, states[|ops|], op, r)
    ensures longer == states + [r] && all == ops + [op] && IsRun(cfg, longer, all) && |longer| == |all| + 1
  {
    longer, all := states + [r], ops + [op];
    Extends(cfg, states, ops, op, r);
  }
}
