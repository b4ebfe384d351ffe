/** Whole runs of the hub: any interleaving of sections from any number of connections. */
module HubRuns {
  import opened Common
  import opened SetIndex
  import opened Uuids
  import opened HubModel
  import opened HubInvariants
  import opened HubCounts

  datatype Config = Config(limit: int, maxPerUser: int, subject: Connection -> User)

  datatype Op =
    | RegisterConnection(c: Connection)
    | UnregisterConnection(c: Connection)
    | SubscribeAlarms(c: Connection)
    | UnsubscribeAlarms(c: Connection)
    | SubscribeTag(c: Connection, t: Uuid)
    | UnsubscribeTag(c: Connection, t: Uuid)
    | SubscribeTopic(c: Connection, topic: Topic, resolved: seq<Uuid>)
    | UnsubscribeTopic(c: Connection, topic: Topic)
    | ReconcileTopic(c: Connection, topic: Topic, members: set<Uuid>)
    | ReconcileLostTopic(c: Connection, topic: Topic)
    | DeleteTag(t: Uuid)

  /** One lock-held section. What a topic resolves to is arbitrary; what a trim keeps is any choice that fits. */
  ghost predicate Next(cfg: Config, s: State, op: Op, r: State) {
    match op
    case RegisterConnection(c) =>
      && GroupsOf(s, c).tagRefs == map[] && GroupsOf(s, c).groupedTopics == map[]
      && r == Register(s, c, cfg.subject(c), cfg.maxPerUser)
    case UnregisterConnection(c) => r == Unregister(s, c, cfg.subject(c))
    case SubscribeAlarms(c) => r == s.(alarmsSubscribers := s.alarmsSubscribers + {c})
    case UnsubscribeAlarms(c) => r == s.(alarmsSubscribers := s.alarmsSubscribers - {c})
    case SubscribeTag(c, t) => r == SubscribeDirect(s, c, t, cfg.limit)
    case UnsubscribeTag(c, t) => r == UnsubscribeDirect(s, c, t)
    case SubscribeTopic(c, topic, resolved) => r == CommitGroup(s, c, topic, resolved, cfg.limit)
    case UnsubscribeTopic(c, topic) => r == LeaveGroup(s, c, topic)
    case ReconcileTopic(c, topic, resolved) =>
      if topic !in GroupsOf(s, c).groupedTopics then r == s
      else exists kept :: Keeps(cfg.limit, GroupsOf(s, c), topic, resolved, kept) && r == Retarget(s, c, topic, resolved, kept)
    case ReconcileLostTopic(c, topic) => r == LeaveGroup(s, c, topic)
    case DeleteTag(t) => DeletesTag(s, t, r)
  }

  ghost predicate IsRun(cfg: Config, states: seq<State>, ops: seq<Op>) {
    && |states| == |ops| + 1
    && states[0] == EMPTY_HUB
    && forall i :: 0 <= i < |ops| ==> Next(cfg, states[i], ops[i], states[i + 1])
  }

  /** Each user's list holds only that user's connections, within the cap, and is never empty. */
  ghost predicate UsersTidy(cfg: Config, s: State) {
    forall u :: u in s.connectionsByUser ==>
      && u != ""
      && s.connectionsByUser[u] != []
      && (forall c :: c in s.connectionsByUser[u] ==> cfg.subject(c) == u)
      && (cfg.maxPerUser > 0 ==> |s.connectionsByUser[u]| <= cfg.maxPerUser)
  }

  ghost predicate Consistent(cfg: Config, s: State) {
    IndexesAgree(s) && WithinLimit(cfg.limit, s) && UsersTidy(cfg, s)
  }

  /** The two steps that leave counts wrong: a reconciliation that trims, and deleting a tag held more than once. */
  ghost predicate Lossy(cfg: Config, s: State, op: Op) {
    match op
    case ReconcileTopic(c, topic, resolved) =>
      topic in GroupsOf(s, c).groupedTopics && TrimsAt(cfg.limit, GroupsOf(s, c), topic, resolved)
    case DeleteTag(t) =>
      t != NIL_UUID && exists c :: Linked(s.subscriptions, t, c) && RefCount(GroupsOf(s, c).tagRefs, t) > 1
    case _ => false
  }

  lemma RegisterTidy(cfg: Config, s: State, c: Connection)
    requires UsersTidy(cfg, s)
    ensures UsersTidy(cfg, Register(s, c, cfg.subject(c), cfg.maxPerUser))
  {
  }

  lemma UnregisterTidy(cfg: Config, s: State, c: Connection)
    requires UsersTidy(cfg, s)
    ensures UsersTidy(cfg, Unregister(s, c, cfg.subject(c)))
    ensures var after := Unregister(s, c, cfg.subject(c)).connectionsByUser;
      forall u :: u in after ==> c !in after[u]
  {
    var u := cfg.subject(c);
    if u in s.connectionsByUser {
      WithoutFacts(s.connectionsByUser[u], c);
    }
  }

  lemma AlarmsKeepIndexes(s: State, r: State)
    requires IndexesAgree(s) && r == s.(alarmsSubscribers := r.alarmsSubscribers)
    ensures IndexesAgree(r)
  {
  }

  lemma RegistrationWithinLimit(cfg: Config, s: State, c: Connection)
    requires WithinLimit(cfg.limit, s)
    ensures WithinLimit(cfg.limit, Register(s, c, cfg.subject(c), cfg.maxPerUser))
    ensures WithinLimit(cfg.limit, Unregister(s, c, cfg.subject(c)))
    ensures forall cs :: WithinLimit(cfg.limit, s.(alarmsSubscribers := cs))
  {
  }

  lemma NextConsistent(cfg: Config, s: State, op: Op, r: State)
    requires Consistent(cfg, s) && Next(cfg, s, op, r)
    ensures IndexesAgree(r) && WithinLimit(cfg.limit, r)
  {
    hide IndexesAgree, WithinLimit, UsersTidy, Register, Unregister, SubscribeDirect, CommitGroup, UnsubscribeDirect, LeaveGroup, Retarget,
      Keeps, DeletesTag;
    match op
    case RegisterConnection(c) =>
      RegisterKeepsIndexes(s, c, cfg.subject(c), cfg.maxPerUser);
      RegistrationWithinLimit(cfg, s, c);
    case UnregisterConnection(c) =>
      UnregisterKeepsIndexes(s, c, cfg.subject(c));
      RegistrationWithinLimit(cfg, s, c);
    case SubscribeAlarms(c) =>
      AlarmsKeepIndexes(s, r);
      RegistrationWithinLimit(cfg, s, c);
    case UnsubscribeAlarms(c) =>
      AlarmsKeepIndexes(s, r);
      RegistrationWithinLimit(cfg, s, c);
    case SubscribeTag(c, t) =>
      SubscribesKeepIndexes(s, c, t, "", [], cfg.limit);
      SubscribesWithinLimit(s, c, t, "", [], cfg.limit);
    case UnsubscribeTag(c, t) =>
      UnsubscribesKeepIndexes(s, c, t, "");
      UnsubscribesWithinLimit(s, c, t, "", cfg.limit);
    case SubscribeTopic(c, topic, resolved) =>
      SubscribesKeepIndexes(s, c, NIL_UUID, topic, resolved, cfg.limit);
      SubscribesWithinLimit(s, c, NIL_UUID, topic, resolved, cfg.limit);
    case UnsubscribeTopic(c, topic) =>
      UnsubscribesKeepIndexes(s, c, NIL_UUID, topic);
      UnsubscribesWithinLimit(s, c, NIL_UUID, topic, cfg.limit);
    case ReconcileTopic(c, topic, resolved) =>
      if topic in GroupsOf(s, c).groupedTopics {
        var kept :| Keeps(cfg.limit, GroupsOf(s, c), topic, resolved, kept) && r == Retarget(s, c, topic, resolved, kept);
        RetargetKeepsIndexes(s, c, topic, resolved, kept);
        RetargetWithinLimit(s, c, topic, resolved, kept, cfg.limit);
      }
    case ReconcileLostTopic(c, topic) =>
      UnsubscribesKeepIndexes(s, c, NIL_UUID, topic);
      UnsubscribesWithinLimit(s, c, NIL_UUID, topic, cfg.limit);
    case DeleteTag(t) => DeletesTagWithinLimit(s, t, r, cfg.limit);
  }

  lemma NextTidy(cfg: Config, s: State, op: Op, r: State)
    requires Consistent(cfg, s) && Next(cfg, s, op, r)
    ensures UsersTidy(cfg, r)
  {
    match op
    case RegisterConnection(c) => RegisterTidy(cfg, s, c);
    case UnregisterConnection(c) => UnregisterTidy(cfg, s, c);
    case DeleteTag(t) =>
      if t != NIL_UUID {
        DeleteTagForAll(s, t, r);
      }
    case _ => assert r.connectionsByUser == s.connectionsByUser;
  }

  /** From exact counts, a step reaches exact counts precisely when it is not one of the two lossy ones. */
  lemma NextExactIff(cfg: Config, s: State, op: Op, r: State)
    requires Consistent(cfg, s) && Exact(s) && Next(cfg, s, op, r)
    ensures Exact(r) <==> !Lossy(cfg, s, op)
  {
    hide IndexesAgree, SubscribeDirect, CommitGroup, UnsubscribeDirect, LeaveGroup, Retarget, Keeps, DeletesTag, ExactGroups;
    match op
    case RegisterConnection(c) => EmptyGroupsExact();
    case UnregisterConnection(c) =>
    case SubscribeAlarms(c) =>
    case UnsubscribeAlarms(c) =>
    case SubscribeTag(c, t) => SubscribeDirectExact(s, c, t, cfg.limit);
    case UnsubscribeTag(c, t) => UnsubscribeDirectExact(s, c, t);
    case SubscribeTopic(c, topic, resolved) => CommitGroupExact(s, c, topic, resolved, cfg.limit);
    case UnsubscribeTopic(c, topic) => LeaveGroupExact(s, c, topic);
    case ReconcileTopic(c, topic, resolved) =>
      if topic in GroupsOf(s, c).groupedTopics {
        var kept :| Keeps(cfg.limit, GroupsOf(s, c), topic, resolved, kept) && r == Retarget(s, c, topic, resolved, kept);
        RetargetExactIff(s, c, topic, resolved, kept, cfg.limit);
      }
    case ReconcileLostTopic(c, topic) => LeaveGroupExact(s, c, topic);
    case DeleteTag(t) => DeletesTagExactIff(s, t, r);
  }

  /** Every state of every run has agreeing indexes, respects both limits and keeps tidy user lists. */
  lemma {:induction false} RunsAreConsistent(cfg: Config, states: seq<State>, ops: seq<Op>, i: nat)
    requires IsRun(cfg, states, ops) && i < |states|
    ensures Consistent(cfg, states[i])
  {
    if i > 0 {
      RunsAreConsistent(cfg, states, ops, i - 1);
      assert Next(cfg, states[i - 1], ops[i - 1], states[i - 1 + 1]);
      NextConsistent(cfg, states[i - 1], ops[i - 1], states[i]);
      NextTidy(cfg, states[i - 1], ops[i - 1], states[i]);
    }
  }

  /** A whole run has exact reference counts throughout if and only if none of its steps is lossy. */
  lemma {:induction false} RunsAreExactIff(cfg: Config, states: seq<State>, ops: seq<Op>)
    requires IsRun(cfg, states, ops)
    ensures (forall i :: 0 <= i < |states| ==> Exact(states[i]))
      <==> (forall i :: 0 <= i < |ops| ==> !Lossy(cfg, states[i], ops[i]))
  {
    hide Next, Exact, Lossy, Consistent;
    if ops != [] {
      var n := |ops| - 1;
      assert IsRun(cfg, states[..n + 1], ops[..n]) by {
        forall i | 0 <= i < n ensures Next(cfg, states[..n + 1][i], ops[..n][i], states[..n + 1][i + 1]) {
          assert Next(cfg, states[i], ops[i], states[i + 1]);
        }
      }
      RunsAreExactIff(cfg, states[..n + 1], ops[..n]);
      assert (forall i :: 0 <= i < n + 1 ==> Exact(states[i])) <==> (forall i :: 0 <= i < n ==> !Lossy(cfg, states[i], ops[i])) by {
        assert forall i :: 0 <= i < n + 1 ==> states[..n + 1][i] == states[i];
        assert forall i :: 0 <= i < n ==> ops[..n][i] == ops[i];
      }
      RunsAreConsistent(cfg, states, ops, n);
      assert Next(cfg, states[n], ops[n], states[n + 1]);
      if Exact(states[n]) {
        NextExactIff(cfg, states[n], ops[n], states[n + 1]);
      }
    } else {
      EmptyHubExact();
    }
  }

  lemma EmptyHubExact()
    ensures Exact(EMPTY_HUB)
  {
  }

  // ---- who a step can affect ------------------------------------------------------------------------------

  /** What the hub knows about connection d. */
  ghost predicate SameFor(s: State, r: State, d: Connection) {
    && (d in s.connectionGroups <==> d in r.connectionGroups)
    && GroupsOf(s, d) == GroupsOf(r, d)
    && (d in s.alarmsSubscribers <==> d in r.alarmsSubscribers)
    && (forall t :: Linked(s.subscriptions, t, d) <==> Linked(r.subscriptions, t, d))
    && (forall g :: Linked(s.groupTopicSubscribers, g, d) <==> Linked(r.groupTopicSubscribers, g, d))
  }

  lemma SameRecordSameLinks(s: State, r: State, d: Connection)
    requires IndexesAgree(s) && IndexesAgree(r) && GroupsOf(s, d) == GroupsOf(r, d)
    ensures forall t :: Linked(s.subscriptions, t, d) <==> Linked(r.subscriptions, t, d)
    ensures forall g :: Linked(s.groupTopicSubscribers, g, d) <==> Linked(r.groupTopicSubscribers, g, d)
  {
  }

  lemma OtherRecordsUntouched(cfg: Config, s: State, op: Op, r: State, d: Connection)
    requires Next(cfg, s, op, r) && !op.DeleteTag? && op.c != d
    ensures d in s.connectionGroups <==> d in r.connectionGroups
    ensures GroupsOf(s, d) == GroupsOf(r, d)
    ensures d in s.alarmsSubscribers <==> d in r.alarmsSubscribers
  {
    if op.ReconcileTopic? && op.topic in GroupsOf(s, op.c).groupedTopics {
      var kept :| Keeps(cfg.limit, GroupsOf(s, op.c), op.topic, op.members, kept) && r == Retarget(s, op.c, op.topic, op.members, kept);
    }
  }

  /** Only a tag deletion can touch more than one connection; every other step leaves the others as they were. */
  lemma OthersUntouched(cfg: Config, s: State, op: Op, r: State, d: Connection)
    requires Consistent(cfg, s) && Next(cfg, s, op, r)
    requires !op.DeleteTag? && op.c != d
    ensures SameFor(s, r, d)
  {
    NextConsistent(cfg, s, op, r);
    OtherRecordsUntouched(cfg, s, op, r, d);
    SameRecordSameLinks(s, r, d);
  }

  /** After it is unregistered, a connection occurs nowhere in the hub. */
  lemma UnregisterLeavesNoTrace(cfg: Config, s: State, c: Connection)
    requires Consistent(cfg, s)
    ensures var r := Unregister(s, c, cfg.subject(c));
      && c !in r.connectionGroups && c !in r.connectionSubscriptions && c !in r.alarmsSubscribers
      && (forall t :: !Linked(r.subscriptions, t, c))
      && (forall g :: !Linked(r.groupTopicSubscribers, g, c))
      && (forall u :: u in r.connectionsByUser ==> c !in r.connectionsByUser[u])
  {
    var r := Unregister(s, c, cfg.subject(c));
    UnregisterKeepsIndexes(s, c, cfg.subject(c));
    UnregisterTidy(cfg, s, c);
    forall t ensures !Linked(r.subscriptions, t, c) {
      assert t !in Refs(r.connectionGroups, c);
    }
    forall g ensures !Linked(r.groupTopicSubscribers, g, c) {
      assert g !in Topics(r.connectionGroups, c);
    }
  }
}
