/** What each connection has asked for, section by section: its direct tags and the members of its topics. */
module HubOwners {
  import opened Common
  import opened Uuids
  import opened SetIndex
  import opened HubModel
  import opened HubInvariants
  import opened HubCounts
  import opened HubRuns

  function DirectTags(s: State, c: Connection): set<Uuid> {
    GroupsOf(s, c).directTags
  }

  function TopicMembers(s: State, c: Connection): map<Topic, set<Uuid>> {
    GroupsOf(s, c).groupedTopics
  }

  /** The entries of the list for which there is no reference yet. */
  function NewAt(refs: map<Uuid, int>, tags: seq<Uuid>): set<nat> {
    set i: nat | i < |tags| && tags[i] != NIL_UUID && !(tags[i] in refs && refs[tags[i]] > 0)
  }

  /** They fit in the room that the limit leaves. */
  predicate Fits(cfg: Config, s: State, c: Connection, tags: seq<Uuid>) {
    cfg.limit > 0 ==> |GroupsOf(s, c).tagRefs| + |NewAt(GroupsOf(s, c).tagRefs, tags)| <= cfg.limit
  }

  function Shifted(items: set<nat>): set<nat> {
    set i | i in items :: i + 1
  }

  lemma HasOne(items: set<nat>)
    requires items != {}
    ensures exists x :: x in items
  {
  }

  lemma {:induction false} ShiftedSize(items: set<nat>)
    ensures |Shifted(items)| == |items|
  {
    if items == {} {
      assert Shifted(items) == {};
    } else {
      HasOne(items);
      var x :| x in items;
      ShiftedSize(items - {x});
      forall y | y in Shifted(items)
        ensures y in Shifted(items - {x}) + {x + 1}
      {
        assert y == x + 1 || y - 1 in items - {x};
      }
      assert Shifted(items) == Shifted(items - {x}) + {x + 1} && x + 1 !in Shifted(items - {x});
    }
  }

  lemma FirstAndLater(refs: map<Uuid, int>, tags: seq<Uuid>)
    requires tags != []
    ensures NewAt(refs, tags) == Shifted(NewAt(refs, tags[1..])) + NewAt(refs, tags[..1])
    ensures NewAt(refs, tags[..1]) == if tags[0] != NIL_UUID && RefCount(refs, tags[0]) <= 0 then {0} else {}
    ensures 0 !in Shifted(NewAt(refs, tags[1..]))
  {
    forall i | i in NewAt(refs, tags) && i > 0
      ensures i in Shifted(NewAt(refs, tags[1..]))
    {
      assert tags[1..][i - 1] == tags[i] && i - 1 in NewAt(refs, tags[1..]);
    }
  }

  lemma {:induction false} NewEntriesCounted(refs: map<Uuid, int>, tags: seq<Uuid>)
    ensures CountNew(refs, tags) == |NewAt(refs, tags)|
  {
    if tags == [] {
      assert NewAt(refs, tags) == {};
    } else {
      NewEntriesCounted(refs, tags[1..]);
      FirstAndLater(refs, tags);
      ShiftedSize(NewAt(refs, tags[1..]));
      hide NewAt, Shifted;
    }
  }

  // ---- direct tags ---------------------------------------------------------------------------------------------

  lemma LimitsAlike(cfg: Config, s: State, c: Connection, tags: seq<Uuid>)
    ensures Fits(cfg, s, c, tags) <==> !ExceedsLimit(cfg.limit, GroupsOf(s, c).tagRefs, tags)
  {
    NewEntriesCounted(GroupsOf(s, c).tagRefs, tags);
  }

  /** A connection's record after a section. */
  lemma GroupsNext(cfg: Config, s: State, op: Op, r: State, c: Connection)
    requires Next(cfg, s, op, r) && !op.ReconcileTopic? && !op.DeleteTag?
    ensures GroupsOf(r, c) ==
      if op.c != c then GroupsOf(s, c)
      else match op
        case RegisterConnection(_) => NO_GROUPS
        case UnregisterConnection(_) => NO_GROUPS
        case SubscribeTag(_, t) => WithDirect(GroupsOf(s, c), t, cfg.limit)
        case UnsubscribeTag(_, t) => WithoutDirect(GroupsOf(s, c), t)
        case SubscribeTopic(_, topic, resolved) => WithTopic(GroupsOf(s, c), topic, resolved, cfg.limit)
        case UnsubscribeTopic(_, topic) => WithoutTopic(GroupsOf(s, c), topic)
        case ReconcileLostTopic(_, topic) => WithoutTopic(GroupsOf(s, c), topic)
        case _ => GroupsOf(s, c)
  {
    assert WithoutDirect(NO_GROUPS, if op.UnsubscribeTag? then op.t else NIL_UUID) == NO_GROUPS;
    assert WithoutTopic(NO_GROUPS, if op.UnsubscribeTopic? || op.ReconcileLostTopic? then op.topic else "") == NO_GROUPS;
    hide ExceedsLimit, Incremented, Decremented, UnlinkAll, LinkAll, ForgetUser;
    hide WithDirect, WithTopic, WithoutDirect, WithoutTopic, Retarget, Keeps, DeletesTag;
  }

  lemma DeletionFor(s: State, t: Uuid, r: State, c: Connection)
    requires IndexesAgree(s) && DeletesTag(s, t, r)
    ensures GroupsOf(r, c) == if t != NIL_UUID && Linked(s.subscriptions, t, c) then Deleted(GroupsOf(s, c), t) else GroupsOf(s, c)
  {
    if t != NIL_UUID {
      DeleteTagForAll(s, t, r);
      SubscribersKnown(s, t);
      hide IndexesAgree, DeletesTag, Deleted;
      assert c in Lookup(s.subscriptions, t) <==> Linked(s.subscriptions, t, c);
    }
  }

  lemma ReconciledFor(cfg: Config, s: State, op: Op, r: State, c: Connection)
    requires Next(cfg, s, op, r) && op.ReconcileTopic?
    ensures DirectTags(r, c) == DirectTags(s, c)
    ensures TopicMembers(r, c) ==
      if op.c == c && op.topic in TopicMembers(s, c) then TopicMembers(s, c)[op.topic := op.members] else TopicMembers(s, c)
  {
    hide Incremented, Decremented, UnlinkAll, LinkAll;
    if op.topic in GroupsOf(s, op.c).groupedTopics {
      var kept :| Keeps(cfg.limit, GroupsOf(s, op.c), op.topic, op.members, kept) && r == Retarget(s, op.c, op.topic, op.members, kept);
    }
  }

  lemma TopicsSpareDirect(cfg: Config, s: State, op: Op, c: Connection)
    ensures op.SubscribeTopic? ==> WithTopic(GroupsOf(s, c), op.topic, op.resolved, cfg.limit).directTags == DirectTags(s, c)
    ensures op.UnsubscribeTopic? || op.ReconcileLostTopic? ==> WithoutTopic(GroupsOf(s, c), op.topic).directTags == DirectTags(s, c)
  {
  }

  /** A direct tag is held from the subscription that fits the limit to the unsubscription, the deletion of the tag or the end of the
    * connection, whatever else happens. */
  lemma DirectTagsNext(cfg: Config, s: State, op: Op, r: State, c: Connection)
    requires Consistent(cfg, s) && Next(cfg, s, op, r)
    ensures var tags := DirectTags(s, c);
      DirectTags(r, c) ==
      match op
      case RegisterConnection(d) => if d == c then {} else tags
      case UnregisterConnection(d) => if d == c then {} else tags
      case SubscribeTag(d, t) => if d == c && Fits(cfg, s, c, [t]) then tags + {t} else tags
      case UnsubscribeTag(d, t) => if d == c then tags - {t} else tags
      case DeleteTag(t) => if t != NIL_UUID && Linked(s.subscriptions, t, c) then tags - {t} else tags
      case _ => tags
  {
    assert op.DeleteTag? ==> IndexesAgree(s) && DeletesTag(s, op.t, r);
    hide Next, Consistent, DeletesTag, Fits, ExceedsLimit, Incremented, Decremented, WithTopic, WithoutTopic;
    if op.ReconcileTopic? {
      ReconciledFor(cfg, s, op, r, c);
    } else if op.DeleteTag? {
      DeletionFor(s, op.t, r, c);
    } else {
      GroupsNext(cfg, s, op, r, c);
      TopicsSpareDirect(cfg, s, op, c);
      if op.SubscribeTag? {
        LimitsAlike(cfg, s, c, [op.t]);
      }
    }
  }

  // ---- topics --------------------------------------------------------------------------------------------------

  /** The topics without the tag, but for one that had no other. */
  function WithoutTag(topics: map<Topic, set<Uuid>>, t: Uuid): map<Topic, set<Uuid>> {
    map topic | topic in topics && topics[topic] != {t} :: topics[topic] - {t}
  }

  lemma EmptiedTopics(g: Groups, t: Uuid)
    ensures Deleted(g, t).groupedTopics == WithoutTag(g.groupedTopics, t)
  {
    forall topic | topic in g.groupedTopics
      ensures (t in g.groupedTopics[topic] ==> g.groupedTopics[topic] - {t} != {}) <==> g.groupedTopics[topic] != {t}
    {
      if t in g.groupedTopics[topic] && g.groupedTopics[topic] - {t} == {} {
        assert g.groupedTopics[topic] == {t};
      }
    }
  }

  /** What the section makes of the connection's topics. */
  function TopicsAfter(cfg: Config, s: State, op: Op, c: Connection): map<Topic, set<Uuid>> {
    var topics := TopicMembers(s, c);
    match op
    case RegisterConnection(d) => if d == c then map[] else topics
    case UnregisterConnection(d) => if d == c then map[] else topics
    case SubscribeTopic(d, topic, resolved) =>
      if d == c && topic !in topics && Fits(cfg, s, c, resolved) then topics[topic := set t | t in resolved] else topics
    case UnsubscribeTopic(d, topic) => if d == c then topics - {topic} else topics
    case ReconcileLostTopic(d, topic) => if d == c then topics - {topic} else topics
    case ReconcileTopic(d, topic, members) => if d == c && topic in topics then topics[topic := members] else topics
    case DeleteTag(t) => if t != NIL_UUID && Linked(s.subscriptions, t, c) then WithoutTag(topics, t) else topics
    case _ => topics
  }

  lemma RequestedTopics(cfg: Config, s: State, op: Op, r: State, c: Connection)
    requires Next(cfg, s, op, r) && !op.ReconcileTopic? && !op.DeleteTag?
    ensures TopicMembers(r, c) == TopicsAfter(cfg, s, op, c)
  {
    hide Next, Fits, ExceedsLimit, Incremented, Decremented;
    GroupsNext(cfg, s, op, r, c);
    if op.SubscribeTopic? {
      LimitsAlike(cfg, s, c, op.resolved);
    }
  }

  /** A topic is joined with what it was resolved to, as a whole or not at all; it follows every reconciliation, loses a deleted tag, and is
    * left on request, when it no longer resolves, when the deletion of its last tag empties it, and with the connection. */
  lemma TopicMembersNext(cfg: Config, s: State, op: Op, r: State, c: Connection)
    requires Consistent(cfg, s) && Next(cfg, s, op, r)
    ensures TopicMembers(r, c) == TopicsAfter(cfg, s, op, c)
  {
    if op.ReconcileTopic? {
      ReconciledFor(cfg, s, op, r, c);
    } else if op.DeleteTag? {
      DeletionFor(s, op.t, r, c);
      EmptiedTopics(GroupsOf(s, c), op.t);
    } else {
      RequestedTopics(cfg, s, op, r, c);
    }
    hide Next, Consistent, WithoutTag, Deleted;
  }

  /** A reconciliation that has to trim fills exactly the room that is left, with any of the topic's new tags. */
  lemma TrimFillsRoom(limit: int, g: Groups, topic: Topic, resolved: set<Uuid>, kept: set<Uuid>)
    requires topic in g.groupedTopics && TrimsAt(limit, g, topic, resolved)
    ensures Keeps(limit, g, topic, resolved, kept) <==>
      && |kept| == (if |g.tagRefs| < limit then limit - |g.tagRefs| else 0)
      && forall t :: t in kept ==> t in resolved && t !in g.groupedTopics[topic]
  {
  }

  // ---- with exact counts -----------------------------------------------------------------------------------------

  /** As long as counts are exact, a connection is sent exactly the tags that it has subscribed to directly or through a topic. */
  lemma SentIffAskedFor(s: State, c: Connection, t: Uuid)
    requires IndexesAgree(s) && Exact(s) && t != NIL_UUID
    ensures Linked(s.subscriptions, t, c)
      <==> t in DirectTags(s, c) || exists topic :: topic in TopicMembers(s, c) && t in TopicMembers(s, c)[topic]
  {
    var g := GroupsOf(s, c);
    assert Linked(s.subscriptions, t, c) <==> t in Refs(s.connectionGroups, c);
    if c in s.connectionGroups {
      assert ExactGroups(g) && RefCount(g.tagRefs, t) == Owed(g, t);
      if t in g.tagRefs && t !in g.directTags {
        assert Holders(g, t) != {};
        var topic :| topic in Holders(g, t);
        assert topic in TopicMembers(s, c) && t in TopicMembers(s, c)[topic];
      }
      if topic :| topic in g.groupedTopics && t in g.groupedTopics[topic] {
        assert topic in Holders(g, t);
      }
    }
  }

  // ---- every section can run ---------------------------------------------------------------------------------

  /** A connection is told of alarms from the moment it asks until it takes that back or is unregistered. */
  lemma AlarmsNext(cfg: Config, s: State, op: Op, r: State, c: Connection)
    requires Next(cfg, s, op, r) && IndexesAgree(s)
    ensures c in r.alarmsSubscribers
      <==> op == SubscribeAlarms(c) || (c in s.alarmsSubscribers && op != UnsubscribeAlarms(c) && op != UnregisterConnection(c))
  {
    if op.DeleteTag? && op.t != NIL_UUID {
      DeleteTagForAll(s, op.t, r);
      hide Next, IndexesAgree;
    } else {
      hide IndexesAgree, Keeps, DeletesTag;
    }
  }

  lemma {:induction false} PartOf(items: set<Uuid>, n: nat) returns (part: set<Uuid>)
    requires n <= |items|
    ensures part <= items && |part| == n
  {
    part := {};
    if n > 0 {
      var x :| x in items;
      var rest := PartOf(items - {x}, n - 1);
      part := {x} + rest;
    }
  }

  /** No section ever has to wait: whatever is asked of the hub, one of its steps does it, and registering only of a connection that holds
    * nothing yet. */
  lemma EverySectionRuns(cfg: Config, s: State, op: Op) returns (r: State)
    requires op.RegisterConnection? ==> GroupsOf(s, op.c).tagRefs == map[] && GroupsOf(s, op.c).groupedTopics == map[]
    ensures Next(cfg, s, op, r)
  {
    match op
    case RegisterConnection(c) => r := Register(s, c, cfg.subject(c), cfg.maxPerUser);
    case UnregisterConnection(c) => r := Unregister(s, c, cfg.subject(c));
    case SubscribeAlarms(c) => r := s.(alarmsSubscribers := s.alarmsSubscribers + {c});
    case UnsubscribeAlarms(c) => r := s.(alarmsSubscribers := s.alarmsSubscribers - {c});
    case SubscribeTag(c, t) => r := SubscribeDirect(s, c, t, cfg.limit);
    case UnsubscribeTag(c, t) => r := UnsubscribeDirect(s, c, t);
    case SubscribeTopic(c, topic, resolved) => r := CommitGroup(s, c, topic, resolved, cfg.limit);
    case UnsubscribeTopic(c, topic) => r := LeaveGroup(s, c, topic);
    case ReconcileTopic(c, topic, resolved) =>
      r := s;
      if topic in GroupsOf(s, c).groupedTopics {
        var kept := Kept(cfg.limit, GroupsOf(s, c), topic, resolved);
        r := Retarget(s, c, topic, resolved, kept);
      }
    case ReconcileLostTopic(c, topic) => r := LeaveGroup(s, c, topic);
    case DeleteTag(t) =>
      r := s;
      if t != NIL_UUID {
        var cs := ElementsOf(Lookup(s.subscriptions, t));
        r := DeleteTagFor(s, t, cs);
      }
  }

  lemma Kept(limit: int, g: Groups, topic: Topic, resolved: set<Uuid>) returns (kept: set<Uuid>)
    requires topic in g.groupedTopics
    ensures Keeps(limit, g, topic, resolved, kept)
  {
    kept := NewMembers(g, topic, resolved);
    if TrimsAt(limit, g, topic, resolved) {
      kept := PartOf(Unreferenced(g.tagRefs, kept), Available(limit, g.tagRefs));
    }
  }
}
