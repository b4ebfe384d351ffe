/** The realtime hub itself: six maps updated in place, every method proved against the model. */
module Hub {
  import opened Common
  import opened SetIndex
  import opened Uuids
  import opened HubModel
  import opened HubInvariants
  import opened HubCounts

  lemma KnownConnection(s: State, c: Connection)
    requires IndexesAgree(s)
    ensures c in s.connectionGroups <==> c in s.connectionSubscriptions
    ensures c in s.connectionGroups ==> s.connectionSubscriptions[c] == s.connectionGroups[c].tagRefs.Keys
    ensures Positive(GroupsOf(s, c).tagRefs)
    ensures NoEmptySet(s.subscriptions) && NoEmptySet(s.groupTopicSubscribers)
  {
  }

  lemma BecameTwice(s: State, r1: State, r2: State, c: Connection, g1: Groups, g2: Groups)
    requires Became(s, r1, c, g1) && Became(r1, r2, c, g2)
    ensures Became(s, r2, c, g2)
  {
  }

  lemma BecameRecord(s: State, r: State, c: Connection, g: Groups)
    requires Became(s, r, c, g)
    ensures IndexesAgree(r) && c in r.connectionGroups && r.connectionGroups[c] == g
    ensures r.connectionGroups == s.connectionGroups[c := g]
  {
  }

  lemma BecameSame(s: State, c: Connection)
    requires IndexesAgree(s) && c in s.connectionGroups
    ensures Became(s, s, c, s.connectionGroups[c])
  {
  }

  /** Only c's record changed, to g, and the indexes agree with it. */
  ghost predicate Became(s: State, r: State, c: Connection, g: Groups) {
    && IndexesAgree(r)
    && r.connectionGroups == s.connectionGroups[c := g]
    && r.alarmsSubscribers == s.alarmsSubscribers
    && r.connectionsByUser == s.connectionsByUser
  }

  /** A consistent hub is known from its records, so an update in place can be compared with the model record by record. */
  lemma IsAdopt(s: State, r: State, c: Connection, g: Groups)
    requires IndexesAgree(s) && Became(s, r, c, g)
    ensures r == Adopt(s, c, g)
  {
    PositiveCounts(r, c);
    AdoptKeepsIndexes(s, c, g);
    IndexesDetermined(r, Adopt(s, c, g));
  }

  /** The tags a connection has come to hold, and those it holds no longer. */
  function Gained(before: State, after: State, c: Connection): set<Uuid> {
    GroupsOf(after, c).tagRefs.Keys - GroupsOf(before, c).tagRefs.Keys
  }

  function Lost(before: State, after: State, c: Connection): set<Uuid> {
    Gained(after, before, c)
  }

  lemma GainedAndLost(before: State, after: State, c: Connection, g: Groups, g': Groups)
    requires GroupsOf(before, c) == g && GroupsOf(after, c) == g'
    ensures Gained(before, after, c) == g'.tagRefs.Keys - g.tagRefs.Keys
    ensures Lost(before, after, c) == g.tagRefs.Keys - g'.tagRefs.Keys
    ensures g.tagRefs == g'.tagRefs ==> Gained(before, after, c) == ToSet([]) == Lost(before, after, c)
  {
  }

  lemma ReferencesGained(refs: map<Uuid, int>, tags: set<Uuid>)
    ensures Incremented(refs, tags).Keys - refs.Keys == tags - refs.Keys
    ensures refs.Keys - Incremented(refs, tags).Keys == {}
  {
  }

  lemma ReferencesLost(refs: map<Uuid, int>, tags: set<Uuid>)
    ensures refs.Keys - Decremented(refs, tags).Keys == Released(refs, tags)
    ensures Decremented(refs, tags).Keys - refs.Keys == {}
  {
  }

  lemma LeavingGainsNothing(s: State, c: Connection, topic: Topic)
    ensures Gained(s, LeaveGroup(s, c, topic), c) == {}
  {
  }

  /** Dropping and adding references to different tags. */
  lemma RetargetReferences(refs: map<Uuid, int>, removed: set<Uuid>, added: set<Uuid>)
    requires removed !! added
    ensures var dropped := Decremented(refs, removed);
      var raised := Incremented(dropped, added);
      && raised.Keys - refs.Keys == added - dropped.Keys
      && refs.Keys - raised.Keys == Released(refs, removed)
  {
  }

  lemma IncrementOneMore(refs: map<Uuid, int>, tags: set<Uuid>, t: Uuid)
    requires t !in tags
    ensures Incremented(refs, tags + {t}) == Incremented(refs, tags)[t := RefCount(Incremented(refs, tags), t) + 1]
  {
  }

  lemma IncrementedCount(refs: map<Uuid, int>, done: set<Uuid>, t: Uuid)
    requires t !in done
    ensures RefCount(Incremented(refs, done), t) == RefCount(refs, t)
    ensures t in Incremented(refs, done) <==> t in refs
  {
  }

  lemma IncrementNothing(s: State, c: Connection)
    requires IndexesAgree(s) && c in s.connectionGroups
    ensures Became(s, s, c, s.connectionGroups[c].(tagRefs := Incremented(s.connectionGroups[c].tagRefs, {})))
  {
    assert Incremented(s.connectionGroups[c].tagRefs, {}) == s.connectionGroups[c].tagRefs;
    assert s.connectionGroups[c := s.connectionGroups[c]] == s.connectionGroups;
  }

  /** One round of the increment loop when the tag is already counted. */
  lemma IncrementAgain(s0: State, s: State, c: Connection, g0: Groups, done: set<Uuid>, t: Uuid)
    requires Became(s0, s, c, g0.(tagRefs := Incremented(g0.tagRefs, done))) && t !in done && t in g0.tagRefs
    ensures c in s.connectionGroups && RefCount(s.connectionGroups[c].tagRefs, t) > 0
    ensures var g := s.connectionGroups[c];
      Became(s0, s.(connectionGroups := s.connectionGroups[c := g.(tagRefs := g.tagRefs[t := RefCount(g.tagRefs, t) + 1])]),
             c, g0.(tagRefs := Incremented(g0.tagRefs, done + {t})))
  {
    hide IndexesAgree, Incremented;
    IncrementOneMore(g0.tagRefs, done, t);
    IncrementedCount(g0.tagRefs, done, t);
    BecameRecord(s0, s, c, g0.(tagRefs := Incremented(g0.tagRefs, done)));
    KnownConnection(s, c);
    var g := s.connectionGroups[c];
    SameTags(s, c, g.(tagRefs := g.tagRefs[t := RefCount(g.tagRefs, t) + 1]));
  }

  /** One round of the increment loop when the tag is new: its two index entries come with it. */
  lemma IncrementFirst(s0: State, s: State, c: Connection, g0: Groups, done: set<Uuid>, t: Uuid)
    requires Became(s0, s, c, g0.(tagRefs := Incremented(g0.tagRefs, done))) && t !in done && t !in g0.tagRefs
    ensures c in s.connectionGroups && c in s.connectionSubscriptions && RefCount(s.connectionGroups[c].tagRefs, t) == 0
    ensures var g := s.connectionGroups[c];
      Became(s0, s.(connectionGroups := s.connectionGroups[c := g.(tagRefs := g.tagRefs[t := RefCount(g.tagRefs, t) + 1])],
                    connectionSubscriptions := s.connectionSubscriptions[c := s.connectionSubscriptions[c] + {t}],
                    subscriptions := Link(s.subscriptions, t, c)),
             c, g0.(tagRefs := Incremented(g0.tagRefs, done + {t})))
  {
    hide IndexesAgree, Incremented;
    IncrementOneMore(g0.tagRefs, done, t);
    IncrementedCount(g0.tagRefs, done, t);
    BecameRecord(s0, s, c, g0.(tagRefs := Incremented(g0.tagRefs, done)));
    KnownConnection(s, c);
    var g := s.connectionGroups[c];
    GainsTag(s, c, t, g.(tagRefs := g.tagRefs[t := RefCount(g.tagRefs, t) + 1]));
  }

  lemma DecrementOneMore(refs: map<Uuid, int>, tags: set<Uuid>, t: Uuid)
    requires t !in tags && Positive(refs)
    ensures var fewer := Decremented(refs, tags);
      Decremented(refs, tags + {t}) ==
        if RefCount(fewer, t) <= 0 then fewer
        else if fewer[t] > 1 then fewer[t := fewer[t] - 1]
        else fewer - {t}
  {
  }

  class Hub {
    var subscriptions: map<Uuid, set<Connection>>
    var connectionSubscriptions: map<Connection, set<Uuid>>
    var connectionGroups: map<Connection, Groups>
    var groupTopicSubscribers: map<Topic, set<Connection>>
    var alarmsSubscribers: set<Connection>
    var connectionsByUser: map<User, seq<Connection>>
    const maxSubscriptionsPerConn: int
    const maxConnectionsPerUser: int

    ghost function Value(): State
      reads this
    {
      State(subscriptions, connectionSubscriptions, connectionGroups, groupTopicSubscribers, alarmsSubscribers, connectionsByUser)
    }

    ghost predicate Valid()
      reads this
    {
      IndexesAgree(Value())
    }

    constructor (maxSubscriptionsPerConn: int, maxConnectionsPerUser: int)
      ensures Valid() && Value() == EMPTY_HUB
      ensures this.maxSubscriptionsPerConn == maxSubscriptionsPerConn
      ensures this.maxConnectionsPerUser == maxConnectionsPerUser
    {
      subscriptions, connectionSubscriptions, connectionGroups := map[], map[], map[];
      groupTopicSubscribers, alarmsSubscribers, connectionsByUser := map[], {}, map[];
      this.maxSubscriptionsPerConn, this.maxConnectionsPerUser := maxSubscriptionsPerConn, maxConnectionsPerUser;
    }

    /** Registers a new connection; returns the user's oldest one when the user now has too many. */
    method RegisterConnection(connection: Connection, principalSubject: User) returns (displaced: Option<Connection>)
      requires Valid()
      modifies this
      ensures Value() == Register(old(Value()), connection, principalSubject, maxConnectionsPerUser)
      ensures Valid() <==> old(GroupsOf(Value(), connection).tagRefs == map[] && GroupsOf(Value(), connection).groupedTopics == map[])
      ensures displaced == Displaced(old(connectionsByUser), connection, principalSubject, maxConnectionsPerUser)
    {
      hide IndexesAgree;
      RegisterKeepsIndexes(Value(), connection, principalSubject, maxConnectionsPerUser);
      connectionSubscriptions := connectionSubscriptions[connection := {}];
      connectionGroups := connectionGroups[connection := NO_GROUPS];
      if principalSubject == "" {
        return None;
      }
      var userConnections :=
        (if principalSubject in connectionsByUser then connectionsByUser[principalSubject] else []) + [connection];
      connectionsByUser := connectionsByUser[principalSubject := userConnections];
      if maxConnectionsPerUser > 0 && |userConnections| > maxConnectionsPerUser {
        var oldest := userConnections[0];
        connectionsByUser := connectionsByUser[principalSubject := userConnections[1..]];
        return Some(oldest);
      }
      return None;
    }

    /** Counts the candidates without a reference, list entry by list entry. */
    method ExceedsSubscriptionLimit(groups: Groups, candidateTagIDs: seq<Uuid>) returns (exceeds: bool)
      ensures exceeds == ExceedsLimit(maxSubscriptionsPerConn, groups.tagRefs, candidateTagIDs)
    {
      if maxSubscriptionsPerConn <= 0 {
        return false;
      }
      var uniqueToAdd := 0;
      for i := 0 to |candidateTagIDs|
        invariant uniqueToAdd + CountNew(groups.tagRefs, candidateTagIDs[i..]) == CountNew(groups.tagRefs, candidateTagIDs)
      {
        assert candidateTagIDs[i..][1..] == candidateTagIDs[i + 1..];
        var tagID := candidateTagIDs[i];
        if tagID == NIL_UUID || RefCount(groups.tagRefs, tagID) > 0 {
          continue;
        }
        uniqueToAdd := uniqueToAdd + 1;
      }
      return |groups.tagRefs| + uniqueToAdd > maxSubscriptionsPerConn;
    }

    method EnsureConnectionGroups(connection: Connection) returns (groups: Groups)
      requires Valid()
      modifies this
      ensures Became(old(Value()), Value(), connection, old(GroupsOf(Value(), connection)))
      ensures connection in connectionGroups && groups == connectionGroups[connection]
    {
      if connection !in connectionGroups {
        connectionGroups := connectionGroups[connection := NO_GROUPS];
        WipeNothing(old(Value()), connection);
      }
      if connection !in connectionSubscriptions {
        connectionSubscriptions := connectionSubscriptions[connection := {}];
      }
      groups := connectionGroups[connection];
    }

    /** One more reference for each tag of the list; returns the tags that had none. */
    method IncrementTagRefs(connection: Connection, tagIDs: seq<Uuid>) returns (added: seq<Uuid>)
      requires Valid() && connection in connectionGroups
      modifies this
      ensures Became(old(Value()), Value(), connection, old(connectionGroups[connection])
                .(tagRefs := Incremented(old(connectionGroups[connection]).tagRefs, ToSet(tagIDs) - {NIL_UUID})))
      ensures ToSet(added) == ToSet(tagIDs) - {NIL_UUID} - old(connectionGroups[connection]).tagRefs.Keys
    {
      hide IndexesAgree, Became, Incremented;
      added := [];
      var tags := UniqueUuids(tagIDs);
      ghost var g0 := connectionGroups[connection];
      ToSetEnds(tags);
      IncrementNothing(Value(), connection);
      for i := 0 to |tags|
        invariant Became(old(Value()), Value(), connection, g0.(tagRefs := Incremented(g0.tagRefs, ToSet(tags[..i]))))
        invariant ToSet(added) == ToSet(tags[..i]) - g0.tagRefs.Keys
      {
        var tagID := tags[i];
        ToSetPrefix(tags, i);
        if tagID in g0.tagRefs {
          IncrementAgain(old(Value()), Value(), connection, g0, ToSet(tags[..i]), tagID);
        } else {
          IncrementFirst(old(Value()), Value(), connection, g0, ToSet(tags[..i]), tagID);
        }
        var groups := connectionGroups[connection];
        var current := RefCount(groups.tagRefs, tagID);
        connectionGroups := connectionGroups[connection := groups.(tagRefs := groups.tagRefs[tagID := current + 1])];
        if current > 0 {
          continue;
        }
        connectionSubscriptions := connectionSubscriptions[connection := connectionSubscriptions[connection] + {tagID}];
        subscriptions := Link(subscriptions, tagID, connection);
        ToSetSnoc(added, tagID);
        added := added + [tagID];
      }
      ToSetEnds(tags);
    }

    /** One reference less for one tag; tells whether that was the last one. */
    method DecrementTagRefForSingle(connection: Connection, tagID: Uuid) returns (released: bool)
      requires Valid() && connection in connectionGroups
      modifies this
      ensures Became(old(Value()), Value(), connection, old(connectionGroups[connection])
                .(tagRefs := Decremented(old(connectionGroups[connection]).tagRefs, {tagID})))
      ensures released <==> tagID in Released(old(connectionGroups[connection]).tagRefs, {tagID})
    {
      hide IndexesAgree;
      ghost var before := Value();
      var groups := connectionGroups[connection];
      KnownConnection(before, connection);
      DecrementOneMore(groups.tagRefs, {}, tagID);
      assert Decremented(groups.tagRefs, {}) == groups.tagRefs && {} + {tagID} == {tagID};
      var current := RefCount(groups.tagRefs, tagID);
      if current <= 0 {
        return false;
      }
      if current > 1 {
        var fewer := groups.(tagRefs := groups.tagRefs[tagID := current - 1]);
        connectionGroups := connectionGroups[connection := fewer];
        SameTags(before, connection, fewer);
        return false;
      }
      var without := groups.(tagRefs := groups.tagRefs - {tagID});
      connectionGroups := connectionGroups[connection := without];
      connectionSubscriptions := connectionSubscriptions[connection := connectionSubscriptions[connection] - {tagID}];
      RemoveTagSubscription(connection, tagID);
      LosesTag(before, connection, tagID, without);
      return true;
    }

    method RemoveTagSubscription(connection: Connection, tagID: Uuid)
      modifies this`subscriptions
      ensures subscriptions == Unlink(old(subscriptions), tagID, connection)
    {
      if tagID !in subscriptions {
        return;
      }
      subscriptions := subscriptions[tagID := subscriptions[tagID] - {connection}];
      if subscriptions[tagID] == {} {
        subscriptions := subscriptions - {tagID};
      }
    }

    method RemoveGroupTopicSubscriber(topic: Topic, connection: Connection)
      modifies this`groupTopicSubscribers
      ensures groupTopicSubscribers == Unlink(old(groupTopicSubscribers), topic, connection)
    {
      if topic !in groupTopicSubscribers {
        return;
      }
      groupTopicSubscribers := groupTopicSubscribers[topic := groupTopicSubscribers[topic] - {connection}];
      if groupTopicSubscribers[topic] == {} {
        groupTopicSubscribers := groupTopicSubscribers - {topic};
      }
    }

    /** One reference less for each tag of the list; returns the tags that lost their last one. */
    method DecrementTagRefs(connection: Connection, tagIDs: seq<Uuid>) returns (removed: seq<Uuid>)
      requires Valid() && connection in connectionGroups
      modifies this
      ensures Became(old(Value()), Value(), connection, old(connectionGroups[connection])
                .(tagRefs := Decremented(old(connectionGroups[connection]).tagRefs, ToSet(tagIDs) - {NIL_UUID})))
      ensures ToSet(removed) == Released(old(connectionGroups[connection]).tagRefs, ToSet(tagIDs) - {NIL_UUID})
    {
      hide IndexesAgree, Decremented, Released, Became;
      removed := [];
      var tags := UniqueUuids(tagIDs);
      ghost var before := Value();
      ghost var g0 := connectionGroups[connection];
      KnownConnection(before, connection);
      ToSetEnds(tags);
      DecrementNothing(before, connection);
      for i := 0 to |tags|
        invariant Became(before, Value(), connection, g0.(tagRefs := Decremented(g0.tagRefs, ToSet(tags[..i]))))
        invariant ToSet(removed) == Released(g0.tagRefs, ToSet(tags[..i]))
      {
        var tagID := tags[i];
        ToSetPrefix(tags, i);
        ghost var earlier := Value();
        ghost var g := g0.(tagRefs := Decremented(g0.tagRefs, ToSet(tags[..i])));
        BecameRecord(before, earlier, connection, g);
        DecrementTwice(g0.tagRefs, ToSet(tags[..i]), tagID);
        var released := DecrementTagRefForSingle(connection, tagID);
        BecameTwice(before, earlier, Value(), connection, g, g.(tagRefs := Decremented(g.tagRefs, {tagID})));
        ToSetSnoc(removed, tagID);
        ReleasedOne(g.tagRefs, tagID);
        if released {
          removed := removed + [tagID];
        }
      }
      ToSetEnds(tags);
    }

    method SubscribeDirectTag(connection: Connection, tagID: Uuid) returns (added: seq<Uuid>, subscribed: bool, limited: bool)
      requires Valid()
      modifies this
      ensures Valid() && Value() == SubscribeDirect(old(Value()), connection, tagID, maxSubscriptionsPerConn)
      ensures limited == !subscribed
      ensures subscribed <==> tagID in GroupsOf(Value(), connection).directTags
      ensures ToSet(added) == Gained(old(Value()), Value(), connection)
    {
      hide IndexesAgree, Became, Adopt, Incremented, Decremented, Released;
      ghost var before := Value();
      var groups := EnsureConnectionGroups(connection);
      ghost var ensured := Value();
      BecameRecord(before, ensured, connection, groups);
      IsAdopt(before, ensured, connection, groups);
      if tagID in groups.directTags {
        return [], true, false;
      }
      var exceeds := ExceedsSubscriptionLimit(groups, [tagID]);
      if exceeds {
        return [], false, true;
      }
      var direct := groups.(directTags := groups.directTags + {tagID});
      KnownConnection(ensured, connection);
      SameTags(ensured, connection, direct);
      connectionGroups := connectionGroups[connection := direct];
      ghost var updated := Value();
      BecameRecord(ensured, updated, connection, direct);
      added := IncrementTagRefs(connection, [tagID]);
      ToSetSnoc([], tagID);
      assert ToSet([tagID]) == {tagID} by { assert [] + [tagID] == [tagID]; }
      ghost var final := WithDirect(groups, tagID, maxSubscriptionsPerConn);
      ReferencesGained(groups.tagRefs, {tagID} - {NIL_UUID});
      BecameTwice(ensured, updated, Value(), connection, direct, final);
      BecameTwice(before, ensured, Value(), connection, groups, final);
      IsAdopt(before, Value(), connection, final);
      BecameRecord(before, Value(), connection, final);
      return added, true, false;
    }

    /** The commit of a group subscription, after its topic was resolved outside the lock. */
    method CommitGroupTopic(connection: Connection, normalizedTopic: Topic, tagIDs: seq<Uuid>)
      returns (added: seq<Uuid>, subscribed: bool, limitExceeded: bool)
      requires Valid()
      modifies this
      ensures Valid() && Value() == CommitGroup(old(Value()), connection, normalizedTopic, tagIDs, maxSubscriptionsPerConn)
      ensures limitExceeded == !subscribed
      ensures subscribed <==> normalizedTopic in GroupsOf(Value(), connection).groupedTopics
      ensures ToSet(added) == Gained(old(Value()), Value(), connection)
    {
      hide IndexesAgree, Became, Adopt, Incremented, Decremented, Released, CountNew, Link, Gained, ExceedsLimit;
      ghost var before := Value();
      var groups := EnsureConnectionGroups(connection);
      ghost var ensured := Value();
      BecameRecord(before, ensured, connection, groups);
      IsAdopt(before, ensured, connection, groups);
      GainedAndLost(before, ensured, connection, groups, groups);
      if normalizedTopic in groups.groupedTopics {
        return [], true, false;
      }
      var exceeds := ExceedsSubscriptionLimit(groups, tagIDs);
      if exceeds {
        return [], false, true;
      }
      var joined := groups.(groupedTopics := groups.groupedTopics[normalizedTopic := ToSet(tagIDs)]);
      GainsTopic(ensured, connection, normalizedTopic, joined);
      connectionGroups := connectionGroups[connection := joined];
      groupTopicSubscribers := Link(groupTopicSubscribers, normalizedTopic, connection);
      ghost var updated := Value();
      BecameRecord(ensured, updated, connection, joined);
      added := IncrementTagRefs(connection, tagIDs);
      ghost var final := WithTopic(groups, normalizedTopic, tagIDs, maxSubscriptionsPerConn);
      ReferencesGained(groups.tagRefs, ToSet(tagIDs) - {NIL_UUID});
      BecameTwice(ensured, updated, Value(), connection, joined, final);
      BecameTwice(before, ensured, Value(), connection, groups, final);
      IsAdopt(before, Value(), connection, final);
      BecameRecord(before, Value(), connection, final);
      GainedAndLost(before, Value(), connection, groups, final);
      return added, true, false;
    }

    method UnsubscribeDirectTag(connection: Connection, tagID: Uuid) returns (removed: seq<Uuid>, unsubscribed: bool)
      requires Valid()
      modifies this
      ensures Valid() && Value() == UnsubscribeDirect(old(Value()), connection, tagID)
      ensures unsubscribed <==> tagID in old(GroupsOf(Value(), connection)).directTags
      ensures ToSet(removed) == Lost(old(Value()), Value(), connection)
    {
      hide IndexesAgree, Became, Adopt, Incremented, Decremented, Released;
      ghost var before := Value();
      if connection !in connectionGroups {
        return [], false;
      }
      var groups := connectionGroups[connection];
      BecameSame(before, connection);
      IsAdopt(before, before, connection, groups);
      if tagID !in groups.directTags {
        return [], false;
      }
      var direct := groups.(directTags := groups.directTags - {tagID});
      KnownConnection(before, connection);
      SameTags(before, connection, direct);
      connectionGroups := connectionGroups[connection := direct];
      ghost var updated := Value();
      BecameRecord(before, updated, connection, direct);
      removed := DecrementTagRefs(connection, [tagID]);
      assert ToSet([tagID]) == {tagID} by { ToSetSnoc([], tagID); assert [] + [tagID] == [tagID]; }
      BecameTwice(before, updated, Value(), connection, direct, WithoutDirect(groups, tagID));
      IsAdopt(before, Value(), connection, WithoutDirect(groups, tagID));
      BecameRecord(before, Value(), connection, WithoutDirect(groups, tagID));
      ReferencesLost(groups.tagRefs, {tagID} - {NIL_UUID});
      return removed, true;
    }

    method UnsubscribeGroupTopic(connection: Connection, normalizedTopic: Topic) returns (removed: seq<Uuid>, unsubscribed: bool)
      requires Valid()
      modifies this
      ensures Valid() && Value() == LeaveGroup(old(Value()), connection, normalizedTopic)
      ensures unsubscribed <==> normalizedTopic in old(GroupsOf(Value(), connection)).groupedTopics
      ensures ToSet(removed) == Lost(old(Value()), Value(), connection)
    {
      hide IndexesAgree, Became, Adopt, Incremented, Decremented, Released;
      ghost var before := Value();
      if connection !in connectionGroups {
        return [], false;
      }
      var groups := connectionGroups[connection];
      BecameSame(before, connection);
      IsAdopt(before, before, connection, groups);
      if normalizedTopic !in groups.groupedTopics {
        return [], false;
      }
      var topicTags := groups.groupedTopics[normalizedTopic];
      var left := groups.(groupedTopics := groups.groupedTopics - {normalizedTopic});
      LosesTopic(before, connection, normalizedTopic, left);
      connectionGroups := connectionGroups[connection := left];
      RemoveGroupTopicSubscriber(normalizedTopic, connection);
      ghost var updated := Value();
      BecameRecord(before, updated, connection, left);
      var keys := Enumerate(topicTags);
      removed := DecrementTagRefs(connection, keys);
      BecameTwice(before, updated, Value(), connection, left, WithoutTopic(groups, normalizedTopic));
      IsAdopt(before, Value(), connection, WithoutTopic(groups, normalizedTopic));
      BecameRecord(before, Value(), connection, WithoutTopic(groups, normalizedTopic));
      ReferencesLost(groups.tagRefs, topicTags - {NIL_UUID});
      return removed, true;
    }

    /** Removes a connection from every index. */
    method UnregisterConnection(connection: Connection, principalSubject: User)
      requires Valid()
      modifies this
      ensures Valid() && Value() == Unregister(old(Value()), connection, principalSubject)
    {
      hide IndexesAgree, UnlinkAll, ForgetUser;
      ghost var before := Value();
      UnregisterKeepsIndexes(before, connection, principalSubject);
      KnownConnection(before, connection);
      if connection in connectionGroups {
        var groups := connectionGroups[connection];
        RemoveFromTopics(connection, groups.groupedTopics.Keys);
        RemoveFromTags(connection, groups.tagRefs.Keys);
      } else {
        assert NO_GROUPS.tagRefs.Keys == {} && NO_GROUPS.groupedTopics.Keys == {};
        UnlinkNothing(groupTopicSubscribers, connection);
        UnlinkNothing(subscriptions, connection);
      }
      connectionSubscriptions := connectionSubscriptions - {connection};
      connectionGroups := connectionGroups - {connection};
      alarmsSubscribers := alarmsSubscribers - {connection};
      ForgetUserConnection(connection, principalSubject);
      assert Value() == Unregister(before, connection, principalSubject);
    }

    method RemoveFromTopics(connection: Connection, topicSet: set<Topic>)
      requires NoEmptySet(groupTopicSubscribers)
      modifies this`groupTopicSubscribers
      ensures groupTopicSubscribers == UnlinkAll(old(groupTopicSubscribers), topicSet, connection)
    {
      var topics := Enumerate(topicSet);
      ToSetEnds(topics);
      UnlinkNothing(groupTopicSubscribers, connection);
      for i := 0 to |topics|
        invariant groupTopicSubscribers == UnlinkAll(old(groupTopicSubscribers), ToSet(topics[..i]), connection)
      {
        ToSetPrefix(topics, i);
        SingleKey(groupTopicSubscribers, topics[i], connection);
        UnlinkTwice(old(groupTopicSubscribers), ToSet(topics[..i]), {topics[i]}, connection);
        RemoveGroupTopicSubscriber(topics[i], connection);
      }
    }

    method RemoveFromTags(connection: Connection, tagSet: set<Uuid>)
      requires NoEmptySet(subscriptions)
      modifies this`subscriptions
      ensures subscriptions == UnlinkAll(old(subscriptions), tagSet, connection)
    {
      var tags := Enumerate(tagSet);
      ToSetEnds(tags);
      UnlinkNothing(subscriptions, connection);
      for i := 0 to |tags|
        invariant subscriptions == UnlinkAll(old(subscriptions), ToSet(tags[..i]), connection)
      {
        ToSetPrefix(tags, i);
        SingleKey(subscriptions, tags[i], connection);
        UnlinkTwice(old(subscriptions), ToSet(tags[..i]), {tags[i]}, connection);
        RemoveTagSubscription(connection, tags[i]);
      }
    }

    method AllBut(userConnections: seq<Connection>, connection: Connection) returns (filtered: seq<Connection>)
      ensures filtered == Without(userConnections, connection)
    {
      filtered := [];
      for i := 0 to |userConnections|
        invariant filtered == Without(userConnections[..i], connection)
      {
        assert userConnections[..i + 1][..i] == userConnections[..i];
        if userConnections[i] != connection {
          filtered := filtered + [userConnections[i]];
        }
      }
      assert userConnections[..|userConnections|] == userConnections;
    }

    method ForgetUserConnection(connection: Connection, principalSubject: User)
      modifies this`connectionsByUser
      ensures connectionsByUser == ForgetUser(old(connectionsByUser), connection, principalSubject)
    {
      if principalSubject == "" || principalSubject !in connectionsByUser {
        return;
      }
      var userConnections := connectionsByUser[principalSubject];
      if |userConnections| == 0 {
        return;
      }
      var filtered := AllBut(userConnections, connection);
      if |filtered| == 0 {
        connectionsByUser := connectionsByUser - {principalSubject};
      } else {
        connectionsByUser := connectionsByUser[principalSubject := filtered];
      }
    }

    /** Deletes a tag: all its owners go for every subscriber, and each subscriber drops one reference. */
    method UnsubscribeTagFromAll(tagID: Uuid)
      requires Valid()
      modifies this
      ensures Valid() && DeletesTag(old(Value()), tagID, Value())
    {
      hide IndexesAgree;
      ghost var before := Value();
      if tagID == NIL_UUID {
        return;
      }
      if tagID !in subscriptions {
        assert Visits(before, tagID, []) && DeleteTagFor(before, tagID, []) == before;
        return;
      }
      var connections := Enumerate(subscriptions[tagID]);
      SubscribersKnown(before, tagID);
      ToSetEnds(connections);
      assert DeletedFor(connectionGroups, tagID, {}) == connectionGroups;
      for i := 0 to |connections|
        invariant DeletedSoFar(before, tagID, ToSet(connections[..i]), Value())
      {
        var connection := connections[i];
        ToSetPrefix(connections, i);
        DeleteTagForNext(before, tagID, ToSet(connections[..i]), connection, Value());
        DeleteOwnersAndRef(connection, tagID);
      }
      ToSetEnds(connections);
      DeletedIsVisited(before, tagID, connections, Value());
    }

    /** The body of the deletion for one subscriber. */
    method DeleteOwnersAndRef(connection: Connection, tagID: Uuid)
      requires Valid() && connection in connectionGroups
      modifies this
      ensures Became(old(Value()), Value(), connection, Deleted(old(connectionGroups[connection]), tagID))
    {
      hide IndexesAgree, Became, Adopt, Decremented, Purged;
      ghost var before := Value();
      var groups := connectionGroups[connection];
      var direct := groups.(directTags := groups.directTags - {tagID});
      KnownConnection(before, connection);
      SameTags(before, connection, direct);
      connectionGroups := connectionGroups[connection := direct];
      BecameRecord(before, Value(), connection, direct);
      var topics := Enumerate(groups.groupedTopics.Keys);
      ToSetEnds(topics);
      PurgedNone(groups.groupedTopics, tagID);
      for i := 0 to |topics|
        invariant Became(before, Value(), connection, direct.(groupedTopics := Purged(groups.groupedTopics, tagID, ToSet(topics[..i]))))
      {
        var topic := topics[i];
        ToSetPrefix(topics, i);
        ghost var g := direct.(groupedTopics := Purged(groups.groupedTopics, tagID, ToSet(topics[..i])));
        ghost var earlier := Value();
        BecameRecord(before, earlier, connection, g);
        PurgedOneMore(groups.groupedTopics, tagID, ToSet(topics[..i]), topic);
        PurgeTopic(connection, topic, tagID);
        BecameTwice(before, earlier, Value(), connection, g, g.(groupedTopics := Purged(g.groupedTopics, tagID, {topic})));
      }
      ghost var purged := direct.(groupedTopics := Purged(groups.groupedTopics, tagID, ToSet(topics)));
      ghost var earlier := Value();
      BecameRecord(before, earlier, connection, purged);
      PurgedAll(groups, tagID);
      var released := DecrementTagRefForSingle(connection, tagID);
      BecameTwice(before, earlier, Value(), connection, purged, Deleted(groups, tagID));
    }

    /** Removes the tag from one of the connection's topics, and the topic when nothing is left of it. */
    method PurgeTopic(connection: Connection, topic: Topic, tagID: Uuid)
      requires Valid() && connection in connectionGroups && topic in connectionGroups[connection].groupedTopics
      modifies this
      ensures Became(old(Value()), Value(), connection, old(connectionGroups[connection])
                .(groupedTopics := Purged(old(connectionGroups[connection]).groupedTopics, tagID, {topic})))
    {
      hide IndexesAgree;
      ghost var before := Value();
      var groups := connectionGroups[connection];
      var topicTags := groups.groupedTopics[topic];
      KnownConnection(before, connection);
      if tagID !in topicTags {
        assert topicTags - {tagID} == topicTags;
        assert Purged(groups.groupedTopics, tagID, {topic}) == groups.groupedTopics;
        assert connectionGroups[connection := groups] == connectionGroups;
        return;
      }
      if topicTags - {tagID} == {} {
        var left := groups.(groupedTopics := groups.groupedTopics - {topic});
        assert Purged(groups.groupedTopics, tagID, {topic}) == groups.groupedTopics - {topic};
        connectionGroups := connectionGroups[connection := left];
        RemoveGroupTopicSubscriber(topic, connection);
        LosesTopic(before, connection, topic, left);
      } else {
        var smaller := groups.(groupedTopics := groups.groupedTopics[topic := topicTags - {tagID}]);
        assert Purged(groups.groupedTopics, tagID, {topic}) == groups.groupedTopics[topic := topicTags - {tagID}];
        connectionGroups := connectionGroups[connection := smaller];
        SameTopics(before, connection, smaller);
      }
    }

    /** Reconciliation of one subscriber with a topic's new membership, or with the topic's loss. */
    method ReconcileConnection(connection: Connection, normalizedTopic: Topic, resolved: Option<set<Uuid>>)
      returns (addedTagIDs: seq<Uuid>, removedTagIDs: seq<Uuid>, ghost kept: set<Uuid>)
      requires Valid()
      modifies this
      ensures Valid()
      ensures resolved.None? ==> Value() == LeaveGroup(old(Value()), connection, normalizedTopic)
      ensures resolved.Some? && normalizedTopic in old(GroupsOf(Value(), connection)).groupedTopics
        ==> Keeps(maxSubscriptionsPerConn, old(GroupsOf(Value(), connection)), normalizedTopic, resolved.value, kept)
      ensures resolved.Some? ==> Value() == Retarget(old(Value()), connection, normalizedTopic, resolved.value, kept)
      ensures ToSet(addedTagIDs) == Gained(old(Value()), Value(), connection)
      ensures ToSet(removedTagIDs) == Lost(old(Value()), Value(), connection)
    {
      hide IndexesAgree, Became, Adopt, Incremented, Decremented, Keeps, Released, Gained;
      addedTagIDs, removedTagIDs, kept := [], [], {};
      GainedAndLost(Value(), Value(), connection, GroupsOf(Value(), connection), GroupsOf(Value(), connection));
      if connection !in connectionGroups {
        return;
      }
      if resolved.None? {
        var unsubscribed;
        removedTagIDs, unsubscribed := UnsubscribeGroupTopic(connection, normalizedTopic);
        LeavingGainsNothing(old(Value()), connection, normalizedTopic);
        return;
      }
      var groups := connectionGroups[connection];
      if normalizedTopic !in groups.groupedTopics {
        return;
      }
      ghost var before := Value();
      var oldSet := groups.groupedTopics[normalizedTopic];
      var resolvedSet := resolved.value;
      var removed := Filter(oldSet, resolvedSet);
      var added;
      added := NewTagsWithinLimit(groups, normalizedTopic, resolvedSet);
      kept := ToSet(added);
      removedTagIDs := DecrementTagRefs(connection, removed);
      ghost var dropped := groups.(tagRefs := Decremented(groups.tagRefs, ToSet(removed) - {NIL_UUID}));
      ghost var middle := Value();
      BecameRecord(before, middle, connection, dropped);
      addedTagIDs := IncrementTagRefs(connection, added);
      ghost var counted := Value();
      ghost var raised := dropped.(tagRefs := Incremented(dropped.tagRefs, ToSet(added) - {NIL_UUID}));
      BecameRecord(middle, counted, connection, raised);
      var current := connectionGroups[connection];
      var retargeted := current.(groupedTopics := current.groupedTopics[normalizedTopic := resolvedSet]);
      SameTopics(counted, connection, retargeted);
      connectionGroups := connectionGroups[connection := retargeted];
      BecameTwice(before, middle, counted, connection, dropped, raised);
      BecameTwice(before, counted, Value(), connection, raised, retargeted);
      IsAdopt(before, Value(), connection, retargeted);
      BecameRecord(before, Value(), connection, retargeted);
      GainedAndLost(before, Value(), connection, groups, retargeted);
      RetargetReferences(groups.tagRefs, ToSet(removed) - {NIL_UUID}, ToSet(added) - {NIL_UUID});
    }

    /** The new tags of the topic, cut down to the room the connection has left when they do not all fit. */
    method NewTagsWithinLimit(groups: Groups, topic: Topic, resolvedSet: set<Uuid>) returns (added: seq<Uuid>)
      requires topic in groups.groupedTopics
      ensures Keeps(maxSubscriptionsPerConn, groups, topic, resolvedSet, ToSet(added))
      ensures ToSet(added) <= resolvedSet - groups.groupedTopics[topic]
    {
      added := Filter(resolvedSet, groups.groupedTopics[topic]);
      var exceeds := ExceedsSubscriptionLimit(groups, added);
      NewTagsCountedExactly(groups.tagRefs, added);
      if exceeds {
        var available := maxSubscriptionsPerConn - |groups.tagRefs|;
        if available < 0 {
          available := 0;
        }
        EnoughToTrim(groups, topic, resolvedSet, maxSubscriptionsPerConn, added, available);
        added := added[..available];
      }
    }

    /** The members of one set that are missing from the other, in some order. */
    method Filter(from: set<Uuid>, other: set<Uuid>) returns (list: seq<Uuid>)
      ensures NoDuplicates(list) && ToSet(list) == from - other
    {
      var all := Enumerate(from);
      list := [];
      for i := 0 to |all|
        invariant NoDuplicates(list) && ToSet(list) == ToSet(all[..i]) - other
      {
        ToSetPrefix(all, i);
        if all[i] in other {
          continue;
        }
        ToSetSnoc(list, all[i]);
        list := list + [all[i]];
      }
      ToSetEnds(all);
    }

    method SubscribeToAlarms(connection: Connection)
      modifies this`alarmsSubscribers
      ensures Value() == old(Value()).(alarmsSubscribers := old(alarmsSubscribers) + {connection})
    {
      alarmsSubscribers := alarmsSubscribers + {connection};
    }

    method UnsubscribeFromAlarms(connection: Connection) returns (unsubscribed: bool)
      modifies this`alarmsSubscribers
      ensures Value() == old(Value()).(alarmsSubscribers := old(alarmsSubscribers) - {connection})
      ensures unsubscribed == (connection in old(alarmsSubscribers))
    {
      unsubscribed := connection in alarmsSubscribers;
      if unsubscribed {
        alarmsSubscribers := alarmsSubscribers - {connection};
      }
    }
  }

  lemma SameTags(s: State, c: Connection, g: Groups)
    requires IndexesAgree(s) && c in s.connectionGroups && Positive(g.tagRefs)
    requires g.tagRefs.Keys == s.connectionGroups[c].tagRefs.Keys && g.groupedTopics == s.connectionGroups[c].groupedTopics
    ensures Became(s, s.(connectionGroups := s.connectionGroups[c := g]), c, g)
  {
    var after := s.connectionGroups[c := g];
    forall t, d ensures Linked(s.subscriptions, t, d) <==> t in Refs(after, d) {
      assert Linked(s.subscriptions, t, d) <==> t in Refs(s.connectionGroups, d);
    }
    forall t, d ensures Linked(s.groupTopicSubscribers, t, d) <==> t in Topics(after, d) {
      assert Linked(s.groupTopicSubscribers, t, d) <==> t in Topics(s.connectionGroups, d);
    }
  }

  lemma GainsTag(s: State, c: Connection, t: Uuid, g: Groups)
    requires IndexesAgree(s) && c in s.connectionGroups && Positive(g.tagRefs)
    requires g.tagRefs.Keys == s.connectionGroups[c].tagRefs.Keys + {t} && g.groupedTopics == s.connectionGroups[c].groupedTopics
    ensures Became(s, s.(connectionGroups := s.connectionGroups[c := g],
      connectionSubscriptions := s.connectionSubscriptions[c := s.connectionSubscriptions[c] + {t}],
      subscriptions := Link(s.subscriptions, t, c)), c, g)
  {
    SingleKey(s.subscriptions, t, c);
    TagIndexGrows(s.subscriptions, s.connectionGroups, c, g, {t});
    hide TagIndex, Link, LinkAll;
    SameTopicIndex(s, c, g);
  }

  lemma LosesTag(s: State, c: Connection, t: Uuid, g: Groups)
    requires IndexesAgree(s) && c in s.connectionGroups && Positive(g.tagRefs)
    requires g.tagRefs.Keys == s.connectionGroups[c].tagRefs.Keys - {t} && g.groupedTopics == s.connectionGroups[c].groupedTopics
    ensures Became(s, s.(connectionGroups := s.connectionGroups[c := g],
      connectionSubscriptions := s.connectionSubscriptions[c := s.connectionSubscriptions[c] - {t}],
      subscriptions := Unlink(s.subscriptions, t, c)), c, g)
  {
    SingleKey(s.subscriptions, t, c);
    TagIndexShrinks(s.subscriptions, s.connectionGroups, c, g, {t});
    SameTopicIndex(s, c, g);
  }

  lemma SameTopicIndex(s: State, c: Connection, g: Groups)
    requires IndexesAgree(s) && c in s.connectionGroups
    requires g.groupedTopics.Keys == s.connectionGroups[c].groupedTopics.Keys
    ensures TopicIndex(s.groupTopicSubscribers, s.connectionGroups[c := g])
  {
  }

  lemma SameTagIndex(s: State, c: Connection, g: Groups)
    requires IndexesAgree(s) && c in s.connectionGroups
    requires g.tagRefs.Keys == s.connectionGroups[c].tagRefs.Keys
    ensures TagIndex(s.subscriptions, s.connectionGroups[c := g])
  {
  }

  lemma SameTopics(s: State, c: Connection, g: Groups)
    requires IndexesAgree(s) && c in s.connectionGroups
    requires g.tagRefs == s.connectionGroups[c].tagRefs && g.groupedTopics.Keys == s.connectionGroups[c].groupedTopics.Keys
    ensures Became(s, s.(connectionGroups := s.connectionGroups[c := g]), c, g)
  {
    SameTagIndex(s, c, g);
    SameTopicIndex(s, c, g);
  }

  lemma GainsTopic(s: State, c: Connection, topic: Topic, g: Groups)
    requires IndexesAgree(s) && c in s.connectionGroups
    requires g.tagRefs == s.connectionGroups[c].tagRefs
    requires g.groupedTopics.Keys == s.connectionGroups[c].groupedTopics.Keys + {topic}
    ensures Became(s, s.(connectionGroups := s.connectionGroups[c := g],
      groupTopicSubscribers := Link(s.groupTopicSubscribers, topic, c)), c, g)
  {
    SingleKey(s.groupTopicSubscribers, topic, c);
    TopicIndexGrows(s.groupTopicSubscribers, s.connectionGroups, c, g, {topic});
    SameTagIndex(s, c, g);
  }

  lemma LosesTopic(s: State, c: Connection, topic: Topic, g: Groups)
    requires IndexesAgree(s) && c in s.connectionGroups
    requires g.tagRefs == s.connectionGroups[c].tagRefs
    requires g.groupedTopics.Keys == s.connectionGroups[c].groupedTopics.Keys - {topic}
    ensures Became(s, s.(connectionGroups := s.connectionGroups[c := g],
      groupTopicSubscribers := Unlink(s.groupTopicSubscribers, topic, c)), c, g)
  {
    SingleKey(s.groupTopicSubscribers, topic, c);
    TopicIndexShrinks(s.groupTopicSubscribers, s.connectionGroups, c, g, {topic});
    SameTagIndex(s, c, g);
  }

  lemma UnlinkNothing<K>(index: map<K, set<Connection>>, c: Connection)
    requires NoEmptySet(index)
    ensures UnlinkAll(index, {}, c) == index
  {
  }

  lemma DecrementNothing(s: State, c: Connection)
    requires IndexesAgree(s) && c in s.connectionGroups
    ensures Became(s, s, c, s.connectionGroups[c].(tagRefs := Decremented(s.connectionGroups[c].tagRefs, {})))
    ensures Released(s.connectionGroups[c].tagRefs, {}) == {}
  {
    assert Decremented(s.connectionGroups[c].tagRefs, {}) == s.connectionGroups[c].tagRefs;
    assert s.connectionGroups[c := s.connectionGroups[c]] == s.connectionGroups;
  }

  lemma ReleasedOne(refs: map<Uuid, int>, t: Uuid)
    ensures Released(refs, {t}) == if t in Released(refs, {t}) then {t} else {}
  {
  }

  lemma DecrementTwice(refs: map<Uuid, int>, tags: set<Uuid>, t: Uuid)
    requires t !in tags && Positive(refs)
    ensures Positive(Decremented(refs, tags))
    ensures Decremented(Decremented(refs, tags), {t}) == Decremented(refs, tags + {t})
    ensures Released(refs, tags + {t}) == Released(refs, tags) + Released(Decremented(refs, tags), {t})
  {
  }

  /** The topics of a record once tag t has been taken out of those visited. */
  function Purged(grouped: map<Topic, set<Uuid>>, t: Uuid, visited: set<Topic>): map<Topic, set<Uuid>> {
    map topic | topic in grouped && (topic in visited && t in grouped[topic] ==> grouped[topic] - {t} != {})
      :: if topic in visited then grouped[topic] - {t} else grouped[topic]
  }

  lemma PurgedNone(grouped: map<Topic, set<Uuid>>, t: Uuid)
    ensures Purged(grouped, t, {}) == grouped
  {
  }

  lemma PurgedOneMore(grouped: map<Topic, set<Uuid>>, t: Uuid, visited: set<Topic>, topic: Topic)
    requires topic in grouped && topic !in visited
    ensures topic in Purged(grouped, t, visited)
    ensures Purged(Purged(grouped, t, visited), t, {topic}) == Purged(grouped, t, visited + {topic})
  {
  }

  lemma PurgedAll(g: Groups, t: Uuid)
    ensures Purged(g.groupedTopics, t, g.groupedTopics.Keys) == Deleted(g, t).groupedTopics
  {
  }

  /** When the limit is exceeded, the new tags outnumber the room that is left. */
  lemma EnoughToTrim(g: Groups, topic: Topic, resolved: set<Uuid>, limit: int, added: seq<Uuid>, available: nat)
    requires topic in g.groupedTopics && NoDuplicates(added) && ToSet(added) == NewMembers(g, topic, resolved)
    requires available == Available(limit, g.tagRefs)
    requires ExceedsLimit(limit, g.tagRefs, added)
    ensures TrimsAt(limit, g, topic, resolved)
    ensures available <= |added| && ToSet(added[..available]) <= ToSet(added) && |ToSet(added[..available])| == available
  {
    NewTagsCountedExactly(g.tagRefs, added);
    SetOfList(added);
    SubsetSize(Unreferenced(g.tagRefs, ToSet(added)), ToSet(added));
    SetOfList(added[..available]);
  }

  lemma {:induction false} SetOfList(xs: seq<Uuid>)
    requires NoDuplicates(xs)
    ensures |ToSet(xs)| == |xs|
  {
    if xs != [] {
      var front, last := xs[..|xs| - 1], xs[|xs| - 1];
      SetOfList(front);
      assert xs == front + [last];
      assert ToSet(xs) == ToSet(front) + {last} && last !in ToSet(front);
    }
  }
}
