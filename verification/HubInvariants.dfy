/** The four indexes of the hub tell one story in every reachable state. */
module HubInvariants {
  import opened Common
  import opened SetIndex
  import opened Uuids
  import opened HubModel

  type AllGroups = map<Connection, Groups>

  function Refs(groups: AllGroups, c: Connection): map<Uuid, int> {
    if c in groups then groups[c].tagRefs else map[]
  }

  function Topics(groups: AllGroups, c: Connection): map<Topic, set<Uuid>> {
    if c in groups then groups[c].groupedTopics else map[]
  }

  /** c is a subscriber of t exactly when c holds a reference to t; no empty subscriber set is stored. */
  ghost predicate TagIndex(subscriptions: map<Uuid, set<Connection>>, groups: AllGroups) {
    && (forall t, c :: Linked(subscriptions, t, c) <==> t in Refs(groups, c))
    && NoEmptySet(subscriptions)
  }

  /** c is a subscriber of topic g exactly when g is one of c's topics; no empty subscriber set is stored. */
  ghost predicate TopicIndex(subscribers: map<Topic, set<Connection>>, groups: AllGroups) {
    && (forall g, c :: Linked(subscribers, g, c) <==> g in Topics(groups, c))
    && NoEmptySet(subscribers)
  }

  /** Every known connection's subscription set is the set of tags it counts, and every count is positive. */
  ghost predicate OwnIndex(own: map<Connection, set<Uuid>>, groups: AllGroups) {
    && own.Keys == groups.Keys
    && (forall c :: c in groups ==> own[c] == groups[c].tagRefs.Keys)
    && (forall c, t :: c in groups && t in groups[c].tagRefs ==> groups[c].tagRefs[t] >= 1)
  }

  ghost predicate IndexesAgree(s: State) {
    && OwnIndex(s.connectionSubscriptions, s.connectionGroups)
    && TagIndex(s.subscriptions, s.connectionGroups)
    && TopicIndex(s.groupTopicSubscribers, s.connectionGroups)
  }

  // ---- how one connection's change moves each index -------------------------------------------

  lemma TagIndexGrows(subs: map<Uuid, set<Connection>>, groups: AllGroups, c: Connection, g: Groups, added: set<Uuid>)
    requires TagIndex(subs, groups)
    requires g.tagRefs.Keys == Refs(groups, c).Keys + added
    ensures TagIndex(LinkAll(subs, added, c), groups[c := g])
  {
    LinkAllLinks(subs, added, c);
    var after := groups[c := g];
    forall t, d ensures Linked(LinkAll(subs, added, c), t, d) <==> t in Refs(after, d) {
      assert Linked(subs, t, d) <==> t in Refs(groups, d);
    }
  }

  lemma TagIndexShrinks(subs: map<Uuid, set<Connection>>, groups: AllGroups, c: Connection, g: Groups, removed: set<Uuid>)
    requires TagIndex(subs, groups)
    requires g.tagRefs.Keys == Refs(groups, c).Keys - removed
    ensures TagIndex(UnlinkAll(subs, removed, c), groups[c := g])
  {
    UnlinkAllLinks(subs, removed, c);
    var after := groups[c := g];
    forall t, d ensures Linked(UnlinkAll(subs, removed, c), t, d) <==> t in Refs(after, d) {
      assert Linked(subs, t, d) <==> t in Refs(groups, d);
    }
  }

  lemma TopicIndexGrows(subs: map<Topic, set<Connection>>, groups: AllGroups, c: Connection, g: Groups, added: set<Topic>)
    requires TopicIndex(subs, groups)
    requires g.groupedTopics.Keys == Topics(groups, c).Keys + added
    ensures TopicIndex(LinkAll(subs, added, c), groups[c := g])
  {
    LinkAllLinks(subs, added, c);
    var after := groups[c := g];
    forall t, d ensures Linked(LinkAll(subs, added, c), t, d) <==> t in Topics(after, d) {
      assert Linked(subs, t, d) <==> t in Topics(groups, d);
    }
  }

  lemma TopicIndexShrinks(subs: map<Topic, set<Connection>>, groups: AllGroups, c: Connection, g: Groups, removed: set<Topic>)
    requires TopicIndex(subs, groups)
    requires g.groupedTopics.Keys == Topics(groups, c).Keys - removed
    ensures TopicIndex(UnlinkAll(subs, removed, c), groups[c := g])
  {
    UnlinkAllLinks(subs, removed, c);
    var after := groups[c := g];
    forall t, d ensures Linked(UnlinkAll(subs, removed, c), t, d) <==> t in Topics(after, d) {
      assert Linked(subs, t, d) <==> t in Topics(groups, d);
    }
  }

  // ---- every lock-held section keeps the indexes ------------------------------------------------

  ghost predicate Positive(refs: map<Uuid, int>) {
    forall t :: t in refs ==> refs[t] >= 1
  }

  /** The indexes keep agreeing whatever the new record is, as long as its counts are positive. */
  lemma AdoptKeepsIndexes(s: State, c: Connection, g: Groups)
    requires IndexesAgree(s) && Positive(g.tagRefs)
    ensures IndexesAgree(Adopt(s, c, g))
  {
    hide TagIndex, TopicIndex, LinkAll, UnlinkAll;
    var was := GroupsOf(s, c);
    var tagsIn, topicsIn := g.tagRefs.Keys - was.tagRefs.Keys, g.groupedTopics.Keys - was.groupedTopics.Keys;
    var both := Groups({}, was.groupedTopics + g.groupedTopics, was.tagRefs + g.tagRefs);
    TagIndexGrows(s.subscriptions, s.connectionGroups, c, both, tagsIn);
    TagIndexShrinks(LinkAll(s.subscriptions, tagsIn, c), s.connectionGroups[c := both], c, g,
                    was.tagRefs.Keys - g.tagRefs.Keys);
    TopicIndexGrows(s.groupTopicSubscribers, s.connectionGroups, c, both, topicsIn);
    TopicIndexShrinks(LinkAll(s.groupTopicSubscribers, topicsIn, c), s.connectionGroups[c := both], c, g,
                      was.groupedTopics.Keys - g.groupedTopics.Keys);
    assert s.connectionGroups[c := both][c := g] == s.connectionGroups[c := g];
  }

  lemma PositiveCounts(s: State, c: Connection)
    requires IndexesAgree(s)
    ensures Positive(GroupsOf(s, c).tagRefs)
  {
  }

  lemma CountsStayPositive(refs: map<Uuid, int>, tags: set<Uuid>)
    requires Positive(refs)
    ensures Positive(Incremented(refs, tags)) && Positive(Decremented(refs, tags))
  {
  }

  lemma SubscribesKeepIndexes(s: State, c: Connection, t: Uuid, topic: Topic, resolved: seq<Uuid>, limit: int)
    requires IndexesAgree(s)
    ensures IndexesAgree(SubscribeDirect(s, c, t, limit))
    ensures IndexesAgree(CommitGroup(s, c, topic, resolved, limit))
  {
    PositiveCounts(s, c);
    CountsStayPositive(GroupsOf(s, c).tagRefs, {t} - {NIL_UUID});
    CountsStayPositive(GroupsOf(s, c).tagRefs, ToSet(resolved) - {NIL_UUID});
    hide IndexesAgree, Adopt, Positive, Incremented, ExceedsLimit, ToSet;
    AdoptKeepsIndexes(s, c, WithDirect(GroupsOf(s, c), t, limit));
    AdoptKeepsIndexes(s, c, WithTopic(GroupsOf(s, c), topic, resolved, limit));
  }

  lemma UnsubscribesKeepIndexes(s: State, c: Connection, t: Uuid, topic: Topic)
    requires IndexesAgree(s)
    ensures IndexesAgree(UnsubscribeDirect(s, c, t))
    ensures IndexesAgree(LeaveGroup(s, c, topic))
  {
    PositiveCounts(s, c);
    AdoptKeepsIndexes(s, c, WithoutDirect(GroupsOf(s, c), t));
    AdoptKeepsIndexes(s, c, WithoutTopic(GroupsOf(s, c), topic));
  }

  lemma RetargetKeepsIndexes(s: State, c: Connection, topic: Topic, resolved: set<Uuid>, kept: set<Uuid>)
    requires IndexesAgree(s)
    ensures IndexesAgree(Retarget(s, c, topic, resolved, kept))
  {
    PositiveCounts(s, c);
    if topic in GroupsOf(s, c).groupedTopics {
      AdoptKeepsIndexes(s, c, Retargeted(GroupsOf(s, c), topic, resolved, kept));
    }
  }

  lemma ForgetConnection(s: State, c: Connection)
    requires IndexesAgree(s)
    ensures TagIndex(UnlinkAll(s.subscriptions, GroupsOf(s, c).tagRefs.Keys, c), s.connectionGroups - {c})
    ensures TopicIndex(UnlinkAll(s.groupTopicSubscribers, GroupsOf(s, c).groupedTopics.Keys, c), s.connectionGroups - {c})
  {
    var g := GroupsOf(s, c);
    var after := s.connectionGroups - {c};
    UnlinkAllLinks(s.subscriptions, g.tagRefs.Keys, c);
    UnlinkAllLinks(s.groupTopicSubscribers, g.groupedTopics.Keys, c);
    forall t, d ensures Linked(UnlinkAll(s.subscriptions, g.tagRefs.Keys, c), t, d) <==> t in Refs(after, d) {
      assert Linked(s.subscriptions, t, d) <==> t in Refs(s.connectionGroups, d);
    }
    forall t, d ensures Linked(UnlinkAll(s.groupTopicSubscribers, g.groupedTopics.Keys, c), t, d) <==> t in Topics(after, d) {
      assert Linked(s.groupTopicSubscribers, t, d) <==> t in Topics(s.connectionGroups, d);
    }
  }

  lemma UnregisterKeepsIndexes(s: State, c: Connection, user: User)
    requires IndexesAgree(s)
    ensures IndexesAgree(Unregister(s, c, user))
  {
    ForgetConnection(s, c);
  }

  lemma WipedTag(s: State, c: Connection, t: Uuid)
    requires TagIndex(s.subscriptions, s.connectionGroups) && t in Refs(s.connectionGroups, c)
    ensures !TagIndex(s.subscriptions, s.connectionGroups[c := NO_GROUPS])
  {
  }

  lemma WipedTopic(s: State, c: Connection, g: Topic)
    requires TopicIndex(s.groupTopicSubscribers, s.connectionGroups) && g in Topics(s.connectionGroups, c)
    ensures !TopicIndex(s.groupTopicSubscribers, s.connectionGroups[c := NO_GROUPS])
  {
  }

  /** Registering wipes a connection's own record and nothing else, so it is harmless exactly for one holding nothing. */
  lemma RegisterKeepsIndexes(s: State, c: Connection, user: User, maxPerUser: int)
    requires IndexesAgree(s)
    ensures IndexesAgree(Register(s, c, user, maxPerUser))
      <==> GroupsOf(s, c).tagRefs == map[] && GroupsOf(s, c).groupedTopics == map[]
  {
    hide TagIndex, TopicIndex;
    if t :| t in GroupsOf(s, c).tagRefs {
      WipedTag(s, c, t);
    } else if g :| g in GroupsOf(s, c).groupedTopics {
      WipedTopic(s, c, g);
    } else {
      WipeNothing(s, c);
    }
  }

  lemma WipeNothing(s: State, c: Connection)
    requires IndexesAgree(s) && GroupsOf(s, c).tagRefs.Keys == {} && GroupsOf(s, c).groupedTopics.Keys == {}
    ensures TagIndex(s.subscriptions, s.connectionGroups[c := NO_GROUPS])
    ensures TopicIndex(s.groupTopicSubscribers, s.connectionGroups[c := NO_GROUPS])
  {
  }

  // ---- the records determine the indexes ----------------------------------------------------------

  lemma SameIndex<K>(m: map<K, set<Connection>>, n: map<K, set<Connection>>)
    requires forall k, c :: Linked(m, k, c) <==> Linked(n, k, c)
    requires NoEmptySet(m) && NoEmptySet(n)
    ensures m == n
  {
    forall k | k in m ensures k in n && n[k] == m[k] {
      var c :| c in m[k];
      assert Linked(m, k, c);
      assert forall d :: d in m[k] <==> Linked(m, k, d);
      assert forall d :: d in n[k] <==> Linked(n, k, d);
    }
    forall k | k in n ensures k in m {
      var c :| c in n[k];
      assert Linked(n, k, c);
    }
  }

  /** Two consistent hubs with the same records are the same in every index. */
  lemma IndexesDetermined(a: State, b: State)
    requires IndexesAgree(a) && IndexesAgree(b) && a.connectionGroups == b.connectionGroups
    ensures a.subscriptions == b.subscriptions
    ensures a.connectionSubscriptions == b.connectionSubscriptions
    ensures a.groupTopicSubscribers == b.groupTopicSubscribers
  {
    forall t, c ensures Linked(a.subscriptions, t, c) <==> Linked(b.subscriptions, t, c) {
      assert Linked(a.subscriptions, t, c) <==> t in Refs(a.connectionGroups, c);
      assert Linked(b.subscriptions, t, c) <==> t in Refs(b.connectionGroups, c);
    }
    forall g, c ensures Linked(a.groupTopicSubscribers, g, c) <==> Linked(b.groupTopicSubscribers, g, c) {
      assert Linked(a.groupTopicSubscribers, g, c) <==> g in Topics(a.connectionGroups, c);
      assert Linked(b.groupTopicSubscribers, g, c) <==> g in Topics(b.connectionGroups, c);
    }
    SameIndex(a.subscriptions, b.subscriptions);
    SameIndex(a.groupTopicSubscribers, b.groupTopicSubscribers);
  }

  // ---- deleting a tag for all its subscribers ---------------------------------------------------------

  /** The subscribers of the tag, each once. */
  ghost predicate Visits(s: State, t: Uuid, cs: seq<Connection>) {
    NoDuplicates(cs) && ToSet(cs) == Lookup(s.subscriptions, t)
  }

  /** The tag deleted for one subscriber after another, in any order. */
  ghost predicate DeletesTag(s: State, t: Uuid, r: State) {
    if t == NIL_UUID then r == s else exists cs: seq<Connection> :: Visits(s, t, cs) && r == DeleteTagFor(s, t, cs)
  }

  function DeletedFor(groups: AllGroups, t: Uuid, cs: set<Connection>): AllGroups {
    map c | c in groups :: if c in cs then Deleted(groups[c], t) else groups[c]
  }

  lemma DeletedForOneMore(groups: AllGroups, t: Uuid, cs: set<Connection>, c: Connection)
    requires c in groups && c !in cs
    ensures DeletedFor(groups, t, cs)[c := Deleted(groups[c], t)] == DeletedFor(groups, t, cs + {c})
  {
  }

  ghost predicate DeletedSoFar(s: State, t: Uuid, cs: set<Connection>, r: State) {
    && IndexesAgree(r)
    && r.connectionGroups == DeletedFor(s.connectionGroups, t, cs)
    && r.alarmsSubscribers == s.alarmsSubscribers
    && r.connectionsByUser == s.connectionsByUser
  }

  lemma DeleteTagForNext(s: State, t: Uuid, cs: set<Connection>, c: Connection, before: State)
    requires IndexesAgree(s) && DeletedSoFar(s, t, cs, before)
    requires c in s.connectionGroups && c !in cs
    ensures DeletedSoFar(s, t, cs + {c}, Adopt(before, c, Deleted(GroupsOf(before, c), t)))
  {
    assert GroupsOf(before, c) == s.connectionGroups[c];
    PositiveCounts(s, c);
    AdoptKeepsIndexes(before, c, Deleted(s.connectionGroups[c], t));
    DeletedForOneMore(s.connectionGroups, t, cs, c);
  }

  lemma {:induction false} DeleteTagForRecords(s: State, t: Uuid, cs: seq<Connection>)
    requires IndexesAgree(s)
    requires forall i, j :: 0 <= i < j < |cs| ==> cs[i] != cs[j]
    requires forall i :: 0 <= i < |cs| ==> cs[i] in s.connectionGroups
    ensures DeletedSoFar(s, t, ToSet(cs), DeleteTagFor(s, t, cs))
  {
    if cs == [] {
      assert DeletedFor(s.connectionGroups, t, {}) == s.connectionGroups;
    } else {
      var front, c := cs[..|cs| - 1], cs[|cs| - 1];
      DeleteTagForRecords(s, t, front);
      assert c !in ToSet(front);
      assert ToSet(cs) == ToSet(front) + {c} by { assert cs == front + [c]; }
      DeleteTagForNext(s, t, ToSet(front), c, DeleteTagFor(s, t, front));
    }
  }

  /** In whatever order the subscribers are visited, each one's record loses the tag and the indexes follow. */
  lemma DeleteTagForAll(s: State, t: Uuid, r: State)
    requires IndexesAgree(s) && t != NIL_UUID && DeletesTag(s, t, r)
    ensures DeletedSoFar(s, t, Lookup(s.subscriptions, t), r)
  {
    hide IndexesAgree, DeletedSoFar;
    var cs: seq<Connection> :| Visits(s, t, cs) && r == DeleteTagFor(s, t, cs);
    SubscribersKnown(s, t);
    forall i | 0 <= i < |cs| ensures cs[i] in s.connectionGroups {
      assert cs[i] in ToSet(cs);
    }
    DeleteTagForRecords(s, t, cs);
  }

  /** The order makes no difference. */
  lemma DeletionIsDetermined(s: State, t: Uuid, a: State, b: State)
    requires IndexesAgree(s) && DeletesTag(s, t, a) && DeletesTag(s, t, b)
    ensures a == b
  {
    if t != NIL_UUID {
      DeleteTagForAll(s, t, a);
      DeleteTagForAll(s, t, b);
      IndexesDetermined(a, b);
    }
  }

  /** A consistent hub in which the tag is deleted from the record of each of the listed subscribers is the result of visiting them. */
  lemma DeletedIsVisited(s: State, t: Uuid, cs: seq<Connection>, r: State)
    requires IndexesAgree(s) && t != NIL_UUID && Visits(s, t, cs) && DeletedSoFar(s, t, ToSet(cs), r)
    ensures DeletesTag(s, t, r)
  {
    assert DeletesTag(s, t, DeleteTagFor(s, t, cs));
    DeleteTagForAll(s, t, DeleteTagFor(s, t, cs));
    IndexesDetermined(r, DeleteTagFor(s, t, cs));
  }

  lemma SubscribersKnown(s: State, t: Uuid)
    requires IndexesAgree(s)
    ensures forall c :: c in Lookup(s.subscriptions, t) ==> c in s.connectionGroups
  {
    forall c | c in Lookup(s.subscriptions, t) ensures c in s.connectionGroups {
      assert Linked(s.subscriptions, t, c);
      assert t in Refs(s.connectionGroups, c);
    }
  }
}
