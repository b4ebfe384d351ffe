/** Exact reference counts and the per-connection limit, step by step. */
module HubCounts {
  import opened Common
  import opened SetIndex
  import opened Uuids
  import opened HubModel
  import opened HubInvariants

  // ---- sizes ----------------------------------------------------------------------------------------

  lemma SubsetSize<T>(a: set<T>, b: set<T>)
    requires a <= b
    ensures |a| <= |b|
  {
    assert b == a + (b - a);
  }

  lemma UnionSize<T>(a: set<T>, b: set<T>)
    ensures |a + b| <= |a| + |b - a|
  {
  }

  lemma ToSetCons<T>(xs: seq<T>)
    requires xs != []
    ensures ToSet(xs) == {xs[0]} + ToSet(xs[1..])
  {
  }

  lemma NewTagsUncons(refs: map<Uuid, int>, tags: seq<Uuid>)
    requires tags != []
    ensures var rest := Unreferenced(refs, ToSet(tags[1..]));
      if tags[0] != NIL_UUID && RefCount(refs, tags[0]) <= 0
      then |Unreferenced(refs, ToSet(tags))| == |rest| + (if tags[0] in tags[1..] then 0 else 1)
      else |Unreferenced(refs, ToSet(tags))| == |rest|
  {
    var rest := Unreferenced(refs, ToSet(tags[1..]));
    ToSetCons(tags);
    assert tags[0] in tags[1..] <==> tags[0] in ToSet(tags[1..]);
    if tags[0] != NIL_UUID && RefCount(refs, tags[0]) <= 0 {
      assert Unreferenced(refs, ToSet(tags)) == rest + {tags[0]};
    } else {
      assert Unreferenced(refs, ToSet(tags)) == rest;
    }
  }

  /** The list count used by the limit check is an upper bound on the tags that really become new. */
  lemma {:induction false} NewTagsCounted(refs: map<Uuid, int>, tags: seq<Uuid>)
    ensures |Unreferenced(refs, ToSet(tags))| <= CountNew(refs, tags)
  {
    if tags != [] {
      NewTagsCounted(refs, tags[1..]);
      NewTagsUncons(refs, tags);
    }
  }

  /** On a duplicate-free list the count is exact. */
  lemma {:induction false} NewTagsCountedExactly(refs: map<Uuid, int>, tags: seq<Uuid>)
    requires forall i, j :: 0 <= i < j < |tags| ==> tags[i] != tags[j]
    ensures |Unreferenced(refs, ToSet(tags))| == CountNew(refs, tags)
  {
    if tags != [] {
      var head, tail := tags[0], tags[1..];
      forall i, j | 0 <= i < j < |tail| ensures tail[i] != tail[j] {
        assert tail[i] == tags[i + 1] && tail[j] == tags[j + 1];
      }
      NewTagsCountedExactly(refs, tail);
      NewTagsUncons(refs, tags);
      assert forall i :: 0 <= i < |tail| ==> tail[i] == tags[i + 1] != head;
    }
  }

  // ---- the limit --------------------------------------------------------------------------------------

  ghost predicate WithinLimit(limit: int, s: State) {
    limit > 0 ==> forall c :: c in s.connectionGroups ==> |s.connectionGroups[c].tagRefs| <= limit
  }

  lemma IncrementedSize(refs: map<Uuid, int>, tags: set<Uuid>)
    requires Positive(refs)
    ensures |Incremented(refs, tags - {NIL_UUID})| <= |refs| + |Unreferenced(refs, tags)|
  {
    assert Incremented(refs, tags - {NIL_UUID}).Keys == refs.Keys + Unreferenced(refs, tags);
    UnionSize(refs.Keys, Unreferenced(refs, tags));
    SubsetSize(Unreferenced(refs, tags) - refs.Keys, Unreferenced(refs, tags));
    assert |Incremented(refs, tags - {NIL_UUID}).Keys| == |Incremented(refs, tags - {NIL_UUID})|;
  }

  lemma DecrementedSize(refs: map<Uuid, int>, tags: set<Uuid>)
    ensures |Decremented(refs, tags)| <= |refs|
  {
    SubsetSize(Decremented(refs, tags).Keys, refs.Keys);
    assert |Decremented(refs, tags).Keys| == |Decremented(refs, tags)|;
  }

  lemma AdoptedRecord(s: State, c: Connection, g: Groups)
    ensures Adopt(s, c, g).connectionGroups == s.connectionGroups[c := g]
  {
  }

  lemma LimitUpdate(limit: int, s: State, r: State, c: Connection, g: Groups)
    requires WithinLimit(limit, s) && (limit > 0 ==> |g.tagRefs| <= limit)
    requires r.connectionGroups == s.connectionGroups[c := g]
    ensures WithinLimit(limit, r)
  {
  }

  lemma SubscribedSize(g: Groups, t: Uuid, topic: Topic, resolved: seq<Uuid>, limit: int)
    requires Positive(g.tagRefs) && |g.tagRefs| <= limit && limit > 0
    ensures |WithDirect(g, t, limit).tagRefs| <= limit
    ensures |WithTopic(g, topic, resolved, limit).tagRefs| <= limit
  {
    hide Incremented, Unreferenced, CountNew;
    IncrementedSize(g.tagRefs, ToSet([t]));
    NewTagsCounted(g.tagRefs, [t]);
    assert ToSet([t]) == {t};
    IncrementedSize(g.tagRefs, ToSet(resolved));
    NewTagsCounted(g.tagRefs, resolved);
  }

  lemma SubscribesWithinLimit(s: State, c: Connection, t: Uuid, topic: Topic, resolved: seq<Uuid>, limit: int)
    requires IndexesAgree(s) && WithinLimit(limit, s)
    ensures WithinLimit(limit, SubscribeDirect(s, c, t, limit))
    ensures WithinLimit(limit, CommitGroup(s, c, topic, resolved, limit))
  {
    hide IndexesAgree, Adopt, WithDirect, WithTopic;
    var g := GroupsOf(s, c);
    PositiveCounts(s, c);
    AdoptedRecord(s, c, WithDirect(g, t, limit));
    AdoptedRecord(s, c, WithTopic(g, topic, resolved, limit));
    if limit > 0 {
      SubscribedSize(g, t, topic, resolved, limit);
    }
    LimitUpdate(limit, s, SubscribeDirect(s, c, t, limit), c, WithDirect(g, t, limit));
    LimitUpdate(limit, s, CommitGroup(s, c, topic, resolved, limit), c, WithTopic(g, topic, resolved, limit));
  }

  lemma UnsubscribesWithinLimit(s: State, c: Connection, t: Uuid, topic: Topic, limit: int)
    requires IndexesAgree(s) && WithinLimit(limit, s)
    ensures WithinLimit(limit, UnsubscribeDirect(s, c, t))
    ensures WithinLimit(limit, LeaveGroup(s, c, topic))
  {
    if c in s.connectionGroups {
      var g := s.connectionGroups[c];
      DecrementedSize(g.tagRefs, {t} - {NIL_UUID});
      LimitUpdate(limit, s, UnsubscribeDirect(s, c, t), c, WithoutDirect(g, t));
      if topic in g.groupedTopics {
        DecrementedSize(g.tagRefs, g.groupedTopics[topic] - {NIL_UUID});
      }
      LimitUpdate(limit, s, LeaveGroup(s, c, topic), c, WithoutTopic(g, topic));
    }
  }

  /** Trimming leaves room even though the limit is checked before the departed tags are released. */
  lemma RetargetWithinLimit(s: State, c: Connection, topic: Topic, resolved: set<Uuid>, kept: set<Uuid>, limit: int)
    requires IndexesAgree(s) && WithinLimit(limit, s)
    requires c in s.connectionGroups && topic in s.connectionGroups[c].groupedTopics
    requires Keeps(limit, s.connectionGroups[c], topic, resolved, kept)
    ensures WithinLimit(limit, Retarget(s, c, topic, resolved, kept))
  {
    var g := s.connectionGroups[c];
    PositiveCounts(s, c);
    if limit > 0 {
      RetargetedSize(g, topic, resolved, kept, limit);
    }
    LimitUpdate(limit, s, Retarget(s, c, topic, resolved, kept), c, Retargeted(g, topic, resolved, kept));
  }

  lemma StillUnreferenced(refs: map<Uuid, int>, gone: set<Uuid>, kept: set<Uuid>)
    requires Positive(refs) && kept !! gone
    ensures Positive(Decremented(refs, gone))
    ensures Unreferenced(Decremented(refs, gone), kept) == Unreferenced(refs, kept)
  {
  }

  lemma RetargetedSize(g: Groups, topic: Topic, resolved: set<Uuid>, kept: set<Uuid>, limit: int)
    requires topic in g.groupedTopics && Keeps(limit, g, topic, resolved, kept)
    requires Positive(g.tagRefs) && |g.tagRefs| <= limit && limit > 0
    ensures |Retargeted(g, topic, resolved, kept).tagRefs| <= limit
  {
    var gone := g.groupedTopics[topic] - resolved - {NIL_UUID};
    var refs := Decremented(g.tagRefs, gone);
    StillUnreferenced(g.tagRefs, gone, kept);
    DecrementedSize(g.tagRefs, gone);
    IncrementedSize(refs, kept);
    SubsetSize(Unreferenced(g.tagRefs, kept), kept);
  }

  // ---- exact counts -----------------------------------------------------------------------------------

  /** The group topics of one connection that contain t. */
  function Holders(g: Groups, t: Uuid): set<Topic> {
    set topic | topic in g.groupedTopics && t in g.groupedTopics[topic]
  }

  /** How many references t deserves: one for a direct subscription and one for each group topic holding it. */
  function Owed(g: Groups, t: Uuid): nat {
    (if t in g.directTags then 1 else 0) + |Holders(g, t)|
  }

  ghost predicate ExactGroups(g: Groups) {
    forall t :: t != NIL_UUID ==> RefCount(g.tagRefs, t) == Owed(g, t)
  }

  ghost predicate Exact(s: State) {
    forall c :: c in s.connectionGroups ==> ExactGroups(s.connectionGroups[c])
  }

  lemma ExactUpdate(s: State, r: State, c: Connection)
    requires Exact(s)
    requires forall d :: d in r.connectionGroups && d != c ==> d in s.connectionGroups && r.connectionGroups[d] == s.connectionGroups[d]
    ensures Exact(r) <==> (c in r.connectionGroups ==> ExactGroups(r.connectionGroups[c]))
  {
  }

  lemma EmptyGroupsExact()
    ensures ExactGroups(NO_GROUPS)
  {
  }

  lemma JoinTopicOwes(g: Groups, topic: Topic, tags: set<Uuid>, t: Uuid)
    requires topic !in g.groupedTopics
    ensures Owed(g.(groupedTopics := g.groupedTopics[topic := tags]), t) == Owed(g, t) + if t in tags then 1 else 0
  {
    var g' := g.(groupedTopics := g.groupedTopics[topic := tags]);
    assert Holders(g', t) == Holders(g, t) + if t in tags then {topic} else {};
  }

  lemma LoseTopicOwes(g: Groups, topic: Topic, t: Uuid)
    requires topic in g.groupedTopics
    ensures Owed(g.(groupedTopics := g.groupedTopics - {topic}), t) == Owed(g, t) - if t in g.groupedTopics[topic] then 1 else 0
  {
    var g' := g.(groupedTopics := g.groupedTopics - {topic});
    assert Holders(g, t) == Holders(g', t) + if t in g.groupedTopics[topic] then {topic} else {};
  }

  lemma RetopicOwes(g: Groups, topic: Topic, tags: set<Uuid>, t: Uuid)
    requires topic in g.groupedTopics
    ensures Owed(g.(groupedTopics := g.groupedTopics[topic := tags]), t)
      == Owed(g, t) - (if t in g.groupedTopics[topic] then 1 else 0) + if t in tags then 1 else 0
  {
    LoseTopicOwes(g, topic, t);
    var left := g.(groupedTopics := g.groupedTopics - {topic});
    JoinTopicOwes(left, topic, tags, t);
    assert left.groupedTopics[topic := tags] == g.groupedTopics[topic := tags];
  }

  lemma IncrementedRefCount(refs: map<Uuid, int>, tags: set<Uuid>, t: Uuid)
    ensures RefCount(Incremented(refs, tags), t) == RefCount(refs, t) + if t in tags then 1 else 0
  {
  }

  lemma WithDirectExact(g: Groups, t: Uuid, limit: int)
    requires ExactGroups(g)
    ensures ExactGroups(WithDirect(g, t, limit))
  {
    hide Incremented, CountNew;
    var g' := WithDirect(g, t, limit);
    if g' != g {
      forall u | u != NIL_UUID ensures RefCount(g'.tagRefs, u) == Owed(g', u) {
        IncrementedRefCount(g.tagRefs, {t} - {NIL_UUID}, u);
        assert Holders(g', u) == Holders(g, u);
      }
    }
  }

  lemma WithTopicExact(g: Groups, topic: Topic, resolved: seq<Uuid>, limit: int)
    requires ExactGroups(g)
    ensures ExactGroups(WithTopic(g, topic, resolved, limit))
  {
    hide Incremented, CountNew;
    var g' := WithTopic(g, topic, resolved, limit);
    if g' != g {
      forall u | u != NIL_UUID ensures RefCount(g'.tagRefs, u) == Owed(g', u) {
        IncrementedRefCount(g.tagRefs, ToSet(resolved) - {NIL_UUID}, u);
        JoinTopicOwes(g, topic, ToSet(resolved), u);
        assert Holders(g', u) == Holders(g.(groupedTopics := g.groupedTopics[topic := ToSet(resolved)]), u);
      }
    }
  }

  lemma SubscribeDirectExact(s: State, c: Connection, t: Uuid, limit: int)
    requires Exact(s)
    ensures Exact(SubscribeDirect(s, c, t, limit))
  {
    EmptyGroupsExact();
    WithDirectExact(GroupsOf(s, c), t, limit);
    AdoptedRecord(s, c, WithDirect(GroupsOf(s, c), t, limit));
    hide WithDirect, Adopt, ExactGroups;
    ExactUpdate(s, SubscribeDirect(s, c, t, limit), c);
  }

  lemma CommitGroupExact(s: State, c: Connection, topic: Topic, resolved: seq<Uuid>, limit: int)
    requires Exact(s)
    ensures Exact(CommitGroup(s, c, topic, resolved, limit))
  {
    EmptyGroupsExact();
    WithTopicExact(GroupsOf(s, c), topic, resolved, limit);
    AdoptedRecord(s, c, WithTopic(GroupsOf(s, c), topic, resolved, limit));
    hide WithTopic, Adopt, ExactGroups;
    ExactUpdate(s, CommitGroup(s, c, topic, resolved, limit), c);
  }

  lemma WithoutDirectExact(g: Groups, t: Uuid)
    requires ExactGroups(g) && Positive(g.tagRefs)
    ensures ExactGroups(WithoutDirect(g, t))
  {
    var g' := WithoutDirect(g, t);
    forall u | u != NIL_UUID ensures RefCount(g'.tagRefs, u) == Owed(g', u) {
      assert RefCount(g.tagRefs, u) == Owed(g, u);
      assert Holders(g', u) == Holders(g, u);
    }
  }

  lemma UnsubscribeDirectExact(s: State, c: Connection, t: Uuid)
    requires IndexesAgree(s) && Exact(s)
    ensures Exact(UnsubscribeDirect(s, c, t))
  {
    hide IndexesAgree;
    if c in s.connectionGroups {
      PositiveCounts(s, c);
      WithoutDirectExact(s.connectionGroups[c], t);
      ExactUpdate(s, UnsubscribeDirect(s, c, t), c);
    }
  }

  lemma WithoutTopicExact(g: Groups, topic: Topic)
    requires ExactGroups(g) && Positive(g.tagRefs) && topic in g.groupedTopics
    ensures ExactGroups(WithoutTopic(g, topic))
  {
    var g' := WithoutTopic(g, topic);
    forall u | u != NIL_UUID ensures RefCount(g'.tagRefs, u) == Owed(g', u) {
      assert RefCount(g.tagRefs, u) == Owed(g, u);
      LoseTopicOwes(g, topic, u);
      assert Holders(g', u) == Holders(g.(groupedTopics := g.groupedTopics - {topic}), u);
    }
  }

  lemma LeaveGroupExact(s: State, c: Connection, topic: Topic)
    requires IndexesAgree(s) && Exact(s)
    ensures Exact(LeaveGroup(s, c, topic))
  {
    if c in s.connectionGroups && topic in s.connectionGroups[c].groupedTopics {
      PositiveCounts(s, c);
      WithoutTopicExact(s.connectionGroups[c], topic);
      ExactUpdate(s, LeaveGroup(s, c, topic), c);
    }
  }

  /** Deleting a tag drops one reference whatever the tag is owed, so it is exact only for a tag held once. */
  lemma DeletedExactIff(g: Groups, t: Uuid)
    requires ExactGroups(g) && t != NIL_UUID
    ensures ExactGroups(Deleted(g, t)) <==> RefCount(g.tagRefs, t) <= 1
  {
    var g' := Deleted(g, t);
    assert Holders(g', t) == {};
    assert Owed(g', t) == 0;
    forall u | u != NIL_UUID && u != t ensures RefCount(g'.tagRefs, u) == Owed(g', u) {
      assert RefCount(g.tagRefs, u) == Owed(g, u);
      assert Holders(g', u) == Holders(g, u);
    }
  }

  /** A tag cut off by the limit is stored in the topic without a reference. */
  lemma RetargetOwes(s: State, c: Connection, topic: Topic, resolved: set<Uuid>, kept: set<Uuid>, t: Uuid)
    requires IndexesAgree(s) && Exact(s) && t != NIL_UUID
    requires c in s.connectionGroups && topic in s.connectionGroups[c].groupedTopics
    requires kept <= NewMembers(s.connectionGroups[c], topic, resolved)
    ensures var g' := Retarget(s, c, topic, resolved, kept).connectionGroups[c];
      RefCount(g'.tagRefs, t) == Owed(g', t) <==> !(t in NewMembers(s.connectionGroups[c], topic, resolved) - kept)
  {
    var g := s.connectionGroups[c];
    var g' := Retargeted(g, topic, resolved, kept);
    PositiveCounts(s, c);
    RetopicOwes(g, topic, resolved, t);
    assert Holders(g', t) == Holders(g.(groupedTopics := g.groupedTopics[topic := resolved]), t);
    assert RefCount(g.tagRefs, t) == Owed(g, t);
    assert t in g.groupedTopics[topic] ==> topic in Holders(g, t);
    assert t in g.groupedTopics[topic] ==> RefCount(g.tagRefs, t) >= 1;
  }

  /** In the trim branch at least one real tag is cut off. */
  lemma TrimCutsSomething(limit: int, g: Groups, topic: Topic, resolved: set<Uuid>, kept: set<Uuid>) returns (t: Uuid)
    requires |g.tagRefs| <= limit
    requires topic in g.groupedTopics && TrimsAt(limit, g, topic, resolved)
    requires Keeps(limit, g, topic, resolved, kept)
    ensures t in NewMembers(g, topic, resolved) - kept && t != NIL_UUID
  {
    var wanted := Unreferenced(g.tagRefs, NewMembers(g, topic, resolved));
    if wanted <= kept {
      SubsetSize(wanted, kept);
    }
    t :| t in wanted && t !in kept;
  }

  /** A reconciliation is exact precisely when the limit does not make it trim. */
  lemma RetargetExactIff(s: State, c: Connection, topic: Topic, resolved: set<Uuid>, kept: set<Uuid>, limit: int)
    requires IndexesAgree(s) && Exact(s) && WithinLimit(limit, s)
    requires c in s.connectionGroups && topic in s.connectionGroups[c].groupedTopics
    requires Keeps(limit, s.connectionGroups[c], topic, resolved, kept)
    ensures Exact(Retarget(s, c, topic, resolved, kept)) <==> !TrimsAt(limit, s.connectionGroups[c], topic, resolved)
  {
    var g, r := s.connectionGroups[c], Retarget(s, c, topic, resolved, kept);
    if TrimsAt(limit, g, topic, resolved) {
      var t := TrimCutsSomething(limit, g, topic, resolved, kept);
      RetargetOwes(s, c, topic, resolved, kept, t);
    } else {
      forall t | t != NIL_UUID ensures RefCount(r.connectionGroups[c].tagRefs, t) == Owed(r.connectionGroups[c], t) {
        RetargetOwes(s, c, topic, resolved, kept, t);
      }
      ExactUpdate(s, r, c);
    }
  }

  // ---- deleting a tag for all its subscribers ---------------------------------------------------------

  /** A tag deletion is exact precisely when no subscriber holds more than one reference to the tag. */
  lemma DeletesTagExactIff(s: State, t: Uuid, r: State)
    requires IndexesAgree(s) && Exact(s) && DeletesTag(s, t, r)
    ensures Exact(r) <==>
      (t == NIL_UUID || forall c :: Linked(s.subscriptions, t, c) ==> RefCount(GroupsOf(s, c).tagRefs, t) <= 1)
  {
    if t != NIL_UUID {
      DeleteTagForAll(s, t, r);
      hide DeletesTag;
      forall c | c in s.connectionGroups
        ensures ExactGroups(r.connectionGroups[c])
          <==> (Linked(s.subscriptions, t, c) ==> RefCount(GroupsOf(s, c).tagRefs, t) <= 1)
      {
        DeletedExactIff(s.connectionGroups[c], t);
      }
      forall c | Linked(s.subscriptions, t, c) ensures c in s.connectionGroups {
        assert t in Refs(s.connectionGroups, c);
      }
    }
  }

  lemma DeletesTagWithinLimit(s: State, t: Uuid, r: State, limit: int)
    requires IndexesAgree(s) && WithinLimit(limit, s) && DeletesTag(s, t, r)
    ensures IndexesAgree(r) && WithinLimit(limit, r)
  {
    if t != NIL_UUID {
      DeleteTagForAll(s, t, r);
    }
    hide DeletesTag;
    forall c | c in s.connectionGroups ensures |Deleted(s.connectionGroups[c], t).tagRefs| <= |s.connectionGroups[c].tagRefs| {
      DecrementedSize(s.connectionGroups[c].tagRefs, {t});
    }
  }
}
