/** The topic membership cache: a forward map with expiry and an inverse index by tag. */
module MembershipModel {
  import opened Common
  import opened SetIndex
  import opened Uuids

  /** A uuid as text: which one, and in which of the forms that parse to it; form 0 is the one the database writes. */
  datatype Id = Id(uuid: Uuid, form: nat)

  /** A normalised topic: the diagram or object it parses to and the text of its id, or text that does not parse. */
  datatype Topic = Text(text: string) | DiagramTopic(id: Id) | ObjectTopic(id: Id)

  const NO_TOPIC := Text("")

  datatype Entry = Entry(tagIDs: seq<Uuid>, expiresAt: int)
  datatype State = State(byKey: map<Topic, Entry>, entitiesByTag: map<Uuid, set<Topic>>)

  const EMPTY_CACHE := State(map[], map[])

  function Members(byKey: map<Topic, Entry>, topic: Topic): set<Uuid> {
    if topic in byKey then ToSet(byKey[topic].tagIDs) else {}
  }

  /** The inverse index holds exactly the cached memberships and no empty set; lists are clean. */
  ghost predicate Consistent(s: State) {
    && (forall t, k :: Linked(s.entitiesByTag, t, k) <==> t in Members(s.byKey, k))
    && NoEmptySet(s.entitiesByTag)
    && (forall k :: k in s.byKey ==> k != NO_TOPIC && NoDuplicates(s.byKey[k].tagIDs) && NIL_UUID !in s.byKey[k].tagIDs)
  }

  /** No cached list is longer than the resolve limit. */
  ghost predicate WithinLimit(limit: nat, s: State) {
    forall k :: k in s.byKey ==> |s.byKey[k].tagIDs| <= limit
  }

  function Evict(s: State, topic: Topic): State {
    State(s.byKey - {topic}, UnlinkAll(s.entitiesByTag, Members(s.byKey, topic), topic))
  }

  function Store(s: State, topic: Topic, tagIDs: seq<Uuid>, expiresAt: int): State {
    var evicted := Evict(s, topic);
    State(evicted.byKey[topic := Entry(Distinct(tagIDs), expiresAt)],
          LinkAll(evicted.entitiesByTag, ToSet(Distinct(tagIDs)), topic))
  }

  /** The cached topics that contain tag t. */
  function Holding(s: State, t: Uuid): set<Topic> {
    set k | k in s.byKey && t in s.byKey[k].tagIDs
  }

  function EvictAll(s: State, topics: seq<Topic>): State {
    if topics == [] then s else Evict(EvictAll(s, topics[..|topics| - 1]), topics[|topics| - 1])
  }

  lemma EvictKeeps(s: State, topic: Topic, limit: nat)
    requires Consistent(s)
    ensures Consistent(Evict(s, topic))
    ensures WithinLimit(limit, s) ==> WithinLimit(limit, Evict(s, topic))
  {
    var r := Evict(s, topic);
    UnlinkAllLinks(s.entitiesByTag, Members(s.byKey, topic), topic);
    forall t, k ensures Linked(r.entitiesByTag, t, k) <==> t in Members(r.byKey, k) {
      assert Linked(s.entitiesByTag, t, k) <==> t in Members(s.byKey, k);
    }
  }

  lemma StoreKeeps(s: State, topic: Topic, tagIDs: seq<Uuid>, expiresAt: int, limit: nat)
    requires Consistent(s) && topic != NO_TOPIC
    ensures Consistent(Store(s, topic, tagIDs, expiresAt))
    ensures WithinLimit(limit, s) && |tagIDs| <= limit ==> WithinLimit(limit, Store(s, topic, tagIDs, expiresAt))
  {
    EvictKeeps(s, topic, limit);
    var e, r := Evict(s, topic), Store(s, topic, tagIDs, expiresAt);
    DistinctFacts(tagIDs);
    LinkAllLinks(e.entitiesByTag, ToSet(Distinct(tagIDs)), topic);
    forall t, k ensures Linked(r.entitiesByTag, t, k) <==> t in Members(r.byKey, k) {
      assert Linked(e.entitiesByTag, t, k) <==> t in Members(e.byKey, k);
    }
  }

  lemma {:induction false} EvictAllFacts(s: State, topics: seq<Topic>, limit: nat)
    requires Consistent(s)
    ensures Consistent(EvictAll(s, topics))
    ensures WithinLimit(limit, s) ==> WithinLimit(limit, EvictAll(s, topics))
    ensures EvictAll(s, topics).byKey == s.byKey - ToSet(topics)
  {
    if topics == [] {
      assert ToSet(topics) == {};
    } else {
      var front, last := topics[..|topics| - 1], topics[|topics| - 1];
      EvictAllFacts(s, front, limit);
      EvictKeeps(EvictAll(s, front), last, limit);
      ToSetPrefix(topics, |front|);
      assert topics[..|front| + 1] == topics;
      assert s.byKey - ToSet(front) - {last} == s.byKey - ToSet(topics);
    }
  }

  lemma HoldingIsLinked(s: State, t: Uuid)
    requires Consistent(s)
    ensures Lookup(s.entitiesByTag, t) == Holding(s, t)
  {
    forall k ensures k in Lookup(s.entitiesByTag, t) <==> k in Holding(s, t) {
      assert Linked(s.entitiesByTag, t, k) <==> t in Members(s.byKey, k);
    }
  }

  /** The inverse index answers "which cached topics hold this tag", and evicting them leaves none. */
  lemma InvalidateByTagExact(s: State, t: Uuid, topics: seq<Topic>)
    requires Consistent(s) && ToSet(topics) == Lookup(s.entitiesByTag, t)
    ensures ToSet(topics) == Holding(s, t)
    ensures Holding(EvictAll(s, topics), t) == {}
    ensures forall k :: k !in topics ==> (k in s.byKey <==> k in EvictAll(s, topics).byKey)
  {
    HoldingIsLinked(s, t);
    EvictAllFacts(s, topics, 0);
  }

  // ---- events of configuration changes ---------------------------------------------------------------

  datatype Entity = DiagramEntity | FigureEntity | ObjectEntity | DeviceEntity | TagEntity | OtherEntity

  /** What the handler reads of an event: the entity it is about, and the id that a figure's payload has at its top level under
    * "diagram_id" or a device's under "object_id". */
  datatype Event = Event(entity: Entity, id: Id, payloadID: Option<Id>)

  /** The one topic that an event addresses by name. */
  function Addressed(e: Event): Option<Topic> {
    match e.entity
    case DiagramEntity => Some(DiagramTopic(e.id))
    case ObjectEntity => Some(ObjectTopic(e.id))
    case FigureEntity => if e.payloadID.Some? then Some(DiagramTopic(e.payloadID.value)) else None
    case DeviceEntity => if e.payloadID.Some? then Some(ObjectTopic(e.payloadID.value)) else None
    case TagEntity => None
    case OtherEntity => None
  }

  /** Handling the event drops a list cached under the topic. */
  predicate Names(e: Event, topic: Topic, list: seq<Uuid>) {
    if e.entity.TagEntity? then e.id.uuid in list else Addressed(e) == Some(topic)
  }

  /** By entity: a diagram's and an object's event name their own topic, a figure's and a device's the one in the payload, and a tag's every
    * list that holds the tag. */
  lemma NamesWhom(e: Event, topic: Topic, list: seq<Uuid>)
    ensures e.entity == DiagramEntity ==> (Names(e, topic, list) <==> topic == DiagramTopic(e.id))
    ensures e.entity == ObjectEntity ==> (Names(e, topic, list) <==> topic == ObjectTopic(e.id))
    ensures e.entity == FigureEntity ==> (Names(e, topic, list) <==> e.payloadID.Some? && topic == DiagramTopic(e.payloadID.value))
    ensures e.entity == DeviceEntity ==> (Names(e, topic, list) <==> e.payloadID.Some? && topic == ObjectTopic(e.payloadID.value))
    ensures e.entity == TagEntity ==> (Names(e, topic, list) <==> e.id.uuid in list)
    ensures e.entity == OtherEntity ==> !Names(e, topic, list)
  {
  }

  /** The topics that handling the event drops from the cache, as the inverse index and the cache have them. */
  ghost predicate Drops(s: State, e: Event, topics: seq<Topic>) {
    if e.entity.TagEntity? then ToSet(topics) == Lookup(s.entitiesByTag, e.id.uuid)
    else topics == if Addressed(e).Some? && Addressed(e).value in s.byKey then [Addressed(e).value] else []
  }

  /** Handling an event drops and reports exactly the cached topics that it names. */
  lemma DropsExactly(s: State, e: Event, topics: seq<Topic>)
    requires Consistent(s) && Drops(s, e, topics)
    ensures ToSet(topics) == set k | k in s.byKey && Names(e, k, s.byKey[k].tagIDs)
    ensures EvictAll(s, topics).byKey == map k | k in s.byKey && !Names(e, k, s.byKey[k].tagIDs) :: s.byKey[k]
  {
    if e.entity.TagEntity? {
      InvalidateByTagExact(s, e.id.uuid, topics);
    }
    EvictAllFacts(s, topics, 0);
  }

  // ---- one resolve from beginning to end ------------------------------------------------------------

  datatype Failure = EmptyTopic | BadTopic | NoRepository | NotFound | RepositoryError | LimitExceeded
  datatype Answer = Resolved(tagIDs: seq<Uuid>) | Failed(reason: Failure)

  /** What asking the repository gives: an error, or a list of any length and content. */
  datatype Source = Unconfigured | Missing | Broken | Found(tagIDs: seq<Uuid>)

  predicate Live(s: State, topic: Topic, now: int) {
    topic in s.byKey && now <= s.byKey[topic].expiresAt
  }

  function Lookedup(s: State, topic: Topic, now: int): State {
    if topic in s.byKey && !Live(s, topic, now) then Evict(s, topic) else s
  }

  function AnswerOf(s: State, topic: Topic, source: Source, limit: nat, now: int): Answer {
    if topic == NO_TOPIC then Failed(EmptyTopic)
    else if topic.Text? then Failed(BadTopic)
    else if Live(s, topic, now) then Resolved(s.byKey[topic].tagIDs)
    else match source
      case Unconfigured => Failed(NoRepository)
      case Missing => Failed(NotFound)
      case Broken => Failed(RepositoryError)
      case Found(tagIDs) => if |tagIDs| > limit then Failed(LimitExceeded) else Resolved(Distinct(tagIDs))
  }

  function AfterResolve(s: State, topic: Topic, source: Source, limit: nat, ttl: int, now: int): State {
    if topic.Text? then s
    else
      var looked := Lookedup(s, topic, now);
      if !Live(s, topic, now) && source.Found? && |source.tagIDs| <= limit
      then Store(looked, topic, Distinct(source.tagIDs), now + ttl)
      else looked
  }

  /** What a resolve leaves in the cache: a live entry as it was, an answer within the limit for one lifetime, and after any failure nothing
    * under the topic; other topics keep what they have. */
  lemma ResolveLeaves(s: State, topic: Topic, source: Source, limit: nat, ttl: int, now: int)
    ensures var r := AfterResolve(s, topic, source, limit, ttl, now).byKey;
      && (topic.Text? || (topic in s.byKey && now <= s.byKey[topic].expiresAt) ==> r == s.byKey)
      && (forall k :: k != topic ==> (k in r <==> k in s.byKey) && (k in r ==> r[k] == s.byKey[k]))
      && (!topic.Text? && !(topic in s.byKey && now <= s.byKey[topic].expiresAt) ==>
            if source.Found? && |source.tagIDs| <= limit
            then topic in r && r[topic] == Entry(Distinct(source.tagIDs), now + ttl)
            else topic !in r)
  {
    if source.Found? {
      DistinctTwice(source.tagIDs);
    }
    hide Distinct, UnlinkAll, LinkAll;
  }

  /** With nothing in between, a resolve within the lifetime of an earlier one's answer repeats that answer. */
  lemma ResolveThenHit(limit: nat, ttl: int, s: State, topic: Topic, tagIDs: seq<Uuid>, now: int, later: int, other: Source)
    requires Consistent(s) && !topic.Text? && |tagIDs| <= limit && !Live(s, topic, now) && now <= later
    ensures var r := AfterResolve(s, topic, Found(tagIDs), limit, ttl, now);
      AnswerOf(r, topic, other, limit, later)
        == if later <= now + ttl then Resolved(Distinct(tagIDs)) else AnswerOf(EMPTY_CACHE, topic, other, limit, later)
  {
    DistinctTwice(tagIDs);
  }

  /** Why a resolve that finds nothing live fails: a topic without a group, a missing diagram or object, a query that fails, more
    * members than allowed; it never fails with a live entry. */
  lemma FailureSaysWhy(s: State, topic: Topic, source: Source, limit: nat, now: int)
    ensures var answer := AnswerOf(s, topic, source, limit, now);
      && (answer == Failed(EmptyTopic) <==> topic == NO_TOPIC)
      && (answer == Failed(BadTopic) <==> topic.Text? && topic != NO_TOPIC)
      && (answer == Failed(NotFound) <==> !topic.Text? && !Live(s, topic, now) && source == Missing)
      && (answer == Failed(RepositoryError) <==> !topic.Text? && !Live(s, topic, now) && source == Broken)
      && (answer == Failed(NoRepository) <==> !topic.Text? && !Live(s, topic, now) && source == Unconfigured)
      && (answer == Failed(LimitExceeded) <==> !topic.Text? && !Live(s, topic, now) && source.Found? && |source.tagIDs| > limit)
  {
  }

  lemma {:induction false} DistinctOfClean(values: seq<Uuid>)
    requires NoDuplicates(values) && NIL_UUID !in values
    ensures Distinct(values) == values
  {
    if values != [] {
      var front, last := values[..|values| - 1], values[|values| - 1];
      assert last in values && forall v :: v in front ==> v in values;
      DistinctOfClean(front);
    }
  }

  lemma DistinctTwice(values: seq<Uuid>)
    ensures Distinct(Distinct(values)) == Distinct(values)
  {
    DistinctFacts(values);
    DistinctOfClean(Distinct(values));
  }
}

/** The cache and the resolver as they are: two maps changed in place. */
module MembershipCache {
  import opened Common
  import opened SetIndex
  import opened Uuids
  import opened MembershipModel

  class MembershipCache {
    var byKey: map<Topic, Entry>
    var entitiesByTag: map<Uuid, set<Topic>>
    const ttl: int

    ghost function Value(): State
      reads this
    {
      State(byKey, entitiesByTag)
    }

    ghost predicate Valid()
      reads this
    {
      Consistent(Value())
    }

    constructor (ttl: int)
      ensures Valid() && Value() == EMPTY_CACHE
      ensures this.ttl == if ttl <= 0 then 600 else ttl
    {
      this.ttl := if ttl <= 0 then 600 else ttl;
      byKey, entitiesByTag := map[], map[];
    }

    /** A live entry's list; an expired entry is dropped on the way. */
    method Get(topic: Topic, now: int) returns (hit: Option<seq<Uuid>>)
      requires Valid()
      modifies this
      ensures Valid() && Value() == Lookedup(old(Value()), topic, now)
      ensures hit == if Live(old(Value()), topic, now) then Some(old(byKey)[topic].tagIDs) else None
    {
      if topic == NO_TOPIC {
        return None;
      }
      if topic !in byKey {
        return None;
      }
      if now > byKey[topic].expiresAt {
        DeleteLocked(topic);
        return None;
      }
      return Some(byKey[topic].tagIDs);
    }

    method Set(topic: Topic, tagIDs: seq<Uuid>, now: int)
      requires Valid()
      modifies this
      ensures Valid()
      ensures Value() == if topic == NO_TOPIC then old(Value()) else Store(old(Value()), topic, tagIDs, now + ttl)
    {
      hide Consistent, Distinct;
      if topic == NO_TOPIC {
        return;
      }
      var normalizedTagIDs := UniqueUuids(tagIDs);
      StoreKeeps(Value(), topic, tagIDs, now + ttl, 0);
      DeleteLocked(topic);
      byKey := byKey[topic := Entry(normalizedTagIDs, now + ttl)];
      ghost var evicted := entitiesByTag;
      ToSetEnds(normalizedTagIDs);
      LinkNone(evicted, topic);
      for i := 0 to |normalizedTagIDs|
        invariant byKey == (old(byKey) - {topic})[topic := Entry(normalizedTagIDs, now + ttl)]
        invariant entitiesByTag == LinkAll(evicted, ToSet(normalizedTagIDs[..i]), topic)
      {
        var tagID := normalizedTagIDs[i];
        ToSetPrefix(normalizedTagIDs, i);
        SingleKey(entitiesByTag, tagID, topic);
        LinkTwice(evicted, ToSet(normalizedTagIDs[..i]), {tagID}, topic);
        var references := if tagID in entitiesByTag then entitiesByTag[tagID] else {};
        entitiesByTag := entitiesByTag[tagID := references + {topic}];
      }
      ToSetEnds(normalizedTagIDs);
    }

    /** Drops one group topic; names it when it was cached. */
    method Invalidate(topic: Topic) returns (dropped: seq<Topic>)
      requires Valid()
      modifies this
      ensures Valid() && Value() == Evict(old(Value()), topic)
      ensures dropped == if topic in old(byKey) then [topic] else []
    {
      if topic == NO_TOPIC || topic !in byKey {
        EvictAbsent(Value(), topic);
        return [];
      }
      DeleteLocked(topic);
      return [topic];
    }

    /** Drops and names exactly the cached topics that contain the tag. */
    method InvalidateByTag(tagID: Uuid) returns (keys: seq<Topic>)
      requires Valid()
      modifies this
      ensures Valid()
      ensures NoDuplicates(keys) && ToSet(keys) == Holding(old(Value()), tagID)
      ensures Value() == EvictAll(old(Value()), keys)
      ensures Holding(Value(), tagID) == {}
    {
      if tagID !in entitiesByTag {
        keys := [];
        assert ToSet(keys) == {};
        InvalidateByTagExact(Value(), tagID, keys);
        return;
      }
      keys := Enumerate(entitiesByTag[tagID]);
      InvalidateByTagExact(Value(), tagID, keys);
      for i := 0 to |keys|
        invariant Valid() && Value() == EvictAll(old(Value()), keys[..i])
      {
        assert keys[..i + 1][..i] == keys[..i];
        DeleteLocked(keys[i]);
      }
      ToSetEnds(keys);
    }

    /** Drops and names exactly the cached topics that the event names. */
    method InvalidateByConfigEvent(e: Event) returns (dropped: seq<Topic>)
      requires Valid()
      modifies this
      ensures Valid() && Value() == EvictAll(old(Value()), dropped)
      ensures Drops(old(Value()), e, dropped)
      ensures ToSet(dropped) == set k | k in old(byKey) && Names(e, k, old(byKey)[k].tagIDs)
    {
      ghost var s := Value();
      AddressedEviction(s, e);
      hide Consistent, Evict, EvictAll;
      match e.entity {
      case DiagramEntity =>
        dropped := Invalidate(DiagramTopic(e.id));
      case FigureEntity =>
        if e.payloadID.None? {
          dropped := [];
        } else {
          dropped := Invalidate(DiagramTopic(e.payloadID.value));
        }
      case ObjectEntity =>
        dropped := Invalidate(ObjectTopic(e.id));
      case DeviceEntity =>
        if e.payloadID.None? {
          dropped := [];
        } else {
          dropped := Invalidate(ObjectTopic(e.payloadID.value));
        }
      case TagEntity =>
        dropped := InvalidateByTag(e.id.uuid);
        HoldingIsLinked(s, e.id.uuid);
      case OtherEntity =>
        dropped := [];
      }
      DropsExactly(s, e, dropped);
    }

    /** Removes an entry and its links from the inverse index. */
    method DeleteLocked(topic: Topic)
      requires Valid()
      modifies this
      ensures Valid() && Value() == Evict(old(Value()), topic)
    {
      EvictKeeps(Value(), topic, 0);
      if topic !in byKey {
        EvictAbsent(Value(), topic);
        return;
      }
      var entry := byKey[topic];
      byKey := byKey - {topic};
      ToSetEnds(entry.tagIDs);
      UnlinkNone(entitiesByTag, topic);
      for i := 0 to |entry.tagIDs|
        invariant byKey == old(byKey) - {topic}
        invariant entitiesByTag == UnlinkAll(old(entitiesByTag), ToSet(entry.tagIDs[..i]), topic)
      {
        var tagID := entry.tagIDs[i];
        ToSetPrefix(entry.tagIDs, i);
        SingleKey(entitiesByTag, tagID, topic);
        UnlinkTwice(old(entitiesByTag), ToSet(entry.tagIDs[..i]), {tagID}, topic);
        if tagID !in entitiesByTag {
          continue;
        }
        entitiesByTag := entitiesByTag[tagID := entitiesByTag[tagID] - {topic}];
        if entitiesByTag[tagID] == {} {
          entitiesByTag := entitiesByTag - {tagID};
        }
      }
    }

    /** Answers from the cache, or asks the repository, checks the limit, removes duplicates and remembers. */
    method ResolveTopic(topic: Topic, source: Source, resolveLimit: nat, now: int) returns (answer: Answer)
      requires Valid()
      modifies this
      ensures Valid() && Value() == AfterResolve(old(Value()), topic, source, resolveLimit, ttl, now)
      ensures answer == AnswerOf(old(Value()), topic, source, resolveLimit, now)
    {
      if topic == NO_TOPIC {
        return Failed(EmptyTopic);
      }
      if topic.Text? {
        return Failed(BadTopic);
      }
      var cached := Get(topic, now);
      if cached.Some? {
        return Resolved(cached.value);
      }
      match source
      case Unconfigured => return Failed(NoRepository);
      case Missing => return Failed(NotFound);
      case Broken => return Failed(RepositoryError);
      case Found(tagIDs) =>
        if |tagIDs| > resolveLimit {
          return Failed(LimitExceeded);
        }
        var resolved := UniqueUuids(tagIDs);
        Set(topic, resolved, now);
        return Resolved(resolved);
    }
  }

  lemma AddressedEviction(s: State, e: Event)
    requires Consistent(s)
    ensures EvictAll(s, []) == s
    ensures Addressed(e).Some? ==> EvictAll(s, [Addressed(e).value]) == Evict(s, Addressed(e).value)
    ensures Addressed(e).Some? && Addressed(e).value !in s.byKey ==> Evict(s, Addressed(e).value) == s
  {
    if Addressed(e).Some? {
      var topics := [Addressed(e).value];
      assert topics[..0] == [];
    }
  }

  lemma EvictAbsent(s: State, topic: Topic)
    requires Consistent(s) && topic !in s.byKey
    ensures Evict(s, topic) == s
  {
  }

  lemma UnlinkNone(index: map<Uuid, set<Topic>>, topic: Topic)
    requires NoEmptySet(index)
    ensures UnlinkAll(index, {}, topic) == index
  {
  }

  lemma LinkNone(index: map<Uuid, set<Topic>>, topic: Topic)
    ensures LinkAll(index, {}, topic) == index
  {
    forall t | t in index ensures LinkAll(index, {}, topic)[t] == index[t] {
      assert Lookup(index, t) + {} == index[t];
    }
  }
}
