/** Runs in which an outdated answer is served for a whole lifetime. */
module MembershipWitness {
  import opened Common
  import opened Uuids
  import opened MembershipModel
  import opened EditorModel
  import opened MembershipRuns

  /** An object with a diagram and a device, and no figures or tags. */
  const EMPTY_OBJECT: Tables :=
    Tables(map[1 := true], map[1 := Diagram(1, true)], map[], map[1 := Device(Some(1), true)], map[])

  /** The same with a tag and a figure that shows it. */
  const ONE_TAG: Tables := EMPTY_OBJECT.(figures := map[1 := Figure(1, Some(1), true)], tags := map[1 := Tag(1, true)])

  const DIAGRAM: Topic := DiagramTopic(Plain(1))
  const OBJECT: Topic := ObjectTopic(Plain(1))

  const NOTHING: seq<Uuid> := []
  const ONE: seq<Uuid> := [1]

  lemma FigureIsDeleted()
    ensures var edit := DeleteFigure(Plain(1));
      && MembersOf(ONE_TAG, DIAGRAM) == Some({1}) && Succeeds(ONE_TAG, edit) && MembersOf(Edited(ONE_TAG, edit), DIAGRAM) == Some({})
      && Published(ONE_TAG, edit) == multiset{Bare(FigureEntity, Plain(1))}
  {
    assert ONE_TAG.figures[1].tagID.value == 1;
    assert DiagramTags(ONE_TAG, 1) == {1};
    assert DiagramTags(Edited(ONE_TAG, DeleteFigure(Plain(1))), 1) == {};
  }

  lemma TagIsCreated()
    ensures var edit := CreateTag(1, 1);
      && MembersOf(EMPTY_OBJECT, OBJECT) == Some({}) && Succeeds(EMPTY_OBJECT, edit)
      && MembersOf(Edited(EMPTY_OBJECT, edit), OBJECT) == Some({1}) && Published(EMPTY_OBJECT, edit) == multiset{Bare(TagEntity, Plain(1))}
  {
    assert ObjectTags(EMPTY_OBJECT, 1) == {};
    assert ObjectTags(Edited(EMPTY_OBJECT, CreateTag(1, 1)), 1) == {1};
  }

  lemma TagIsDeleted()
    ensures var edit := DeleteTag(1);
      && MembersOf(ONE_TAG, OBJECT) == Some({1}) && Succeeds(ONE_TAG, edit) && MembersOf(Edited(ONE_TAG, edit), OBJECT) == Some({})
      && Published(ONE_TAG, edit) == multiset{Bare(TagEntity, Plain(1))}
  {
    assert ObjectTags(ONE_TAG, 1) == {1};
    assert ObjectTags(Edited(ONE_TAG, DeleteTag(1)), 1) == {};
  }

  lemma FreshOfNone(limit: nat, t: Tables, topic: Topic)
    requires MembersOf(t, topic) == Some({})
    ensures Fresh(limit, t, topic) == Resolved(NOTHING)
  {
    FreshOf(limit, t, topic, {});
  }

  lemma FreshOfOne(limit: nat, t: Tables, topic: Topic)
    requires limit > 0 && MembersOf(t, topic) == Some({1})
    ensures Fresh(limit, t, topic) == Resolved(ONE)
  {
    FreshOf(limit, t, topic, {1});
    AscendingOne(1);
    DistinctOfClean(ONE);
    hide Fresh, MembersOf, Ascending, Distinct;
  }

  lemma Grow(limit: nat, ttl: int, worlds: seq<World>, ops: seq<Op>, op: Op, r: World) returns (longer: seq<World>, all: seq<Op>)
    requires IsRun(limit, ttl, worlds, ops) && |worlds| == |ops| + 1 && Next(limit, ttl, worlds[|ops|], op, r)
    ensures longer == worlds + [r] && all == ops + [op] && IsRun(limit, ttl, longer, all) && |longer| == |all| + 1
  {
    hide Next;
    longer, all := worlds + [r], ops + [op];
    forall i | 0 <= i < |all|
      ensures Next(limit, ttl, longer[i], all[i], longer[i + 1])
    {
      if i < |ops| {
        assert Next(limit, ttl, worlds[i], ops[i], worlds[i + 1]);
      }
    }
  }

  function Quiet(cache: State, calls: map<CallId, Call>, t: Tables): World {
    World(cache, calls, t, multiset{})
  }

  function Remembered(topic: Topic, list: seq<Uuid>, ttl: int): State {
    Store(EMPTY_CACHE, topic, list, ttl)
  }

  lemma RememberedFacts(topic: Topic, list: seq<Uuid>, ttl: int)
    requires NoDuplicates(list) && NIL_UUID !in list
    ensures Remembered(topic, list, ttl).byKey == map[topic := Entry(list, ttl)]
    ensures list == [] ==> Remembered(topic, list, ttl).entitiesByTag == map[]
  {
    DistinctOfClean(list);
    assert Evict(EMPTY_CACHE, topic) == EMPTY_CACHE;
  }

  lemma Starts(limit: nat, ttl: int, t: Tables) returns (worlds: seq<World>, ops: seq<Op>)
    ensures worlds == [Quiet(EMPTY_CACHE, map[], t)] && ops == [] && IsRun(limit, ttl, worlds, ops)
  {
    worlds, ops := [Quiet(EMPTY_CACHE, map[], t)], [];
  }

  lemma LookStep(limit: nat, ttl: int, t: Tables, topic: Topic)
    requires !topic.Text?
    ensures Next(limit, ttl, Quiet(EMPTY_CACHE, map[], t), Look(0, topic, 0), Quiet(EMPTY_CACHE, map[0 := Asking(topic)], t))
  {
  }

  lemma AskStep(limit: nat, ttl: int, t: Tables, topic: Topic, list: seq<Uuid>)
    requires Fresh(limit, t, topic) == Resolved(list)
    ensures Next(limit, ttl, Quiet(EMPTY_CACHE, map[0 := Asking(topic)], t), Ask(0, false),
                 Quiet(EMPTY_CACHE, map[0 := Asked(topic, list, false)], t))
  {
    hide Fresh;
    assert map[0 := Asking(topic)][0 := Asked(topic, list, false)] == map[0 := Asked(topic, list, false)];
  }

  lemma FillStep(limit: nat, ttl: int, t: Tables, topic: Topic, list: seq<Uuid>, overtaken: bool)
    ensures Next(limit, ttl, Quiet(EMPTY_CACHE, map[0 := Asked(topic, list, overtaken)], t), Fill(0, 0),
                 Quiet(Remembered(topic, list, ttl), map[], t))
  {
    hide Store;
    assert map[0 := Asked(topic, list, overtaken)] - {0} == map[];
  }

  /** An edit with its event, and the handling of that event when it drops nothing. */
  lemma ChangeHandled(
    limit: nat, ttl: int, cache: State, calls: map<CallId, Call>, late: map<CallId, Call>, t: Tables, edit: Edit, e: Event)
    requires Succeeds(t, edit) && Published(t, edit) == multiset{e} && Drops(cache, e, [])
    requires Renewed(calls, multiset{e}) == calls && Overtaken(calls, e, multiset{}) == late
    ensures Next(limit, ttl, Quiet(cache, calls, t), Change(edit, multiset{e}), World(cache, calls, Edited(t, edit), multiset{e}))
    ensures Next(limit, ttl, World(cache, calls, Edited(t, edit), multiset{e}), Handle(e, false), Quiet(cache, late, Edited(t, edit)))
  {
    hide Succeeds, Published, Edited, Told, Drops, Overtaken, Renewed;
    assert multiset{} + multiset{e} == multiset{e} && multiset{e} - multiset{e} == multiset{};
    assert EvictAll(cache, []) == cache;
  }

  lemma OvertakesOne(topic: Topic, list: seq<Uuid>, e: Event)
    requires Names(e, topic, list)
    ensures Renewed(map[0 := Asked(topic, list, false)], multiset{e}) == map[0 := Asked(topic, list, false)]
    ensures Overtaken(map[0 := Asked(topic, list, false)], e, multiset{}) == map[0 := Asked(topic, list, true)]
  {
  }

  lemma OvertakesNone(e: Event)
    ensures Renewed(map[], multiset{e}) == map[] && Overtaken(map[], e, multiset{}) == map[]
  {
  }

  lemma MuteEventDropsNothing(cache: State, e: Event)
    requires !e.entity.TagEntity? && Addressed(e) == None
    ensures Drops(cache, e, [])
  {
  }

  lemma UnlistedTagDropsNothing(cache: State, e: Event)
    requires e.entity.TagEntity? && cache.entitiesByTag == map[]
    ensures Drops(cache, e, [])
  {
  }

  /** A resolve finds nothing cached, and asks. */
  lemma AsksFirst(limit: nat, ttl: int, t: Tables, topic: Topic, list: seq<Uuid>) returns (worlds: seq<World>, ops: seq<Op>)
    requires !topic.Text? && Fresh(limit, t, topic) == Resolved(list)
    ensures IsRun(limit, ttl, worlds, ops) && |worlds| == 3 && ops == [Look(0, topic, 0), Ask(0, false)]
    ensures worlds[0].tables == t && worlds[2] == Quiet(EMPTY_CACHE, map[0 := Asked(topic, list, false)], t)
  {
    assert Quiet(EMPTY_CACHE, map[], t).tables == t;
    hide *;
    worlds, ops := Starts(limit, ttl, t);
    LookStep(limit, ttl, t, topic);
    AskStep(limit, ttl, t, topic, list);
    worlds, ops := Grow(limit, ttl, worlds, ops, Look(0, topic, 0), Quiet(EMPTY_CACHE, map[0 := Asking(topic)], t));
    worlds, ops := Grow(limit, ttl, worlds, ops, Ask(0, false), Quiet(EMPTY_CACHE, map[0 := Asked(topic, list, false)], t));
  }

  /** And remembers the answer at once. */
  lemma Remembers(limit: nat, ttl: int, t: Tables, topic: Topic, list: seq<Uuid>) returns (worlds: seq<World>, ops: seq<Op>)
    requires !topic.Text? && Fresh(limit, t, topic) == Resolved(list)
    ensures IsRun(limit, ttl, worlds, ops) && |worlds| == 4 && ops == [Look(0, topic, 0), Ask(0, false), Fill(0, 0)]
    ensures worlds[0].tables == t && worlds[3] == Quiet(Remembered(topic, list, ttl), map[], t)
  {
    hide *;
    worlds, ops := AsksFirst(limit, ttl, t, topic, list);
    FillStep(limit, ttl, t, topic, list, false);
    worlds, ops := Grow(limit, ttl, worlds, ops, Fill(0, 0), Quiet(Remembered(topic, list, ttl), map[], t));
  }

  /** The members change, and the event of that, which drops nothing from the cache, is handled. */
  lemma ChangesInVain(limit: nat, ttl: int, t: Tables, topic: Topic, list: seq<Uuid>, edit: Edit, e: Event)
    returns (worlds: seq<World>, ops: seq<Op>)
    requires !topic.Text? && Fresh(limit, t, topic) == Resolved(list) && Drops(Remembered(topic, list, ttl), e, [])
    requires Succeeds(t, edit) && Published(t, edit) == multiset{e}
    ensures IsRun(limit, ttl, worlds, ops) && |worlds| == 6 && worlds[0].tables == t
    ensures ops == [Look(0, topic, 0), Ask(0, false), Fill(0, 0), Change(edit, multiset{e}), Handle(e, false)]
    ensures worlds[5] == Quiet(Remembered(topic, list, ttl), map[], Edited(t, edit))
  {
    hide *;
    worlds, ops := Remembers(limit, ttl, t, topic, list);
    var r := Edited(t, edit);
    var w4 := World(Remembered(topic, list, ttl), map[], r, multiset{e});
    OvertakesNone(e);
    ChangeHandled(limit, ttl, Remembered(topic, list, ttl), map[], map[], t, edit, e);
    worlds, ops := Grow(limit, ttl, worlds, ops, Change(edit, multiset{e}), w4);
    worlds, ops := Grow(limit, ttl, worlds, ops, Handle(e, false), Quiet(Remembered(topic, list, ttl), map[], r));
  }

  /** With nothing on its way, every look-up until the entry expires is answered with a list other than the repository's. */
  ghost predicate ServesOld(limit: nat, w: World, topic: Topic, list: seq<Uuid>, now: seq<Uuid>, until: int) {
    && w.pending == multiset{} && Fresh(limit, w.tables, topic) == Resolved(now) && list != now
    && (forall later :: later <= until ==> Answered(w, Look(1, topic, later)) == Some(list))
    && !UpToDate(limit, w)
  }

  lemma Serves(limit: nat, ttl: int, t: Tables, topic: Topic, list: seq<Uuid>, now: seq<Uuid>)
    requires NoDuplicates(list) && NIL_UUID !in list && list != now && Fresh(limit, t, topic) == Resolved(now)
    ensures ServesOld(limit, Quiet(Remembered(topic, list, ttl), map[], t), topic, list, now, ttl)
  {
    var w := Quiet(Remembered(topic, list, ttl), map[], t);
    RememberedFacts(topic, list, ttl);
    hide Fresh, Remembered;
    assert Held(w, topic, list);
    assert !Covered(limit, w, topic, list);
  }

  /** A figure is deleted and the event handled: its tag is served with the diagram for a whole lifetime. */
  lemma DeletedFigureIsServed(limit: nat, ttl: int) returns (worlds: seq<World>, ops: seq<Op>)
    requires limit > 0
    ensures IsRun(limit, ttl, worlds, ops) && |worlds| == 6 && worlds[0].tables == ONE_TAG
    ensures ops == [Look(0, DIAGRAM, 0), Ask(0, false), Fill(0, 0),
                    Change(DeleteFigure(Plain(1)), multiset{Bare(FigureEntity, Plain(1))}), Handle(Bare(FigureEntity, Plain(1)), false)]
    ensures ServesOld(limit, worlds[5], DIAGRAM, ONE, NOTHING, ttl)
  {
    var edit, e := DeleteFigure(Plain(1)), Bare(FigureEntity, Plain(1));
    assert !e.entity.TagEntity? && Addressed(e) == None;
    hide *;
    FigureIsDeleted();
    FreshOfOne(limit, ONE_TAG, DIAGRAM);
    FreshOfNone(limit, Edited(ONE_TAG, edit), DIAGRAM);
    Serves(limit, ttl, Edited(ONE_TAG, edit), DIAGRAM, ONE, NOTHING);
    MuteEventDropsNothing(Remembered(DIAGRAM, ONE, ttl), e);
    worlds, ops := ChangesInVain(limit, ttl, ONE_TAG, DIAGRAM, ONE, edit, e);
  }

  /** A tag is created on a device of the object and the event handled: the object goes without it for a whole lifetime. */
  lemma CreatedTagIsMissed(limit: nat, ttl: int) returns (worlds: seq<World>, ops: seq<Op>)
    requires limit > 0
    ensures IsRun(limit, ttl, worlds, ops) && |worlds| == 6 && worlds[0].tables == EMPTY_OBJECT
    ensures ops == [Look(0, OBJECT, 0), Ask(0, false), Fill(0, 0),
                    Change(CreateTag(1, 1), multiset{Bare(TagEntity, Plain(1))}), Handle(Bare(TagEntity, Plain(1)), false)]
    ensures ServesOld(limit, worlds[5], OBJECT, NOTHING, ONE, ttl)
  {
    var edit, e := CreateTag(1, 1), Bare(TagEntity, Plain(1));
    assert e.entity.TagEntity?;
    hide *;
    TagIsCreated();
    FreshOfNone(limit, EMPTY_OBJECT, OBJECT);
    FreshOfOne(limit, Edited(EMPTY_OBJECT, edit), OBJECT);
    Serves(limit, ttl, Edited(EMPTY_OBJECT, edit), OBJECT, NOTHING, ONE);
    RememberedFacts(OBJECT, NOTHING, ttl);
    UnlistedTagDropsNothing(Remembered(OBJECT, NOTHING, ttl), e);
    worlds, ops := ChangesInVain(limit, ttl, EMPTY_OBJECT, OBJECT, NOTHING, edit, e);
  }

  /** The members change, and the event of that is handled, while a resolve waits. */
  lemma ChangesMeanwhile(limit: nat, ttl: int, t: Tables, topic: Topic, list: seq<Uuid>, edit: Edit, e: Event)
    returns (worlds: seq<World>, ops: seq<Op>)
    requires !topic.Text? && Fresh(limit, t, topic) == Resolved(list) && Drops(EMPTY_CACHE, e, []) && Names(e, topic, list)
    requires Succeeds(t, edit) && Published(t, edit) == multiset{e}
    ensures IsRun(limit, ttl, worlds, ops) && |worlds| == 6 && worlds[0].tables == t
    ensures ops == [Look(0, topic, 0), Ask(0, false), Change(edit, multiset{e}), Handle(e, false), Fill(0, 0)]
    ensures worlds[5] == Quiet(Remembered(topic, list, ttl), map[], Edited(t, edit))
  {
    hide *;
    worlds, ops := AsksFirst(limit, ttl, t, topic, list);
    var r, calls, late := Edited(t, edit), map[0 := Asked(topic, list, false)], map[0 := Asked(topic, list, true)];
    var w3, w4 := World(EMPTY_CACHE, calls, r, multiset{e}), Quiet(EMPTY_CACHE, late, r);
    OvertakesOne(topic, list, e);
    ChangeHandled(limit, ttl, EMPTY_CACHE, calls, late, t, edit, e);
    FillStep(limit, ttl, r, topic, list, true);
    worlds, ops := Grow(limit, ttl, worlds, ops, Change(edit, multiset{e}), w3);
    worlds, ops := Grow(limit, ttl, worlds, ops, Handle(e, false), w4);
    worlds, ops := Grow(limit, ttl, worlds, ops, Fill(0, 0), Quiet(Remembered(topic, list, ttl), map[], r));
  }

  /** A tag is deleted and its event handled while a resolve waits: the tag is served with the object for a whole lifetime. */
  lemma OldAnswerIsServed(limit: nat, ttl: int) returns (worlds: seq<World>, ops: seq<Op>)
    requires limit > 0
    ensures IsRun(limit, ttl, worlds, ops) && |worlds| == 6 && worlds[0].tables == ONE_TAG
    ensures ops == [Look(0, OBJECT, 0), Ask(0, false),
                    Change(DeleteTag(1), multiset{Bare(TagEntity, Plain(1))}), Handle(Bare(TagEntity, Plain(1)), false), Fill(0, 0)]
    ensures ServesOld(limit, worlds[5], OBJECT, ONE, NOTHING, ttl)
  {
    var e := Bare(TagEntity, Plain(1));
    assert e.entity.TagEntity? && Names(e, OBJECT, ONE);
    hide *;
    TagIsDeleted();
    FreshOfOne(limit, ONE_TAG, OBJECT);
    FreshOfNone(limit, Edited(ONE_TAG, DeleteTag(1)), OBJECT);
    Serves(limit, ttl, Edited(ONE_TAG, DeleteTag(1)), OBJECT, ONE, NOTHING);
    UnlistedTagDropsNothing(EMPTY_CACHE, e);
    worlds, ops := ChangesMeanwhile(limit, ttl, ONE_TAG, OBJECT, ONE, DeleteTag(1), e);
  }
}
