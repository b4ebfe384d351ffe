/** Resolves, edits of the tables and the events that they publish, in any interleaving: what a cached answer can be. */
module MembershipRuns {
  import opened Common
  import opened SetIndex
  import opened Uuids
  import opened MembershipModel
  import opened EditorModel

  type CallId = nat

  /** A resolve on its way: it saw an expired entry, it is about to ask the repository, or it has an answer to remember. `overtaken`
    * says that the events that would drop the answer have been handled while it waited, and none is on its way any more. */
  datatype Call =
    | SawExpired(topic: Topic)
    | Asking(topic: Topic)
    | Asked(topic: Topic, tagIDs: seq<Uuid>, overtaken: bool)

  /** Events are `pending` from the edit that publishes them until they are handled. */
  datatype World = World(cache: State, calls: map<CallId, Call>, tables: Tables, pending: multiset<Event>)

  datatype Op =
    | Look(c: CallId, topic: Topic, now: int)
    | DropExpired(c: CallId)
    | Ask(c: CallId, fails: bool)
    | Fill(c: CallId, now: int)
    | Handle(e: Event, again: bool)
    | Change(edit: Edit, sent: multiset<Event>)

  /** The list that a call would remember. */
  predicate Waits(call: Call, topic: Topic, list: seq<Uuid>) {
    call.Asked? && call.topic == topic && call.tagIDs == list
  }

  /** The calls after an event was handled. */
  ghost function Overtaken(calls: map<CallId, Call>, e: Event, rest: multiset<Event>): map<CallId, Call> {
    map c | c in calls ::
      if calls[c].Asked? && Names(e, calls[c].topic, calls[c].tagIDs) && !Told(rest, calls[c].topic, calls[c].tagIDs)
      then calls[c].(overtaken := true) else calls[c]
  }

  /** The calls after events were published. */
  ghost function Renewed(calls: map<CallId, Call>, sent: multiset<Event>): map<CallId, Call> {
    map c | c in calls ::
      if calls[c].Asked? && Told(sent, calls[c].topic, calls[c].tagIDs) then calls[c].(overtaken := false) else calls[c]
  }

  /** Each section that holds the cache's lock is a step, and so are asking the repository, and an edit with its publication. The read of
    * an entry and the removal of an expired one are sections of their own, and the removal takes whatever entry is there by then. Any of
    * an edit's events may fail to be sent, events are handled in any order, and an event may be delivered `again`. */
  ghost predicate Next(limit: nat, ttl: int, w: World, op: Op, r: World) {
    match op
    case Look(c, topic, now) =>
      && c !in w.calls && !topic.Text?
      && r == (if Live(w.cache, topic, now) then w
               else w.(calls := w.calls[c := if topic in w.cache.byKey then SawExpired(topic) else Asking(topic)]))
    case DropExpired(c) =>
      && c in w.calls && w.calls[c].SawExpired?
      && r == w.(cache := Evict(w.cache, w.calls[c].topic), calls := w.calls[c := Asking(w.calls[c].topic)])
    case Ask(c, fails) =>
      && c in w.calls && w.calls[c].Asking?
      && var answer := Fresh(limit, w.tables, w.calls[c].topic);
         r == w.(calls := if fails || answer.Failed? then w.calls - {c}
                          else w.calls[c := Asked(w.calls[c].topic, answer.tagIDs, false)])
    case Fill(c, now) =>
      && c in w.calls && w.calls[c].Asked?
      && r == w.(cache := Store(w.cache, w.calls[c].topic, w.calls[c].tagIDs, now + ttl), calls := w.calls - {c})
    case Handle(e, again) =>
      && e in w.pending
      && var rest := if again then w.pending else w.pending - multiset{e};
         exists topics :: Drops(w.cache, e, topics)
           && r == w.(cache := EvictAll(w.cache, topics), pending := rest, calls := Overtaken(w.calls, e, rest))
    case Change(edit, sent) =>
      && Succeeds(w.tables, edit) && sent <= Published(w.tables, edit)
      && r == w.(tables := Edited(w.tables, edit), pending := w.pending + sent, calls := Renewed(w.calls, sent))
  }

  ghost predicate IsRun(limit: nat, ttl: int, worlds: seq<World>, ops: seq<Op>) {
    && |worlds| == |ops| + 1
    && worlds[0].cache == EMPTY_CACHE && worlds[0].calls == map[] && worlds[0].pending == multiset{}
    && forall i :: 0 <= i < |ops| ==> Next(limit, ttl, worlds[i], ops[i], worlds[i + 1])
  }

  lemma RunStep(limit: nat, ttl: int, worlds: seq<World>, ops: seq<Op>, i: nat)
    requires IsRun(limit, ttl, worlds, ops) && i < |ops|
    ensures |worlds| == |ops| + 1 && Next(limit, ttl, worlds[i], ops[i], worlds[i + 1])
  {
  }

  // ---- without interruption this is the whole resolve ----------------------------------------------------------

  lemma LooksUp(limit: nat, ttl: int, w: World, c: CallId, topic: Topic, now: int) returns (worlds: seq<World>, ops: seq<Op>)
    requires c !in w.calls && !topic.Text? && !Live(w.cache, topic, now)
    ensures 1 <= |ops| <= 2 && |worlds| == |ops| + 1 && worlds[0] == w
    ensures forall i :: 0 <= i < |ops| ==> Next(limit, ttl, worlds[i], ops[i], worlds[i + 1])
    ensures worlds[|ops|] == w.(cache := Lookedup(w.cache, topic, now), calls := w.calls[c := Asking(topic)])
  {
    hide Evict, EvictAll, Fresh;
    var asking := w.calls[c := Asking(topic)];
    if topic in w.cache.byKey {
      var seen := w.(calls := w.calls[c := SawExpired(topic)]);
      assert seen.calls[c := Asking(topic)] == asking;
      worlds, ops := [w, seen, w.(cache := Evict(w.cache, topic), calls := asking)], [Look(c, topic, now), DropExpired(c)];
    } else {
      worlds, ops := [w, w.(calls := asking)], [Look(c, topic, now)];
    }
  }

  lemma AsksAndFills(limit: nat, ttl: int, w: World, c: CallId, now: int, fails: bool) returns (worlds: seq<World>, ops: seq<Op>)
    requires c in w.calls && w.calls[c].Asking?
    ensures 1 <= |ops| <= 2 && |worlds| == |ops| + 1 && worlds[0] == w
    ensures forall i :: 0 <= i < |ops| ==> Next(limit, ttl, worlds[i], ops[i], worlds[i + 1])
    ensures var topic := w.calls[c].topic;
      var answer := Fresh(limit, w.tables, topic);
      worlds[|ops|] == w.(calls := w.calls - {c},
        cache := if fails || answer.Failed? then w.cache else Store(w.cache, topic, answer.tagIDs, now + ttl))
  {
    hide Store, EvictAll, Fresh;
    var topic := w.calls[c].topic;
    var answer := Fresh(limit, w.tables, topic);
    if fails || answer.Failed? {
      worlds, ops := [w, w.(calls := w.calls - {c})], [Ask(c, fails)];
    } else {
      var asked := w.(calls := w.calls[c := Asked(topic, answer.tagIDs, false)]);
      assert asked.calls - {c} == w.calls - {c};
      var r := w.(cache := Store(w.cache, topic, answer.tagIDs, now + ttl), calls := w.calls - {c});
      worlds, ops := [w, asked, r], [Ask(c, fails), Fill(c, now)];
    }
  }

  /** The sections of one resolve, one right after the other, are the whole resolve, whether or not the repository fails. */
  lemma UninterruptedIsWhole(limit: nat, ttl: int, w: World, c: CallId, topic: Topic, now: int, fails: bool)
    returns (worlds: seq<World>, ops: seq<Op>)
    requires c !in w.calls && !topic.Text?
    ensures |worlds| == |ops| + 1 && worlds[0] == w
    ensures forall i :: 0 <= i < |ops| ==> Next(limit, ttl, worlds[i], ops[i], worlds[i + 1])
    ensures worlds[|ops|]
      == w.(cache := AfterResolve(w.cache, topic, if fails then Broken else Rows(w.tables, topic), limit, ttl, now))
  {
    hide Store, Next, Evict;
    if Live(w.cache, topic, now) {
      worlds, ops := [w, w], [Look(c, topic, now)];
      LooksOnly(limit, ttl, w, c, topic, now);
    } else {
      var before, first := LooksUp(limit, ttl, w, c, topic, now);
      var after, last := AsksAndFills(limit, ttl, before[|first|], c, now, fails);
      assert w.calls[c := Asking(topic)] - {c} == w.calls;
      worlds, ops := before + after[1..], first + last;
      forall i | 0 <= i < |ops|
        ensures Next(limit, ttl, worlds[i], ops[i], worlds[i + 1])
      {
        if i < |first| {
          assert Next(limit, ttl, before[i], first[i], before[i + 1]);
        } else {
          var k := i - |first|;
          assert Next(limit, ttl, after[k], last[k], after[k + 1]);
        }
      }
    }
  }

  lemma LooksOnly(limit: nat, ttl: int, w: World, c: CallId, topic: Topic, now: int)
    requires c !in w.calls && !topic.Text? && Live(w.cache, topic, now)
    ensures Next(limit, ttl, w, Look(c, topic, now), w)
  {
  }

  /** Handling an event takes one delivery of it away, or none if it comes again. */
  lemma EventsAreHandled(limit: nat, ttl: int, w: World, e: Event, again: bool) returns (r: World)
    requires e in w.pending
    ensures Next(limit, ttl, w, Handle(e, again), r)
    ensures r.pending[e] == if again then w.pending[e] else w.pending[e] - 1
    ensures forall other :: other != e ==> r.pending[other] == w.pending[other]
  {
    var topics := [];
    if e.entity.TagEntity? {
      topics := ElementsOf(Lookup(w.cache.entitiesByTag, e.id.uuid));
    } else if Addressed(e).Some? && Addressed(e).value in w.cache.byKey {
      topics := [Addressed(e).value];
    }
    var rest := if again then w.pending else w.pending - multiset{e};
    r := w.(cache := EvictAll(w.cache, topics), pending := rest, calls := Overtaken(w.calls, e, rest));
    assert Drops(w.cache, e, topics);
    hide Drops, EvictAll, Overtaken;
  }

  // ---- the two maps agree, whatever comes between --------------------------------------------------------------

  /** A waiting answer is a clean list within the limit; it is overtaken only when no event on its way would drop it. */
  ghost predicate CallFits(limit: nat, pending: multiset<Event>, call: Call) {
    && !call.topic.Text?
    && (call.Asked? ==> NoDuplicates(call.tagIDs) && NIL_UUID !in call.tagIDs && |call.tagIDs| <= limit)
    && (call.Asked? && call.overtaken ==> !Told(pending, call.topic, call.tagIDs))
  }

  ghost predicate Orderly(limit: nat, w: World) {
    Consistent(w.cache) && WithinLimit(limit, w.cache) && forall c :: c in w.calls ==> CallFits(limit, w.pending, w.calls[c])
  }

  lemma FreshIsClean(limit: nat, t: Tables, topic: Topic)
    ensures var answer := Fresh(limit, t, topic);
      answer.Resolved? ==> NoDuplicates(answer.tagIDs) && NIL_UUID !in answer.tagIDs && |answer.tagIDs| <= limit
  {
    var source := Rows(t, topic);
    hide Rows;
    if source.Found? {
      DistinctFacts(source.tagIDs);
      hide NoDuplicates, Distinct, ToSet;
    }
  }

  lemma NextKeepsCalls(limit: nat, ttl: int, w: World, op: Op, r: World)
    requires Orderly(limit, w) && Next(limit, ttl, w, op, r)
    ensures forall c :: c in r.calls ==> CallFits(limit, r.pending, r.calls[c])
  {
    hide Consistent, WithinLimit, Store, Evict, EvictAll, Drops, Distinct, NoDuplicates, Fresh, Names, Edited, Published;
    if op.Ask? {
      FreshIsClean(limit, w.tables, w.calls[op.c].topic);
    }
  }

  lemma NextKeepsCache(limit: nat, ttl: int, w: World, op: Op, r: World)
    requires Orderly(limit, w) && Next(limit, ttl, w, op, r)
    ensures Consistent(r.cache) && WithinLimit(limit, r.cache)
  {
    hide Overtaken, Renewed, Consistent, WithinLimit, Store, Evict, EvictAll, Drops;
    hide Distinct, NoDuplicates, Fresh, Names, Told, Edited, Published, Succeeds;
    if op.DropExpired? {
      EvictKeeps(w.cache, w.calls[op.c].topic, limit);
    } else if op.Fill? {
      StoreKeeps(w.cache, w.calls[op.c].topic, w.calls[op.c].tagIDs, op.now + ttl, limit);
    } else if op.Handle? {
      var topics :| Drops(w.cache, op.e, topics) && r.cache == EvictAll(w.cache, topics);
      EvictAllFacts(w.cache, topics, limit);
    }
  }

  lemma NextKeeps(limit: nat, ttl: int, w: World, op: Op, r: World)
    requires Orderly(limit, w) && Next(limit, ttl, w, op, r)
    ensures Orderly(limit, r)
  {
    hide Next, CallFits, Consistent, WithinLimit;
    NextKeepsCalls(limit, ttl, w, op, r);
    NextKeepsCache(limit, ttl, w, op, r);
  }

  /** In every state of every interleaving the inverse index agrees with the cache and no list is beyond the limit. */
  lemma {:induction false} RunsStayConsistent(limit: nat, ttl: int, worlds: seq<World>, ops: seq<Op>, i: nat)
    requires IsRun(limit, ttl, worlds, ops) && i < |worlds|
    ensures Orderly(limit, worlds[i])
  {
    if i > 0 {
      RunsStayConsistent(limit, ttl, worlds, ops, i - 1);
      hide Next, Orderly;
      RunStep(limit, ttl, worlds, ops, i - 1);
      NextKeeps(limit, ttl, worlds[i - 1], ops[i - 1], worlds[i]);
    }
  }

  /** What a step answers: a hit, or a fresh answer that is remembered at the same time. */
  function Answered(w: World, op: Op): Option<seq<Uuid>> {
    match op
    case Look(_, topic, now) => if Live(w.cache, topic, now) then Some(w.cache.byKey[topic].tagIDs) else None
    case Fill(c, _) => if c in w.calls && w.calls[c].Asked? then Some(w.calls[c].tagIDs) else None
    case _ => None
  }

  /** Every answer ever given is nil-free, duplicate-free and within the resolve limit, cached or not. */
  lemma AnswersAreClean(limit: nat, ttl: int, worlds: seq<World>, ops: seq<Op>, i: nat)
    requires IsRun(limit, ttl, worlds, ops) && i < |ops| && Answered(worlds[i], ops[i]).Some?
    ensures var tagIDs := Answered(worlds[i], ops[i]).value;
      NoDuplicates(tagIDs) && NIL_UUID !in tagIDs && |tagIDs| <= limit
  {
    RunsStayConsistent(limit, ttl, worlds, ops, i);
    hide IsRun, NoDuplicates;
  }

  // ---- how old an answer can be -----------------------------------------------------------------------------------

  /** The list is cached under the topic, or waits to be remembered and was not overtaken. */
  ghost predicate Held(w: World, topic: Topic, list: seq<Uuid>) {
    || (topic in w.cache.byKey && w.cache.byKey[topic].tagIDs == list)
    || (exists c :: c in w.calls && Waits(w.calls[c], topic, list) && !w.calls[c].overtaken)
  }

  /** What the repository would say now, or an event that will drop it is on its way. */
  ghost predicate Covered(limit: nat, w: World, topic: Topic, list: seq<Uuid>) {
    Fresh(limit, w.tables, topic) == Resolved(list) || Told(w.pending, topic, list)
  }

  /** No list that is cached or about to be is out of date for good. */
  ghost predicate UpToDate(limit: nat, w: World) {
    forall topic, list :: Held(w, topic, list) ==> Covered(limit, w, topic, list)
  }

  /** An answer is remembered that changed since it was given, and whose events came while it waited. */
  ghost predicate FillsOvertaken(limit: nat, w: World, op: Op) {
    && op.Fill? && op.c in w.calls && w.calls[op.c].Asked? && w.calls[op.c].overtaken
    && Fresh(limit, w.tables, w.calls[op.c].topic) != Resolved(w.calls[op.c].tagIDs)
  }

  /** An edit changes the topic's members, other than by deleting a tag or the topic's own diagram or object under the same text, or its
    * event is not sent; and no earlier event that would drop the list is still on its way. */
  ghost predicate GoesUntold(limit: nat, w: World, edit: Edit, sent: multiset<Event>, topic: Topic, list: seq<Uuid>) {
    && Succeeds(w.tables, edit)
    && Fresh(limit, w.tables, topic) == Resolved(list) != Fresh(limit, Edited(w.tables, edit), topic)
    && !(NamesWhatChanges(edit, topic) && sent == Published(w.tables, edit))
    && !Told(w.pending, topic, list)
  }

  /** That happens to a list that is cached or about to be. */
  ghost predicate ChangesUntold(limit: nat, w: World, op: Op) {
    op.Change? && exists topic, list :: Held(w, topic, list) && GoesUntold(limit, w, op.edit, op.sent, topic, list)
  }

  lemma ToldByEither(a: multiset<Event>, b: multiset<Event>, topic: Topic, list: seq<Uuid>)
    ensures Told(a + b, topic, list) <==> Told(a, topic, list) || Told(b, topic, list)
  {
    if e :| e in a && Names(e, topic, list) {
      assert e in a + b;
    }
    if e :| e in b && Names(e, topic, list) {
      assert e in a + b;
    }
  }

  lemma ToldByRest(pending: multiset<Event>, e: Event, topic: Topic, list: seq<Uuid>)
    requires Told(pending, topic, list) && !Names(e, topic, list)
    ensures Told(pending - multiset{e}, topic, list)
  {
    var x :| x in pending && Names(x, topic, list);
    assert x in pending - multiset{e};
  }

  // A step at a time: what is held afterwards, and whether it is covered.

  lemma HandledIsHeld(limit: nat, ttl: int, w: World, op: Op, r: World, topic: Topic, list: seq<Uuid>)
    requires Orderly(limit, w) && Next(limit, ttl, w, op, r) && op.Handle? && Held(r, topic, list)
    ensures Held(w, topic, list) && (Names(op.e, topic, list) ==> Told(r.pending, topic, list))
  {
    hide Consistent, WithinLimit, EvictAll, Drops, Names, Told, NoDuplicates;
    var topics :| Drops(w.cache, op.e, topics) && r.cache == EvictAll(w.cache, topics);
    DropsExactly(w.cache, op.e, topics);
  }

  lemma HandleKeeps(limit: nat, ttl: int, w: World, op: Op, r: World)
    requires Orderly(limit, w) && Next(limit, ttl, w, op, r) && op.Handle? && UpToDate(limit, w)
    ensures UpToDate(limit, r)
  {
    forall topic, list | Held(r, topic, list)
      ensures Covered(limit, r, topic, list)
    {
      HandledIsHeld(limit, ttl, w, op, r, topic, list);
      hide Held, Fresh, Names, Told, Orderly;
      assert Covered(limit, w, topic, list);
      if Told(w.pending, topic, list) && !Names(op.e, topic, list) && !op.again {
        ToldByRest(w.pending, op.e, topic, list);
      }
    }
  }

  lemma ChangedIsHeld(limit: nat, ttl: int, w: World, op: Op, r: World, topic: Topic, list: seq<Uuid>)
    requires Next(limit, ttl, w, op, r) && op.Change?
    ensures Held(w, topic, list) ==> Held(r, topic, list)
    ensures Held(r, topic, list) ==> Held(w, topic, list) || Told(op.sent, topic, list)
  {
    hide Told, Edited, Published, Succeeds;
    if c :| c in w.calls && Waits(w.calls[c], topic, list) && !w.calls[c].overtaken {
      assert c in r.calls && Waits(r.calls[c], topic, list) && !r.calls[c].overtaken;
    }
  }

  lemma ChangeKeepsIff(limit: nat, ttl: int, w: World, op: Op, r: World)
    requires Next(limit, ttl, w, op, r) && op.Change? && UpToDate(limit, w)
    ensures UpToDate(limit, r) <==> !ChangesUntold(limit, w, op)
  {
    hide Held, Fresh, Told, Edited, Published, Succeeds, NamesWhatChanges;
    if !ChangesUntold(limit, w, op) {
      forall topic, list | Held(r, topic, list)
        ensures Covered(limit, r, topic, list)
      {
        ChangedIsHeld(limit, ttl, w, op, r, topic, list);
        ToldByEither(w.pending, op.sent, topic, list);
        if !Told(op.sent, topic, list) {
          assert Covered(limit, w, topic, list) && !GoesUntold(limit, w, op.edit, op.sent, topic, list);
          if !Told(w.pending, topic, list) && Fresh(limit, r.tables, topic) != Resolved(list) {
            SentTellsIff(limit, w.tables, op.edit, op.sent, topic, list);
          }
        }
      }
    } else {
      var topic, list :| Held(w, topic, list) && GoesUntold(limit, w, op.edit, op.sent, topic, list);
      ChangedIsHeld(limit, ttl, w, op, r, topic, list);
      ToldByEither(w.pending, op.sent, topic, list);
      SentTellsIff(limit, w.tables, op.edit, op.sent, topic, list);
      assert !Covered(limit, r, topic, list);
    }
  }

  lemma FilledIsHeld(limit: nat, ttl: int, w: World, op: Op, r: World, topic: Topic, list: seq<Uuid>)
    requires Orderly(limit, w) && Next(limit, ttl, w, op, r) && op.Fill?
    ensures Held(r, w.calls[op.c].topic, w.calls[op.c].tagIDs)
    ensures Held(r, topic, list) ==> Held(w, topic, list) || (topic == w.calls[op.c].topic && list == w.calls[op.c].tagIDs)
  {
    DistinctOfClean(w.calls[op.c].tagIDs);
    hide Consistent, WithinLimit, Distinct, NoDuplicates, Told, LinkAll, UnlinkAll;
  }

  lemma FillKeepsIff(limit: nat, ttl: int, w: World, op: Op, r: World)
    requires Orderly(limit, w) && Next(limit, ttl, w, op, r) && op.Fill? && UpToDate(limit, w)
    ensures UpToDate(limit, r) <==> !FillsOvertaken(limit, w, op)
  {
    var topic, list := w.calls[op.c].topic, w.calls[op.c].tagIDs;
    FilledIsHeld(limit, ttl, w, op, r, topic, list);
    if !w.calls[op.c].overtaken {
      assert Waits(w.calls[op.c], topic, list) && Held(w, topic, list);
    }
    assert w.calls[op.c].overtaken ==> !Told(w.pending, topic, list);
    hide Orderly, Held, Fresh, Told, Store;
    if !FillsOvertaken(limit, w, op) {
      forall k, l | Held(r, k, l)
        ensures Covered(limit, r, k, l)
      {
        FilledIsHeld(limit, ttl, w, op, r, k, l);
        assert Covered(limit, w, k, l);
      }
    } else {
      assert !Covered(limit, r, topic, list);
    }
  }

  lemma OthersAreHeld(limit: nat, ttl: int, w: World, op: Op, r: World, topic: Topic, list: seq<Uuid>)
    requires Next(limit, ttl, w, op, r) && (op.Look? || op.DropExpired? || op.Ask?)
    ensures Held(r, topic, list) ==> Held(w, topic, list) || Fresh(limit, w.tables, topic) == Resolved(list)
  {
    hide Fresh, Told;
    if op.Ask? && op.c in r.calls {
      assert r.calls[op.c].Asked?;
    }
  }

  /** Only two kinds of step put the cache out of date. */
  lemma NextUpToDateIff(limit: nat, ttl: int, w: World, op: Op, r: World)
    requires Orderly(limit, w) && UpToDate(limit, w) && Next(limit, ttl, w, op, r)
    ensures UpToDate(limit, r) <==> !FillsOvertaken(limit, w, op) && !ChangesUntold(limit, w, op)
  {
    match op
    case Handle(_, _) => HandleKeeps(limit, ttl, w, op, r);
    case Change(_, _) => ChangeKeepsIff(limit, ttl, w, op, r);
    case Fill(_, _) => FillKeepsIff(limit, ttl, w, op, r);
    case _ =>
      forall topic, list | Held(r, topic, list)
        ensures Covered(limit, r, topic, list)
      {
        OthersAreHeld(limit, ttl, w, op, r, topic, list);
        hide Held, Fresh, Told, Orderly;
        assert Held(w, topic, list) ==> Covered(limit, w, topic, list);
      }
  }

  lemma StepUpToDateIff(limit: nat, ttl: int, worlds: seq<World>, ops: seq<Op>, i: nat)
    requires IsRun(limit, ttl, worlds, ops) && i < |ops| && UpToDate(limit, worlds[i])
    ensures UpToDate(limit, worlds[i + 1]) <==> !FillsOvertaken(limit, worlds[i], ops[i]) && !ChangesUntold(limit, worlds[i], ops[i])
  {
    hide Next, UpToDate, FillsOvertaken, ChangesUntold, Orderly;
    RunsStayConsistent(limit, ttl, worlds, ops, i);
    RunStep(limit, ttl, worlds, ops, i);
    NextUpToDateIff(limit, ttl, worlds[i], ops[i], worlds[i + 1]);
  }

  /** None of the first n steps is of either kind. */
  ghost predicate Careful(limit: nat, worlds: seq<World>, ops: seq<Op>, n: nat)
    requires |worlds| == |ops| + 1 && n <= |ops|
  {
    forall k :: 0 <= k < n ==> !FillsOvertaken(limit, worlds[k], ops[k]) && !ChangesUntold(limit, worlds[k], ops[k])
  }

  lemma {:induction false} RunsUpToDate(limit: nat, ttl: int, worlds: seq<World>, ops: seq<Op>, i: nat)
    requires IsRun(limit, ttl, worlds, ops) && i < |worlds| && Careful(limit, worlds, ops, i)
    ensures UpToDate(limit, worlds[i])
  {
    hide Next, FillsOvertaken, ChangesUntold;
    if i > 0 {
      RunsUpToDate(limit, ttl, worlds, ops, i - 1);
      StepUpToDateIff(limit, ttl, worlds, ops, i - 1);
    }
  }

  /** Over any interleaving every list that is cached or about to be is current or going to be dropped, in every state, if and only if no
    * overtaken answer that has changed is remembered and no edit changes such a list untold. */
  lemma RunsUpToDateIff(limit: nat, ttl: int, worlds: seq<World>, ops: seq<Op>)
    requires IsRun(limit, ttl, worlds, ops)
    ensures (forall i :: 0 <= i < |worlds| ==> UpToDate(limit, worlds[i])) <==> Careful(limit, worlds, ops, |ops|)
  {
    hide UpToDate, FillsOvertaken, ChangesUntold, Next;
    if Careful(limit, worlds, ops, |ops|) {
      forall i | 0 <= i < |worlds|
        ensures UpToDate(limit, worlds[i])
      {
        RunsUpToDate(limit, ttl, worlds, ops, i);
      }
    }
    if forall i :: 0 <= i < |worlds| ==> UpToDate(limit, worlds[i]) {
      forall k | 0 <= k < |ops|
        ensures !FillsOvertaken(limit, worlds[k], ops[k]) && !ChangesUntold(limit, worlds[k], ops[k])
      {
        StepUpToDateIff(limit, ttl, worlds, ops, k);
      }
    }
  }

  /** In such a run a hit on a list that no event on its way would drop is what the repository would say at that moment. */
  lemma HitsAreCurrent(limit: nat, ttl: int, worlds: seq<World>, ops: seq<Op>, i: nat)
    requires IsRun(limit, ttl, worlds, ops) && i < |ops| && Careful(limit, worlds, ops, |ops|)
    requires ops[i].Look? && Live(worlds[i].cache, ops[i].topic, ops[i].now)
    requires !Told(worlds[i].pending, ops[i].topic, worlds[i].cache.byKey[ops[i].topic].tagIDs)
    ensures Fresh(limit, worlds[i].tables, ops[i].topic) == Resolved(Answered(worlds[i], ops[i]).value)
  {
    RunsUpToDate(limit, ttl, worlds, ops, i);
    hide IsRun, Careful, Fresh, Told;
    assert Held(worlds[i], ops[i].topic, worlds[i].cache.byKey[ops[i].topic].tagIDs);
  }

  lemma WasAsked(limit: nat, ttl: int, w: World, op: Op, r: World, c: CallId)
    requires Next(limit, ttl, w, op, r) && c in r.calls && r.calls[c].Asked? && r.calls[c].overtaken
    ensures c in w.calls && Waits(w.calls[c], r.calls[c].topic, r.calls[c].tagIDs)
    ensures w.calls[c].overtaken || (op.Handle? && Names(op.e, r.calls[c].topic, r.calls[c].tagIDs))
  {
    hide Fresh, Told, Names, Drops, EvictAll, Store, Evict, Edited, Published, Succeeds;
  }

  /** An overtaken answer was waiting when an event that would drop it was handled. */
  lemma {:induction false} OvertakenByHandling(limit: nat, ttl: int, worlds: seq<World>, ops: seq<Op>, i: nat, c: CallId) returns (j: nat)
    requires IsRun(limit, ttl, worlds, ops) && i < |worlds|
    requires c in worlds[i].calls && worlds[i].calls[c].Asked? && worlds[i].calls[c].overtaken
    ensures j < i && ops[j].Handle? && Names(ops[j].e, worlds[i].calls[c].topic, worlds[i].calls[c].tagIDs)
    ensures c in worlds[j].calls && Waits(worlds[j].calls[c], worlds[i].calls[c].topic, worlds[i].calls[c].tagIDs)
  {
    assert i > 0;
    RunStep(limit, ttl, worlds, ops, i - 1);
    WasAsked(limit, ttl, worlds[i - 1], ops[i - 1], worlds[i], c);
    hide Next, Names;
    if worlds[i - 1].calls[c].overtaken {
      j := OvertakenByHandling(limit, ttl, worlds, ops, i - 1, c);
    } else {
      j := i - 1;
    }
  }
}
