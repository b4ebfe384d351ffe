/** Ingestions taken apart into their store calls, between which other ingestions of the tag and its deletion may come. */
module AlarmRaces {
  import opened Common
  import opened AlarmEvaluator
  import opened AlarmLog

  type CallId = nat

  /** An ingestion on its way with the row as it was read: about to store the row, or about to apply a transition, perhaps after it has
    * stored a first row. */
  datatype Call =
    | Storing(seen: Option<Row>, record: Record, rules: Rules)
    | Applying(seen: Option<Row>, record: Record, rules: Rules, stored: bool)

  datatype World = World(a: TagAlarm, calls: map<CallId, Call>)

  datatype Step =
    | Read(c: CallId, record: Record, rules: Rules, fails: bool)
    | Store(c: CallId, fails: bool)
    | Apply(c: CallId, fails: bool)
    | Delete

  /** The tag as a call sees it that has read the row. */
  function View(seen: Option<Row>): TagAlarm {
    NO_ALARM.(row := seen)
  }

  function StateOf(row: Option<Row>): AlarmState {
    if row.Some? then row.value.state else OK
  }

  function Changes(call: Call): bool {
    Evaluated(View(call.seen), call.record, call.rules).1
  }

  function NewRow(call: Call): Row {
    Seen(View(call.seen), call.record, call.rules)
  }

  function Logged(call: Call): Event {
    Transition(View(call.seen), call.record, call.rules)
  }

  /** What an ingestion goes on with once the row is read: only a first row, or one whose state stays, is stored on its own. */
  function Judged(seen: Option<Row>, record: Record, rules: Rules): Call {
    if seen.None? || !Evaluated(View(seen), record, rules).1 then Storing(seen, record, rules) else Applying(seen, record, rules, false)
  }

  /** Neither writing call looks at the row again. */
  predicate Next(w: World, step: Step, r: World) {
    match step
    case Read(c, record, rules, fails) =>
      c !in w.calls && r == if fails then w else w.(calls := w.calls[c := Judged(w.a.row, record, rules)])
    case Store(c, fails) =>
      && c in w.calls && w.calls[c].Storing?
      && var call := w.calls[c];
         r == if fails then w.(calls := w.calls - {c})
              else World(w.a.(row := Some(NewRow(call))),
                         if Changes(call) then w.calls[c := Applying(call.seen, call.record, call.rules, true)] else w.calls - {c})
    case Apply(c, fails) =>
      && c in w.calls && w.calls[c].Applying?
      && r == World(if fails then w.a else w.a.(row := Some(NewRow(w.calls[c])), log := w.a.log + [Logged(w.calls[c])]), w.calls - {c})
    case Delete => r == w.(a := Deleted(w.a))
  }

  predicate IsRun(worlds: seq<World>, steps: seq<Step>) {
    && |worlds| == |steps| + 1
    && worlds[0] == World(NO_ALARM, map[])
    && forall i :: 0 <= i < |steps| ==> Next(worlds[i], steps[i], worlds[i + 1])
  }

  lemma RunStep(worlds: seq<World>, steps: seq<Step>, i: nat)
    requires IsRun(worlds, steps) && i < |steps|
    ensures |worlds| == |steps| + 1 && Next(worlds[i], steps[i], worlds[i + 1])
  {
  }

  // ---- without interruption this is the whole ingestion --------------------------------------------------------

  predicate IsPath(path: seq<World>, steps: seq<Step>) {
    |path| == |steps| + 1 && forall i :: 0 <= i < |steps| ==> Next(path[i], steps[i], path[i + 1])
  }

  /** The calls of an ingestion, one right after the other and with any of them failing, are the ingestion of the coarser model. */
  lemma UninterruptedIsWhole(w: World, c: CallId, record: Record, rules: Rules, faults: Faults) returns (path: seq<World>, steps: seq<Step>)
    requires c !in w.calls
    ensures IsPath(path, steps) && |steps| > 0 && path[0] == w && steps[0] == Read(c, record, rules, faults.get)
    ensures path[|steps|] == World(IngestOne(w.a, record, rules, faults).0, w.calls)
  {
    hide EvaluateAlarmState;
    if faults.get {
      path, steps := [w, w], [Read(c, record, rules, true)];
      return;
    }
    var call := Judged(w.a.row, record, rules);
    var w1 := w.(calls := w.calls[c := call]);
    path, steps := [w, w1], [Read(c, record, rules, false)];
    var last := w1;
    if call.Storing? {
      var kept := if Changes(call) && !faults.upsert then w1.calls[c := Applying(call.seen, record, rules, true)] else w1.calls - {c};
      last := World(if faults.upsert then w.a else w.a.(row := Some(NewRow(call))), kept);
      assert Next(w1, Store(c, faults.upsert), last);
      path, steps := path + [last], steps + [Store(c, faults.upsert)];
    }
    if c in last.calls {
      var applied := last.a.(row := Some(NewRow(last.calls[c])), log := last.a.log + [Logged(last.calls[c])]);
      var done := if faults.transition then last.a else applied;
      assert Next(last, Apply(c, faults.transition), World(done, last.calls - {c}));
      path, steps := path + [World(done, last.calls - {c})], steps + [Apply(c, faults.transition)];
    }
    assert path[|steps|].calls == w.calls;
  }

  // ---- when the log stays true ----------------------------------------------------------------------------------

  /** The call has stored a first row whose transition it has yet to log. */
  predicate Owes(call: Call) {
    call.Applying? && call.stored
  }

  /** The stored state is the one in which the log ends. */
  predicate RowAgrees(a: TagAlarm)
    requires a.since <= |a.log|
  {
    StateOf(a.row) == LastState(Life(a)) && (a.row.None? ==> Life(a) == [])
  }

  /** The transitions since the last deletion chain from OK, and the stored state is the one in which they end unless a first row's
    * transition is still on its way. */
  ghost predicate Truthful(w: World) {
    && w.a.since <= |w.a.log| && Chained(Life(w.a))
    && (RowAgrees(w.a) || exists c :: c in w.calls && Owes(w.calls[c]))
  }

  /** With no ingestion under way that says that the log replays to the stored state. */
  lemma AtRestReplaysIff(w: World)
    requires w.calls == map[]
    ensures Truthful(w) <==> Replays(w.a)
  {
  }

  /** A call has read what the evaluation made of it says. */
  ghost predicate Sound(w: World) {
    forall c :: c in w.calls ==>
      && (w.calls[c].Storing? ==> w.calls[c].seen.None? || !Changes(w.calls[c]))
      && (w.calls[c].Applying? ==> Changes(w.calls[c]) && (w.calls[c].stored ==> w.calls[c].seen.None?))
  }

  lemma NextKeepsSound(w: World, step: Step, r: World)
    requires Sound(w) && Next(w, step, r)
    ensures Sound(r)
  {
    hide EvaluateAlarmState;
  }

  /** No other call than c owes a transition. */
  ghost predicate NobodyElseOwes(w: World, c: CallId) {
    forall b :: b in w.calls && b != c ==> !Owes(w.calls[b])
  }

  /** The steps that break it: a transition is applied from a state other than the log's, a state other than the log's is written back
    * while no transition is owed, or the only owed transition fails while the row has its state. */
  ghost predicate Breaks(w: World, step: Step) {
    w.a.since <= |w.a.log|
    && match step
    case Apply(c, fails) =>
      && c in w.calls && w.calls[c].Applying?
      && if fails then Owes(w.calls[c]) && NobodyElseOwes(w, c) && !RowAgrees(w.a)
         else StateOf(w.calls[c].seen) != LastState(Life(w.a))
    case Store(c, fails) =>
      && !fails && c in w.calls && w.calls[c].Storing? && !Changes(w.calls[c])
      && NobodyElseOwes(w, c) && StateOf(w.calls[c].seen) != LastState(Life(w.a))
    case _ => false
  }

  /** While no transition is owed, "other than the log's" is "changed since the row was read". */
  lemma BreaksIffRowMoved(w: World, step: Step)
    requires Truthful(w) && (forall b :: b in w.calls ==> !Owes(w.calls[b]))
    ensures Breaks(w, step) <==>
      || (step.Apply? && step.c in w.calls && w.calls[step.c].Applying? && !step.fails
          && StateOf(w.calls[step.c].seen) != StateOf(w.a.row))
      || (step.Store? && step.c in w.calls && w.calls[step.c].Storing? && !step.fails && !Changes(w.calls[step.c])
          && StateOf(w.calls[step.c].seen) != StateOf(w.a.row))
  {
    hide Changes, Chained;
  }

  lemma LogChainsIff(log: seq<Event>, e: Event)
    requires Chained(log) && e.stateFrom != e.stateTo && (e.eventType == Cleared <==> e.stateTo == OK)
    ensures Chained(log + [e]) <==> e.stateFrom == LastState(log)
    ensures LastState(log + [e]) == e.stateTo
  {
    if e.stateFrom == LastState(log) {
      ChainedSnoc(log, e);
    } else {
      var all := log + [e];
      assert all[|log|] == e && (log != [] ==> all[|log| - 1] == log[|log| - 1]);
    }
  }

  lemma LoggedFacts(call: Call)
    requires Changes(call)
    ensures Logged(call).stateFrom == StateOf(call.seen) && Logged(call).stateTo == NewRow(call).state
    ensures Logged(call).stateFrom != Logged(call).stateTo && (Logged(call).eventType == Cleared <==> Logged(call).stateTo == OK)
  {
    ChangedIffDifferent(StateOf(call.seen), call.record.value, call.record.quality, call.rules.setpoints, call.rules.hysteresisPercent);
    hide EvaluateAlarmState;
  }

  lemma StoredFacts(call: Call)
    requires !Changes(call)
    ensures NewRow(call).state == StateOf(call.seen)
  {
    ChangedIffDifferent(StateOf(call.seen), call.record.value, call.record.quality, call.rules.setpoints, call.rules.hysteresisPercent);
    hide EvaluateAlarmState;
  }

  lemma ApplyTruthfulIff(w: World, step: Step, r: World)
    requires Sound(w) && Truthful(w) && Next(w, step, r) && step.Apply?
    ensures Truthful(r) <==> !Breaks(w, step)
  {
    var call := w.calls[step.c];
    LoggedFacts(call);
    hide Changes, NewRow, Logged, Chained;
    if !step.fails {
      assert Life(r.a) == Life(w.a) + [Logged(call)];
      LogChainsIff(Life(w.a), Logged(call));
    } else {
      assert forall b :: b in r.calls <==> b in w.calls && b != step.c;
    }
  }

  lemma StoreTruthfulIff(w: World, step: Step, r: World)
    requires Sound(w) && Truthful(w) && Next(w, step, r) && step.Store?
    ensures Truthful(r) <==> !Breaks(w, step)
  {
    var call := w.calls[step.c];
    if !Changes(call) {
      StoredFacts(call);
    }
    hide Changes, NewRow, Logged, Chained;
    assert Life(r.a) == Life(w.a);
    if !step.fails && Changes(call) {
      assert step.c in r.calls && Owes(r.calls[step.c]);
    } else {
      assert forall b :: b in r.calls <==> b in w.calls && b != step.c;
    }
  }

  /** From a truthful state a step reaches one exactly when it is none of those. */
  lemma NextTruthfulIff(w: World, step: Step, r: World)
    requires Sound(w) && Truthful(w) && Next(w, step, r)
    ensures Truthful(r) <==> !Breaks(w, step)
  {
    match step
    case Apply(_, _) => ApplyTruthfulIff(w, step, r);
    case Store(_, _) => StoreTruthfulIff(w, step, r);
    case Delete =>
    case Read(c, _, _, _) => assert forall b :: b in w.calls ==> b in r.calls && r.calls[b] == w.calls[b];
  }

  /** A deletion ends whatever damage there is. */
  lemma DeletionIsTruthful(w: World, r: World)
    requires Next(w, Step.Delete, r)
    ensures Truthful(r)
  {
  }

  lemma {:induction false} RunsAreSound(worlds: seq<World>, steps: seq<Step>, i: nat)
    requires IsRun(worlds, steps) && i < |worlds|
    ensures Sound(worlds[i])
  {
    if i > 0 {
      RunsAreSound(worlds, steps, i - 1);
      hide Next, Sound;
      RunStep(worlds, steps, i - 1);
      NextKeepsSound(worlds[i - 1], steps[i - 1], worlds[i]);
    }
  }

  lemma StepTruthfulIff(worlds: seq<World>, steps: seq<Step>, i: nat)
    requires IsRun(worlds, steps) && i < |steps| && Truthful(worlds[i])
    ensures Truthful(worlds[i + 1]) <==> !Breaks(worlds[i], steps[i])
  {
    RunsAreSound(worlds, steps, i);
    RunStep(worlds, steps, i);
    NextTruthfulIff(worlds[i], steps[i], worlds[i + 1]);
  }

  lemma {:induction false} RunsTruthful(worlds: seq<World>, steps: seq<Step>, from: nat, i: nat)
    requires IsRun(worlds, steps) && from <= i < |worlds| && Truthful(worlds[from])
    requires forall k :: from <= k < i ==> !Breaks(worlds[k], steps[k])
    ensures Truthful(worlds[i])
  {
    hide Next, Truthful, Breaks;
    if i > from {
      RunsTruthful(worlds, steps, from, i - 1);
      StepTruthfulIff(worlds, steps, i - 1);
    }
  }

  lemma BeginningIsTruthful(worlds: seq<World>, steps: seq<Step>, from: nat)
    requires IsRun(worlds, steps) && from < |worlds| && (from > 0 ==> steps[from - 1].Delete?)
    ensures Truthful(worlds[from])
  {
    if from > 0 {
      RunStep(worlds, steps, from - 1);
      DeletionIsTruthful(worlds[from - 1], worlds[from]);
    }
  }

  /** Over any interleaving, from the beginning or a deletion on, every state is truthful if and only if no step is one of those. */
  lemma RunsTruthfulIff(worlds: seq<World>, steps: seq<Step>, from: nat)
    requires IsRun(worlds, steps) && from < |worlds| && (from > 0 ==> steps[from - 1].Delete?)
    ensures (forall i :: from <= i < |worlds| ==> Truthful(worlds[i]))
      <==> (forall k :: from <= k < |steps| ==> !Breaks(worlds[k], steps[k]))
  {
    BeginningIsTruthful(worlds, steps, from);
    hide Truthful, Breaks, Next;
    if forall k :: from <= k < |steps| ==> !Breaks(worlds[k], steps[k]) {
      forall i | from <= i < |worlds|
        ensures Truthful(worlds[i])
      {
        RunsTruthful(worlds, steps, from, i);
      }
    }
    if forall i :: from <= i < |worlds| ==> Truthful(worlds[i]) {
      forall k | from <= k < |steps|
        ensures !Breaks(worlds[k], steps[k])
      {
        StepTruthfulIff(worlds, steps, k);
      }
    }
  }

  // ---- it happens -------------------------------------------------------------------------------------------------

  const RULES := Rules(Setpoints(None, None, Some(50.0), None), 2.0)

  function Good(tagID: Uuid, value: real, ts: int): Record {
    Record(tagID, ts, Some(value), QualityOK)
  }

  /** What the scanner ingests for a tag that has been silent: its last value with the quality of a lost connection. */
  function Silent(tagID: Uuid, value: real, ts: int): Record {
    Record(tagID, ts, Some(value), QualityCommLoss)
  }

  function RowOf(record: Record, state: AlarmState): Row {
    Row(state, record.value, record.quality, record.timestamp, record.timestamp, false)
  }

  lemma Grow(worlds: seq<World>, steps: seq<Step>, step: Step, r: World) returns (longer: seq<World>, all: seq<Step>)
    requires IsRun(worlds, steps) && Next(worlds[|steps|], step, r)
    ensures IsRun(longer, all) && longer == worlds + [r] && all == steps + [step]
  {
    hide Next;
    longer, all := worlds + [r], steps + [step];
    forall i | 0 <= i < |all|
      ensures Next(longer[i], all[i], longer[i + 1])
    {
      if i < |steps| {
        assert Next(worlds[i], steps[i], worlds[i + 1]);
      }
    }
  }

  /** A first value within its limits. */
  lemma StartsOK(tagID: Uuid) returns (worlds: seq<World>, steps: seq<Step>)
    ensures IsRun(worlds, steps) && |worlds| == 3 && steps == [Read(0, Good(tagID, 10.0, 0), RULES, false), Store(0, false)]
    ensures worlds[2] == World(TagAlarm(Some(RowOf(Good(tagID, 10.0, 0), OK)), [], 0), map[])
  {
    var record := Good(tagID, 10.0, 0);
    var call := Judged(None, record, RULES);
    var w1 := World(NO_ALARM, map[0 := call]);
    assert call == Storing(None, record, RULES) && !Changes(call) && NewRow(call) == RowOf(record, OK);
    assert w1.calls - {0} == map[];
    worlds, steps := [World(NO_ALARM, map[])], [];
    assert map[][0 := call] == w1.calls;
    worlds, steps := Grow(worlds, steps, Read(0, record, RULES, false), w1);
    worlds, steps := Grow(worlds, steps, Store(0, false), World(TagAlarm(Some(RowOf(record, OK)), [], 0), map[]));
  }

  /** The event of a transition. */
  function EventOf(record: Record, stateFrom: AlarmState, stateTo: AlarmState): Event {
    Event(if stateTo == OK then Cleared else Raised, stateFrom, stateTo, record.value, record.quality, record.timestamp)
  }

  /** A tag within its limits has a value above its setpoint, or has been silent, or comes back from above. */
  lemma Judgements(tagID: Uuid, seen: Row)
    ensures seen.state == OK ==>
      var call := Judged(Some(seen), Good(tagID, 60.0, 1), RULES);
      call.Applying? && !call.stored && NewRow(call) == RowOf(Good(tagID, 60.0, 1), Hi)
      && Logged(call) == EventOf(Good(tagID, 60.0, 1), OK, Hi)
    ensures seen.state == OK ==>
      var call := Judged(Some(seen), Silent(tagID, 10.0, 2), RULES);
      call.Applying? && !call.stored && NewRow(call) == RowOf(Silent(tagID, 10.0, 2), CommLoss)
      && Logged(call) == EventOf(Silent(tagID, 10.0, 2), OK, CommLoss)
    ensures seen.state == OK ==>
      var call := Judged(Some(seen), Good(tagID, 20.0, 1), RULES);
      call.Storing? && !Changes(call) && NewRow(call).state == OK
    ensures seen.state == Hi ==>
      var call := Judged(Some(seen), Good(tagID, 10.0, 2), RULES);
      call.Applying? && !call.stored && NewRow(call) == RowOf(Good(tagID, 10.0, 2), OK)
      && Logged(call) == EventOf(Good(tagID, 10.0, 2), Hi, OK)
  {
  }

  lemma DoesNotChain(a: TagAlarm, tagID: Uuid)
    requires a.since == 0 && a.log == [EventOf(Good(tagID, 60.0, 1), OK, Hi), EventOf(Silent(tagID, 10.0, 2), OK, CommLoss)]
    ensures !Replays(a)
  {
    assert Life(a)[1].stateFrom != Life(a)[0].stateTo;
  }

  /** A flush and the scanner read the same row and both apply a transition from it. */
  lemma BothLeaveOK(tagID: Uuid) returns (worlds: seq<World>, steps: seq<Step>)
    ensures IsRun(worlds, steps) && |worlds| == 7
    ensures steps == [Read(0, Good(tagID, 10.0, 0), RULES, false), Store(0, false),
                      Read(0, Good(tagID, 60.0, 1), RULES, false), Read(1, Silent(tagID, 10.0, 2), RULES, false),
                      Apply(0, false), Apply(1, false)]
    ensures worlds[6].a.log == [EventOf(Good(tagID, 60.0, 1), OK, Hi), EventOf(Silent(tagID, 10.0, 2), OK, CommLoss)]
    ensures worlds[6].calls == map[] && !Replays(worlds[6].a)
  {
    worlds, steps := StartsOK(tagID);
    var w2 := worlds[2];
    Judgements(tagID, w2.a.row.value);
    hide Judged, NewRow, Logged, Changes, RowOf, EventOf;
    var high, silent := Judged(w2.a.row, Good(tagID, 60.0, 1), RULES), Judged(w2.a.row, Silent(tagID, 10.0, 2), RULES);
    var w3, w4 := World(w2.a, map[0 := high]), World(w2.a, map[0 := high, 1 := silent]);
    var w5 := World(TagAlarm(Some(NewRow(high)), [Logged(high)], 0), map[1 := silent]);
    var w6 := World(TagAlarm(Some(NewRow(silent)), [Logged(high), Logged(silent)], 0), map[]);
    assert w2.calls[0 := high] == w3.calls && w3.calls[1 := silent] == w4.calls;
    assert w4.calls - {0} == w5.calls && w5.calls - {1} == w6.calls;
    assert w2.a.log + [Logged(high)] == w5.a.log && w5.a.log + [Logged(silent)] == w6.a.log;
    worlds, steps := Grow(worlds, steps, Read(0, Good(tagID, 60.0, 1), RULES, false), w3);
    worlds, steps := Grow(worlds, steps, Read(1, Silent(tagID, 10.0, 2), RULES, false), w4);
    worlds, steps := Grow(worlds, steps, Apply(0, false), w5);
    worlds, steps := Grow(worlds, steps, Apply(1, false), w6);
    DoesNotChain(w6.a, tagID);
  }

  /** The scanner's transition comes between the read and the store of a flush whose value changes nothing: the stored state is OK again,
    * and the log ends with a lost connection. */
  lemma OldStateIsStored(tagID: Uuid) returns (worlds: seq<World>, steps: seq<Step>)
    ensures IsRun(worlds, steps) && |worlds| == 7
    ensures steps == [Read(0, Good(tagID, 10.0, 0), RULES, false), Store(0, false),
                      Read(0, Good(tagID, 20.0, 1), RULES, false), Read(1, Silent(tagID, 10.0, 2), RULES, false),
                      Apply(1, false), Store(0, false)]
    ensures worlds[6].a.log == [EventOf(Silent(tagID, 10.0, 2), OK, CommLoss)] && StateOf(worlds[6].a.row) == OK
    ensures worlds[6].calls == map[] && !Replays(worlds[6].a)
  {
    worlds, steps := StartsOK(tagID);
    var w2 := worlds[2];
    Judgements(tagID, w2.a.row.value);
    var same, silent := Judged(w2.a.row, Good(tagID, 20.0, 1), RULES), Judged(w2.a.row, Silent(tagID, 10.0, 2), RULES);
    var w3, w4 := World(w2.a, map[0 := same]), World(w2.a, map[0 := same, 1 := silent]);
    var w5 := World(TagAlarm(Some(NewRow(silent)), [Logged(silent)], 0), map[0 := same]);
    var w6 := World(w5.a.(row := Some(NewRow(same))), map[]);
    assert LastState(Life(w6.a)) == CommLoss;
    hide Judged, NewRow, Logged, Changes, RowOf, EventOf;
    assert w2.calls[0 := same] == w3.calls && w3.calls[1 := silent] == w4.calls;
    assert w4.calls - {1} == w5.calls && w5.calls - {0} == w6.calls;
    assert w2.a.log + [Logged(silent)] == w5.a.log;
    worlds, steps := Grow(worlds, steps, Read(0, Good(tagID, 20.0, 1), RULES, false), w3);
    worlds, steps := Grow(worlds, steps, Read(1, Silent(tagID, 10.0, 2), RULES, false), w4);
    worlds, steps := Grow(worlds, steps, Apply(1, false), w5);
    worlds, steps := Grow(worlds, steps, Store(0, false), w6);
  }

  /** The tag is deleted between the read of an alarm and its clearing: the log of the new row begins with a clearing. */
  lemma ClearsAfterDeletion(tagID: Uuid) returns (worlds: seq<World>, steps: seq<Step>)
    ensures IsRun(worlds, steps) && |worlds| == 8
    ensures steps == [Read(0, Good(tagID, 10.0, 0), RULES, false), Store(0, false),
                      Read(0, Good(tagID, 60.0, 1), RULES, false), Apply(0, false),
                      Read(0, Good(tagID, 10.0, 2), RULES, false), Step.Delete, Apply(0, false)]
    ensures worlds[7].a.since == 1 && worlds[7].a.log == [EventOf(Good(tagID, 60.0, 1), OK, Hi), EventOf(Good(tagID, 10.0, 2), Hi, OK)]
    ensures worlds[7].calls == map[] && !Replays(worlds[7].a)
  {
    worlds, steps := StartsOK(tagID);
    var w2 := worlds[2];
    Judgements(tagID, w2.a.row.value);
    var high := Judged(w2.a.row, Good(tagID, 60.0, 1), RULES);
    Judgements(tagID, NewRow(high));
    var clear := Judged(Some(NewRow(high)), Good(tagID, 10.0, 2), RULES);
    var w3, w4 := World(w2.a, map[0 := high]), World(TagAlarm(Some(NewRow(high)), [Logged(high)], 0), map[]);
    var w5, w6 := World(w4.a, map[0 := clear]), World(TagAlarm(None, [Logged(high)], 1), map[0 := clear]);
    var w7 := World(TagAlarm(Some(NewRow(clear)), [Logged(high), Logged(clear)], 1), map[]);
    assert Life(w7.a)[0].stateFrom == Hi;
    hide Judged, NewRow, Logged, Changes, RowOf, EventOf;
    assert w2.calls[0 := high] == w3.calls && w3.calls - {0} == w4.calls && w4.calls[0 := clear] == w5.calls && w6.calls - {0} == w7.calls;
    assert w2.a.log + [Logged(high)] == w4.a.log && w6.a.log + [Logged(clear)] == w7.a.log;
    worlds, steps := Grow(worlds, steps, Read(0, Good(tagID, 60.0, 1), RULES, false), w3);
    worlds, steps := Grow(worlds, steps, Apply(0, false), w4);
    worlds, steps := Grow(worlds, steps, Read(0, Good(tagID, 10.0, 2), RULES, false), w5);
    worlds, steps := Grow(worlds, steps, Step.Delete, w6);
    worlds, steps := Grow(worlds, steps, Apply(0, false), w7);
  }
}
