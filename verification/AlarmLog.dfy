/** One tag's alarm row and transition log under ingestion, with any store call allowed to fail. */
module AlarmLog {
  import opened Common
  import opened AlarmEvaluator

  datatype Record = Record(tagID: Uuid, timestamp: int, value: Option<real>, quality: Quality)

  datatype Row = Row(state: AlarmState, lastValue: Option<real>, lastQuality: Quality, enteredAt: int, lastSeenAt: int, suppressed: bool)

  datatype EventType = Raised | Cleared

  datatype Event = Event(eventType: EventType, stateFrom: AlarmState, stateTo: AlarmState, value: Option<real>, quality: Quality, ts: int)

  /** `since` is where the log stood when the row was last deleted: deletion keeps the events. */
  datatype TagAlarm = TagAlarm(row: Option<Row>, log: seq<Event>, since: nat)

  const NO_ALARM := TagAlarm(None, [], 0)

  datatype Faults = Faults(get: bool, upsert: bool, transition: bool)

  const NO_FAULTS := Faults(false, false, false)

  datatype Rules = Rules(setpoints: Setpoints, hysteresisPercent: real)

  function Evaluated(a: TagAlarm, record: Record, rules: Rules): (AlarmState, bool) {
    EvaluateAlarmState(if a.row.Some? then a.row.value.state else OK,
                       record.value, record.quality, rules.setpoints, rules.hysteresisPercent)
  }

  function Seen(a: TagAlarm, record: Record, rules: Rules): Row {
    var (next, changed) := Evaluated(a, record, rules);
    Row(next, record.value, record.quality,
        if a.row.Some? && !changed then a.row.value.enteredAt else record.timestamp, record.timestamp, false)
  }

  function Transition(a: TagAlarm, record: Record, rules: Rules): Event {
    var next := Evaluated(a, record, rules).0;
    Event(if next == OK then Cleared else Raised, if a.row.Some? then a.row.value.state else OK, next,
          record.value, record.quality, record.timestamp)
  }

  /** One ingestion, and whether it reports success. A first row is stored before its transition is. */
  function IngestOne(a: TagAlarm, record: Record, rules: Rules, faults: Faults): (TagAlarm, bool) {
    var changed := Evaluated(a, record, rules).1;
    if faults.get then (a, false)
    else if (a.row.None? || !changed) && faults.upsert then (a, false)
    else
      var seen := if a.row.None? || !changed then a.(row := Some(Seen(a, record, rules))) else a;
      if !changed then (seen, true)
      else if faults.transition then (seen, false)
      else (a.(row := Some(Seen(a, record, rules)), log := a.log + [Transition(a, record, rules)]), true)
  }

  function Deleted(a: TagAlarm): TagAlarm {
    TagAlarm(None, a.log, |a.log|)
  }

  /** The transitions of the current life of the row. */
  function Life(a: TagAlarm): seq<Event>
    requires a.since <= |a.log|
  {
    a.log[a.since..]
  }

  predicate Chained(log: seq<Event>) {
    && (log != [] ==> log[0].stateFrom == OK)
    && (forall i :: 0 <= i < |log| ==> log[i].stateFrom != log[i].stateTo && (log[i].eventType == Cleared <==> log[i].stateTo == OK))
    && (forall i :: 0 < i < |log| ==> log[i].stateFrom == log[i - 1].stateTo)
  }

  /** Replaying the log from OK gives the stored state. */
  predicate Replays(a: TagAlarm) {
    && a.since <= |a.log|
    && Chained(Life(a))
    && (a.row.None? ==> Life(a) == [])
    && (a.row.Some? ==> a.row.value.state == LastState(Life(a)))
  }

  /** The one failure that leaves half a step behind: the first row stored in a state other than OK, its transition not. */
  predicate Torn(a: TagAlarm, record: Record, rules: Rules, faults: Faults) {
    a.row.None? && Evaluated(a, record, rules).1 && !faults.get && !faults.upsert && faults.transition
  }

  function LastState(log: seq<Event>): AlarmState {
    if log == [] then OK else log[|log| - 1].stateTo
  }

  lemma ChainedSnoc(log: seq<Event>, e: Event)
    requires Chained(log) && e.stateFrom == LastState(log) && e.stateFrom != e.stateTo && (e.eventType == Cleared <==> e.stateTo == OK)
    ensures Chained(log + [e]) && LastState(log + [e]) == e.stateTo
  {
  }

  /** Ingestion keeps the log replayable to the stored state exactly when it is not torn. */
  lemma IngestReplaysIff(a: TagAlarm, record: Record, rules: Rules, faults: Faults)
    requires Replays(a)
    ensures Replays(IngestOne(a, record, rules, faults).0) <==> !Torn(a, record, rules, faults)
  {
    hide EvaluateAlarmState, Chained;
    var r := IngestOne(a, record, rules, faults).0;
    var prev := if a.row.Some? then a.row.value.state else OK;
    ChangedIffDifferent(prev, record.value, record.quality, rules.setpoints, rules.hysteresisPercent);
    if r.log != a.log {
      assert Life(r) == Life(a) + [Transition(a, record, rules)];
      ChainedSnoc(Life(a), Transition(a, record, rules));
    } else {
      assert Life(r) == Life(a);
    }
  }

  /** Success means that no failure mattered. */
  lemma SuccessIsClean(a: TagAlarm, record: Record, rules: Rules, faults: Faults)
    requires IngestOne(a, record, rules, faults).1
    ensures IngestOne(a, record, rules, faults) == IngestOne(a, record, rules, NO_FAULTS)
  {
  }

  /** Ingesting a record again after a success stores the same row and emits nothing. */
  lemma IngestTwiceIsOnce(a: TagAlarm, record: Record, rules: Rules)
    ensures var r := IngestOne(a, record, rules, NO_FAULTS).0;
      IngestOne(r, record, rules, NO_FAULTS) == (r, true)
  {
  }

  /** Retrying a record without failures makes good any earlier attempt at it, unless that attempt was torn: then its transition is
    * never logged. */
  lemma RetryRepairsIff(a: TagAlarm, record: Record, rules: Rules, faults: Faults)
    ensures IngestOne(IngestOne(a, record, rules, faults).0, record, rules, NO_FAULTS).0 == IngestOne(a, record, rules, NO_FAULTS).0
      <==> !Torn(a, record, rules, faults)
  {
  }

  // ---- whole runs of one tag --------------------------------------------------------------------------

  datatype Op = Ingest(record: Record, rules: Rules, faults: Faults) | Delete

  function After(a: TagAlarm, op: Op): TagAlarm {
    match op
    case Ingest(record, rules, faults) => IngestOne(a, record, rules, faults).0
    case Delete => Deleted(a)
  }

  function Run(ops: seq<Op>): TagAlarm {
    if ops == [] then NO_ALARM else After(Run(ops[..|ops| - 1]), ops[|ops| - 1])
  }

  /** Some ingestion since the last deletion was torn. */
  predicate TornSinceDeletion(ops: seq<Op>) {
    if ops == [] then false
    else
      var front, last := ops[..|ops| - 1], ops[|ops| - 1];
      match last
      case Delete => false
      case Ingest(record, rules, faults) => TornSinceDeletion(front) || Torn(Run(front), record, rules, faults)
  }

  /** The damage of a torn step: the row's history does not start at OK, and nothing but deletion changes that. */
  predicate HeadLost(a: TagAlarm) {
    && a.since <= |a.log| && a.row.Some?
    && if Life(a) == [] then a.row.value.state != OK else Life(a)[0].stateFrom != OK
  }

  lemma IngestKeepsHeadLost(a: TagAlarm, record: Record, rules: Rules, faults: Faults)
    requires HeadLost(a)
    ensures HeadLost(IngestOne(a, record, rules, faults).0)
  {
  }

  lemma TornLosesHead(a: TagAlarm, record: Record, rules: Rules, faults: Faults)
    requires Replays(a) && Torn(a, record, rules, faults)
    ensures HeadLost(IngestOne(a, record, rules, faults).0)
  {
  }

  lemma {:induction false} RunReplaysOrLostHead(ops: seq<Op>)
    ensures if TornSinceDeletion(ops) then HeadLost(Run(ops)) else Replays(Run(ops))
  {
    hide Evaluated, IngestOne, Replays, HeadLost, Torn;
    if ops == [] {
      FreshReplays();
    } else {
      var front, last := ops[..|ops| - 1], ops[|ops| - 1];
      RunReplaysOrLostHead(front);
      match last
      case Delete =>
        DeletedReplays(Run(front));
      case Ingest(record, rules, faults) =>
        if TornSinceDeletion(front) {
          IngestKeepsHeadLost(Run(front), record, rules, faults);
        } else {
          IngestReplaysIff(Run(front), record, rules, faults);
          if Torn(Run(front), record, rules, faults) {
            TornLosesHead(Run(front), record, rules, faults);
          }
        }
    }
  }

  lemma FreshReplays()
    ensures Replays(NO_ALARM)
  {
  }

  lemma DeletedReplays(a: TagAlarm)
    ensures Replays(Deleted(a))
  {
  }

  lemma HeadLostDoesNotReplay(a: TagAlarm)
    requires HeadLost(a)
    ensures !Replays(a)
  {
  }

  /** Over every run the log replays to the stored state exactly when no ingestion since the last deletion was torn. */
  lemma RunReplaysIff(ops: seq<Op>)
    ensures Replays(Run(ops)) <==> !TornSinceDeletion(ops)
  {
    hide Replays, HeadLost, TornSinceDeletion, Run;
    RunReplaysOrLostHead(ops);
    if TornSinceDeletion(ops) {
      HeadLostDoesNotReplay(Run(ops));
    }
  }

  /** The state was entered when its transition was logged. */
  ghost predicate Dated(a: TagAlarm) {
    a.since <= |a.log| && (Life(a) != [] ==> a.row.Some? && a.row.value.enteredAt == Life(a)[|Life(a)| - 1].ts)
  }

  lemma IngestKeepsDated(a: TagAlarm, record: Record, rules: Rules, faults: Faults)
    requires Replays(a) && Dated(a) && !Torn(a, record, rules, faults)
    ensures Dated(IngestOne(a, record, rules, faults).0)
  {
    hide EvaluateAlarmState, Chained;
    var r := IngestOne(a, record, rules, faults).0;
    if r.log != a.log {
      assert Life(r) == Life(a) + [Transition(a, record, rules)];
    }
  }

  /** Over every run without a torn ingestion since the last deletion the row was entered at the instant of the last logged transition,
    * however many values of the same state have come since. */
  lemma {:induction false} RunsAreDated(ops: seq<Op>)
    requires !TornSinceDeletion(ops)
    ensures Dated(Run(ops))
  {
    hide Evaluated, IngestOne, Replays, Torn;
    if ops != [] {
      var front, last := ops[..|ops| - 1], ops[|ops| - 1];
      match last
      case Delete =>
      case Ingest(record, rules, faults) =>
        RunsAreDated(front);
        RunReplaysIff(front);
        hide Dated;
        IngestKeepsDated(Run(front), record, rules, faults);
    }
  }

  /** A successful ingestion leaves the record in the row, entered now if the row is new or its state differs, and as before otherwise. */
  lemma RowAfter(a: TagAlarm, record: Record, rules: Rules, faults: Faults)
    requires IngestOne(a, record, rules, faults).1
    ensures var row := IngestOne(a, record, rules, faults).0.row;
      && row.Some? && row.value.lastValue == record.value && row.value.lastQuality == record.quality
      && row.value.lastSeenAt == record.timestamp && !row.value.suppressed
      && row.value.enteredAt == if a.row.Some? && a.row.value.state == row.value.state then a.row.value.enteredAt else record.timestamp
  {
    ChangedIffDifferent(if a.row.Some? then a.row.value.state else OK,
                        record.value, record.quality, rules.setpoints, rules.hysteresisPercent);
    hide EvaluateAlarmState;
  }

  /** A tag's first value is alarming and its transition fails; the consumer's retry succeeds, and the alarm is in no log. */
  lemma TornRunLosesAlarm(high: real, setpoint: real, tagID: Uuid, timestamp: int)
    requires high >= setpoint
    ensures var rules := Rules(Setpoints(None, None, Some(setpoint), None), 2.0);
      var record := Record(tagID, timestamp, Some(high), QualityOK);
      var ops := [Op.Ingest(record, rules, Faults(false, false, true)), Op.Ingest(record, rules, NO_FAULTS)];
      && TornSinceDeletion(ops) && !Replays(Run(ops))
      && Run(ops).row.Some? && Run(ops).row.value.state == Hi && Run(ops).log == []
      && IngestOne(Run(ops[..1]), record, rules, NO_FAULTS).1
  {
    var rules := Rules(Setpoints(None, None, Some(setpoint), None), 2.0);
    var record := Record(tagID, timestamp, Some(high), QualityOK);
    var torn, retried := Op.Ingest(record, rules, Faults(false, false, true)), Op.Ingest(record, rules, NO_FAULTS);
    var ops := [torn, retried];
    assert ops[..1] == [torn] && [torn][..0] == [];
    assert Run([torn]) == After(NO_ALARM, torn);
    assert Evaluated(NO_ALARM, record, rules) == (Hi, true);
    assert Evaluated(Run([torn]), record, rules) == (Hi, false);
    assert TornSinceDeletion([torn]);
    hide EvaluateAlarmState;
    assert Run(ops) == After(Run([torn]), retried);
    RunReplaysIff(ops);
  }

  // ---- a batch over all tags ----------------------------------------------------------------------------

  /** What every tag has become once the tags in `done` are ingested without trouble and the `stuck` one has failed. */
  ghost predicate BatchIngested(
    before: imap<Uuid, TagAlarm>, latest: map<Uuid, Record>, rules: imap<Uuid, Rules>, faults: map<Uuid, Faults>,
    done: set<Uuid>, stuck: Option<Uuid>, after: imap<Uuid, TagAlarm>)
    requires forall t: Uuid :: t in before && t in rules && t in after
  {
    && done <= latest.Keys
    && (stuck.Some? ==>
          stuck.value in latest && stuck.value !in done
          && !IngestOne(before[stuck.value], latest[stuck.value], rules[stuck.value], FaultsOf(faults, stuck.value)).1)
    && forall t: Uuid :: after[t] == TagIngested(before[t], t, latest, rules, faults, done, stuck)
  }

  ghost function TagIngested(
    a: TagAlarm, t: Uuid, latest: map<Uuid, Record>, rules: imap<Uuid, Rules>, faults: map<Uuid, Faults>,
    done: set<Uuid>, stuck: Option<Uuid>): TagAlarm
    requires t in rules
  {
    if t in latest && t in done then IngestOne(a, latest[t], rules[t], NO_FAULTS).0
    else if t in latest && stuck == Some(t) then IngestOne(a, latest[t], rules[t], FaultsOf(faults, t)).0
    else a
  }

  function FaultsOf(faults: map<Uuid, Faults>, t: Uuid): Faults {
    if t in faults then faults[t] else NO_FAULTS
  }

  predicate Faulty(faults: map<Uuid, Faults>) {
    exists t :: t in faults && faults[t] != NO_FAULTS
  }

  lemma StuckOnFault(
    before: imap<Uuid, TagAlarm>, latest: map<Uuid, Record>, rules: imap<Uuid, Rules>, faults: map<Uuid, Faults>,
    done: set<Uuid>, t: Uuid, after: imap<Uuid, TagAlarm>)
    requires forall u: Uuid :: u in before && u in rules && u in after
    requires BatchIngested(before, latest, rules, faults, done, Some(t), after)
    ensures Faulty(faults)
  {
  }

  lemma NothingIngested(table: imap<Uuid, TagAlarm>, latest: map<Uuid, Record>, rules: imap<Uuid, Rules>, faults: map<Uuid, Faults>)
    requires forall u: Uuid :: u in table && u in rules
    ensures BatchIngested(table, latest, rules, faults, {}, None, table)
  {
  }

  /** One more tag of the batch: done when it succeeds, stuck when it does not. */
  lemma BatchGrows(
    before: imap<Uuid, TagAlarm>, latest: map<Uuid, Record>, rules: imap<Uuid, Rules>, faults: map<Uuid, Faults>,
    done: set<Uuid>, mid: imap<Uuid, TagAlarm>, t: Uuid, after: imap<Uuid, TagAlarm>)
    requires forall u: Uuid :: u in before && u in rules && u in mid && u in after
    requires BatchIngested(before, latest, rules, faults, done, None, mid) && t in latest && t !in done
    requires forall u: Uuid :: after[u] == if u == t then IngestOne(mid[t], latest[t], rules[t], FaultsOf(faults, t)).0 else mid[u]
    ensures if IngestOne(mid[t], latest[t], rules[t], FaultsOf(faults, t)).1
      then BatchIngested(before, latest, rules, faults, done + {t}, None, after)
      else BatchIngested(before, latest, rules, faults, done, Some(t), after)
  {
    hide IngestOne;
    if IngestOne(mid[t], latest[t], rules[t], FaultsOf(faults, t)).1 {
      SuccessIsClean(mid[t], latest[t], rules[t], FaultsOf(faults, t));
    }
  }

  /** After a batch that stopped part of the way, a complete second pass over it, in whatever order, leaves what one complete pass
    * would have left in every tag but a torn one. */
  lemma RetriedBatch(
    before: imap<Uuid, TagAlarm>, latest: map<Uuid, Record>, rules: imap<Uuid, Rules>, faults: map<Uuid, Faults>,
    done: set<Uuid>, stuck: Option<Uuid>, between: imap<Uuid, TagAlarm>, again: map<Uuid, Faults>, after: imap<Uuid, TagAlarm>,
    t: Uuid)
    requires forall u: Uuid :: u in before && u in rules && u in between && u in after
    requires BatchIngested(before, latest, rules, faults, done, stuck, between)
    requires BatchIngested(between, latest, rules, again, latest.Keys, None, after)
    ensures after[t] == (if t in latest then IngestOne(before[t], latest[t], rules[t], NO_FAULTS).0 else before[t])
      <==> !(stuck == Some(t) && Torn(before[t], latest[t], rules[t], FaultsOf(faults, t)))
    ensures t in done ==> after[t] == between[t]
  {
    hide IngestOne, Torn;
    if t in latest {
      IngestTwiceIsOnce(before[t], latest[t], rules[t]);
      RetryRepairsIff(before[t], latest[t], rules[t], FaultsOf(faults, t));
    }
  }
}
