/** The alarm use case over its repository: the state rows and the transition events of all tags. */
module AlarmUseCase {
  import opened Common
  import opened AlarmEvaluator
  import opened AlarmLog

  const NO_SETPOINTS := Setpoints(None, None, None, None)

  class AlarmRepository {
    var states: map<Uuid, Row>
    var events: map<Uuid, seq<Event>>
    ghost var deletedAt: map<Uuid, nat>

    constructor ()
      ensures forall t :: Of(t) == NO_ALARM
    {
      states, events, deletedAt := map[], map[], map[];
    }

    ghost function Of(t: Uuid): TagAlarm
      reads this
    {
      TagAlarm(if t in states then Some(states[t]) else None,
               if t in events then events[t] else [],
               if t in deletedAt then deletedAt[t] else 0)
    }

    ghost function Table(): (table: imap<Uuid, TagAlarm>)
      reads this
      ensures forall t: Uuid :: t in table && table[t] == Of(t)
    {
      imap t: Uuid :: Of(t)
    }

    method GetState(t: Uuid, fails: bool) returns (row: Option<Row>, ok: bool)
      ensures ok == !fails
      ensures row == if ok then Of(t).row else None
    {
      if fails {
        return None, false;
      }
      row, ok := if t in states then Some(states[t]) else None, true;
    }

    method UpsertState(t: Uuid, row: Row, fails: bool) returns (ok: bool)
      modifies this
      ensures ok == !fails
      ensures Of(t) == if fails then old(Of(t)) else old(Of(t)).(row := Some(row))
      ensures forall u :: u != t ==> Of(u) == old(Of(u))
    {
      if fails {
        return false;
      }
      states := states[t := row];
      ok := true;
    }

    /** One transaction: the row and the event, or neither. */
    method ApplyTransition(t: Uuid, row: Row, stateFrom: AlarmState, fails: bool) returns (event: Option<Event>)
      modifies this
      ensures event.Some? == !fails
      ensures fails ==> Of(t) == old(Of(t))
      ensures !fails ==>
        && event.value ==
           Event(if row.state == OK then Cleared else Raised, stateFrom, row.state, row.lastValue, row.lastQuality, row.lastSeenAt)
        && Of(t) == old(Of(t)).(row := Some(row), log := old(Of(t)).log + [event.value])
      ensures forall u :: u != t ==> Of(u) == old(Of(u))
    {
      if fails {
        return None;
      }
      states := states[t := row];
      var eventType := if row.state == OK then Cleared else Raised;
      var inserted := Event(eventType, stateFrom, row.state, row.lastValue, row.lastQuality, row.lastSeenAt);
      events := events[t := (if t in events then events[t] else []) + [inserted]];
      event := Some(inserted);
    }

    method DeleteByTagID(t: Uuid, fails: bool)
      modifies this
      ensures Of(t) == if fails then old(Of(t)) else Deleted(old(Of(t)))
      ensures forall u :: u != t ==> Of(u) == old(Of(u))
    {
      if fails {
        return;
      }
      states := states - {t};
      deletedAt := deletedAt[t := if t in events then |events[t]| else 0];
    }
  }

  class AlarmUseCase {
    const repository: AlarmRepository
    const hysteresisPercent: real
    var setpointsByTag: map<Uuid, Setpoints>

    constructor (repository: AlarmRepository, hysteresisPercent: real)
      ensures this.repository == repository
      ensures setpointsByTag == map[]
      ensures this.hysteresisPercent == if hysteresisPercent <= 0.0 then 2.0 else hysteresisPercent
    {
      this.repository := repository;
      this.hysteresisPercent := if hysteresisPercent <= 0.0 then 2.0 else hysteresisPercent;
      setpointsByTag := map[];
    }

    function RulesOf(t: Uuid): Rules
      reads this
    {
      Rules(if t in setpointsByTag then setpointsByTag[t] else NO_SETPOINTS, hysteresisPercent)
    }

    ghost function RuleBook(): (book: imap<Uuid, Rules>)
      reads this
      ensures forall t: Uuid :: t in book && book[t] == RulesOf(t)
    {
      imap t: Uuid :: RulesOf(t)
    }

    /** Ingests one value; the event, if any, is what is published and broadcast. */
    method IngestValue(record: Record, faults: Faults) returns (ok: bool, event: Option<Event>)
      modifies repository
      ensures (repository.Of(record.tagID), ok) == IngestOne(old(repository.Of(record.tagID)), record, RulesOf(record.tagID), faults)
      ensures forall u :: u != record.tagID ==> repository.Of(u) == old(repository.Of(u))
      ensures repository.Of(record.tagID).log == old(repository.Of(record.tagID)).log + if event.Some? then [event.value] else []
    {
      hide EvaluateAlarmState;
      event := None;
      var current, found := repository.GetState(record.tagID, faults.get);
      if !found {
        return false, None;
      }
      var prevState, enteredAt := OK, record.timestamp;
      if current.Some? {
        prevState, enteredAt := current.value.state, current.value.enteredAt;
      }
      var rules := RulesOf(record.tagID);
      var (nextState, changed) := EvaluateAlarmState(prevState, record.value, record.quality, rules.setpoints, rules.hysteresisPercent);
      if current.None? || !changed {
        if changed {
          enteredAt := record.timestamp;
        }
        var stored := repository.UpsertState(record.tagID,
          Row(nextState, record.value, record.quality, enteredAt, record.timestamp, false), faults.upsert);
        if !stored {
          return false, None;
        }
        if !changed {
          return true, None;
        }
      }
      event := repository.ApplyTransition(record.tagID,
        Row(nextState, record.value, record.quality, record.timestamp, record.timestamp, false), prevState, faults.transition);
      ok := event.Some?;
    }

    /** A tag's configuration changed: `loaded` is None when the reload fails, and holds None when the tag has no parameters. */
    method HandleTagConfigChanged(t: Uuid, deleted: bool, loaded: Option<Option<Setpoints>>, deleteFails: bool)
      modifies this, repository
      ensures forall u :: u != t ==> RulesOf(u) == old(RulesOf(u)) && repository.Of(u) == old(repository.Of(u))
      ensures deleted ==>
        && RulesOf(t).setpoints == NO_SETPOINTS
        && repository.Of(t) == if deleteFails then old(repository.Of(t)) else Deleted(old(repository.Of(t)))
      ensures !deleted ==> repository.Of(t) == old(repository.Of(t))
      ensures !deleted && loaded.None? ==> RulesOf(t) == old(RulesOf(t))
      ensures !deleted && loaded.Some? ==>
        RulesOf(t) == Rules(if loaded.value.Some? then loaded.value.value else NO_SETPOINTS, hysteresisPercent)
    {
      if deleted {
        setpointsByTag := setpointsByTag - {t};
        repository.DeleteByTagID(t, deleteFails);
        return;
      }
      if loaded.None? {
        return;
      }
      if loaded.value.Some? {
        setpointsByTag := setpointsByTag[t := loaded.value.value];
      } else {
        setpointsByTag := setpointsByTag - {t};
      }
    }
  }
}
