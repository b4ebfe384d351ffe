/** The debouncer: one state object per connection and tag, changed in place. */
module Debouncer {
  import opened Common
  import opened Uuids
  import opened DebouncerModel

  type Connection = nat
  datatype Key = Key(connection: Connection, tagID: Uuid)

  class Debouncer {
    var states: map<Key, DebounceState>
    const intervals: Intervals

    constructor (debounceInterval: int, heartbeatInterval: int)
      ensures states == map[]
      ensures intervals.debounce > 0 && intervals.heartbeat > 0
      ensures debounceInterval > 0 ==> intervals.debounce == debounceInterval
      ensures heartbeatInterval > 0 ==> intervals.heartbeat == heartbeatInterval
    {
      states := map[];
      intervals := Intervals(if debounceInterval <= 0 then 100 else debounceInterval,
                             if heartbeatInterval <= 0 then 30000 else heartbeatInterval);
    }

    ghost function StateOf(key: Key): DebounceState
      reads this
    {
      if key in states then states[key] else FRESH
    }

    method Ensure(connection: Connection, tagID: Uuid)
      modifies this
      ensures tagID == NIL_UUID ==> states == old(states)
      ensures tagID != NIL_UUID ==> states == old(states)[Key(connection, tagID) := old(StateOf(Key(connection, tagID)))]
    {
      if tagID == NIL_UUID {
        return;
      }
      var key := Key(connection, tagID);
      if key in states {
        assert states == states[key := states[key]];
        return;
      }
      states := states[key := FRESH];
    }

    method Touch(connection: Connection, record: Record, now: int)
      modifies this
      ensures record.tagID == NIL_UUID ==> states == old(states)
      ensures record.tagID != NIL_UUID ==> var key := Key(connection, record.tagID);
        states == old(states)[key := Touched(old(StateOf(key)), record, now, intervals)]
    {
      if record.tagID == NIL_UUID {
        return;
      }
      var key := Key(connection, record.tagID);
      var state := GetOrCreateState(key);
      states := states[key := state.(latest := Some(record))];
      ResetHeartbeatTimer(key, now);
    }

    /** Returns the record to send at once, if any. */
    method Publish(connection: Connection, record: Record, now: int) returns (immediate: Option<Record>)
      modifies this
      ensures record.tagID == NIL_UUID ==> states == old(states) && immediate.None?
      ensures record.tagID != NIL_UUID ==> var key := Key(connection, record.tagID);
        var (next, out) := Published(old(StateOf(key)), record, now, intervals);
        states == old(states)[key := next] && immediate == out
    {
      immediate := None;
      if record.tagID == NIL_UUID {
        return;
      }
      var key := Key(connection, record.tagID);
      var state := GetOrCreateState(key);
      states := states[key := state.(latest := Some(record))];
      ResetHeartbeatTimer(key, now);
      state := states[key];
      if state.lastSentAt.None? || now - state.lastSentAt.value >= intervals.debounce {
        immediate := Some(record);
        states := states[key := state.(pending := None, lastSentAt := Some(now))];
      } else {
        states := states[key := state.(pending := Some(record))];
        var wait := intervals.debounce - (now - state.lastSentAt.value);
        if wait < 0 {
          wait := 0;
        }
        ScheduleFlush(key, now, wait);
      }
    }

    /** The flush timer's callback. */
    method FlushPending(key: Key, now: int) returns (record: Option<Record>)
      modifies this
      ensures key !in old(states) ==> states == old(states) && record.None?
      ensures key in old(states) ==> var (next, out) := Flushed(old(states)[key], now, intervals);
        states == old(states)[key := next] && record == out
    {
      record := None;
      if key !in states {
        return;
      }
      states := states[key := states[key].(flushDue := None)];
      var state := states[key];
      if state.pending.Some? {
        record := state.pending;
        states := states[key := state.(pending := None, lastSentAt := Some(now))];
        ResetHeartbeatTimer(key, now);
      }
    }

    /** The heartbeat timer's callback. */
    method EmitHeartbeat(key: Key, now: int) returns (record: Option<Record>)
      modifies this
      ensures key !in old(states) ==> states == old(states) && record.None?
      ensures key in old(states) ==> var (next, out) := Beat(old(states)[key], now, intervals);
        states == old(states)[key := next] && record == out
    {
      record := None;
      if key !in states {
        return;
      }
      states := states[key := states[key].(heartbeatDue := None)];
      if states[key].latest.Some? {
        record := states[key].latest;
        ResetHeartbeatTimer(key, now);
      }
    }

    method Remove(connection: Connection, tagID: Uuid)
      modifies this
      ensures states == old(states) - if tagID == NIL_UUID then {} else {Key(connection, tagID)}
    {
      if tagID == NIL_UUID {
        return;
      }
      states := states - {Key(connection, tagID)};
    }

    /** Removes every state of the connection, with its timers, and no other. */
    method StopConnection(connection: Connection)
      modifies this
      ensures states == map k | k in old(states) && k.connection != connection :: old(states)[k]
    {
      var all := Enumerate(states.Keys);
      var keys: seq<Key> := [];
      for i := 0 to |all|
        invariant forall k :: k in keys <==> k in all[..i] && k.connection == connection
      {
        if all[i].connection == connection {
          keys := keys + [all[i]];
        }
      }
      assert forall k :: k in all <==> k in ToSet(all);
      for i := 0 to |keys|
        invariant states == map k | k in old(states) && k !in keys[..i] :: old(states)[k]
      {
        states := states - {keys[i]};
      }
    }

    method GetOrCreateState(key: Key) returns (state: DebounceState)
      modifies this
      ensures state == old(StateOf(key)) && states == old(states)[key := state]
    {
      if key in states {
        assert states == states[key := states[key]];
        return states[key];
      }
      state := FRESH;
      states := states[key := state];
    }

    /** Arms the flush timer, replacing an earlier setting. */
    method ScheduleFlush(key: Key, now: int, wait: int)
      requires key in states
      modifies this
      ensures states == old(states)[key := old(states)[key].(flushDue := Some(now + wait))]
    {
      states := states[key := states[key].(flushDue := Some(now + wait))];
    }

    /** Arms the heartbeat timer, replacing an earlier setting. */
    method ResetHeartbeatTimer(key: Key, now: int)
      requires key in states
      modifies this
      ensures states == old(states)[key := old(states)[key].(heartbeatDue := Some(now + intervals.heartbeat))]
    {
      states := states[key := states[key].(heartbeatDue := Some(now + intervals.heartbeat))];
    }
  }
}
