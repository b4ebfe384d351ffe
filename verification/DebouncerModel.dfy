/** One subscription's debounce state, and everything that can happen to it while it lives. */
module DebouncerModel {
  import opened Common

  datatype Record = Record(tagID: Uuid, payload: int)

  /** `flushDue` and `heartbeatDue` are the instants the two armed timers are set for. */
  datatype DebounceState = DebounceState(
    latest: Option<Record>,
    pending: Option<Record>,
    lastSentAt: Option<int>,
    flushDue: Option<int>,
    heartbeatDue: Option<int>)

  const FRESH := DebounceState(None, None, None, None, None)

  datatype Intervals = Intervals(debounce: int, heartbeat: int)

  predicate MaySend(st: DebounceState, now: int, iv: Intervals) {
    st.lastSentAt.None? || now - st.lastSentAt.value >= iv.debounce
  }

  /** A published value goes out at once when the interval has passed, and otherwise waits for the flush timer. */
  function Published(st: DebounceState, record: Record, now: int, iv: Intervals): (DebounceState, Option<Record>) {
    var seen := st.(latest := Some(record), heartbeatDue := Some(now + iv.heartbeat));
    if MaySend(st, now, iv) then
      (seen.(pending := None, lastSentAt := Some(now)), Some(record))
    else
      var wait := iv.debounce - (now - st.lastSentAt.value);
      (seen.(pending := Some(record), flushDue := Some(now + if wait < 0 then 0 else wait)), None)
  }

  function Touched(st: DebounceState, record: Record, now: int, iv: Intervals): DebounceState {
    st.(latest := Some(record), heartbeatDue := Some(now + iv.heartbeat))
  }

  /** The flush callback: sends whatever is pending. */
  function Flushed(st: DebounceState, now: int, iv: Intervals): (DebounceState, Option<Record>) {
    if st.pending.None? then (st.(flushDue := None), None)
    else (st.(flushDue := None, pending := None, lastSentAt := Some(now), heartbeatDue := Some(now + iv.heartbeat)), st.pending)
  }

  /** The heartbeat callback: repeats the latest value as a snapshot and arms itself again. */
  function Beat(st: DebounceState, now: int, iv: Intervals): (DebounceState, Option<Record>) {
    if st.latest.None? then (st.(heartbeatDue := None), None)
    else (st.(heartbeatDue := Some(now + iv.heartbeat)), st.latest)
  }

  // ---- the life of one key --------------------------------------------------------------------------

  datatype Event =
    | Publish(record: Record)
    | Touch(record: Record)
    | FlushTimer
    | HeartbeatTimer

  /** A key's state with its history: what was published, the records that went out, when, and by which position in `published` each is
    * accounted for, and what the key heard last. */
  datatype Life = Life(
    st: DebounceState,
    clock: int,
    published: seq<Record>,
    sent: seq<nat>,
    sentRecords: seq<Record>,
    sentAt: seq<int>,
    heard: Option<Record>,
    active: Option<int>,
    beats: seq<Record>)

  function Born(now: int): Life {
    Life(FRESH, now, [], [], [], [], None, None, [])
  }

  function Step(l: Life, e: Event, now: int, iv: Intervals): Life {
    match e
    case Publish(record) =>
      var (st, out) := Published(l.st, record, now, iv);
      var said := l.(st := st, clock := now, published := l.published + [record], heard := Some(record), active := Some(now));
      if out.None? then said
      else said.(sent := l.sent + [|l.published|], sentRecords := l.sentRecords + [out.value], sentAt := l.sentAt + [now])
    case Touch(record) =>
      l.(st := Touched(l.st, record, now, iv), clock := now, heard := Some(record), active := Some(now))
    case FlushTimer =>
      var (st, out) := Flushed(l.st, now, iv);
      var after := l.(st := st, clock := now);
      if out.None? then after
      else after.(sent := l.sent + [if |l.published| == 0 then 0 else |l.published| - 1],
                  sentRecords := l.sentRecords + [out.value], sentAt := l.sentAt + [now], active := Some(now))
    case HeartbeatTimer =>
      var (st, out) := Beat(l.st, now, iv);
      var after := l.(st := st, clock := now);
      if out.None? then after else after.(beats := l.beats + [out.value], active := Some(now))
  }

  /** A timer callback runs at or after the instant the timer is armed for; stopping, resetting and firing are atomic. */
  predicate Enabled(l: Life, e: Event, now: int) {
    && l.clock <= now
    && (e.FlushTimer? ==> l.st.flushDue.Some? && l.st.flushDue.value <= now)
    && (e.HeartbeatTimer? ==> l.st.heartbeatDue.Some? && l.st.heartbeatDue.value <= now)
  }

  ghost predicate IsLife(iv: Intervals, lives: seq<Life>, events: seq<Event>, times: seq<int>) {
    && |lives| == |events| + 1 == |times| + 1
    && lives[0].st == FRESH && lives[0] == Born(lives[0].clock)
    && forall i :: 0 <= i < |events| ==>
         Enabled(lives[i], events[i], times[i]) && lives[i + 1] == Step(lives[i], events[i], times[i], iv)
  }

  // ---- what holds throughout ------------------------------------------------------------------------

  /** Consecutive value sends are at least the debounce interval apart. */
  ghost predicate Spaced(l: Life, iv: Intervals) {
    forall i, j :: 0 <= i < j < |l.sentAt| ==> l.sentAt[j] - l.sentAt[i] >= iv.debounce
  }

  /** The records that went out are an in-order subsequence of the published ones. */
  ghost predicate InOrder(l: Life) {
    && |l.sent| == |l.sentAt| == |l.sentRecords|
    && (forall i :: 0 <= i < |l.sent| ==> l.sent[i] < |l.published| && l.sentRecords[i] == l.published[l.sent[i]])
    && (forall i, j :: 0 <= i < j < |l.sent| ==> l.sent[i] < l.sent[j])
  }

  /** The newest published value is the last one sent, or it is pending with a timer due exactly one interval after the last send. */
  ghost predicate NothingLost(l: Life, iv: Intervals) {
    if l.st.pending.None? then
      |l.published| > 0 ==> |l.sent| > 0 && l.sent[|l.sent| - 1] == |l.published| - 1
    else
      && |l.published| > 0 && l.st.pending.value == l.published[|l.published| - 1]
      && l.st.lastSentAt.Some? && l.st.flushDue == Some(l.st.lastSentAt.value + iv.debounce)
      && |l.sent| > 0 && l.sent[|l.sent| - 1] < |l.published| - 1
  }

  ghost predicate Remembers(l: Life, iv: Intervals) {
    && |l.sent| == |l.sentAt|
    && l.st.lastSentAt == (if l.sentAt == [] then None else Some(l.sentAt[|l.sentAt| - 1]))
    && (forall i :: 0 <= i < |l.sentAt| ==> l.sentAt[i] <= l.clock)
    && l.st.latest == l.heard
    && l.st.heartbeatDue == (if l.active.None? then None else Some(l.active.value + iv.heartbeat))
    && (l.heard.Some? <==> l.active.Some?)
    && (l.published != [] ==> l.heard.Some?)
  }

  ghost predicate Good(l: Life, iv: Intervals) {
    Spaced(l, iv) && InOrder(l) && NothingLost(l, iv) && Remembers(l, iv)
  }

  lemma SpacedMore(l: Life, now: int, iv: Intervals)
    requires Spaced(l, iv) && Remembers(l, iv)
    requires l.sentAt != [] ==> now - l.sentAt[|l.sentAt| - 1] >= iv.debounce
    requires iv.debounce > 0
    ensures Spaced(l.(sentAt := l.sentAt + [now]), iv)
  {
  }

  lemma PublishKeepsGood(l: Life, record: Record, now: int, iv: Intervals)
    requires Good(l, iv) && l.clock <= now && iv.debounce > 0
    ensures Good(Step(l, Publish(record), now, iv), iv)
  {
    hide Spaced;
    if MaySend(l.st, now, iv) {
      SpacedMore(l, now, iv);
    }
    var r := Step(l, Publish(record), now, iv);
    SpacedDepends(l.(sentAt := r.sentAt), r, iv);
  }

  lemma SpacedDepends(a: Life, b: Life, iv: Intervals)
    requires a.sentAt == b.sentAt
    ensures Spaced(a, iv) <==> Spaced(b, iv)
  {
  }

  lemma FlushKeepsGood(l: Life, now: int, iv: Intervals)
    requires Good(l, iv) && Enabled(l, FlushTimer, now) && iv.debounce > 0
    ensures Good(Step(l, FlushTimer, now, iv), iv)
  {
    hide Spaced;
    if l.st.pending.Some? {
      SpacedMore(l, now, iv);
    }
    var r := Step(l, FlushTimer, now, iv);
    SpacedDepends(l.(sentAt := r.sentAt), r, iv);
  }

  lemma StepKeepsGood(l: Life, e: Event, now: int, iv: Intervals)
    requires Good(l, iv) && Enabled(l, e, now) && iv.debounce > 0
    ensures Good(Step(l, e, now, iv), iv)
  {
    match e
    case Publish(record) => PublishKeepsGood(l, record, now, iv);
    case Touch(record) =>
    case FlushTimer => FlushKeepsGood(l, now, iv);
    case HeartbeatTimer =>
  }

  /** Every state of every life: spacing, order, nothing lost, the exact flush instant, and the heartbeat's instant and content. */
  lemma {:induction false} LivesAreGood(iv: Intervals, lives: seq<Life>, events: seq<Event>, times: seq<int>, i: nat)
    requires IsLife(iv, lives, events, times) && iv.debounce > 0 && i < |lives|
    ensures Good(lives[i], iv)
  {
    if i > 0 {
      LivesAreGood(iv, lives, events, times, i - 1);
      StepKeepsGood(lives[i - 1], events[i - 1], times[i - 1], iv);
      assert lives[i - 1 + 1] == Step(lives[i - 1], events[i - 1], times[i - 1], iv);
    }
  }

  /** A value that has to wait is due within one interval of its publication. */
  lemma WaitsAtMostOneInterval(l: Life, record: Record, now: int, iv: Intervals)
    requires Good(l, iv) && Enabled(l, Publish(record), now) && iv.debounce > 0
    ensures var r := Step(l, Publish(record), now, iv);
      r.sentRecords == l.sentRecords ==>
        r.st.pending == Some(record) && r.st.flushDue.Some? && now < r.st.flushDue.value <= now + iv.debounce
  {
  }

  /** Once nothing more is published, the flush timer sends the newest value and leaves nothing pending. */
  lemma FlushCatchesUp(l: Life, now: int, iv: Intervals)
    requires Good(l, iv) && l.st.pending.Some? && Enabled(l, FlushTimer, now)
    ensures var r := Step(l, FlushTimer, now, iv);
      r.st.pending.None? && r.sentRecords == l.sentRecords + [l.published[|l.published| - 1]]
  {
  }

  /** A heartbeat repeats the record that the key heard last, comes one heartbeat interval after it was last active, and is no value
    * send. */
  lemma BeatRepeatsLatest(l: Life, now: int, iv: Intervals)
    requires Good(l, iv) && Enabled(l, HeartbeatTimer, now)
    ensures l.heard.Some? && l.active.Some? && l.active.value + iv.heartbeat <= now
    ensures var r := Step(l, HeartbeatTimer, now, iv);
      && r.beats == l.beats + [l.heard.value] && r.st == l.st.(heartbeatDue := Some(now + iv.heartbeat))
      && r.sentRecords == l.sentRecords && r.sentAt == l.sentAt
  {
  }

  /** A timer that has fired stays silent until it is set again: the flush always, the heartbeat when there is nothing to repeat. */
  lemma FiredTimersAreOff(st: DebounceState, now: int, iv: Intervals)
    ensures Flushed(st, now, iv).0.flushDue == None
    ensures st.latest.None? ==> Beat(st, now, iv) == (st.(heartbeatDue := None), None)
  {
  }

  // ---- a callback that runs late, after its timer was set again ---------------------------------------

  /** A flush callback running at any moment keeps the spacing exactly when nothing is pending or the interval has passed. */
  lemma CallbackKeepsSpacingIff(l: Life, now: int, iv: Intervals)
    requires Good(l, iv) && l.clock <= now && iv.debounce > 0
    ensures Spaced(Step(l, FlushTimer, now, iv), iv)
      <==> (l.st.pending.None? || now - l.st.lastSentAt.value >= iv.debounce)
  {
    if l.st.pending.Some? {
      var r := Step(l, FlushTimer, now, iv);
      if now - l.st.lastSentAt.value >= iv.debounce {
        SpacedMore(l, now, iv);
      } else {
        assert r.sentAt[|l.sentAt|] - r.sentAt[|l.sentAt| - 1] < iv.debounce;
      }
    }
  }

  /** The race the atomic timers rule out: a callback that fired for the first wait runs during the second one. */
  lemma LateCallbackBreaksSpacing(a: Record, b: Record, c: Record, d: Record)
    ensures var iv := Intervals(10, 100);
      var l1 := Step(Born(0), Publish(a), 0, iv);
      var l2 := Step(l1, Publish(b), 1, iv);
      var l3 := Step(l2, Publish(c), 10, iv);
      var l4 := Step(l3, Publish(d), 11, iv);
      && Good(l4, iv) && l2.st.flushDue == Some(10) && l4.st.flushDue == Some(20)
      && !Spaced(Step(l4, FlushTimer, 11, iv), iv)
  {
    var iv := Intervals(10, 100);
    StepKeepsGood(Born(0), Publish(a), 0, iv);
    var l1 := Step(Born(0), Publish(a), 0, iv);
    assert l1.st == DebounceState(Some(a), None, Some(0), None, Some(100)) && l1.clock == 0;
    StepKeepsGood(l1, Publish(b), 1, iv);
    var l2 := Step(l1, Publish(b), 1, iv);
    assert l2.st == DebounceState(Some(b), Some(b), Some(0), Some(10), Some(101)) && l2.clock == 1;
    StepKeepsGood(l2, Publish(c), 10, iv);
    var l3 := Step(l2, Publish(c), 10, iv);
    assert l3.st == DebounceState(Some(c), None, Some(10), Some(10), Some(110)) && l3.clock == 10;
    hide Good;
    StepKeepsGood(l3, Publish(d), 11, iv);
    var l4 := Step(l3, Publish(d), 11, iv);
    assert l4.st == DebounceState(Some(d), Some(d), Some(10), Some(20), Some(111)) && l4.clock == 11;
    hide Step;
    CallbackKeepsSpacingIff(l4, 11, iv);
  }
}
