/** The login limiter: a fixed window per key, anchored at its first failure. */
module LimiterModel {
  import opened Common

  datatype FailureState = FailureState(count: int, firstFailAt: int)
  datatype Config = Config(maxFailures: int, window: int)

  predicate ValidConfig(cfg: Config) {
    cfg.maxFailures > 0 && cfg.window > 0
  }

  predicate Expired(st: FailureState, now: int, cfg: Config) {
    now - st.firstFailAt > cfg.window
  }

  predicate Blocked(st: Option<FailureState>, now: int, cfg: Config) {
    st.Some? && !Expired(st.value, now, cfg) && st.value.count >= cfg.maxFailures
  }

  /** The answer of `Allow`: whether to go on, and otherwise how long to wait. */
  function Answer(st: Option<FailureState>, now: int, cfg: Config): (bool, int) {
    if !Blocked(st, now, cfg) then (true, 0)
    else
      var retryAfter := cfg.window - (now - st.value.firstFailAt);
      (false, if retryAfter < 0 then 0 else retryAfter)
  }

  /** `Allow` and the collector both forget an expired window. */
  function Collected(st: Option<FailureState>, now: int, cfg: Config): Option<FailureState> {
    if st.Some? && Expired(st.value, now, cfg) then None else st
  }

  function Failed(st: Option<FailureState>, now: int, cfg: Config): Option<FailureState> {
    if st.None? || Expired(st.value, now, cfg) then Some(FailureState(1, now))
    else Some(st.value.(count := st.value.count + 1))
  }

  // ---- garbage collection is invisible -----------------------------------------------------------------

  datatype Call = Allow(now: int) | Failure(now: int) | Success(now: int) | Collect(now: int)

  function After(st: Option<FailureState>, call: Call, cfg: Config): Option<FailureState> {
    match call
    case Allow(now) => Collected(st, now, cfg)
    case Failure(now) => Failed(st, now, cfg)
    case Success(_) => None
    case Collect(now) => Collected(st, now, cfg)
  }

  /** Everything a caller is told over a run. */
  function Answers(st: Option<FailureState>, calls: seq<Call>, cfg: Config): seq<(bool, int)>
    decreases |calls|
  {
    if calls == [] then []
    else
      (if calls[0].Allow? then [Answer(st, calls[0].now, cfg)] else []) + Answers(After(st, calls[0], cfg), calls[1..], cfg)
  }

  function WithoutCollections(calls: seq<Call>): seq<Call> {
    if calls == [] then []
    else (if calls[0].Collect? then [] else [calls[0]]) + WithoutCollections(calls[1..])
  }

  ghost predicate ClockRuns(from: int, calls: seq<Call>)
    decreases |calls|
  {
    if calls == [] then true else from <= calls[0].now && ClockRuns(calls[0].now, calls[1..])
  }

  /** From now on the two cannot be told apart: equal, or one forgotten because its window is over. */
  predicate Alike(a: Option<FailureState>, b: Option<FailureState>, now: int, cfg: Config) {
    Collected(a, now, cfg) == Collected(b, now, cfg)
  }

  lemma {:induction false} CollectionsInvisibleFrom(
    a: Option<FailureState>, b: Option<FailureState>, now: int, calls: seq<Call>, cfg: Config)
    requires ClockRuns(now, calls) && Alike(a, b, now, cfg)
    ensures Answers(a, calls, cfg) == Answers(b, WithoutCollections(calls), cfg)
    decreases |calls|
  {
    if calls != [] {
      var call, rest := calls[0], calls[1..];
      if call.Collect? {
        assert WithoutCollections(calls) == WithoutCollections(rest);
        CollectionsInvisibleFrom(After(a, call, cfg), b, call.now, rest, cfg);
      } else {
        var kept := WithoutCollections(rest);
        assert WithoutCollections(calls) == [call] + kept;
        assert ([call] + kept)[1..] == kept;
        CollectionsInvisibleFrom(After(a, call, cfg), After(b, call, cfg), call.now, rest, cfg);
      }
    }
  }

  /** Over any run with a clock that does not go back, collections never change an answer. */
  lemma CollectionsInvisible(calls: seq<Call>, start: int, cfg: Config)
    requires ClockRuns(start, calls)
    ensures Answers(None, calls, cfg) == Answers(None, WithoutCollections(calls), cfg)
  {
    CollectionsInvisibleFrom(None, None, start, calls, cfg);
  }

  // ---- how many failures get through --------------------------------------------------------------------

  /** A login attempt for one key: `Allow` at one instant and, when let through, a failure no earlier. */
  datatype Op = Attempt(allowAt: int, failAt: int) | LetThrough(allowAt: int) | Sweep(at: int)

  /** The key's state with the instants of all failures, the positions in that list at which windows began, and the last two of them
    * (-1 for none). */
  datatype History = History(
    st: Option<FailureState>, clock: int, failures: seq<int>, anchors: set<nat>, current: int, previous: int)

  function Beginning(now: int): History {
    History(None, now, [], {}, -1, -1)
  }

  predicate OpensWindow(h: History, failAt: int, cfg: Config) {
    h.st.None? || Expired(h.st.value, failAt, cfg)
  }

  function Recorded(h: History, failAt: int, cfg: Config): History {
    var r := h.(st := Failed(h.st, failAt, cfg), clock := failAt, failures := h.failures + [failAt]);
    if OpensWindow(h, failAt, cfg)
    then r.(anchors := h.anchors + {|h.failures|}, previous := h.current, current := |h.failures|)
    else r
  }

  function Step(h: History, op: Op, cfg: Config): History {
    match op
    case Attempt(allowAt, failAt) =>
      var asked := h.(st := Collected(h.st, allowAt, cfg), clock := allowAt);
      if Answer(h.st, allowAt, cfg).0 then Recorded(asked, failAt, cfg) else asked
    case LetThrough(allowAt) => h.(st := Collected(h.st, allowAt, cfg), clock := allowAt)
    case Sweep(at) => h.(st := Collected(h.st, at, cfg), clock := at)
  }

  predicate Timely(h: History, op: Op) {
    match op
    case Attempt(allowAt, failAt) => h.clock <= allowAt <= failAt
    case LetThrough(allowAt) => h.clock <= allowAt
    case Sweep(at) => h.clock <= at
  }

  ghost predicate IsRun(cfg: Config, hs: seq<History>, ops: seq<Op>) {
    && |hs| == |ops| + 1
    && hs[0] == Beginning(hs[0].clock)
    && forall i :: 0 <= i < |ops| ==> Timely(hs[i], ops[i]) && hs[i + 1] == Step(hs[i], ops[i], cfg)
  }

  ghost predicate Sorted(h: History) {
    && (forall i, j :: 0 <= i < j < |h.failures| ==> h.failures[i] <= h.failures[j])
    && (forall i :: 0 <= i < |h.failures| ==> h.failures[i] <= h.clock)
  }

  /** Windows begin more than a window apart, and the last two hold at most maxFailures each. */
  ghost predicate Windowed(h: History, cfg: Config) {
    && (forall k :: k in h.anchors ==> k <= h.current)
    && -1 <= h.current < |h.failures|
    && (if h.current < 0 then h.failures == [] && h.previous < 0 else |h.failures| - h.current <= cfg.maxFailures)
    && (forall k :: k in h.anchors && k < h.current ==> h.failures[k] + cfg.window < h.failures[h.current])
    && (h.previous < 0 ==> h.current <= 0)
    && (h.previous >= 0 ==>
          && h.previous < h.current && h.current - h.previous <= cfg.maxFailures
          && h.failures[h.previous] + cfg.window < h.failures[h.current])
  }

  /** The stored counter describes the current window, unless that window is over. */
  ghost predicate Counted(h: History, cfg: Config) {
    && (h.st.Some? ==> h.current >= 0)
    && (0 <= h.current < |h.failures| ==>
          if h.st.Some? then h.st.value == FailureState(|h.failures| - h.current, h.failures[h.current])
          else h.clock > h.failures[h.current] + cfg.window)
  }

  /** The failures in the window that starts at an anchor number at most maxFailures. */
  ghost predicate AnchoredFew(h: History, cfg: Config) {
    forall k, i :: k in h.anchors && k <= i < |h.failures| && h.failures[i] <= h.failures[k] + cfg.window
      ==> i - k + 1 <= cfg.maxFailures
  }

  /** Two failures at most a window apart have at most 2 * maxFailures - 1 failures from one to the other. */
  ghost predicate CloseFew(h: History, cfg: Config) {
    forall i, j :: 0 <= i <= j < |h.failures| && h.failures[j] - h.failures[i] <= cfg.window
      ==> j - i + 1 <= 2 * cfg.maxFailures - 1
  }

  ghost predicate Inv(h: History, cfg: Config) {
    Sorted(h) && Windowed(h, cfg) && Counted(h, cfg) && AnchoredFew(h, cfg) && CloseFew(h, cfg)
  }

  lemma RecordedKeepsShape(h: History, failAt: int, cfg: Config)
    requires Sorted(h) && Windowed(h, cfg) && Counted(h, cfg) && ValidConfig(cfg) && h.clock <= failAt
    requires !OpensWindow(h, failAt, cfg) ==> h.st.value.count < cfg.maxFailures
    ensures var r := Recorded(h, failAt, cfg); Sorted(r) && Windowed(r, cfg) && Counted(r, cfg)
  {
  }

  lemma RecordedKeepsAnchored(h: History, failAt: int, cfg: Config)
    requires Inv(h, cfg) && ValidConfig(cfg)
    requires var r := Recorded(h, failAt, cfg); Sorted(r) && Windowed(r, cfg)
    ensures AnchoredFew(Recorded(h, failAt, cfg), cfg)
  {
  }

  lemma RecordedKeepsClose(h: History, failAt: int, cfg: Config)
    requires Inv(h, cfg) && ValidConfig(cfg)
    requires var r := Recorded(h, failAt, cfg); Sorted(r) && Windowed(r, cfg)
    ensures CloseFew(Recorded(h, failAt, cfg), cfg)
  {
  }

  lemma CollectedKeepsInv(h: History, now: int, cfg: Config)
    requires Inv(h, cfg) && h.clock <= now
    ensures Inv(h.(st := Collected(h.st, now, cfg), clock := now), cfg)
  {
  }

  lemma StepKeepsInv(h: History, op: Op, cfg: Config)
    requires Inv(h, cfg) && ValidConfig(cfg) && Timely(h, op)
    ensures Inv(Step(h, op, cfg), cfg)
  {
    hide Sorted, Windowed, AnchoredFew, CloseFew;
    match op
    case Attempt(allowAt, failAt) =>
      CollectedKeepsInv(h, allowAt, cfg);
      var asked := h.(st := Collected(h.st, allowAt, cfg), clock := allowAt);
      if Answer(h.st, allowAt, cfg).0 {
        RecordedKeepsShape(asked, failAt, cfg);
        RecordedKeepsAnchored(asked, failAt, cfg);
        RecordedKeepsClose(asked, failAt, cfg);
      }
    case LetThrough(allowAt) => CollectedKeepsInv(h, allowAt, cfg);
    case Sweep(at) => CollectedKeepsInv(h, at, cfg);
  }

  lemma {:induction false} RunsKeepInv(cfg: Config, hs: seq<History>, ops: seq<Op>, i: nat)
    requires IsRun(cfg, hs, ops) && ValidConfig(cfg) && i < |hs|
    ensures Inv(hs[i], cfg)
  {
    if i > 0 {
      RunsKeepInv(cfg, hs, ops, i - 1);
      StepKeepsInv(hs[i - 1], ops[i - 1], cfg);
      assert hs[i - 1 + 1] == Step(hs[i - 1], ops[i - 1], cfg);
    }
  }

  // ---- what a refusal means -------------------------------------------------------------------------------

  /** In every reachable history an attempt is refused exactly while the window of the last anchor runs and holds maxFailures failures; one
    * that is let through is told to wait for nothing. */
  lemma RefusedIff(cfg: Config, hs: seq<History>, ops: seq<Op>, n: nat, now: int)
    requires IsRun(cfg, hs, ops) && ValidConfig(cfg) && n < |hs| && hs[n].clock <= now
    ensures var h := hs[n];
      var (allowed, retryAfter) := Answer(h.st, now, cfg);
      && (!allowed <==>
            0 <= h.current < |h.failures| && now - h.failures[h.current] <= cfg.window && |h.failures| - h.current >= cfg.maxFailures)
      && (allowed ==> retryAfter == 0)
  {
    RunsKeepInv(cfg, hs, ops, n);
    hide AnchoredFew, CloseFew;
  }

  /** The delay of a refusal is what is left of the window: without a call in between, the key is refused at every instant until it is over
    * and let through at every later one. */
  lemma DelayIsExact(cfg: Config, hs: seq<History>, ops: seq<Op>, n: nat, now: int, later: int)
    requires IsRun(cfg, hs, ops) && ValidConfig(cfg) && n < |hs| && hs[n].clock <= now <= later
    requires !Answer(hs[n].st, now, cfg).0
    ensures var delay := Answer(hs[n].st, now, cfg).1;
      && 0 <= delay <= cfg.window
      && (Answer(After(hs[n].st, Allow(now), cfg), later, cfg).0 <==> later > now + delay)
  {
    RunsKeepInv(cfg, hs, ops, n);
    hide AnchoredFew, CloseFew;
  }

  /** A sweep, or an attempt, forgets a key exactly when its window is over, and otherwise leaves it alone. */
  lemma ForgottenIff(st: Option<FailureState>, now: int, cfg: Config)
    ensures After(st, Collect(now), cfg) == After(st, Allow(now), cfg)
    ensures After(st, Collect(now), cfg) == if st.Some? && now <= st.value.firstFailAt + cfg.window then st else None
  {
  }

  /** A success lets the next attempt through. */
  lemma SuccessForgives(st: Option<FailureState>, now: int, later: int, cfg: Config)
    ensures Answer(After(st, Success(now), cfg), later, cfg) == (true, 0)
  {
  }

  /** In every reachable history any closed interval as long as the window holds at most 2 * maxFailures - 1 failures. */
  lemma SlidingBound(cfg: Config, hs: seq<History>, ops: seq<Op>, n: nat, from: int)
    requires IsRun(cfg, hs, ops) && ValidConfig(cfg) && n < |hs|
    ensures |set i | 0 <= i < |hs[n].failures| && from <= hs[n].failures[i] <= from + cfg.window| <= 2 * cfg.maxFailures - 1
  {
    RunsKeepInv(cfg, hs, ops, n);
    var h := hs[n];
    var inside := set i | 0 <= i < |h.failures| && from <= h.failures[i] <= from + cfg.window;
    if exists i :: i in inside {
      var first := LeastFrom(inside, |h.failures|, 0);
      forall i | i in inside ensures first <= i < first + 2 * cfg.maxFailures - 1 {
        assert h.failures[i] - h.failures[first] <= cfg.window;
      }
      RangeSize(inside, first, first + 2 * cfg.maxFailures - 1);
    } else {
      assert inside == {};
    }
  }

  /** The window that starts at an anchor holds at most maxFailures failures. */
  lemma AnchoredBound(cfg: Config, hs: seq<History>, ops: seq<Op>, n: nat, k: nat)
    requires IsRun(cfg, hs, ops) && ValidConfig(cfg) && n < |hs| && k in hs[n].anchors
    ensures k < |hs[n].failures|
    ensures |set i | k <= i < |hs[n].failures| && hs[n].failures[i] <= hs[n].failures[k] + cfg.window| <= cfg.maxFailures
  {
    RunsKeepInv(cfg, hs, ops, n);
    var h := hs[n];
    var inside := set i | k <= i < |h.failures| && h.failures[i] <= h.failures[k] + cfg.window;
    forall i | i in inside ensures k <= i < k + cfg.maxFailures {
    }
    RangeSize(inside, k, k + cfg.maxFailures);
  }

  lemma {:induction false} LeastFrom(s: set<int>, bound: nat, from: nat) returns (least: nat)
    requires (exists i :: i in s) && forall i :: i in s ==> from <= i < bound
    ensures least in s && forall i :: i in s ==> least <= i
    decreases bound - from
  {
    if from in s {
      least := from;
    } else {
      least := LeastFrom(s, bound, from + 1);
    }
  }

  lemma {:induction false} RangeSize(s: set<int>, lo: int, hi: int)
    requires lo <= hi && forall i :: i in s ==> lo <= i < hi
    ensures |s| <= hi - lo
    decreases hi - lo
  {
    if lo == hi {
      assert s == {};
    } else {
      RangeSize(s - {hi - 1}, lo, hi - 1);
      if hi - 1 in s {
        assert s == s - {hi - 1} + {hi - 1};
      } else {
        assert s == s - {hi - 1};
      }
    }
  }

  // ---- the bound is reached ------------------------------------------------------------------------------

  function Repeat(t: int, n: nat): seq<int> {
    seq(n, _ => t)
  }

  /** n attempts in a row at the same instant. */
  function Burst(h: History, t: int, n: nat, cfg: Config): History {
    if n == 0 then h else Step(Burst(h, t, n - 1, cfg), Attempt(t, t), cfg)
  }

  lemma {:induction false} BurstInside(h: History, t: int, n: nat, cfg: Config)
    requires ValidConfig(cfg)
    requires h.st.Some? && !Expired(h.st.value, t, cfg) && h.st.value.count + n <= cfg.maxFailures
    ensures var r := Burst(h, t, n, cfg);
      && r.st == Some(h.st.value.(count := h.st.value.count + n))
      && r.failures == h.failures + Repeat(t, n)
      && (n > 0 ==> r.clock == t)
  {
    if n > 0 {
      BurstInside(h, t, n - 1, cfg);
      assert Repeat(t, n) == Repeat(t, n - 1) + [t];
    } else {
      assert Repeat(t, 0) == [];
    }
  }

  lemma BurstFromExpired(h: History, t: int, n: nat, cfg: Config)
    requires ValidConfig(cfg) && 0 < n <= cfg.maxFailures
    requires h.st.Some? && Expired(h.st.value, t, cfg)
    ensures Burst(h, t, n, cfg).failures == h.failures + Repeat(t, n)
  {
    var next := Step(h, Attempt(t, t), cfg);
    assert next.st == Some(FailureState(1, t)) && next.failures == h.failures + [t];
    BurstAfterFirst(h, t, n, cfg);
    BurstInside(next, t, n - 1, cfg);
    assert Repeat(t, n) == [t] + Repeat(t, n - 1);
    assert h.failures + [t] + Repeat(t, n - 1) == h.failures + Repeat(t, n);
  }

  ghost predicate Reaches(cfg: Config, h: History) {
    exists hs: seq<History>, ops: seq<Op> :: IsRun(cfg, hs, ops) && hs[|ops|] == h
  }

  lemma StepReaches(cfg: Config, h: History, op: Op)
    requires Reaches(cfg, h) && Timely(h, op)
    ensures Reaches(cfg, Step(h, op, cfg))
  {
    var hs, ops :| IsRun(cfg, hs, ops) && hs[|ops|] == h;
    hide Step, Timely;
    var longer, all := hs + [Step(h, op, cfg)], ops + [op];
    forall i | 0 <= i < |all|
      ensures Timely(longer[i], all[i]) && longer[i + 1] == Step(longer[i], all[i], cfg)
    {
      if i < |ops| {
        assert Timely(hs[i], ops[i]) && hs[i + 1] == Step(hs[i], ops[i], cfg);
      }
    }
    assert IsRun(cfg, longer, all) && longer[|all|] == Step(h, op, cfg);
  }

  lemma {:induction false} BurstReaches(cfg: Config, h: History, t: int, n: nat)
    requires Reaches(cfg, h) && h.clock <= t
    ensures Reaches(cfg, Burst(h, t, n, cfg)) && Burst(h, t, n, cfg).clock <= t
  {
    hide Reaches;
    if n > 0 {
      BurstReaches(cfg, h, t, n - 1);
      StepReaches(cfg, Burst(h, t, n - 1, cfg), Attempt(t, t));
    }
  }

  /** One failure, the rest of its window's allowance at the last instant, and a full new window right after. */
  lemma WorstCase(cfg: Config) returns (h: History)
    requires ValidConfig(cfg)
    ensures Reaches(cfg, h)
    ensures h.failures == [0] + Repeat(cfg.window, cfg.maxFailures - 1) + Repeat(cfg.window + 1, cfg.maxFailures)
  {
    BeginningReached(cfg);
    hide Burst, Recorded, Reaches;
    StepReaches(cfg, Beginning(0), Attempt(0, 0));
    var one := FirstFailure(cfg);
    BurstInside(one, cfg.window, cfg.maxFailures - 1, cfg);
    BurstReaches(cfg, one, cfg.window, cfg.maxFailures - 1);
    var two := Burst(one, cfg.window, cfg.maxFailures - 1, cfg);
    BurstFromExpired(two, cfg.window + 1, cfg.maxFailures, cfg);
    BurstReaches(cfg, two, cfg.window + 1, cfg.maxFailures);
    h := Burst(two, cfg.window + 1, cfg.maxFailures, cfg);
  }

  lemma BeginningReached(cfg: Config)
    ensures Reaches(cfg, Beginning(0))
  {
    var hs, ops: seq<Op> := [Beginning(0)], [];
    assert IsRun(cfg, hs, ops) && hs[|ops|] == Beginning(0);
  }

  /** For every configuration some run has an interval as long as the window with 2 * maxFailures - 1 failures in it. */
  lemma BoundIsReached(cfg: Config) returns (h: History)
    requires ValidConfig(cfg)
    ensures Reaches(cfg, h)
    ensures |set i | 0 <= i < |h.failures| && 1 <= h.failures[i] <= 1 + cfg.window| == 2 * cfg.maxFailures - 1
  {
    h := WorstCase(cfg);
    var inside := set i | 0 <= i < |h.failures| && 1 <= h.failures[i] <= 1 + cfg.window;
    forall i | 0 <= i < 2 * cfg.maxFailures
      ensures h.failures[i] == if i == 0 then 0 else if i < cfg.maxFailures then cfg.window else cfg.window + 1
    {
    }
    assert forall i :: i in inside <==> 1 <= i < 2 * cfg.maxFailures;
    FullRange(inside, 1, 2 * cfg.maxFailures);
  }

  lemma {:induction false} FullRange(s: set<int>, lo: int, hi: int)
    requires lo <= hi && forall i :: i in s ==> lo <= i < hi
    requires forall i :: lo <= i < hi ==> i in s
    ensures |s| == hi - lo
    decreases hi - lo
  {
    if lo == hi {
      RangeSize(s, lo, hi);
    } else {
      var rest := s - {hi - 1};
      FullRange(rest, lo, hi - 1);
      assert hi - 1 in s && hi - 1 !in rest;
      assert s == rest + {hi - 1};
    }
  }

  lemma FirstFailure(cfg: Config) returns (one: History)
    requires ValidConfig(cfg)
    ensures one == Step(Beginning(0), Attempt(0, 0), cfg)
    ensures one.st == Some(FailureState(1, 0)) && one.failures == [0] && one.clock == 0
  {
    one := Step(Beginning(0), Attempt(0, 0), cfg);
  }

  lemma {:induction false} BurstAfterFirst(h: History, t: int, n: nat, cfg: Config)
    requires n > 0
    ensures Burst(h, t, n, cfg) == Burst(Step(h, Attempt(t, t), cfg), t, n - 1, cfg)
  {
    if n > 1 {
      BurstAfterFirst(h, t, n - 1, cfg);
    }
  }
}

/** The limiter itself: one map of counters for all keys. */
module LoginLimiter {
  import opened Common
  import opened Uuids
  import opened LimiterModel

  class Limiter {
    var states: map<string, FailureState>
    const cfg: Config

    constructor (maxFailures: int, window: int)
      ensures states == map[] && ValidConfig(cfg)
      ensures maxFailures > 0 ==> cfg.maxFailures == maxFailures
      ensures window > 0 ==> cfg.window == window
    {
      states := map[];
      cfg := Config(if maxFailures <= 0 then 1 else maxFailures, if window <= 0 then 60 else window);
    }

    ghost function StateOf(key: string): Option<FailureState>
      reads this
    {
      if key in states then Some(states[key]) else None
    }

    method Allow(key: string, now: int) returns (allowed: bool, retryAfter: int)
      modifies this
      ensures key == "" ==> allowed && retryAfter == 0 && states == old(states)
      ensures key != "" ==>
        && (allowed, retryAfter) == Answer(old(StateOf(key)), now, cfg)
        && StateOf(key) == Collected(old(StateOf(key)), now, cfg)
      ensures forall k :: k != key ==> StateOf(k) == old(StateOf(k))
    {
      if key == "" {
        return true, 0;
      }
      if key !in states {
        return true, 0;
      }
      var state := states[key];
      if now - state.firstFailAt > cfg.window {
        states := states - {key};
        return true, 0;
      }
      if state.count >= cfg.maxFailures {
        retryAfter := cfg.window - (now - state.firstFailAt);
        if retryAfter < 0 {
          retryAfter := 0;
        }
        return false, retryAfter;
      }
      return true, 0;
    }

    method OnFailure(key: string, now: int)
      modifies this
      ensures key == "" ==> states == old(states)
      ensures key != "" ==> StateOf(key) == Failed(old(StateOf(key)), now, cfg)
      ensures forall k :: k != key ==> StateOf(k) == old(StateOf(k))
    {
      if key == "" {
        return;
      }
      if key !in states {
        states := states[key := FailureState(1, now)];
        return;
      }
      var state := states[key];
      if now - state.firstFailAt > cfg.window {
        states := states[key := FailureState(1, now)];
        return;
      }
      states := states[key := state.(count := state.count + 1)];
    }

    method OnSuccess(key: string)
      modifies this
      ensures states == old(states) - if key == "" then {} else {key}
    {
      if key == "" {
        return;
      }
      states := states - {key};
    }

    /** One sweep of the collector over all keys. */
    method CollectGarbage(now: int)
      modifies this
      ensures forall k :: StateOf(k) == Collected(old(StateOf(k)), now, cfg)
    {
      var keys := Enumerate(states.Keys);
      assert forall k :: k in keys <==> k in ToSet(keys);
      for i := 0 to |keys|
        invariant forall k :: k in states ==> k in old(states) && states[k] == old(states)[k]
        invariant forall k :: k in old(states) && k !in states ==> Expired(old(states)[k], now, cfg)
        invariant forall j :: 0 <= j < i && keys[j] in states ==> !Expired(states[keys[j]], now, cfg)
      {
        if keys[i] in states && now - states[keys[i]].firstFailAt > cfg.window {
          states := states - {keys[i]};
        }
      }
    }
  }
}
