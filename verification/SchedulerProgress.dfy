/** The scheduler never gets stuck: with the workers' own steps it can finish whatever it has begun, and a cancelled one can return. */
module SchedulerProgress {
  import opened Common
  import opened Uuids
  import opened DeviceIndex
  import opened SnapshotStore
  import opened SchedulerModel
  import opened SchedulerSafety
  import opened SchedulerConvergence
  import opened SchedulerLimits

  /** The scheduler is back at its select with nothing to receive, or about to return. */
  predicate Idle(s: State) {
    s.todo == [] && (s.queue == [] || s.returning)
  }

  /** A step of the scheduler or of a worker, neither a change of the store nor a decision to stop. */
  predicate Inner(step: Step) {
    !step.Store? && !step.CancelContext? && !step.LeaveLoop?
  }

  predicate Keeps(s: State, r: State) {
    r.config == s.config && r.cancelled == s.cancelled && r.returning == s.returning
  }

  // ---- what is still to do ---------------------------------------------------------------------------------

  function Cost(todo: seq<Action>): nat {
    if todo == [] then 0
    else
      (match todo[0] case Stop(_) => 2 case Await(_) => 1 case StartRead(_) => 2 case StartCommit(_) => 1 case Reinitialize => 0)
      + Cost(todo[1..])
  }

  /** The steps left to the worker that the scheduler waits for. */
  function WaitLeft(s: State): nat {
    if s.todo != [] && s.todo[0].Await? && s.todo[0].goroutine < |s.goroutines|
    then StepsLeft(s.goroutines[s.todo[0].goroutine].phase)
    else 0
  }

  /** Fewer events, or else no reinitialisation ahead any more, or else less to do, or else less to wait for. */
  predicate Nearer(r: State, s: State) {
    if |r.queue| != |s.queue| then |r.queue| < |s.queue|
    else if (Reinitialize in r.todo) != (Reinitialize in s.todo) then Reinitialize in s.todo
    else if Cost(r.todo) != Cost(s.todo) then Cost(r.todo) < Cost(s.todo)
    else WaitLeft(r) < WaitLeft(s)
  }

  lemma {:induction false} StartsAre(ds: seq<Id>)
    ensures forall a :: a in Starts(ds) ==> a.StartRead?
  {
    if ds != [] {
      StartsAre(ds[1..]);
    }
  }

  lemma ActAdvances(scannable: DeviceConfig -> bool, s: State) returns (step: Step, r: State)
    requires WorkersKnown(s) && WaitsForOne(s) && s.todo != [] && !s.todo[0].Reinitialize?
    ensures Next(scannable, s, step, r) && Inner(step) && Nearer(r, s) && Keeps(s, r)
  {
    hide Desired, Handle, Stops, Starts;
    step := Act;
    var rest := s.todo[1..];
    assert s.todo == [s.todo[0]] + rest;
    match s.todo[0]
    case Stop(d) =>
      if d !in s.workers {
        r := s.(todo := rest);
      } else {
        var g := s.workers[d];
        var goroutines := s.goroutines[g := s.goroutines[g].(cancelled := true)];
        r := s.(workers := s.workers - {d}, goroutines := goroutines, todo := [Await(g)] + rest);
        assert r.todo[1..] == rest;
      }
    case Await(g) =>
      if Live(s.goroutines[g]) {
        step, r := NextStep(scannable, s, g);
      } else {
        r := s.(todo := rest);
      }
    case StartRead(d) =>
      r := s.(todo := if Desired(s.config, d) then [StartCommit(d)] + rest else rest);
      assert ([StartCommit(d)] + rest)[1..] == rest;
    case StartCommit(d) =>
      r := s.(workers := s.workers[d := |s.goroutines|], goroutines := s.goroutines + [Goroutine(d, Fresh, false)], todo := rest);
  }

  lemma ReinitAdvances(scannable: DeviceConfig -> bool, s: State) returns (step: Step, r: State)
    requires Orderly(s) && s.todo != [] && s.todo[0].Reinitialize?
    ensures Next(scannable, s, step, r) && Inner(step) && Nearer(r, s) && Keeps(s, r)
  {
    var running := ElementsOf(s.workers.Keys);
    var wanted := if s.config.None? then {} else set d | d in s.config.value.devices && Desired(s.config, d);
    var desired := ElementsOf(wanted);
    forall d ensures d in desired <==> Desired(s.config, d) {
      assert d in desired <==> d in ToSet(desired);
    }
    step, r := Reinit(running, desired), s.(todo := Stops(running) + Starts(desired) + s.todo[1..]);
    StopsAre(running);
    StartsAre(desired);
  }

  lemma Advances(scannable: DeviceConfig -> bool, s: State) returns (step: Step, r: State)
    requires Orderly(s) && !Idle(s)
    ensures Next(scannable, s, step, r) && Inner(step) && Nearer(r, s) && Keeps(s, r)
  {
    if s.todo == [] {
      step, r := Receive, s.(todo := Handle(s.queue[0]), queue := s.queue[1..]);
    } else if s.todo[0].Reinitialize? {
      step, r := ReinitAdvances(scannable, s);
    } else {
      step, r := ActAdvances(scannable, s);
    }
  }

  // ---- runs that go on -------------------------------------------------------------------------------------

  lemma Extend(scannable: DeviceConfig -> bool, states: seq<State>, steps: seq<Step>, step: Step, r: State)
    requires IsRun(scannable, states, steps) && Next(scannable, states[|steps|], step, r)
    ensures IsRun(scannable, states + [r], steps + [step])
  {
    hide Next;
    forall i | 0 <= i < |steps + [step]|
      ensures Next(scannable, (states + [r])[i], (steps + [step])[i], (states + [r])[i + 1])
    {
      if i < |steps| {
        assert Next(scannable, states[i], steps[i], states[i + 1]);
      }
    }
  }

  /** However far a run has come, it can go on, while the store stays as it is and nobody cancels, until the scheduler is idle. */
  lemma {:induction false} CanFinish(scannable: DeviceConfig -> bool, states: seq<State>, steps: seq<Step>)
    returns (later: seq<State>, moves: seq<Step>)
    requires IsRun(scannable, states, steps)
    ensures IsRun(scannable, states + later, steps + moves) && forall m :: m in moves ==> Inner(m)
    ensures var last := (states + later)[|steps + moves|]; Idle(last) && Keeps(states[|steps|], last)
    decreases |states[|steps|].queue|, Reinitialize in states[|steps|].todo, Cost(states[|steps|].todo), WaitLeft(states[|steps|])
  {
    hide Orderly, Next, Inner, Idle, Cost, WaitLeft;
    var s := states[|steps|];
    later, moves := [], [];
    assert states + later == states && steps + moves == steps;
    if !Idle(s) {
      RunsAreOrderly(scannable, states, steps, |steps|);
      var step, r := Advances(scannable, s);
      Extend(scannable, states, steps, step, r);
      var rest, restMoves := CanFinish(scannable, states + [r], steps + [step]);
      later, moves := [r] + rest, [step] + restMoves;
      assert states + later == (states + [r]) + rest && steps + moves == (steps + [step]) + restMoves;
    }
  }

  lemma {:induction false} LeavesWhenCancelled(scannable: DeviceConfig -> bool, states: seq<State>, steps: seq<Step>, i: nat)
    requires IsRun(scannable, states, steps) && i < |states|
    ensures states[i].returning ==> states[i].cancelled
  {
    if i > 0 {
      LeavesWhenCancelled(scannable, states, steps, i - 1);
      RunStep(scannable, states, steps, i - 1);
    }
  }

  /** A run that has lost no event and moved no tag can go on, without any further change, until every device has the worker it
    * should have. */
  lemma CanAgree(scannable: DeviceConfig -> bool, states: seq<State>, steps: seq<Step>) returns (later: seq<State>, moves: seq<Step>)
    requires IsRun(scannable, states, steps) && !states[|steps|].cancelled
    requires forall k :: 0 <= k < |steps| ==> Faithful(states[k], steps[k])
    ensures IsRun(scannable, states + later, steps + moves) && forall m :: m in moves ==> Inner(m)
    ensures var last := (states + later)[|steps + moves|];
      last.config == states[|steps|].config && forall d :: d != "" ==> Agrees(scannable, last, d)
  {
    hide Next, Agrees;
    later, moves := CanFinish(scannable, states, steps);
    LeavesWhenCancelled(scannable, states, steps, |steps|);
    forall k | 0 <= k < |steps + moves|
      ensures Faithful((states + later)[k], (steps + moves)[k])
    {
      if k >= |steps| {
        assert (steps + moves)[k] == moves[k - |steps|] && Inner(moves[k - |steps|]);
      }
    }
    DrainedAgrees(scannable, states + later, steps + moves, |steps + moves|);
  }

  /** From any state a scheduler that is cancelled can return, and leaves no worker behind. */
  lemma CanReturn(scannable: DeviceConfig -> bool, states: seq<State>, steps: seq<Step>) returns (later: seq<State>, moves: seq<Step>)
    requires IsRun(scannable, states, steps)
    ensures IsRun(scannable, states + later, steps + moves) && forall m :: m in moves ==> Inner(m) || m.CancelContext? || m.LeaveLoop?
    ensures var last := (states + later)[|steps + moves|];
      last.returning && last.todo == [] && forall g :: 0 <= g < |last.goroutines| ==> !Live(last.goroutines[g])
  {
    hide IsRun;
    RunLength(scannable, states, steps);
    if states[|steps|].cancelled {
      later, moves := CancelledCanReturn(scannable, states, steps);
    } else {
      var r := states[|steps|].(cancelled := true);
      Extend(scannable, states, steps, CancelContext, r);
      var rest, restMoves := CancelledCanReturn(scannable, states + [r], steps + [CancelContext]);
      later, moves := [r] + rest, [CancelContext] + restMoves;
      assert states + later == (states + [r]) + rest && steps + moves == (steps + [CancelContext]) + restMoves;
    }
    RunLength(scannable, states + later, steps + moves);
    NoneLeft(scannable, states + later, steps + moves, |steps + moves|);
  }

  lemma CancelledCanReturn(scannable: DeviceConfig -> bool, states: seq<State>, steps: seq<Step>)
    returns (later: seq<State>, moves: seq<Step>)
    requires IsRun(scannable, states, steps) && states[|steps|].cancelled
    ensures IsRun(scannable, states + later, steps + moves) && forall m :: m in moves ==> Inner(m) || m.LeaveLoop?
    ensures var last := (states + later)[|steps + moves|]; last.returning && last.todo == []
  {
    hide IsRun;
    later, moves := CanFinish(scannable, states, steps);
    var all, done := states + later, steps + moves;
    RunLength(scannable, all, done);
    var s := all[|done|];
    if !s.returning {
      var running := ElementsOf(s.workers.Keys);
      var step, r := LeaveLoop(running), s.(todo := Stops(running), returning := true);
      Extend(scannable, all, done, step, r);
      var rest, restMoves := CanFinish(scannable, all + [r], done + [step]);
      assert (all + [r]) + rest == states + (later + [r] + rest) && (done + [step]) + restMoves == steps + (moves + [step] + restMoves);
      later, moves := later + [r] + rest, moves + [step] + restMoves;
    }
  }

  lemma RunLength(scannable: DeviceConfig -> bool, states: seq<State>, steps: seq<Step>)
    requires IsRun(scannable, states, steps)
    ensures |states| == |steps| + 1
  {
  }

  /** A worker whose driver cannot be built holds none, and its next try takes what the store says by then. */
  lemma FailedBuildReadsAgain(scannable: DeviceConfig -> bool, s: State, g: nat, r: State, change: Change)
    requires g < |s.goroutines| && Next(scannable, s, WorkerBuilds(g, false), r)
    ensures |r.goroutines| == |s.goroutines| && Live(r.goroutines[g]) && !DriverOpen(r.goroutines[g])
    ensures var retried := Moved(r, g, Fresh);
      var changed := Stored(retried, change);
      var d := s.goroutines[g].device;
      && Next(scannable, r, WorkerRetries(g), retried)
      && Next(scannable, retried, Store(change), changed)
      && Next(scannable, changed, WorkerLoads(g), Moved(changed, g,
           if Desired(changed.config, d) then Loaded(ConfigOf(changed.config, d).value) else Exited(None)))
  {
    hide Desired, ConfigOf, Changed, Heard, Announced;
  }
}
