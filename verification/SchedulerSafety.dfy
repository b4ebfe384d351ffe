/** At most one worker goroutine per device, and none once the scheduler has returned. */
module SchedulerSafety {
  import opened Uuids
  import opened DeviceIndex
  import opened SchedulerModel

  predicate NoStops(todo: seq<Action>) {
    forall a :: a in todo ==> !a.Stop?
  }

  /** Carried out in order from the given set of registered devices, no start meets a registered device; stops come first. */
  predicate Safe(todo: seq<Action>, running: set<Id>) {
    if todo == [] then true
    else
      match todo[0]
      case Stop(d) => Safe(todo[1..], running - {d})
      case Await(_) => Safe(todo[1..], running)
      case StartRead(d) => d != "" && d !in running && NoStops(todo[1..]) && Safe(todo[1..], running + {d})
      case StartCommit(d) => d != "" && d !in running && NoStops(todo[1..]) && Safe(todo[1..], running + {d})
      case Reinitialize => todo[1..] == []
  }

  ghost predicate Registered(s: State, g: nat) {
    g < |s.goroutines| && s.goroutines[g].device in s.workers && s.workers[s.goroutines[g].device] == g
  }

  ghost predicate Awaited(s: State, g: nat) {
    s.todo != [] && s.todo[0] == Await(g)
  }

  /** The workers map names goroutines of the right device. */
  ghost predicate WorkersKnown(s: State) {
    forall d :: d in s.workers ==> d != "" && s.workers[d] < |s.goroutines| && s.goroutines[s.workers[d]].device == d
  }

  /** A live goroutine is registered or is the one the scheduler waits for. */
  ghost predicate LiveAccounted(s: State) {
    forall g :: 0 <= g < |s.goroutines| && Live(s.goroutines[g]) ==> Registered(s, g) || Awaited(s, g)
  }

  /** The scheduler waits for one goroutine at a time, whose device has no worker meanwhile; a wait or a registration is always next. */
  ghost predicate WaitsForOne(s: State) {
    && (forall i :: 0 < i < |s.todo| ==> !s.todo[i].Await? && !s.todo[i].StartCommit?)
    && (s.todo != [] && s.todo[0].Await? ==>
          s.todo[0].goroutine < |s.goroutines| && s.goroutines[s.todo[0].goroutine].device !in s.workers
          && s.goroutines[s.todo[0].goroutine].cancelled)
  }

  /** On the way out only stops are left, one for every worker. */
  ghost predicate StopsAll(s: State) {
    s.returning ==>
      && (forall a :: a in s.todo ==> a.Stop? || a.Await?)
      && (forall d :: d in s.workers ==> Stop(d) in s.todo)
  }

  ghost predicate Orderly(s: State) {
    WorkersKnown(s) && LiveAccounted(s) && WaitsForOne(s) && Safe(s.todo, s.workers.Keys) && StopsAll(s)
  }

  lemma {:induction false} SafeWithFewer(todo: seq<Action>, running: set<Id>, fewer: set<Id>)
    requires Safe(todo, running) && fewer <= running
    ensures Safe(todo, fewer)
    decreases |todo|
  {
    if todo != [] {
      match todo[0]
      case Stop(d) => SafeWithFewer(todo[1..], running - {d}, fewer - {d});
      case Await(_) => SafeWithFewer(todo[1..], running, fewer);
      case StartRead(d) => SafeWithFewer(todo[1..], running + {d}, fewer + {d});
      case StartCommit(d) => SafeWithFewer(todo[1..], running + {d}, fewer + {d});
      case Reinitialize =>
    }
  }

  lemma {:induction false} StartsSafe(ds: seq<Id>, running: set<Id>)
    requires NoDuplicates(ds) && ToSet(ds) !! running
    ensures Safe(Starts(ds), running)
    ensures forall a :: a in Starts(ds) ==> a.StartRead?
  {
    if ds != [] {
      assert ds[0] in ToSet(ds);
      assert ToSet(ds[1..]) <= ToSet(ds);
      assert ds[0] !in ds[1..];
      if ds[0] == "" {
        StartsSafe(ds[1..], running);
        assert Starts(ds) == Starts(ds[1..]);
      } else {
        StartsSafe(ds[1..], running + {ds[0]});
        assert Starts(ds)[1..] == Starts(ds[1..]);
      }
    }
  }

  lemma {:induction false} StopsThen(ds: seq<Id>, rest: seq<Action>, running: set<Id>)
    requires Safe(rest, running - ToSet(ds))
    ensures Safe(Stops(ds) + rest, running)
    decreases |ds|
  {
    if ds == [] {
      assert running - ToSet(ds) == running;
      assert Stops(ds) + rest == rest;
    } else {
      DropsHead(ds, running);
      StopsThen(ds[1..], rest, running - {ds[0]});
      var all, tail := Stops(ds) + rest, Stops(ds[1..]) + rest;
      assert all == [Stop(ds[0])] + tail;
      assert all[1..] == tail;
    }
  }

  lemma DropsHead(ds: seq<Id>, running: set<Id>)
    requires ds != []
    ensures running - ToSet(ds) == (running - {ds[0]}) - ToSet(ds[1..])
  {
  }

  lemma {:induction false} StopsAre(ds: seq<Id>)
    ensures forall a :: a in Stops(ds) <==> a.Stop? && a.device in ds
  {
    if ds != [] {
      StopsAre(ds[1..]);
      assert forall d :: d in ds <==> d == ds[0] || d in ds[1..];
    }
  }

  // ---- each step keeps it ----------------------------------------------------------------------------------

  lemma ReceiveOrderly(s: State, r: State)
    requires Orderly(s) && s.todo == [] && !s.returning && s.queue != []
    requires r == s.(todo := Handle(s.queue[0]), queue := s.queue[1..])
    ensures Orderly(r)
  {
  }

  lemma ReinitOrderly(s: State, running: seq<Id>, desired: seq<Id>, r: State)
    requires Orderly(s) && s.todo != [] && s.todo[0] == Reinitialize
    requires ToSet(running) == s.workers.Keys && NoDuplicates(desired)
    requires r == s.(todo := Stops(running) + Starts(desired) + s.todo[1..])
    ensures Orderly(r)
  {
    assert s.todo[1..] == [];
    assert r.todo == Stops(running) + Starts(desired);
    assert Reinitialize in s.todo;
    hide Safe, Stops, Starts, ToSet, NoDuplicates;
    StopsThenStarts(running, desired, s.workers.Keys);
    assert forall g :: 0 <= g < |s.goroutines| && Live(s.goroutines[g]) ==> Registered(s, g) && Registered(r, g);
  }

  lemma StopsThenStarts(running: seq<Id>, desired: seq<Id>, workers: set<Id>)
    requires ToSet(running) == workers && NoDuplicates(desired)
    ensures Safe(Stops(running) + Starts(desired), workers)
    ensures var todo := Stops(running) + Starts(desired);
      forall i :: 0 <= i < |todo| ==> todo[i].Stop? || todo[i].StartRead?
  {
    hide Safe;
    assert workers - ToSet(running) == {};
    StartsSafe(desired, {});
    StopsThen(running, Starts(desired), workers);
    StopsAre(running);
    var todo := Stops(running) + Starts(desired);
    assert forall i :: 0 <= i < |todo| ==> todo[i] in Stops(running) || todo[i] in Starts(desired);
  }

  lemma LeaveOrderly(s: State, running: seq<Id>, r: State)
    requires Orderly(s) && s.todo == [] && ToSet(running) == s.workers.Keys
    requires r == s.(todo := Stops(running), returning := true)
    ensures Orderly(r)
  {
    hide Safe, Stops, ToSet;
    OnlyStops(running, s.workers.Keys);
    assert forall g :: 0 <= g < |s.goroutines| && Live(s.goroutines[g]) ==> Registered(s, g) && Registered(r, g);
  }

  lemma OnlyStops(ds: seq<Id>, running: set<Id>)
    requires ToSet(ds) == running
    ensures Safe(Stops(ds), running)
    ensures forall d :: d in running ==> Stop(d) in Stops(ds)
    ensures forall a :: a in Stops(ds) ==> a.Stop?
    ensures forall i :: 0 <= i < |Stops(ds)| ==> Stops(ds)[i].Stop?
  {
    assert running - ToSet(ds) == {};
    StopsThen(ds, [], running);
    StopsAre(ds);
    assert Stops(ds) + [] == Stops(ds);
    assert forall i :: 0 <= i < |Stops(ds)| ==> Stops(ds)[i] in Stops(ds);
  }

  /** A goroutine's step changes its own phase and nothing else. */
  lemma WorksMoves(scannable: DeviceConfig -> bool, s: State, step: Step, r: State) returns (g: nat, phase: Phase)
    requires Works(scannable, s, step, r)
    ensures g < |s.goroutines| && Live(s.goroutines[g]) && r == Moved(s, g, phase)
  {
    hide Desired, ConfigOf;
    g := step.g;
    phase := r.goroutines[g].phase;
  }

  lemma WorksOrderly(scannable: DeviceConfig -> bool, s: State, step: Step, r: State)
    requires Orderly(s) && Works(scannable, s, step, r)
    ensures Orderly(r)
  {
    hide Safe, Works;
    var g, phase := WorksMoves(scannable, s, step, r);
    forall k | 0 <= k < |r.goroutines| && Live(r.goroutines[k]) ensures Registered(r, k) || Awaited(r, k) {
      assert Registered(s, k) || Awaited(s, k);
    }
  }

  lemma ActOrderly(s: State, r: State)
    requires Orderly(s) && s.todo != [] && Acts(s, r)
    ensures Orderly(r)
  {
    match s.todo[0]
    case Stop(d) => StopOrderly(s, d, r);
    case Await(g) => AwaitOrderly(s, g, r);
    case StartRead(d) => StartReadOrderly(s, d, r);
    case StartCommit(d) => CommitOrderly(s, d, r);
    case Reinitialize =>
  }

  lemma AwaitOrderly(s: State, g: nat, r: State)
    requires Orderly(s) && s.todo != [] && s.todo[0] == Await(g) && Acts(s, r)
    ensures Orderly(r)
  {
  }

  lemma StartReadOrderly(s: State, d: Id, r: State)
    requires Orderly(s) && s.todo != [] && s.todo[0] == StartRead(d) && Acts(s, r)
    ensures Orderly(r)
  {
    var rest := s.todo[1..];
    SafeWithFewer(rest, s.workers.Keys + {d}, s.workers.Keys);
    assert ([StartCommit(d)] + rest)[1..] == rest;
    assert Safe(rest, s.workers.Keys) && Safe([StartCommit(d)] + rest, s.workers.Keys);
    assert StartRead(d) in s.todo;
    hide Safe, Desired;
    assert forall k :: 0 <= k < |s.goroutines| && Live(s.goroutines[k]) ==> Registered(s, k) && Registered(r, k);
  }

  lemma SafeStop(todo: seq<Action>, running: set<Id>, d: Id, g: nat)
    requires todo != [] && todo[0] == Stop(d) && Safe(todo, running)
    ensures Safe(todo[1..], running - {d}) && Safe([Await(g)] + todo[1..], running - {d})
  {
  }

  lemma StopOrderly(s: State, d: Id, r: State)
    requires Orderly(s) && s.todo != [] && s.todo[0] == Stop(d) && Acts(s, r)
    ensures Orderly(r)
  {
    hide Safe, LiveAccounted, WaitsForOne, StopsAll;
    SafeStop(s.todo, s.workers.Keys, d, if d in s.workers then s.workers[d] else 0);
    StopWaits(s, d, r);
    StopsWorker(s, d, r);
    StopStopsAll(s, d, r);
    if d !in s.workers {
      assert s.workers.Keys - {d} == s.workers.Keys;
    } else {
      assert r.workers.Keys == s.workers.Keys - {d};
    }
  }

  lemma StopWaits(s: State, d: Id, r: State)
    requires WorkersKnown(s) && WaitsForOne(s) && s.todo != [] && s.todo[0] == Stop(d) && Acts(s, r)
    ensures WaitsForOne(r)
  {
  }

  lemma StopStopsAll(s: State, d: Id, r: State)
    requires WorkersKnown(s) && StopsAll(s) && s.todo != [] && s.todo[0] == Stop(d) && Acts(s, r)
    ensures StopsAll(r)
  {
  }

  lemma StopsWorker(s: State, d: Id, r: State)
    requires WorkersKnown(s) && LiveAccounted(s) && s.todo != [] && s.todo[0] == Stop(d) && Acts(s, r)
    ensures LiveAccounted(r)
  {
  }

  lemma CommitOrderly(s: State, d: Id, r: State)
    requires Orderly(s) && s.todo != [] && s.todo[0] == StartCommit(d) && Acts(s, r)
    ensures Orderly(r)
  {
    var rest := s.todo[1..];
    assert forall a :: a in rest ==> a in s.todo;
    assert r.workers.Keys == s.workers.Keys + {d};
    assert StartCommit(d) in s.todo;
    forall k | 0 <= k < |r.goroutines| && Live(r.goroutines[k]) ensures Registered(r, k) || Awaited(r, k) {
      if k < |s.goroutines| {
        assert Live(s.goroutines[k]) && Registered(s, k);
      }
    }
    hide Safe;
    assert rest != [] ==> !rest[0].Await?;
  }

  lemma NextOrderly(scannable: DeviceConfig -> bool, s: State, step: Step, r: State)
    requires Orderly(s) && Next(scannable, s, step, r)
    ensures Orderly(r)
  {
    hide Orderly, Safe, Acts, Works;
    match step
    case Store(_) => SameWorkersOrderly(s, r);
    case Receive => ReceiveOrderly(s, r);
    case Act => ActOrderly(s, r);
    case Reinit(running, desired) => ReinitOrderly(s, running, desired, r);
    case CancelContext => SameWorkersOrderly(s, r);
    case LeaveLoop(running) => LeaveOrderly(s, running, r);
    case _ => WorksOrderly(scannable, s, step, r);
  }

  lemma SameWorkersOrderly(s: State, r: State)
    requires Orderly(s)
    requires r.workers == s.workers && r.goroutines == s.goroutines && r.todo == s.todo && r.returning == s.returning
    ensures Orderly(r)
  {
  }

  lemma {:induction false} RunsAreOrderly(scannable: DeviceConfig -> bool, states: seq<State>, steps: seq<Step>, i: nat)
    requires IsRun(scannable, states, steps) && i < |states|
    ensures Orderly(states[i])
  {
    if i > 0 {
      RunsAreOrderly(scannable, states, steps, i - 1);
      hide Orderly, Next;
      assert Next(scannable, states[i - 1], steps[i - 1], states[i - 1 + 1]);
      NextOrderly(scannable, states[i - 1], steps[i - 1], states[i]);
    }
  }

  /** In every state of every run two goroutines that are both alive work for different devices; so no device has two open drivers. */
  lemma MutualExclusion(scannable: DeviceConfig -> bool, states: seq<State>, steps: seq<Step>, i: nat, g: nat, h: nat)
    requires IsRun(scannable, states, steps) && i < |states|
    requires g < h < |states[i].goroutines| && Live(states[i].goroutines[g]) && Live(states[i].goroutines[h])
    ensures states[i].goroutines[g].device != states[i].goroutines[h].device
  {
    RunsAreOrderly(scannable, states, steps, i);
    hide Safe, IsRun;
    var s := states[i];
    assert Registered(s, g) || Awaited(s, g);
    assert Registered(s, h) || Awaited(s, h);
  }

  /** Once the scheduler has stopped everything on its way out, no goroutine is alive: no driver is left open. */
  lemma NoneLeft(scannable: DeviceConfig -> bool, states: seq<State>, steps: seq<Step>, i: nat)
    requires IsRun(scannable, states, steps) && i < |states|
    requires states[i].returning && states[i].todo == []
    ensures states[i].workers == map[]
    ensures forall g :: 0 <= g < |states[i].goroutines| ==> !Live(states[i].goroutines[g]) && !DriverOpen(states[i].goroutines[g])
  {
    RunsAreOrderly(scannable, states, steps, i);
    hide Safe, IsRun;
    var s := states[i];
    forall g | 0 <= g < |s.goroutines| ensures !Live(s.goroutines[g]) {
      assert !Registered(s, g) && !Awaited(s, g);
    }
  }
}
