/** Where convergence ends: a tag that moves between devices, and an event that finds the queue full. */
module SchedulerLimits {
  import opened Common
  import opened DeviceIndex
  import opened Snapshots
  import opened SnapshotStore
  import opened SchedulerModel
  import opened SchedulerSafety
  import opened SchedulerConvergence

  /** The worker has read its configuration and will not read it again unless the driver cannot be built. */
  predicate HasLoaded(phase: Phase) {
    !phase.Fresh? && !phase.Retrying?
  }

  lemma TagsWithout(c: Config, tag: Tag, d: Id)
    requires tag.id in c.tags && c.tags[tag.id].deviceID == d && tag.deviceID != d
    ensures TagsOf(c.(tags := c.tags[tag.id := tag]), d) == TagsOf(c, d) - {tag.id}
    ensures tag.id in TagsOf(c, d)
  {
  }

  /** Moving a tag away from a device that agrees with the store and has nothing pending leaves it in agreement exactly when the device
    * is not known, or keeps another tag and its worker has yet to read the store. */
  lemma MoveKeepsIff(scannable: DeviceConfig -> bool, s: State, tag: Tag, d: Id)
    requires Moves(s.config, Change.UpsertTag(tag)) && d == s.config.value.tags[tag.id].deviceID
    requires Agrees(scannable, s, d)
    ensures Agrees(scannable, Stored(s, Change.UpsertTag(tag)), d)
      <==> d !in s.config.value.devices
           || (TagsOf(s.config.value, d) != map[tag.id := s.config.value.tags[tag.id]]
               && !HasLoaded(s.goroutines[s.workers[d]].phase))
  {
    var c := s.config.value;
    var r := Stored(s, Change.UpsertTag(tag));
    TagsWithout(c, tag, d);
    var mine := TagsOf(c, d);
    assert ConfigOf(s.config, d) == if d in c.devices then Some(DeviceConfig(c.devices[d], mine)) else None;
    assert ConfigOf(r.config, d) == if d in c.devices then Some(DeviceConfig(c.devices[d], mine - {tag.id})) else None;
    assert mine != mine - {tag.id};
    if mine - {tag.id} == map[] {
      assert mine == map[tag.id := c.tags[tag.id]];
    } else {
      var t :| t in mine - {tag.id};
      assert t in mine && t !in map[tag.id := c.tags[tag.id]];
    }
  }

  /** A change whose event is dropped leaves a device that agreed with the store in agreement exactly when its configuration is
    * unchanged, or it is wanted neither before nor after, or it is wanted both times and its worker has yet to read the store. */
  lemma DropKeepsIff(scannable: DeviceConfig -> bool, s: State, change: Change, d: Id)
    requires Drops(s, change) && Agrees(scannable, s, d)
    ensures var before, after := s.config, Changed(s.config, change);
      Agrees(scannable, Stored(s, change), d)
      <==> ConfigOf(after, d) == ConfigOf(before, d)
           || (!Desired(before, d) && !Desired(after, d))
           || (Desired(before, d) && Desired(after, d) && !HasLoaded(s.goroutines[s.workers[d]].phase))
  {
  }

  /** The device has no worker and needs none, or its configuration is the same, or its worker has yet to read the store. */
  ghost predicate Unaffected(s: State, after: Option<Config>, d: Id) {
    || ConfigOf(after, d) == ConfigOf(s.config, d)
    || (!Desired(s.config, d) && !Desired(after, d))
    || (Desired(s.config, d) && Desired(after, d) && d in s.workers && s.workers[d] < |s.goroutines|
        && !HasLoaded(s.goroutines[s.workers[d]].phase))
  }

  /** The event of the change reaches the queue and concerns the device. */
  predicate IsHeard(s: State, change: Change, d: Id) {
    var e := Announced(s.config, change);
    e.Some? && |s.queue| < SUBSCRIPTION_BUFFER_SIZE && Concerns(e.value, d)
  }

  /** The change goes unheard and is not what the device is being prepared for: the last event for it is a removal and it is wanted all
    * the same; or it is about to be registered and is no longer wanted, or about to be stopped and is wanted; or nothing is on its way
    * for it and it is affected. */
  ghost predicate Misses(s: State, change: Change, d: Id) {
    var after := Changed(s.config, change);
    && !IsHeard(s, change, d)
    && match LastFor(s.queue, d)
       case Some(event) => event.DeviceRemoved? && Desired(after, d)
       case None =>
         if Reinitialize in s.todo || StartRead(d) in s.todo then false
         else if StartCommit(d) in s.todo then !Desired(after, d)
         else if Stop(d) in s.todo then Desired(after, d)
         else !Unaffected(s, after, d)
  }

  lemma AgreesIff(scannable: DeviceConfig -> bool, s: State, change: Change, d: Id)
    requires Agrees(scannable, s, d)
    ensures Agrees(scannable, Stored(s, change), d) <==> Unaffected(s, Changed(s.config, change), d)
  {
    DesiredFollows(s.config, Changed(s.config, change), d);
    DesiredFollows(Changed(s.config, change), s.config, d);
    hide Changed, Announced, ConfigOf, Desired;
  }

  lemma HeardQueue(s: State, change: Change, d: Id)
    ensures var q := Stored(s, change).queue;
      LastFor(q, d) == if IsHeard(s, change, d) then Announced(s.config, change) else LastFor(s.queue, d)
  {
    var e, q := Announced(s.config, change), Stored(s, change).queue;
    hide Changed, Announced;
    if q != s.queue {
      assert q == s.queue + [e.value] && q[..|q| - 1] == s.queue;
    }
  }

  /** A change keeps a device convergent exactly when it misses nothing for it. */
  lemma StoreConvergesIff(scannable: DeviceConfig -> bool, s: State, change: Change, d: Id)
    requires d != "" && Convergent(scannable, s, d)
    ensures Convergent(scannable, Stored(s, change), d) <==> !Misses(s, change, d)
  {
    HeardQueue(s, change, d);
    if IsHeard(s, change, d) {
      RemovalLeavesUnwanted(s.config, change, d);
    } else if Agrees(scannable, s, d) {
      AgreesIff(scannable, s, change, d);
    }
    hide Changed, Announced, ConfigOf, Desired, Agrees, IsHeard, Unaffected;
  }

  lemma RemovalLeavesUnwanted(c: Option<Config>, change: Change, d: Id)
    requires d != ""
    ensures Announced(c, change) == Some(DeviceRemoved(d)) ==> !Desired(Changed(c, change), d)
  {
    if change.RemoveDevice? {
      ChangeConcerns(c, change, d);
    }
  }

  /** The step is such a change. */
  ghost predicate Diverts(s: State, step: Step, d: Id) {
    step.Store? && Misses(s, step.change, d)
  }

  /** Every other step keeps a device convergent until the context is cancelled. */
  lemma NextConvergesIff(scannable: DeviceConfig -> bool, s: State, step: Step, r: State, d: Id)
    requires d != "" && Orderly(s) && Convergent(scannable, s, d) && Next(scannable, s, step, r) && !r.cancelled
    ensures Convergent(scannable, r, d) <==> !Diverts(s, step, d)
  {
    hide Orderly, Convergent, Misses;
    if step.Store? {
      StoreConvergesIff(scannable, s, step.change, d);
    } else {
      NextConverges(scannable, s, step, r, d);
    }
  }

  lemma StepConvergesIff(scannable: DeviceConfig -> bool, states: seq<State>, steps: seq<Step>, k: nat, d: Id)
    requires IsRun(scannable, states, steps) && k < |steps| && d != ""
    requires !states[k + 1].cancelled && Convergent(scannable, states[k], d)
    ensures Convergent(scannable, states[k + 1], d) <==> !Diverts(states[k], steps[k], d)
  {
    hide Next, Convergent, Diverts, Orderly;
    RunsAreOrderly(scannable, states, steps, k);
    RunStep(scannable, states, steps, k);
    NextConvergesIff(scannable, states[k], steps[k], states[k + 1], d);
  }

  lemma {:induction false} StaysConvergent(scannable: DeviceConfig -> bool, states: seq<State>, steps: seq<Step>, i: nat, d: Id)
    requires IsRun(scannable, states, steps) && i < |states| && d != "" && !states[i].cancelled
    requires forall k :: 0 <= k < i ==> !Diverts(states[k], steps[k], d)
    ensures Convergent(scannable, states[i], d)
  {
    hide Next, Convergent, Diverts;
    if i == 0 {
      StartConverges(scannable, states[0], d);
    } else {
      RunStep(scannable, states, steps, i - 1);
      CancelledStays(scannable, states[i - 1], steps[i - 1], states[i]);
      StaysConvergent(scannable, states, steps, i - 1, d);
      StepConvergesIff(scannable, states, steps, i - 1, d);
    }
  }

  /** Over any interleaving that is not cancelled, a device is convergent in every state if and only if no change misses it. */
  lemma RunsConvergeIff(scannable: DeviceConfig -> bool, states: seq<State>, steps: seq<Step>, d: Id)
    requires IsRun(scannable, states, steps) && d != "" && forall i :: 0 <= i < |states| ==> !states[i].cancelled
    ensures (forall i :: 0 <= i < |states| ==> Convergent(scannable, states[i], d))
      <==> (forall k :: 0 <= k < |steps| ==> !Diverts(states[k], steps[k], d))
  {
    hide Next, Convergent, Diverts;
    if forall k :: 0 <= k < |steps| ==> !Diverts(states[k], steps[k], d) {
      forall i | 0 <= i < |states|
        ensures Convergent(scannable, states[i], d)
      {
        StaysConvergent(scannable, states, steps, i, d);
      }
    }
    if forall i :: 0 <= i < |states| ==> Convergent(scannable, states[i], d) {
      forall k | 0 <= k < |steps|
        ensures !Diverts(states[k], steps[k], d)
      {
        StepConvergesIff(scannable, states, steps, k, d);
      }
    }
  }

  /** The driver is, or was last, open on a configuration that is no longer the device's. */
  ghost predicate Stale(s: State, d: Id) {
    && d in s.workers && s.workers[d] < |s.goroutines|
    && match s.goroutines[s.workers[d]].phase
       case Open(c) => ConfigOf(s.config, d) != Some(c)
       case Closing(c) => ConfigOf(s.config, d) != Some(c)
       case Exited(last) => last.Some? && ConfigOf(s.config, d) != last
       case _ => false
  }

  lemma StaleDisagrees(scannable: DeviceConfig -> bool, s: State, d: Id)
    requires Stale(s, d)
    ensures !Agrees(scannable, s, d)
  {
  }

  /** Moving a tag away from a device whose driver is open makes it stale, with nothing pending that would correct it. */
  lemma MoveLeavesStale(scannable: DeviceConfig -> bool, s: State, tag: Tag, d: Id)
    requires Moves(s.config, Change.UpsertTag(tag)) && d == s.config.value.tags[tag.id].deviceID
    requires Agrees(scannable, s, d) && !Pending(s, d) && d in s.workers && s.goroutines[s.workers[d]].phase.Open?
    ensures var r := Stored(s, Change.UpsertTag(tag)); Stale(r, d) && !Pending(r, d)
  {
    var c := s.config.value;
    TagsWithout(c, tag, d);
    assert TagsOf(c, d) != TagsOf(c, d) - {tag.id};
    DesiredFollows(s.config, s.config, d);
    var r := Stored(s, Change.UpsertTag(tag));
    assert forall e :: e in r.queue ==> e in s.queue || e == TagUpserted(tag.deviceID, tag.id);
  }

  /** A change to a device whose driver is open, when its event finds the queue full of other devices' events, makes it stale too. */
  lemma DropLeavesStale(scannable: DeviceConfig -> bool, s: State, change: Change, d: Id)
    requires Agrees(scannable, s, d) && !Pending(s, d) && d in s.workers && s.goroutines[s.workers[d]].phase.Open?
    requires Drops(s, change) && ConfigOf(Changed(s.config, change), d) != ConfigOf(s.config, d)
    ensures var r := Stored(s, change); Stale(r, d) && !Pending(r, d)
  {
  }

  /** For as long as the store is left alone, a stale device with nothing pending stays so, whatever the scheduler and the workers do. */
  lemma {:induction false} StaleStays(scannable: DeviceConfig -> bool, states: seq<State>, steps: seq<Step>, i: nat, j: nat, d: Id)
    requires IsRun(scannable, states, steps) && i <= j < |states|
    requires Stale(states[i], d) && !Pending(states[i], d)
    requires forall k :: i <= k < j ==> !steps[k].Store? && !steps[k].LeaveLoop?
    ensures Stale(states[j], d) && !Pending(states[j], d)
    decreases j
  {
    if i < j {
      assert |states| == |steps| + 1;
      hide Stale, Pending, Next, Orderly, IsRun;
      StaleStays(scannable, states, steps, i, j - 1, d);
      RunsAreOrderly(scannable, states, steps, j - 1);
      RunStep(scannable, states, steps, j - 1);
      StepKeepsStale(scannable, states[j - 1], steps[j - 1], states[j], d);
    }
  }

  lemma StepKeepsStale(scannable: DeviceConfig -> bool, s: State, step: Step, r: State, d: Id)
    requires Orderly(s) && Stale(s, d) && !Pending(s, d) && Next(scannable, s, step, r) && !step.Store? && !step.LeaveLoop?
    ensures Stale(r, d) && !Pending(r, d)
  {
    hide LiveAccounted, StopsAll, Safe, ConfigOf, Desired;
    match step
    case Receive =>
      assert s.queue[0] in s.queue;
      assert forall e :: e in r.queue ==> e in s.queue;
    case Act => ActKeepsStale(s, r, d);
    case Reinit(_, _) => assert false;
    case CancelContext =>
    case _ => WorkKeepsStale(scannable, s, step, r, d);
  }

  lemma ActKeepsStale(s: State, r: State, d: Id)
    requires WorkersKnown(s) && WaitsForOne(s) && Stale(s, d) && !Pending(s, d) && s.todo != [] && Acts(s, r)
    ensures Stale(r, d) && !Pending(r, d)
  {
    hide ConfigOf, Desired;
    var head, rest := s.todo[0], s.todo[1..];
    assert forall a :: a in s.todo <==> a == head || a in rest;
    if head.Stop? && head.device in s.workers {
      assert forall a :: a in r.todo <==> a == Await(s.workers[head.device]) || a in rest;
    } else if head.StartRead? && r.todo != rest {
      assert forall a :: a in r.todo <==> a == StartCommit(head.device) || a in rest;
    }
  }

  lemma WorkKeepsStale(scannable: DeviceConfig -> bool, s: State, step: Step, r: State, d: Id)
    requires Stale(s, d) && !Pending(s, d) && Works(scannable, s, step, r)
    ensures Stale(r, d) && !Pending(r, d)
  {
  }

  // ---- the scheduler's wait always can end -----------------------------------------------------------------

  ghost predicate Path(scannable: DeviceConfig -> bool, states: seq<State>, steps: seq<Step>) {
    && |states| == |steps| + 1
    && forall i :: 0 <= i < |steps| ==> Next(scannable, states[i], steps[i], states[i + 1])
  }

  function StepsLeft(phase: Phase): nat {
    match phase
    case Fresh => 4
    case Loaded(_) => 3
    case Open(_) => 2
    case Closing(_) => 1
    case Retrying => 1
    case Exited(_) => 0
  }

  /** A cancelled goroutine that is alive has a step that brings it nearer its end. */
  lemma NextStep(scannable: DeviceConfig -> bool, s: State, g: nat) returns (step: Step, r: State)
    requires g < |s.goroutines| && s.goroutines[g].cancelled && Live(s.goroutines[g])
    ensures Works(scannable, s, step, r) && Next(scannable, s, step, r)
    ensures |r.goroutines| == |s.goroutines| && r.goroutines[g].cancelled && r.todo == s.todo
    ensures StepsLeft(r.goroutines[g].phase) < StepsLeft(s.goroutines[g].phase)
  {
    var d := s.goroutines[g].device;
    match s.goroutines[g].phase
    case Fresh =>
      step := WorkerLoads(g);
      r := Moved(s, g, if Desired(s.config, d) then Loaded(ConfigOf(s.config, d).value) else Exited(None));
    case Loaded(c) => step, r := WorkerBuilds(g, true), Moved(s, g, Open(c));
    case Retrying => step, r := WorkerGivesUp(g), Moved(s, g, Exited(None));
    case Open(c) => step, r := WorkerLoopEnds(g), Moved(s, g, Closing(c));
    case Closing(c) => step, r := WorkerCloses(g), Moved(s, g, Exited(Some(c)));
  }

  /** Whatever the awaited worker is doing, at most four of its own steps close its driver and let the scheduler go on. */
  lemma {:induction false} WaitCanEnd(scannable: DeviceConfig -> bool, s: State, g: nat) returns (states: seq<State>, steps: seq<Step>)
    requires g < |s.goroutines| && s.goroutines[g].cancelled && s.todo != [] && s.todo[0] == Await(g)
    ensures Path(scannable, states, steps) && states[0] == s && |steps| <= StepsLeft(s.goroutines[g].phase) <= 4
    ensures var last := states[|states| - 1];
      Next(scannable, last, Act, last.(todo := s.todo[1..]))
    decreases StepsLeft(s.goroutines[g].phase)
  {
    hide Works;
    if !Live(s.goroutines[g]) {
      return [s], [];
    }
    var step, r := NextStep(scannable, s, g);
    var laterStates, laterSteps := WaitCanEnd(scannable, r, g);
    states, steps := [s] + laterStates, [step] + laterSteps;
    forall i | 0 <= i < |steps| ensures Next(scannable, states[i], steps[i], states[i + 1]) {
      if i > 0 {
        assert Next(scannable, laterStates[i - 1], laterSteps[i - 1], laterStates[i - 1 + 1]);
      }
    }
  }

  /** In every reachable state the goroutine that the scheduler waits for has been cancelled, so the wait can end. */
  lemma AwaitedIsCancelled(scannable: DeviceConfig -> bool, states: seq<State>, steps: seq<Step>, i: nat)
    requires IsRun(scannable, states, steps) && i < |states|
    requires states[i].todo != [] && states[i].todo[0].Await?
    ensures var g := states[i].todo[0].goroutine; g < |states[i].goroutines| && states[i].goroutines[g].cancelled
  {
    RunsAreOrderly(scannable, states, steps, i);
  }
}
