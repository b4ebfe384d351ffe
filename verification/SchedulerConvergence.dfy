/** The scheduler's workers follow the store: what holds of each device once nothing concerning it is pending. */
module SchedulerConvergence {
  import opened Common
  import opened Uuids
  import opened DeviceIndex
  import opened Snapshots
  import opened SnapshotStore
  import opened SchedulerModel
  import opened SchedulerSafety

  /** Handling the event restarts or stops the device. */
  predicate Concerns(event: Event, d: Id) {
    match event
    case Replaced => true
    case DeviceUpserted(x) => x == d
    case DeviceRemoved(x) => x == d
    case TagUpserted(x, _) => x == d || x == ""
    case TagRemoved(x, _) => x == d || x == ""
  }

  function LastFor(queue: seq<Event>, d: Id): Option<Event> {
    if queue == [] then None
    else if Concerns(queue[|queue| - 1], d) then Some(queue[|queue| - 1])
    else LastFor(queue[..|queue| - 1], d)
  }

  lemma {:induction false} LastForTail(queue: seq<Event>, d: Id)
    requires queue != []
    ensures LastFor(queue, d) ==
      if LastFor(queue[1..], d).Some? then LastFor(queue[1..], d)
      else if Concerns(queue[0], d) then Some(queue[0]) else None
  {
    if |queue| > 1 && !Concerns(queue[|queue| - 1], d) {
      var front := queue[..|queue| - 1];
      LastForTail(front, d);
      assert front[1..] == queue[1..][..|queue[1..]| - 1];
    }
  }

  lemma {:induction false} LastForNone(queue: seq<Event>, d: Id)
    ensures LastFor(queue, d).None? <==> forall e :: e in queue ==> !Concerns(e, d)
  {
    if queue != [] {
      var front, last := queue[..|queue| - 1], queue[|queue| - 1];
      LastForNone(front, d);
      assert queue == front + [last];
    }
  }

  // ---- agreement ------------------------------------------------------------------------------------------

  /** The goroutine works, or will work, with this configuration; it is gone only if there is nothing to scan. */
  ghost predicate Follows(scannable: DeviceConfig -> bool, g: Goroutine, cfg: DeviceConfig) {
    && !g.cancelled
    && match g.phase
       case Fresh => true
       case Retrying => true
       case Loaded(c) => c == cfg
       case Open(c) => c == cfg
       case Closing(c) => c == cfg && !scannable(cfg)
       case Exited(last) => last == Some(cfg) && !scannable(cfg)
  }

  /** The device has a worker exactly when it should, and that worker follows the store. */
  ghost predicate Agrees(scannable: DeviceConfig -> bool, s: State, d: Id) {
    && (d in s.workers <==> Desired(s.config, d))
    && (d in s.workers ==>
          s.workers[d] < |s.goroutines| && Follows(scannable, s.goroutines[s.workers[d]], ConfigOf(s.config, d).value))
  }

  ghost predicate Settled(scannable: DeviceConfig -> bool, s: State, d: Id) {
    if Reinitialize in s.todo || StartRead(d) in s.todo then true
    else if StartCommit(d) in s.todo then Desired(s.config, d)
    else if Stop(d) in s.todo then !Desired(s.config, d)
    else Agrees(scannable, s, d)
  }

  /** What is true of a device at any moment, judged by the last queued event that concerns it. */
  ghost predicate Convergent(scannable: DeviceConfig -> bool, s: State, d: Id) {
    match LastFor(s.queue, d)
    case None => Settled(scannable, s, d)
    case Some(event) => event.DeviceRemoved? ==> !Desired(s.config, d)
  }

  /** The event of a tag upsert names the tag's new device only. */
  predicate Moves(c: Option<Config>, change: Change) {
    && change.UpsertTag? && change.tag.id != "" && change.tag.deviceID != ""
    && c.Some? && change.tag.id in c.value.tags
    && c.value.tags[change.tag.id].deviceID !in {change.tag.deviceID, ""}
  }

  predicate Drops(s: State, change: Change) {
    Announced(s.config, change).Some? && |s.queue| >= SUBSCRIPTION_BUFFER_SIZE
  }

  predicate Faithful(s: State, step: Step) {
    step.Store? ==> !Moves(s.config, step.change) && !Drops(s, step.change)
  }

  // ---- store changes ----------------------------------------------------------------------------------------

  /** A change that is not announced for a device leaves its configuration as it was; a removal leaves it unwanted. */
  lemma ChangeConcerns(c: Option<Config>, change: Change, d: Id)
    requires d != "" && !Moves(c, change)
    ensures var e := Announced(c, change);
      && ((e.None? || !Concerns(e.value, d)) ==> ConfigOf(Changed(c, change), d) == ConfigOf(c, d))
      && (e.Some? && e.value.DeviceRemoved? && Concerns(e.value, d) ==> !Desired(Changed(c, change), d))
  {
    match change
    case Replace(_) =>
    case UpsertDevice(device) =>
      if device.id != "" && c.Some? {
        assert TagsOf(Changed(c, change).value, d) == TagsOf(c.value, d);
      }
    case RemoveDevice(id) =>
      if id != "" && c.Some? && id != d {
        assert TagsOf(Changed(c, change).value, d) == TagsOf(c.value, d);
      }
    case UpsertTag(tag) =>
      if tag.id != "" && tag.deviceID != "" && c.Some? && tag.deviceID != d {
        assert TagsOf(Changed(c, change).value, d) == TagsOf(c.value, d);
      }
    case RemoveTag(id) =>
      if id != "" && c.Some? && !(id in c.value.tags && c.value.tags[id].deviceID == d) {
        assert TagsOf(Changed(c, change).value, d) == TagsOf(c.value, d);
      }
  }

  lemma StoreConverges(scannable: DeviceConfig -> bool, s: State, change: Change, r: State, d: Id)
    requires d != "" && Convergent(scannable, s, d) && r == Stored(s, change)
    requires !Moves(s.config, change) && !Drops(s, change)
    ensures Convergent(scannable, r, d)
  {
    ChangeConcerns(s.config, change, d);
    hide Changed, Announced, ConfigOf, Moves, Follows, Desired;
    DesiredFollows(s.config, r.config, d);
    var e := Announced(s.config, change);
    if e.Some? {
      assert r.queue == s.queue + [e.value];
      assert r.queue[..|r.queue| - 1] == s.queue;
    }
  }

  lemma DesiredFollows(a: Option<Config>, b: Option<Config>, d: Id)
    ensures ConfigOf(a, d) == ConfigOf(b, d) ==> Desired(a, d) == Desired(b, d)
    ensures Desired(a, d) ==> ConfigOf(a, d).Some?
  {
  }

  // ---- the scheduler ---------------------------------------------------------------------------------------

  lemma ReceiveConverges(scannable: DeviceConfig -> bool, s: State, r: State, d: Id)
    requires d != "" && Convergent(scannable, s, d) && s.todo == [] && s.queue != []
    requires r == s.(todo := Handle(s.queue[0]), queue := s.queue[1..])
    ensures Convergent(scannable, r, d)
  {
    hide Desired, ConfigOf, Follows;
    LastForTail(s.queue, d);
  }

  lemma ReinitConverges(scannable: DeviceConfig -> bool, s: State, running: seq<Id>, desired: seq<Id>, r: State, d: Id)
    requires d != "" && Convergent(scannable, s, d)
    requires ToSet(running) == s.workers.Keys && (forall x :: x in desired <==> Desired(s.config, x))
    requires s.todo != [] && s.todo[1..] == [] && r == s.(todo := Stops(running) + Starts(desired) + s.todo[1..])
    ensures Convergent(scannable, r, d)
  {
    StopsAre(running);
    StartsAre(desired);
    assert forall a :: a in r.todo <==> a in Stops(running) || a in Starts(desired);
    hide Desired, ConfigOf, Follows, Stops, Starts, ToSet;
    assert d in s.workers <==> d in ToSet(running);
    ToSetHas(running, d);
  }

  lemma ToSetHas<T>(xs: seq<T>, x: T)
    ensures x in ToSet(xs) <==> x in xs
  {
  }

  lemma {:induction false} StartsAre(ds: seq<Id>)
    ensures forall a :: a in Starts(ds) <==> a.StartRead? && a.device != "" && a.device in ds
  {
    if ds != [] {
      StartsAre(ds[1..]);
      assert forall d :: d in ds <==> d == ds[0] || d in ds[1..];
    }
  }

  lemma ActConverges(scannable: DeviceConfig -> bool, s: State, r: State, d: Id)
    requires d != "" && Orderly(s) && Convergent(scannable, s, d) && s.todo != [] && Acts(s, r)
    ensures Convergent(scannable, r, d)
  {
    hide Convergent, LiveAccounted, StopsAll, Safe;
    match s.todo[0]
    case Stop(x) => StopConverges(scannable, s, r, d);
    case Await(_) => AwaitConverges(scannable, s, r, d);
    case StartRead(_) =>
      StartIsUnregistered(s);
      StartReadConverges(scannable, s, r, d);
    case StartCommit(_) =>
      StartsLast(s);
      CommitConverges(scannable, s, r, d);
    case Reinitialize =>
  }

  lemma StopConverges(scannable: DeviceConfig -> bool, s: State, r: State, d: Id)
    requires Convergent(scannable, s, d) && WorkersKnown(s) && s.todo != [] && s.todo[0].Stop? && Acts(s, r)
    ensures Convergent(scannable, r, d)
  {
  }

  lemma AwaitConverges(scannable: DeviceConfig -> bool, s: State, r: State, d: Id)
    requires Convergent(scannable, s, d) && s.todo != [] && s.todo[0].Await? && Acts(s, r)
    ensures Convergent(scannable, r, d)
  {
  }

  lemma StartReadConverges(scannable: DeviceConfig -> bool, s: State, r: State, d: Id)
    requires Convergent(scannable, s, d) && WaitsForOne(s) && s.todo != [] && s.todo[0].StartRead? && Acts(s, r)
    requires s.todo[0].device !in s.workers
    ensures Convergent(scannable, r, d)
  {
  }

  lemma CommitConverges(scannable: DeviceConfig -> bool, s: State, r: State, d: Id)
    requires Convergent(scannable, s, d) && s.todo != [] && s.todo[0].StartCommit? && NoStops(s.todo[1..]) && Acts(s, r)
    ensures Convergent(scannable, r, d)
  {
  }

  lemma StartIsUnregistered(s: State)
    requires Safe(s.todo, s.workers.Keys) && s.todo != [] && s.todo[0].StartRead?
    ensures s.todo[0].device !in s.workers
  {
  }

  lemma StartsLast(s: State)
    requires Safe(s.todo, s.workers.Keys) && s.todo != [] && s.todo[0].StartCommit?
    ensures NoStops(s.todo[1..])
  {
  }

  // ---- the workers -----------------------------------------------------------------------------------------

  lemma WorksConverges(scannable: DeviceConfig -> bool, s: State, step: Step, r: State, d: Id)
    requires WorkersKnown(s) && !s.cancelled && Convergent(scannable, s, d) && Works(scannable, s, step, r)
    ensures Convergent(scannable, r, d)
  {
    if LastFor(s.queue, d).None? && Agrees(scannable, s, d) {
      WorksAgrees(scannable, s, step, r, d);
    }
    hide Works, Agrees, Desired;
    var g, phase := WorksMoves(scannable, s, step, r);
  }

  /** A goroutine's step keeps agreement: what it reads is what the store holds, and it ends only when there is nothing to scan. */
  lemma WorksAgrees(scannable: DeviceConfig -> bool, s: State, step: Step, r: State, d: Id)
    requires WorkersKnown(s) && !s.cancelled && Agrees(scannable, s, d) && Works(scannable, s, step, r)
    ensures Agrees(scannable, r, d)
  {
    if d in s.workers {
      DesiredFollows(s.config, s.config, d);
      hide ConfigOf, Desired;
      var g := s.workers[d];
      assert s.goroutines[g].device == d;
    }
  }

  // ---- whole runs ------------------------------------------------------------------------------------------

  lemma NextConverges(scannable: DeviceConfig -> bool, s: State, step: Step, r: State, d: Id)
    requires d != "" && Orderly(s) && Convergent(scannable, s, d) && Next(scannable, s, step, r) && Faithful(s, step) && !r.cancelled
    ensures Convergent(scannable, r, d)
  {
    CancelledStays(scannable, s, step, r);
    match step
    case Store(change) => StoreConverges(scannable, s, change, r, d);
    case Receive => ReceiveConverges(scannable, s, r, d);
    case Act => ActConverges(scannable, s, r, d);
    case Reinit(running, desired) =>
      assert s.todo[1..] == [];
      ReinitConverges(scannable, s, running, desired, r, d);
    case CancelContext =>
    case LeaveLoop(_) =>
    case _ => WorksConverges(scannable, s, step, r, d);
  }

  lemma {:induction false} RunsConverge(scannable: DeviceConfig -> bool, states: seq<State>, steps: seq<Step>, i: nat, d: Id)
    requires IsRun(scannable, states, steps) && i < |states| && d != ""
    requires forall k :: 0 <= k < i ==> Faithful(states[k], steps[k])
    requires !states[i].cancelled
    ensures Convergent(scannable, states[i], d)
  {
    hide Convergent, Next, Faithful, Orderly;
    if i == 0 {
      StartConverges(scannable, states[0], d);
    } else {
      assert Next(scannable, states[i - 1], steps[i - 1], states[i - 1 + 1]);
      CancelledStays(scannable, states[i - 1], steps[i - 1], states[i]);
      RunsConverge(scannable, states, steps, i - 1, d);
      RunsAreOrderly(scannable, states, steps, i - 1);
      NextConverges(scannable, states[i - 1], steps[i - 1], states[i], d);
    }
  }

  lemma StartConverges(scannable: DeviceConfig -> bool, s: State, d: Id)
    requires Starting(s)
    ensures Convergent(scannable, s, d)
  {
  }

  lemma CancelledStays(scannable: DeviceConfig -> bool, s: State, step: Step, r: State)
    requires Next(scannable, s, step, r)
    ensures s.cancelled ==> r.cancelled
  {
  }

  /** Something queued, or something the scheduler is in the middle of, concerns the device. */
  ghost predicate Pending(s: State, d: Id) {
    || (exists e :: e in s.queue && Concerns(e, d))
    || Reinitialize in s.todo || Stop(d) in s.todo || StartRead(d) in s.todo || StartCommit(d) in s.todo
  }

  /** Convergence: in any interleaving without a dropped event or a moved tag, a device with nothing pending has a worker exactly
    * when it is known and has tags, and that worker follows its current configuration. */
  lemma Convergence(scannable: DeviceConfig -> bool, states: seq<State>, steps: seq<Step>, i: nat, d: Id)
    requires IsRun(scannable, states, steps) && i < |states| && d != ""
    requires forall k :: 0 <= k < i ==> Faithful(states[k], steps[k])
    requires !states[i].cancelled && !Pending(states[i], d)
    ensures Agrees(scannable, states[i], d)
  {
    RunsConverge(scannable, states, steps, i, d);
    LastForNone(states[i].queue, d);
  }

  /** Full agreement whenever the queue is empty and the scheduler is back at its select. */
  lemma DrainedAgrees(scannable: DeviceConfig -> bool, states: seq<State>, steps: seq<Step>, i: nat)
    requires IsRun(scannable, states, steps) && i < |states|
    requires forall k :: 0 <= k < i ==> Faithful(states[k], steps[k])
    requires !states[i].cancelled && states[i].queue == [] && states[i].todo == []
    ensures forall d :: d != "" ==> Agrees(scannable, states[i], d)
  {
    forall d | d != "" ensures Agrees(scannable, states[i], d) {
      Convergence(scannable, states, steps, i, d);
    }
  }
}
