/** The scheduler, its worker goroutines and the store they read, as a system of atomic steps. */
module SchedulerModel {
  import opened Common
  import opened Uuids
  import opened DeviceIndex
  import opened Snapshots
  import opened SnapshotStore

  // ---- what a device's worker is configured with -----------------------------------------------------------

  /** The tags as a map: their order in the snapshot's list is not stable. */
  datatype DeviceConfig = DeviceConfig(device: Option<Device>, tags: map<Id, Tag>)

  function TagsOf(c: Config, d: Id): map<Id, Tag> {
    map t | t in c.tags && c.tags[t].deviceID == d :: c.tags[t]
  }

  function ConfigOf(c: Option<Config>, d: Id): Option<DeviceConfig> {
    if c.None? || d !in c.value.devices then None else Some(DeviceConfig(c.value.devices[d], TagsOf(c.value, d)))
  }

  /** A worker is wanted for the device: it is known and has tags. */
  predicate Desired(c: Option<Config>, d: Id) {
    ConfigOf(c, d).Some? && ConfigOf(c, d).value.tags != map[]
  }

  // ---- state ----------------------------------------------------------------------------------------------

  /** Where a worker goroutine is: about to read the store, holding a configuration, waiting to retry, driver open, driver about to
    * close, or gone. */
  datatype Phase =
    | Fresh
    | Loaded(config: DeviceConfig)
    | Retrying
    | Open(config: DeviceConfig)
    | Closing(config: DeviceConfig)
    | Exited(last: Option<DeviceConfig>)

  datatype Goroutine = Goroutine(device: Id, phase: Phase, cancelled: bool)

  /** What the scheduler goroutine still has to do for the event in hand. `Await` is the wait for a stopped worker's done channel;
    * starting a device reads the store first and registers the worker afterwards. */
  datatype Action = Stop(device: Id) | Await(goroutine: nat) | StartRead(device: Id) | StartCommit(device: Id) | Reinitialize

  datatype State = State(
    config: Option<Config>, queue: seq<Event>, todo: seq<Action>, workers: map<Id, nat>, goroutines: seq<Goroutine>,
    cancelled: bool, returning: bool)

  predicate Live(g: Goroutine) {
    !g.phase.Exited?
  }

  predicate DriverOpen(g: Goroutine) {
    g.phase.Open? || g.phase.Closing?
  }

  // ---- steps ----------------------------------------------------------------------------------------------

  datatype Step =
    | Store(change: Change)
    | Receive
    | Act
    | Reinit(running: seq<Id>, desired: seq<Id>)
    | WorkerLoads(g: nat)
    | WorkerBuilds(g: nat, ok: bool)
    | WorkerRetries(g: nat)
    | WorkerGivesUp(g: nat)
    | WorkerLoopEnds(g: nat)
    | WorkerCloses(g: nat)
    | CancelContext
    | LeaveLoop(running: seq<Id>)

  function Stored(s: State, change: Change): State {
    s.(config := Changed(s.config, change), queue := Heard(s.queue, Announced(s.config, change)))
  }

  function Restart(d: Id): seq<Action> {
    if d == "" then [] else [Stop(d), StartRead(d)]
  }

  function Handle(event: Event): seq<Action> {
    match event
    case Replaced => [Reinitialize]
    case DeviceUpserted(d) => Restart(d)
    case DeviceRemoved(d) => if d == "" then [] else [Stop(d)]
    case TagUpserted(d, _) => if d == "" then [Reinitialize] else Restart(d)
    case TagRemoved(d, _) => if d == "" then [Reinitialize] else Restart(d)
  }

  function Stops(ds: seq<Id>): seq<Action> {
    if ds == [] then [] else [Stop(ds[0])] + Stops(ds[1..])
  }

  function Starts(ds: seq<Id>): seq<Action> {
    if ds == [] then [] else (if ds[0] == "" then [] else [StartRead(ds[0])]) + Starts(ds[1..])
  }

  /** The head of `todo`, other than a reinitialisation. Waiting for a goroutine is possible once it is gone. */
  ghost predicate Acts(s: State, r: State)
    requires s.todo != []
  {
    var rest := s.todo[1..];
    match s.todo[0]
    case Stop(d) =>
      if d !in s.workers || s.workers[d] >= |s.goroutines| then r == s.(todo := rest)
      else
        var g := s.workers[d];
        r == s.(workers := s.workers - {d}, goroutines := s.goroutines[g := s.goroutines[g].(cancelled := true)], todo := [Await(g)] + rest)
    case Await(g) => g < |s.goroutines| && !Live(s.goroutines[g]) && r == s.(todo := rest)
    case StartRead(d) => r == s.(todo := if Desired(s.config, d) then [StartCommit(d)] + rest else rest)
    case StartCommit(d) =>
      r == s.(workers := s.workers[d := |s.goroutines|], goroutines := s.goroutines + [Goroutine(d, Fresh, false)], todo := rest)
    case Reinitialize => false
  }

  function Moved(s: State, g: nat, phase: Phase): State
    requires g < |s.goroutines|
  {
    s.(goroutines := s.goroutines[g := s.goroutines[g].(phase := phase)])
  }

  predicate Cancelled(s: State, g: nat)
    requires g < |s.goroutines|
  {
    s.cancelled || s.goroutines[g].cancelled
  }

  /** One step of one goroutine. A cancelled worker may still load and open a driver; it is the loop or the retry wait that notices. */
  ghost predicate Works(scannable: DeviceConfig -> bool, s: State, step: Step, r: State) {
    match step
    case WorkerLoads(g) =>
      && g < |s.goroutines| && s.goroutines[g].phase.Fresh?
      && var d := s.goroutines[g].device;
         r == Moved(s, g, if Desired(s.config, d) then Loaded(ConfigOf(s.config, d).value) else Exited(None))
    case WorkerBuilds(g, ok) =>
      && g < |s.goroutines| && s.goroutines[g].phase.Loaded?
      && r == Moved(s, g, if ok then Open(s.goroutines[g].phase.config) else Retrying)
    case WorkerRetries(g) => g < |s.goroutines| && s.goroutines[g].phase.Retrying? && r == Moved(s, g, Fresh)
    case WorkerGivesUp(g) =>
      g < |s.goroutines| && s.goroutines[g].phase.Retrying? && Cancelled(s, g) && r == Moved(s, g, Exited(None))
    case WorkerLoopEnds(g) =>
      && g < |s.goroutines| && s.goroutines[g].phase.Open?
      && (Cancelled(s, g) || !scannable(s.goroutines[g].phase.config))
      && r == Moved(s, g, Closing(s.goroutines[g].phase.config))
    case WorkerCloses(g) =>
      && g < |s.goroutines| && s.goroutines[g].phase.Closing?
      && r == Moved(s, g, Exited(Some(s.goroutines[g].phase.config)))
    case _ => false
  }

  ghost predicate Next(scannable: DeviceConfig -> bool, s: State, step: Step, r: State) {
    match step
    case Store(change) => r == Stored(s, change)
    case Receive => s.todo == [] && !s.returning && s.queue != [] && r == s.(todo := Handle(s.queue[0]), queue := s.queue[1..])
    case Act => s.todo != [] && Acts(s, r)
    case Reinit(running, desired) =>
      && s.todo != [] && s.todo[0] == Reinitialize
      && NoDuplicates(running) && ToSet(running) == s.workers.Keys
      && NoDuplicates(desired) && (forall d :: d in desired <==> Desired(s.config, d))
      && r == s.(todo := Stops(running) + Starts(desired) + s.todo[1..])
    case CancelContext => r == s.(cancelled := true)
    case LeaveLoop(running) =>
      && s.todo == [] && !s.returning && s.cancelled
      && NoDuplicates(running) && ToSet(running) == s.workers.Keys
      && r == s.(todo := Stops(running), returning := true)
    case _ => Works(scannable, s, step, r)
  }

  /** `Run` subscribes and reinitialises; whatever the store holds then. */
  ghost predicate Starting(s: State) {
    s.queue == [] && s.todo == [Reinitialize] && s.workers == map[] && s.goroutines == [] && !s.cancelled && !s.returning
  }

  ghost predicate IsRun(scannable: DeviceConfig -> bool, states: seq<State>, steps: seq<Step>) {
    && |states| == |steps| + 1
    && Starting(states[0])
    && forall i :: 0 <= i < |steps| ==> Next(scannable, states[i], steps[i], states[i + 1])
  }

  lemma RunStep(scannable: DeviceConfig -> bool, states: seq<State>, steps: seq<Step>, i: nat)
    requires IsRun(scannable, states, steps) && i < |steps|
    ensures |states| == |steps| + 1 && Next(scannable, states[i], steps[i], states[i + 1])
  {
  }
}
