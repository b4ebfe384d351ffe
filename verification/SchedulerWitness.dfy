/** Runs of the scheduler that end with a worker on an outdated configuration. */
module SchedulerWitness {
  import opened Common
  import opened DeviceIndex
  import opened Snapshots
  import opened SnapshotStore
  import opened SchedulerModel
  import opened SchedulerConvergence
  import opened SchedulerLimits

  ghost predicate Reaches(scannable: DeviceConfig -> bool, s: State) {
    exists states: seq<State>, steps: seq<Step> :: IsRun(scannable, states, steps) && states[|steps|] == s
  }

  lemma StepReaches(scannable: DeviceConfig -> bool, s: State, step: Step, r: State)
    requires Reaches(scannable, s) && Next(scannable, s, step, r)
    ensures Reaches(scannable, r)
  {
    hide Next;
    var states, steps :| IsRun(scannable, states, steps) && states[|steps|] == s;
    var longer, all := states + [r], steps + [step];
    forall i | 0 <= i < |all|
      ensures Next(scannable, longer[i], all[i], longer[i + 1])
    {
      if i < |steps| {
        assert Next(scannable, states[i], steps[i], states[i + 1]);
      }
    }
    assert IsRun(scannable, longer, all) && longer[|all|] == r;
  }

  // ---- a driver is opened ------------------------------------------------------------------------------------

  function Begun(c: Config): State {
    State(Some(c), [], [Reinitialize], map[], [], false, false)
  }

  function Working(c: Config, d: Id, phase: Phase): State {
    State(Some(c), [], [], map[d := 0], [Goroutine(d, phase, false)], false, false)
  }

  lemma BegunIsReached(scannable: DeviceConfig -> bool, c: Config)
    ensures Reaches(scannable, Begun(c))
  {
    var states, steps: seq<Step> := [Begun(c)], [];
    assert IsRun(scannable, states, steps) && states[|steps|] == Begun(c);
  }

  /** The scheduler starts a worker for the one wanted device. */
  lemma WorkerIsStarted(scannable: DeviceConfig -> bool, c: Config, d: Id)
    requires d != "" && forall e :: Desired(Some(c), e) <==> e == d
    ensures Reaches(scannable, Working(c, d, Fresh))
  {
    var s := Begun(c);
    BegunIsReached(scannable, c);
    var running: seq<Id> := [];
    assert Stops(running) + Starts([d]) + s.todo[1..] == [StartRead(d)];
    var s1, s2 := s.(todo := [StartRead(d)]), s.(todo := [StartCommit(d)]);
    hide Desired, Reaches;
    StepReaches(scannable, s, Reinit(running, [d]), s1);
    assert [StartCommit(d)] + s1.todo[1..] == [StartCommit(d)];
    StepReaches(scannable, s1, Act, s2);
    StepReaches(scannable, s2, Act, Working(c, d, Fresh));
  }

  /** The worker reads its configuration and opens its driver. */
  lemma DriverIsOpened(scannable: DeviceConfig -> bool, c: Config, d: Id)
    requires d != "" && forall e :: Desired(Some(c), e) <==> e == d
    ensures Desired(Some(c), d) && Reaches(scannable, Working(c, d, Open(ConfigOf(Some(c), d).value)))
  {
    assert Desired(Some(c), d);
    WorkerIsStarted(scannable, c, d);
    var cfg := ConfigOf(Some(c), d).value;
    hide Reaches;
    StepReaches(scannable, Working(c, d, Fresh), WorkerLoads(0), Working(c, d, Loaded(cfg)));
    StepReaches(scannable, Working(c, d, Loaded(cfg)), WorkerBuilds(0, true), Working(c, d, Open(cfg)));
  }

  // ---- one plant -----------------------------------------------------------------------------------------------

  function Named(id: Id, name: string): Device {
    Device(id, None, "modbus", "Modbus", name, [], 0)
  }

  function Sensor(id: Id, deviceID: Id): Tag {
    Tag(id, deviceID, "level", "float32", None, [], [], [], 0)
  }

  /** A pump with two tags and a spare device without any. */
  function Plant(): Config {
    Config(map["pump" := Some(Named("pump", "Pump")), "spare" := Some(Named("spare", "Spare"))],
           map["flow" := Sensor("flow", "pump"), "level" := Sensor("level", "pump")], 0)
  }

  lemma OnlyThePump(d: Id)
    ensures Desired(Some(Plant()), d) <==> d == "pump"
  {
    var c := Plant();
    if d == "pump" {
      assert "flow" in TagsOf(c, d);
    } else if d in c.devices {
      assert TagsOf(c, d) == map[];
    }
  }

  function Pumping(): State
    requires Desired(Some(Plant()), "pump")
  {
    Working(Plant(), "pump", Open(ConfigOf(Some(Plant()), "pump").value))
  }

  lemma PumpingIsReached(scannable: DeviceConfig -> bool)
    ensures Desired(Some(Plant()), "pump") && Reaches(scannable, Pumping())
    ensures Agrees(scannable, Pumping(), "pump") && !Pending(Pumping(), "pump")
  {
    forall d
      ensures Desired(Some(Plant()), d) <==> d == "pump"
    {
      OnlyThePump(d);
    }
    DriverIsOpened(scannable, Plant(), "pump");
    hide Reaches, Plant, ConfigOf;
  }

  /** Its level sensor is moved to the spare device: the event names the spare one only, and the pump's driver stays as it is. */
  lemma MoveIsReached(scannable: DeviceConfig -> bool) returns (s: State, r: State)
    ensures Reaches(scannable, s) && Agrees(scannable, s, "pump") && !Pending(s, "pump")
    ensures Moves(s.config, Change.UpsertTag(Sensor("level", "spare"))) && r == Stored(s, Change.UpsertTag(Sensor("level", "spare")))
    ensures Reaches(scannable, r) && Stale(r, "pump") && !Pending(r, "pump")
  {
    PumpingIsReached(scannable);
    s := Pumping();
    var change := Change.UpsertTag(Sensor("level", "spare"));
    assert Moves(s.config, change);
    r := Stored(s, change);
    hide Reaches, Agrees, Pending;
    MoveLeavesStale(scannable, s, Sensor("level", "spare"), "pump");
    StepReaches(scannable, s, Step.Store(change), r);
  }

  // ---- a full queue ----------------------------------------------------------------------------------------------

  function Spares(n: nat): seq<Event> {
    seq(n, _ => DeviceUpserted("spare"))
  }

  lemma SpareChangesNothing()
    ensures Changed(Some(Plant()), Change.UpsertDevice(Named("spare", "Spare"))) == Some(Plant())
  {
    assert Plant().devices["spare" := Some(Named("spare", "Spare"))] == Plant().devices;
  }

  /** The spare device stored again and again while the scheduler is busy. */
  lemma {:induction false} FloodIsReached(scannable: DeviceConfig -> bool, n: nat)
    requires n <= SUBSCRIPTION_BUFFER_SIZE && Desired(Some(Plant()), "pump") && Reaches(scannable, Pumping())
    ensures Reaches(scannable, Pumping().(queue := Spares(n)))
  {
    if n == 0 {
      assert Spares(0) == [];
      assert Pumping().(queue := Spares(0)) == Pumping();
    } else {
      FloodIsReached(scannable, n - 1);
      SpareChangesNothing();
      hide Reaches, Plant;
      var s := Pumping().(queue := Spares(n - 1));
      assert Spares(n) == Spares(n - 1) + [DeviceUpserted("spare")];
      StepReaches(scannable, s, Step.Store(Change.UpsertDevice(Named("spare", "Spare"))), Pumping().(queue := Spares(n)));
    }
  }

  /** Then the pump itself is renamed: its event is dropped and its driver stays as it is. */
  lemma DropIsReached(scannable: DeviceConfig -> bool) returns (s: State, r: State)
    ensures Reaches(scannable, s) && Agrees(scannable, s, "pump") && !Pending(s, "pump")
    ensures Drops(s, Change.UpsertDevice(Named("pump", "Pump 2"))) && r == Stored(s, Change.UpsertDevice(Named("pump", "Pump 2")))
    ensures Reaches(scannable, r) && Stale(r, "pump") && !Pending(r, "pump")
  {
    PumpingIsReached(scannable);
    FloodIsReached(scannable, SUBSCRIPTION_BUFFER_SIZE);
    s := Pumping().(queue := Spares(SUBSCRIPTION_BUFFER_SIZE));
    var change := Change.UpsertDevice(Named("pump", "Pump 2"));
    r := Stored(s, change);
    assert Agrees(scannable, s, "pump") && !Pending(s, "pump");
    RenamedPump();
    hide Reaches, Agrees, Pending;
    DropLeavesStale(scannable, s, change, "pump");
    StepReaches(scannable, s, Step.Store(change), r);
  }

  lemma RenamedPump()
    ensures ConfigOf(Changed(Some(Plant()), Change.UpsertDevice(Named("pump", "Pump 2"))), "pump") != ConfigOf(Some(Plant()), "pump")
  {
    assert ConfigOf(Some(Plant()), "pump").value.device.value.name == "Pump";
  }
}
