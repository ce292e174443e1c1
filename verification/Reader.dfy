/** A reader thread (`gateway/src/main.rs`): it obeys the scheduler's commands, moves readings from its sensor's ring
    into the buffer, and on shutdown stops the sensor and drains what is left.

    Instants, arrivals in the ring, the results of pushes and the buffer's statistics are inputs. A sensor is its unread readings and whether its
    writer runs: `stop` joins the writer, so nothing arrives afterwards.
 */
module Reader {
  import opened Common
  import opened Scheduler
  import opened Governor

  const DRAIN_TIMEOUT_NS: nat := 2_000_000_000

  datatype Control = Control(
    mode: ControlMode, ov: Override, draining: bool, deadlineNs: Option<nat>, sensorStopped: bool, stopFlag: bool)

  const STARTED := Control(Automatic, NoOverride, false, None, false, false)

  /** `places` is what the ring can hold; when it is full, an arrival replaces the oldest reading. */
  datatype Sensor = Sensor(places: nat, running: bool, available: nat, stops: nat)

  datatype Command = Command(mode: ControlMode, atNs: nat)

  /** The environment of one pass of the reader's loop: the commands waiting, whether another thread has raised the stop
      flag by then, how many readings arrive before each read, whether the k-th push succeeds, what the buffer reports
      afterwards, and the instants. */
  datatype Turn = Turn(
    commands: seq<Command>, stopRaised: bool, checkNs: nat, arrivals: seq<nat>, pushOk: nat -> bool, failNs: nat,
    stats: BufferStats, observedNs: nat, endNs: nat)

  datatype ReaderState = ReaderState(control: Control, sensor: Sensor, totalReads: nat)

  function NominalClamp(cfg: Governor.Config): Override {
    ClampMaxSleep(Max(cfg.nominalSleepUs, cfg.minSleepUs))
  }

  /** Entering the drain phase, by command, by the stop flag or by a refused push; the deadline is set once. */
  function Drained(c: Control, nowNs: nat): Control {
    Control(ShutdownDrain, Override.ForceFastRecovery, true,
            if c.deadlineNs.Some? then c.deadlineNs else Some(nowNs + DRAIN_TIMEOUT_NS), true, true)
  }

  function Obeyed(c: Control, cfg: Governor.Config, cmd: Command): Control {
    match cmd.mode
    case Automatic => c.(mode := cmd.mode, ov := NoOverride)
    case ClampToNominal => c.(mode := cmd.mode, ov := NominalClamp(cfg))
    case ForceFastRecovery => c.(mode := cmd.mode, ov := Override.ForceFastRecovery)
    case ShutdownDrain => Drained(c, cmd.atNs)
  }

  function ObeyedAll(c: Control, cfg: Governor.Config, cmds: seq<Command>): Control {
    if cmds == [] then c else Obeyed(ObeyedAll(c, cfg, cmds[..|cmds| - 1]), cfg, cmds[|cmds| - 1])
  }

  /** The check of the shared stop flag. */
  function Checked(c: Control, raised: bool, nowNs: nat): Control {
    if (c.stopFlag || raised) && !c.draining then Drained(c, nowNs) else c.(stopFlag := c.stopFlag || raised)
  }

  function Halted(s: Sensor): Sensor {
    s.(running := false, stops := s.stops + 1)
  }

  /** The sensor is stopped when its reader first records that it is. */
  function Following(s: Sensor, before: Control, after: Control): Sensor {
    if after.sensorStopped && !before.sensorStopped then Halted(s) else s
  }

  function Arrived(s: Sensor, arrivals: seq<nat>): Sensor {
    if s.running && arrivals != [] then s.(available := Min(s.available + arrivals[0], s.places)) else s
  }

  function Rest(arrivals: seq<nat>): seq<nat> {
    if arrivals == [] then [] else arrivals[1..]
  }

  datatype Pass = Pass(sensor: Sensor, moved: nat, refused: bool)

  /** Reading until the ring is empty or a push is refused; the reading of a refused push is lost. */
  function Emptied(s: Sensor, arrivals: seq<nat>, pushOk: nat -> bool, moved: nat): Pass
    decreases |arrivals|, s.available
  {
    var s1 := Arrived(s, arrivals);
    if s1.available == 0 then Pass(s1, moved, false)
    else
      var s2 := s1.(available := s1.available - 1);
      if !pushOk(moved) then Pass(s2, moved + 1, true) else Emptied(s2, Rest(arrivals), pushOk, moved + 1)
  }

  /** What a pass leaves, and whether it is the last one. */
  function Prepared(v: ReaderState, cfg: Governor.Config, turn: Turn): ReaderState {
    var c := Checked(ObeyedAll(v.control, cfg, turn.commands), turn.stopRaised, turn.checkNs);
    ReaderState(c, Following(v.sensor, v.control, c), v.totalReads)
  }

  function Moved(v: ReaderState, turn: Turn): ReaderState {
    var pass := Emptied(v.sensor, turn.arrivals, turn.pushOk, 0);
    var c := if pass.refused then Drained(v.control, turn.failNs) else v.control;
    ReaderState(c, Following(pass.sensor, v.control, c), v.totalReads + pass.moved)
  }

  function Turned(v: ReaderState, cfg: Governor.Config, turn: Turn): ReaderState {
    Moved(Prepared(v, cfg, turn), turn)
  }

  /** What the pass reports to the scheduler. */
  function Reported(id: string, v: ReaderState, turn: Turn): Status {
    Status(id, v.sensor.available, if turn.stats.capacity == 0 then 0.0 else FillRatio(turn.stats), turn.observedNs)
  }

  /** The reader leaves its loop after this pass. */
  predicate Leaves(v: ReaderState, endNs: nat) {
    v.control.draining
    && (v.sensor.available == 0 || (v.control.deadlineNs.Some? && endNs >= v.control.deadlineNs.value))
  }

  class SimulatedSensor {
    const places: nat
    var running: bool
    var available: nat
    var stops: nat

    function View(): Sensor
      reads this
    {
      Sensor(places, running, available, stops)
    }

    method Stop()
      modifies this`running, this`stops
      ensures View() == Halted(old(View()))
    {
      running, stops := false, stops + 1;
    }

    method Read() returns (got: bool)
      modifies this`available
      ensures got == (old(available) > 0)
      ensures available == if got then old(available) - 1 else old(available)
    {
      got := available > 0;
      if got {
        available := available - 1;
      }
    }

    /** What the sensor's writer does between two reads. */
    method Produce(arrivals: seq<nat>)
      modifies this`available
      ensures View() == Arrived(old(View()), arrivals)
    {
      if running && arrivals != [] {
        available := Min(available + arrivals[0], places);
      }
    }
  }

  class ReaderThread {
    const id: string
    const cfg: Governor.Config
    const sensor: SimulatedSensor
    const governor: AdaptivePollingGovernor
    var statuses: seq<Status>   // sent to the scheduler
    var controlMode: ControlMode
    var governorOverride: Override
    var draining: bool
    var drainDeadline: Option<nat>
    var sensorStopped: bool
    var stop: bool
    var totalReads: nat

    function ControlView(): Control
      reads this
    {
      Control(controlMode, governorOverride, draining, drainDeadline, sensorStopped, stop)
    }

    function State(): ReaderState
      reads this, sensor
    {
      ReaderState(ControlView(), sensor.View(), totalReads)
    }

    constructor (id: string, cfg: Governor.Config, sensor: SimulatedSensor)
      ensures this.id == id && this.cfg == cfg && this.sensor == sensor && fresh(governor)
      ensures ControlView() == STARTED && totalReads == 0 && statuses == [] && governor.View() == Initial(cfg)
    {
      this.id, this.cfg, this.sensor, statuses := id, cfg, sensor, [];
      governor := new AdaptivePollingGovernor(cfg);
      controlMode, governorOverride, draining, drainDeadline := Automatic, NoOverride, false, None;
      sensorStopped, stop, totalReads := false, false, 0;
    }

    method StartDraining(nowNs: nat)
      modifies this`controlMode, this`governorOverride, this`draining, this`drainDeadline, this`sensorStopped, this`stop,
               sensor`running, sensor`stops
      ensures ControlView() == Drained(old(ControlView()), nowNs) && totalReads == old(totalReads)
      ensures sensor.View() == Following(old(sensor.View()), old(ControlView()), ControlView())
    {
      stop, draining, controlMode, governorOverride := true, true, ShutdownDrain, Override.ForceFastRecovery;
      if !sensorStopped {
        sensor.Stop();
        sensorStopped := true;
      }
      if drainDeadline.None? {
        drainDeadline := Some(nowNs + DRAIN_TIMEOUT_NS);
      }
    }

    method Obey(cmd: Command)
      modifies this`controlMode, this`governorOverride, this`draining, this`drainDeadline, this`sensorStopped, this`stop,
               sensor`running, sensor`stops
      ensures ControlView() == Obeyed(old(ControlView()), cfg, cmd) && totalReads == old(totalReads)
      ensures sensor.View() == Following(old(sensor.View()), old(ControlView()), ControlView())
    {
      match cmd.mode {
        case Automatic =>
          controlMode, governorOverride := cmd.mode, NoOverride;
        case ClampToNominal =>
          controlMode, governorOverride := cmd.mode, ClampMaxSleep(Max(cfg.nominalSleepUs, cfg.minSleepUs));
        case ForceFastRecovery =>
          controlMode, governorOverride := cmd.mode, Override.ForceFastRecovery;
        case ShutdownDrain =>
          StartDraining(cmd.atNs);
      }
    }

    /** The commands and the stop flag, before the sensor is read. */
    method Prepare(turn: Turn)
      modifies this`controlMode, this`governorOverride, this`draining, this`drainDeadline, this`sensorStopped, this`stop,
               sensor`running, sensor`stops
      ensures State() == Prepared(old(State()), cfg, turn)
    {
      hide Obeyed;
      ghost var c0, s0 := ControlView(), sensor.View();
      var i := 0;
      while i < |turn.commands|
        invariant 0 <= i <= |turn.commands| && totalReads == old(totalReads)
        invariant ControlView() == ObeyedAll(c0, cfg, turn.commands[..i])
        invariant sensor.View() == Following(s0, c0, ControlView())
        invariant c0.sensorStopped ==> sensorStopped
      {
        assert turn.commands[..i + 1][..i] == turn.commands[..i];
        StaysStopped(ControlView(), cfg, turn.commands[i]);
        Obey(turn.commands[i]);
        i := i + 1;
      }
      assert turn.commands[..i] == turn.commands;
      stop := stop || turn.stopRaised;
      if stop && !draining {
        StartDraining(turn.checkNs);
      }
    }

    /** Moving readings into the buffer. */
    method Move(turn: Turn)
      modifies this`controlMode, this`governorOverride, this`draining, this`drainDeadline, this`sensorStopped, this`stop,
               this`totalReads, sensor
      ensures State() == Moved(old(State()), turn)
    {
      var moved, refused, arrivals := 0, false, turn.arrivals;
      while true
        invariant ControlView() == old(ControlView()) && totalReads == old(totalReads) + moved
        invariant !refused
        invariant Emptied(sensor.View(), arrivals, turn.pushOk, moved)
               == Emptied(old(sensor.View()), turn.arrivals, turn.pushOk, 0)
        decreases |arrivals|, sensor.available
      {
        sensor.Produce(arrivals);
        var got := sensor.Read();
        if !got {
          break;
        }
        arrivals, totalReads, moved := Rest(arrivals), totalReads + 1, moved + 1;
        if !turn.pushOk(moved - 1) {
          refused := true;
          StartDraining(turn.failNs);
          break;
        }
      }
    }

    /** One pass of the loop; how long the reader then sleeps is the governor's new sleep. */
    method Pass(turn: Turn) returns (leave: bool)
      requires var v := Turned(State(), cfg, turn);
               Accepted(governor.cfg) && Returns(governor.View(), v.sensor.available, turn.stats, v.control.ov)
      modifies this, sensor, governor
      ensures State() == Turned(old(State()), cfg, turn)
      ensures governor.View() == Updated(old(governor.View()), sensor.available, turn.stats, governorOverride)
      ensures statuses == old(statuses) + [Reported(id, State(), turn)]
      ensures leave == Leaves(State(), turn.endNs)
    {
      hide Prepared, Moved, Updated, Returns;
      Prepare(turn);
      Move(turn);
      var _ := governor.UpdateWithOverride(sensor.available, turn.stats, governorOverride);
      statuses := statuses + [Reported(id, State(), turn)];
      leave := draining && (sensor.available == 0 || (drainDeadline.Some? && turn.endNs >= drainDeadline.value));
    }

    /** What is left to do after the loop. */
    method Finish()
      modifies sensor`running, sensor`stops
      ensures sensor.View() == if sensorStopped then old(sensor.View()) else Halted(old(sensor.View()))
    {
      if !sensorStopped {
        sensor.Stop();
      }
    }
  }

  lemma StaysStopped(c: Control, cfg: Governor.Config, cmd: Command)
    ensures c.sensorStopped ==> Obeyed(c, cfg, cmd).sensorStopped
  {
  }
}
