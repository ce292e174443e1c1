/** The command protocol between scheduler and reader, and the reader's drain phase. */
module ControlProofs {
  import opened Common
  import opened Scheduler
  import opened Governor
  import opened Reader
  import GovernorProofs

  function RunAll(v: ReaderState, cfg: Governor.Config, turns: seq<Turn>): ReaderState {
    if turns == [] then v else Turned(RunAll(v, cfg, turns[..|turns| - 1]), cfg, turns[|turns| - 1])
  }

  function Fresh(places: nat, available: nat): ReaderState {
    ReaderState(STARTED, Sensor(places, true, available, 0), 0)
  }

  // ---------- Draining ----------

  /** Draining implies that the stop flag is up, the sensor is stopped and a deadline is set; and the sensor has been
      stopped once if the reader knows it is stopped, and never if not. */
  predicate Orderly(v: ReaderState) {
    var c, s := v.control, v.sensor;
    && (c.draining ==> c.stopFlag && c.sensorStopped && c.deadlineNs.Some?)
    && (c.sensorStopped <==> !s.running)
    && s.stops == if c.sensorStopped then 1 else 0
  }

  /** What a step of the reader does to its control state, whoever causes it. */
  predicate Progresses(c: Control, c': Control) {
    && (c.draining ==> c'.draining)
    && (c.stopFlag ==> c'.stopFlag)
    && (c.sensorStopped ==> c'.sensorStopped)
    && (c.deadlineNs.Some? ==> c'.deadlineNs == c.deadlineNs)
    && (c'.draining && !c.draining ==> c'.stopFlag && c'.sensorStopped && c'.deadlineNs.Some?)
    && (c'.sensorStopped && !c.sensorStopped ==> c'.draining)
  }

  lemma {:induction false} ObeyingProgresses(c: Control, cfg: Governor.Config, cmds: seq<Command>)
    ensures Progresses(c, ObeyedAll(c, cfg, cmds))
    ensures ObeyedAll(c, cfg, cmds).draining
       <==> c.draining || exists i :: 0 <= i < |cmds| && cmds[i].mode.ShutdownDrain?
  {
    if cmds != [] {
      ObeyingProgresses(c, cfg, cmds[..|cmds| - 1]);
      var before := ObeyedAll(c, cfg, cmds[..|cmds| - 1]);
      assert Progresses(before, Obeyed(before, cfg, cmds[|cmds| - 1]));
      if i :| 0 <= i < |cmds| && cmds[i].mode.ShutdownDrain? && i < |cmds| - 1 {
        assert cmds[..|cmds| - 1][i].mode.ShutdownDrain?;
      }
    }
  }

  /** What the environment and the reads can do to the sensor in one pass. */
  lemma {:induction false} EmptiedKeeps(s: Sensor, arrivals: seq<nat>, pushOk: nat -> bool, moved: nat)
    ensures var p := Emptied(s, arrivals, pushOk, moved);
            && p.sensor.running == s.running && p.sensor.stops == s.stops && p.sensor.places == s.places
            && p.moved >= moved
            && (s.available <= s.places ==> p.sensor.available <= s.places)
            && (!p.refused ==> p.sensor.available == 0)
            && (!s.running ==> p.moved - moved + p.sensor.available == s.available)
            && (!s.running && s.available > 0 ==> p.moved > moved)
    decreases |arrivals|, s.available
  {
    var s1 := Arrived(s, arrivals);
    if s1.available > 0 && pushOk(moved) {
      EmptiedKeeps(s1.(available := s1.available - 1), Rest(arrivals), pushOk, moved + 1);
    }
  }

  function Total(arrivals: seq<nat>): nat {
    if arrivals == [] then 0 else arrivals[0] + Total(arrivals[1..])
  }

  /** How many times the pass has looked for a reading: once for each moved, and once more when it found none. */
  function Looks(p: Pass, moved: nat): nat
    requires p.moved >= moved
  {
    p.moved - moved + if p.refused then 0 else 1
  }

  /** While the sensor runs and its ring has room for everything, each reading that arrives before a look is moved in that
      pass or still there after it. */
  lemma {:induction false} ArrivalsAreKept(s: Sensor, arrivals: seq<nat>, pushOk: nat -> bool, moved: nat)
    requires s.running && s.available + Total(arrivals) <= s.places
    ensures var p := Emptied(s, arrivals, pushOk, moved);
            p.moved >= moved
            && p.moved - moved + p.sensor.available == s.available + Total(arrivals[..Min(Looks(p, moved), |arrivals|)])
    decreases |arrivals|
  {
    var p := Emptied(s, arrivals, pushOk, moved);
    if arrivals == [] {
      EmptiedWithout(s, pushOk, moved);
    } else {
      var s1, rest := s.(available := s.available + arrivals[0]), arrivals[1..];
      if s1.available > 0 && pushOk(moved) {
        var s2 := s1.(available := s1.available - 1);
        assert p == Emptied(s2, rest, pushOk, moved + 1);
        hide Emptied;
        ArrivalsAreKept(s2, rest, pushOk, moved + 1);
        var k := Min(Looks(p, moved + 1), |rest|);
        assert arrivals[..k + 1][1..] == rest[..k];
      } else {
        assert arrivals[..1][1..] == [];
      }
    }
  }

  lemma {:induction false} EmptiedWithout(s: Sensor, pushOk: nat -> bool, moved: nat)
    ensures var p := Emptied(s, [], pushOk, moved);
            p.moved >= moved && p.moved - moved + p.sensor.available == s.available
    decreases s.available
  {
    if s.available > 0 && pushOk(moved) {
      EmptiedWithout(s.(available := s.available - 1), pushOk, moved + 1);
    }
  }

  /** One pass: order is kept, nothing is undone, and the pass ends in the drain phase exactly when it began there, was
      told to by a command or the stop flag, or had a push refused. */
  lemma TurnKeeps(v: ReaderState, cfg: Governor.Config, turn: Turn)
    requires Orderly(v)
    ensures var v' := Turned(v, cfg, turn);
            && Orderly(v') && Progresses(v.control, v'.control)
            && (v'.control.draining <==>
                  || v.control.draining
                  || (exists i :: 0 <= i < |turn.commands| && turn.commands[i].mode.ShutdownDrain?)
                  || v.control.stopFlag || turn.stopRaised
                  || Emptied(Prepared(v, cfg, turn).sensor, turn.arrivals, turn.pushOk, 0).refused)
  {
    hide Emptied, ObeyedAll;
    ObeyingProgresses(v.control, cfg, turn.commands);
    var p := Prepared(v, cfg, turn);
    EmptiedKeeps(p.sensor, turn.arrivals, turn.pushOk, 0);
    ObeyingRaises(v.control, cfg, turn.commands);
  }

  /** Commands raise the stop flag only by starting the drain phase. */
  lemma {:induction false} ObeyingRaises(c: Control, cfg: Governor.Config, cmds: seq<Command>)
    ensures ObeyedAll(c, cfg, cmds).stopFlag ==> c.stopFlag || ObeyedAll(c, cfg, cmds).draining
  {
    if cmds != [] {
      ObeyingRaises(c, cfg, cmds[..|cmds| - 1]);
    }
  }

  /** Over every run, draining implies stop, a stopped sensor and a deadline; the sensor is stopped at most once while the
      loop runs, and has been stopped exactly once when the reader has left its loop and finished. */
  lemma {:induction false} RunsStayOrderly(places: nat, available: nat, cfg: Governor.Config, turns: seq<Turn>)
    ensures Orderly(RunAll(Fresh(places, available), cfg, turns))
    ensures var v := RunAll(Fresh(places, available), cfg, turns);
            (if v.control.sensorStopped then v.sensor else Halted(v.sensor)).stops == 1
  {
    hide Turned;
    if turns != [] {
      var n := |turns| - 1;
      RunsStayOrderly(places, available, cfg, turns[..n]);
      TurnKeeps(RunAll(Fresh(places, available), cfg, turns[..n]), cfg, turns[n]);
    }
  }

  /** A ring never holds more than it has places for: what arrives in a full one replaces the oldest. */
  lemma {:induction false} NeverOverfull(v: ReaderState, cfg: Governor.Config, turns: seq<Turn>)
    requires v.sensor.available <= v.sensor.places
    ensures var s := RunAll(v, cfg, turns).sensor; s.available <= s.places == v.sensor.places
  {
    hide Emptied, ObeyedAll;
    if turns != [] {
      var n := |turns| - 1;
      NeverOverfull(v, cfg, turns[..n]);
      EmptiedKeeps(Prepared(RunAll(v, cfg, turns[..n]), cfg, turns[n]).sensor, turns[n].arrivals, turns[n].pushOk, 0);
    }
  }

  /** In the drain phase nothing arrives: a pass moves at least one reading if there is any, moves all of them unless a
      push is refused, and loses none from the count. */
  lemma DrainingTurn(v: ReaderState, cfg: Governor.Config, turn: Turn)
    requires Orderly(v) && v.control.draining
    ensures var v' := Turned(v, cfg, turn);
            && Orderly(v') && v'.control.draining && v'.control.deadlineNs == v.control.deadlineNs
            && v'.totalReads + v'.sensor.available == v.totalReads + v.sensor.available
            && v'.sensor.available <= v.sensor.available
            && (v.sensor.available > 0 ==> v'.sensor.available < v.sensor.available)
            && ((forall k :: turn.pushOk(k)) ==> v'.sensor.available == 0)
  {
    hide Emptied, ObeyedAll;
    TurnKeeps(v, cfg, turn);
    ObeyingProgresses(v.control, cfg, turn.commands);
    EmptiedKeeps(Prepared(v, cfg, turn).sensor, turn.arrivals, turn.pushOk, 0);
    if forall k :: turn.pushOk(k) {
      AllPushed(Prepared(v, cfg, turn).sensor, turn.arrivals, turn.pushOk, 0);
    }
  }

  lemma {:induction false} AllPushed(s: Sensor, arrivals: seq<nat>, pushOk: nat -> bool, moved: nat)
    requires forall k :: pushOk(k)
    ensures !Emptied(s, arrivals, pushOk, moved).refused
    decreases |arrivals|, s.available
  {
    var s1 := Arrived(s, arrivals);
    if s1.available > 0 {
      AllPushed(s1.(available := s1.available - 1), Rest(arrivals), pushOk, moved + 1);
    }
  }

  /** The instant at which a pass starts the drain phase: of the first drain command, of the check of the flag, or of the
      refused push. */
  function StartedAt(v: ReaderState, cfg: Governor.Config, turn: Turn): nat {
    if ShutdownDrain in Modes(turn.commands) then FirstDrain(turn.commands)
    else if v.control.stopFlag || turn.stopRaised then turn.checkNs
    else turn.failNs
  }

  function FirstDrain(cmds: seq<Command>): nat
    requires ShutdownDrain in Modes(cmds)
  {
    if cmds[0].mode.ShutdownDrain? then cmds[0].atNs
    else
      assert Modes(cmds)[1..] == Modes(cmds[1..]);
      FirstDrain(cmds[1..])
  }

  lemma {:induction false} FirstDrainOfMore(cmds: seq<Command>, cmd: Command)
    ensures ShutdownDrain in Modes(cmds) ==>
              ShutdownDrain in Modes(cmds + [cmd]) && FirstDrain(cmds + [cmd]) == FirstDrain(cmds)
    ensures ShutdownDrain !in Modes(cmds) && cmd.mode.ShutdownDrain? ==>
              ShutdownDrain in Modes(cmds + [cmd]) && FirstDrain(cmds + [cmd]) == cmd.atNs
    ensures ShutdownDrain !in Modes(cmds) && !cmd.mode.ShutdownDrain? ==> ShutdownDrain !in Modes(cmds + [cmd])
  {
    assert Modes(cmds + [cmd]) == Modes(cmds) + [cmd.mode];
    if ShutdownDrain in Modes(cmds) {
      assert ShutdownDrain in Modes(cmds + [cmd]);
    }
    if cmds != [] {
      assert (cmds + [cmd])[1..] == cmds[1..] + [cmd] && Modes(cmds) == [cmds[0].mode] + Modes(cmds[1..]);
      FirstDrainOfMore(cmds[1..], cmd);
    }
  }

  lemma {:induction false} ObeyingSetsDeadline(c: Control, cfg: Governor.Config, cmds: seq<Command>)
    requires c.deadlineNs.None?
    ensures ObeyedAll(c, cfg, cmds).deadlineNs
         == if ShutdownDrain in Modes(cmds) then Some(FirstDrain(cmds) + 2_000_000_000) else None
  {
    hide FirstDrain;
    if cmds != [] {
      var front, last := cmds[..|cmds| - 1], cmds[|cmds| - 1];
      assert cmds == front + [last];
      ObeyingSetsDeadline(c, cfg, front);
      FirstDrainOfMore(front, last);
    }
  }

  /** A pass that starts the drain phase sets the deadline two seconds after the instant it starts. */
  lemma DeadlineIsSet(v: ReaderState, cfg: Governor.Config, turn: Turn)
    requires !v.control.draining && v.control.deadlineNs.None?
    ensures var c := Turned(v, cfg, turn).control;
            c.deadlineNs == if c.draining then Some(StartedAt(v, cfg, turn) + 2_000_000_000) else None
  {
    hide Emptied, ObeyedAll, FirstDrain, Modes;
    ObeyingSetsDeadline(v.control, cfg, turn.commands);
    ObeyingFollows(v.control, cfg, turn.commands);
    ObeyingProgresses(v.control, cfg, turn.commands);
    ObeyingRaises(v.control, cfg, turn.commands);
  }

  /** When the drain phase started: what the first pass that ends in it gives. */
  function DrainStart(v: ReaderState, cfg: Governor.Config, turns: seq<Turn>): Option<nat> {
    if turns == [] then None
    else
      var front := turns[..|turns| - 1];
      if DrainStart(v, cfg, front).Some? then DrainStart(v, cfg, front)
      else if RunAll(v, cfg, turns).control.draining
      then Some(StartedAt(RunAll(v, cfg, front), cfg, turns[|turns| - 1]))
      else None
  }

  /** Over every run the deadline is two seconds after the drain phase started, and a reader leaves its loop exactly when
      it drains and its sensor has nothing unread or those two seconds are over. */
  lemma {:induction false} LeavesExactly(places: nat, available: nat, cfg: Governor.Config, turns: seq<Turn>)
    requires turns != []
    ensures var v, start := RunAll(Fresh(places, available), cfg, turns), DrainStart(Fresh(places, available), cfg, turns);
            && (start.Some? <==> v.control.draining)
            && v.control.deadlineNs == (if start.Some? then Some(start.value + 2_000_000_000) else None)
            && (Leaves(v, turns[|turns| - 1].endNs)
                <==> start.Some?
                     && (v.sensor.available == 0 || turns[|turns| - 1].endNs - start.value >= 2_000_000_000))
  {
    hide Turned, StartedAt;
    DeadlineOfRun(places, available, cfg, turns);
  }

  lemma {:induction false} DeadlineOfRun(places: nat, available: nat, cfg: Governor.Config, turns: seq<Turn>)
    ensures var v, start := RunAll(Fresh(places, available), cfg, turns), DrainStart(Fresh(places, available), cfg, turns);
            && (start.Some? <==> v.control.draining)
            && v.control.deadlineNs == (if start.Some? then Some(start.value + 2_000_000_000) else None)
  {
    hide Turned, StartedAt;
    if turns != [] {
      var n := |turns| - 1;
      var before := RunAll(Fresh(places, available), cfg, turns[..n]);
      DeadlineOfRun(places, available, cfg, turns[..n]);
      RunsStayOrderly(places, available, cfg, turns[..n]);
      TurnKeeps(before, cfg, turns[n]);
      if !before.control.draining {
        DeadlineIsSet(before, cfg, turns[n]);
      }
    }
  }

  /** The reader leaves its loop at the end of pass `i`. */
  predicate LeavesAt(v: ReaderState, cfg: Governor.Config, turns: seq<Turn>, i: nat)
    requires i < |turns|
  {
    Leaves(RunAll(v, cfg, turns[..i + 1]), turns[i].endNs)
  }

  /** A reader that has drained for `n` passes without leaving has at least `n` readings fewer, and some left. */
  lemma {:induction false} StillDraining(v: ReaderState, cfg: Governor.Config, turns: seq<Turn>)
    requires Orderly(v) && v.control.draining
    requires forall i :: 0 <= i < |turns| ==> !LeavesAt(v, cfg, turns, i)
    ensures var v' := RunAll(v, cfg, turns);
            && Orderly(v') && v'.control.draining
            && v'.totalReads + v'.sensor.available == v.totalReads + v.sensor.available
            && (turns != [] ==> 0 < v'.sensor.available && v'.sensor.available + |turns| <= v.sensor.available)
  {
    hide Turned;
    if turns != [] {
      var n := |turns| - 1;
      forall i | 0 <= i < n ensures !LeavesAt(v, cfg, turns[..n], i) {
        assert turns[..n][..i + 1] == turns[..i + 1];
        assert !LeavesAt(v, cfg, turns, i);
      }
      StillDraining(v, cfg, turns[..n]);
      assert turns[..n + 1] == turns;
      assert !LeavesAt(v, cfg, turns, n);
      DrainingTurn(RunAll(v, cfg, turns[..n]), cfg, turns[n]);
    }
  }

  /** When every push returns, draining ends: a draining reader leaves its loop within as many further passes as its
      sensor has unread readings (one, if there are none), even when every push is refused and no deadline passes. */
  lemma DrainEnds(v: ReaderState, cfg: Governor.Config, turns: seq<Turn>)
    requires Orderly(v) && v.control.draining && |turns| >= Max(v.sensor.available, 1)
    ensures exists i :: 0 <= i < |turns| && LeavesAt(v, cfg, turns, i)
  {
    hide LeavesAt;
    if forall i :: 0 <= i < |turns| ==> !LeavesAt(v, cfg, turns, i) {
      StillDraining(v, cfg, turns);
    }
  }

  /** When no push is refused, the first draining pass empties the sensor and is the last. */
  lemma GracefulDrain(v: ReaderState, cfg: Governor.Config, turn: Turn)
    requires Orderly(v) && v.control.draining && forall k :: turn.pushOk(k)
    ensures Leaves(Turned(v, cfg, turn), turn.endNs)
    ensures Turned(v, cfg, turn).totalReads == v.totalReads + v.sensor.available
  {
    hide Turned;
    DrainingTurn(v, cfg, turn);
  }

  // ---------- Commands ----------

  /** What a command means to the governor. */
  function OverrideFor(mode: ControlMode, cfg: Governor.Config): Override {
    match mode
    case Automatic => NoOverride
    case ClampToNominal => NominalClamp(cfg)
    case ForceFastRecovery | ShutdownDrain => Override.ForceFastRecovery
  }

  function Modes(cmds: seq<Command>): seq<ControlMode> {
    seq(|cmds|, i requires 0 <= i < |cmds| => cmds[i].mode)
  }

  /** Replaying commands leaves the mode and the override of the last one. */
  lemma {:induction false} ReplayIsLast(c: Control, cfg: Governor.Config, cmds: seq<Command>)
    ensures var r := ObeyedAll(c, cfg, cmds);
            match LastOf(Modes(cmds))
            case None => r == c
            case Some(mode) => r.mode == mode && r.ov == OverrideFor(mode, cfg)
  {
  }

  function AllCommands(turns: seq<Turn>): seq<Command> {
    if turns == [] then [] else AllCommands(turns[..|turns| - 1]) + turns[|turns| - 1].commands
  }

  lemma {:induction false} ObeyedBoth(c: Control, cfg: Governor.Config, a: seq<Command>, b: seq<Command>)
    ensures ObeyedAll(c, cfg, a + b) == ObeyedAll(ObeyedAll(c, cfg, a), cfg, b)
  {
    if b == [] {
      assert a + b == a;
    } else {
      assert (a + b)[..|a + b| - 1] == a + b[..|b| - 1];
      ObeyedBoth(c, cfg, a, b[..|b| - 1]);
    }
  }

  /** As long as it does not drain, a reader's control state is what its commands alone make of it, however they are
      spread over its passes. */
  lemma {:induction false} OnlyCommandsSteer(v: ReaderState, cfg: Governor.Config, turns: seq<Turn>)
    requires Orderly(v) && !RunAll(v, cfg, turns).control.draining
    ensures Orderly(RunAll(v, cfg, turns))
    ensures RunAll(v, cfg, turns).control == ObeyedAll(v.control, cfg, AllCommands(turns))
  {
    hide Emptied, ObeyedAll, Orderly;
    if turns == [] {
      ObeyedNone(v.control, cfg);
    } else {
      var n := |turns| - 1;
      var before := RunAll(v, cfg, turns[..n]);
      if before.control.draining {
        DrainingStays(before, cfg, turns[n]);
      }
      OnlyCommandsSteer(v, cfg, turns[..n]);
      TurnKeeps(before, cfg, turns[n]);
      ObeyedBoth(v.control, cfg, AllCommands(turns[..n]), turns[n].commands);
    }
  }

  lemma {:induction false} ObeyedNone(c: Control, cfg: Governor.Config)
    ensures ObeyedAll(c, cfg, []) == c
  {
  }

  lemma DrainingStays(v: ReaderState, cfg: Governor.Config, turn: Turn)
    requires v.control.draining
    ensures Turned(v, cfg, turn).control.draining
  {
    hide Emptied, ObeyedAll;
    ObeyingProgresses(v.control, cfg, turn.commands);
  }

  /** End to end: a reader that has received what the scheduler sent it, in any number of passes, and does not drain, runs
      its governor under the override of the scheduler's command on record. */
  lemma {:induction false} SchedulerSteersReader(
    scfg: Scheduler.Config, rounds: seq<Round>, places: nat, available: nat, cfg: Governor.Config, turns: seq<Turn>)
    requires Modes(AllCommands(turns)) == After(scfg, rounds).sent
    requires !RunAll(Fresh(places, available), cfg, turns).control.draining
    ensures var c := RunAll(Fresh(places, available), cfg, turns).control;
            match After(scfg, rounds).last
            case None => c.ov == NoOverride
            case Some(mode) => c.mode == mode && c.ov == OverrideFor(mode, cfg)
  {
    hide RunAll, After, ObeyedAll;
    CommandsNeverRepeat(scfg, rounds);
    var v := Fresh(places, available);
    OnlyCommandsSteer(v, cfg, turns);
    ReplayIsLast(v.control, cfg, AllCommands(turns));
  }

  // ---------- The override while draining ----------

  /** What sets the mode and the override in a pass, in order: its commands, the stop flag if it starts the drain phase,
      and a refused push. */
  function Events(v: ReaderState, cfg: Governor.Config, turn: Turn): seq<ControlMode> {
    var obeyed := ObeyedAll(v.control, cfg, turn.commands);
    Modes(turn.commands)
    + (if (obeyed.stopFlag || turn.stopRaised) && !obeyed.draining then [ShutdownDrain] else [])
    + (if Refused(v, cfg, turn) then [ShutdownDrain] else [])
  }

  predicate Refused(v: ReaderState, cfg: Governor.Config, turn: Turn) {
    Emptied(Prepared(v, cfg, turn).sensor, turn.arrivals, turn.pushOk, 0).refused
  }

  function History(v: ReaderState, cfg: Governor.Config, turns: seq<Turn>): seq<ControlMode> {
    if turns == [] then []
    else
      var front := turns[..|turns| - 1];
      History(v, cfg, front) + Events(RunAll(v, cfg, front), cfg, turns[|turns| - 1])
  }

  lemma LastOfBoth(a: seq<ControlMode>, b: seq<ControlMode>)
    ensures LastOf(a + b) == if b == [] then LastOf(a) else LastOf(b)
  {
  }

  predicate Follows(c: Control, c': Control, cfg: Governor.Config, events: seq<ControlMode>) {
    && (match LastOf(events)
        case None => c'.mode == c.mode && c'.ov == c.ov
        case Some(mode) => c'.mode == mode && c'.ov == OverrideFor(mode, cfg))
    && (c'.draining <==> c.draining || ShutdownDrain in events)
  }

  lemma FollowsBoth(c: Control, c1: Control, c2: Control, cfg: Governor.Config, a: seq<ControlMode>, b: seq<ControlMode>)
    requires Follows(c, c1, cfg, a) && Follows(c1, c2, cfg, b)
    ensures Follows(c, c2, cfg, a + b)
  {
    LastOfBoth(a, b);
  }

  lemma {:induction false} ObeyingFollows(c: Control, cfg: Governor.Config, cmds: seq<Command>)
    ensures Follows(c, ObeyedAll(c, cfg, cmds), cfg, Modes(cmds))
  {
    hide ObeyedAll;
    ReplayIsLast(c, cfg, cmds);
    ObeyingProgresses(c, cfg, cmds);
    assert forall i :: 0 <= i < |cmds| ==> Modes(cmds)[i] == cmds[i].mode;
  }

  lemma TurnFollows(v: ReaderState, cfg: Governor.Config, turn: Turn)
    ensures Follows(v.control, Turned(v, cfg, turn).control, cfg, Events(v, cfg, turn))
  {
    hide Emptied, ObeyedAll;
    var obeyed := ObeyedAll(v.control, cfg, turn.commands);
    var flagged := if (obeyed.stopFlag || turn.stopRaised) && !obeyed.draining then [ShutdownDrain] else [];
    var failed := if Refused(v, cfg, turn) then [ShutdownDrain] else [];
    ObeyingFollows(v.control, cfg, turn.commands);
    FollowsBoth(v.control, obeyed, Prepared(v, cfg, turn).control, cfg, Modes(turn.commands), flagged);
    FollowsBoth(v.control, Prepared(v, cfg, turn).control, Turned(v, cfg, turn).control, cfg,
                Modes(turn.commands) + flagged, failed);
  }

  lemma {:induction false} RunFollows(v: ReaderState, cfg: Governor.Config, turns: seq<Turn>)
    ensures Follows(v.control, RunAll(v, cfg, turns).control, cfg, History(v, cfg, turns))
  {
    hide Turned, Events, Follows;
    if turns == [] {
      FollowsNothing(v.control, cfg);
    } else {
      var n := |turns| - 1;
      RunFollows(v, cfg, turns[..n]);
      TurnFollows(RunAll(v, cfg, turns[..n]), cfg, turns[n]);
      FollowsBoth(v.control, RunAll(v, cfg, turns[..n]).control, RunAll(v, cfg, turns).control, cfg,
                  History(v, cfg, turns[..n]), Events(RunAll(v, cfg, turns[..n]), cfg, turns[n]));
    }
  }

  lemma FollowsNothing(c: Control, cfg: Governor.Config)
    ensures Follows(c, c, cfg, [])
  {
  }

  /** A draining reader's governor is in forced recovery exactly when the last thing that set the override was a drain, by
      command, by the stop flag or by a refused push, or a command to recover. */
  lemma {:induction false} ForcedExactly(places: nat, available: nat, cfg: Governor.Config, turns: seq<Turn>)
    ensures var v, events := Fresh(places, available), History(Fresh(places, available), cfg, turns);
            var c := RunAll(v, cfg, turns).control;
            && (c.draining <==> ShutdownDrain in events)
            && (c.draining ==>
                  (c.ov == Override.ForceFastRecovery
                   <==> LastOf(events) == Some(ShutdownDrain) || LastOf(events) == Some(ControlMode.ForceFastRecovery)))
  {
    hide RunAll, History;
    RunFollows(Fresh(places, available), cfg, turns);
  }

  /** A command obeyed after the drain has started lifts the forced recovery, though the reader goes on draining. */
  lemma {:induction false} LateCommandLifts(cfg: Governor.Config, turn: Turn)
    requires turn.commands == [Command(ShutdownDrain, 0), Command(Automatic, 0)] && turn.arrivals == []
    ensures var c := RunAll(Fresh(0, 0), cfg, [turn]).control; c.draining && c.ov == NoOverride
  {
    var turns := [turn];
    assert turns[..0] == [];
    var cmds := turn.commands;
    assert cmds[..1] == [cmds[0]] && cmds[..1][..0] == [];
    assert ObeyedAll(STARTED, cfg, []) == STARTED;
    assert ObeyedAll(STARTED, cfg, cmds[..1]) == Drained(STARTED, 0);
  }

  /** The buffer's shutdown is sticky: after a refused push every push is refused. */
  ghost predicate Sticky(v: ReaderState, cfg: Governor.Config, turns: seq<Turn>) {
    forall i, j, k :: 0 <= i < j < |turns| && Refused(RunAll(v, cfg, turns[..i]), cfg, turns[i]) ==> !turns[j].pushOk(k)
  }

  /** The scheduler's order: nothing is sent after the drain command. */
  predicate DrainIsLast(modes: seq<ControlMode>) {
    forall i :: 0 <= i < |modes| - 1 ==> !modes[i].ShutdownDrain?
  }

  /** A pass over a sensor that is stopped and not empty reads, so it is refused if the first push is. */
  lemma {:induction false} FirstPushRefused(s: Sensor, arrivals: seq<nat>, pushOk: nat -> bool)
    requires !s.running && s.available > 0 && !pushOk(0)
    ensures Emptied(s, arrivals, pushOk, 0).refused
  {
  }

  /** A pass that ends draining with readings left had a push refused. */
  lemma LeftoverMeansRefused(v: ReaderState, cfg: Governor.Config, turn: Turn)
    requires Turned(v, cfg, turn).sensor.available > 0
    ensures Refused(v, cfg, turn)
  {
    hide Emptied, Prepared;
    EmptiedKeeps(Prepared(v, cfg, turn).sensor, turn.arrivals, turn.pushOk, 0);
  }

  /** A pass of a draining reader over unread readings is refused if the first push is. */
  lemma DrainingRefused(v: ReaderState, cfg: Governor.Config, turn: Turn)
    requires Orderly(v) && v.control.draining && v.sensor.available > 0 && !turn.pushOk(0)
    ensures Refused(v, cfg, turn)
  {
    hide Emptied, ObeyedAll;
    ObeyingProgresses(v.control, cfg, turn.commands);
    FirstPushRefused(Prepared(v, cfg, turn).sensor, turn.arrivals, turn.pushOk);
  }

  lemma ModesOfBoth(a: seq<Command>, b: seq<Command>)
    ensures Modes(a + b) == Modes(a) + Modes(b)
  {
  }

  /** As the program wires it, a drain is forced recovery throughout: with a sticky buffer and nothing sent after the drain
      command, a reader that is still in its loop and drains has its governor in forced recovery after every pass. */
  lemma {:induction false} DrainsInForcedRecovery(places: nat, available: nat, cfg: Governor.Config, turns: seq<Turn>)
    requires Sticky(Fresh(places, available), cfg, turns) && DrainIsLast(Modes(AllCommands(turns)))
    requires forall i :: 0 <= i < |turns| - 1 ==> !LeavesAt(Fresh(places, available), cfg, turns, i)
    requires RunAll(Fresh(places, available), cfg, turns).control.draining
    ensures RunAll(Fresh(places, available), cfg, turns).control.ov == Override.ForceFastRecovery
  {
    hide RunAll, Events, History, Turned, Refused;
    var v := Fresh(places, available);
    if turns == [] {
      NotYetDraining(places, available, cfg);
    } else {
      var n := |turns| - 1;
      var before, turn := RunAll(v, cfg, turns[..n]), turns[n];
      LastTurn(v, cfg, turns);
      TurnFollows(before, cfg, turn);
      ModesOfBoth(AllCommands(turns[..n]), turn.commands);
      if before.control.draining {
        RunsStayOrderly(places, available, cfg, turns[..n]);
        StillHere(v, cfg, turns);
        RefusedAgain(v, cfg, turns);
      }
      EndsInDrain(before, cfg, turn, Modes(AllCommands(turns[..n])));
    }
  }

  lemma {:induction false} NotYetDraining(places: nat, available: nat, cfg: Governor.Config)
    ensures !RunAll(Fresh(places, available), cfg, []).control.draining
  {
  }

  lemma {:induction false} LastTurn(v: ReaderState, cfg: Governor.Config, turns: seq<Turn>)
    requires turns != []
    ensures var n := |turns| - 1;
            RunAll(v, cfg, turns) == Turned(RunAll(v, cfg, turns[..n]), cfg, turns[n])
            && AllCommands(turns) == AllCommands(turns[..n]) + turns[n].commands
  {
  }

  /** A draining reader that goes on to another pass has readings left. */
  lemma StillHere(v: ReaderState, cfg: Governor.Config, turns: seq<Turn>)
    requires turns != [] && RunAll(v, cfg, turns[..|turns| - 1]).control.draining && !v.control.draining
    requires forall i :: 0 <= i < |turns| - 1 ==> !LeavesAt(v, cfg, turns, i)
    ensures |turns| > 1 && RunAll(v, cfg, turns[..|turns| - 1]).sensor.available > 0
  {
    var n := |turns| - 1;
    if n > 0 {
      assert !LeavesAt(v, cfg, turns, n - 1);
    }
  }

  /** With a sticky buffer such a pass is refused like the one before it. */
  lemma {:induction false} RefusedAgain(v: ReaderState, cfg: Governor.Config, turns: seq<Turn>)
    requires |turns| > 1 && Sticky(v, cfg, turns)
    requires var before := RunAll(v, cfg, turns[..|turns| - 1]);
             Orderly(before) && before.control.draining && before.sensor.available > 0
    ensures Refused(RunAll(v, cfg, turns[..|turns| - 1]), cfg, turns[|turns| - 1])
  {
    hide Turned, Refused;
    var n := |turns| - 1;
    var front := turns[..n];
    assert front[..n - 1] == turns[..n - 1] && front[n - 1] == turns[n - 1];
    LastTurn(v, cfg, front);
    LeftoverMeansRefused(RunAll(v, cfg, turns[..n - 1]), cfg, turns[n - 1]);
    assert !turns[n].pushOk(0);
    DrainingRefused(RunAll(v, cfg, front), cfg, turns[n]);
  }

  /** The last event of a pass that ends draining is a drain, if no command follows a drain and the reader was not draining
      before or the pass is refused. */
  lemma EndsInDrain(v: ReaderState, cfg: Governor.Config, turn: Turn, earlier: seq<ControlMode>)
    requires Follows(v.control, Turned(v, cfg, turn).control, cfg, Events(v, cfg, turn))
    requires Turned(v, cfg, turn).control.draining && DrainIsLast(earlier + Modes(turn.commands))
    requires v.control.draining ==> Refused(v, cfg, turn)
    ensures Turned(v, cfg, turn).control.ov == Override.ForceFastRecovery
  {
    hide Turned, ObeyedAll, Refused, Modes;
    var events := Events(v, cfg, turn);
    if !Refused(v, cfg, turn) {
      var i :| 0 <= i < |events| && events[i].ShutdownDrain?;
      if i < |Modes(turn.commands)| {
        assert (earlier + Modes(turn.commands))[|earlier| + i].ShutdownDrain?;
      }
    }
  }

  // ---------- The drain command ----------

  /** If the last command obeyed is a drain, so is the last event: later ones are drains too. */
  lemma {:induction false} DrainStaysLast(v: ReaderState, cfg: Governor.Config, turns: seq<Turn>)
    requires LastOf(Modes(AllCommands(turns))) == Some(ShutdownDrain)
    ensures LastOf(History(v, cfg, turns)) == Some(ShutdownDrain)
  {
    hide RunAll, ObeyedAll, Refused;
    if turns != [] {
      var n := |turns| - 1;
      var front, last := turns[..n], turns[n];
      ModesOfBoth(AllCommands(front), last.commands);
      LastOfBoth(Modes(AllCommands(front)), Modes(last.commands));
      LastOfBoth(History(v, cfg, front), Events(RunAll(v, cfg, front), cfg, last));
      if last.commands == [] {
        assert Modes(last.commands) == [];
        DrainStaysLast(v, cfg, front);
      }
    }
  }

  /** End to end: once the scheduler has been stopped, a reader that has received all it sent, in any number of passes and
      whatever else has happened to it, drains with its sensor stopped and its governor in forced recovery. */
  lemma {:induction false} SchedulerDrainsReader(
    scfg: Scheduler.Config, rounds: seq<Round>, places: nat, available: nat, cfg: Governor.Config, turns: seq<Turn>)
    requires Modes(AllCommands(turns)) == After(scfg, rounds).sent + [ShutdownDrain]
    ensures var c := RunAll(Fresh(places, available), cfg, turns).control;
            c.draining && c.sensorStopped && c.stopFlag && c.ov == Override.ForceFastRecovery
  {
    hide RunAll, After, History, AllCommands;
    var v := Fresh(places, available);
    DrainStaysLast(v, cfg, turns);
    RunFollows(v, cfg, turns);
    RunsStayOrderly(places, available, cfg, turns);
    var events := History(v, cfg, turns);
    assert events[|events| - 1] == ShutdownDrain;
  }

  // ---------- The governor of a reader ----------

  /** The calls a reader makes to its governor. */
  function Calls(v: ReaderState, cfg: Governor.Config, turns: seq<Turn>): seq<GovernorProofs.Input> {
    if turns == [] then []
    else
      var n := |turns| - 1;
      var v' := RunAll(v, cfg, turns);
      Calls(v, cfg, turns[..n]) + [GovernorProofs.Input(v'.sensor.available, turns[n].stats, v'.control.ov)]
  }

  /** From the scheduler to the sleep: a reader that has received what the scheduler sent and does not drain sleeps, after a
      pass, at most its nominal time if the command on record is the clamp, and its minimum if it is to recover. */
  lemma {:induction false} SchedulerBoundsSleep(
    scfg: Scheduler.Config, rounds: seq<Round>, places: nat, available: nat, cfg: Governor.Config, turns: seq<Turn>)
    requires GovernorProofs.Runnable(cfg) && turns != [] && turns[|turns| - 1].stats.capacity > 0
    requires Modes(AllCommands(turns)) == After(scfg, rounds).sent
    requires !RunAll(Fresh(places, available), cfg, turns).control.draining
    ensures var sleep := GovernorProofs.Runs(Initial(cfg), Calls(Fresh(places, available), cfg, turns)).sleepUs;
            && (After(scfg, rounds).last == Some(ClampToNominal) ==> sleep <= cfg.nominalSleepUs)
            && (After(scfg, rounds).last == Some(ControlMode.ForceFastRecovery) ==> sleep == cfg.minSleepUs)
  {
    hide RunAll, After, AllCommands, Updated;
    var v, n := Fresh(places, available), |turns| - 1;
    SchedulerSteersReader(scfg, rounds, places, available, cfg, turns);
    var calls, v' := Calls(v, cfg, turns), RunAll(v, cfg, turns);
    CallsCount(v, cfg, turns);
    var g := GovernorProofs.Runs(Initial(cfg), calls[..n]);
    assert calls[n] == GovernorProofs.Input(v'.sensor.available, turns[n].stats, v'.control.ov);
    OverridesBoundSleep(cfg, g, v'.sensor.available, turns[n].stats);
  }

  lemma {:induction false} CallsCount(v: ReaderState, cfg: Governor.Config, turns: seq<Turn>)
    ensures |Calls(v, cfg, turns)| == |turns|
  {
    if turns != [] {
      CallsCount(v, cfg, turns[..|turns| - 1]);
    }
  }

  /** The clamp of an accepted configuration is at its nominal sleep; of any other, at the larger of nominal and minimum. */
  lemma ClampIsNominal(cfg: Governor.Config)
    ensures OverrideFor(ClampToNominal, cfg).ClampMaxSleep?
    ensures var limit := OverrideFor(ClampToNominal, cfg).maxSleepUs;
            && (cfg.minSleepUs <= cfg.nominalSleepUs <==> limit == cfg.nominalSleepUs)
            && limit >= cfg.minSleepUs && (limit == cfg.nominalSleepUs || limit == cfg.minSleepUs)
  {
  }

  /** What a pass reports: the sensor's unread readings, and the share of the buffer that is filled. */
  lemma ReportIsTrue(id: string, v: ReaderState, turn: Turn)
    ensures var st := Reported(id, v, turn);
            && st.id == id && st.available == v.sensor.available && st.observedAtNs == turn.observedNs
            && (turn.stats.capacity > 0 ==> st.fill * turn.stats.capacity as real == turn.stats.len as real)
            && (turn.stats.capacity == 0 ==> st.fill == 0.0)
  {
  }

  /** From a reader's pass to the command it gets at the next poll: recovery when the report is stale or the sensor's
      backlog critical; else the clamp when the backlog has been at the warning level for long enough or the buffer is at
      least a fifth full. */
  lemma {:induction false} PollSeesReader(
    scfg: Scheduler.Config, rounds: seq<Round>, id: string, v: ReaderState, turn: Turn, nowNs: nat)
    requires scfg.warningLimit <= U32_MAX && scfg.staleMs <= U64_MAX && turn.stats.capacity > 0
    ensures var polls := rounds + [Round(Some(Reported(id, v, turn)), nowNs)];
            After(scfg, polls).last == Some(
              if Stale(scfg, nowNs, turn.observedNs) || v.sensor.available >= scfg.criticalThreshold
              then ControlMode.ForceFastRecovery
              else if HitSuffix(polls, scfg.warningThreshold) >= scfg.warningLimit || 5 * turn.stats.len >= turn.stats.capacity
              then ClampToNominal
              else Automatic)
  {
    hide After, HitSuffix, HitAt, Reported, Stale;
    var st := Reported(id, v, turn);
    var polls := rounds + [Round(Some(st), nowNs)];
    ReportIsTrue(id, v, turn);
    assert Known(polls) == Some(st);
    CommandFollowsHistory(scfg, polls);
    SuffixAtLeast(polls, scfg.warningThreshold, scfg.warningLimit);
    FifthFull(st.fill, turn.stats.len, turn.stats.capacity);
  }

  lemma FifthFull(fill: real, len: nat, capacity: nat)
    requires capacity > 0 && fill * capacity as real == len as real
    ensures fill >= 0.20 <==> 5 * len >= capacity
  {
    var c := capacity as real;
    if fill >= 0.20 {
      GovernorProofs.MulMonotone(c, 0.20, fill);
    } else {
      FifthNotFull(fill, c);
    }
  }

  lemma FifthNotFull(fill: real, c: real)
    requires c > 0.0 && fill < 0.20
    ensures fill * c < 0.20 * c
  {
    assert (0.20 - fill) * c > 0.0;
  }

  /** What the overrides buy: under the clamp the next sleep is at most the nominal one of an accepted configuration (of a
      rejected one, only at most its own clamp or the governor's minimum), and under forced recovery it is the minimum. */
  lemma OverridesBoundSleep(cfg: Governor.Config, g: Gov, available: nat, st: BufferStats)
    requires GovernorProofs.Runnable(g.cfg) && g.cfg == Initial(cfg).cfg && st.capacity > 0
    ensures Updated(g, available, st, OverrideFor(ClampToNominal, cfg)).sleepUs
         <= if Accepted(cfg) then cfg.nominalSleepUs else Max(Max(cfg.nominalSleepUs, cfg.minSleepUs), g.cfg.minSleepUs)
    ensures Updated(g, available, st, OverrideFor(ControlMode.ForceFastRecovery, cfg)).sleepUs == g.cfg.minSleepUs
  {
  }

}
