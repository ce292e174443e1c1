/** How the dispatcher's loop ends (`AggregationEngine::start` in `gateway/src/aggregation.rs`): what makes it leave, what it
    has drained by then, what a raised flag costs, and what it can be stuck on.
 */
module WindowShutdown {
  import opened SensorStatistics
  import opened Aggregation
  import opened WindowProtocol
  import opened WindowProofs
  import Buffer = BoundedBuffer

  // ---------- Leaving the loop ----------

  predicate Drained(s: State) {
    s.source.isShutdown && s.source.q == []
  }

  /** At the loop's first check the dispatcher leaves exactly when the flag is up and the source is not shut down or has
      nothing left; a shut-down source is drained first. */
  lemma CheckLeavesExactly(c: Config, s: State, s': State)
    requires ValidConfig(c) && |s.core.workers| == c.workers && DispatcherStep(c, s, s') && s.core.pc.Polling?
    ensures !InLoop(s'.core.pc) <==> s.flag && (!s.source.isShutdown || s.source.q == [])
    ensures InLoop(s'.core.pc) ==> s'.core.pc.Checked?
    ensures s'.source == s.source && s'.h == s.h && s'.flag == s.flag
  {
  }

  /** At the second check it stops popping exactly when the source is drained: with data in the window it closes a last
      one, without it leaves. */
  lemma DrainEndsExactly(c: Config, s: State, s': State)
    requires ValidConfig(c) && |s.core.workers| == c.workers && DispatcherStep(c, s, s') && s.core.pc.Checked?
    ensures s'.core.pc.Popping? <==> !Drained(s)
    ensures s'.core.pc == Rotating(0, true) <==> Drained(s) && s.sawData
    ensures !InLoop(s'.core.pc) <==> Drained(s) && !s.sawData
  {
  }

  /** The only ways out of the loop: the flag, a drained source, and a failure, which raises the flag. */
  predicate WayOut(s: State, s': State) {
    && s'.source == s.source
    && (|| (s'.h.failed && s'.flag)
        || (s.flag && (!s.source.isShutdown || s.source.q == []) && s'.h.drained == s.h.drained)
        || (s'.h.drained && Drained(s)))
  }

  lemma DrainedMeans(c: Config, s: State)
    requires Inv(c, s) && InLoop(s.core.pc)
    ensures s.h.drained ==> Drained(s)
    ensures s.h.drained <==> IsLast(s.core.pc)
  {
  }

  lemma WaysOut(c: Config, s: State, s': State)
    requires Inv(c, s) && |s.core.workers| == c.workers && DispatcherStep(c, s, s')
    requires InLoop(s.core.pc) && !InLoop(s'.core.pc)
    ensures WayOut(s, s')
  {
    DrainedMeans(c, s);
    hide Inv, DispatcherStep, WayOut;
    InvHasConfig(c, s);
    if s.core.pc.Collecting? || s.core.pc.Sending? {
      FrameWayOut(c, s, s');
    } else if s.core.pc.Dispatching? || s.core.pc.Rotating? {
      SendWayOut(c, s, s');
    } else {
      CheckWayOut(c, s, s');
    }
  }

  lemma CheckWayOut(c: Config, s: State, s': State)
    requires ValidConfig(c) && |s.core.workers| == c.workers && DispatcherStep(c, s, s') && !InLoop(s'.core.pc)
    requires s.core.pc.Polling? || s.core.pc.Checked? || s.core.pc.Popping? || s.core.pc.Timing?
    ensures WayOut(s, s')
  {
  }

  lemma SendWayOut(c: Config, s: State, s': State)
    requires ValidConfig(c) && |s.core.workers| == c.workers && DispatcherStep(c, s, s') && !InLoop(s'.core.pc)
    requires s.core.pc.Dispatching? || s.core.pc.Rotating?
    ensures WayOut(s, s')
  {
    hide HashToWorker, HasRoom, WithMessage;
  }

  lemma FrameWayOut(c: Config, s: State, s': State)
    requires ValidConfig(c) && |s.core.workers| == c.workers && DispatcherStep(c, s, s') && !InLoop(s'.core.pc)
    requires s.core.pc.Collecting? || s.core.pc.Sending?
    requires (s.h.drained ==> Drained(s)) && (s.h.drained <==> IsLast(s.core.pc))
    ensures WayOut(s, s')
  {
    hide FrameOf, Refill;
  }

  /** What no step of the dispatcher undoes. */
  predicate Onward(s: State, s': State) {
    && s'.source.isShutdown == s.source.isShutdown
    && (s.flag ==> s'.flag)
    && (s.h.failed ==> s'.h.failed)
    && (s.source.q == [] ==> s'.source.q == [])
    && (s'.h.failed ==> s.h.failed || s'.flag)
    && (s'.h.lost == s.h.lost || s'.h.failed)
  }

  lemma LoopStepOnward(c: Config, s: State, s': State)
    requires ValidConfig(c) && |s.core.workers| == c.workers && DispatcherStep(c, s, s')
    requires s.core.pc.Polling? || s.core.pc.Checked? || s.core.pc.Popping? || s.core.pc.Timing?
    ensures Onward(s, s')
  {
  }

  lemma SendStepOnward(c: Config, s: State, s': State)
    requires ValidConfig(c) && |s.core.workers| == c.workers && DispatcherStep(c, s, s')
    requires s.core.pc.Dispatching? || s.core.pc.Rotating? || s.core.pc.Closing?
    ensures Onward(s, s')
  {
    hide HashToWorker, Dispatched, Sent, HasRoom;
  }

  lemma FrameStepOnward(c: Config, s: State, s': State)
    requires ValidConfig(c) && |s.core.workers| == c.workers && DispatcherStep(c, s, s')
    requires s.core.pc.Collecting? || s.core.pc.Sending?
    ensures Onward(s, s')
  {
    hide FrameOf, TookReport, Reopened;
  }

  lemma DispatcherStepOnward(c: Config, s: State, s': State)
    requires ValidConfig(c) && |s.core.workers| == c.workers && DispatcherStep(c, s, s')
    ensures Onward(s, s')
  {
    assert !s.core.pc.Done?;
    hide DispatcherStep, Onward;
    if s.core.pc.Collecting? || s.core.pc.Sending? {
      FrameStepOnward(c, s, s');
    } else if s.core.pc.Dispatching? || s.core.pc.Rotating? || s.core.pc.Closing? {
      SendStepOnward(c, s, s');
    } else {
      LoopStepOnward(c, s, s');
    }
  }

  /** What the workers and the surroundings leave to the dispatcher. */
  predicate Aside(s: State, s': State) {
    && s'.core.pc == s.core.pc && s'.h == s.h
    && (s.flag ==> s'.flag)
    && (s.source.isShutdown ==> s'.source == s.source)
  }

  lemma WorkerStepsAside(c: Config, s: State, s': State, w: nat)
    requires w < |s.core.workers| && (WorkerStops(s, s', w) || WorkerHandles(c, s, s', w))
    ensures Aside(s, s')
  {
    hide Handled, Stopped;
  }

  lemma SurroundingsStepAside(s: State, s': State)
    requires Environment(s, s')
    ensures Aside(s, s')
  {
    if s' == s.(source := s.source.(isShutdown := true)) && s.source.isShutdown {
      assert s.source.(isShutdown := true) == s.source;
    }
  }

  lemma OutsideStep(c: Config, s: State, s': State)
    requires ValidConfig(c) && |s.core.workers| == c.workers && Next(c, s, s') && !DispatcherStep(c, s, s')
    ensures Aside(s, s')
  {
    hide DispatcherStep, WorkerStops, WorkerHandles, Environment, Aside;
    if Environment(s, s') {
      SurroundingsStepAside(s, s');
    } else {
      var w :| 0 <= w < c.workers && (WorkerStops(s, s', w) || WorkerHandles(c, s, s', w));
      WorkerStepsAside(c, s, s', w);
    }
  }

  /** The source has been shut down, and once the loop is over without a failure nothing is left in it. */
  predicate ShutOrDrained(s: State) {
    s.source.isShutdown && (InLoop(s.core.pc) || s.h.failed || s.source.q == [])
  }

  lemma StepKeepsDraining(c: Config, s: State, s': State)
    requires Inv(c, s) && |s.core.workers| == c.workers && Next(c, s, s') && ShutOrDrained(s)
    ensures ShutOrDrained(s')
  {
    hide Inv, DispatcherStep, Next;
    InvHasConfig(c, s);
    if DispatcherStep(c, s, s') {
      DispatcherStepOnward(c, s, s');
      if InLoop(s.core.pc) && !InLoop(s'.core.pc) {
        WaysOut(c, s, s');
      } else if !InLoop(s.core.pc) {
        NextByDispatcher(c, s, s');
        OutOfLoopStep(c, s, s');
      }
    } else {
      OutsideStep(c, s, s');
    }
  }

  lemma InvHasConfig(c: Config, s: State)
    requires Inv(c, s)
    ensures ValidConfig(c)
  {
  }

  lemma NextByDispatcher(c: Config, s: State, s': State)
    requires ValidConfig(c) && |s.core.workers| == c.workers && DispatcherStep(c, s, s')
    ensures Next(c, s, s')
  {
  }

  lemma {:induction false} RunDrains(c: Config, tr: seq<State>, i: nat, j: nat)
    requires Run(c, tr) && i <= j < |tr| && ShutOrDrained(tr[i])
    ensures ShutOrDrained(tr[j])
    decreases j
  {
    hide Inv, Next, ShutOrDrained;
    if i < j {
      RunDrains(c, tr, i, j - 1);
      RunKeeps(c, tr, j - 1);
      StepKeepsDraining(c, tr[j - 1], tr[j]);
    }
  }

  /** A source that is shut down while the dispatcher is in its loop is drained: once the loop is over and nothing has
      failed, the source is empty and everything pushed has been popped; what the frames do not count is the window that
      was open. */
  lemma ShutDownSourceIsDrained(c: Config, tr: seq<State>, i: nat, j: nat)
    requires Run(c, tr) && i <= j < |tr| && tr[i].source.isShutdown && InLoop(tr[i].core.pc)
    requires !InLoop(tr[j].core.pc) && !tr[j].h.failed
    ensures var s := tr[j];
            && s.source.q == [] && s.source.totalPopped == s.source.totalPushed
            && TotalCount(s.h.frames) + |s.core.current| == s.source.totalPushed
  {
    hide CoreInv, FramesInv, Next, TotalCount;
    RunDrains(c, tr, i, j);
    RunKeeps(c, tr, j);
    EveryReadingAccounted(c, tr, j);
    NothingLost(c, tr, j);
  }

  /** The step out of the loop, taken without a failure, leaves a window open exactly if it is the flag that ends the loop
      and readings have been dispatched since the last frame. */
  lemma WayOutLeaves(c: Config, s: State, s': State)
    requires Inv(c, s) && |s.core.workers| == c.workers && DispatcherStep(c, s, s')
    requires InLoop(s.core.pc) && !InLoop(s'.core.pc) && !s'.h.failed
    ensures s'.core.current == [] <==> !(s.core.pc.Polling? && s.sawData)
  {
    hide CoreInv, FramesInv, HashToWorker, WithMessage, FrameOf, Refill, HasRoom;
  }

  lemma {:induction false} AfterTheLoop(c: Config, tr: seq<State>, k: nat, j: nat)
    requires Run(c, tr) && k <= j < |tr| && !InLoop(tr[k].core.pc)
    ensures !InLoop(tr[j].core.pc) && tr[j].h == tr[k].h && tr[j].core.current == tr[k].core.current
    decreases j
  {
    hide Next;
    if k < j {
      AfterTheLoop(c, tr, k, j - 1);
      OutOfLoopStep(c, tr[j - 1], tr[j]);
    }
  }

  /** A run whose source is shut down before its loop ends, and in which nothing fails, counts every reading ever pushed
      exactly unless the flag ends the loop while a window is open. */
  lemma ConservesExactly(c: Config, tr: seq<State>, k: nat, j: nat)
    requires Run(c, tr) && k < j < |tr| && InLoop(tr[k].core.pc) && !InLoop(tr[k + 1].core.pc)
    requires tr[k].source.isShutdown && !tr[j].h.failed
    ensures TotalCount(tr[j].h.frames) == tr[j].source.totalPushed <==> !(tr[k].core.pc.Polling? && tr[k].sawData)
  {
    hide Inv, Next, DispatcherStep, TotalCount;
    AfterTheLoop(c, tr, k + 1, j);
    ShutDownSourceIsDrained(c, tr, k, j);
    RunKeeps(c, tr, k);
    if !DispatcherStep(c, tr[k], tr[k + 1]) {
      OutsideStep(c, tr[k], tr[k + 1]);
      assert false;
    }
    WayOutLeaves(c, tr[k], tr[k + 1]);
  }

  /** A reading is lost only with a failure. */
  lemma {:induction false} NothingLost(c: Config, tr: seq<State>, n: nat)
    requires Run(c, tr) && n < |tr|
    ensures tr[n].h.lost != [] ==> tr[n].h.failed
    ensures tr[n].h.failed ==> tr[n].flag
  {
    hide Inv, Next, DispatcherStep;
    if n > 0 {
      NothingLost(c, tr, n - 1);
      if DispatcherStep(c, tr[n - 1], tr[n]) {
        DispatcherStepOnward(c, tr[n - 1], tr[n]);
      } else {
        OutsideStep(c, tr[n - 1], tr[n]);
      }
    }
  }

  // ---------- Without the flag ----------

  /** Out of the loop, without a failure, and not by the flag: then by a drained source. */
  predicate OutByDrain(s: State) {
    InLoop(s.core.pc) || s.h.failed || s.h.drained
  }

  lemma StepKeepsOutByDrain(c: Config, s: State, s': State)
    requires Inv(c, s) && |s.core.workers| == c.workers && Next(c, s, s') && OutByDrain(s)
    requires InLoop(s.core.pc) ==> !s.flag
    ensures OutByDrain(s')
  {
    hide Inv, DispatcherStep, Next;
    InvHasConfig(c, s);
    if DispatcherStep(c, s, s') {
      if InLoop(s.core.pc) && !InLoop(s'.core.pc) {
        WaysOut(c, s, s');
      } else if !InLoop(s.core.pc) {
        NextByDispatcher(c, s, s');
        OutOfLoopStep(c, s, s');
      }
    } else {
      OutsideStep(c, s, s');
    }
  }

  lemma {:induction false} RunOutByDrain(c: Config, tr: seq<State>, n: nat)
    requires Run(c, tr) && n < |tr| && forall k :: 0 <= k < n && InLoop(tr[k].core.pc) ==> !tr[k].flag
    ensures OutByDrain(tr[n])
  {
    hide Inv, Next;
    if n > 0 {
      RunOutByDrain(c, tr, n - 1);
      RunKeeps(c, tr, n - 1);
      StepKeepsOutByDrain(c, tr[n - 1], tr[n]);
    }
  }

  /** A run in which the flag is not raised while the dispatcher is in its loop, and nothing fails, counts every reading
      ever pushed once the loop is over. */
  lemma UnflaggedRunConserves(c: Config, tr: seq<State>, n: nat)
    requires Run(c, tr) && n < |tr| && !InLoop(tr[n].core.pc) && !tr[n].h.failed
    requires forall k :: 0 <= k < n && InLoop(tr[k].core.pc) ==> !tr[k].flag
    ensures TotalCount(tr[n].h.frames) == tr[n].source.totalPopped == tr[n].source.totalPushed
  {
    hide Inv, Next, TotalCount;
    RunOutByDrain(c, tr, n);
    GracefulDrainConserves(c, tr, n);
  }

  // ---------- With the flag ----------

  const ONE_WORKER := Config(1, 1, 1, Detector(3.0, 2), _ => 0)

  const READING := Reading("a", 0, 1.0)

  // One reading arrives, is popped and dispatched; the source is shut down; the flag goes up; the dispatcher checks it.

  function SourceWith(q: seq<Reading>, shut: bool, popped: nat): Buffer.Inner<Reading> {
    Buffer.Inner(q, shut, 1, 1, popped, 0, 0, 0, 0)
  }

  /** Before the reading is sent. */
  function Before(pc: Dispatcher, q: seq<Reading>, popped: seq<Reading>): State {
    Start(ONE_WORKER).(core := Start(ONE_WORKER).core.(pc := pc), source := SourceWith(q, false, |popped|),
                       h := Start(ONE_WORKER).h.(popped := popped))
  }

  /** After it. */
  function Afterwards(pc: Dispatcher, shut: bool, flag: bool): State {
    var s := Before(Dispatching(READING), [], [READING]);
    s.(core := Dispatched(ONE_WORKER, s.core, READING).(pc := pc), sawData := true,
       source := SourceWith([], shut, 1), flag := flag)
  }

  function FlaggedRun(): seq<State> {
    [Start(ONE_WORKER), Before(Polling, [READING], []), Before(Checked, [READING], []), Before(Popping, [READING], []),
     Before(Dispatching(READING), [], [READING]), Afterwards(Timing, false, false), Afterwards(Polling, false, false),
     Afterwards(Polling, true, false), Afterwards(Polling, true, true), Afterwards(Closing(0), true, true)]
  }

  lemma ArrivalStep()
    ensures Next(ONE_WORKER, Start(ONE_WORKER), Before(Polling, [READING], []))
  {
    hide DispatcherStep;
    var s := Start(ONE_WORKER);
    assert [] + [READING] == [READING];
    assert s.(source := Buffer.Stores(s.source, READING)) == Before(Polling, [READING], []);
  }

  lemma PopSteps()
    ensures DispatcherStep(ONE_WORKER, Before(Polling, [READING], []), Before(Checked, [READING], []))
    ensures DispatcherStep(ONE_WORKER, Before(Checked, [READING], []), Before(Popping, [READING], []))
    ensures DispatcherStep(ONE_WORKER, Before(Popping, [READING], []), Before(Dispatching(READING), [], [READING]))
  {
    hide Start;
    StartIs();
    assert [READING][1..] == [] && [] + [READING] == [READING];
  }

  lemma StartIs()
    ensures Start(ONE_WORKER) == State(Core([NewWorker()], [], Polling, []), 0, false, false, Buffer.Empty(), 0, true,
                                       History([], [], [], [], false, false))
  {
  }

  lemma SendSteps()
    ensures DispatcherStep(ONE_WORKER, Before(Dispatching(READING), [], [READING]), Afterwards(Timing, false, false))
    ensures DispatcherStep(ONE_WORKER, Afterwards(Timing, false, false), Afterwards(Polling, false, false))
  {
    hide Start, WithMessage;
    StartIs();
  }

  lemma EndSteps()
    ensures Environment(Afterwards(Polling, false, false), Afterwards(Polling, true, false))
    ensures Environment(Afterwards(Polling, true, false), Afterwards(Polling, true, true))
    ensures DispatcherStep(ONE_WORKER, Afterwards(Polling, true, true), Afterwards(Closing(0), true, true))
  {
    hide Start, Dispatched;
    StartIs();
    DispatchedWorkers();
  }

  lemma DispatchedWorkers()
    ensures |Before(Dispatching(READING), [], [READING]).core.workers| == 1
    ensures |Afterwards(Polling, true, true).core.workers| == 1
  {
  }

  /** A drained source does not save the last window from the flag: a run that fails nowhere, drains its source, and counts
      none of what was pushed. */
  lemma FlagLosesOpenWindow()
    ensures Run(ONE_WORKER, FlaggedRun()) && |FlaggedRun()| == 10
    ensures var s := FlaggedRun()[9];
            && FlaggedRun()[7].source.isShutdown && InLoop(FlaggedRun()[7].core.pc)
            && !InLoop(s.core.pc) && !s.h.failed && s.source.q == []
            && s.source.totalPushed == 1 && TotalCount(s.h.frames) == 0
  {
    hide DispatcherStep, Environment, Start, Dispatched, PopSource;
    StartIs();
    ArrivalStep();
    PopSteps();
    SendSteps();
    EndSteps();
    FlaggedWorkers();
  }

  lemma FlaggedWorkers()
    ensures forall i :: 0 <= i < 10 ==> |FlaggedRun()[i].core.workers| == 1
  {
  }

  // ---------- What the dispatcher can wait for ----------

  predicate Full(c: Config, k: Worker) {
    k.alive && |k.inbox| >= c.inboxCapacity
  }

  /** The dispatcher waits for a living worker with a full inbox, or for a consumer that has not gone. */
  predicate Waits(c: Config, s: State)
    requires ValidConfig(c) && |s.core.workers| == c.workers
  {
    match s.core.pc
    case Dispatching(r) => Full(c, s.core.workers[HashToWorker(c, r.sensorId)])
    case Rotating(next, _) => next < c.workers && Full(c, s.core.workers[next])
    case Closing(next) => next < c.workers && Full(c, s.core.workers[next])
    case Sending(_, _) => s.outputOpen && |s.h.frames| - s.delivered >= c.outputCapacity
    case _ => false
  }

  /** In every other place but the end it can take a step, whatever the workers and the consumer do. */
  lemma DispatcherMovesExactly(c: Config, s: State)
    requires ValidConfig(c) && |s.core.workers| == c.workers
    ensures (exists s' :: DispatcherStep(c, s, s')) <==> !s.core.pc.Done? && !Waits(c, s)
  {
    if !s.core.pc.Done? && !Waits(c, s) {
      var s' := SomeStep(c, s);
      assert DispatcherStep(c, s, s');
    }
  }

  function SomeStep(c: Config, s: State): State
    requires ValidConfig(c) && |s.core.workers| == c.workers
  {
    var k := s.core;
    match k.pc
    case Polling => CheckFlag(s)
    case Checked => CheckDrained(s)
    case Popping => GoTo(s, Timing)
    case Dispatching(r) =>
      if k.workers[HashToWorker(c, r.sensorId)].alive then s.(core := Dispatched(c, k, r), sawData := true)
      else Fail(s).(h := s.h.(failed := true, lost := s.h.lost + [r]))
    case Timing => GoTo(s, Polling)
    case Rotating(i, last) =>
      if i >= c.workers then GoTo(s, Collecting([], last))
      else if k.workers[i].alive then s.(core := Sent(k, i, Rotate, Rotating(i + 1, last)))
      else Fail(s)
    case Collecting(got, last) =>
      if |got| == c.workers then GoTo(s, Sending(FrameOf(s.windowId, got), last)) else Fail(s)
    case Sending(_, _) => if s.outputOpen then FrameSent(s) else Fail(s)
    case Closing(i) =>
      if i >= c.workers then GoTo(s, Done)
      else if k.workers[i].alive then s.(core := Sent(k, i, Shutdown, Closing(i + 1)))
      else GoTo(s, Closing(i + 1))
    case Done => s
  }

  /** After a pop or a wait without one, the window may close or the loop go round, and nothing else changes; with a reading
      in the source, a pop may take it or run out of time. */
  lemma LoopGoesEitherWay(c: Config, s: State)
    requires ValidConfig(c) && |s.core.workers| == c.workers
    ensures s.core.pc.Timing? ==> forall s' :: DispatcherStep(c, s, s') <==> s' == GoTo(s, Polling) || s' == GoTo(s, Rotating(0, false))
    ensures s.core.pc.Popping? ==> DispatcherStep(c, s, GoTo(s, Timing))
    ensures s.core.pc.Popping? && s.source.q != [] ==>
              exists s' :: DispatcherStep(c, s, s') && s'.core.pc == Dispatching(s.source.q[0]) && s'.source.q == s.source.q[1..]
  {
    if s.core.pc.Popping? && s.source.q != [] {
      assert DispatcherStep(c, s, PopSource(s));
    }
  }

  // ---------- How the workers end ----------

  ghost predicate WorkerStep(c: Config, s: State, s': State, w: nat)
    requires w < |s.core.workers|
  {
    WorkerStops(s, s', w) || WorkerHandles(c, s, s', w)
  }

  /** Worker `w` can take a step. */
  ghost predicate CanStep(c: Config, s: State, w: nat)
    requires w < |s.core.workers|
  {
    exists s' :: WorkerStep(c, s, s', w)
  }

  /** In every reachable state a worker waits exactly when it is alive, the flag is down, its inbox is empty and the
      dispatcher is still there. */
  lemma WorkerMovesExactly(c: Config, tr: seq<State>, n: nat, w: nat)
    requires Run(c, tr) && n < |tr| && w < c.workers && |tr[n].core.workers| == c.workers
    ensures CanStep(c, tr[n], w) <==>
              tr[n].core.workers[w].alive && (tr[n].flag || tr[n].core.workers[w].inbox != [] || tr[n].core.pc.Done?)
  {
    var s := tr[n];
    var k := s.core.workers[w];
    if k.alive && k.inbox != [] {
      WorkersNeverBlock(c, tr, n, w);
      var s' :| WorkerHandles(c, s, s', w);
      assert WorkerStep(c, s, s', w);
    } else if k.alive && (s.flag || s.core.pc.Done?) {
      assert WorkerStep(c, s, SetWorker(s, w, Stopped(k)), w);
    }
  }

  /** Unless the flag is up, a worker leaves only with every reading it was sent handled: at a Shutdown, or with the
      dispatcher gone and no data left. */
  lemma LeavesNothingUnread(c: Config, tr: seq<State>, n: nat, s': State, w: nat)
    requires Run(c, tr) && n < |tr| && w < c.workers && |tr[n].core.workers| == c.workers && !tr[n].flag
    requires WorkerStep(c, tr[n], s', w) && w < |s'.core.workers| && !s'.core.workers[w].alive
    ensures var k := tr[n].core.workers[w];
            && k.queued == [] && (forall i :: 0 <= i < |k.inbox| ==> !k.inbox[i].Data?)
            && (tr[n].core.pc.Done? || k.inbox == [Shutdown])
  {
    hide ReportsInv, SharesInv, FramesInv, AccountInv;
    RunKeeps(c, tr, n);
    var s := tr[n];
    var k := s.core.workers[w];
    assert WorkerInv(c, s.core.pc, s.core.current, w, k);
  }

  /** What living workers still have to do: one step for each message, and one to leave. */
  function WorkLeft(workers: seq<Worker>): nat {
    if workers == [] then 0
    else
      var k := workers[|workers| - 1];
      WorkLeft(workers[..|workers| - 1]) + (if k.alive then |k.inbox| + 1 else 0)
  }

  lemma {:induction false} WorkLeftWith(workers: seq<Worker>, w: nat, k: Worker)
    requires w < |workers| && workers[w].alive && (k.alive ==> |k.inbox| < |workers[w].inbox|)
    ensures WorkLeft(workers[w := k]) < WorkLeft(workers)
  {
    var n := |workers| - 1;
    if w < n {
      assert workers[w := k][..n] == workers[..n][w := k];
      WorkLeftWith(workers[..n], w, k);
    } else {
      assert workers[w := k][..n] == workers[..n];
    }
  }

  lemma WorkerStepUsesWork(c: Config, s: State, s': State, w: nat)
    requires w < |s.core.workers| && WorkerStep(c, s, s', w)
    ensures WorkLeft(s'.core.workers) < WorkLeft(s.core.workers) && s'.core.pc == s.core.pc
  {
    hide WorkLeft;
    WorkLeftWith(s.core.workers, w, s'.core.workers[w]);
  }

  ghost predicate SomeWorkerSteps(c: Config, s: State, s': State) {
    exists w :: 0 <= w < |s.core.workers| && WorkerStep(c, s, s', w)
  }

  lemma {:induction false} WorkIsUsed(c: Config, states: seq<State>)
    requires states != [] && forall i :: 0 <= i < |states| - 1 ==> SomeWorkerSteps(c, states[i], states[i + 1])
    ensures |states| - 1 + WorkLeft(states[|states| - 1].core.workers) <= WorkLeft(states[0].core.workers)
    ensures states[|states| - 1].core.pc == states[0].core.pc
  {
    var n := |states| - 1;
    if n > 0 {
      hide WorkerStep, WorkLeft;
      assert forall i :: 0 <= i < n ==> states[..n][i] == states[i];
      WorkIsUsed(c, states[..n]);
      var w :| 0 <= w < |states[n - 1].core.workers| && WorkerStep(c, states[n - 1], states[n], w);
      WorkerStepUsesWork(c, states[n - 1], states[n], w);
    }
  }

  /** Once the dispatcher is done the workers leave, in whatever order they run: no more steps than messages and workers
      remain, and while one of them lives it can take a step. */
  lemma {:induction false} WorkersLeave(c: Config, states: seq<State>)
    requires states != [] && forall i :: 0 <= i < |states| - 1 ==> SomeWorkerSteps(c, states[i], states[i + 1])
    requires states[0].core.pc.Done?
    ensures |states| - 1 + WorkLeft(states[|states| - 1].core.workers) <= WorkLeft(states[0].core.workers)
    ensures var last := states[|states| - 1];
            forall w :: 0 <= w < |last.core.workers| && last.core.workers[w].alive ==> CanStep(c, last, w)
  {
    var last := states[|states| - 1];
    WorkIsUsed(c, states);
    hide CanStep, WorkLeft, SomeWorkerSteps;
    forall w | 0 <= w < |last.core.workers| && last.core.workers[w].alive
      ensures CanStep(c, last, w)
    {
      LivingWorkerMoves(c, last, w);
    }
  }

  lemma LivingWorkerMoves(c: Config, s: State, w: nat)
    requires s.core.pc.Done? && w < |s.core.workers| && s.core.workers[w].alive
    ensures CanStep(c, s, w)
  {
    var k := s.core.workers[w];
    var k' := if k.inbox == [] || k.inbox[0].Rotate? then Stopped(k) else Handled(c.detector, k);
    assert WorkerStep(c, s, SetWorker(s, w, k'), w);
  }

  /** A waiting send cannot wait for ever: the worker it waits for has a message and can handle it. */
  lemma FullWorkerCanMove(c: Config, tr: seq<State>, n: nat, w: nat)
    requires Run(c, tr) && n < |tr| && w < c.workers
    requires |tr[n].core.workers| == c.workers && Full(c, tr[n].core.workers[w])
    ensures exists s' :: WorkerHandles(c, tr[n], s', w)
  {
    hide WorkerHandles;
    WorkersNeverBlock(c, tr, n, w);
  }
}
