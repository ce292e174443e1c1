/** The dispatcher, its workers and the channels between them (`AggregationEngine::start` in
    `gateway/src/aggregation.rs`), as a transition system over every interleaving.

    The dispatcher routes each reading to a worker's bounded inbox; to close a window it sends `Rotate` to
    every worker, collects one report for each, and sends the merged frame on, or gives up for good.
    Fields marked "history" record what happened. Only the number of frames sent influences a step: less the frames
    delivered, it is how full the output channel is.
 */
module WindowProtocol {
  import opened SensorStatistics
  import opened Aggregation
  import Buffer = BoundedBuffer

  /** `hash` stands for the standard library's hasher, which is not part of this model. */
  datatype Config = Config(workers: nat, inboxCapacity: nat, outputCapacity: nat, detector: Detector, hash: string -> nat)

  /** What `start` asserts. */
  predicate ValidConfig(c: Config) {
    c.workers > 0 && c.inboxCapacity > 0 && c.outputCapacity > 0
  }

  function HashToWorker(c: Config, sid: string): (w: nat)
    requires ValidConfig(c)
    ensures w < c.workers && c.hash(sid) == c.hash(sid) / c.workers * c.workers + w
  {
    c.hash(sid) % c.workers
  }

  datatype Frame = Frame(windowId: nat, perSensor: Bucket, anomalies: seq<AnomalyRecord>, contributors: seq<nat>)

  /** A report in the channel; the sending worker's number is history. */
  datatype Tagged = Tagged(worker: nat, report: WindowReport)

  /** History: how far a worker is with the current window. */
  datatype Phase = Filling | Owing | Answered

  datatype Worker = Worker(
    inbox: seq<WorkerMsg>,
    local: WindowReport,
    alive: bool,
    phase: Phase,            // history
    absorbed: seq<Reading>,  // history: handled since its last Rotate
    queued: seq<Reading>)    // history: the data in its inbox

  datatype Dispatcher =
    | Polling                       // at the loop's shutdown check
    | Checked                       // past it, at the source_drained check
    | Popping                       // at pop_timeout
    | Dispatching(reading: Reading) // about to send it to its worker
    | Timing                        // at the elapsed check
    | Rotating(next: nat, last: bool)  // sending Rotate to worker `next`; `last` if the source is drained
    | Collecting(got: seq<Tagged>, last: bool)
    | Sending(frame: Frame, last: bool)
    | Closing(next: nat)            // out of the loop, sending Shutdown to worker `next`
    | Done

  /** The part of the state the current window lives in. */
  datatype Core = Core(
    workers: seq<Worker>,
    reports: seq<Tagged>,   // the report channel
    pc: Dispatcher,
    current: seq<Reading>)  // history: the readings dispatched since the last frame

  datatype History = History(
    frames: seq<Frame>,         // every frame sent
    windows: seq<seq<Reading>>, // the readings dispatched for each of them
    popped: seq<Reading>,       // every reading taken from the source
    lost: seq<Reading>,         // a reading whose send failed
    failed: bool,               // some send or collection failed
    drained: bool)              // the loop ended because the source was shut down and empty

  datatype State = State(
    core: Core,
    windowId: nat,
    sawData: bool,
    flag: bool,                    // the engine's shutdown flag
    source: Buffer.Inner<Reading>,
    delivered: nat,                // frames the consumer has received
    outputOpen: bool,
    h: History)

  function NewWorker(): Worker {
    Worker([], EMPTY_REPORT, true, Filling, [], [])
  }

  function Start(c: Config): State {
    State(Core(seq(c.workers, _ => NewWorker()), [], Polling, []), 0, false, false, Buffer.Empty(), 0, true,
          History([], [], [], [], false, false))
  }

  // ---------- Steps on the core ----------

  predicate HasRoom(c: Config, k: Worker) {
    k.alive && |k.inbox| < c.inboxCapacity
  }

  function WithMessage(k: Worker, m: WorkerMsg): Worker {
    match m
    case Data(r) => k.(inbox := k.inbox + [m], queued := k.queued + [r])
    case Rotate => k.(inbox := k.inbox + [m], phase := Owing)
    case Shutdown => k.(inbox := k.inbox + [m])
  }

  /** Message `m` goes to worker `w`, and the dispatcher to `pc`. */
  function Sent(k: Core, w: nat, m: WorkerMsg, pc: Dispatcher): Core
    requires w < |k.workers|
  {
    k.(workers := k.workers[w := WithMessage(k.workers[w], m)], pc := pc)
  }

  function Dispatched(c: Config, k: Core, r: Reading): Core
    requires ValidConfig(c) && |k.workers| == c.workers
  {
    Sent(k, HashToWorker(c, r.sensorId), Data(r), Timing).(current := k.current + [r])
  }

  function ReportsIn(tagged: seq<Tagged>): seq<WindowReport> {
    seq(|tagged|, i requires 0 <= i < |tagged| => tagged[i].report)
  }

  function WorkersIn(tagged: seq<Tagged>): seq<nat> {
    seq(|tagged|, i requires 0 <= i < |tagged| => tagged[i].worker)
  }

  function FrameOf(windowId: nat, got: seq<Tagged>): Frame {
    var window := Reduced(ReportsIn(got));
    Frame(windowId, window.bucket, window.anomalies, WorkersIn(got))
  }

  /** The coordinator takes the oldest report in the channel. */
  function TookReport(k: Core): Core
    requires k.pc.Collecting? && k.reports != []
  {
    k.(reports := k.reports[1..], pc := Collecting(k.pc.got + [k.reports[0]], k.pc.last))
  }

  function Refill(workers: seq<Worker>): seq<Worker> {
    seq(|workers|, w requires 0 <= w < |workers| => workers[w].(phase := Filling))
  }

  /** The next window opens. */
  function Reopened(k: Core): Core {
    Core(Refill(k.workers), k.reports, Polling, [])
  }

  function Stopped(k: Worker): Worker {
    k.(alive := false, inbox := [])
  }

  /** A worker after the message at the head of its inbox. */
  function Handled(det: Detector, k: Worker): Worker
    requires k.inbox != []
  {
    var rest := k.(inbox := k.inbox[1..]);
    match k.inbox[0]
    case Data(r) =>
      rest.(local := Absorbed(det, k.local, r), absorbed := k.absorbed + [r],
            queued := if k.queued == [] then [] else k.queued[1..])
    case Rotate => rest.(local := EMPTY_REPORT, absorbed := [], phase := Answered)
    case Shutdown => Stopped(k)
  }

  // ---------- Steps of the dispatcher ----------

  function GoTo(s: State, pc: Dispatcher): State {
    s.(core := s.core.(pc := pc))
  }

  function Fail(s: State): State {
    GoTo(s, Closing(0)).(flag := true, h := s.h.(failed := true))
  }

  function CheckFlag(s: State): State {
    GoTo(s, if s.flag && !(s.source.isShutdown && s.source.q != []) then Closing(0) else Checked)
  }

  function CheckDrained(s: State): State {
    if s.source.isShutdown && s.source.q == []
    then GoTo(s, if s.sawData then Rotating(0, true) else Closing(0)).(h := s.h.(drained := true))
    else GoTo(s, Popping)
  }

  function PopSource(s: State): State
    requires s.source.q != []
  {
    var r := s.source.q[0];
    GoTo(s, Dispatching(r)).(source := Buffer.Takes(s.source), h := s.h.(popped := s.h.popped + [r]))
  }

  /** A frame has gone out: the loop goes round, or ends if the source is drained. */
  function FrameSent(s: State): State
    requires s.core.pc.Sending?
  {
    var sent := s.(h := s.h.(frames := s.h.frames + [s.core.pc.frame], windows := s.h.windows + [s.core.current]));
    if s.core.pc.last then sent.(core := s.core.(pc := Closing(0), current := []))
    else sent.(core := Reopened(s.core), windowId := s.windowId + 1, sawData := false)
  }

  /** One step of the dispatcher thread. A send waits while the inbox is full, and fails if the worker is
      gone; `pop_timeout` may return None, and a receive may time out, at any moment. */
  ghost predicate DispatcherStep(c: Config, s: State, s': State)
    requires ValidConfig(c) && |s.core.workers| == c.workers
  {
    var k := s.core;
    match k.pc
    case Polling => s' == CheckFlag(s)
    case Checked => s' == CheckDrained(s)
    case Popping => s' == GoTo(s, Timing) || (s.source.q != [] && s' == PopSource(s))
    case Dispatching(r) =>
      var target := k.workers[HashToWorker(c, r.sensorId)];
      || (HasRoom(c, target) && s' == s.(core := Dispatched(c, k, r), sawData := true))
      || (!target.alive && s' == Fail(s).(h := s.h.(failed := true, lost := s.h.lost + [r])))
    case Timing => s' == GoTo(s, Polling) || s' == GoTo(s, Rotating(0, false))
    case Rotating(i, last) =>
      if i >= c.workers then s' == GoTo(s, Collecting([], last))
      else
        || (HasRoom(c, k.workers[i]) && s' == s.(core := Sent(k, i, Rotate, Rotating(i + 1, last))))
        || (!k.workers[i].alive && s' == Fail(s))
    case Collecting(got, last) =>
      if |got| == c.workers then s' == GoTo(s, Sending(FrameOf(s.windowId, got), last))
      else (k.reports != [] && s' == s.(core := TookReport(k))) || s' == Fail(s)
    case Sending(_, _) =>
      || (s.outputOpen && |s.h.frames| - s.delivered < c.outputCapacity && s' == FrameSent(s))
      || (!s.outputOpen && s' == Fail(s))
    case Closing(i) =>
      if i >= c.workers then s' == GoTo(s, Done)
      else
        || (HasRoom(c, k.workers[i]) && s' == s.(core := Sent(k, i, Shutdown, Closing(i + 1))))
        || (!k.workers[i].alive && s' == GoTo(s, Closing(i + 1)))
    case Done => false
  }

  // ---------- Steps of a worker ----------

  function SetWorker(s: State, w: nat, k: Worker): State
    requires w < |s.core.workers|
  {
    s.(core := s.core.(workers := s.core.workers[w := k]))
  }

  /** A worker leaves when it reads the flag, or when its inbox is empty and the dispatcher is gone. */
  ghost predicate WorkerStops(s: State, s': State, w: nat)
    requires w < |s.core.workers|
  {
    var k := s.core.workers[w];
    && k.alive && (s.flag || (s.core.pc.Done? && k.inbox == []))
    && s' == SetWorker(s, w, Stopped(k))
  }

  /** The state after worker `w` hands its map over: Rotate puts a report in the channel. */
  function Reported(det: Detector, k: Core, w: nat): Core
    requires w < |k.workers| && k.workers[w].inbox != []
  {
    k.(workers := k.workers[w := Handled(det, k.workers[w])], reports := k.reports + [Tagged(w, k.workers[w].local)])
  }

  /** A worker handles the message at the head of its inbox; a report waits for room in the channel, and its
      send fails if the dispatcher is gone. */
  ghost predicate WorkerHandles(c: Config, s: State, s': State, w: nat)
    requires w < |s.core.workers|
  {
    var k := s.core.workers[w];
    && k.alive && k.inbox != []
    && if !k.inbox[0].Rotate? then s' == SetWorker(s, w, Handled(c.detector, k))
       else if s.core.pc.Done? then s' == SetWorker(s, w, Stopped(k))
       else |s.core.reports| < 2 * c.workers && s' == s.(core := Reported(c.detector, s.core, w))
  }

  // ---------- Steps of the surroundings ----------

  /** Readings arrive, the source or the engine is shut down, the consumer takes a frame or goes away. */
  ghost predicate Environment(s: State, s': State) {
    || (exists r :: !s.source.isShutdown && s' == s.(source := Buffer.Stores(s.source, r)))
    || s' == s.(source := s.source.(isShutdown := true))
    || s' == s.(flag := true)
    || (s.delivered < |s.h.frames| && s' == s.(delivered := s.delivered + 1))
    || s' == s.(outputOpen := false)
  }

  ghost predicate Next(c: Config, s: State, s': State)
    requires ValidConfig(c) && |s.core.workers| == c.workers
  {
    || DispatcherStep(c, s, s')
    || (exists w :: 0 <= w < c.workers && (WorkerStops(s, s', w) || WorkerHandles(c, s, s', w)))
    || Environment(s, s')
  }

  ghost predicate Run(c: Config, tr: seq<State>) {
    && ValidConfig(c) && tr != [] && tr[0] == Start(c)
    && forall i :: 0 <= i < |tr| - 1 ==> |tr[i].core.workers| == c.workers && Next(c, tr[i], tr[i + 1])
  }

  // ---------- The invariant ----------

  /** The readings of `rs` that go to worker `w`. */
  function Routed(c: Config, rs: seq<Reading>, w: nat): seq<Reading>
    requires ValidConfig(c)
  {
    if rs == [] then []
    else
      var r := rs[|rs| - 1];
      Routed(c, rs[..|rs| - 1], w) + if HashToWorker(c, r.sensorId) == w then [r] else []
  }

  function DataMessages(rs: seq<Reading>): seq<WorkerMsg> {
    seq(|rs|, i requires 0 <= i < |rs| => Data(rs[i]))
  }

  predicate InLoop(pc: Dispatcher) {
    !pc.Closing? && !pc.Done?
  }

  /** Whether the dispatcher has sent Shutdown to worker `w`. */
  predicate ToldToStop(pc: Dispatcher, w: nat) {
    pc.Done? || (pc.Closing? && w < pc.next)
  }

  /** The phase of worker `w` while the dispatcher is in its loop. */
  predicate PhaseFits(pc: Dispatcher, w: nat, phase: Phase) {
    match pc
    case Rotating(next, _) => (w < next <==> phase != Filling)
    case Collecting(_, _) => phase != Filling
    case Sending(_, _) => phase.Answered?
    case Closing(_) => true
    case Done => true
    case _ => phase == Filling
  }

  /** An inbox holding `queued`, then the Rotate owed if there is one, then Shutdown if it has been sent. */
  function InboxOf(queued: seq<Reading>, phase: Phase, told: bool): seq<WorkerMsg> {
    DataMessages(queued) + (if phase.Owing? then [Rotate] else []) + (if told then [Shutdown] else [])
  }

  /** A living worker's inbox is the queued data, then a pending Rotate, then Shutdown; its map is the report
      of what it has absorbed; and until it answers, absorbed and queued are its share of the window. */
  predicate WorkerInv(c: Config, pc: Dispatcher, current: seq<Reading>, w: nat, k: Worker)
    requires ValidConfig(c)
  {
    && PhaseFits(pc, w, k.phase)
    && (k.alive ==>
          && k.inbox == InboxOf(k.queued, k.phase, ToldToStop(pc, w))
          && k.local == Report(c.detector, k.absorbed)
          && (InLoop(pc) && !k.phase.Answered? ==> k.absorbed + k.queued == Routed(c, current, w))
          && (k.phase.Answered? ==> k.absorbed == [] && k.queued == []))
  }

  function TakenReports(pc: Dispatcher): seq<Tagged> {
    if pc.Collecting? then pc.got else []
  }

  /** The reports answered for this window: those collected, then those still in the channel. */
  function AnsweredReports(k: Core): seq<Tagged> {
    TakenReports(k.pc) + k.reports
  }

  ghost predicate Distinct(ts: seq<Tagged>) {
    forall i, j :: 0 <= i < j < |ts| ==> ts[i].worker != ts[j].worker
  }

  /** Every report not yet consumed comes from a different worker, and is exactly its share of the window. */
  ghost predicate ReportsInv(workers: seq<Worker>, ts: seq<Tagged>) {
    && Distinct(ts)
    && forall i :: 0 <= i < |ts| ==> ts[i].worker < |workers| && workers[ts[i].worker].phase.Answered?
  }

  ghost predicate SharesInv(c: Config, current: seq<Reading>, ts: seq<Tagged>)
    requires ValidConfig(c)
  {
    forall i :: 0 <= i < |ts| ==> ts[i].report == Report(c.detector, Routed(c, current, ts[i].worker))
  }

  /** A frame is the sequential pass over its window, built from one report of every worker. */
  ghost predicate FrameExact(c: Config, f: Frame, window: seq<Reading>) {
    && f.perSensor == BucketOf(window)
    && multiset(f.anomalies) == multiset(AnomaliesOf(c.detector, window))
    && |f.contributors| == c.workers
    && (forall w :: w in f.contributors ==> w < c.workers)
    && (forall i, j :: 0 <= i < j < |f.contributors| ==> f.contributors[i] != f.contributors[j])
  }

  /** Workers and reports, within the current window. */
  ghost predicate CoreInv(c: Config, k: Core)
    requires ValidConfig(c)
  {
    && |k.workers| == c.workers
    && (forall w :: 0 <= w < c.workers ==> WorkerInv(c, k.pc, k.current, w, k.workers[w]))
    && ReportsInv(k.workers, AnsweredReports(k))
    && (InLoop(k.pc) ==> SharesInv(c, k.current, AnsweredReports(k)))
    && (k.pc.Collecting? ==> |k.pc.got| <= c.workers)
    && (k.pc.Sending? ==> k.reports == [])
  }

  ghost predicate FramesInv(c: Config, s: State) {
    && |s.h.frames| == |s.h.windows|
    && (forall i :: 0 <= i < |s.h.frames| ==> s.h.frames[i].windowId == i && FrameExact(c, s.h.frames[i], s.h.windows[i]))
    && (InLoop(s.core.pc) ==> s.windowId == |s.h.frames|)
    && (s.core.pc.Sending? ==> s.core.pc.frame.windowId == s.windowId && FrameExact(c, s.core.pc.frame, s.core.current))
  }

  function InFlight(pc: Dispatcher): seq<Reading> {
    if pc.Dispatching? then [pc.reading] else []
  }

  /** Whether the dispatcher is closing the final window of a drained source. */
  predicate IsLast(pc: Dispatcher) {
    (pc.Rotating? || pc.Collecting? || pc.Sending?) && pc.last
  }

  /** Every reading popped is in an emitted window, in the current one, in the dispatcher's hands, or lost. */
  ghost predicate AccountInv(s: State) {
    var pc := s.core.pc;
    && s.h.popped == Flatten(s.h.windows) + s.core.current + InFlight(pc) + s.h.lost
    && s.source.totalPopped == |s.h.popped|
    && s.source.totalPushed == |s.h.popped| + |s.source.q|
    && (InLoop(pc) ==> s.h.lost == [] && !s.h.failed && (s.sawData <==> s.core.current != []))
    && (InLoop(pc) ==> (s.h.drained <==> IsLast(pc)))
    && (s.h.drained ==> s.source.isShutdown && s.source.q == [])
    && (s.h.drained && !InLoop(pc) && !s.h.failed ==> s.core.current == [] && s.h.lost == [])
    && s.delivered <= |s.h.frames|
  }

  ghost predicate Inv(c: Config, s: State) {
    ValidConfig(c) && CoreInv(c, s.core) && FramesInv(c, s) && AccountInv(s)
  }
}
