/** Many threads on one bounded queue (`gateway/src/buffer.rs`): every interleaving of critical sections,
    with barging, spurious wakeups, timeouts, and a `notify_one` that is issued only after the lock has been
    released.
 */
module BufferMonitor {
  import opened Common
  import opened BoundedBuffer

  type Tid = nat

  /** Where a thread is between critical sections; a thread in no map entry is outside every call. */
  datatype Place<T> =
    | WaitsFull(item: T)     // parked on `not_full`
    | WokenFull(item: T)     // out of that wait, not yet holding the lock again
    | WaitsEmpty(timed: bool) // parked on `not_empty`, in `pop_timeout` if `timed`
    | WokenEmpty(timed: bool)
    | Expired                // `wait_timeout` ran out; will return None once it has the lock
    | OwesNotEmpty           // stored an item and released the lock, `not_empty.notify_one()` still to come
    | OwesNotFull

  datatype State<T> = State(
    capacity: nat,
    g: Inner<T>,
    at: map<Tid, Place<T>>,
    pushed: seq<T>,   // every item ever stored, in lock order
    popped: seq<T>)   // every item ever taken, in lock order

  predicate Init<T(==)>(s: State<T>) {
    s.capacity > 0 && s.g == Empty() && s.at == map[] && s.pushed == [] && s.popped == []
  }

  // ---------- Steps ----------

  /** Thread `t` runs one section of `push` with `item`. */
  function PushRound<T>(s: State<T>, t: Tid, item: T): State<T> {
    var s' := s.(g := AfterPush(s.g, s.capacity, item));
    match PushOutcomeOf(s.g, s.capacity)
    case Refused => s'.(at := s.at - {t})
    case ParkedFull => s'.(at := s.at[t := WaitsFull(item)])
    case Stored => s'.(at := s.at[t := OwesNotEmpty], pushed := s.pushed + [item])
  }

  /** Thread `t` runs one section of `pop_blocking`, or of `pop_timeout` with time remaining. */
  function PopRound<T>(s: State<T>, t: Tid, timed: bool): State<T> {
    var s' := s.(g := AfterPop(s.g));
    match PopOutcomeOf(s.g)
    case Nothing => s'.(at := s.at - {t})
    case ParkedEmpty => s'.(at := s.at[t := WaitsEmpty(timed)])
    case Taken(item) => s'.(at := s.at[t := OwesNotFull], popped := s.popped + [item])
  }

  function Leave<T>(s: State<T>, t: Tid): State<T> {
    s.(at := s.at - {t})
  }

  /** Thread `t` has the lock back after waiting for `ns` nanoseconds. */
  function Waited<T>(s: State<T>, t: Tid, ns: nat): State<T>
    requires t in s.at
  {
    s.(g := if s.at[t].WokenFull? then PushWaited(s.g, ns) else PopWaited(s.g, ns))
  }

  function WokenPlace<T>(p: Place<T>): Place<T> {
    match p
    case WaitsFull(item) => WokenFull(item)
    case WaitsEmpty(timed) => WokenEmpty(timed)
    case _ => p
  }

  function WakeAll<T>(at: map<Tid, Place<T>>): map<Tid, Place<T>> {
    map t | t in at :: WokenPlace(at[t])
  }

  datatype Step<T> =
    | Push(t: Tid, item: T)
    | TryPush(t: Tid, item: T)
    | Pop(t: Tid, timed: bool)
    | PopNoTime(t: Tid, waitedNs: nat)  // `pop_timeout` finds the queue empty with no time remaining
    | TryPop(t: Tid)
    | Shutdown
    | Resume(t: Tid, waitedNs: nat)  // a woken thread gets the lock back and goes round its loop
    | Expire(t: Tid)           // a timed wait runs out
    | ReturnExpired(t: Tid, waitedNs: nat)
    | Notify(t: Tid, woken: Tid)  // the owed `notify_one`; `woken` is the waiter chosen, if there is one
    | Spurious(t: Tid)

  predicate WaitsOn<T>(s: State<T>, t: Tid, owed: Place<T>) {
    t in s.at && if owed.OwesNotEmpty? then s.at[t].WaitsEmpty? else s.at[t].WaitsFull?
  }

  predicate Enabled<T>(s: State<T>, step: Step<T>) {
    match step
    case Push(t, _) => t !in s.at
    case TryPush(t, _) => t !in s.at
    case Pop(t, _) => t !in s.at
    case PopNoTime(t, ns) => (if t in s.at then s.at[t] == WokenEmpty(true) else ns == 0) && s.g.q == [] && !s.g.isShutdown
    case TryPop(t) => t !in s.at
    case Shutdown => true
    case Resume(t, _) => t in s.at && (s.at[t].WokenFull? || s.at[t].WokenEmpty?)
    case Expire(t) => t in s.at && s.at[t] == WaitsEmpty(true)
    case ReturnExpired(t, _) => t in s.at && s.at[t].Expired?
    case Notify(t, w) =>
      && t in s.at && (s.at[t].OwesNotEmpty? || s.at[t].OwesNotFull?)
      && (WaitsOn(s, w, s.at[t]) || forall u :: u in s.at ==> !WaitsOn(s, u, s.at[t]))
    case Spurious(t) => t in s.at && (s.at[t].WaitsFull? || s.at[t].WaitsEmpty?)
  }

  function Apply<T>(s: State<T>, step: Step<T>): State<T>
    requires Enabled(s, step)
  {
    match step
    case Push(t, item) => PushRound(s, t, item)
    case TryPush(t, item) => if PushOutcomeOf(s.g, s.capacity).Stored? then PushRound(s, t, item) else s
    case Pop(t, timed) => PopRound(s, t, timed)
    case PopNoTime(t, ns) => if t in s.at then Leave(Waited(s, t, ns), t) else s
    case TryPop(t) => if s.g.q != [] then PopRound(s, t, false) else s
    case Shutdown => s.(g := s.g.(isShutdown := true), at := WakeAll(s.at))
    case Resume(t, ns) =>
      (match s.at[t]
       case WokenFull(item) => PushRound(Waited(s, t, ns), t, item)
       case WokenEmpty(timed) => PopRound(Waited(s, t, ns), t, timed)
       case _ => s)
    case Expire(t) => s.(at := s.at[t := Expired])
    case ReturnExpired(t, ns) => Leave(Waited(s, t, ns), t)
    case Notify(t, w) =>
      var rest := s.at - {t};
      if WaitsOn(s, w, s.at[t]) then s.(at := rest[w := WokenPlace(s.at[w])]) else s.(at := rest)
    case Spurious(t) => s.(at := s.at[t := WokenPlace(s.at[t])])
  }

  /** A run: the states visited by taking `steps` from an initial state. */
  ghost predicate Run<T>(states: seq<State<T>>, steps: seq<Step<T>>) {
    && |states| == |steps| + 1
    && Init(states[0])
    && forall i :: 0 <= i < |steps| ==> Enabled(states[i], steps[i]) && states[i + 1] == Apply(states[i], steps[i])
  }

  // ---------- Counting threads by place ----------

  datatype Kind = KWaitsFull | KWokenFull | KWaitsEmpty | KWokenEmpty | KExpired | KOwesNotEmpty | KOwesNotFull

  function KindOf<T>(p: Place<T>): Kind {
    match p
    case WaitsFull(_) => KWaitsFull
    case WokenFull(_) => KWokenFull
    case WaitsEmpty(_) => KWaitsEmpty
    case WokenEmpty(_) => KWokenEmpty
    case Expired => KExpired
    case OwesNotEmpty => KOwesNotEmpty
    case OwesNotFull => KOwesNotFull
  }

  function Those<T>(at: map<Tid, Place<T>>, k: Kind): set<Tid> {
    set t | t in at && KindOf(at[t]) == k
  }

  function Count<T>(at: map<Tid, Place<T>>, k: Kind): nat {
    |Those(at, k)|
  }

  function Here<T>(at: map<Tid, Place<T>>, t: Tid, k: Kind): nat {
    if t in at && KindOf(at[t]) == k then 1 else 0
  }

  lemma CountMoved<T>(at: map<Tid, Place<T>>, t: Tid, p: Place<T>)
    ensures forall k :: Count(at[t := p], k) == Count(at, k) - Here(at, t, k) + (if KindOf(p) == k then 1 else 0)
  {
    forall k
      ensures Count(at[t := p], k) == Count(at, k) - Here(at, t, k) + (if KindOf(p) == k then 1 else 0)
    {
      var others := Those(at, k) - {t};
      assert Those(at[t := p], k) == if KindOf(p) == k then others + {t} else others;
      assert Those(at, k) == if Here(at, t, k) == 1 then others + {t} else others;
    }
  }

  lemma CountLeft<T>(at: map<Tid, Place<T>>, t: Tid)
    ensures forall k :: Count(at - {t}, k) == Count(at, k) - Here(at, t, k)
  {
    forall k
      ensures Count(at - {t}, k) == Count(at, k) - Here(at, t, k)
    {
      var others := Those(at, k) - {t};
      assert Those(at - {t}, k) == others;
      assert Those(at, k) == if Here(at, t, k) == 1 then others + {t} else others;
    }
  }

  // ---------- What every step keeps ----------

  /** While consumers wait on a non-empty queue, every item is matched by an owed notification or by a
      consumer already woken; likewise free slots for producers; after shutdown nobody waits. */
  predicate NoLostWakeup<T>(s: State<T>) {
    && (s.g.isShutdown ==> Count(s.at, KWaitsEmpty) == 0 && Count(s.at, KWaitsFull) == 0)
    && (Count(s.at, KWaitsEmpty) > 0 ==> |s.g.q| <= Count(s.at, KOwesNotEmpty) + Count(s.at, KWokenEmpty))
    && (Count(s.at, KWaitsFull) > 0 ==>
          s.capacity - |s.g.q| <= Count(s.at, KOwesNotFull) + Count(s.at, KWokenFull))
  }

  /** The locked record agrees with the history: a FIFO queue within its capacity, and exact counters. */
  predicate IsQueue<T(==)>(s: State<T>) {
    && s.capacity > 0
    && s.popped + s.g.q == s.pushed
    && s.g.totalPushed == |s.pushed|
    && s.g.totalPopped == |s.popped|
    && |s.g.q| <= s.capacity
    && |s.g.q| <= s.g.highWatermark <= s.capacity
  }

  predicate Inv<T(==)>(s: State<T>) {
    IsQueue(s) && NoLostWakeup(s)
  }

  /** Booking a wait changes its total and nothing else. */
  lemma WaitedKeeps<T>(s: State<T>, t: Tid, ns: nat)
    requires t in s.at
    ensures var s' := Waited(s, t, ns);
            s'.at == s.at && s'.g.q == s.g.q && s'.g.isShutdown == s.g.isShutdown && (Inv(s) ==> Inv(s'))
  {
    hide Count;
  }

  lemma PushRoundKeeps<T>(s: State<T>, t: Tid, item: T)
    requires Inv(s)
    requires t !in s.at || s.at[t].WokenFull?
    ensures Inv(PushRound(s, t, item))
  {
    hide Count;
    CountLeft(s.at, t);
    CountMoved(s.at, t, WaitsFull(item));
    CountMoved(s.at, t, OwesNotEmpty);
    assert s.popped + (s.g.q + [item]) == s.pushed + [item];
  }

  lemma PopRoundKeeps<T>(s: State<T>, t: Tid, timed: bool)
    requires Inv(s)
    requires t !in s.at || s.at[t].WokenEmpty?
    ensures Inv(PopRound(s, t, timed))
  {
    hide Count;
    CountLeft(s.at, t);
    CountMoved(s.at, t, WaitsEmpty(timed));
    CountMoved(s.at, t, OwesNotFull);
    if s.g.q != [] {
      assert s.popped + s.g.q == s.popped + [s.g.q[0]] + s.g.q[1..];
    }
  }

  lemma WakeAllEmptiesWaits<T>(at: map<Tid, Place<T>>)
    ensures Count(WakeAll(at), KWaitsEmpty) == 0 && Count(WakeAll(at), KWaitsFull) == 0
  {
    assert Those(WakeAll(at), KWaitsEmpty) == {};
    assert Those(WakeAll(at), KWaitsFull) == {};
  }

  lemma NotifyKeeps<T>(s: State<T>, t: Tid, w: Tid)
    requires Inv(s) && Enabled(s, Notify(t, w))
    ensures Inv(Apply(s, Notify(t, w)))
  {
    hide Count;
    CountLeft(s.at, t);
    if WaitsOn(s, w, s.at[t]) {
      CountMoved(s.at - {t}, w, WokenPlace(s.at[w]));
    } else {
      NobodyToWake(s, s.at[t]);
    }
  }

  lemma NobodyToWake<T>(s: State<T>, owed: Place<T>)
    requires forall u :: u in s.at ==> !WaitsOn(s, u, owed)
    ensures Count(s.at, if owed.OwesNotEmpty? then KWaitsEmpty else KWaitsFull) == 0
  {
    assert Those(s.at, if owed.OwesNotEmpty? then KWaitsEmpty else KWaitsFull) == {};
  }

  /** A thread leaves when it waits for nothing, or finds the queue empty. */
  lemma LeaveKeeps<T>(s: State<T>, t: Tid)
    requires Inv(s) && (t !in s.at || s.at[t].Expired? || (s.at[t].WokenEmpty? && s.g.q == []))
    ensures Inv(Leave(s, t))
  {
    hide Count;
    CountLeft(s.at, t);
  }

  lemma ShutdownKeeps<T>(s: State<T>)
    requires Inv(s)
    ensures Inv(Apply(s, Shutdown))
  {
    hide Count;
    WakeAllEmptiesWaits(s.at);
  }

  /** A waiter that times out or wakes spuriously. */
  lemma WaitEndsKeeps<T>(s: State<T>, t: Tid, p: Place<T>)
    requires Inv(s) && t in s.at && (s.at[t].WaitsFull? || s.at[t].WaitsEmpty?)
    requires p.Expired? || p == WokenPlace(s.at[t])
    ensures Inv(s.(at := s.at[t := p]))
  {
    hide Count;
    CountMoved(s.at, t, p);
  }

  lemma StepKeeps<T>(s: State<T>, step: Step<T>)
    requires Inv(s) && Enabled(s, step)
    ensures Inv(Apply(s, step))
  {
    hide Inv, PushRound, PopRound, WakeAll, Leave, Waited;
    match step
    case Push(t, item) => PushRoundKeeps(s, t, item);
    case TryPush(t, item) => PushRoundKeeps(s, t, item);
    case Pop(t, timed) => PopRoundKeeps(s, t, timed);
    case PopNoTime(t, ns) =>
      if t in s.at {
        WaitedKeeps(s, t, ns);
        LeaveKeeps(Waited(s, t, ns), t);
      }
    case TryPop(t) => PopRoundKeeps(s, t, false);
    case Shutdown => ShutdownKeeps(s);
    case Resume(t, ns) =>
      WaitedKeeps(s, t, ns);
      if s.at[t].WokenFull? {
        PushRoundKeeps(Waited(s, t, ns), t, s.at[t].item);
      } else {
        PopRoundKeeps(Waited(s, t, ns), t, s.at[t].timed);
      }
    case Expire(t) => WaitEndsKeeps(s, t, Expired);
    case ReturnExpired(t, ns) =>
      WaitedKeeps(s, t, ns);
      LeaveKeeps(Waited(s, t, ns), t);
    case Notify(t, w) => NotifyKeeps(s, t, w);
    case Spurious(t) => WaitEndsKeeps(s, t, WokenPlace(s.at[t]));
  }

  // ---------- Over whole runs ----------

  /** The queue specification and the wakeup accounting hold in every reachable state. */
  lemma {:induction false} RunKeeps<T>(states: seq<State<T>>, steps: seq<Step<T>>, i: nat)
    requires Run(states, steps) && i <= |steps|
    ensures Inv(states[i])
  {
    if i > 0 {
      RunKeeps(states, steps, i - 1);
      StepKeeps(states[i - 1], steps[i - 1]);
    } else {
      assert Those(states[0].at, KWaitsEmpty) == {};
      assert Those(states[0].at, KWaitsFull) == {};
    }
  }

  lemma StepAfterShutdown<T>(s: State<T>, step: Step<T>)
    requires Enabled(s, step) && s.g.isShutdown
    ensures Apply(s, step).g.isShutdown && Apply(s, step).pushed == s.pushed
  {
  }

  /** Shutdown is sticky: afterwards nothing more is stored and no thread ever waits again. */
  lemma {:induction false} AfterShutdown<T>(states: seq<State<T>>, steps: seq<Step<T>>, i: nat, j: nat)
    requires Run(states, steps) && i <= j <= |steps| && states[i].g.isShutdown
    ensures states[j].g.isShutdown && states[j].pushed == states[i].pushed
    ensures forall t :: t in states[j].at ==> !states[j].at[t].WaitsEmpty? && !states[j].at[t].WaitsFull?
    decreases j
  {
    if i < j {
      AfterShutdown(states, steps, i, j - 1);
      StepAfterShutdown(states[j - 1], steps[j - 1]);
    }
    RunKeeps(states, steps, j);
    var at := states[j].at;
    assert Those(at, KWaitsEmpty) == {} && Those(at, KWaitsFull) == {};
    forall t | t in at
      ensures !at[t].WaitsEmpty? && !at[t].WaitsFull?
    {
      assert t !in Those(at, KWaitsEmpty) && t !in Those(at, KWaitsFull);
    }
  }

  lemma StepWatermark<T>(s: State<T>, step: Step<T>)
    requires Enabled(s, step)
    ensures Apply(s, step).g.highWatermark == s.g.highWatermark ||
            Apply(s, step).g.highWatermark == |Apply(s, step).g.q|
    ensures Apply(s, step).g.highWatermark >= s.g.highWatermark
    ensures |Apply(s, step).g.q| <= |s.g.q| || |Apply(s, step).g.q| <= Apply(s, step).g.highWatermark
  {
  }

  /** The high watermark is the greatest length the queue has had. */
  lemma {:induction false} WatermarkIsGreatestLength<T>(states: seq<State<T>>, steps: seq<Step<T>>, j: nat)
    requires Run(states, steps) && j <= |steps|
    ensures forall i :: 0 <= i <= j ==> |states[i].g.q| <= states[j].g.highWatermark
    ensures exists i :: 0 <= i <= j && |states[i].g.q| == states[j].g.highWatermark
  {
    if j == 0 {
      assert |states[0].g.q| == states[0].g.highWatermark;
    } else {
      WatermarkIsGreatestLength(states, steps, j - 1);
      hide Apply;
      StepWatermark(states[j - 1], steps[j - 1]);
      var i :| 0 <= i <= j - 1 && |states[i].g.q| == states[j - 1].g.highWatermark;
      var witnessed := if states[j].g.highWatermark == states[j - 1].g.highWatermark then i else j;
      assert |states[witnessed].g.q| == states[j].g.highWatermark;
    }
  }

  /** What a step adds to the totals of waits on `not_full` and on `not_empty`. */
  function WaitOver<T>(s: State<T>, step: Step<T>): (nat, nat) {
    match step
    case Resume(t, ns) => if t in s.at && s.at[t].WokenFull? then (ns, 0) else (0, ns)
    case ReturnExpired(_, ns) => (0, ns)
    case PopNoTime(_, ns) => (0, ns)
    case _ => (0, 0)
  }

  lemma StepWaits<T>(s: State<T>, step: Step<T>)
    requires Enabled(s, step)
    ensures Apply(s, step).g.pushWaitNs == s.g.pushWaitNs + WaitOver(s, step).0
    ensures Apply(s, step).g.popWaitNs == s.g.popWaitNs + WaitOver(s, step).1
  {
  }

  /** The waits that end in the steps from `i` up to `j`. */
  function WaitsOver<T>(states: seq<State<T>>, steps: seq<Step<T>>, i: nat, j: nat): (nat, nat)
    requires i <= j <= |steps| <= |states|
    decreases j
  {
    if i == j then (0, 0)
    else
      var before, last := WaitsOver(states, steps, i, j - 1), WaitOver(states[j - 1], steps[j - 1]);
      (before.0 + last.0, before.1 + last.1)
  }

  /** Between any two moments of a run the wait totals grow by exactly the waits that ended in between; so the governor's
      differences of two readings are those waits. */
  lemma {:induction false} WaitTotalsAddUp<T>(states: seq<State<T>>, steps: seq<Step<T>>, i: nat, j: nat)
    requires Run(states, steps) && i <= j <= |steps|
    ensures states[j].g.pushWaitNs == states[i].g.pushWaitNs + WaitsOver(states, steps, i, j).0
    ensures states[j].g.popWaitNs == states[i].g.popWaitNs + WaitsOver(states, steps, i, j).1
    decreases j
  {
    hide Apply, WaitOver;
    if i < j {
      WaitTotalsAddUp(states, steps, i, j - 1);
      StepWaits(states[j - 1], steps[j - 1]);
    }
  }

  // ---------- What moves ----------

  /** The item a step would store: that of a new push, or of a producer back from its wait. */
  function Offered<T>(s: State<T>, step: Step<T>): Option<T> {
    match step
    case Push(_, item) => Some(item)
    case TryPush(_, item) => Some(item)
    case Resume(t, _) => if t in s.at && s.at[t].WokenFull? then Some(s.at[t].item) else None
    case _ => None
  }

  /** The step would take an item: a new pop, or a consumer back from its wait. */
  predicate Wants<T>(s: State<T>, step: Step<T>) {
    step.Pop? || step.TryPop? || (step.Resume? && step.t in s.at && s.at[step.t].WokenEmpty?)
  }

  /** A step stores an item exactly when it has one, the queue is not shut down and there is room, and takes one, the oldest,
      exactly when it wants one and the queue is not empty; each time the thread then owes the notification. */
  lemma MovesExactly<T>(s: State<T>, step: Step<T>)
    requires Enabled(s, step)
    ensures var s', offered := Apply(s, step), Offered(s, step);
            && (if offered.Some? && !s.g.isShutdown && |s.g.q| < s.capacity
                then s'.pushed == s.pushed + [offered.value] && s'.g.q == s.g.q + [offered.value] && s'.at == s.at[step.t := OwesNotEmpty]
                else s'.pushed == s.pushed)
            && (if Wants(s, step) && s.g.q != []
                then s'.popped == s.popped + [s.g.q[0]] && s'.g.q == s.g.q[1..] && s'.at == s.at[step.t := OwesNotFull]
                else s'.popped == s.popped)
  {
  }

  /** The calls that do not wait change nothing when they are turned down. */
  lemma TurnedDownChangesNothing<T>(s: State<T>, step: Step<T>)
    requires Enabled(s, step)
    requires (step.TryPush? && (s.g.isShutdown || |s.g.q| >= s.capacity)) || (step.TryPop? && s.g.q == [])
    ensures Apply(s, step) == s
  {
  }

  // ---------- Waits are counted ----------

  /** The step parks its thread on `not_full`, or on `not_empty`. */
  predicate Parks<T>(s: State<T>, step: Step<T>, full: bool)
    requires Enabled(s, step)
  {
    var at := Apply(s, step).at;
    (step.Push? || step.Pop? || step.Resume?) && step.t in at && if full then at[step.t].WaitsFull? else at[step.t].WaitsEmpty?
  }

  lemma StepWaitCounts<T>(s: State<T>, step: Step<T>)
    requires Enabled(s, step)
    ensures Apply(s, step).g.pushWaitCount == s.g.pushWaitCount + if Parks(s, step, true) then 1 else 0
    ensures Apply(s, step).g.popWaitCount == s.g.popWaitCount + if Parks(s, step, false) then 1 else 0
  {
  }

  /** How often threads have parked in the first `n` steps. */
  ghost function Parked<T>(states: seq<State<T>>, steps: seq<Step<T>>, n: nat, full: bool): nat
    requires n <= |steps| <= |states| && forall i :: 0 <= i < n ==> Enabled(states[i], steps[i])
  {
    if n == 0 then 0
    else Parked(states, steps, n - 1, full) + if Parks(states[n - 1], steps[n - 1], full) then 1 else 0
  }

  /** Over every run the two wait counts are how often threads have parked on each condition variable. */
  lemma {:induction false} WaitCountsAddUp<T>(states: seq<State<T>>, steps: seq<Step<T>>, n: nat)
    requires Run(states, steps) && n <= |steps|
    ensures states[n].g.pushWaitCount == Parked(states, steps, n, true)
    ensures states[n].g.popWaitCount == Parked(states, steps, n, false)
  {
    hide Apply, Parks;
    if n > 0 {
      WaitCountsAddUp(states, steps, n - 1);
      StepWaitCounts(states[n - 1], steps[n - 1]);
    }
  }

  /** A thread in `pop_timeout` comes out empty-handed exactly when its wait ran out, or it finds the queue empty with no
      time left or after shutdown. */
  lemma TimedPopReturnsNone<T>(s: State<T>, step: Step<T>, t: Tid)
    requires Enabled(s, step)
    requires step == Pop(t, true) || (step.PopNoTime? && step.t == t)
             || (t in s.at && (s.at[t] == WokenEmpty(true) || s.at[t].Expired?) && (step.Resume? || step.ReturnExpired?) && step.t == t)
    ensures t !in Apply(s, step).at
       <==> (t in s.at && s.at[t].Expired?) || (s.g.q == [] && (s.g.isShutdown || step.PopNoTime?))
  {
  }

  /** A wait without a timeout ends only by being woken. */
  lemma UntimedWaitsOn<T>(s: State<T>, step: Step<T>, t: Tid)
    requires Enabled(s, step) && t in s.at && (s.at[t] == WaitsEmpty(false) || s.at[t].WaitsFull?)
    ensures t in Apply(s, step).at
    ensures Apply(s, step).at[t] == s.at[t] || Apply(s, step).at[t] == WokenPlace(s.at[t])
  {
  }

  /** A thread in `pop_blocking` comes out empty-handed only after shutdown with the queue empty. */
  lemma BlockingPopReturnsNone<T>(s: State<T>, step: Step<T>, t: Tid)
    requires Enabled(s, step)
    requires step == Pop(t, false) || (t in s.at && s.at[t] == WokenEmpty(false))
    requires t !in Apply(s, step).at
    ensures s.g.isShutdown && s.g.q == []
  {
  }

  // ---------- Wakeups are never lost ----------

  /** No thread is due to run: no notification is owed, and nobody has been woken or timed out. */
  predicate Settled<T>(s: State<T>) {
    forall t :: t in s.at ==> s.at[t].WaitsEmpty? || s.at[t].WaitsFull?
  }

  /** Steps that only carry on calls already under way: no new call, no shutdown, no spurious wakeup. */
  predicate Internal<T>(s: State<T>, step: Step<T>) {
    match step
    case Resume(_, _) => true
    case Expire(_) => true
    case ReturnExpired(_, _) => true
    case Notify(_, _) => true
    case PopNoTime(t, _) => t in s.at
    case _ => false
  }

  /** Once things settle, a consumer still waits only if there is nothing to take, and a producer only if
      there is no room. */
  lemma SettledMeansNoneOverlooked<T>(states: seq<State<T>>, steps: seq<Step<T>>, i: nat)
    requires Run(states, steps) && i <= |steps| && Settled(states[i])
    ensures var s := states[i];
            forall t :: t in s.at ==>
              && !s.g.isShutdown
              && (s.at[t].WaitsEmpty? ==> s.g.q == [])
              && (s.at[t].WaitsFull? ==> |s.g.q| == s.capacity)
  {
    RunKeeps(states, steps, i);
    var s := states[i];
    assert Those(s.at, KOwesNotEmpty) == {} && Those(s.at, KWokenEmpty) == {};
    assert Those(s.at, KOwesNotFull) == {} && Those(s.at, KWokenFull) == {};
    forall t | t in s.at
      ensures !s.g.isShutdown
      ensures s.at[t].WaitsEmpty? ==> s.g.q == []
      ensures s.at[t].WaitsFull? ==> |s.g.q| == s.capacity
    {
      assert t in Those(s.at, if s.at[t].WaitsEmpty? then KWaitsEmpty else KWaitsFull);
    }
  }

  /** Until then some call under way can move. */
  lemma UnsettledCanMove<T>(s: State<T>)
    requires !Settled(s)
    ensures exists step: Step<T> :: Internal(s, step) && Enabled(s, step)
  {
    var t :| t in s.at && !s.at[t].WaitsEmpty? && !s.at[t].WaitsFull?;
    var step: Step<T>;
    if s.at[t].WokenFull? || s.at[t].WokenEmpty? {
      step := Resume(t, 0);
    } else if s.at[t].Expired? {
      step := ReturnExpired(t, 0);
    } else if u :| u in s.at && WaitsOn(s, u, s.at[t]) {
      step := Notify(t, u);
    } else {
      step := Notify(t, t);
    }
    assert Internal(s, step) && Enabled(s, step);
  }

  /** The work left in the calls under way. */
  function Effort<T>(at: map<Tid, Place<T>>): nat {
    4 * (Count(at, KWokenFull) + Count(at, KWokenEmpty)) + 3 * (Count(at, KWaitsFull) + Count(at, KWaitsEmpty))
    + 2 * (Count(at, KOwesNotEmpty) + Count(at, KOwesNotFull)) + Count(at, KExpired)
  }

  function Weight(k: Kind): nat {
    match k
    case KWokenFull => 4
    case KWokenEmpty => 4
    case KWaitsFull => 3
    case KWaitsEmpty => 3
    case KOwesNotEmpty => 2
    case KOwesNotFull => 2
    case KExpired => 1
  }

  lemma EffortLeft<T>(at: map<Tid, Place<T>>, t: Tid)
    requires t in at
    ensures Effort(at - {t}) == Effort(at) - Weight(KindOf(at[t]))
  {
    hide Count;
    CountLeft(at, t);
  }

  lemma EffortJoined<T>(at: map<Tid, Place<T>>, t: Tid, p: Place<T>)
    requires t !in at
    ensures Effort(at[t := p]) == Effort(at) + Weight(KindOf(p))
  {
    hide Count;
    CountMoved(at, t, p);
  }

  lemma EffortOfMove<T>(at: map<Tid, Place<T>>, at': map<Tid, Place<T>>, t: Tid)
    requires t in at && (at' == at - {t} || (t in at' && at' == at[t := at'[t]]))
    ensures Effort(at') == Effort(at) - Weight(KindOf(at[t])) + if t in at' then Weight(KindOf(at'[t])) else 0
  {
    hide Effort;
    var rest := at - {t};
    EffortLeft(at, t);
    if t in at' {
      EffortJoined(rest, t, at'[t]);
      assert at' == rest[t := at'[t]];
    }
  }

  lemma InternalStepsUseEffort<T>(s: State<T>, step: Step<T>)
    requires Internal(s, step) && Enabled(s, step)
    ensures Effort(Apply(s, step).at) < Effort(s.at)
  {
    hide Effort;
    var t, at' := step.t, Apply(s, step).at;
    if step.Notify? && WaitsOn(s, step.woken, s.at[t]) {
      var mid := s.at - {t};
      EffortOfMove(s.at, mid, t);
      EffortOfMove(mid, at', step.woken);
    } else {
      EffortOfMove(s.at, at', t);
    }
  }

  /** With no new calls and no spurious wakeups the queue settles: nothing can keep moving for more than
      `Effort` steps, whatever order the threads run in. */
  lemma {:induction false} CallsUnderWaySettle<T>(states: seq<State<T>>, steps: seq<Step<T>>)
    requires |states| == |steps| + 1
    requires forall i :: 0 <= i < |steps| ==>
        Internal(states[i], steps[i]) && Enabled(states[i], steps[i]) && states[i + 1] == Apply(states[i], steps[i])
    ensures |steps| + Effort(states[|steps|].at) <= Effort(states[0].at)
  {
    if steps != [] {
      var n := |steps| - 1;
      assert forall i :: 0 <= i < n ==> states[..n + 1][i] == states[i] && steps[..n][i] == steps[i];
      CallsUnderWaySettle(states[..n + 1], steps[..n]);
      InternalStepsUseEffort(states[n], steps[n]);
    }
  }
}
