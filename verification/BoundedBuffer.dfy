/** The bounded blocking queue (`gateway/src/buffer.rs`): what runs while the lock is held.

    `Inner` is the locked record. Each public operation is one critical section, or a chain of them when it
    waits on a condition variable; `SensorBufferManager` has one method for each critical section, and the
    module BufferMonitor interleaves the sections of many threads.
 */
module BoundedBuffer {
  import opened Common

  datatype Inner<T> = Inner(
    q: seq<T>,
    isShutdown: bool,
    highWatermark: nat,
    totalPushed: nat,
    totalPopped: nat,
    pushWaitCount: nat,
    popWaitCount: nat,
    pushWaitNs: nat,
    popWaitNs: nat)

  function Empty<T>(): Inner<T> {
    Inner([], false, 0, 0, 0, 0, 0, 0, 0)
  }

  /** How a section of `push` ends: refused by shutdown, parked on `not_full`, or stored. */
  datatype PushOutcome = Refused | ParkedFull | Stored

  /** How a section of a pop ends: nothing left after shutdown, parked on `not_empty`, or an item. */
  datatype PopOutcome<T> = Nothing | ParkedEmpty | Taken(item: T)

  function Stores<T>(g: Inner<T>, item: T): Inner<T> {
    g.(q := g.q + [item], totalPushed := g.totalPushed + 1,
       highWatermark := Max(g.highWatermark, |g.q| + 1))
  }

  function Takes<T>(g: Inner<T>): Inner<T>
    requires g.q != []
  {
    g.(q := g.q[1..], totalPopped := g.totalPopped + 1)
  }

  function PushOutcomeOf<T>(g: Inner<T>, capacity: nat): PushOutcome {
    if g.isShutdown then Refused else if |g.q| >= capacity then ParkedFull else Stored
  }

  function AfterPush<T>(g: Inner<T>, capacity: nat, item: T): Inner<T> {
    match PushOutcomeOf(g, capacity)
    case Refused => g
    case ParkedFull => g.(pushWaitCount := g.pushWaitCount + 1)
    case Stored => Stores(g, item)
  }

  function PopOutcomeOf<T>(g: Inner<T>): PopOutcome<T> {
    if g.q != [] then Taken(g.q[0]) else if g.isShutdown then Nothing else ParkedEmpty
  }

  function AfterPop<T>(g: Inner<T>): Inner<T> {
    match PopOutcomeOf(g)
    case Nothing => g
    case ParkedEmpty => g.(popWaitCount := g.popWaitCount + 1)
    case Taken(_) => Takes(g)
  }

  /** A wait of `ns` nanoseconds on `not_full` is over. */
  function PushWaited<T>(g: Inner<T>, ns: nat): Inner<T> {
    g.(pushWaitNs := g.pushWaitNs + ns)
  }

  /** A wait of `ns` nanoseconds on `not_empty` is over. */
  function PopWaited<T>(g: Inner<T>, ns: nat): Inner<T> {
    g.(popWaitNs := g.popWaitNs + ns)
  }

  datatype TryPushResult<T> = Pushed | ShutDown | Full(item: T)

  class SensorBufferManager<T(==)> {
    const capacity: nat
    var q: seq<T>
    var isShutdown: bool
    var highWatermark: nat
    var totalPushed: nat
    var totalPopped: nat
    var pushWaitCount: nat
    var popWaitCount: nat
    var pushWaitNs: nat
    var popWaitNs: nat

    function View(): Inner<T>
      reads this
    {
      Inner(q, isShutdown, highWatermark, totalPushed, totalPopped, pushWaitCount, popWaitCount,
            pushWaitNs, popWaitNs)
    }

    constructor (capacity: nat)
      requires capacity > 0
      ensures View() == Empty() && this.capacity == capacity
    {
      this.capacity := capacity;
      q, isShutdown, highWatermark := [], false, 0;
      totalPushed, totalPopped, pushWaitCount, popWaitCount := 0, 0, 0, 0;
      pushWaitNs, popWaitNs := 0, 0;
    }

    method Shutdown()
      modifies this
      ensures View() == old(View()).(isShutdown := true)
    {
      isShutdown := true;
    }

    method TryPush(item: T) returns (result: TryPushResult<T>)
      modifies this
      ensures result.ShutDown? <==> old(isShutdown)
      ensures result.Full? <==> !old(isShutdown) && |old(q)| >= capacity
      ensures result.Full? ==> result.item == item
      ensures View() == if result.Pushed? then Stores(old(View()), item) else old(View())
    {
      if isShutdown {
        return ShutDown;
      }
      if |q| >= capacity {
        return Full(item);
      }
      q := q + [item];
      totalPushed := totalPushed + 1;
      highWatermark := Max(highWatermark, |q|);
      result := Pushed;
    }

    /** `push` from taking the lock to waiting or releasing it, and each round after a wait of `waitedNs`. */
    method PushSection(item: T, waitedNs: nat) returns (outcome: PushOutcome)
      modifies this
      ensures outcome == PushOutcomeOf(old(View()), capacity)
      ensures View() == AfterPush(PushWaited(old(View()), waitedNs), capacity, item)
    {
      pushWaitNs := pushWaitNs + waitedNs;
      if |q| >= capacity && !isShutdown {
        pushWaitCount := pushWaitCount + 1;
        return ParkedFull;
      }
      if isShutdown {
        return Refused;
      }
      q := q + [item];
      totalPushed := totalPushed + 1;
      highWatermark := Max(highWatermark, |q|);
      outcome := Stored;
    }

    method TryPop() returns (out: Option<T>)
      modifies this
      ensures out.None? <==> old(q) == []
      ensures out.Some? ==> out.value == old(q)[0] && View() == Takes(old(View()))
      ensures out.None? ==> View() == old(View())
    {
      if q == [] {
        return None;
      }
      out := Some(q[0]);
      q := q[1..];
      totalPopped := totalPopped + 1;
    }

    /** `pop_blocking` or `pop_timeout` from taking the lock to waiting or releasing it, and each round after a wait of
        `waitedNs`. */
    method PopSection(waitedNs: nat) returns (outcome: PopOutcome<T>)
      modifies this
      ensures outcome == PopOutcomeOf(old(View()))
      ensures View() == AfterPop(PopWaited(old(View()), waitedNs))
    {
      popWaitNs := popWaitNs + waitedNs;
      if q == [] && !isShutdown {
        popWaitCount := popWaitCount + 1;
        return ParkedEmpty;
      }
      var out := TryPop();
      outcome := match out case None => Nothing case Some(v) => Taken(v);
    }
  }
}
