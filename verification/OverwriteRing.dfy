/** The power-of-two overwrite ring (`os_lib/src/queue.rs`), used by one thread at a time: it is a queue of
    `capacity - 1` places that drops its oldest value when a write finds it full.

    The buffer is an array of initialized slots and the indices are unbounded naturals that stay below the
    capacity; allocation and raw pointers are not modelled.
 */
module OverwriteRing {
  import opened Common

  // ---------- The bit mask ----------

  /** Bitwise and of two naturals. */
  function BitAnd(a: nat, b: nat): nat {
    if b == 0 then 0 else (a % 2) * (b % 2) + 2 * BitAnd(a / 2, b / 2)
  }

  predicate IsPowerOfTwo(n: nat) {
    n == 1 || (n > 1 && n % 2 == 0 && IsPowerOfTwo(n / 2))
  }

  function PowerOfTwo(k: nat): nat {
    if k == 0 then 1 else 2 * PowerOfTwo(k - 1)
  }

  /** The capacities `new` accepts are the powers of two. */
  lemma {:induction false} AcceptedCapacities(n: nat)
    ensures IsPowerOfTwo(n) <==> exists k :: n == PowerOfTwo(k)
  {
    if k: nat :| n == PowerOfTwo(k) {
      PowersAreAccepted(k);
    }
    if IsPowerOfTwo(n) {
      var k := Exponent(n);
      assert n == PowerOfTwo(k);
    }
  }

  lemma {:induction false} PowersAreAccepted(k: nat)
    ensures IsPowerOfTwo(PowerOfTwo(k))
  {
    if k > 0 {
      PowersAreAccepted(k - 1);
    }
  }

  lemma {:induction false} Exponent(n: nat) returns (k: nat)
    requires IsPowerOfTwo(n)
    ensures n == PowerOfTwo(k)
  {
    if n == 1 {
      k := 0;
    } else {
      var j := Exponent(n / 2);
      k := j + 1;
    }
  }

  lemma MultipleAtLeast(d: int, n: nat)
    requires d >= 1
    ensures d * n >= n
  {
    assert (d - 1) * n >= 0;
    assert d * n == (d - 1) * n + n;
  }

  lemma RemainderUnique(x: nat, n: nat, q: nat, r: nat)
    requires r < n && x == q * n + r
    ensures x % n == r
  {
    var q', r' := x / n, x % n;
    assert x == q' * n + r';
    assert (q' - q) * n == r - r' && (q - q') * n == r' - r;
    if q' > q {
      MultipleAtLeast(q' - q, n);
    } else if q' < q {
      MultipleAtLeast(q - q', n);
    } else {
      assert (q' - q) * n == 0;
    }
  }

  /** Masking with a power of two less one is taking the remainder. */
  lemma {:induction false} MaskIsRemainder(x: nat, capacity: nat)
    requires IsPowerOfTwo(capacity)
    ensures BitAnd(x, capacity - 1) == x % capacity
  {
    if capacity > 1 {
      var h := capacity / 2;
      MaskIsRemainder(x / 2, h);
      assert (capacity - 1) % 2 == 1 && (capacity - 1) / 2 == h - 1;
      DoubleRemainder(x, h);
    }
  }

  lemma DoubleRemainder(x: nat, h: nat)
    requires h > 0
    ensures x % (2 * h) == 2 * ((x / 2) % h) + x % 2
  {
    var half := x / 2;
    var q, r := half / h, half % h;
    assert half == q * h + r;
    assert q * (2 * h) == 2 * (q * h);
    RemainderUnique(x, 2 * h, q, 2 * r + x % 2);
  }

  // ---------- The ring ----------

  /** The length of the stretch from the read index round to the write index. */
  function Distance(capacity: nat, readIdx: nat, writeIdx: nat): nat
    requires readIdx <= capacity
  {
    if writeIdx >= readIdx then writeIdx - readIdx else capacity - readIdx + writeIdx
  }

  /** The place `i` steps round from `start`, for `i` up to the capacity. */
  function Round(capacity: nat, start: nat, i: nat): nat {
    if start + i < capacity then start + i else if start + i < 2 * capacity then start + i - capacity else 0
  }

  /** The `n` slots from `start` on, round the end. */
  function Stretch<T>(slots: seq<T>, start: nat, n: nat): seq<T>
    requires start < |slots| && n <= |slots|
  {
    seq(n, i requires 0 <= i < n => slots[Round(|slots|, start, i)])
  }

  lemma StretchTail<T>(slots: seq<T>, start: nat, n: nat)
    requires start < |slots| && 0 < n <= |slots|
    ensures Stretch(slots, start, n)[1..] == Stretch(slots, Round(|slots|, start, 1), n - 1)
  {
    assert forall i :: 0 <= i < n - 1 ==> Stretch(slots, start, n)[1..][i] == Stretch(slots, start, n)[i + 1];
  }

  /** Writing the slot just past a stretch extends the stretch. */
  lemma StretchExtends<T>(slots: seq<T>, r: nat, w: nat, v: T)
    requires r < |slots| && w < |slots|
    ensures var n := Distance(|slots|, r, w);
            n < |slots| && Stretch(slots[w := v], r, n + 1) == Stretch(slots, r, n) + [v]
  {
  }

  datatype Created<T(0)> = Ring(q: RWRoundQueue<T>) | ZeroCapacity | NotPowerOfTwo

  method NewRing<T(0)>(capacity: nat) returns (result: Created<T>)
    ensures result.ZeroCapacity? <==> capacity == 0
    ensures result.NotPowerOfTwo? <==> capacity != 0 && !IsPowerOfTwo(capacity)
    ensures result.Ring? ==>
              fresh(result.q) && fresh(result.q.buffer) && result.q.Valid() && result.q.capacity == capacity
              && result.q.Contents() == []
  {
    if capacity == 0 {
      return ZeroCapacity;
    }
    if !IsPowerOfTwo(capacity) {
      return NotPowerOfTwo;
    }
    var q := new RWRoundQueue<T>(capacity);
    result := Ring(q);
  }

  class RWRoundQueue<T(0)> {
    const buffer: array<T>
    const capacity: nat
    var readIdx: nat
    var writeIdx: nat

    ghost predicate Valid()
      reads this
    {
      IsPowerOfTwo(capacity) && buffer.Length == capacity && readIdx < capacity && writeIdx < capacity
    }

    /** The unread values, oldest first. */
    ghost function Contents(): seq<T>
      requires Valid()
      reads this, buffer
    {
      Stretch(buffer[..], readIdx, Distance(capacity, readIdx, writeIdx))
    }

    constructor (capacity: nat)
      requires IsPowerOfTwo(capacity)
      ensures Valid() && this.capacity == capacity && fresh(buffer) && Contents() == []
    {
      this.capacity := capacity;
      buffer := new T[capacity];
      readIdx, writeIdx := 0, 0;
    }

    /** The mask computes the index after `current`, round the end. */
    function NextIndex(current: nat): (next: nat)
      requires IsPowerOfTwo(capacity) && current < capacity
      ensures next == (current + 1) % capacity == Round(capacity, current, 1)
    {
      MaskIsRemainder(current + 1, capacity);
      RemainderUnique(current + 1, capacity, if current + 1 == capacity then 1 else 0, Round(capacity, current, 1));
      BitAnd(current + 1, capacity - 1)
    }

    method Len() returns (n: nat)
      requires Valid()
      ensures n == |Contents()| < capacity
    {
      n := if writeIdx >= readIdx then writeIdx - readIdx else capacity - readIdx + writeIdx;
    }

    method AcquireRead() returns (slot: Option<nat>)
      requires Valid()
      ensures slot.None? <==> Contents() == []
      ensures slot.Some? ==> slot.value < capacity && buffer[slot.value] == Contents()[0]
    {
      if readIdx == writeIdx {
        return None;
      }
      slot := Some(readIdx);
    }

    method CommitRead()
      requires Valid() && Contents() != []
      modifies this`readIdx
      ensures Valid() && Contents() == old(Contents())[1..]
    {
      StretchTail(buffer[..], readIdx, Distance(capacity, readIdx, writeIdx));
      readIdx := NextIndex(readIdx);
    }

    method AcquireWrite() returns (slot: nat, wasFull: bool)
      requires Valid()
      ensures slot == writeIdx
      ensures wasFull <==> |Contents()| == capacity - 1
    {
      slot, wasFull := writeIdx, NextIndex(writeIdx) == readIdx;
    }

    /** After a value has been put in the slot acquired: `filled` is the unread values with that slot added. */
    method CommitWrite(wasFull: bool, ghost filled: seq<T>)
      requires Valid() && (wasFull <==> |Contents()| == capacity - 1)
      requires filled == Stretch(buffer[..], readIdx, |Contents()| + 1)
      modifies this`readIdx, this`writeIdx
      ensures Valid() && Contents() == if wasFull then filled[1..] else filled
    {
      var nextWrite := NextIndex(writeIdx);
      if wasFull {
        StretchTail(buffer[..], readIdx, capacity);
        readIdx := NextIndex(readIdx);
      }
      writeIdx := nextWrite;
    }

    method TryRead() returns (out: Option<T>)
      requires Valid()
      modifies this`readIdx
      ensures Valid()
      ensures out == if old(Contents()) == [] then None else Some(old(Contents())[0])
      ensures Contents() == if old(Contents()) == [] then [] else old(Contents())[1..]
    {
      var slot := AcquireRead();
      if slot.None? {
        return None;
      }
      var value := buffer[slot.value];
      CommitRead();
      out := Some(value);
    }

    method WriteOverwrite(value: T) returns (wasFull: bool)
      requires Valid()
      modifies this`readIdx, this`writeIdx, buffer
      ensures Valid()
      ensures wasFull <==> |old(Contents())| == capacity - 1
      ensures Contents() == if wasFull then (old(Contents()) + [value])[1..] else old(Contents()) + [value]
    {
      var slot;
      slot, wasFull := AcquireWrite();
      StretchExtends(buffer[..], readIdx, writeIdx, value);
      ghost var filled := Contents() + [value];
      buffer[slot] := value;
      assert buffer[..] == old(buffer[..])[slot := value];
      CommitWrite(wasFull, filled);
    }

    method ReadBatch(max: nat) returns (batch: seq<T>)
      requires Valid()
      modifies this`readIdx
      ensures Valid()
      ensures batch + Contents() == old(Contents())
      ensures |batch| == max || (|batch| < max && Contents() == [])
    {
      hide Contents, Valid;
      batch := [];
      for i := 0 to max
        invariant Valid() && |batch| == i
        invariant batch + Contents() == old(Contents())
      {
        var item := TryRead();
        match item {
          case Some(v) => batch := batch + [v];
          case None => break;
        }
      }
    }

    /** Any sequence of writes and reads behaves as the drop-oldest queue. */
    method Replay(ops: seq<Op<T>>) returns (delivered: seq<T>, fullWrites: nat)
      requires Valid() && Contents() == []
      modifies this`readIdx, this`writeIdx, buffer
      ensures Valid()
      ensures var l := Simulate(capacity - 1, ops);
              Contents() == l.items && delivered == l.delivered && fullWrites == |l.dropped|
    {
      hide Contents;
      delivered, fullWrites := [], 0;
      for i := 0 to |ops|
        invariant Valid()
        invariant var l := Simulate(capacity - 1, ops[..i]);
                  Contents() == l.items && delivered == l.delivered && fullWrites == |l.dropped|
      {
        assert ops[..i + 1][..i] == ops[..i];
        DropOldestLaws(capacity - 1, ops[..i]);
        match ops[i] {
          case Write(v) =>
            var wasFull := WriteOverwrite(v);
            if wasFull {
              fullWrites := fullWrites + 1;
            }
          case Read =>
            var out := TryRead();
            if out.Some? {
              delivered := delivered + [out.value];
            }
        }
      }
      assert ops[..|ops|] == ops;
    }
  }

  // ---------- The drop-oldest queue ----------

  datatype Op<T> = Write(value: T) | Read

  datatype Fate = Delivered | Dropped

  /** `fates` says, in the order written, how each value that is gone has left. */
  datatype Log<T> = Log(written: seq<T>, items: seq<T>, delivered: seq<T>, dropped: seq<T>, fates: seq<Fate>)

  function Written<T>(l: Log<T>, limit: nat, v: T): Log<T> {
    var all := l.items + [v];
    if |l.items| == limit
    then Log(l.written + [v], all[1..], l.delivered, l.dropped + [all[0]], l.fates + [Dropped])
    else Log(l.written + [v], all, l.delivered, l.dropped, l.fates)
  }

  function TakenOut<T>(l: Log<T>): Log<T> {
    if l.items == [] then l
    else Log(l.written, l.items[1..], l.delivered + [l.items[0]], l.dropped, l.fates + [Delivered])
  }

  function Simulate<T>(limit: nat, ops: seq<Op<T>>): Log<T> {
    if ops == [] then Log([], [], [], [], [])
    else
      var l := Simulate(limit, ops[..|ops| - 1]);
      match ops[|ops| - 1]
      case Write(v) => Written(l, limit, v)
      case Read => TakenOut(l)
  }

  /** The values that left with the given fate, in order. */
  function WithFate<T>(values: seq<T>, fates: seq<Fate>, f: Fate): seq<T>
    requires |fates| <= |values|
  {
    if fates == [] then []
    else
      var n := |fates| - 1;
      WithFate(values, fates[..n], f) + if fates[n] == f then [values[n]] else []
  }

  lemma {:induction false} WithFateOfMore<T>(values: seq<T>, more: seq<T>, fates: seq<Fate>, f: Fate)
    requires |fates| <= |values|
    ensures WithFate(values + more, fates, f) == WithFate(values, fates, f)
  {
    if fates != [] {
      WithFateOfMore(values, more, fates[..|fates| - 1], f);
    }
  }

  lemma {:induction false} WithFateNext<T>(values: seq<T>, fates: seq<Fate>, g: Fate, f: Fate)
    requires |fates| < |values|
    ensures WithFate(values, fates + [g], f)
         == WithFate(values, fates, f) + if g == f then [values[|fates|]] else []
  {
    assert (fates + [g])[..|fates|] == fates;
  }

  /** The unread values are the most recent ones written, at most `limit` of them and in order; every earlier value was
      delivered or dropped exactly once, each in the order written; and written = delivered + dropped + unread. */
  predicate Accounts<T(==)>(limit: nat, l: Log<T>) {
    && |l.items| <= limit
    && |l.fates| + |l.items| == |l.written|
    && l.items == l.written[|l.fates|..]
    && l.delivered == WithFate(l.written, l.fates, Delivered)
    && l.dropped == WithFate(l.written, l.fates, Dropped)
    && |l.written| == |l.delivered| + |l.dropped| + |l.items|
  }

  lemma WriteAccounts<T>(limit: nat, l: Log<T>, v: T)
    requires Accounts(limit, l)
    ensures Accounts(limit, Written(l, limit, v))
  {
    hide WithFate;
    var values := l.written + [v];
    assert values[|l.fates|..] == l.items + [v];
    WithFateOfMore(l.written, [v], l.fates, Delivered);
    WithFateOfMore(l.written, [v], l.fates, Dropped);
    WithFateNext(values, l.fates, Dropped, Delivered);
    WithFateNext(values, l.fates, Dropped, Dropped);
  }

  lemma TakeAccounts<T>(limit: nat, l: Log<T>)
    requires Accounts(limit, l)
    ensures Accounts(limit, TakenOut(l))
  {
  }

  /** For every sequence of operations, a drop-oldest queue accounts for everything written. */
  lemma {:induction false} DropOldestLaws<T>(limit: nat, ops: seq<Op<T>>)
    ensures Accounts(limit, Simulate(limit, ops))
  {
    hide Accounts, Written, TakenOut;
    if ops == [] {
      NothingAccounts<T>(limit);
    } else {
      var l, op := Simulate(limit, ops[..|ops| - 1]), ops[|ops| - 1];
      DropOldestLaws(limit, ops[..|ops| - 1]);
      match op
      case Write(v) => WriteAccounts(limit, l, v);
      case Read => TakeAccounts(limit, l);
    }
  }

  lemma {:induction false} NothingAccounts<T>(limit: nat)
    ensures Accounts(limit, Simulate<T>(limit, []))
  {
  }
}
