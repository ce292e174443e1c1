/** One reader and one writer on the ring at the same time (`os_lib/src/queue.rs`): each thread runs its
    loads, stores and slot accesses one at a time, in any interleaving of the two.

    Accesses are sequentially consistent. What a thread does next is determined by where it is, so a run is
    given by the order in which the two move, and by the values written.
 */
module SpscRing {
  import opened OverwriteRing

  /** `try_read` between its accesses. */
  datatype Reader<T> =
    | ReaderIdle
    | LoadedRead(r: nat)             // has loaded read_idx
    | HoldsSlot(r: nat)              // found the ring non-empty; about to read slot r
    | HasValue(value: T)             // about to load read_idx for the commit
    | Commits(next: nat, value: T)   // about to store read_idx

  /** `write_overwrite` between its accesses. */
  datatype Writer<T> =
    | WriterIdle
    | LoadedWrite(v: T, w: nat)                     // has loaded write_idx
    | AboutToFill(v: T, w: nat, wasFull: bool)      // has the slot pointer; about to write slot w
    | Filled(v: T, wasFull: bool)                   // about to load write_idx for the commit
    | Overtaking(v: T, next: nat)                   // was full: about to load read_idx
    | MovesReader(v: T, next: nat, nextRead: nat)   // was full: about to store read_idx
    | Publishes(v: T, next: nat)                    // about to store write_idx

  datatype State<T> = State(
    slots: seq<T>,
    readIdx: nat,
    writeIdx: nat,
    reader: Reader<T>,
    writer: Writer<T>,
    written: seq<T>,   // history: values published by the writer
    taken: seq<T>,     // history: values read by the reader
    sawFull: bool)     // history: some write has found the ring full

  datatype Move<T> = ReaderMoves | WriterMoves(v: T)

  function Start<T>(slots: seq<T>): State<T> {
    State(slots, 0, 0, ReaderIdle, WriterIdle, [], [], false)
  }

  /** Every index a thread holds is a slot of the ring. */
  predicate InRange<T>(s: State<T>) {
    var cap := |s.slots|;
    && s.readIdx < cap && s.writeIdx < cap
    && (match s.reader
        case LoadedRead(r) => r < cap
        case HoldsSlot(r) => r < cap
        case Commits(next, _) => next < cap
        case _ => true)
    && (match s.writer
        case LoadedWrite(_, w) => w < cap
        case AboutToFill(_, w, _) => w < cap
        case Overtaking(_, next) => next < cap
        case MovesReader(_, next, nextRead) => next < cap && nextRead < cap
        case Publishes(_, next) => next < cap
        case _ => true)
  }

  /** The index after `i`, which the ring computes with its mask. */
  function Next(cap: nat, i: nat): nat {
    Round(cap, i, 1)
  }

  function ReaderStep<T>(s: State<T>): State<T>
    requires InRange(s)
  {
    match s.reader
    case ReaderIdle => s.(reader := LoadedRead(s.readIdx))
    case LoadedRead(r) => s.(reader := if r == s.writeIdx then ReaderIdle else HoldsSlot(r))
    case HoldsSlot(r) => s.(reader := HasValue(s.slots[r]), taken := s.taken + [s.slots[r]])
    case HasValue(value) => s.(reader := Commits(Next(|s.slots|, s.readIdx), value))
    case Commits(next, _) => s.(reader := ReaderIdle, readIdx := next)
  }

  function WriterStep<T>(s: State<T>, v: T): State<T>
    requires InRange(s)
  {
    match s.writer
    case WriterIdle => s.(writer := LoadedWrite(v, s.writeIdx))
    case LoadedWrite(v, w) =>
      var wasFull := Next(|s.slots|, w) == s.readIdx;
      s.(writer := AboutToFill(v, w, wasFull), sawFull := s.sawFull || wasFull)
    case AboutToFill(v, w, wasFull) => s.(writer := Filled(v, wasFull), slots := s.slots[w := v])
    case Filled(v, wasFull) =>
      var next := Next(|s.slots|, s.writeIdx);
      s.(writer := if wasFull then Overtaking(v, next) else Publishes(v, next))
    case Overtaking(v, next) => s.(writer := MovesReader(v, next, Next(|s.slots|, s.readIdx)))
    case MovesReader(v, next, nextRead) => s.(writer := Publishes(v, next), readIdx := nextRead)
    case Publishes(v, next) => s.(writer := WriterIdle, writeIdx := next, written := s.written + [v])
  }

  function Apply<T>(s: State<T>, m: Move<T>): (s': State<T>)
    requires InRange(s)
    ensures InRange(s') && |s'.slots| == |s.slots|
  {
    match m
    case ReaderMoves => ReaderStep(s)
    case WriterMoves(v) => WriterStep(s, v)
  }

  /** The state after the moves of a run. */
  function Execute<T>(s: State<T>, moves: seq<Move<T>>): (s': State<T>)
    requires InRange(s)
    ensures InRange(s') && |s'.slots| == |s.slots|
  {
    if moves == [] then s else Apply(Execute(s, moves[..|moves| - 1]), moves[|moves| - 1])
  }

  // ---------- While no write finds the ring full ----------

  /** Reads committed so far. */
  function Gone<T>(s: State<T>): int {
    |s.taken| - if s.reader.HasValue? || s.reader.Commits? then 1 else 0
  }

  /** The slot of the n-th value. */
  function SlotOf(n: nat, cap: nat): (i: nat)
    requires cap > 0
    ensures i < cap
  {
    n % cap
  }

  predicate ReaderFits<T>(s: State<T>)
    requires |s.slots| > 0 && Gone(s) >= 0
  {
    var gone, cap := Gone(s), |s.slots|;
    match s.reader
    case ReaderIdle => true
    case LoadedRead(r) => r == SlotOf(gone, cap)
    case HoldsSlot(r) => r == SlotOf(gone, cap) && gone < |s.written|
    case HasValue(_) => gone < |s.written|
    case Commits(next, _) => next == SlotOf(gone + 1, cap) && gone < |s.written|
  }

  predicate WriterFits<T(==)>(s: State<T>)
    requires |s.slots| > 0
  {
    var put, cap := |s.written|, |s.slots|;
    var room := put + 1 - Gone(s) < cap;
    match s.writer
    case WriterIdle => true
    case LoadedWrite(_, w) => w == SlotOf(put, cap)
    case AboutToFill(_, w, wasFull) => w == SlotOf(put, cap) && !wasFull && room
    case Filled(v, wasFull) => s.slots[SlotOf(put, cap)] == v && !wasFull && room
    case Publishes(v, next) => s.slots[SlotOf(put, cap)] == v && next == SlotOf(put + 1, cap) && room
    case _ => false
  }

  /** The indices count committed reads and writes, and the slots between them hold the unread values. */
  ghost predicate Inv<T>(s: State<T>) {
    var put, gone, cap := |s.written|, Gone(s), |s.slots|;
    && cap > 0 && 0 <= gone <= put < gone + cap
    && s.readIdx == SlotOf(gone, cap) && s.writeIdx == SlotOf(put, cap)
    && (forall k :: gone <= k < put ==> s.slots[SlotOf(k, cap)] == s.written[k])
    && |s.taken| <= put && s.taken == s.written[..|s.taken|]
    && ReaderFits(s) && WriterFits(s)
  }

  lemma SlotsDiffer(a: nat, b: nat, cap: nat)
    requires a < b < a + cap
    ensures SlotOf(a, cap) != SlotOf(b, cap)
  {
    var d := b / cap - a / cap;
    assert a == a / cap * cap + a % cap && b == b / cap * cap + b % cap;
    if a % cap == b % cap {
      assert d * cap == b - a;
      MultipleAtLeast(d, cap);
    }
  }

  lemma SlotOfNext(n: nat, cap: nat)
    requires cap > 0
    ensures SlotOf(n + 1, cap) == Next(cap, SlotOf(n, cap))
  {
    var q, r := n / cap, n % cap;
    assert n == q * cap + r;
    if r + 1 < cap {
      RemainderUnique(n + 1, cap, q, r + 1);
    } else {
      assert (q + 1) * cap == q * cap + cap;
      RemainderUnique(n + 1, cap, q + 1, 0);
    }
  }

  lemma SlotOfLap(n: nat, cap: nat)
    requires cap > 0
    ensures SlotOf(n + cap, cap) == SlotOf(n, cap)
  {
    assert n == (n / cap) * cap + n % cap;
    assert (n / cap + 1) * cap == (n / cap) * cap + cap;
    RemainderUnique(n + cap, cap, n / cap + 1, n % cap);
  }

  lemma ReaderKeeps<T>(s: State<T>)
    requires Inv(s) && InRange(s)
    ensures Inv(ReaderStep(s))
  {
    hide Inv, ReaderStep;
    match s.reader
    case LoadedRead(_) => LookForValueKeeps(s);
    case HoldsSlot(_) => TakeValueKeeps(s);
    case _ => ReaderIndexKeeps(s);
  }

  lemma LookForValueKeeps<T>(s: State<T>)
    requires Inv(s) && InRange(s) && s.reader.LoadedRead?
    ensures Inv(ReaderStep(s))
  {
    hide SlotOf, Next, WriterFits;
    if Gone(s) < |s.written| {
      SlotsDiffer(Gone(s), |s.written|, |s.slots|);
    }
    WriterFitsWhileReading(s, ReaderStep(s));
  }

  lemma TakeValueKeeps<T>(s: State<T>)
    requires Inv(s) && InRange(s) && s.reader.HoldsSlot?
    ensures Inv(ReaderStep(s))
  {
    hide SlotOf, Next, WriterFits;
    WriterFitsWhileReading(s, ReaderStep(s));
  }

  lemma ReaderIndexKeeps<T>(s: State<T>)
    requires Inv(s) && InRange(s) && !s.reader.LoadedRead? && !s.reader.HoldsSlot?
    ensures Inv(ReaderStep(s))
  {
    hide SlotOf, Next, WriterFits;
    SlotOfNext(Gone(s), |s.slots|);
    WriterFitsWhileReading(s, ReaderStep(s));
  }

  /** The reader only makes room. */
  lemma WriterFitsWhileReading<T>(s: State<T>, s': State<T>)
    requires |s.slots| > 0 && WriterFits(s) && s'.slots == s.slots && s'.written == s.written && s'.writer == s.writer
    requires Gone(s') >= Gone(s)
    ensures WriterFits(s')
  {
    hide SlotOf;
  }

  /** The writer finds the ring full exactly when `capacity - 1` values are unread at that moment. */
  lemma FullMeansFull<T>(s: State<T>)
    requires Inv(s)
    ensures Next(|s.slots|, s.writeIdx) == s.readIdx <==> |s.written| - Gone(s) == |s.slots| - 1
  {
    hide SlotOf;
    var put, gone, cap := |s.written|, Gone(s), |s.slots|;
    SlotOfNext(put, cap);
    if put + 1 - gone < cap {
      SlotsDiffer(gone, put + 1, cap);
    } else {
      assert put + 1 == gone + cap;
      SlotOfLap(gone, cap);
    }
  }

  /** Filling the slot acquired touches no unread value. */
  lemma FillKeeps<T>(s: State<T>, v: T)
    requires Inv(s) && InRange(s) && s.writer.AboutToFill?
    ensures Inv(WriterStep(s, v))
  {
    hide SlotOf;
    var put, gone, cap := |s.written|, Gone(s), |s.slots|;
    forall k | gone <= k < put
      ensures SlotOf(k, cap) != SlotOf(put, cap)
    {
      SlotsDiffer(k, put, cap);
    }
  }

  lemma WriterKeeps<T>(s: State<T>, v: T)
    requires Inv(s) && InRange(s) && !WriterStep(s, v).sawFull
    ensures Inv(WriterStep(s, v))
  {
    hide Inv, WriterStep;
    if s.writer.AboutToFill? {
      FillKeeps(s, v);
    } else if s.writer.LoadedWrite? {
      LookKeeps(s, v);
    } else if s.writer.Publishes? {
      PublishKeeps(s, v);
    } else {
      IndexKeeps(s, v);
    }
  }

  lemma LookKeeps<T>(s: State<T>, v: T)
    requires Inv(s) && InRange(s) && s.writer.LoadedWrite? && !WriterStep(s, v).sawFull
    ensures Inv(WriterStep(s, v))
  {
    hide SlotOf;
    FullMeansFull(s);
  }

  lemma PublishKeeps<T>(s: State<T>, v: T)
    requires Inv(s) && InRange(s) && s.writer.Publishes?
    ensures Inv(WriterStep(s, v))
  {
    hide SlotOf, Next;
  }

  lemma IndexKeeps<T>(s: State<T>, v: T)
    requires Inv(s) && InRange(s) && !s.writer.AboutToFill? && !s.writer.LoadedWrite? && !s.writer.Publishes?
    ensures Inv(WriterStep(s, v))
  {
    hide SlotOf, Next;
    SlotOfNext(|s.written|, |s.slots|);
  }

  lemma SawFullSticks<T>(s: State<T>, m: Move<T>)
    requires InRange(s) && s.sawFull
    ensures Apply(s, m).sawFull
  {
  }

  lemma {:induction false} ExecuteKeeps<T>(slots: seq<T>, moves: seq<Move<T>>)
    requires |slots| > 0 && !Execute(Start(slots), moves).sawFull
    ensures Inv(Execute(Start(slots), moves))
  {
    if moves != [] {
      var front, m := moves[..|moves| - 1], moves[|moves| - 1];
      var s := Execute(Start(slots), front);
      if s.sawFull {
        SawFullSticks(s, m);
      }
      ExecuteKeeps(slots, front);
      match m
      case ReaderMoves => ReaderKeeps(s);
      case WriterMoves(v) => WriterKeeps(s, v);
    }
  }

  /** In every interleaving in which no write finds the ring full, the values read are a prefix of the values
      written, and the slot being written is never the slot being read. */
  lemma {:induction false} ReadsArePrefixOfWrites<T>(slots: seq<T>, moves: seq<Move<T>>)
    requires |slots| > 0
    ensures var s := Execute(Start(slots), moves);
            !s.sawFull ==> s.taken <= s.written
                           && (s.reader.HoldsSlot? && s.writer.AboutToFill? ==> s.reader.r != s.writer.w)
  {
    var s := Execute(Start(slots), moves);
    if !s.sawFull {
      ExecuteKeeps(slots, moves);
      if s.reader.HoldsSlot? && s.writer.AboutToFill? {
        SlotsDiffer(Gone(s), |s.written|, |s.slots|);
      }
    }
  }

  /** The value a read carries to its end is the one it took from the slot. */
  predicate Carries<T(==)>(s: State<T>) {
    s.reader.HasValue? || s.reader.Commits? ==> s.taken != [] && s.reader.value == s.taken[|s.taken| - 1]
  }

  lemma MoveCarries<T>(s: State<T>, m: Move<T>)
    requires InRange(s) && Carries(s)
    ensures Carries(Apply(s, m))
  {
    hide Next;
  }

  /** In every interleaving, full or not, a read returns what it took. */
  lemma {:induction false} ReadsReturnWhatTheyTook<T>(slots: seq<T>, moves: seq<Move<T>>)
    requires |slots| > 0
    ensures Carries(Execute(Start(slots), moves))
  {
    hide Carries, Apply;
    if moves == [] {
      StartCarries(slots);
    } else {
      ReadsReturnWhatTheyTook(slots, moves[..|moves| - 1]);
      MoveCarries(Execute(Start(slots), moves[..|moves| - 1]), moves[|moves| - 1]);
    }
  }

  lemma StartCarries<T>(slots: seq<T>)
    ensures Carries(Start(slots))
  {
  }

  // ---------- When a write finds it full ----------

  ghost predicate Reachable<T(!new)>(slots: seq<T>, s: State<T>)
    requires |slots| > 0
  {
    InRange(s) && exists moves :: Execute(Start(slots), moves) == s
  }

  lemma ReachNext<T(!new)>(slots: seq<T>, s: State<T>, m: Move<T>)
    requires |slots| > 0 && Reachable(slots, s)
    ensures Reachable(slots, Apply(s, m))
  {
    var moves :| Execute(Start(slots), moves) == s;
    assert (moves + [m])[..|moves + [m]| - 1] == moves;
    assert Execute(Start(slots), moves + [m]) == Apply(s, m);
  }

  /** A whole write with room, the reader at rest. */
  lemma WriteAlone(slots: seq<int>, s: State<int>, v: int)
    requires |slots| > 0 && Reachable(slots, s) && s.writer.WriterIdle?
    requires Next(|s.slots|, s.writeIdx) != s.readIdx
    ensures Reachable(slots, s.(slots := s.slots[s.writeIdx := v], writeIdx := Next(|s.slots|, s.writeIdx),
                                written := s.written + [v]))
  {
    var m := WriterMoves(v);
    var s1 := Apply(s, m);
    var s2 := Apply(s1, m);
    var s3 := Apply(s2, m);
    var s4 := Apply(s3, m);
    ReachNext(slots, s, m);
    ReachNext(slots, s1, m);
    ReachNext(slots, s2, m);
    ReachNext(slots, s3, m);
    ReachNext(slots, s4, m);
  }

  /** A whole read of a non-empty ring, the writer wherever it is. */
  lemma ReadAlone(slots: seq<int>, s: State<int>)
    requires |slots| > 0 && Reachable(slots, s) && s.reader.ReaderIdle? && s.readIdx != s.writeIdx
    ensures Reachable(slots, s.(readIdx := Next(|s.slots|, s.readIdx), taken := s.taken + [s.slots[s.readIdx]]))
  {
    var m := ReaderMoves;
    var s1 := Apply(s, m);
    var s2 := Apply(s1, m);
    var s3 := Apply(s2, m);
    var s4 := Apply(s3, m);
    ReachNext(slots, s, m);
    ReachNext(slots, s1, m);
    ReachNext(slots, s2, m);
    ReachNext(slots, s3, m);
    ReachNext(slots, s4, m);
  }

  /** 0, 1, ..., n-1. */
  function Naturals(n: nat): seq<int> {
    if n == 0 then [] else Naturals(n - 1) + [n - 1]
  }

  /** The ring can hold 0, 1, ..., n-1, for any n below its capacity. */
  lemma {:induction false} CanHold(slots: seq<int>, n: nat) returns (s: State<int>)
    requires n < |slots|
    ensures Reachable(slots, s) && |s.slots| == |slots| && forall i :: 0 <= i < n ==> s.slots[i] == i
    ensures s == State(s.slots, 0, n, ReaderIdle, WriterIdle, Naturals(n), [], false)
  {
    if n == 0 {
      s := Start(slots);
      assert Execute(s, []) == s;
    } else {
      s := CanHold(slots, n - 1);
      WriteAlone(slots, s, n - 1);
      s := s.(slots := s.slots[n - 1 := n - 1], writeIdx := n, written := s.written + [n - 1]);
    }
  }

  /** A write that finds the ring full, up to the point where it is about to load the read index. */
  lemma FullWriteFills(slots: seq<int>, s: State<int>, v: int) returns (t: State<int>)
    requires |slots| > 0 && Reachable(slots, s) && s.writer.WriterIdle?
    requires Next(|s.slots|, s.writeIdx) == s.readIdx
    ensures t == s.(slots := s.slots[s.writeIdx := v], sawFull := true, writer := Overtaking(v, s.readIdx))
    ensures Reachable(slots, t)
  {
    var m := WriterMoves(v);
    var s1 := Apply(s, m);
    var s2 := Apply(s1, m);
    var s3 := Apply(s2, m);
    ReachNext(slots, s, m);
    ReachNext(slots, s1, m);
    ReachNext(slots, s2, m);
    ReachNext(slots, s3, m);
    t := Apply(s3, m);
  }

  /** The reader takes the first `k` values of a ring that holds 0, 1, ... from its first place on. */
  lemma {:induction false} ReadMany(slots: seq<int>, s: State<int>, k: nat)
    requires |slots| > 0 && Reachable(slots, s) && s.reader.ReaderIdle? && |s.slots| == |slots|
    requires s.readIdx == 0 && s.taken == [] && k <= s.writeIdx && forall i :: 0 <= i < s.writeIdx ==> s.slots[i] == i
    ensures Reachable(slots, s.(readIdx := k, taken := Naturals(k)))
  {
    if k == 0 {
      assert s == s.(readIdx := 0, taken := Naturals(0));
    } else {
      ReadMany(slots, s, k - 1);
      ReadAlone(slots, s.(readIdx := k - 1, taken := Naturals(k - 1)));
      assert Next(|slots|, k - 1) == k;
    }
  }

  /** The reader empties the ring while a write that found it full is about to load the read index; the write then moves
      that index round to the first value, which the reader takes again. */
  lemma ReadAgain(slots: seq<int>) returns (s: State<int>)
    requires |slots| >= 2
    ensures Reachable(slots, s) && s.writer.WriterIdle?
    ensures s.written == Naturals(|slots|) && s.taken == Naturals(|slots| - 1) + [0]
  {
    hide Reachable;
    var cap := |slots|;
    s := CanHold(slots, cap - 1);
    assert Next(cap, cap - 1) == 0;
    s := FullWriteFills(slots, s, cap - 1);
    ReadMany(slots, s, cap - 1);
    s := s.(readIdx := cap - 1, taken := Naturals(cap - 1));
    var m := WriterMoves(0);
    ReachNext(slots, s, m);
    s := Apply(s, m);
    ReachNext(slots, s, m);
    s := Apply(s, m);
    ReadAlone(slots, s);
    s := s.(readIdx := Next(cap, 0), taken := Naturals(cap - 1) + [0]);
    ReachNext(slots, s, m);
    s := Apply(s, m);
  }

  lemma {:induction false} NaturalsAt(n: nat, i: nat)
    requires i < n
    ensures |Naturals(n)| == n && Naturals(n)[i] == i
  {
    if i < n - 1 {
      NaturalsAt(n - 1, i);
    } else if n > 1 {
      NaturalsAt(n - 1, 0);
    }
  }

  /** On every ring of at least two places, as many writes as it has places can make the reader deliver one value twice
      and another never. */
  lemma {:induction false} FullWriteCanRepeatAValue(slots: seq<int>)
    requires |slots| >= 2
    ensures exists moves: seq<Move<int>> ::
              var s := Execute(Start(slots), moves);
              s.writer.WriterIdle? && s.written == Naturals(|slots|) && s.taken == Naturals(|slots| - 1) + [0]
  {
    var s := ReadAgain(slots);
    var moves :| Execute(Start(slots), moves) == s;
  }

  // ---------- The exact condition ----------

  /** Writes begun so far, finished or not. */
  function Begun<T>(s: State<T>): nat {
    |s.written| + if s.writer.WriterIdle? then 0 else 1
  }

  lemma BegunGrows<T>(s: State<T>, m: Move<T>)
    requires InRange(s)
    ensures Begun(s) <= Begun(Apply(s, m))
  {
  }

  /** Fewer writes than places never find the ring full, whatever the reader does. */
  lemma {:induction false} FewWritesNeverFull<T>(slots: seq<T>, moves: seq<Move<T>>)
    requires |slots| > 0 && Begun(Execute(Start(slots), moves)) < |slots|
    ensures !Execute(Start(slots), moves).sawFull
  {
    hide Inv, Apply;
    if moves != [] {
      var front, m := moves[..|moves| - 1], moves[|moves| - 1];
      var s := Execute(Start(slots), front);
      BegunGrows(s, m);
      FewWritesNeverFull(slots, front);
      ExecuteKeeps(slots, front);
      LookFindsRoom(s, m);
    }
  }

  lemma LookFindsRoom<T>(s: State<T>, m: Move<T>)
    requires Inv(s) && InRange(s) && !s.sawFull && Begun(Apply(s, m)) < |s.slots|
    ensures !Apply(s, m).sawFull
  {
    FullMeansFull(s);
  }

  /** A ring of one place never holds a value, and its reader never takes one. */
  lemma {:induction false} OnePlaceTakesNothing<T>(slots: seq<T>, moves: seq<Move<T>>)
    requires |slots| == 1
    ensures var s := Execute(Start(slots), moves);
            s.taken == [] && (s.reader.ReaderIdle? || s.reader.LoadedRead?)
  {
    if moves != [] {
      OnePlaceTakesNothing(slots, moves[..|moves| - 1]);
    }
  }

  /** Every interleaving with at most `n` writes gives the reader a prefix of what was written. */
  ghost predicate Faithful(slots: seq<int>, n: nat)
    requires |slots| > 0
  {
    forall moves: seq<Move<int>> ::
      Begun(Execute(Start(slots), moves)) <= n ==> Execute(Start(slots), moves).taken <= Execute(Start(slots), moves).written
  }

  /** Concurrent FIFO holds for a number of writes exactly when the ring has more places than that, or only one. */
  lemma FifoExactly(slots: seq<int>, n: nat)
    requires |slots| > 0
    ensures Faithful(slots, n) <==> n < |slots| || |slots| == 1
  {
    if n < |slots| || |slots| == 1 {
      forall moves: seq<Move<int>> | Begun(Execute(Start(slots), moves)) <= n
        ensures Execute(Start(slots), moves).taken <= Execute(Start(slots), moves).written
      {
        if |slots| == 1 {
          OnePlaceTakesNothing(slots, moves);
        } else {
          FewWritesNeverFull(slots, moves);
          ReadsArePrefixOfWrites(slots, moves);
        }
      }
    } else {
      FullWriteCanRepeatAValue(slots);
      NaturalsAt(|slots|, |slots| - 1);
      NaturalsAt(|slots| - 1, 0);
    }
  }
}
