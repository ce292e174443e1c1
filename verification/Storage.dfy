/** The storage worker (`gateway/src/storage.rs`): a writer that keeps the lines of the current hour in memory and
    rewrites the hour's file for every frame, and the fixed order in which a frame is published.

    The disk is a map from paths to contents. Every step of every write may fail or be the last one before the process
    dies; the environment decides how many steps of a request go through. Times and durations are parameters.
 */
module Storage {
  import opened Common
  import opened HourLog

  datatype Path =
    | HourFile(hour: nat) | HourTmp(hour: nat)
    | LatestJson | LatestIndex | LatestTmp
    | StatsJson | StatsTmp
    | SnapshotJson | SnapshotTmp

  /** Rust's `with_extension("tmp")`; `latest.json` and `latest` share their temporary file. */
  function TmpOf(p: Path): Path {
    match p
    case HourFile(hour) => HourTmp(hour)
    case LatestJson | LatestIndex => LatestTmp
    case StatsJson => StatsTmp
    case SnapshotJson => SnapshotTmp
    case _ => p
  }

  predicate Published(p: Path) {
    p.HourFile? || p in {LatestJson, LatestIndex, StatsJson, SnapshotJson}
  }

  /** `windowEnd` is in seconds since the epoch; `json` is absent when the frame does not serialize. */
  datatype Frame = Frame(windowId: nat, windowEnd: int, json: Option<string>)

  datatype Stats = Stats(json: string)

  datatype Document =
    | Log(text: string)
    | FrameDoc(frame: Frame)
    | StatsDoc(stats: Stats)
    | SnapshotDoc(latest: Frame, snapshotStats: Stats)
    | IndexDoc(windowId: nat, windowEndUnix: Option<nat>, hourFile: Option<nat>)

  /** A file is torn from its creation until all its bytes are written. */
  datatype Content = Torn | Whole(doc: Document)

  type Files = map<Path, Content>

  /** Instants before the epoch count as the epoch. */
  function HourKey(windowEnd: int): (hour: nat)
    ensures windowEnd >= 0 ==> 3600 * hour <= windowEnd < 3600 * (hour + 1)
    ensures windowEnd < 0 ==> hour == 0
  {
    if windowEnd < 0 then 0 else windowEnd / 3600
  }

  /** What the environment grants a request: whether a log can be read, and how many steps of its writes succeed. */
  datatype Faults = Faults(readable: bool, steps: nat)

  // ---------- One atomic write ----------

  datatype Write = Write(path: Path, doc: Document)

  /** The disk when the first `steps` of create, fill and rename have happened. */
  function AfterWrite(files: Files, w: Write, steps: nat): Files {
    if steps == 0 then files
    else if steps == 1 then files[TmpOf(w.path) := Torn]
    else if steps == 2 then files[TmpOf(w.path) := Whole(w.doc)]
    else (files - {TmpOf(w.path)})[w.path := Whole(w.doc)]
  }

  function StepsAfter(steps: nat): nat {
    if steps < 3 then 0 else steps - 3
  }

  /** The writes of a plan one after the other, until one fails. */
  function AfterWrites(files: Files, plan: seq<Write>, steps: nat): Files
    decreases |plan|
  {
    if plan == [] then files
    else AfterWrites(AfterWrite(files, plan[0], steps), plan[1..], StepsAfter(steps))
  }

  class Disk {
    var files: Files
    var steps: nat
    var readable: bool

    constructor (files: Files)
      ensures this.files == files && steps == 0 && readable
    {
      this.files, steps, readable := files, 0, true;
    }

    method Grant(faults: Faults)
      modifies this`steps, this`readable
      ensures steps == faults.steps && readable == faults.readable
    {
      steps, readable := faults.steps, faults.readable;
    }

    method Put(p: Path, content: Content) returns (ok: bool)
      modifies this`files, this`steps
      ensures ok == (old(steps) > 0)
      ensures if ok then files == old(files)[p := content] && steps == old(steps) - 1
              else files == old(files) && steps == old(steps)
    {
      ok := steps > 0;
      if ok {
        files, steps := files[p := content], steps - 1;
      }
    }

    method Rename(from: Path, to: Path) returns (ok: bool)
      requires from in files && from != to
      modifies this`files, this`steps
      ensures ok == (old(steps) > 0)
      ensures if ok then files == (old(files) - {from})[to := old(files)[from]] && steps == old(steps) - 1
              else files == old(files) && steps == old(steps)
    {
      ok := steps > 0;
      if ok {
        files, steps := (files - {from})[to := files[from]], steps - 1;
      }
    }

    /** Write beside the target, then rename over it; a failure leaves the target as it was. */
    method AtomicWrite(path: Path, doc: Document) returns (ok: bool)
      requires Published(path)
      modifies this`files, this`steps
      ensures ok == (old(steps) >= 3)
      ensures files == AfterWrite(old(files), Write(path, doc), old(steps))
      ensures steps == StepsAfter(old(steps))
    {
      var tmp := TmpOf(path);
      ok := Put(tmp, Torn);
      if !ok { return; }
      ok := Put(tmp, Whole(doc));
      if !ok { return; }
      ok := Rename(tmp, path);
    }
  }

  // ---------- The hourly writer ----------

  datatype Writer = Writer(hour: Option<nat>, path: Option<Path>, lines: seq<string>)

  const FRESH := Writer(None, None, [])

  /** Reading a log: a missing file is an empty log; anything but readable text is an error. */
  function ReadLines(files: Files, path: Path, readable: bool): Option<seq<string>> {
    if !readable then None
    else if path !in files then Some([])
    else if files[path].Whole? && files[path].doc.Log? then Some(Parse(files[path].doc.text))
    else None
  }

  function Rotated(w: Writer, files: Files, readable: bool, hour: nat): Option<Writer> {
    if w.hour == Some(hour) && w.path.Some? then Some(w)
    else
      match ReadLines(files, HourFile(hour), readable)
      case None => None
      case Some(lines) => Some(Writer(Some(hour), Some(HourFile(hour)), lines))
  }

  function Pushed(w: Writer, line: string): Writer {
    w.(lines := w.lines + [line])
  }

  class HourlyWriter {
    var currentHour: Option<nat>
    var currentPath: Option<Path>
    var currentLines: seq<string>

    function View(): Writer
      reads this
    {
      Writer(currentHour, currentPath, currentLines)
    }

    predicate Valid()
      reads this
    {
      currentPath.Some? ==> Published(currentPath.value)
    }

    constructor ()
      ensures View() == FRESH && Valid()
    {
      currentHour, currentPath, currentLines := None, None, [];
    }

    /** A log that cannot be read leaves the cache as it was. */
    method RotateIfNeeded(disk: Disk, hour: nat) returns (ok: bool)
      requires Valid()
      modifies this
      ensures Valid()
      ensures ok == Rotated(old(View()), disk.files, disk.readable, hour).Some?
      ensures View() == if ok then Rotated(old(View()), disk.files, disk.readable, hour).value else old(View())
      ensures ok ==> currentPath.Some?
    {
      if currentHour == Some(hour) && currentPath.Some? {
        return true;
      }
      match ReadLines(disk.files, HourFile(hour), disk.readable) {
        case None =>
          return false;
        case Some(existing) =>
          currentHour, currentPath, currentLines := Some(hour), Some(HourFile(hour)), existing;
          return true;
      }
    }

    /** A frame that does not serialize changes neither cache nor disk beyond the rotation; one whose flush fails stays
        in the cache. */
    method AppendJsonl(disk: Disk, hour: nat, frame: Frame) returns (ok: bool)
      requires Valid()
      modifies this, disk`files, disk`steps
      ensures Valid()
      ensures match Rotated(old(View()), old(disk.files), disk.readable, hour)
              case None => !ok && View() == old(View()) && disk.files == old(disk.files)
              case Some(w) =>
                match frame.json
                case None => !ok && View() == w && disk.files == old(disk.files)
                case Some(line) =>
                  && View() == Pushed(w, line)
                  && currentPath.Some?
                  && ok == (old(disk.steps) >= 3)
                  && disk.files == AfterWrite(old(disk.files), Write(currentPath.value, Log(Render(currentLines))), old(disk.steps))
                  && disk.steps == StepsAfter(old(disk.steps))
    {
      ok := RotateIfNeeded(disk, hour);
      if !ok || frame.json.None? {
        return false;
      }
      currentLines := currentLines + [frame.json.value];
      ok := Flush(disk);
    }

    method Flush(disk: Disk) returns (ok: bool)
      requires Valid()
      modifies disk`files, disk`steps
      ensures currentPath.None? ==> ok && disk.files == old(disk.files) && disk.steps == old(disk.steps)
      ensures currentPath.Some? ==>
                && ok == (old(disk.steps) >= 3)
                && disk.files == AfterWrite(old(disk.files), Write(currentPath.value, Log(Render(currentLines))), old(disk.steps))
                && disk.steps == StepsAfter(old(disk.steps))
    {
      match currentPath {
        case None =>
          return true;
        case Some(path) =>
          var text := Join(currentLines);
          if text != "" {
            text := text + "\n";
          }
          ok := disk.AtomicWrite(path, Log(text));
      }
    }
  }

  // ---------- Persisting a frame ----------

  datatype Request = Request(frame: Frame, stats: Option<Stats>, faults: Faults, micros: nat)

  function IndexOf(frame: Frame, hour: Option<nat>): Document {
    IndexDoc(frame.windowId, if frame.windowEnd < 0 then None else Some(frame.windowEnd), hour)
  }

  function StatsWrites(frame: Frame, stats: Option<Stats>): seq<Write> {
    match stats
    case None => []
    case Some(v) => [Write(StatsJson, StatsDoc(v)), Write(SnapshotJson, SnapshotDoc(frame, v))]
  }

  /** What is written for a frame, in order, once the cache holds its line. */
  function Plan(w: Writer, frame: Frame, stats: Option<Stats>): seq<Write>
    requires w.path.Some?
  {
    [Write(w.path.value, Log(Render(w.lines))), Write(LatestJson, FrameDoc(frame))]
    + StatsWrites(frame, stats)
    + [Write(LatestIndex, IndexOf(frame, w.hour))]
  }

  datatype Outcome = Outcome(writer: Writer, files: Files, ok: bool)

  function Persisted(w: Writer, files: Files, req: Request): Outcome {
    match Rotated(w, files, req.faults.readable, HourKey(req.frame.windowEnd))
    case None => Outcome(w, files, false)
    case Some(r) =>
      match req.frame.json
      case None => Outcome(r, files, false)
      case Some(line) =>
        var plan := Plan(Pushed(r, line), req.frame, req.stats);
        Outcome(Pushed(r, line), AfterWrites(files, plan, req.faults.steps), req.faults.steps >= 3 * |plan|)
  }

  /** `failed` says whether `last_error` is set. */
  datatype Metrics = Metrics(
    persistedFrames: nat, lastPersistUs: nat, maxPersistUs: nat,
    lastWindowId: Option<nat>, currentHourFile: Option<nat>, failed: bool)

  const NO_METRICS := Metrics(0, 0, 0, None, None, false)

  function Metered(m: Metrics, ok: bool, req: Request, hour: Option<nat>): Metrics {
    if !ok then m.(failed := true)
    else
      var us := Min(req.micros, U64_MAX);
      Metrics(m.persistedFrames + 1, us, Max(m.maxPersistUs, us), Some(req.frame.windowId), hour, false)
  }

  datatype State = State(writer: Writer, files: Files, metrics: Metrics)

  function Served(s: State, req: Request): State {
    var o := Persisted(s.writer, s.files, req);
    State(o.writer, o.files, Metered(s.metrics, o.ok, req, o.writer.hour))
  }

  predicate Acked(s: State, req: Request) {
    Persisted(s.writer, s.files, req).ok
  }

  function ServedAll(s: State, reqs: seq<Request>): State {
    if reqs == [] then s else Served(ServedAll(s, reqs[..|reqs| - 1]), reqs[|reqs| - 1])
  }

  /** The answers to a sequence of requests, in order. */
  function AcksOf(s: State, reqs: seq<Request>): seq<bool> {
    if reqs == [] then []
    else
      var front := reqs[..|reqs| - 1];
      AcksOf(s, front) + [Acked(ServedAll(s, front), reqs[|reqs| - 1])]
  }

  datatype Msg = Persist(req: Request) | Shutdown

  function Requests(msgs: seq<Msg>): seq<Request> {
    if msgs == [] then []
    else
      var last := msgs[|msgs| - 1];
      Requests(msgs[..|msgs| - 1]) + (if last.Persist? then [last.req] else [])
  }

  class StorageWorker {
    const disk: Disk
    const hourly: HourlyWriter
    var metrics: Metrics

    function Now(): State
      reads this, disk, hourly
    {
      State(hourly.View(), disk.files, metrics)
    }

    predicate Valid()
      reads this, hourly
    {
      hourly.Valid()
    }

    constructor (files: Files)
      ensures Valid() && Now() == State(FRESH, files, NO_METRICS) && fresh(disk) && fresh(hourly)
    {
      disk := new Disk(files);
      hourly := new HourlyWriter();
      metrics := NO_METRICS;
    }

    /** The hour's log, then `latest.json`, then the stats and the snapshot if there are stats, then the index. */
    method PersistRuntimeArtifacts(req: Request) returns (ok: bool)
      requires Valid() && disk.steps == req.faults.steps && disk.readable == req.faults.readable
      modifies hourly, disk`files, disk`steps
      ensures Valid()
      ensures Outcome(hourly.View(), disk.files, ok) == Persisted(old(hourly.View()), old(disk.files), req)
    {
      hide Render, Rotated, IndexOf, AfterWrite, AfterWrites;
      var frame, stats := req.frame, req.stats;
      ghost var files0, steps0 := disk.files, disk.steps;
      ok := hourly.AppendJsonl(disk, HourKey(frame.windowEnd), frame);
      ghost var plan := if hourly.currentPath.Some? then Plan(hourly.View(), frame, stats) else [];
      if !ok {
        if plan != [] {
          FirstWrite(files0, plan[0], steps0);
          assert plan[..1] == [plan[0]];
          StopsAfter(files0, plan, 1, steps0);
        }
        return;
      }
      FirstWrite(files0, plan[0], steps0);
      assert plan[..1] == [plan[0]];
      assert disk.files == AfterWrites(files0, plan[..1], steps0);
      ok := disk.AtomicWrite(LatestJson, FrameDoc(frame));
      NextWrite(files0, plan, 1, steps0);
      StopsAfter(files0, plan, 2, steps0);
      if !ok { return; }
      if stats.Some? {
        ok := disk.AtomicWrite(StatsJson, StatsDoc(stats.value));
        NextWrite(files0, plan, 2, steps0);
        StopsAfter(files0, plan, 3, steps0);
        if !ok { return; }
        ok := disk.AtomicWrite(SnapshotJson, SnapshotDoc(frame, stats.value));
        NextWrite(files0, plan, 3, steps0);
        StopsAfter(files0, plan, 4, steps0);
        if !ok { return; }
      }
      ok := disk.AtomicWrite(LatestIndex, IndexOf(frame, hourly.currentHour));
      NextWrite(files0, plan, |plan| - 1, steps0);
      assert plan[..|plan|] == plan;
      assert disk.files == AfterWrites(files0, plan, steps0);
      assert ok == (steps0 >= 3 * |plan|);
    }

    /** One request, answered after its frame has been published or its persistence has failed. */
    method PersistWithMetrics(req: Request) returns (ok: bool)
      requires Valid()
      modifies this, hourly, disk
      ensures Valid()
      ensures Now() == Served(old(Now()), req) && ok == Acked(old(Now()), req)
    {
      hide Persisted;
      disk.Grant(req.faults);
      ok := PersistRuntimeArtifacts(req);
      if ok {
        var us := Min(req.micros, U64_MAX);
        metrics := Metrics(metrics.persistedFrames + 1, us, Max(metrics.maxPersistUs, us), Some(req.frame.windowId),
                           hourly.currentHour, false);
      } else {
        metrics := metrics.(failed := true);
      }
    }

    /** The worker's thread over the messages it will ever receive; the shutdown flag is seen after `flagAfter` of them.
        Every request is served, in order, and answered once, whichever loop takes it. */
    method WorkLoop(msgs: seq<Msg>, flagAfter: nat) returns (acks: seq<bool>)
      requires Valid()
      modifies this, hourly, disk
      ensures Valid()
      ensures Now() == ServedAll(old(Now()), Requests(msgs))
      ensures acks == AcksOf(old(Now()), Requests(msgs))
    {
      hide Served, Acked;
      var i := 0;
      acks := [];
      while i < |msgs| && i < flagAfter
        invariant 0 <= i <= |msgs|
        invariant Valid()
        invariant Now() == ServedAll(old(Now()), Requests(msgs[..i]))
        invariant acks == AcksOf(old(Now()), Requests(msgs[..i]))
      {
        acks := Receive(msgs, i, acks, old(Now()));
        i := i + 1;
        if msgs[i - 1].Shutdown? {
          break;
        }
      }
      while i < |msgs|
        invariant 0 <= i <= |msgs|
        invariant Valid()
        invariant Now() == ServedAll(old(Now()), Requests(msgs[..i]))
        invariant acks == AcksOf(old(Now()), Requests(msgs[..i]))
      {
        acks := Receive(msgs, i, acks, old(Now()));
        i := i + 1;
      }
      assert msgs[..i] == msgs;
    }

    /** Receiving message `i`: a request is served, a shutdown only ends the first loop. */
    method Receive(msgs: seq<Msg>, i: nat, before: seq<bool>, ghost start: State) returns (acks: seq<bool>)
      requires Valid() && i < |msgs|
      requires Now() == ServedAll(start, Requests(msgs[..i])) && before == AcksOf(start, Requests(msgs[..i]))
      modifies this, hourly, disk
      ensures Valid()
      ensures Now() == ServedAll(start, Requests(msgs[..i + 1])) && acks == AcksOf(start, Requests(msgs[..i + 1]))
    {
      hide Served, Acked;
      assert msgs[..i + 1][..i] == msgs[..i];
      ghost var reqs := Requests(msgs[..i]);
      acks := before;
      match msgs[i] {
        case Persist(req) =>
          assert Requests(msgs[..i + 1]) == reqs + [req] && (reqs + [req])[..|reqs|] == reqs;
          var ok := PersistWithMetrics(req);
          acks := acks + [ok];
        case Shutdown =>
          assert Requests(msgs[..i + 1]) == reqs;
      }
    }
  }

  lemma {:induction false} NothingWithoutSteps(files: Files, plan: seq<Write>)
    ensures AfterWrites(files, plan, 0) == files
    decreases |plan|
  {
    if plan != [] {
      NothingWithoutSteps(files, plan[1..]);
    }
  }

  function StepsAfterAll(steps: nat, writes: nat): nat {
    if steps < 3 * writes then 0 else steps - 3 * writes
  }

  lemma {:induction false} WritesOfBoth(files: Files, p: seq<Write>, q: seq<Write>, steps: nat)
    ensures AfterWrites(files, p + q, steps)
         == AfterWrites(AfterWrites(files, p, steps), q, StepsAfterAll(steps, |p|))
    decreases |p|
  {
    if p == [] {
      assert p + q == q;
    } else {
      assert (p + q)[0] == p[0] && (p + q)[1..] == p[1..] + q;
      WritesOfBoth(AfterWrite(files, p[0], steps), p[1..], q, StepsAfter(steps));
    }
  }

  lemma {:induction false} FirstWrite(files: Files, w: Write, steps: nat)
    ensures AfterWrites(files, [w], steps) == AfterWrite(files, w, steps)
  {
    assert AfterWrites(AfterWrite(files, w, steps), [w][1..], StepsAfter(steps)) == AfterWrite(files, w, steps);
  }

  lemma {:induction false} NextWrite(files: Files, plan: seq<Write>, n: nat, steps: nat)
    requires n < |plan|
    ensures AfterWrites(files, plan[..n + 1], steps)
         == AfterWrite(AfterWrites(files, plan[..n], steps), plan[n], StepsAfterAll(steps, n))
  {
    assert plan[..n + 1] == plan[..n] + [plan[n]];
    WritesOfBoth(files, plan[..n], [plan[n]], steps);
    FirstWrite(AfterWrites(files, plan[..n], steps), plan[n], StepsAfterAll(steps, n));
  }

  /** Once the steps have run out, the rest of a plan does nothing. */
  lemma {:induction false} StopsAfter(files: Files, plan: seq<Write>, n: nat, steps: nat)
    requires n <= |plan|
    ensures steps <= 3 * n ==> AfterWrites(files, plan, steps) == AfterWrites(files, plan[..n], steps)
  {
    assert plan == plan[..n] + plan[n..];
    WritesOfBoth(files, plan[..n], plan[n..], steps);
    NothingWithoutSteps(AfterWrites(files, plan[..n], steps), plan[n..]);
  }
}
