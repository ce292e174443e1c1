/** What the storage worker keeps on disk over every run: any frames in any order of hours, failures at any step of any
    write, and restarts of the process. A run that ends inside a request is a run whose last request failed there, so a
    statement about the disk after every run is one about the disk at every cut point. */
module StorageProofs {
  import opened Common
  import opened HourLog
  import opened Storage

  /** A restart drops the writer's cache and the metrics, and leaves the disk. */
  datatype Event = Serve(req: Request) | Restart

  function Stepped(s: State, e: Event): State {
    match e
    case Serve(req) => Served(s, req)
    case Restart => State(FRESH, s.files, NO_METRICS)
  }

  function After(s: State, run: seq<Event>): State {
    if run == [] then s else Stepped(After(s, run[..|run| - 1]), run[|run| - 1])
  }

  /** The request was answered `Ok`. */
  predicate AckedAt(s: State, run: seq<Event>, i: nat)
    requires i < |run|
  {
    run[i].Serve? && Acked(After(s, run[..i]), run[i].req)
  }

  predicate ForHour(e: Event, h: nat) {
    e.Serve? && HourKey(e.req.frame.windowEnd) == h && e.req.frame.json.Some?
  }

  /** The lines submitted for an hour, in order. */
  function Submitted(run: seq<Event>, h: nat): seq<string> {
    if run == [] then []
    else
      var last := run[|run| - 1];
      Submitted(run[..|run| - 1], h) + (if ForHour(last, h) then [last.req.frame.json.value] else [])
  }

  /** The lines of an hour that were acknowledged, in order. */
  function Acknowledged(s: State, run: seq<Event>, h: nat): seq<string> {
    if run == [] then []
    else
      var n := |run| - 1;
      Acknowledged(s, run[..n], h)
      + (if ForHour(run[n], h) && AckedAt(s, run, n) then [run[n].req.frame.json.value] else [])
  }

  /** What a reader of an hour's log sees. */
  function OnDisk(files: Files, h: nat): seq<string> {
    var p := HourFile(h);
    if p in files && files[p].Whole? && files[p].doc.Log? then Parse(files[p].doc.text) else []
  }

  /** Nothing published is torn, and logs hold text. */
  predicate Intact(files: Files) {
    forall p :: p in files && Published(p) ==> files[p].Whole? && (p.HourFile? ==> files[p].doc.Log?)
  }

  predicate Startable(s: State) {
    s.writer == FRESH && Intact(s.files)
  }

  /** Serialized frames are lines that survive being written and read. */
  predicate CleanRun(run: seq<Event>) {
    forall i :: 0 <= i < |run| ==> run[i].Serve? && run[i].req.frame.json.Some? ==> Clean(run[i].req.frame.json.value)
  }

  // ---------- The disk ----------

  lemma WriteKeepsIntact(files: Files, w: Write, steps: nat)
    requires Intact(files) && Published(w.path) && (w.path.HourFile? ==> w.doc.Log?)
    ensures Intact(AfterWrite(files, w, steps))
  {
  }

  predicate Publishes(plan: seq<Write>) {
    forall i :: 0 <= i < |plan| ==> Published(plan[i].path) && (plan[i].path.HourFile? ==> plan[i].doc.Log?)
  }

  lemma {:induction false} WritesKeepIntact(files: Files, plan: seq<Write>, steps: nat)
    requires Intact(files) && Publishes(plan)
    ensures Intact(AfterWrites(files, plan, steps))
    decreases |plan|
  {
    if plan != [] {
      WriteKeepsIntact(files, plan[0], steps);
      WritesKeepIntact(AfterWrite(files, plan[0], steps), plan[1..], StepsAfter(steps));
    }
  }

  function Look(files: Files, p: Path): Option<Content> {
    if p in files then Some(files[p]) else None
  }

  /** A published path that the plan does not write keeps its content. */
  lemma {:induction false} WritesLeave(files: Files, plan: seq<Write>, steps: nat, p: Path)
    requires Published(p) && Publishes(plan) && forall i :: 0 <= i < |plan| ==> plan[i].path != p
    ensures Look(AfterWrites(files, plan, steps), p) == Look(files, p)
    decreases |plan|
  {
    if plan != [] {
      WritesLeave(AfterWrite(files, plan[0], steps), plan[1..], StepsAfter(steps), p);
    }
  }

  /** A published path that the plan writes once holds its document if the steps got that far, and else what it held. */
  lemma {:induction false} WritesPut(files: Files, plan: seq<Write>, steps: nat, k: nat)
    requires k < |plan| && Publishes(plan) && forall i :: 0 <= i < |plan| && i != k ==> plan[i].path != plan[k].path
    ensures Look(AfterWrites(files, plan, steps), plan[k].path)
         == if steps >= 3 * (k + 1) then Some(Whole(plan[k].doc)) else Look(files, plan[k].path)
    decreases k
  {
    var files', rest, left := AfterWrite(files, plan[0], steps), plan[1..], StepsAfter(steps);
    if k == 0 {
      WritesLeave(files', rest, left, plan[0].path);
    } else {
      assert rest[k - 1] == plan[k];
      WritesPut(files', rest, left, k - 1);
    }
  }

  /** What a request that reaches its plan does to the published files. */
  lemma {:induction false} PlanEffects(files: Files, w: Writer, frame: Frame, stats: Option<Stats>, h: nat, steps: nat)
    requires w.hour == Some(h) && w.path == Some(HourFile(h)) && Intact(files)
    ensures var files' := AfterWrites(files, Plan(w, frame, stats), steps);
            && Intact(files')
            && Look(files', HourFile(h)) == (if steps >= 3 then Some(Whole(Log(Render(w.lines)))) else Look(files, HourFile(h)))
            && (forall k :: k != h ==> Look(files', HourFile(k)) == Look(files, HourFile(k)))
            && Look(files', LatestJson) == (if steps >= 6 then Some(Whole(FrameDoc(frame))) else Look(files, LatestJson))
            && Look(files', StatsJson)
               == (if stats.Some? && steps >= 9 then Some(Whole(StatsDoc(stats.value))) else Look(files, StatsJson))
            && Look(files', SnapshotJson)
               == (if stats.Some? && steps >= 12 then Some(Whole(SnapshotDoc(frame, stats.value))) else Look(files, SnapshotJson))
            && Look(files', LatestIndex)
               == (if steps >= 3 * |Plan(w, frame, stats)| then Some(Whole(IndexOf(frame, w.hour))) else Look(files, LatestIndex))
  {
    hide AfterWrites, Render, IndexOf, Intact;
    var plan := Plan(w, frame, stats);
    WritesKeepIntact(files, plan, steps);
    WritesPut(files, plan, steps, 0);
    WritesPut(files, plan, steps, 1);
    WritesPut(files, plan, steps, |plan| - 1);
    forall k | k != h ensures Look(AfterWrites(files, plan, steps), HourFile(k)) == Look(files, HourFile(k)) {
      WritesLeave(files, plan, steps, HourFile(k));
    }
    if stats.Some? {
      WritesPut(files, plan, steps, 2);
      WritesPut(files, plan, steps, 3);
    } else {
      WritesLeave(files, plan, steps, StatsJson);
      WritesLeave(files, plan, steps, SnapshotJson);
    }
  }

  // ---------- An hour's log against its ledger ----------

  /** The specification of one hour's log: the hour the writer has open, the lines written to the log so far, the lines of
      that hour whose flush failed since it was opened, and whether the log has been rewritten since then. */
  datatype Ledger = Ledger(open: Option<nat>, kept: seq<string>, pending: seq<string>, rewritten: bool)

  function Entered(l: Ledger, h: nat, e: Event): Ledger {
    match e
    case Restart => Ledger(None, l.kept, [], false)
    case Serve(req) =>
      var k := HourKey(req.frame.windowEnd);
      if l.open != Some(k) && !req.faults.readable then l
      else
        var l1 := if l.open == Some(k) then l else Ledger(Some(k), l.kept, [], false);
        if !ForHour(e, h) then l1
        else
          var line := req.frame.json.value;
          if req.faults.steps >= 3 then l1.(kept := l1.kept + l1.pending + [line], pending := [], rewritten := true)
          else l1.(pending := l1.pending + [line])
  }

  function LedgerOf(run: seq<Event>, h: nat): Ledger {
    if run == [] then Ledger(None, [], [], false) else Entered(LedgerOf(run[..|run| - 1], h), h, run[|run| - 1])
  }

  /** What rewriting can have done to the initial lines: dropped trailing `\r`s. */
  predicate Eroded(lines: seq<string>, initial: seq<string>) {
    && |lines| == |initial|
    && forall j :: 0 <= j < |lines| ==>
         lines[j] <= initial[j] && (!EndsInReturn(initial[j]) ==> lines[j] == initial[j])
  }

  predicate Worn(lines: seq<string>, initial: seq<string>)
    requires |lines| == |initial|
  {
    forall j :: 0 <= j < |lines| && EndsInReturn(initial[j]) ==> |lines[j]| < |initial[j]|
  }

  /** `lines` is the initial lines, eroded, and then `added`. */
  predicate Extends(lines: seq<string>, initial: seq<string>, added: seq<string>) {
    && |lines| == |initial| + |added|
    && Eroded(lines[..|initial|], initial)
    && lines[|initial|..] == added
  }

  predicate WriterOk(w: Writer) {
    match w.hour
    case None => w.path.None?
    case Some(k) => w.path == Some(HourFile(k)) && AllEntries(w.lines)
  }

  predicate LogAgrees(lines: seq<string>, kept: seq<string>, initial: seq<string>) {
    && Extends(lines, initial, kept)
    && AllClean(kept)
    && (if kept == [] then lines == initial else Worn(lines[..|initial|], initial))
  }

  /** The log of the open hour starts with the cached initial lines: as they were read, or chomped once it has been
      rewritten from the cache. */
  predicate OpenAgrees(lines: seq<string>, cached: seq<string>, initial: seq<string>, rewritten: bool) {
    && |initial| <= |lines|
    && lines[..|initial|] == if rewritten then Chomped(cached) else cached
  }

  predicate Agrees(s: State, l: Ledger, h: nat, initial: seq<string>) {
    && Intact(s.files) && WriterOk(s.writer) && s.writer.hour == l.open
    && LogAgrees(OnDisk(s.files, h), l.kept, initial)
    && AllClean(l.pending)
    && (if l.open == Some(h)
        then Extends(s.writer.lines, initial, l.kept + l.pending)
             && OpenAgrees(OnDisk(s.files, h), s.writer.lines[..|initial|], initial, l.rewritten)
        else l.pending == [])
  }

  lemma ChompedExtends(lines: seq<string>, initial: seq<string>, added: seq<string>)
    requires Extends(lines, initial, added) && AllClean(added)
    ensures Extends(Chomped(lines), initial, added) && Worn(Chomped(lines)[..|initial|], initial)
  {
  }

  /** Flushing a cache that extends the initial lines leaves a log that agrees with it. */
  lemma FlushAgrees(lines: seq<string>, initial: seq<string>, added: seq<string>)
    requires AllEntries(lines) && Extends(lines, initial, added) && AllClean(added) && added != []
    ensures LogAgrees(Parse(Render(lines)), added, initial)
    ensures OpenAgrees(Parse(Render(lines)), lines[..|initial|], initial, true)
  {
    ReadsBackChomped(lines);
    ChompedExtends(lines, initial, added);
    assert Chomped(lines)[..|initial|] == Chomped(lines[..|initial|]);
  }

  /** The rotation a request starts with. */
  function Opened(s: State, req: Request): Option<Writer> {
    Rotated(s.writer, s.files, req.faults.readable, HourKey(req.frame.windowEnd))
  }

  lemma OpenedAgrees(s: State, l: Ledger, h: nat, initial: seq<string>, req: Request)
    requires Agrees(s, l, h, initial)
    ensures Opened(s, req).Some? <==> l.open == Some(HourKey(req.frame.windowEnd)) || req.faults.readable
    ensures Opened(s, req).Some? ==>
              var k, w := HourKey(req.frame.windowEnd), Opened(s, req).value;
              && WriterOk(w) && w.hour == Some(k)
              && (k == h ==> Extends(w.lines, initial, l.kept + (if l.open == Some(k) then l.pending else [])))
              && (k == h ==> OpenAgrees(OnDisk(s.files, h), w.lines[..|initial|], initial, l.open == Some(k) && l.rewritten))
  {
    hide Parse, Eroded;
    var k := HourKey(req.frame.windowEnd);
    if l.open != Some(k) && req.faults.readable {
      assert HourFile(k) in s.files ==> s.files[HourFile(k)].Whole? && s.files[HourFile(k)].doc.Log?;
      if HourFile(k) in s.files {
        ParsedIsEntries(s.files[HourFile(k)].doc.text);
      }
      assert Opened(s, req).value.lines == OnDisk(s.files, k);
      assert l.kept + [] == l.kept;
    }
  }

  lemma ExtendsOneMore(lines: seq<string>, initial: seq<string>, added: seq<string>, line: string)
    requires Extends(lines, initial, added)
    ensures Extends(lines + [line], initial, added + [line])
    ensures (lines + [line])[..|initial|] == lines[..|initial|]
  {
    assert (lines + [line])[..|initial|] == lines[..|initial|];
  }

  lemma OnDiskIsLook(files: Files, files': Files, h: nat)
    requires Look(files, HourFile(h)) == Look(files', HourFile(h))
    ensures OnDisk(files, h) == OnDisk(files', h)
  {
  }

  lemma OnDiskIsParse(files: Files, h: nat, text: string)
    requires Look(files, HourFile(h)) == Some(Whole(Log(text)))
    ensures OnDisk(files, h) == Parse(text)
  {
  }

  lemma ServeAgrees(s: State, l: Ledger, h: nat, initial: seq<string>, req: Request)
    requires Agrees(s, l, h, initial) && (req.frame.json.Some? ==> Clean(req.frame.json.value))
    ensures Agrees(Served(s, req), Entered(l, h, Serve(req)), h, initial)
  {
    hide Extends, OpenAgrees, Rotated, AfterWrites, LogAgrees, Render, Parse, Plan, OnDisk, Intact, HourKey, Clean;
    OpenedAgrees(s, l, h, initial, req);
    if Opened(s, req).Some? && req.frame.json.Some? {
      var k, r, line := HourKey(req.frame.windowEnd), Opened(s, req).value, req.frame.json.value;
      var w := Pushed(r, line);
      assert AllEntries(w.lines) by { CleanIsEntry(line); }
      PlanEffects(s.files, w, req.frame, req.stats, k, req.faults.steps);
      var files' := AfterWrites(s.files, Plan(w, req.frame, req.stats), req.faults.steps);
      if k != h || req.faults.steps < 3 {
        OnDiskIsLook(s.files, files', h);
      } else {
        OnDiskIsParse(files', h, Render(w.lines));
      }
      if k == h {
        var added := l.kept + (if l.open == Some(k) then l.pending else []);
        ExtendsOneMore(r.lines, initial, added, line);
        assert l.kept + ((if l.open == Some(k) then l.pending else []) + [line]) == added + [line];
        if req.faults.steps >= 3 {
          AgreeingIsClean(s, l, h, initial);
          FlushAgrees(w.lines, initial, added + [line]);
          assert added + [line] + [] == added + [line];
        }
      }
    }
  }

  lemma CleanIsEntry(line: string)
    requires Clean(line)
    ensures Entry(line)
  {
  }

  lemma AgreeingIsClean(s: State, l: Ledger, h: nat, initial: seq<string>)
    requires Agrees(s, l, h, initial)
    ensures AllClean(l.kept) && AllClean(l.pending)
  {
  }

  lemma {:induction false} RunAgrees(s: State, run: seq<Event>, h: nat)
    requires Startable(s) && CleanRun(run)
    ensures Agrees(After(s, run), LedgerOf(run, h), h, OnDisk(s.files, h))
  {
    hide Served, Entered;
    if run != [] {
      var n := |run| - 1;
      RunAgrees(s, run[..n], h);
      match run[n]
      case Serve(req) => ServeAgrees(After(s, run[..n]), LedgerOf(run[..n], h), h, OnDisk(s.files, h), req);
      case Restart => RestartAgrees(After(s, run[..n]), LedgerOf(run[..n], h), h, OnDisk(s.files, h));
    }
  }

  lemma RestartAgrees(s: State, l: Ledger, h: nat, initial: seq<string>)
    requires Agrees(s, l, h, initial)
    ensures Agrees(Stepped(s, Restart), Entered(l, h, Restart), h, initial)
  {
  }

  // ---------- Every frame acknowledged ----------

  predicate AllServed(s: State, run: seq<Event>) {
    forall i :: 0 <= i < |run| ==> run[i].Restart? || AckedAt(s, run, i)
  }

  lemma AckedMeans(s: State, req: Request)
    requires Acked(s, req)
    ensures Opened(s, req).Some? && req.frame.json.Some? && req.faults.steps >= 3
  {
  }

  lemma {:induction false} ServedLedger(s: State, run: seq<Event>, h: nat)
    requires Startable(s) && CleanRun(run) && AllServed(s, run)
    ensures LedgerOf(run, h).kept == Submitted(run, h) && LedgerOf(run, h).pending == []
  {
    hide Served, Acked, Agrees, Clean;
    if run != [] {
      var n := |run| - 1;
      assert AllServed(s, run[..n]) by {
        forall i | 0 <= i < n ensures run[..n][i].Restart? || AckedAt(s, run[..n], i) {
          assert run[..n][..i] == run[..i];
          assert run[i].Restart? || AckedAt(s, run, i);
        }
      }
      ServedLedger(s, run[..n], h);
      if run[n].Serve? {
        assert AckedAt(s, run, n);
        AckedMeans(After(s, run[..n]), run[n].req);
        RunAgrees(s, run[..n], h);
        OpenedMeansLedger(After(s, run[..n]), LedgerOf(run[..n], h), h, OnDisk(s.files, h), run[n].req);
      }
    }
  }

  lemma OpenedMeansLedger(s: State, l: Ledger, h: nat, initial: seq<string>, req: Request)
    requires Agrees(s, l, h, initial) && Opened(s, req).Some?
    ensures l.open == Some(HourKey(req.frame.windowEnd)) || req.faults.readable
  {
    OpenedAgrees(s, l, h, initial, req);
  }

  /** When every request succeeds, whatever the order of hours and restarts: an hour's log is its initial non-blank lines
      followed by exactly that hour's frames, exactly when the hour got no frame or no initial line ends in `\r`. */
  lemma {:induction false} HourLogExactly(s: State, run: seq<Event>, h: nat)
    requires Startable(s) && CleanRun(run) && AllServed(s, run)
    ensures OnDisk(After(s, run).files, h) == OnDisk(s.files, h) + Submitted(run, h)
       <==> Submitted(run, h) == [] || AllClean(OnDisk(s.files, h))
    ensures var n := |OnDisk(s.files, h)|;
            var lines := OnDisk(After(s, run).files, h);
            |lines| == n + |Submitted(run, h)| && lines[n..] == Submitted(run, h)
  {
    hide After, LedgerOf, Submitted, Acked, OnDisk;
    RunAgrees(s, run, h);
    ServedLedger(s, run, h);
    OnDiskIsEntries(s.files, h);
    ExtendsExactly(OnDisk(After(s, run).files, h), OnDisk(s.files, h), Submitted(run, h));
  }

  lemma OnDiskIsEntries(files: Files, h: nat)
    ensures AllEntries(OnDisk(files, h))
  {
    var p := HourFile(h);
    if p in files && files[p].Whole? && files[p].doc.Log? {
      ParsedIsEntries(files[p].doc.text);
    }
  }

  lemma ExtendsExactly(lines: seq<string>, initial: seq<string>, added: seq<string>)
    requires LogAgrees(lines, added, initial) && AllEntries(initial)
    ensures lines == initial + added <==> added == [] || AllClean(initial)
  {
  }

  lemma ChompedOfBoth(a: seq<string>, b: seq<string>)
    requires AllClean(b)
    ensures Chomped(a + b) == Chomped(a) + b
  {
    forall i | 0 <= i < |b| ensures Chomp(b[i]) == b[i] {
      assert Clean(b[i]);
    }
  }

  /** Cached lines that start with the same lines as the log, chomped if it has been rewritten, and go on with what the
      log and the pending lines hold. */
  lemma CacheAgainstLog(cache: seq<string>, lines: seq<string>, initial: seq<string>, kept: seq<string>, pending: seq<string>,
                        rewritten: bool)
    requires AllEntries(cache) && AllClean(kept) && AllClean(pending)
    requires Extends(cache, initial, kept + pending) && Extends(lines, initial, kept)
    requires OpenAgrees(lines, cache[..|initial|], initial, rewritten)
    ensures lines + pending == if rewritten then Chomped(cache) else cache
    ensures cache == lines + pending <==> !rewritten || AllClean(cache)
  {
    hide Eroded, AllClean, AllEntries, Chomped;
    var n := |initial|;
    assert cache == cache[..n] + (kept + pending) && lines == lines[..n] + kept;
    CleanBoth(kept, pending);
    ChompedOfBoth(cache[..n], kept + pending);
    assert lines + pending == lines[..n] + (kept + pending);
    ChompedIsSame(cache);
  }

  lemma CleanBoth(a: seq<string>, b: seq<string>)
    requires AllClean(a) && AllClean(b)
    ensures AllClean(a + b)
  {
  }

  lemma ChompedIsSame(lines: seq<string>)
    requires AllEntries(lines)
    ensures Chomped(lines) == lines <==> AllClean(lines)
  {
    hide AllClean, AllEntries, Chomped, Render, Parse;
    ReadsBackChomped(lines);
    RoundTripExactly(lines);
  }

  /** The log of the open hour followed by the lines whose flush failed since it was opened is the cache as it is, or
      chomped once the log has been rewritten; so it is the cache exactly when the log has not been rewritten yet or no
      cached line ends in `\r`. After a run of successes no line is pending. */
  lemma {:induction false} CacheAgrees(s: State, run: seq<Event>, h: nat)
    requires Startable(s) && CleanRun(run) && After(s, run).writer.hour == Some(h)
    ensures After(s, run).writer.path == Some(HourFile(h))
    ensures var l, cache := LedgerOf(run, h), After(s, run).writer.lines;
            var shown := OnDisk(After(s, run).files, h) + l.pending;
            && shown == (if l.rewritten then Chomped(cache) else cache)
            && (cache == shown <==> !l.rewritten || AllClean(cache))
    ensures AllServed(s, run) ==> LedgerOf(run, h).pending == []
  {
    hide After, LedgerOf, OnDisk, Acked, AllServed, Extends, OpenAgrees, AllClean;
    RunAgrees(s, run, h);
    var l, initial := LedgerOf(run, h), OnDisk(s.files, h);
    CacheAgainstLog(After(s, run).writer.lines, OnDisk(After(s, run).files, h), initial, l.kept, l.pending, l.rewritten);
    if AllServed(s, run) {
      ServedLedger(s, run, h);
    }
  }

  lemma CleanExtends(lines: seq<string>, initial: seq<string>, added: seq<string>)
    requires Extends(lines, initial, added) && AllClean(initial)
    ensures lines == initial + added
  {
  }

  /** A disk whose only file is a log that ends in a carriage return. */
  const ENDS_IN_RETURN := State(FRESH, map[HourFile(0) := Whole(Log("x\r"))], NO_METRICS)

  const ONE_FRAME := Request(Frame(1, 0, Some("f")), None, Faults(true, 9), 0)

  /** A log that is not its initial lines and then the frames: one frame added to a file that ends in a carriage return. */
  lemma CarriageReturnIsLost()
    ensures Startable(ENDS_IN_RETURN) && CleanRun([Serve(ONE_FRAME)]) && AllServed(ENDS_IN_RETURN, [Serve(ONE_FRAME)])
    ensures Submitted([Serve(ONE_FRAME)], 0) == ["f"]
    ensures OnDisk(ENDS_IN_RETURN.files, 0) == ["x\r"]
    ensures OnDisk(After(ENDS_IN_RETURN, [Serve(ONE_FRAME)]).files, 0) == ["x", "f"]
  {
    hide Persisted, OnDisk;
    var run := [Serve(ONE_FRAME)];
    assert run[..0] == [];
    ReturnIsRead();
    ReturnIsDropped();
    assert Submitted(run[..0], 0) == [];
  }

  lemma ReturnIsRead()
    ensures OnDisk(ENDS_IN_RETURN.files, 0) == ["x\r"] && Clean("f")
  {
    assert "x\r"[0] == 'x' && "f"[0] == 'f' && !IsSpace('x') && !IsSpace('f');
    UnendedLine("x\r");
  }

  lemma ReturnIsDropped()
    ensures Acked(ENDS_IN_RETURN, ONE_FRAME) && OnDisk(Served(ENDS_IN_RETURN, ONE_FRAME).files, 0) == ["x", "f"]
  {
    hide AfterWrites, Parse, Render, Blank;
    var w := Writer(Some(0), Some(HourFile(0)), ["x\r", "f"]);
    PlanEffects(ENDS_IN_RETURN.files, w, ONE_FRAME.frame, None, 0, 9);
    ReturnIsRead();
    assert Rotated(FRESH, ENDS_IN_RETURN.files, true, 0) == Some(w.(lines := ["x\r"]));
    assert Pushed(w.(lines := ["x\r"]), "f") == w;
    OnDiskIsEntries(ENDS_IN_RETURN.files, 0);
    assert Entry(OnDisk(ENDS_IN_RETURN.files, 0)[0]);
    ReadsBackChomped(w.lines);
    assert "x\r"[..1] == "x";
    assert Chomp("x\r") == "x" && Chomp("f") == "f";
  }

  lemma {:induction false} NoLineEnd(line: string)
    requires '\n' !in line
    ensures LineEnd(line) == |line|
  {
    if line != "" {
      NoLineEnd(line[1..]);
    }
  }

  /** A file of one line that no newline ends. */
  lemma UnendedLine(line: string)
    requires Entry(line)
    ensures Parse(line) == [line]
  {
    NoLineEnd(line);
    assert line != "" && Lines(line) == [line];
    WithoutBlanksOfFirst(line, []);
    assert [line] + [] == [line] && WithoutBlanks([]) == [];
  }

  // ---------- With failures and restarts ----------

  predicate Subsequence(a: seq<string>, b: seq<string>) {
    if a == [] then true
    else if b == [] then false
    else
      var a', b' := a[..|a| - 1], b[..|b| - 1];
      Subsequence(a, b') || (a[|a| - 1] == b[|b| - 1] && Subsequence(a', b'))
  }

  lemma {:induction false} SubsequenceMore(a: seq<string>, b: seq<string>, x: string)
    requires Subsequence(a, b)
    ensures Subsequence(a, b + [x]) && Subsequence(a + [x], b + [x])
  {
    assert (b + [x])[..|b|] == b && (a + [x])[..|a|] == a;
  }

  lemma {:induction false} SubsequenceAppend(a: seq<string>, b: seq<string>, c: seq<string>)
    requires Subsequence(a, b)
    ensures Subsequence(a, b + c)
  {
    hide Subsequence;
    if c == [] {
      assert b + c == b;
    } else {
      var n := |c| - 1;
      SubsequenceAppend(a, b, c[..n]);
      SubsequenceMore(a, b + c[..n], c[n]);
      assert b + c == b + c[..n] + [c[n]];
    }
  }

  lemma {:induction false} SubsequenceFront(a: seq<string>, b: seq<string>, c: seq<string>)
    requires Subsequence(a + b, c)
    ensures Subsequence(a, c)
    decreases |b| + |c|
  {
    if b == [] {
      assert a + b == a;
    } else if c != [] {
      var x := |b| - 1;
      assert (a + b)[..|a + b| - 1] == a + b[..x];
      var c' := c[..|c| - 1];
      if Subsequence(a + b, c') {
        SubsequenceFront(a, b, c');
      } else {
        SubsequenceFront(a, b[..x], c');
      }
      SubsequenceAppend(a, c', [c[|c| - 1]]);
      assert c' + [c[|c| - 1]] == c;
    }
  }

  /** The ledger keeps every acknowledged line and no line that was not submitted, both in order. */
  lemma {:induction false} LedgerBounds(s: State, run: seq<Event>, h: nat)
    requires Startable(s) && CleanRun(run)
    ensures var l := LedgerOf(run, h);
            Subsequence(Acknowledged(s, run, h), l.kept) && Subsequence(l.kept + l.pending, Submitted(run, h))
  {
    hide After, Served, Acked, Agrees, Clean, Subsequence;
    if run == [] {
      assert LedgerOf(run, h).kept + LedgerOf(run, h).pending == [];
      NothingIsSubsequence();
    } else {
      var n := |run| - 1;
      LedgerBounds(s, run[..n], h);
      RunAgrees(s, run[..n], h);
      if ForHour(run[n], h) && AckedAt(s, run, n) {
        AckedMeans(After(s, run[..n]), run[n].req);
        OpenedMeansLedger(After(s, run[..n]), LedgerOf(run[..n], h), h, OnDisk(s.files, h), run[n].req);
      }
      EnteredBounds(LedgerOf(run[..n], h), h, run[n], Acknowledged(s, run[..n], h), Submitted(run[..n], h),
                    ForHour(run[n], h) && AckedAt(s, run, n));
    }
  }

  lemma NothingIsSubsequence()
    ensures Subsequence([], [])
  {
  }

  lemma {:induction false} EnteredBounds(l: Ledger, h: nat, e: Event, acked: seq<string>, sent: seq<string>, ack: bool)
    requires Subsequence(acked, l.kept) && Subsequence(l.kept + l.pending, sent)
    requires ack ==> ForHour(e, h) && e.req.faults.steps >= 3 && (l.open == Some(h) || e.req.faults.readable)
    ensures var l' := Entered(l, h, e);
            var added := if ForHour(e, h) then [e.req.frame.json.value] else [];
            && Subsequence(acked + (if ack then added else []), l'.kept)
            && Subsequence(l'.kept + l'.pending, sent + added)
  {
    hide Subsequence, HourKey;
    assert acked + [] == acked && sent + [] == sent && l.kept + [] == l.kept;
    SubsequenceFront(l.kept, l.pending, sent);
    if ForHour(e, h) {
      var line := e.req.frame.json.value;
      SubsequenceAppend(l.kept + l.pending, sent, [line]);
      LineBounds(acked, l.kept, if l.open == Some(h) then l.pending else [], sent, line);
    }
  }

  lemma {:induction false} LineBounds(acked: seq<string>, kept: seq<string>, open: seq<string>, sent: seq<string>, line: string)
    requires Subsequence(acked, kept) && Subsequence(kept + open, sent)
    ensures Subsequence(acked + [line], kept + open + [line]) && Subsequence(acked, kept + open + [line])
    ensures Subsequence(kept + open + [line] + [], sent + [line]) && Subsequence(kept + (open + [line]), sent + [line])
  {
    hide Subsequence;
    SubsequenceAppend(acked, kept, open);
    SubsequenceMore(acked, kept + open, line);
    SubsequenceMore(kept + open, sent, line);
    assert kept + open + [line] == kept + (open + [line]);
    assert kept + open + [line] + [] == kept + open + [line];
  }

  /** Whatever fails and however often the process restarts: an hour's log still starts with its initial lines (as they
      were, when none ends in `\r`), and behind them every acknowledged frame of that hour is present and in order, among
      frames that were submitted for it in that order. */
  lemma {:induction false} AcknowledgedFramesSurvive(s: State, run: seq<Event>, h: nat)
    requires Startable(s) && CleanRun(run)
    ensures var initial, lines := OnDisk(s.files, h), OnDisk(After(s, run).files, h);
            && |initial| <= |lines| && Eroded(lines[..|initial|], initial)
            && Subsequence(Acknowledged(s, run, h), lines[|initial|..])
            && Subsequence(lines[|initial|..], Submitted(run, h))
            && (AllClean(initial) ==> lines[..|initial|] == initial)
  {
    hide After, LedgerOf, OnDisk, Acknowledged, Submitted, Subsequence;
    RunAgrees(s, run, h);
    LedgerBounds(s, run, h);
    var l := LedgerOf(run, h);
    SubsequenceFront(l.kept, l.pending, Submitted(run, h));
    if AllClean(OnDisk(s.files, h)) {
      CleanExtends(OnDisk(After(s, run).files, h), OnDisk(s.files, h), l.kept);
    }
  }

  // ---------- Publication order ----------

  /** Which event of a run last put each published file in place. */
  datatype Marks = Marks(latest: Option<nat>, stats: Option<nat>, snapshot: Option<nat>, index: Option<nat>)

  predicate Reaches(s: State, req: Request) {
    Opened(s, req).Some? && req.frame.json.Some?
  }

  function Writes(req: Request): nat {
    if req.stats.Some? then 5 else 3
  }

  function MarkedBy(m: Marks, n: nat, req: Request): Marks {
    var steps := req.faults.steps;
    Marks(if steps >= 6 then Some(n) else m.latest,
          if req.stats.Some? && steps >= 9 then Some(n) else m.stats,
          if req.stats.Some? && steps >= 12 then Some(n) else m.snapshot,
          if steps >= 3 * Writes(req) then Some(n) else m.index)
  }

  function MarksOf(s: State, run: seq<Event>): Marks {
    if run == [] then Marks(None, None, None, None)
    else
      var n := |run| - 1;
      var m := MarksOf(s, run[..n]);
      if run[n].Serve? && Reaches(After(s, run[..n]), run[n].req) then MarkedBy(m, n, run[n].req) else m
  }

  predicate NotAfter(a: Option<nat>, b: Option<nat>) {
    a.Some? ==> b.Some? && a.value <= b.value
  }

  /** The event wrote the hour log of its frame. */
  predicate Logged(s: State, run: seq<Event>, i: nat) {
    && i < |run| && run[i].Serve? && Reaches(After(s, run[..i]), run[i].req) && run[i].req.faults.steps >= 3
  }

  /** The frame event `i` submitted stands in the log of its hour. */
  predicate InItsLog(s: State, run: seq<Event>, i: nat) {
    && i < |run| && run[i].Serve? && run[i].req.frame.json.Some?
    && run[i].req.frame.json.value in OnDisk(After(s, run).files, HourKey(run[i].req.frame.windowEnd))
  }

  predicate FromEvent(files0: Files, files: Files, p: Path, mark: Option<nat>, doc: Document) {
    Look(files, p) == if mark.Some? then Some(Whole(doc)) else Look(files0, p)
  }

  function FrameAt(run: seq<Event>, mark: Option<nat>): Frame {
    if mark.Some? && mark.value < |run| && run[mark.value].Serve? then run[mark.value].req.frame
    else Frame(0, 0, None)
  }

  function StatsAt(run: seq<Event>, mark: Option<nat>): Stats {
    if mark.Some? && mark.value < |run| && run[mark.value].Serve? && run[mark.value].req.stats.Some?
    then run[mark.value].req.stats.value
    else Stats("")
  }

  predicate MarksFit(s: State, run: seq<Event>, m: Marks) {
    && NotAfter(m.index, m.latest) && NotAfter(m.snapshot, m.stats) && NotAfter(m.stats, m.latest)
    && (m.latest.Some? ==> Logged(s, run, m.latest.value))
    && (m.index.Some? ==> Logged(s, run, m.index.value))
    && (m.stats.Some? ==> Logged(s, run, m.stats.value) && run[m.stats.value].req.stats.Some?)
    && (m.snapshot.Some? ==> Logged(s, run, m.snapshot.value) && run[m.snapshot.value].req.stats.Some?)
  }

  lemma LoggedStays(s: State, run: seq<Event>, i: nat)
    requires run != [] && Logged(s, run[..|run| - 1], i)
    ensures Logged(s, run, i)
  {
    assert run[..|run| - 1][..i] == run[..i];
  }

  lemma {:induction false} MarksFitRun(s: State, run: seq<Event>)
    ensures MarksFit(s, run, MarksOf(s, run))
  {
    hide Reaches, After;
    if run != [] {
      var n := |run| - 1;
      MarksFitRun(s, run[..n]);
      var m := MarksOf(s, run[..n]);
      forall i | Logged(s, run[..n], i) ensures Logged(s, run, i) {
        LoggedStays(s, run, i);
      }
    }
  }

  predicate FilesFit(files0: Files, files: Files, run: seq<Event>, m: Marks) {
    && FromEvent(files0, files, LatestJson, m.latest, FrameDoc(FrameAt(run, m.latest)))
    && FromEvent(files0, files, StatsJson, m.stats, StatsDoc(StatsAt(run, m.stats)))
    && FromEvent(files0, files, SnapshotJson, m.snapshot, SnapshotDoc(FrameAt(run, m.snapshot), StatsAt(run, m.snapshot)))
    && FromEvent(files0, files, LatestIndex, m.index,
                 IndexOf(FrameAt(run, m.index), Some(HourKey(FrameAt(run, m.index).windowEnd))))
  }

  lemma {:induction false} FilesFitRun(s: State, run: seq<Event>)
    requires Startable(s) && CleanRun(run)
    ensures FilesFit(s.files, After(s, run).files, run, MarksOf(s, run))
  {
    hide Served, Agrees, Clean, IndexOf, HourKey, Reaches;
    if run != [] {
      var n := |run| - 1;
      FilesFitRun(s, run[..n]);
      MarksFitRun(s, run[..n]);
      FilesFitLonger(s, run);
      if run[n].Serve? {
        var h := HourKey(run[n].req.frame.windowEnd);
        RunAgrees(s, run[..n], h);
        ServeMarks(After(s, run[..n]), LedgerOf(run[..n], h), h, OnDisk(s.files, h), s.files, run, MarksOf(s, run[..n]));
      }
    }
  }

  /** Marks made by a prefix mean the same in the whole run. */
  lemma FilesFitLonger(s: State, run: seq<Event>)
    requires run != []
    requires var front := run[..|run| - 1];
             MarksFit(s, front, MarksOf(s, front)) && FilesFit(s.files, After(s, front).files, front, MarksOf(s, front))
    ensures var front := run[..|run| - 1]; FilesFit(s.files, After(s, front).files, run, MarksOf(s, front))
  {
    hide After, MarksOf, Reaches, IndexOf, HourKey;
    var front := run[..|run| - 1];
    var m := MarksOf(s, front);
    assert m.index.Some? ==> Logged(s, front, m.index.value);
  }

  lemma ServeMarks(s: State, l: Ledger, h: nat, initial: seq<string>, files0: Files, run: seq<Event>, m: Marks)
    requires run != [] && run[|run| - 1].Serve? && h == HourKey(run[|run| - 1].req.frame.windowEnd)
    requires Agrees(s, l, h, initial) && FilesFit(files0, s.files, run, m)
    ensures var n, req := |run| - 1, run[|run| - 1].req;
            FilesFit(files0, Served(s, req).files, run, if Reaches(s, req) then MarkedBy(m, n, req) else m)
  {
    hide Rotated, AfterWrites, LogAgrees, Extends, Render, Plan, OnDisk, Intact, HourKey, IndexOf;
    var n, req := |run| - 1, run[|run| - 1].req;
    OpenedAgrees(s, l, h, initial, req);
    if Reaches(s, req) {
      var w := Pushed(Opened(s, req).value, req.frame.json.value);
      AgreeingIsIntact(s, l, h, initial);
      PlanEffects(s.files, w, req.frame, req.stats, h, req.faults.steps);
      PlanLength(w, req);
    }
  }

  lemma AgreeingIsIntact(s: State, l: Ledger, h: nat, initial: seq<string>)
    requires Agrees(s, l, h, initial)
    ensures Intact(s.files)
  {
  }

  lemma PlanLength(w: Writer, req: Request)
    requires w.path.Some?
    ensures |Plan(w, req.frame, req.stats)| == Writes(req)
  {
  }

  /** A line written to an hour's log is never lost from its ledger. */
  lemma {:induction false} LedgerKeeps(s: State, run: seq<Event>, i: nat, h: nat)
    requires Startable(s) && CleanRun(run) && Logged(s, run, i) && h == HourKey(run[i].req.frame.windowEnd)
    ensures run[i].req.frame.json.value in LedgerOf(run, h).kept
  {
    hide After, Agrees, Opened, HourKey, Clean;
    var n := |run| - 1;
    if i < n {
      assert run[..n][..i] == run[..i];
      LedgerKeeps(s, run[..n], i, h);
    } else {
      RunAgrees(s, run[..n], h);
      OpenedMeansLedger(After(s, run[..n]), LedgerOf(run[..n], h), h, OnDisk(s.files, h), run[n].req);
    }
  }

  lemma LoggedIsInItsLog(s: State, run: seq<Event>, i: nat)
    requires Startable(s) && CleanRun(run) && Logged(s, run, i)
    ensures InItsLog(s, run, i)
  {
    hide After, LedgerOf, OnDisk, HourKey, Opened, Clean;
    var h := HourKey(run[i].req.frame.windowEnd);
    RunAgrees(s, run, h);
    LedgerKeeps(s, run, i, h);
    var lines, n := OnDisk(After(s, run).files, h), |OnDisk(s.files, h)|;
    var line := run[i].req.frame.json.value;
    var k :| 0 <= k < |LedgerOf(run, h).kept| && LedgerOf(run, h).kept[k] == line;
    assert lines[n..][k] == lines[n + k];
  }

  /** After any run, and so at any cut point: no published file is torn. Each of them is what it was at the start, or the
      document of one event of the run: the snapshot pairs a frame with the stats submitted with it, and the index names
      the hour of its frame, in whose log the frame stands. The index and the stats are never ahead of `latest.json`, nor
      the snapshot of the stats. */
  lemma {:induction false} PublicationOrder(s: State, run: seq<Event>)
    requires Startable(s) && CleanRun(run)
    ensures Intact(After(s, run).files)
    ensures var m := MarksOf(s, run);
            && FilesFit(s.files, After(s, run).files, run, m)
            && MarksFit(s, run, m)
            && (m.index.Some? ==> InItsLog(s, run, m.index.value))
            && (m.latest.Some? ==> InItsLog(s, run, m.latest.value))
            && (m.snapshot.Some? ==> InItsLog(s, run, m.snapshot.value))
  {
    hide After, MarksOf, FilesFit, InItsLog, Logged, Clean;
    FilesFitRun(s, run);
    MarksFitRun(s, run);
    RunAgrees(s, run, 0);
    var m := MarksOf(s, run);
    if m.index.Some? { LoggedIsInItsLog(s, run, m.index.value); }
    if m.latest.Some? { LoggedIsInItsLog(s, run, m.latest.value); }
    if m.snapshot.Some? { LoggedIsInItsLog(s, run, m.snapshot.value); }
  }

  lemma {:induction false} WritesLeaveTemporaries(files: Files, plan: seq<Write>, steps: nat)
    requires Publishes(plan) && steps >= 3 * |plan|
    ensures forall p :: p in AfterWrites(files, plan, steps) && !Published(p) ==> p in files
    ensures forall i :: 0 <= i < |plan| ==> TmpOf(plan[i].path) !in AfterWrites(files, plan, steps)
    decreases |plan|
  {
    if plan != [] {
      var after := AfterWrite(files, plan[0], steps);
      assert forall i :: 0 < i < |plan| ==> plan[i] == plan[1..][i - 1];
      WritesLeaveTemporaries(after, plan[1..], StepsAfter(steps));
      var tmp := TmpOf(plan[0].path);
      SharedTemporaries(plan[0].path, plan[0].path);
      assert tmp !in after;
    }
  }

  /** An acknowledged request leaves none of its temporary files behind, and makes no other. */
  lemma AcknowledgedLeavesNoTemporary(s: State, req: Request)
    requires Acked(s, req) && WriterOk(s.writer)
    ensures forall p :: p in Served(s, req).files && !Published(p) ==> p in s.files
    ensures forall p :: p in {LatestJson, LatestIndex, HourFile(HourKey(req.frame.windowEnd))} ==> TmpOf(p) !in Served(s, req).files
    ensures req.stats.Some? ==> forall p :: p in {StatsJson, SnapshotJson} ==> TmpOf(p) !in Served(s, req).files
  {
    hide AfterWrites, Render, TmpOf;
    var w := Pushed(Opened(s, req).value, req.frame.json.value);
    var plan := Plan(w, req.frame, req.stats);
    WritesLeaveTemporaries(s.files, plan, req.faults.steps);
    assert plan[0].path == HourFile(HourKey(req.frame.windowEnd));
    assert plan[1].path == LatestJson && plan[|plan| - 1].path == LatestIndex;
    if req.stats.Some? {
      assert plan[2].path == StatsJson && plan[3].path == SnapshotJson;
    }
  }

  /** What a reader of the index learns: the id of a frame of the run, its end in seconds unless that is before the epoch,
      and the hour file in which the frame's line stands, which is the one its end lies in. */
  lemma {:induction false} IndexNamesFrame(s: State, run: seq<Event>, i: nat)
    requires Startable(s) && CleanRun(run) && MarksOf(s, run).index == Some(i)
    ensures i < |run| && run[i].Serve? && run[i].req.frame.json.Some?
    ensures var frame, files := run[i].req.frame, After(s, run).files;
            && LatestIndex in files && files[LatestIndex].Whole?
            && var d := files[LatestIndex].doc;
            && d.IndexDoc? && d.windowId == frame.windowId
            && (frame.windowEnd >= 0 ==> d.windowEndUnix == Some(frame.windowEnd))
            && (frame.windowEnd < 0 ==> d.windowEndUnix == None)
            && d.hourFile.Some?
            && (frame.windowEnd >= 0 ==> 3600 * d.hourFile.value <= frame.windowEnd < 3600 * (d.hourFile.value + 1))
            && (frame.windowEnd < 0 ==> d.hourFile.value == 0)
            && frame.json.value in OnDisk(files, d.hourFile.value)
  {
    hide After, MarksOf, OnDisk, Logged, Clean;
    PublicationOrder(s, run);
  }

  /** An acknowledged frame is what every published file then shows. */
  lemma {:induction false} AcknowledgedIsPublished(s: State, run: seq<Event>)
    requires Startable(s) && CleanRun(run) && run != [] && AckedAt(s, run, |run| - 1)
    ensures var n, m := |run| - 1, MarksOf(s, run);
            && m.latest == Some(n) && m.index == Some(n) && InItsLog(s, run, n)
            && (run[n].req.stats.Some? ==> m.stats == Some(n) && m.snapshot == Some(n))
  {
    hide After, Agrees, Clean, Opened, InItsLog;
    var n := |run| - 1;
    AckedMeansAll(After(s, run[..n]), run[n].req);
    RunAgrees(s, run[..n], 0);
    LoggedIsInItsLog(s, run, n);
  }

  lemma AckedMeansAll(s: State, req: Request)
    requires Acked(s, req)
    ensures Reaches(s, req) && req.faults.steps >= 3 * Writes(req)
  {
  }

  /** The writer already holds the hour's log open. */
  predicate HoldsOpen(s: State, h: nat) {
    s.writer.hour == Some(h) && s.writer.path.Some?
  }

  /** The hour's log can be read: it is missing, or a whole log. */
  predicate CanBeRead(files: Files, readable: bool, h: nat) {
    readable && (HourFile(h) in files ==> files[HourFile(h)].Whole? && files[HourFile(h)].doc.Log?)
  }

  /** A request is acknowledged exactly when its hour's log is open or can be read, its frame serializes, and the three steps
      of every write go through: three writes, or five with stats. A log that cannot be read leaves disk and cache alone. */
  lemma AckedExactly(s: State, req: Request)
    ensures var h := HourKey(req.frame.windowEnd);
            && (Acked(s, req) <==>
                  && (HoldsOpen(s, h) || CanBeRead(s.files, req.faults.readable, h))
                  && req.frame.json.Some? && req.faults.steps >= if req.stats.Some? then 15 else 9)
            && (!HoldsOpen(s, h) && !CanBeRead(s.files, req.faults.readable, h) ==>
                  Served(s, req).files == s.files && Served(s, req).writer == s.writer)
  {
  }

  // ---------- Metrics ----------

  function CountAcks(acks: seq<bool>): nat {
    if acks == [] then 0 else CountAcks(acks[..|acks| - 1]) + (if acks[|acks| - 1] then 1 else 0)
  }

  /** The request acknowledged last. */
  function LastAck(s: State, reqs: seq<Request>): Option<Request> {
    if reqs == [] then None
    else
      var front, last := reqs[..|reqs| - 1], reqs[|reqs| - 1];
      if Acked(ServedAll(s, front), last) then Some(last) else LastAck(s, front)
  }

  /** The frame counter counts the acknowledgements, the error is set exactly when the last request failed, and the other
      metrics are those of the request acknowledged last. */
  lemma {:induction false} MetricsMeanAcks(s: State, reqs: seq<Request>)
    requires s.metrics == NO_METRICS
    ensures |AcksOf(s, reqs)| == |reqs|
    ensures var m := ServedAll(s, reqs).metrics;
            && m.persistedFrames == CountAcks(AcksOf(s, reqs))
            && (m.failed <==> reqs != [] && !AcksOf(s, reqs)[|reqs| - 1])
    ensures var m := ServedAll(s, reqs).metrics;
            match LastAck(s, reqs)
            case None => m.lastPersistUs == 0 && m.lastWindowId == None && m.currentHourFile == None
            case Some(req) =>
              && m.lastPersistUs == Min(req.micros, U64_MAX)
              && m.lastWindowId == Some(req.frame.windowId)
              && m.currentHourFile == Some(HourKey(req.frame.windowEnd))
  {
    hide Persisted, HourKey;
    if reqs != [] {
      var n := |reqs| - 1;
      MetricsMeanAcks(s, reqs[..n]);
      assert AcksOf(s, reqs)[..n] == AcksOf(s, reqs[..n]);
      if Acked(ServedAll(s, reqs[..n]), reqs[n]) {
        AckedNamesHour(ServedAll(s, reqs[..n]), reqs[n]);
      }
    }
  }

  /** The longest duration bounds that of every acknowledged request. */
  lemma {:induction false} LongestPersist(s: State, reqs: seq<Request>, i: nat)
    requires i < |reqs| && Acked(ServedAll(s, reqs[..i]), reqs[i])
    ensures Min(reqs[i].micros, U64_MAX) <= ServedAll(s, reqs).metrics.maxPersistUs
  {
    hide Persisted;
    var n := |reqs| - 1;
    if i < n {
      assert reqs[..n][..i] == reqs[..i];
      LongestPersist(s, reqs[..n], i);
    }
  }

  /** And it is the duration of one of them, or zero if there is none. */
  lemma {:induction false} LongestPersistIsAttained(s: State, reqs: seq<Request>)
    requires s.metrics == NO_METRICS
    ensures var longest := ServedAll(s, reqs).metrics.maxPersistUs;
            longest == 0 || exists i :: 0 <= i < |reqs| && AckedWithin(s, reqs, i, longest)
  {
    hide Persisted;
    if reqs != [] {
      var n := |reqs| - 1;
      LongestPersistIsAttained(s, reqs[..n]);
      var before, longest := ServedAll(s, reqs[..n]).metrics.maxPersistUs, ServedAll(s, reqs).metrics.maxPersistUs;
      if longest == before != 0 {
        var i :| 0 <= i < n && AckedWithin(s, reqs[..n], i, before);
        assert reqs[..n][..i] == reqs[..i];
        assert AckedWithin(s, reqs, i, longest);
      } else if longest != 0 {
        assert AckedWithin(s, reqs, n, longest);
      }
    }
  }

  predicate AckedWithin(s: State, reqs: seq<Request>, i: nat, us: nat)
    requires i < |reqs|
  {
    Acked(ServedAll(s, reqs[..i]), reqs[i]) && Min(reqs[i].micros, U64_MAX) == us
  }

  // ---------- The worker's messages ----------

  /** The requests the worker serves are those among its messages, in order: shutdown markers hide none. */
  lemma {:induction false} RequestsOfBoth(a: seq<Msg>, b: seq<Msg>)
    ensures Requests(a + b) == Requests(a) + Requests(b)
  {
    if b == [] {
      assert a + b == a;
    } else {
      assert (a + b)[..|a + b| - 1] == a + b[..|b| - 1];
      RequestsOfBoth(a, b[..|b| - 1]);
    }
  }

  lemma RequestsOfOne(req: Request)
    ensures Requests([Persist(req)]) == [req] && Requests([Shutdown]) == []
  {
    assert [Persist(req)][..0] == [] && [Shutdown][..0] == [];
  }

  /** Two published files share a temporary file exactly when they are `latest.json` and `latest`. */
  lemma SharedTemporaries(p: Path, q: Path)
    requires Published(p) && Published(q)
    ensures TmpOf(p) == TmpOf(q) <==> p == q || (p in {LatestJson, LatestIndex} && q in {LatestJson, LatestIndex})
    ensures !Published(TmpOf(p))
  {
  }

  lemma AckedNamesHour(s: State, req: Request)
    requires Acked(s, req)
    ensures Served(s, req).writer.hour == Some(HourKey(req.frame.windowEnd))
  {
  }
}
