/** The window workers and the coordinator's reduction (`gateway/src/aggregation.rs`).

    A worker folds its readings into one map of statistics and hands the map over on `Rotate`; the
    coordinator merges the workers' maps. `Report(rs)` is the reference: the statistics and anomalies of
    one sequential pass over the readings `rs`.
 */
module Aggregation {
  import opened SensorStatistics

  datatype Reading = Reading(sensorId: string, ts: int, value: real)

  /** The source records the score z; the square of z is kept here, as reals have no square root function. */
  datatype AnomalyRecord = AnomalyRecord(sensorId: string, ts: int, value: real, zSquared: real)

  datatype WorkerMsg = Data(reading: Reading) | Rotate | Shutdown

  type Bucket = map<string, SensorStats>

  datatype WindowReport = WindowReport(bucket: Bucket, anomalies: seq<AnomalyRecord>)

  const EMPTY_REPORT := WindowReport(map[], [])

  datatype Detector = Detector(zThreshold: real, minSamples: nat)

  // ---------- Scoring one reading ----------

  /** Whether |d| / sqrt(v) exceeds the threshold, for a positive variance `v`. */
  predicate Exceeds(d: real, v: real, threshold: real) {
    threshold < 0.0 || d * d > threshold * threshold * v
  }

  function ScoreSquared(d: real, v: real): real
    requires v > 0.0
  {
    d * d / v
  }

  /** The records added for a reading, given the statistics that already include it. */
  function Judge(det: Detector, r: Reading, s: SensorStats): seq<AnomalyRecord> {
    var v := VarianceSample(s);
    var d := r.value - s.mean;
    if s.count >= det.minSamples && v > 0.0 && Exceeds(d, v, det.zThreshold)
    then [AnomalyRecord(r.sensorId, r.ts, r.value, ScoreSquared(d, v))]
    else []
  }

  function Abs(x: real): real {
    if x < 0.0 then -x else x
  }

  /** `Exceeds` is the source's test `|d| / std > threshold` for whatever `std` is the root of `v`. */
  lemma ExceedsIsScoreTest(d: real, v: real, threshold: real, std: real)
    requires v > 0.0 && std > 0.0 && std * std == v
    ensures Exceeds(d, v, threshold) <==> Abs(d) / std > threshold
  {
    var a := Abs(d);
    var z := a / std;
    assert z * std == a;
    if threshold >= 0.0 {
      assert d * d == z * z * v by {
        assert d * d == a * a;
        assert (z * std) * (z * std) == z * z * (std * std);
      }
      if z > threshold {
        ScaledSquares(threshold, z, v);
      } else {
        ScaledSquares(z, threshold, v);
      }
    }
  }

  lemma ScaledSquares(a: real, b: real, v: real)
    requires 0.0 <= a && 0.0 <= b && v > 0.0
    ensures a <= b ==> a * a * v <= b * b * v
    ensures a < b ==> a * a * v < b * b * v
  {
    if a <= b {
      var gap := b - a;
      var w := gap * (a + b);
      assert w >= 0.0;
      assert b * b == a * a + w;
      assert b * b * v == a * a * v + w * v;
      if a < b {
        assert w > 0.0;
        assert w * v > 0.0;
      }
    }
  }

  // ---------- The worker ----------

  function Entry(b: Bucket, sid: string): SensorStats {
    if sid in b then b[sid] else DEFAULT
  }

  /** The worker's state after one `Data` message. */
  function Absorbed(det: Detector, w: WindowReport, r: Reading): WindowReport {
    var s := Updated(Entry(w.bucket, r.sensorId), r.value);
    WindowReport(w.bucket[r.sensorId := s], w.anomalies + Judge(det, r, s))
  }

  /** The readings received since the last `Rotate` among `msgs`. */
  function Pending(msgs: seq<WorkerMsg>): seq<Reading> {
    if msgs == [] then []
    else
      var front := msgs[..|msgs| - 1];
      match msgs[|msgs| - 1]
      case Data(r) => Pending(front) + [r]
      case Rotate => []
      case Shutdown => Pending(front)
  }

  /** The reports owed for `msgs`: one for each `Rotate`, on exactly the readings since the one before. */
  function Owed(det: Detector, msgs: seq<WorkerMsg>): seq<WindowReport> {
    if msgs == [] then []
    else
      var front := msgs[..|msgs| - 1];
      Owed(det, front) + if msgs[|msgs| - 1].Rotate? then [Report(det, Pending(front))] else []
  }

  class AggregationWorker {
    var localStats: Bucket
    var anomalies: seq<AnomalyRecord>
    const detector: Detector

    function View(): WindowReport
      reads this
    {
      WindowReport(localStats, anomalies)
    }

    constructor (detector: Detector)
      ensures View() == EMPTY_REPORT && this.detector == detector
    {
      localStats, anomalies := map[], [];
      this.detector := detector;
    }

    method OnData(r: Reading)
      modifies this
      ensures View() == Absorbed(detector, old(View()), r)
    {
      hide Updated, Exceeds, VarianceSample, ScoreSquared;
      var sid := r.sensorId;
      var entry := if sid in localStats then localStats[sid] else DEFAULT;
      entry := Updated(entry, r.value);
      localStats := localStats[sid := entry];
      assert anomalies + [] == anomalies;
      if entry.count >= detector.minSamples {
        var variance := VarianceSample(entry);
        if variance > 0.0 {
          var d := r.value - entry.mean;
          if Exceeds(d, variance, detector.zThreshold) {
            anomalies := anomalies + [AnomalyRecord(sid, r.ts, r.value, ScoreSquared(d, variance))];
          }
        }
      }
    }

    method OnRotate() returns (report: WindowReport)
      modifies this
      ensures report == old(View()) && View() == EMPTY_REPORT
    {
      report := WindowReport(localStats, anomalies);
      localStats, anomalies := map[], [];
    }

    /** The worker thread on a whole inbox: the shutdown flag reads true at check number `flagAt`, and the
        report channel takes `accepting` reports before its receiver is gone. `taken` messages are handled. */
    method Run(inbox: seq<WorkerMsg>, flagAt: nat, accepting: nat)
      returns (sent: seq<WindowReport>, ghost taken: nat)
      requires View() == EMPTY_REPORT
      modifies this
      ensures taken <= |inbox| && forall i :: 0 <= i < taken ==> !inbox[i].Shutdown?
      ensures sent <= Owed(detector, inbox[..taken])
      ensures |sent| == accepting || sent == Owed(detector, inbox[..taken])
      ensures || taken == |inbox| || taken == flagAt || inbox[taken].Shutdown?
              || (taken > 0 && inbox[taken - 1].Rotate? && |Owed(detector, inbox[..taken])| == accepting + 1)
    {
      hide Absorbed, Report;
      sent := [];
      taken := 0;
      var i := 0;
      ReportOfNothing(detector);
      while i < |inbox| && i != flagAt
        invariant i == taken <= |inbox|
        invariant forall k :: 0 <= k < i ==> !inbox[k].Shutdown?
        invariant View() == Report(detector, Pending(inbox[..i]))
        invariant sent == Owed(detector, inbox[..i]) && |sent| <= accepting
      {
        var msg := inbox[i];
        assert inbox[..i + 1][..i] == inbox[..i];
        match msg {
          case Data(r) =>
            ReportOfOneMore(detector, Pending(inbox[..i]), r);
            OnData(r);
          case Rotate =>
            var report := OnRotate();
            if |sent| == accepting {
              taken := i + 1;
              break;
            }
            sent := sent + [report];
          case Shutdown =>
            break;
        }
        i := i + 1;
        taken := i;
      }
    }
  }

  // ---------- The reference: one sequential pass ----------

  /** The values of one sensor, in the order read. */
  function Values(rs: seq<Reading>, sid: string): seq<real> {
    if rs == [] then []
    else Values(rs[..|rs| - 1], sid) + if rs[|rs| - 1].sensorId == sid then [rs[|rs| - 1].value] else []
  }

  function Sensors(rs: seq<Reading>): set<string> {
    set r | r in rs :: r.sensorId
  }

  function BucketOf(rs: seq<Reading>): Bucket {
    map sid | sid in Sensors(rs) :: Fold(Values(rs, sid))
  }

  function AnomaliesOf(det: Detector, rs: seq<Reading>): seq<AnomalyRecord> {
    if rs == [] then []
    else
      var r := rs[|rs| - 1];
      AnomaliesOf(det, rs[..|rs| - 1]) + Judge(det, r, Fold(Values(rs, r.sensorId)))
  }

  function Report(det: Detector, rs: seq<Reading>): WindowReport {
    WindowReport(BucketOf(rs), AnomaliesOf(det, rs))
  }

  lemma ReportOfNothing(det: Detector)
    ensures Report(det, []) == EMPTY_REPORT
  {
    assert Sensors([]) == {};
  }

  lemma {:induction false} ValuesPresent(rs: seq<Reading>, sid: string)
    ensures sid in Sensors(rs) <==> Values(rs, sid) != []
  {
    if rs != [] {
      var front, r := rs[..|rs| - 1], rs[|rs| - 1];
      ValuesPresent(front, sid);
      assert rs == front + [r];
      assert r in rs;
    }
  }

  lemma {:induction false} ValuesOfOneMore(rs: seq<Reading>, r: Reading, sid: string)
    ensures Values(rs + [r], sid) == Values(rs, sid) + if r.sensorId == sid then [r.value] else []
  {
    assert (rs + [r])[..|rs|] == rs;
  }

  lemma SensorsOfOneMore(rs: seq<Reading>, r: Reading)
    ensures Sensors(rs + [r]) == Sensors(rs) + {r.sensorId}
  {
    var all := rs + [r];
    assert r in all && forall x :: x in all <==> x in rs || x == r;
  }

  lemma {:induction false} BucketOfOneMore(rs: seq<Reading>, r: Reading)
    ensures BucketOf(rs + [r]) == BucketOf(rs)[r.sensorId := Fold(Values(rs, r.sensorId) + [r.value])]
  {
    hide Fold, Values, Sensors;
    SensorsOfOneMore(rs, r);
    var before, after := BucketOf(rs), BucketOf(rs + [r]);
    forall sid | sid in after
      ensures after[sid] == if sid == r.sensorId then Fold(Values(rs, sid) + [r.value]) else before[sid]
    {
      ValuesOfOneMore(rs, r, sid);
      assert Values(rs, sid) + [] == Values(rs, sid);
    }
  }

  /** The worker's in-place update keeps its state equal to the report of what it has read. */
  lemma ReportOfOneMore(det: Detector, rs: seq<Reading>, r: Reading)
    ensures Report(det, rs + [r]) == Absorbed(det, Report(det, rs), r)
  {
    hide Updated, Judge, Values, Sensors;
    var all := rs + [r];
    assert all[..|all| - 1] == rs;
    BucketOfOneMore(rs, r);
    ValuesPresent(rs, r.sensorId);
    FoldAppend(Values(rs, r.sensorId), r.value);
    ValuesOfOneMore(rs, r, r.sensorId);
  }

  // ---------- Which readings are recorded ----------

  function Mean(xs: seq<real>): real
    requires xs != []
  {
    Sum(xs) / |xs| as real
  }

  /** The sample variance by definition. */
  function SampleVariance(xs: seq<real>): real
    requires |xs| >= 2
  {
    SquaredDeviation(xs, Mean(xs)) / (|xs| - 1) as real
  }

  lemma {:induction false} FoldVariance(xs: seq<real>)
    requires xs != []
    ensures Fold(xs).count == |xs| && Fold(xs).mean == Mean(xs)
    ensures VarianceSample(Fold(xs)) == if |xs| >= 2 then SampleVariance(xs) else 0.0
  {
    FoldMeetsDefinition(xs);
  }

  function Square(x: real): real {
    x * x
  }

  /** A reading is recorded exactly when its sensor has enough readings in the window, itself included, and its distance
      from their mean, in sample standard deviations, is above the threshold; the record holds it and its squared score. */
  lemma {:induction false} RecordedExactly(det: Detector, rs: seq<Reading>, r: Reading, std: real)
    requires var xs := Values(rs, r.sensorId) + [r.value];
             |xs| >= 2 && std > 0.0 && Square(std) == SampleVariance(xs)
    ensures var xs := Values(rs, r.sensorId) + [r.value];
            var z := Abs(r.value - Mean(xs)) / std;
            var before := Report(det, rs);
            Absorbed(det, before, r).anomalies
            == before.anomalies + (if |xs| >= det.minSamples && z > det.zThreshold
                                   then [AnomalyRecord(r.sensorId, r.ts, r.value, Square(z))] else [])
  {
    hide Values, Exceeds, ScoreSquared, Updated, SampleVariance, Mean, VarianceSample, Fold, Square, Abs;
    var xs := Values(rs, r.sensorId) + [r.value];
    JudgedOnAll(det, rs, r);
    FoldVariance(xs);
    ScoreDecides(r.value - Mean(xs), SampleVariance(xs), det.zThreshold, std);
  }

  lemma ScoreDecides(d: real, v: real, threshold: real, std: real)
    requires std > 0.0 && Square(std) == v
    ensures v > 0.0
    ensures Exceeds(d, v, threshold) <==> Abs(d) / std > threshold
    ensures ScoreSquared(d, v) == Square(Abs(d) / std)
  {
    PositiveSquare(std);
    ExceedsIsScoreTest(d, v, threshold, std);
    ScoreIsSquare(d, v, std);
  }

  /** Without spread, or with one reading, nothing is recorded. */
  lemma {:induction false} NothingRecordedWithoutSpread(det: Detector, rs: seq<Reading>, r: Reading)
    requires var xs := Values(rs, r.sensorId) + [r.value]; |xs| < 2 || SampleVariance(xs) == 0.0
    ensures Absorbed(det, Report(det, rs), r).anomalies == Report(det, rs).anomalies
  {
    hide Values, Exceeds, ScoreSquared, Updated, SampleVariance, VarianceSample, Fold;
    JudgedOnAll(det, rs, r);
    FoldVariance(Values(rs, r.sensorId) + [r.value]);
    assert Report(det, rs).anomalies + [] == Report(det, rs).anomalies;
  }

  /** The worker judges a reading on the fold of its sensor's readings so far and itself. */
  lemma {:induction false} JudgedOnAll(det: Detector, rs: seq<Reading>, r: Reading)
    ensures Absorbed(det, Report(det, rs), r).anomalies
         == Report(det, rs).anomalies + Judge(det, r, Fold(Values(rs, r.sensorId) + [r.value]))
  {
    hide Updated, Judge, Values, Sensors;
    ValuesPresent(rs, r.sensorId);
    FoldAppend(Values(rs, r.sensorId), r.value);
  }

  lemma PositiveSquare(x: real)
    requires x > 0.0
    ensures Square(x) > 0.0
  {
    var m := x * x;
    assert m / x == x;
  }

  lemma ScoreIsSquare(d: real, v: real, std: real)
    requires std > 0.0 && Square(std) == v && v > 0.0
    ensures ScoreSquared(d, v) == Square(Abs(d) / std)
  {
    hide Square, ScoreSquared, Abs;
    SquareOfAbs(d);
    SquareOfQuotient(Abs(d), std);
    ScoreIs(d, std, Square(Abs(d) / std));
  }

  lemma SquareOfQuotient(x: real, y: real)
    requires y > 0.0
    ensures Square(x / y) * Square(y) == Square(x)
  {
    var z := x / y;
    assert z * y == x;
    SquareOfProduct(z, y);
  }

  lemma SquareOfAbs(d: real)
    ensures Square(Abs(d)) == Square(d)
  {
  }

  lemma ScoreIs(d: real, std: real, q: real)
    requires Square(std) > 0.0 && q * Square(std) == Square(d)
    ensures ScoreSquared(d, Square(std)) == q
  {
    var v, x := Square(std), Square(d);
    QuotientIs(x, v, q);
  }

  lemma SquareOfProduct(x: real, y: real)
    ensures Square(x * y) == Square(x) * Square(y)
  {
  }

  lemma QuotientIs(x: real, v: real, q: real)
    requires v > 0.0 && q * v == x
    ensures x / v == q
  {
  }

  // ---------- The reports owed ----------

  function DataOf(rs: seq<Reading>): seq<WorkerMsg> {
    seq(|rs|, i requires 0 <= i < |rs| => Data(rs[i]))
  }

  /** The messages of whole windows, each closed by a Rotate. */
  function Script(windows: seq<seq<Reading>>): seq<WorkerMsg> {
    if windows == [] then []
    else Script(windows[..|windows| - 1]) + DataOf(windows[|windows| - 1]) + [Rotate]
  }

  lemma {:induction false} PendingData(msgs: seq<WorkerMsg>, rs: seq<Reading>)
    ensures Pending(msgs + DataOf(rs)) == Pending(msgs) + rs
  {
    if rs == [] {
      assert msgs + DataOf(rs) == msgs;
    } else {
      var n := |rs| - 1;
      assert (msgs + DataOf(rs))[..|msgs| + n] == msgs + DataOf(rs[..n]);
      PendingData(msgs, rs[..n]);
      assert rs == rs[..n] + [rs[n]];
    }
  }

  lemma {:induction false} OwedData(det: Detector, msgs: seq<WorkerMsg>, rs: seq<Reading>)
    ensures Owed(det, msgs + DataOf(rs)) == Owed(det, msgs)
  {
    if rs == [] {
      assert msgs + DataOf(rs) == msgs;
    } else {
      var n := |rs| - 1;
      assert (msgs + DataOf(rs))[..|msgs| + n] == msgs + DataOf(rs[..n]);
      OwedData(det, msgs, rs[..n]);
    }
  }

  /** A worker that receives whole windows owes exactly one report for each, on exactly its readings, in order; what came
      after the last Rotate is still pending. */
  lemma {:induction false} OneReportPerWindow(det: Detector, windows: seq<seq<Reading>>, open: seq<Reading>)
    ensures Owed(det, Script(windows) + DataOf(open)) == seq(|windows|, i requires 0 <= i < |windows| => Report(det, windows[i]))
    ensures Pending(Script(windows) + DataOf(open)) == open
  {
    hide Report;
    PendingData(Script(windows), open);
    OwedData(det, Script(windows), open);
    if windows == [] {
      assert [] + open == open;
    } else {
      var n := |windows| - 1;
      var closed := Script(windows[..n]) + DataOf(windows[n]);
      OneReportPerWindow(det, windows[..n], windows[n]);
      assert Script(windows) == closed + [Rotate] && (closed + [Rotate])[..|closed|] == closed;
      assert Pending(Script(windows)) == [];
      assert [] + open == open;
    }
  }

  // ---------- The coordinator's reduction ----------

  /** The merged map after one more worker's bucket. */
  function MergedBuckets(m: Bucket, b: Bucket): Bucket {
    map sid | sid in m.Keys + b.Keys :: if sid in b then Merge(Entry(m, sid), b[sid]) else m[sid]
  }

  function Reduced(reports: seq<WindowReport>): WindowReport {
    if reports == [] then EMPTY_REPORT
    else
      var before, last := Reduced(reports[..|reports| - 1]), reports[|reports| - 1];
      WindowReport(MergedBuckets(before.bucket, last.bucket), before.anomalies + last.anomalies)
  }

  /** What one `recv_timeout` on the report channel gives. */
  datatype Received = Got(report: WindowReport) | TimedOut | Disconnected

  datatype Collected = Complete(window: WindowReport) | Failed(error: Received)

  function Reports(received: seq<Received>): seq<WindowReport>
    requires forall r :: r in received ==> r.Got?
  {
    seq(|received|, i requires 0 <= i < |received| => received[i].report)
  }

  method MergeInto(merged: Bucket, bucket: Bucket) returns (result: Bucket)
    ensures result == MergedBuckets(merged, bucket)
  {
    result := merged;
    var rest := bucket.Keys;
    while rest != {}
      invariant rest <= bucket.Keys
      invariant result.Keys == merged.Keys + (bucket.Keys - rest)
      invariant forall sid :: sid in result ==>
          result[sid] == if sid in bucket && sid !in rest then Merge(Entry(merged, sid), bucket[sid]) else merged[sid]
    {
      var sid :| sid in rest;
      var entry := if sid in result then result[sid] else DEFAULT;
      result := result[sid := Merge(entry, bucket[sid])];
      rest := rest - {sid};
    }
  }

  /** `received[i]` is the answer to the i-th receive. The window comes out only if every one of the
      expected receives delivered a report; otherwise the first failure comes out and nothing else does. */
  method ReduceWindowReports(received: seq<Received>, expectedReports: nat) returns (result: Collected)
    requires expectedReports <= |received|
    ensures result.Complete? <==> forall i :: 0 <= i < expectedReports ==> received[i].Got?
    ensures result.Complete? ==> result.window == Reduced(Reports(received[..expectedReports]))
    ensures result.Failed? ==> exists i :: 0 <= i < expectedReports && received[i] == result.error
                                           && forall j :: 0 <= j < i ==> received[j].Got?
  {
    var merged: Bucket := map[];
    var anomalies: seq<AnomalyRecord> := [];
    for i := 0 to expectedReports
      invariant forall j :: 0 <= j < i ==> received[j].Got?
      invariant WindowReport(merged, anomalies) == Reduced(Reports(received[..i]))
    {
      match received[i] {
        case Got(report) =>
          merged := MergeInto(merged, report.bucket);
          anomalies := anomalies + report.anomalies;
          assert Reports(received[..i + 1])[..i] == Reports(received[..i]);
        case _ =>
          return Failed(received[i]);
      }
    }
    return Complete(WindowReport(merged, anomalies));
  }

  // ---------- Reduction independence ----------

  function Flatten<T>(parts: seq<seq<T>>): seq<T> {
    if parts == [] then [] else Flatten(parts[..|parts| - 1]) + parts[|parts| - 1]
  }

  lemma {:induction false} ValuesOfConcat(a: seq<Reading>, b: seq<Reading>, sid: string)
    ensures Values(a + b, sid) == Values(a, sid) + Values(b, sid)
  {
    if b == [] {
      assert a + b == a;
    } else {
      assert (a + b)[..|a + b| - 1] == a + b[..|b| - 1];
      ValuesOfConcat(a, b[..|b| - 1], sid);
    }
  }

  /** Bucketing a concatenation is merging the buckets. */
  lemma BucketIsHomomorphism(a: seq<Reading>, b: seq<Reading>)
    ensures BucketOf(a + b) == MergedBuckets(BucketOf(a), BucketOf(b))
  {
    assert Sensors(a + b) == Sensors(a) + Sensors(b);
    forall sid | sid in Sensors(a + b)
      ensures BucketOf(a + b)[sid] == MergedBuckets(BucketOf(a), BucketOf(b))[sid]
    {
      ValuesOfConcat(a, b, sid);
      FoldIsHomomorphism(Values(a, sid), Values(b, sid));
      ValuesPresent(a, sid);
      ValuesPresent(b, sid);
    }
  }

  lemma {:induction false} ValuesOfSplit(b1: seq<Reading>, b2: seq<Reading>, r: Reading, sid: string)
    ensures multiset(Values(b1 + [r] + b2, sid)) == multiset(Values(b1 + b2, sid)) + multiset(Values([r], sid))
  {
    hide Values;
    ValuesOfConcat(b1, b2, sid);
    ValuesOfConcat(b1 + [r], b2, sid);
    ValuesOfConcat(b1, [r], sid);
  }

  lemma {:induction false} ValuesOrderIndependent(a: seq<Reading>, b: seq<Reading>, sid: string)
    requires multiset(a) == multiset(b)
    ensures multiset(Values(a, sid)) == multiset(Values(b, sid))
    decreases |a|
  {
    hide Values;
    if a == [] {
      assert |multiset(b)| == 0;
    } else {
      var a0, r := a[..|a| - 1], a[|a| - 1];
      assert a == a0 + [r];
      var b1, b2 := SplitOff(b, r);
      assert multiset(a0) == multiset(a) - multiset{r};
      ValuesOrderIndependent(a0, b1 + b2, sid);
      ValuesOfSplit(a0, [], r, sid);
      ValuesOfSplit(b1, b2, r, sid);
      assert a0 + [r] + [] == a && a0 + [] == a0;
    }
  }

  lemma SplitOff(b: seq<Reading>, r: Reading) returns (b1: seq<Reading>, b2: seq<Reading>)
    requires r in multiset(b)
    ensures b == b1 + [r] + b2 && multiset(b1 + b2) == multiset(b) - multiset{r}
  {
    var i :| 0 <= i < |b| && b[i] == r;
    b1, b2 := b[..i], b[i + 1..];
    assert b == b1 + [r] + b2;
  }

  lemma BucketOrderIndependent(a: seq<Reading>, b: seq<Reading>)
    requires multiset(a) == multiset(b)
    ensures BucketOf(a) == BucketOf(b)
  {
    assert forall r :: r in a <==> r in multiset(a);
    assert forall r :: r in b <==> r in multiset(b);
    assert Sensors(a) == Sensors(b);
    forall sid | sid in Sensors(a)
      ensures BucketOf(a)[sid] == BucketOf(b)[sid]
    {
      ValuesOrderIndependent(a, b, sid);
      FoldOrderIndependent(Values(a, sid), Values(b, sid));
    }
  }

  function Buckets(parts: seq<seq<Reading>>, det: Detector): seq<WindowReport> {
    seq(|parts|, i requires 0 <= i < |parts| => Report(det, parts[i]))
  }

  lemma {:induction false} ReducedParts(parts: seq<seq<Reading>>, det: Detector)
    ensures Reduced(Buckets(parts, det)).bucket == BucketOf(Flatten(parts))
  {
    if parts == [] {
      assert Sensors([]) == {};
    } else {
      var front := parts[..|parts| - 1];
      ReducedParts(front, det);
      assert Buckets(parts, det)[..|parts| - 1] == Buckets(front, det);
      BucketIsHomomorphism(Flatten(front), parts[|parts| - 1]);
    }
  }

  /** However a window's readings are split across workers, and in whatever order they and the reports
      come, the reduction gives the statistics of a single sequential pass over the window. */
  lemma {:induction false} ReductionIndependent(parts: seq<seq<Reading>>, window: seq<Reading>, det: Detector)
    requires multiset(Flatten(parts)) == multiset(window)
    ensures Reduced(Buckets(parts, det)).bucket == BucketOf(window)
  {
    ReducedParts(parts, det);
    BucketOrderIndependent(Flatten(parts), window);
  }

  // ---------- How large a score can be ----------

  lemma {:induction false} FoldSpreadNonNegative(xs: seq<real>)
    ensures Fold(xs).m2 >= 0.0
  {
    if xs != [] {
      FoldMeetsDefinition(xs);
      DeviationNonNegative(xs, Fold(xs).mean);
    }
  }

  /** The gap left after Welford's update has moved the mean: the reading's distance from the new mean is
      (n-1)/n of its distance from the old one. */
  lemma UpdatedGap(s: SensorStats, x: real)
    requires s.count > 0
    ensures var t := Updated(s, x);
            && t.count as real * (x - t.mean) == s.count as real * (x - s.mean)
            && s.count as real * (t.m2 - s.m2) == t.count as real * ((x - t.mean) * (x - t.mean))
  {
  }

  /** Since a reading is folded in before it is scored, z^2 * n <= (n-1)^2 for every history. */
  lemma {:induction false} ScoreBound(det: Detector, history: seq<real>, r: Reading)
    ensures var s := Fold(history + [r.value]);
            forall a :: a in Judge(det, r, s) ==>
              a.zSquared * s.count as real <= (s.count - 1) as real * (s.count - 1) as real
  {
    hide Updated;
    var xs := history + [r.value];
    assert xs[..|xs| - 1] == history;
    var s := Fold(xs);
    FoldValid(history);
    FoldValid(xs);
    if history != [] && VarianceSample(s) > 0.0 {
      UpdatedGap(Fold(history), r.value);
      FoldSpreadNonNegative(history);
      var gap := r.value - s.mean;
      ScoreArithmetic(|history| as real, Fold(history).m2, s.m2, gap * gap, VarianceSample(s));
    }
  }

  /** `m` readings with spread `before`, then one at squared gap `g`, spread `after` and variance `v`. */
  lemma ScoreArithmetic(m: real, before: real, after: real, g: real, v: real)
    requires m > 0.0 && v > 0.0 && before >= 0.0 && m * v == after
    requires m * (after - before) == (m + 1.0) * g
    ensures g / v * (m + 1.0) <= m * m
  {
  }

  ghost predicate Flags(det: Detector, history: seq<real>, r: Reading) {
    Judge(det, r, Fold(history + [r.value])) != []
  }

  /** The largest score `n` readings allow, `(n - 1) / sqrt(n)`, is above the threshold. */
  predicate ScoreCanExceed(det: Detector, n: nat) {
    n >= 2 && n >= det.minSamples
    && (det.zThreshold < 0.0 || (n - 1) as real * (n - 1) as real > det.zThreshold * det.zThreshold * n as real)
  }

  /** Exactly when some history of `n` readings gets its last one recorded as an anomaly. */
  lemma AnomalyPossibleIff(det: Detector, n: nat)
    ensures (exists history: seq<real>, r: Reading :: |history| + 1 == n && Flags(det, history, r))
       <==> ScoreCanExceed(det, n)
  {
    hide ScoreCanExceed, Flags;
    if history: seq<real>, r: Reading :| |history| + 1 == n && Flags(det, history, r) {
      FlaggedNeedsReadings(det, history, r);
    }
    if ScoreCanExceed(det, n) {
      SpikeIsFlagged(det, n);
    }
  }

  lemma FlaggedNeedsReadings(det: Detector, history: seq<real>, r: Reading)
    requires Flags(det, history, r)
    ensures ScoreCanExceed(det, |history| + 1)
  {
    hide Updated;
    var xs := history + [r.value];
    var s := Fold(xs);
    FoldValid(xs);
    ScoreBound(det, history, r);
    var a := Judge(det, r, s)[0];
    var t, v, d, n := det.zThreshold, VarianceSample(s), r.value - s.mean, |xs| as real;
    if t >= 0.0 {
      var z := a.zSquared;
      assert z == d * d / v;
      assert z > t * t by {
        assert z * v == d * d;
        CancelStrict(t * t, z, v);
      }
      ScaleStrict(t * t, z, n);
    }
  }

  lemma CancelStrict(a: real, b: real, v: real)
    requires v > 0.0 && a * v < b * v
    ensures a < b
  {
    assert (a * v) / v == a && (b * v) / v == b;
  }

  lemma ScaleStrict(a: real, b: real, v: real)
    requires v > 0.0 && a < b
    ensures a * v < b * v
  {
    assert (b - a) * v > 0.0;
  }

  function Zeros(k: nat): seq<real> {
    seq(k, _ => 0.0)
  }

  lemma {:induction false} FoldOfZeros(k: nat)
    requires k > 0
    ensures var s := Fold(Zeros(k)); s.count == k && s.mean == 0.0 && s.m2 == 0.0
  {
    assert Zeros(k) == Zeros(k - 1) + [0.0];
    FoldAppend(Zeros(k - 1), 0.0);
    if k > 1 {
      FoldOfZeros(k - 1);
    }
  }

  /** The witness: equal readings, then one that differs, attain the largest score. */
  lemma SpikeIsFlagged(det: Detector, n: nat)
    requires ScoreCanExceed(det, n)
    ensures exists history: seq<real>, r: Reading :: |history| + 1 == n && Flags(det, history, r)
  {
    hide Updated, Exceeds;
    var history, r := Zeros(n - 1), Reading("", 0, 1.0);
    var s := Fold(history + [1.0]);
    FoldOfZeros(n - 1);
    FoldAppend(history, 1.0);
    FoldValid(history + [1.0]);
    UpdatedGap(Fold(history), 1.0);
    var m, nr := (n - 1) as real, n as real;
    assert m == nr - 1.0;
    assert nr * (1.0 - s.mean) == m by {
      assert nr * (1.0 - s.mean) == m * (1.0 - 0.0);
    }
    assert m * s.m2 == nr * ((1.0 - s.mean) * (1.0 - s.mean)) by {
      assert s.m2 - 0.0 == s.m2;
    }
    SpikeArithmetic(nr, m, s.mean, s.m2, det.zThreshold);
    assert Flags(det, history, r);
  }

  lemma SpikeArithmetic(n: real, m: real, mean: real, m2: real, t: real)
    requires n >= 2.0 && m == n - 1.0 && n * (1.0 - mean) == m
    requires m * m2 == n * ((1.0 - mean) * (1.0 - mean))
    requires t < 0.0 || m * m > t * t * n
    ensures var v := m2 / m; v > 0.0 && Exceeds(1.0 - mean, v, t)
  {
    var gap := 1.0 - mean;
    var g := gap * gap;
    var v := m2 / m;
    assert gap == m / n;
    assert gap > 0.0;
    assert g > 0.0;
    assert m * v == m2;
    assert m * m * v == n * g;
    assert v == n * g / (m * m);
    assert n * g > 0.0;
    assert v > 0.0;
    if t >= 0.0 {
      var c := t * t;
      ScaleStrict(c * n, m * m, v);
      assert (c * v) * n < g * n;
      CancelStrict(c * v, g, n);
    }
  }
}
