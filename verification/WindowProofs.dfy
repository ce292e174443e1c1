/** What the dispatcher, workers and channels of WindowProtocol guarantee in every run. */
module WindowProofs {
  import opened SensorStatistics
  import opened Aggregation
  import opened WindowProtocol

  // ---------- Distinct workers ----------

  ghost predicate Different(ids: seq<nat>) {
    forall i, j :: 0 <= i < j < |ids| ==> ids[i] != ids[j]
  }

  function Upto(n: nat): (r: set<nat>)
    ensures |r| == n && forall w :: w in r <==> 0 <= w < n
  {
    if n == 0 then {} else Upto(n - 1) + {n - 1}
  }

  function Elements(ids: seq<nat>): set<nat> {
    set w | w in ids
  }

  lemma {:induction false} DifferentSize(ids: seq<nat>)
    requires Different(ids)
    ensures |Elements(ids)| == |ids|
  {
    if ids != [] {
      var front, last := ids[..|ids| - 1], ids[|ids| - 1];
      DifferentSize(front);
      assert ids == front + [last];
      assert Elements(ids) == Elements(front) + {last};
    }
  }

  /** Different numbers below `n`: at most `n` of them, and `n` of them are all of them. */
  lemma Pigeonhole(ids: seq<nat>, n: nat)
    requires Different(ids) && forall w :: w in ids ==> w < n
    ensures |ids| <= n
    ensures |ids| == n ==> forall w :: 0 <= w < n ==> w in ids
  {
    DifferentSize(ids);
    assert Elements(ids) <= Upto(n);
    SubsetSize(Elements(ids), Upto(n));
    if |ids| == n {
      forall w | 0 <= w < n
        ensures w in ids
      {
        assert w in Elements(ids);
      }
    }
  }

  lemma {:induction false} SubsetSize(a: set<nat>, b: set<nat>)
    requires a <= b
    ensures |a| <= |b|
    ensures |a| == |b| ==> a == b
  {
    if a != {} {
      var x :| x in a;
      SubsetSize(a - {x}, b - {x});
    }
  }

  // ---------- Merging the workers' shares ----------

  lemma {:induction false} ValuesOfRouted(c: Config, rs: seq<Reading>, w: nat, sid: string)
    requires ValidConfig(c)
    ensures Values(Routed(c, rs, w), sid) == if HashToWorker(c, sid) == w then Values(rs, sid) else []
  {
    hide HashToWorker;
    if rs != [] {
      var front, r := rs[..|rs| - 1], rs[|rs| - 1];
      ValuesOfRouted(c, front, w, sid);
      var mine := Routed(c, front, w);
      ValuesOfOneMore(mine, r, sid);
      assert mine + [] == mine && Values(mine, sid) + [] == Values(mine, sid) && Values(front, sid) + [] == Values(front, sid);
    }
  }

  lemma JudgeNames(det: Detector, r: Reading, s: SensorStats)
    ensures forall a :: a in Judge(det, r, s) ==> a.sensorId == r.sensorId
    ensures forall a :: a !in Judge(det, r, s) ==> multiset(Judge(det, r, s))[a] == 0
  {
  }

  lemma {:induction false} AnomaliesOfRouted(c: Config, rs: seq<Reading>, w: nat, a: AnomalyRecord)
    requires ValidConfig(c)
    ensures multiset(AnomaliesOf(c.detector, Routed(c, rs, w)))[a]
         == if HashToWorker(c, a.sensorId) == w then multiset(AnomaliesOf(c.detector, rs))[a] else 0
  {
    hide Fold, Judge;
    if rs != [] {
      var front, r := rs[..|rs| - 1], rs[|rs| - 1];
      AnomaliesOfRouted(c, front, w, a);
      var mine := Routed(c, front, w);
      assert (mine + [r])[..|mine + [r]| - 1] == mine && mine + [] == mine;
      ValuesOfRouted(c, front, w, r.sensorId);
      var added := Judge(c.detector, r, Fold(Values(rs, r.sensorId)));
      JudgeNames(c.detector, r, Fold(Values(rs, r.sensorId)));
      assert multiset(AnomaliesOf(c.detector, rs))[a] == multiset(AnomaliesOf(c.detector, front))[a] + multiset(added)[a];
      if HashToWorker(c, r.sensorId) == w {
        assert Values(mine + [r], r.sensorId) == Values(rs, r.sensorId);
        assert AnomaliesOf(c.detector, mine + [r]) == AnomaliesOf(c.detector, mine) + added;
      }
    }
  }

  function Shares(c: Config, rs: seq<Reading>, ids: seq<nat>): seq<WindowReport>
    requires ValidConfig(c)
  {
    seq(|ids|, i requires 0 <= i < |ids| => Report(c.detector, Routed(c, rs, ids[i])))
  }

  /** Merging the shares of some workers gives exactly their sensors, each with its own sequential pass. */
  lemma {:induction false} ReducedShares(c: Config, rs: seq<Reading>, ids: seq<nat>)
    requires ValidConfig(c) && Different(ids)
    ensures var b := Reduced(Shares(c, rs, ids)).bucket;
            && (forall sid :: sid in b <==> sid in Sensors(rs) && HashToWorker(c, sid) in ids)
            && (forall sid :: sid in b ==> b[sid] == Fold(Values(rs, sid)))
  {
    hide Fold;
    if ids != [] {
      var front, w := ids[..|ids| - 1], ids[|ids| - 1];
      assert ids == front + [w];
      ReducedShares(c, rs, front);
      assert Shares(c, rs, ids)[..|ids| - 1] == Shares(c, rs, front);
      var before := Reduced(Shares(c, rs, front)).bucket;
      var mine := BucketOf(Routed(c, rs, w));
      forall sid
        ensures sid in mine <==> sid in Sensors(rs) && HashToWorker(c, sid) == w
        ensures sid in mine ==> mine[sid] == Fold(Values(rs, sid)) && sid !in before
      {
        ValuesOfRouted(c, rs, w, sid);
        ValuesPresent(rs, sid);
        ValuesPresent(Routed(c, rs, w), sid);
      }
      assert forall s :: Merge(DEFAULT, s) == s;
    }
  }

  lemma {:induction false} ReducedAnomalies(c: Config, rs: seq<Reading>, ids: seq<nat>, a: AnomalyRecord)
    requires ValidConfig(c) && Different(ids)
    ensures multiset(Reduced(Shares(c, rs, ids)).anomalies)[a]
         == if HashToWorker(c, a.sensorId) in ids then multiset(AnomaliesOf(c.detector, rs))[a] else 0
  {
    hide BucketOf, MergedBuckets, AnomaliesOf, Routed;
    if ids != [] {
      var front, w := ids[..|ids| - 1], ids[|ids| - 1];
      assert ids == front + [w];
      ReducedAnomalies(c, rs, front, a);
      assert Shares(c, rs, ids)[..|ids| - 1] == Shares(c, rs, front);
      AnomaliesOfRouted(c, rs, w, a);
      assert Reduced(Shares(c, rs, ids)).anomalies
          == Reduced(Shares(c, rs, front)).anomalies + AnomaliesOf(c.detector, Routed(c, rs, w));
    }
  }

  /** One share from every worker makes the exact frame. */
  lemma {:induction false} AllSharesMakeTheWindow(c: Config, rs: seq<Reading>, got: seq<Tagged>, windowId: nat)
    requires ValidConfig(c) && Distinct(got) && |got| == c.workers
    requires forall i :: 0 <= i < |got| ==>
        got[i].worker < c.workers && got[i].report == Report(c.detector, Routed(c, rs, got[i].worker))
    ensures FrameExact(c, FrameOf(windowId, got), rs)
  {
    hide Report, Routed, Reduced, Fold, AnomaliesOf;
    var ids := WorkersIn(got);
    Pigeonhole(ids, c.workers);
    assert ReportsIn(got) == Shares(c, rs, ids);
    ReducedShares(c, rs, ids);
    var window := Reduced(Shares(c, rs, ids));
    assert window.bucket == BucketOf(rs);
    var left, right := multiset(window.anomalies), multiset(AnomaliesOf(c.detector, rs));
    forall a
      ensures left[a] == right[a]
    {
      ReducedAnomalies(c, rs, ids, a);
    }
    assert left == right;
  }

  // ---------- Every step keeps the invariant ----------

  // One worker.

  lemma InboxGrows(queued: seq<Reading>, r: Reading)
    ensures InboxOf(queued, Filling, false) + [Data(r)] == InboxOf(queued + [r], Filling, false)
    ensures InboxOf(queued, Filling, false) + [Rotate] == InboxOf(queued, Owing, false)
    ensures forall phase :: InboxOf(queued, phase, false) + [Shutdown] == InboxOf(queued, phase, true)
  {
    assert DataMessages(queued + [r]) == DataMessages(queued) + [Data(r)];
  }

  lemma InboxShrinks(queued: seq<Reading>, phase: Phase, told: bool)
    requires InboxOf(queued, phase, told) != []
    ensures var inbox := InboxOf(queued, phase, told);
            if queued != [] then inbox == [Data(queued[0])] + InboxOf(queued[1..], phase, told)
            else if phase.Owing? then inbox == [Rotate] + InboxOf([], Answered, told)
            else inbox == [Shutdown]
  {
  }

  lemma {:induction false} RoutedOneMore(c: Config, rs: seq<Reading>, r: Reading, w: nat)
    requires ValidConfig(c)
    ensures Routed(c, rs + [r], w) == if HashToWorker(c, r.sensorId) == w then Routed(c, rs, w) + [r] else Routed(c, rs, w)
  {
    assert (rs + [r])[..|rs + [r]| - 1] == rs;
    assert Routed(c, rs, w) + [] == Routed(c, rs, w);
  }

  /** A worker left alone while the dispatcher moves on within the window, or leaves its loop. */
  lemma {:induction false} WorkerCarriesOver(c: Config, pc: Dispatcher, pc': Dispatcher, current: seq<Reading>, current': seq<Reading>,
                          w: nat, k: Worker)
    requires ValidConfig(c) && WorkerInv(c, pc, current, w, k)
    requires PhaseFits(pc', w, k.phase) && ToldToStop(pc', w) == ToldToStop(pc, w)
    requires InLoop(pc') ==> InLoop(pc) && Routed(c, current', w) == Routed(c, current, w)
    ensures WorkerInv(c, pc', current', w, k)
  {
  }

  lemma WorkerGetsData(c: Config, r: Reading, current: seq<Reading>, k: Worker)
    requires ValidConfig(c) && k.alive
    requires WorkerInv(c, Dispatching(r), current, HashToWorker(c, r.sensorId), k)
    ensures WorkerInv(c, Timing, current + [r], HashToWorker(c, r.sensorId), WithMessage(k, Data(r)))
  {
    hide Report, InboxOf, Routed;
    RoutedOneMore(c, current, r, HashToWorker(c, r.sensorId));
    InboxGrows(k.queued, r);
    assert k.absorbed + (k.queued + [r]) == k.absorbed + k.queued + [r];
  }

  lemma WorkerGetsRotate(c: Config, w: nat, last: bool, current: seq<Reading>, k: Worker)
    requires ValidConfig(c) && k.alive
    requires WorkerInv(c, Rotating(w, last), current, w, k)
    ensures WorkerInv(c, Rotating(w + 1, last), current, w, WithMessage(k, Rotate)) && k.phase.Filling?
  {
    hide Report, InboxOf, Routed;
    InboxGrows(k.queued, Reading("", 0, 0.0));
  }

  lemma WorkerGetsShutdown(c: Config, w: nat, current: seq<Reading>, k: Worker)
    requires ValidConfig(c) && k.alive
    requires WorkerInv(c, Closing(w), current, w, k)
    ensures WorkerInv(c, Closing(w + 1), current, w, WithMessage(k, Shutdown))
  {
    hide Report, InboxOf, Routed;
    InboxGrows(k.queued, Reading("", 0, 0.0));
  }

  lemma WorkerRefilled(c: Config, pc: Dispatcher, current: seq<Reading>, w: nat, k: Worker)
    requires ValidConfig(c) && pc.Sending? && WorkerInv(c, pc, current, w, k)
    ensures WorkerInv(c, Polling, [], w, k.(phase := Filling))
  {
    hide Report;
  }

  lemma {:induction false} WorkerHandled(c: Config, pc: Dispatcher, current: seq<Reading>, w: nat, k: Worker)
    requires ValidConfig(c) && k.alive && k.inbox != [] && WorkerInv(c, pc, current, w, k)
    ensures WorkerInv(c, pc, current, w, Handled(c.detector, k))
    ensures k.phase.Answered? ==> Handled(c.detector, k).phase.Answered?
    ensures k.inbox[0].Rotate? ==>
        && k.phase.Owing? && Handled(c.detector, k).phase.Answered?
        && (InLoop(pc) ==> k.local == Report(c.detector, Routed(c, current, w)))
  {
    hide Report, Routed, Absorbed, InboxOf;
    InboxShrinks(k.queued, k.phase, ToldToStop(pc, w));
    if k.queued != [] {
      ReportOfOneMore(c.detector, k.absorbed, k.queued[0]);
      assert (k.absorbed + [k.queued[0]]) + k.queued[1..] == k.absorbed + k.queued;
    } else {
      assert k.absorbed + k.queued == k.absorbed;
      ReportOfNothing(c.detector);
    }
  }

  // The reports.

  /** Reports stay good while workers that have answered stay so. */
  lemma ReportsCarryOver(workers: seq<Worker>, workers': seq<Worker>, ts: seq<Tagged>, d: nat)
    requires ReportsInv(workers, ts) && |workers| == |workers'| && d <= |ts|
    requires forall w :: 0 <= w < |workers| && workers[w].phase.Answered? ==> workers'[w].phase.Answered?
    ensures ReportsInv(workers', ts[d..])
  {
  }

  lemma ReportAdded(workers: seq<Worker>, workers': seq<Worker>, ts: seq<Tagged>, t: Tagged)
    requires ReportsInv(workers, ts) && |workers| == |workers'| && t.worker < |workers|
    requires forall w :: 0 <= w < |workers| && w != t.worker ==> workers'[w] == workers[w]
    requires !workers[t.worker].phase.Answered? && workers'[t.worker].phase.Answered?
    ensures ReportsInv(workers', ts + [t])
  {
  }

  /** At most one report for each worker; if there is one for each, all have answered. */
  lemma DistinctWorkers(workers: seq<Worker>, ts: seq<Tagged>)
    requires ReportsInv(workers, ts)
    ensures |ts| <= |workers|
    ensures |ts| == |workers| ==> forall w :: 0 <= w < |workers| ==> workers[w].phase.Answered?
  {
    Pigeonhole(WorkersIn(ts), |workers|);
    if |ts| == |workers| {
      forall w | 0 <= w < |workers|
        ensures workers[w].phase.Answered?
      {
        assert w in WorkersIn(ts);
        var i :| 0 <= i < |ts| && WorkersIn(ts)[i] == w;
        assert ts[i].worker == w;
      }
    }
  }

  // The core.

  lemma PhaseOf(c: Config, k: Core, w: nat)
    requires ValidConfig(c) && CoreInv(c, k) && w < c.workers
    ensures PhaseFits(k.pc, w, k.workers[w].phase)
  {
  }

  /** While no worker owes or has given a report, none is in the channel. */
  lemma NoReportsWhileFilling(c: Config, k: Core)
    requires ValidConfig(c) && CoreInv(c, k)
    requires k.pc.Dispatching? || (k.pc.Rotating? && k.pc.next == 0)
    ensures k.reports == []
  {
    var ts := AnsweredReports(k);
    if k.reports != [] {
      PhaseOf(c, k, ts[0].worker);
    }
  }

  /** The dispatcher moves on without sending anything. */
  lemma CoreMoves(c: Config, k: Core, pc: Dispatcher)
    requires ValidConfig(c) && CoreInv(c, k)
    requires forall w :: 0 <= w < c.workers ==>
        PhaseFits(pc, w, k.workers[w].phase) && ToldToStop(pc, w) == ToldToStop(k.pc, w)
    requires (InLoop(pc) ==> InLoop(k.pc)) && TakenReports(pc) == []
    requires pc.Sending? ==> k.reports == []
    ensures CoreInv(c, k.(pc := pc))
  {
    hide WorkerInv, ReportsInv, Report, Routed, PhaseFits, ToldToStop;
    var k' := k.(pc := pc);
    forall w | 0 <= w < c.workers
      ensures WorkerInv(c, pc, k.current, w, k'.workers[w])
    {
      WorkerCarriesOver(c, k.pc, pc, k.current, k.current, w, k.workers[w]);
    }
    var ts, d := AnsweredReports(k), |TakenReports(k.pc)|;
    assert ts[d..] == k.reports == AnsweredReports(k');
    ReportsCarryOver(k.workers, k'.workers, ts, d);
    assert forall i :: 0 <= i < |k.reports| ==> k.reports[i] == ts[i + d];
  }

  lemma CoreDispatches(c: Config, k: Core)
    requires ValidConfig(c) && CoreInv(c, k) && k.pc.Dispatching?
    requires k.workers[HashToWorker(c, k.pc.reading.sensorId)].alive
    ensures CoreInv(c, Dispatched(c, k, k.pc.reading))
  {
    NoReportsWhileFilling(c, k);
    hide WorkerInv, Routed, Report, WithMessage;
    var r := k.pc.reading;
    var target, k' := HashToWorker(c, r.sensorId), Dispatched(c, k, r);
    forall w | 0 <= w < c.workers
      ensures WorkerInv(c, Timing, k'.current, w, k'.workers[w])
    {
      if w == target {
        WorkerGetsData(c, r, k.current, k.workers[w]);
      } else {
        PhaseFitsWorker(c, k.pc, k.current, w, k.workers[w]);
        RoutedOneMore(c, k.current, r, w);
        WorkerCarriesOver(c, k.pc, Timing, k.current, k'.current, w, k.workers[w]);
      }
    }
  }

  lemma PhaseFitsWorker(c: Config, pc: Dispatcher, current: seq<Reading>, w: nat, k: Worker)
    requires ValidConfig(c) && WorkerInv(c, pc, current, w, k)
    ensures PhaseFits(pc, w, k.phase)
  {
  }

  lemma CoreRotates(c: Config, k: Core)
    requires ValidConfig(c) && CoreInv(c, k) && k.pc.Rotating? && k.pc.next < c.workers
    requires k.workers[k.pc.next].alive
    ensures CoreInv(c, Sent(k, k.pc.next, Rotate, Rotating(k.pc.next + 1, k.pc.last)))
  {
    hide WorkerInv, ReportsInv, SharesInv, Routed, WithMessage;
    var i := k.pc.next;
    var pc' := Rotating(i + 1, k.pc.last);
    var k' := Sent(k, i, Rotate, pc');
    WorkerGetsRotate(c, i, k.pc.last, k.current, k.workers[i]);
    forall w | 0 <= w < c.workers && w != i
      ensures WorkerInv(c, pc', k.current, w, k'.workers[w])
    {
      PhaseFitsWorker(c, k.pc, k.current, w, k.workers[w]);
      WorkerCarriesOver(c, k.pc, pc', k.current, k.current, w, k.workers[w]);
    }
    var ts := AnsweredReports(k);
    assert ts[0..] == ts == AnsweredReports(k');
    ReportsCarryOver(k.workers, k'.workers, ts, 0);
  }

  lemma CoreClosesOne(c: Config, k: Core)
    requires ValidConfig(c) && CoreInv(c, k) && k.pc.Closing? && k.pc.next < c.workers
    ensures var i := k.pc.next;
            CoreInv(c, if k.workers[i].alive then Sent(k, i, Shutdown, Closing(i + 1)) else k.(pc := Closing(i + 1)))
  {
    hide WorkerInv, ReportsInv, SharesInv, Routed;
    var i := k.pc.next;
    var k' := if k.workers[i].alive then Sent(k, i, Shutdown, Closing(i + 1)) else k.(pc := Closing(i + 1));
    if k.workers[i].alive {
      WorkerGetsShutdown(c, i, k.current, k.workers[i]);
    } else {
      DeadWorker(c, k'.pc, k.current, i, k.workers[i]);
    }
    forall w | 0 <= w < c.workers && w != i
      ensures WorkerInv(c, k'.pc, k.current, w, k'.workers[w])
    {
      WorkerCarriesOver(c, k.pc, k'.pc, k.current, k.current, w, k.workers[w]);
    }
    var ts := AnsweredReports(k);
    assert ts[0..] == ts == AnsweredReports(k');
    ReportsCarryOver(k.workers, k'.workers, ts, 0);
  }

  lemma DeadWorker(c: Config, pc: Dispatcher, current: seq<Reading>, w: nat, k: Worker)
    requires ValidConfig(c) && !k.alive && PhaseFits(pc, w, k.phase)
    ensures WorkerInv(c, pc, current, w, k)
  {
  }

  lemma CoreCollects(c: Config, k: Core)
    requires ValidConfig(c) && CoreInv(c, k) && k.pc.Collecting? && |k.pc.got| != c.workers && k.reports != []
    ensures CoreInv(c, TookReport(k))
  {
    hide WorkerInv, ReportsInv, SharesInv, Routed;
    var k' := TookReport(k);
    assert AnsweredReports(k') == AnsweredReports(k);
    forall w | 0 <= w < c.workers
      ensures WorkerInv(c, k'.pc, k.current, w, k'.workers[w])
    {
      PhaseFitsWorker(c, k.pc, k.current, w, k.workers[w]);
      WorkerCarriesOver(c, k.pc, k'.pc, k.current, k.current, w, k.workers[w]);
    }
  }

  /** With a report collected for every worker, the channel is empty and every worker has answered. */
  lemma AllCollected(c: Config, k: Core)
    requires ValidConfig(c) && CoreInv(c, k) && k.pc.Collecting? && |k.pc.got| == c.workers
    ensures |k.workers| == c.workers && k.reports == [] && ReportsInv(k.workers, k.pc.got) && SharesInv(c, k.current, k.pc.got)
    ensures forall w :: 0 <= w < c.workers ==> k.workers[w].phase.Answered?
  {
    hide WorkerInv, ReportsInv, Routed, Report;
    var ts := AnsweredReports(k);
    DistinctWorkers(k.workers, ts);
    assert ts == k.pc.got;
  }

  /** The frame then sent is exact. */
  lemma CoreCompletes(c: Config, k: Core, windowId: nat)
    requires ValidConfig(c) && CoreInv(c, k) && k.pc.Collecting? && |k.pc.got| == c.workers
    ensures CoreInv(c, k.(pc := Sending(FrameOf(windowId, k.pc.got), k.pc.last)))
    ensures FrameExact(c, FrameOf(windowId, k.pc.got), k.current)
  {
    hide CoreInv, FrameExact, FrameOf, Routed, Report;
    AllCollected(c, k);
    AllSharesMakeTheWindow(c, k.current, k.pc.got, windowId);
    CoreMoves(c, k, Sending(FrameOf(windowId, k.pc.got), k.pc.last));
  }

  lemma CoreReopens(c: Config, k: Core)
    requires ValidConfig(c) && CoreInv(c, k) && k.pc.Sending?
    ensures CoreInv(c, Reopened(k)) && CoreInv(c, k.(pc := Closing(0), current := []))
  {
    hide WorkerInv, Routed, Report;
    forall w | 0 <= w < c.workers
      ensures WorkerInv(c, Polling, [], w, k.workers[w].(phase := Filling))
      ensures WorkerInv(c, Closing(0), [], w, k.workers[w])
    {
      WorkerRefilled(c, k.pc, k.current, w, k.workers[w]);
      WorkerCarriesOver(c, k.pc, Closing(0), k.current, [], w, k.workers[w]);
    }
  }

  lemma CoreWorkerStops(c: Config, k: Core, v: nat)
    requires ValidConfig(c) && CoreInv(c, k) && v < c.workers
    ensures CoreInv(c, k.(workers := k.workers[v := Stopped(k.workers[v])]))
  {
  }

  lemma CoreWorkerHandles(c: Config, k: Core, v: nat)
    requires ValidConfig(c) && CoreInv(c, k) && v < c.workers && k.workers[v].alive && k.workers[v].inbox != []
    requires !k.workers[v].inbox[0].Rotate?
    ensures CoreInv(c, k.(workers := k.workers[v := Handled(c.detector, k.workers[v])]))
  {
    hide WorkerInv, ReportsInv, SharesInv, Routed, Handled;
    WorkerHandled(c, k.pc, k.current, v, k.workers[v]);
    var k' := k.(workers := k.workers[v := Handled(c.detector, k.workers[v])]);
    var ts := AnsweredReports(k);
    assert ts[0..] == ts == AnsweredReports(k');
    ReportsCarryOver(k.workers, k'.workers, ts, 0);
  }

  lemma CoreWorkerReports(c: Config, k: Core, v: nat)
    requires ValidConfig(c) && CoreInv(c, k) && v < c.workers && k.workers[v].alive && k.workers[v].inbox != []
    requires k.workers[v].inbox[0].Rotate?
    ensures CoreInv(c, Reported(c.detector, k, v))
  {
    hide WorkerInv, ReportsInv, SharesInv, Routed, Handled, Report, PhaseFits;
    PhaseFitsWorker(c, k.pc, k.current, v, k.workers[v]);
    if k.pc.Sending? {
      SendingAnswered(k.pc, v, k.workers[v].phase);
    }
    WorkerHandled(c, k.pc, k.current, v, k.workers[v]);
    var k' := Reported(c.detector, k, v);
    var ts, t := AnsweredReports(k), Tagged(v, k.workers[v].local);
    assert AnsweredReports(k') == ts + [t];
    ReportAdded(k.workers, k'.workers, ts, t);
    if InLoop(k.pc) {
      ShareAdded(c, k.current, ts, t);
    }
  }

  lemma SendingAnswered(pc: Dispatcher, w: nat, phase: Phase)
    requires PhaseFits(pc, w, phase) && pc.Sending?
    ensures phase.Answered?
  {
  }

  lemma {:induction false} ShareAdded(c: Config, current: seq<Reading>, ts: seq<Tagged>, t: Tagged)
    requires ValidConfig(c) && SharesInv(c, current, ts)
    requires t.report == Report(c.detector, Routed(c, current, t.worker))
    ensures SharesInv(c, current, ts + [t])
  {
  }

  // The whole state.

  lemma StartHolds(c: Config)
    requires ValidConfig(c)
    ensures Inv(c, Start(c))
  {
    ReportOfNothing(c.detector);
  }

  /** Between windows' ends the dispatcher only moves around its loop. */
  predicate Idle(pc: Dispatcher) {
    match pc
    case Polling => true
    case Checked => true
    case Popping => true
    case Dispatching(_) => true
    case Timing => true
    case Rotating(next, _) => next == 0
    case _ => false
  }

  lemma CoreIdles(c: Config, k: Core, pc: Dispatcher)
    requires ValidConfig(c) && CoreInv(c, k) && Idle(k.pc) && Idle(pc)
    ensures CoreInv(c, k.(pc := pc))
  {
    forall w | 0 <= w < c.workers
      ensures PhaseFits(pc, w, k.workers[w].phase)
    {
      PhaseOf(c, k, w);
    }
    hide CoreInv;
    CoreMoves(c, k, pc);
  }

  lemma CoreLeaves(c: Config, k: Core)
    requires ValidConfig(c) && CoreInv(c, k) && InLoop(k.pc)
    ensures CoreInv(c, k.(pc := Closing(0)))
  {
    hide CoreInv;
    CoreMoves(c, k, Closing(0));
  }

  lemma CoreTurns(c: Config, k: Core)
    requires ValidConfig(c) && CoreInv(c, k)
    ensures k.pc.Rotating? && k.pc.next >= c.workers ==> CoreInv(c, k.(pc := Collecting([], k.pc.last)))
    ensures k.pc.Closing? && k.pc.next >= c.workers ==> CoreInv(c, k.(pc := Done))
  {
    forall w | 0 <= w < c.workers
      ensures PhaseFits(k.pc, w, k.workers[w].phase)
    {
      PhaseOf(c, k, w);
    }
    hide CoreInv;
    if k.pc.Rotating? && k.pc.next >= c.workers {
      CoreMoves(c, k, Collecting([], k.pc.last));
    } else if k.pc.Closing? && k.pc.next >= c.workers {
      CoreMoves(c, k, Done);
    }
  }

  lemma FailKeeps(c: Config, s: State)
    requires Inv(c, s) && InLoop(s.core.pc) && !s.core.pc.Dispatching?
    ensures Inv(c, Fail(s))
  {
    hide CoreInv, FrameExact, Flatten;
    CoreLeaves(c, s.core);
  }

  lemma IdleKeeps(c: Config, s: State, s': State)
    requires Inv(c, s) && DispatcherStep(c, s, s')
    requires s.core.pc.Polling? || s.core.pc.Checked? || s.core.pc.Popping? || s.core.pc.Timing?
    ensures Inv(c, s')
  {
    hide Inv, CheckFlag, CheckDrained, GoTo, PopSource;
    match s.core.pc {
      case Polling => CheckFlagKeeps(c, s);
      case Checked => CheckDrainedKeeps(c, s);
      case Popping =>
        if s' == GoTo(s, Timing) {
          MoveKeeps(c, s, Timing);
        } else {
          PopSourceKeeps(c, s);
        }
      case Timing =>
        if s' == GoTo(s, Polling) {
          MoveKeeps(c, s, Polling);
        } else {
          MoveKeeps(c, s, Rotating(0, false));
        }
    }
  }

  /** Going round the loop with nothing in hand. */
  lemma MoveKeeps(c: Config, s: State, pc: Dispatcher)
    requires Inv(c, s) && Idle(s.core.pc) && InLoop(s.core.pc) && InFlight(s.core.pc) == [] && !IsLast(s.core.pc)
    requires Idle(pc) && InLoop(pc) && InFlight(pc) == [] && !IsLast(pc)
    ensures Inv(c, GoTo(s, pc))
  {
    hide CoreInv, FrameExact, Flatten;
    CoreIdles(c, s.core, pc);
  }

  lemma CheckFlagKeeps(c: Config, s: State)
    requires Inv(c, s) && s.core.pc.Polling?
    ensures Inv(c, CheckFlag(s))
  {
    hide CoreInv, FrameExact, Flatten;
    CoreIdles(c, s.core, Checked);
    CoreLeaves(c, s.core);
  }

  lemma CheckDrainedKeeps(c: Config, s: State)
    requires Inv(c, s) && s.core.pc.Checked?
    ensures Inv(c, CheckDrained(s))
  {
    hide CoreInv, FrameExact, Flatten;
    CoreIdles(c, s.core, Rotating(0, true));
    CoreIdles(c, s.core, Popping);
    CoreLeaves(c, s.core);
  }

  lemma PopSourceKeeps(c: Config, s: State)
    requires Inv(c, s) && s.core.pc.Popping? && s.source.q != []
    ensures Inv(c, PopSource(s))
  {
    hide CoreInv, FrameExact, Flatten;
    CoreIdles(c, s.core, Dispatching(s.source.q[0]));
  }

  /** The reading in hand goes to its worker. */
  function DataSent(c: Config, s: State): State
    requires ValidConfig(c) && |s.core.workers| == c.workers && s.core.pc.Dispatching?
  {
    s.(core := Dispatched(c, s.core, s.core.pc.reading), sawData := true)
  }

  /** The reading in hand is lost with its worker. */
  function DataLost(s: State): State
    requires s.core.pc.Dispatching?
  {
    Fail(s).(h := s.h.(failed := true, lost := s.h.lost + [s.core.pc.reading]))
  }

  predicate TargetAlive(c: Config, s: State)
    requires ValidConfig(c) && |s.core.workers| == c.workers && s.core.pc.Dispatching?
  {
    s.core.workers[HashToWorker(c, s.core.pc.reading.sensorId)].alive
  }

  lemma DispatchingStep(c: Config, s: State, s': State)
    requires ValidConfig(c) && |s.core.workers| == c.workers && s.core.pc.Dispatching? && DispatcherStep(c, s, s')
    ensures (TargetAlive(c, s) && s' == DataSent(c, s)) || s' == DataLost(s)
  {
  }

  lemma DataSentKeeps(c: Config, s: State)
    requires Inv(c, s) && s.core.pc.Dispatching? && TargetAlive(c, s)
    ensures Inv(c, DataSent(c, s))
  {
    hide CoreInv, FrameExact, Flatten;
    CoreDispatches(c, s.core);
  }

  lemma DataLostKeeps(c: Config, s: State)
    requires Inv(c, s) && s.core.pc.Dispatching?
    ensures Inv(c, DataLost(s))
  {
    hide CoreInv, FrameExact, Flatten;
    CoreLeaves(c, s.core);
  }

  lemma RotateKeeps(c: Config, s: State, s': State)
    requires Inv(c, s) && DispatcherStep(c, s, s') && s.core.pc.Rotating?
    ensures Inv(c, s')
  {
    hide CoreInv, FrameExact, Flatten, Fail;
    CoreTurns(c, s.core);
    if s' == Fail(s) {
      FailKeeps(c, s);
    } else if s.core.pc.next < c.workers {
      CoreRotates(c, s.core);
    }
  }

  lemma CollectKeeps(c: Config, s: State, s': State)
    requires Inv(c, s) && DispatcherStep(c, s, s') && s.core.pc.Collecting?
    ensures Inv(c, s')
  {
    hide CoreInv, FrameExact, Flatten, Fail;
    if |s.core.pc.got| == c.workers {
      CoreCompletes(c, s.core, s.windowId);
    } else if s' == Fail(s) {
      FailKeeps(c, s);
    } else {
      CoreCollects(c, s.core);
    }
  }

  lemma SendingStep(c: Config, s: State, s': State)
    requires ValidConfig(c) && |s.core.workers| == c.workers && s.core.pc.Sending? && DispatcherStep(c, s, s')
    ensures s' == FrameSent(s) || s' == Fail(s)
  {
  }

  lemma {:induction false} FlattenOneMore(windows: seq<seq<Reading>>, window: seq<Reading>)
    ensures Flatten(windows + [window]) == Flatten(windows) + window
  {
    assert (windows + [window])[..|windows|] == windows;
  }

  lemma FrameKeeps(c: Config, s: State)
    requires Inv(c, s) && s.core.pc.Sending? && !s.core.pc.last
    ensures Inv(c, FrameSent(s))
  {
    hide CoreInv, FrameExact, Flatten, Reopened;
    FlattenOneMore(s.h.windows, s.core.current);
    CoreReopens(c, s.core);
    ReopenedFields(s.core);
  }

  lemma ReopenedFields(k: Core)
    ensures Reopened(k).pc == Polling && Reopened(k).current == []
  {
  }

  lemma LastFrameKeeps(c: Config, s: State)
    requires Inv(c, s) && s.core.pc.Sending? && s.core.pc.last
    ensures Inv(c, FrameSent(s))
  {
    hide CoreInv, FrameExact, Flatten, Reopened;
    FlattenOneMore(s.h.windows, s.core.current);
    CoreReopens(c, s.core);
  }

  lemma CloseKeeps(c: Config, s: State, s': State)
    requires Inv(c, s) && DispatcherStep(c, s, s') && s.core.pc.Closing?
    ensures Inv(c, s')
  {
    hide CoreInv, FrameExact, Flatten;
    CoreTurns(c, s.core);
    if s.core.pc.next < c.workers {
      CoreClosesOne(c, s.core);
    }
  }

  lemma DispatcherKeeps(c: Config, s: State, s': State)
    requires Inv(c, s) && DispatcherStep(c, s, s')
    ensures Inv(c, s')
  {
    var pc := s.core.pc;
    assert !pc.Done?;
    hide Inv, DispatcherStep, Fail, FrameSent;
    if pc.Dispatching? {
      DispatchingStep(c, s, s');
      if s' == DataLost(s) {
        DataLostKeeps(c, s);
      } else {
        DataSentKeeps(c, s);
      }
    } else if pc.Rotating? {
      RotateKeeps(c, s, s');
    } else if pc.Collecting? {
      CollectKeeps(c, s, s');
    } else if pc.Sending? {
      SendingStep(c, s, s');
      if s' == Fail(s) {
        FailKeeps(c, s);
      } else if pc.last {
        LastFrameKeeps(c, s);
      } else {
        FrameKeeps(c, s);
      }
    } else if pc.Closing? {
      CloseKeeps(c, s, s');
    } else {
      IdleKeeps(c, s, s');
    }
  }

  lemma WorkerKeeps(c: Config, s: State, s': State, w: nat)
    requires Inv(c, s) && |s.core.workers| == c.workers && w < c.workers && (WorkerStops(s, s', w) || WorkerHandles(c, s, s', w))
    ensures Inv(c, s')
  {
    hide CoreInv, FrameExact, Flatten, Handled;
    CoreWorkerStops(c, s.core, w);
    if WorkerHandles(c, s, s', w) {
      if s.core.workers[w].inbox[0].Rotate? {
        CoreWorkerReports(c, s.core, w);
      } else {
        CoreWorkerHandles(c, s.core, w);
      }
    }
  }

  lemma EnvironmentKeeps(c: Config, s: State, s': State)
    requires Inv(c, s) && Environment(s, s')
    ensures Inv(c, s')
  {
    hide CoreInv, FrameExact, Flatten;
  }

  lemma StepKeeps(c: Config, s: State, s': State)
    requires ValidConfig(c) && Inv(c, s) && |s.core.workers| == c.workers && Next(c, s, s')
    ensures Inv(c, s')
  {
    hide Inv, DispatcherStep, Environment, WorkerStops, WorkerHandles;
    if DispatcherStep(c, s, s') {
      DispatcherKeeps(c, s, s');
    } else if Environment(s, s') {
      EnvironmentKeeps(c, s, s');
    } else {
      var w :| 0 <= w < c.workers && (WorkerStops(s, s', w) || WorkerHandles(c, s, s', w));
      WorkerKeeps(c, s, s', w);
    }
  }

  // ---------- Main results ----------

  lemma {:induction false} RunKeeps(c: Config, tr: seq<State>, n: nat)
    requires Run(c, tr) && n < |tr|
    ensures Inv(c, tr[n])
  {
    hide Inv, Next;
    if n == 0 {
      StartHolds(c);
    } else {
      RunKeeps(c, tr, n - 1);
      StepKeeps(c, tr[n - 1], tr[n]);
    }
  }

  /** In every interleaving, frame number i carries window id i, is built from exactly one report of each
      worker, and holds for each sensor exactly the fold over the readings dispatched for it since the frame
      before, with the anomalies of that one pass; the windows follow the order of the source. */
  lemma WindowsAreExact(c: Config, tr: seq<State>, n: nat)
    requires Run(c, tr) && n < |tr|
    ensures var s := tr[n];
            && |s.h.windows| == |s.h.frames|
            && (forall i :: 0 <= i < |s.h.frames| ==>
                  s.h.frames[i].windowId == i && FrameExact(c, s.h.frames[i], s.h.windows[i]))
            && s.h.popped == Flatten(s.h.windows) + s.core.current + InFlight(s.core.pc) + s.h.lost
  {
    hide CoreInv, FrameExact, Flatten;
    RunKeeps(c, tr, n);
  }

  /** A rotation starts with the report channel empty, the channel never holds more than one report for each
      worker, and so a worker with a message to handle is never stuck. */
  lemma WorkersNeverBlock(c: Config, tr: seq<State>, n: nat, w: nat)
    requires Run(c, tr) && n < |tr| && w < c.workers
    ensures var s := tr[n];
            && (s.core.pc.Rotating? && s.core.pc.next == 0 ==> s.core.reports == [])
            && |s.core.reports| <= c.workers < 2 * c.workers
            && |s.core.workers| == c.workers
            && (s.core.workers[w].alive && s.core.workers[w].inbox != [] ==> exists s' :: WorkerHandles(c, s, s', w))
  {
    hide SharesInv, FramesInv, AccountInv, Handled, WorkerInv;
    var s := tr[n];
    RunKeeps(c, tr, n);
    if s.core.pc.Rotating? && s.core.pc.next == 0 {
      NoReportsWhileFilling(c, s.core);
    }
    DistinctWorkers(s.core.workers, AnsweredReports(s.core));
    var k := s.core.workers[w];
    if k.alive && k.inbox != [] {
      var s' := if !k.inbox[0].Rotate? then SetWorker(s, w, Handled(c.detector, k))
                else if s.core.pc.Done? then SetWorker(s, w, Stopped(k))
                else s.(core := Reported(c.detector, s.core, w));
      assert WorkerHandles(c, s, s', w);
    }
  }

  lemma OutOfLoopStep(c: Config, s: State, s': State)
    requires ValidConfig(c) && |s.core.workers| == c.workers && Next(c, s, s') && !InLoop(s.core.pc)
    ensures !InLoop(s'.core.pc) && s'.h == s.h && s'.core.current == s.core.current
  {
    hide DispatcherStep, WorkerStops, WorkerHandles;
    if DispatcherStep(c, s, s') {
      OutOfLoopDispatcher(c, s, s');
    } else if w :| 0 <= w < c.workers && (WorkerStops(s, s', w) || WorkerHandles(c, s, s', w)) {
      WorkerTouchesNoHistory(c, s, s', w);
    }
  }

  lemma OutOfLoopDispatcher(c: Config, s: State, s': State)
    requires ValidConfig(c) && |s.core.workers| == c.workers && DispatcherStep(c, s, s') && !InLoop(s.core.pc)
    ensures !InLoop(s'.core.pc) && s'.h == s.h && s'.core.current == s.core.current
  {
    hide WithMessage;
  }

  lemma WorkerTouchesNoHistory(c: Config, s: State, s': State, w: nat)
    requires w < |s.core.workers| && (WorkerStops(s, s', w) || WorkerHandles(c, s, s', w))
    ensures s'.core.pc == s.core.pc && s'.h == s.h && s'.core.current == s.core.current
  {
    hide Handled, Reduced;
  }

  /** Once a send or a collection has failed, or the dispatcher has left its loop, no frame appears. */
  lemma {:induction false} FailClosed(c: Config, tr: seq<State>, i: nat, j: nat)
    requires Run(c, tr) && i <= j < |tr| && (tr[i].h.failed || !InLoop(tr[i].core.pc))
    ensures tr[j].h.frames == tr[i].h.frames && !InLoop(tr[j].core.pc)
    decreases j
  {
    hide CoreInv, FramesInv, Next;
    if i < j {
      FailClosed(c, tr, i, j - 1);
      OutOfLoopStep(c, tr[j - 1], tr[j]);
    } else {
      RunKeeps(c, tr, i);
    }
  }

  // ---------- Conservation ----------

  /** The readings counted in a frame, over the sensors `keys`. */
  ghost function CountOver(b: Bucket, keys: set<string>): nat
    requires keys <= b.Keys
  {
    if keys == {} then 0
    else
      var sid :| sid in keys;
      b[sid].count + CountOver(b, keys - {sid})
  }

  lemma {:induction false} CountOverRemove(b: Bucket, keys: set<string>, sid: string)
    requires keys <= b.Keys && sid in keys
    ensures CountOver(b, keys) == b[sid].count + CountOver(b, keys - {sid})
    decreases |keys|
  {
    var first :| first in keys && CountOver(b, keys) == b[first].count + CountOver(b, keys - {first});
    if first != sid {
      CountOverRemove(b, keys - {first}, sid);
      CountOverRemove(b, keys - {sid}, first);
      assert keys - {first} - {sid} == keys - {sid} - {first};
    }
  }

  lemma {:induction false} CountOverAgrees(a: Bucket, b: Bucket, keys: set<string>)
    requires keys <= a.Keys && keys <= b.Keys && forall sid :: sid in keys ==> a[sid].count == b[sid].count
    ensures CountOver(a, keys) == CountOver(b, keys)
    decreases |keys|
  {
    if keys != {} {
      var sid :| sid in keys;
      CountOverRemove(a, keys, sid);
      CountOverRemove(b, keys, sid);
      CountOverAgrees(a, b, keys - {sid});
    }
  }

  lemma OneMoreCounted(b: Bucket, sid: string, s: SensorStats)
    requires s.count == Entry(b, sid).count + 1
    ensures CountOver(b[sid := s], b[sid := s].Keys) == CountOver(b, b.Keys) + 1
  {
    var after := b[sid := s];
    var others := b.Keys - {sid};
    assert after.Keys - {sid} == others;
    CountOverRemove(after, after.Keys, sid);
    CountOverAgrees(b, after, others);
    if sid in b {
      CountOverRemove(b, b.Keys, sid);
    } else {
      assert b.Keys == others;
    }
  }

  /** A window's frame counts each of its readings exactly once. */
  lemma {:induction false} WindowCount(rs: seq<Reading>)
    ensures CountOver(BucketOf(rs), BucketOf(rs).Keys) == |rs|
  {
    hide Judge, VarianceSample;
    var det := Detector(0.0, 0);
    ReportOfNothing(det);
    if rs != [] {
      hide BucketOf;
      var front, r := rs[..|rs| - 1], rs[|rs| - 1];
      assert rs == front + [r];
      WindowCount(front);
      ReportOfOneMore(det, front, r);
      OneMoreCounted(BucketOf(front), r.sensorId, Updated(Entry(BucketOf(front), r.sensorId), r.value));
    }
  }

  ghost function TotalCount(frames: seq<Frame>): nat {
    if frames == [] then 0
    else TotalCount(frames[..|frames| - 1])
         + CountOver(frames[|frames| - 1].perSensor, frames[|frames| - 1].perSensor.Keys)
  }

  lemma {:induction false} TotalOfExactFrames(c: Config, frames: seq<Frame>, windows: seq<seq<Reading>>)
    requires |frames| == |windows| && forall i :: 0 <= i < |frames| ==> FrameExact(c, frames[i], windows[i])
    ensures TotalCount(frames) == |Flatten(windows)|
  {
    if frames != [] {
      var n := |frames| - 1;
      TotalOfExactFrames(c, frames[..n], windows[..n]);
      WindowCount(windows[n]);
      assert FrameExact(c, frames[n], windows[n]);
    }
  }

  /** In every reachable state the counts of all emitted frames, the readings of the window in progress, the
      one in the dispatcher's hands and the one lost with a failed send add up to the source's pop counter;
      so a finished run has counted everything pushed exactly when none of those is left. */
  lemma EveryReadingAccounted(c: Config, tr: seq<State>, n: nat)
    requires Run(c, tr) && n < |tr|
    ensures var s := tr[n];
            s.source.totalPopped
            == TotalCount(s.h.frames) + |s.core.current| + |InFlight(s.core.pc)| + |s.h.lost|
    ensures var s := tr[n];
            !InLoop(s.core.pc) ==>
              (TotalCount(s.h.frames) == s.source.totalPushed
               <==> s.core.current == [] && s.h.lost == [] && s.source.q == [])
  {
    hide CoreInv, FrameExact, Flatten;
    RunKeeps(c, tr, n);
    TotalOfExactFrames(c, tr[n].h.frames, tr[n].h.windows);
  }

  /** Draining gracefully loses nothing: once the loop has ended because the source was shut down and empty,
      and no send or collection has failed, the counts of the frames add up to everything ever pushed. */
  lemma GracefulDrainConserves(c: Config, tr: seq<State>, n: nat)
    requires Run(c, tr) && n < |tr|
    requires var s := tr[n]; !InLoop(s.core.pc) && s.h.drained && !s.h.failed
    ensures var s := tr[n];
            TotalCount(s.h.frames) == s.source.totalPopped == s.source.totalPushed
  {
    hide CoreInv, FramesInv;
    EveryReadingAccounted(c, tr, n);
    RunKeeps(c, tr, n);
  }
}
