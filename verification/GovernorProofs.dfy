/** What the polling governor keeps over every run, and how soon it answers a full buffer. */
module GovernorProofs {
  import opened Common
  import opened Governor

  /** The telemetry of one call. */
  datatype Input = Input(available: nat, st: BufferStats, ov: Override)

  predicate Runnable(c: Config) {
    Accepted(c) && c.integralLimit >= 0.0
  }

  function Runs(g: Gov, inputs: seq<Input>): (r: Gov)
    requires Runnable(g.cfg)
    ensures r.cfg == g.cfg
  {
    if inputs == [] then g
    else
      var last := inputs[|inputs| - 1];
      Updated(Runs(g, inputs[..|inputs| - 1]), last.available, last.st, last.ov)
  }

  // ---------- Safety over all runs ----------

  /** The statistics a buffer of positive capacity reports. */
  predicate Sound(st: BufferStats) {
    0 < st.capacity && st.len <= st.capacity
  }

  predicate EntriesCount(m: Modes) {
    m.fastRecoveryEntries + m.economyEntries + m.trackingEntries + m.failSafeEntries == m.switches + 1
  }

  predicate SleepInRange(g: Gov) {
    g.cfg.minSleepUs <= g.sleepUs <= g.cfg.maxSleepUs
  }

  predicate Safe(g: Gov) {
    && Runnable(g.cfg)
    && SleepInRange(g)
    && InUnit(g.tel.smoothed)
    && -g.cfg.integralLimit <= g.integral <= g.cfg.integralLimit
    && !g.modes.mode.FailSafe? && g.modes.failSafeEntries == 0
    && EntriesCount(g.modes)
  }

  lemma MulMonotone(m: real, x: real, y: real)
    requires 0.0 <= m && x <= y
    ensures m * x <= m * y
  {
    assert m * (y - x) >= 0.0;
  }

  lemma FillInUnit(st: BufferStats)
    requires Sound(st)
    ensures InUnit(FillRatio(st))
  {
    QuotientInUnit(st.len as real, st.capacity as real);
  }

  /** A product under a name, which lets a proof use laws of products without nonlinear search. */
  function Times(m: real, x: real): real {
    m * x
  }

  lemma TimesMonotone(m: real, x: real, y: real)
    requires 0.0 <= m && x <= y
    ensures Times(m, x) <= Times(m, y)
  {
    MulMonotone(m, x, y);
  }

  lemma TimesUnit(m: real)
    ensures Times(m, 0.0) == 0.0 && Times(m, 1.0) == m && Times(1.0, m) == m
  {
  }

  lemma SmoothExpands(alpha: real, smoothed: real, fill: real)
    ensures Smooth(alpha, smoothed, fill) == smoothed - Times(alpha, smoothed) + Times(alpha, fill)
  {
  }

  /** Smoothing towards a larger fill from a larger value gives a larger value. */
  lemma SmoothMonotone(alpha: real, s: real, s': real, fill: real, fill': real)
    requires InUnit(alpha) && s <= s' && fill <= fill'
    ensures Smooth(alpha, s, fill) <= Smooth(alpha, s', fill')
    ensures alpha == 1.0 && fill == fill' ==> Smooth(alpha, s, fill) == Smooth(alpha, s', fill')
  {
    hide Smooth, Times;
    SmoothExpands(alpha, s, fill);
    SmoothExpands(alpha, s', fill');
    TimesMonotone(alpha, fill, fill');
    KeptMonotone(alpha, s, s');
    TimesUnit(s);
    TimesUnit(s');
  }

  lemma KeptMonotone(alpha: real, s: real, s': real)
    requires alpha <= 1.0 && s <= s'
    ensures s - Times(alpha, s) <= s' - Times(alpha, s')
  {
  }

  lemma SmoothOfSame(alpha: real, x: real)
    ensures Smooth(alpha, x, x) == x
  {
  }

  lemma SmoothInUnit(alpha: real, smoothed: real, fill: real)
    requires InUnit(alpha) && InUnit(smoothed) && InUnit(fill)
    ensures InUnit(Smooth(alpha, smoothed, fill))
  {
    hide Smooth;
    SmoothMonotone(alpha, 0.0, smoothed, 0.0, fill);
    SmoothMonotone(alpha, smoothed, 1.0, fill, 1.0);
    SmoothOfSame(alpha, 0.0);
    SmoothOfSame(alpha, 1.0);
  }

  lemma ProposalInRange(c: Config, delta: real)
    requires Accepted(c)
    ensures c.minSleepUs <= Proposal(c, delta) <= c.maxSleepUs
  {
  }

  /** Whatever the mode, the sleep proposed without an emergency stays in range, so it is never zero. */
  lemma ProposedInRange(c: Config, mode: Mode, tel: Telemetry, integral: real, ov: Override)
    requires Accepted(c)
    ensures c.minSleepUs <= Proposed(c, mode, tel, integral, ov) <= c.maxSleepUs
    ensures ov.ClampMaxSleep? ==> Proposed(c, mode, tel, integral, ov) <= Max(ov.maxSleepUs, c.minSleepUs)
  {
    hide Proposal, ControlDelta;
    ProposalInRange(c, ControlDelta(c, tel.smoothed, integral));
  }

  lemma UpdateKeepsSafe(g: Gov, available: nat, st: BufferStats, ov: Override)
    requires Safe(g) && Sound(st)
    ensures Safe(Updated(g, available, st, ov))
  {
    hide Proposed, FillRatio, Smooth;
    FillInUnit(st);
    SmoothInUnit(g.cfg.alpha, g.tel.smoothed, FillRatio(st));
    var tel := Observed(g.cfg, g.tel, available, st);
    ProposedInRange(g.cfg, g.modes.mode, tel, NextIntegral(g.cfg, g.integral, tel.smoothed), ov);
  }

  /** Every governor that is ever built is safe after every run of updates on a buffer of positive capacity:
      its sleep is in range, its smoothed fill is a ratio, its integral is within the limit, it never fails safe,
      and its entry counters account for every mode switch. */
  lemma {:induction false} RunsStaySafe(cfg: Config, inputs: seq<Input>)
    requires Initial(cfg).cfg.integralLimit >= 0.0
    requires forall i :: 0 <= i < |inputs| ==> Sound(inputs[i].st)
    ensures Safe(Runs(Initial(cfg), inputs))
    ensures Runs(Initial(cfg), inputs).updates == |inputs|
  {
    if inputs != [] {
      var n := |inputs| - 1;
      RunsStaySafe(cfg, inputs[..n]);
      UpdateKeepsSafe(Runs(Initial(cfg), inputs[..n]), inputs[n].available, inputs[n].st, inputs[n].ov);
    }
  }

  /** With any capacity: the sleep stays in range exactly when the buffer has room or the fixed sleep of the
      fail-safe mode happens to be in range. The counters balance either way. */
  lemma SleepInRangeExactly(g: Gov, available: nat, st: BufferStats, ov: Override)
    requires Runnable(g.cfg)
    ensures SleepInRange(Updated(g, available, st, ov))
       <==> st.capacity > 0 || g.cfg.minSleepUs <= 1000 <= g.cfg.maxSleepUs
    ensures EntriesCount(g.modes) ==> EntriesCount(Updated(g, available, st, ov).modes)
    ensures Updated(g, available, st, ov).modes.mode.FailSafe? <==> st.capacity == 0
  {
    hide Proposed, FillRatio, Smooth;
    if st.capacity > 0 {
      var tel := Observed(g.cfg, g.tel, available, st);
      ProposedInRange(g.cfg, g.modes.mode, tel, NextIntegral(g.cfg, g.integral, tel.smoothed), ov);
    }
  }

  /** A configuration `new` accepts whose sleep leaves its range on a buffer that reports no capacity. */
  lemma NoCapacityLeavesRange()
    ensures var c := DEFAULT_CONFIG.(minSleepUs := 2000, nominalSleepUs := 2000, maxSleepUs := 3000);
            Accepted(c) && !SleepInRange(Updated(Initial(c), 0, BufferStats(0, 0, 0, 0), NoOverride))
  {
    SleepInRangeExactly(Initial(DEFAULT_CONFIG.(minSleepUs := 2000, nominalSleepUs := 2000, maxSleepUs := 3000)),
                        0, BufferStats(0, 0, 0, 0), NoOverride);
  }

  /** A clamping override bounds the next sleep and keeps the governor out of economy, whatever came before. */
  lemma ClampBounds(g: Gov, available: nat, st: BufferStats, limit: nat)
    requires Runnable(g.cfg) && st.capacity > 0
    ensures var r := Updated(g, available, st, ClampMaxSleep(limit));
            r.sleepUs <= Max(limit, g.cfg.minSleepUs) && (r.modes.mode.FastRecovery? || r.modes.mode.Tracking?)
  {
  }

  // ---------- Response to a full buffer ----------

  lemma StepsTowards(alpha: real, smoothed: real, fill: real, f: real)
    requires 0.0 <= alpha <= 1.0 && f <= fill
    ensures f - Smooth(alpha, smoothed, fill) <= f - smoothed - Times(alpha, f - smoothed)
  {
  }

  /** `(1 - q) * (1 + p + q) <= 1 + p`, the inductive step of Bernoulli's inequality. */
  lemma BernoulliStep(p: real, q: real)
    requires 0.0 <= p && 0.0 <= q
    ensures (1.0 + p + q) * (1.0 - q) <= 1.0 + p
  {
  }

  /** An update that takes `1 - q` of the gap `gap` away keeps it below `gap0 / (1 + p)`. */
  lemma GapShrinks(p: real, q: real, gap: real, next: real, gap0: real)
    requires 0.0 <= p && 0.0 <= q <= 1.0 && 0.0 <= gap0
    requires (1.0 + p) * gap <= gap0 && next <= gap - Times(q, gap)
    ensures (1.0 + p + q) * next <= gap0
  {
    var grown := 1.0 + p + q;
    var product := (1.0 - q) * gap;
    assert product == gap - Times(q, gap);
    MulMonotone(grown, next, product);
    if gap <= 0.0 {
      MulMonotone(1.0 - q, gap, 0.0);
      MulMonotone(grown, product, 0.0);
    } else {
      BernoulliStep(p, q);
      MulMonotone(gap, grown * (1.0 - q), 1.0 + p);
      assert grown * product == gap * (grown * (1.0 - q));
    }
  }

  /** The smoothed fill after a run, which only the fills decide. */
  lemma SmoothedAfter(g: Gov, available: nat, st: BufferStats, ov: Override)
    requires Runnable(g.cfg) && st.capacity > 0
    ensures Updated(g, available, st, ov).tel.smoothed == Smooth(g.cfg.alpha, g.tel.smoothed, FillRatio(st))
    ensures Smooth(g.cfg.alpha, g.tel.smoothed, FillRatio(st)) >= g.cfg.highFill ==> Recovering(Updated(g, available, st, ov))
  {
    hide Proposed, FillRatio, Smooth;
  }

  predicate Recovering(g: Gov) {
    g.modes.mode.FastRecovery? && g.sleepUs == g.cfg.minSleepUs && g.integral == 0.0
  }

  predicate AtLeast(inputs: seq<Input>, f: real) {
    forall i :: 0 <= i < |inputs| ==> inputs[i].st.capacity > 0 && FillRatio(inputs[i].st) >= f
  }

  lemma {:induction false} GapAfter(g: Gov, inputs: seq<Input>, f: real)
    requires Runnable(g.cfg) && AtLeast(inputs, f) && g.tel.smoothed <= f
    ensures (1.0 + |inputs| as real * g.cfg.alpha) * (f - Runs(g, inputs).tel.smoothed) <= f - g.tel.smoothed
  {
    hide Updated, FillRatio, Smooth;
    if inputs != [] {
      var n := |inputs| - 1;
      GapAfter(g, inputs[..n], f);
      var before := Runs(g, inputs[..n]);
      SmoothedAfter(before, inputs[n].available, inputs[n].st, inputs[n].ov);
      var alpha, s := g.cfg.alpha, before.tel.smoothed;
      StepsTowards(alpha, s, FillRatio(inputs[n].st), f);
      GapShrinks(n as real * alpha, alpha, f - s, f - Runs(g, inputs).tel.smoothed, f - g.tel.smoothed);
      assert |inputs| as real * alpha == n as real * alpha + alpha;
    }
  }

  /** The updates needed to climb `short` when every step aims `room` higher still. */
  function Deadline(alpha: real, room: real, short: real): real
    requires 0.0 < alpha && 0.0 < room
  {
    short / (alpha * room)
  }

  /** From any smoothed fill `s0` below the high mark, while every fill is at least `f` above it, the governor is in fast
      recovery at its minimum sleep after `(high - s0) / (alpha * (f - high))` updates, and after every later one. */
  lemma {:induction false} RespondsInTime(g: Gov, inputs: seq<Input>, f: real)
    requires Runnable(g.cfg) && 0.0 < g.cfg.alpha && g.cfg.highFill < f && AtLeast(inputs, f)
    requires g.tel.smoothed < g.cfg.highFill
    requires |inputs| as real >= Deadline(g.cfg.alpha, f - g.cfg.highFill, g.cfg.highFill - g.tel.smoothed)
    ensures Recovering(Runs(g, inputs))
  {
    hide Updated, FillRatio, Smooth, Deadline;
    var room, short := f - g.cfg.highFill, g.cfg.highFill - g.tel.smoothed;
    GapAfter(g, inputs, f);
    EnoughUpdates(|inputs| as real, g.cfg.alpha, room, short);
    GapClosed(|inputs| as real * g.cfg.alpha, room, f - Runs(g, inputs).tel.smoothed, room + short);
    LastDecides(g, inputs);
  }

  lemma EnoughUpdates(k: real, alpha: real, room: real, short: real)
    requires 0.0 < alpha && 0.0 < room && 0.0 < short && k >= Deadline(alpha, room, short)
    ensures 0.0 < k && 0.0 <= k * alpha && short <= k * alpha * room
  {
  }

  lemma GapClosed(p: real, room: real, gap: real, gap0: real)
    requires 0.0 <= p && (1.0 + p) * gap <= gap0 && gap0 <= room + p * room
    ensures gap <= room
  {
  }

  lemma {:induction false} LastDecides(g: Gov, inputs: seq<Input>)
    requires Runnable(g.cfg) && inputs != [] && inputs[|inputs| - 1].st.capacity > 0
    ensures Runs(g, inputs).tel.smoothed >= g.cfg.highFill ==> Recovering(Runs(g, inputs))
  {
  }

  /** Once the smoothed fill has reached the high mark, the governor recovers for as long as no fill is below it. */
  lemma {:induction false} KeepsRecovering(g: Gov, inputs: seq<Input>)
    requires Runnable(g.cfg) && AtLeast(inputs, g.cfg.highFill) && g.tel.smoothed >= g.cfg.highFill
    ensures Runs(g, inputs).tel.smoothed >= g.cfg.highFill
    ensures inputs != [] ==> Recovering(Runs(g, inputs))
  {
    hide Updated, FillRatio, Smooth;
    if inputs != [] {
      var n := |inputs| - 1;
      KeepsRecovering(g, inputs[..n]);
      var s, fill, high, alpha := Runs(g, inputs[..n]).tel.smoothed, FillRatio(inputs[n].st), g.cfg.highFill, g.cfg.alpha;
      SmoothedAfter(Runs(g, inputs[..n]), inputs[n].available, inputs[n].st, inputs[n].ov);
      SmoothMonotone(alpha, high, s, high, fill);
      SmoothOfSame(alpha, high);
    }
  }

  /** An update ends in fast recovery exactly when it is forced, the sensor's backlog is hard, some producer has
      waited since the last update, or the smoothed fill is high. */
  lemma RecoversExactly(g: Gov, available: nat, st: BufferStats, ov: Override)
    requires Runnable(g.cfg) && st.capacity > 0
    ensures var r := Updated(g, available, st, ov);
            r.modes.mode.FastRecovery? <==>
              || ov.ForceFastRecovery? || available >= g.cfg.hardThreshold
              || st.pushWaitNs > g.tel.prevPushWaitNs || r.tel.smoothed >= g.cfg.highFill
    ensures var r := Updated(g, available, st, ov); r.modes.mode.FastRecovery? ==> Recovering(r)
  {
  }

  /** A run in which the consumers wait, the buffer is empty and nothing else happens. */
  predicate Idle(inputs: seq<Input>) {
    && (forall i :: 0 <= i < |inputs| ==>
          && inputs[i].available == 0 && inputs[i].ov.NoOverride?
          && inputs[i].st.capacity > 0 && inputs[i].st.len == 0 && inputs[i].st.pushWaitNs == 0)
    && (inputs != [] ==> inputs[0].st.popWaitNs > 0)
  }

  predicate Resting(g: Gov) {
    && g.modes.mode.Economy? && g.sleepUs >= Min(g.cfg.nominalSleepUs + g.cfg.stepUpUs, g.cfg.maxSleepUs)
  }

  predicate Untroubled(g: Gov) {
    g.tel.smoothed == 0.0 && g.integral >= 0.0 && g.tel.prevPushWaitNs == 0
  }

  lemma NonNegativeDelta(c: Config, integral: real)
    requires Accepted(c) && c.kp >= 0.0 && c.ki >= 0.0 && integral >= 0.0
    ensures ControlDelta(c, 0.0, integral) >= 0.0
  {
    TimesMonotone(c.kp, 0.0, c.targetFill);
    TimesMonotone(c.ki, 0.0, integral);
  }

  lemma RelaxedProposal(c: Config, delta: real)
    requires Accepted(c) && delta >= 0.0
    ensures Proposal(c, delta) >= c.nominalSleepUs
  {
  }

  lemma IdleStep(g: Gov, st: BufferStats)
    requires Runnable(g.cfg) && g.cfg.kp >= 0.0 && g.cfg.ki >= 0.0 && g.cfg.hardThreshold > 0 && g.cfg.highFill > 0.0
    requires Untroubled(g) && st.capacity > 0 && st.len == 0 && st.pushWaitNs == 0
    requires g.modes.mode.Economy? || st.popWaitNs > g.tel.prevPopWaitNs
    ensures var r := Updated(g, 0, st, NoOverride); Resting(r) && Untroubled(r)
  {
    hide FillRatio, Smooth, ControlDelta, Proposal;
    EmptyRatio(st);
    SmoothOfSame(g.cfg.alpha, 0.0);
    NonNegativeDelta(g.cfg, NextIntegral(g.cfg, g.integral, 0.0));
    RelaxedProposal(g.cfg, ControlDelta(g.cfg, 0.0, NextIntegral(g.cfg, g.integral, 0.0)));
    ProposalInRange(g.cfg, ControlDelta(g.cfg, 0.0, NextIntegral(g.cfg, g.integral, 0.0)));
  }

  lemma EmptyRatio(st: BufferStats)
    requires st.capacity > 0 && st.len == 0
    ensures FillRatio(st) == 0.0
  {
  }

  /** When consumers run ahead of producers, the governor settles in economy, above the nominal sleep, and stays. */
  lemma {:induction false} IdleRunsRelax(cfg: Config, inputs: seq<Input>)
    requires var c := Initial(cfg).cfg;
             c.integralLimit >= 0.0 && c.kp >= 0.0 && c.ki >= 0.0 && c.hardThreshold > 0 && c.highFill > 0.0
    requires Idle(inputs)
    ensures Untroubled(Runs(Initial(cfg), inputs))
    ensures inputs != [] ==> Resting(Runs(Initial(cfg), inputs))
  {
    hide Updated;
    if inputs != [] {
      var n := |inputs| - 1;
      IdleRunsRelax(cfg, inputs[..n]);
      IdleStep(Runs(Initial(cfg), inputs[..n]), inputs[n].st);
    }
  }

  lemma QuotientInUnit(x: real, y: real)
    requires 0.0 < y && 0.0 <= x <= y
    ensures InUnit(x / y)
  {
  }
}
