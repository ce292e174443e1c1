/** Which configurations of the polling governor can make it poll a fuller buffer more slowly (`gateway/src/governor.rs`).

    Two governors are compared that runs on one buffer have brought to the same mode, integral and remembered waits,
    one with at least the other's smoothed fill. Both then see the same telemetry and override.
 */
module Backpressure {
  import opened Common
  import opened Governor
  import opened GovernorProofs

  /** Equal in all that a call depends on, except that `h` is at least as full. */
  predicate Fuller(g: Gov, h: Gov) {
    && g.cfg == h.cfg && g.modes.mode == h.modes.mode && g.integral == h.integral
    && g.tel.prevPushWaitNs == h.tel.prevPushWaitNs && g.tel.prevPopWaitNs == h.tel.prevPopWaitNs
    && g.tel.smoothed <= h.tel.smoothed
  }

  predicate NeverLonger(g: Gov, h: Gov, input: Input)
    requires Runnable(g.cfg) && Runnable(h.cfg)
  {
    Updated(h, input.available, input.st, input.ov).sleepUs <= Updated(g, input.available, input.st, input.ov).sleepUs
  }

  predicate AllSound(inputs: seq<Input>) {
    forall i :: 0 <= i < |inputs| ==> Sound(inputs[i].st)
  }

  /** Telemetry of one buffer. */
  predicate OnBuffer(capacity: nat, inputs: seq<Input>) {
    AllSound(inputs) && forall i :: 0 <= i < |inputs| ==> inputs[i].st.capacity == capacity
  }

  /** On no buffer do two runs reach a fuller and an emptier governor of which the fuller one then sleeps longer. */
  ghost predicate Backpressured(c: Config)
    requires Runnable(c)
  {
    forall capacity: nat, emptier: seq<Input>, fuller: seq<Input>, input: Input ::
      OnBuffer(capacity, emptier) && OnBuffer(capacity, fuller) && OnBuffer(capacity, [input])
      && Fuller(Runs(Initial(c), emptier), Runs(Initial(c), fuller))
      ==> NeverLonger(Runs(Initial(c), emptier), Runs(Initial(c), fuller), input)
  }

  /** The full integral lifts a proposal past what the pressed branch takes off it. */
  predicate LiftsPast(c: Config) {
    && c.ki * c.integralLimit > (c.stepUpUs + c.stepDownUs + 1) as real
    && c.maxSleepUs > c.nominalSleepUs + c.stepUpUs + c.stepDownUs
  }

  /** The configurations that fail: the integral can charge, the smoothed fill can move and can be above the target
      without an emergency, an empty sensor does not count as pressed, and the full integral lifts too far. */
  predicate Overshoots(c: Config) {
    0.0 < c.alpha < 1.0 && 0.0 < c.targetFill < c.highFill && c.softThreshold > 0 && LiftsPast(c)
  }

  // ---------- Sufficiency ----------

  lemma ProposalMonotone(c: Config, delta: real, delta': real)
    requires Accepted(c) && delta <= delta'
    ensures Proposal(c, delta) <= Proposal(c, delta')
  {
  }

  lemma DeltaMonotone(c: Config, s: real, s': real, integral: real, integral': real)
    requires c.kp >= 0.0 && c.ki >= 0.0 && s <= s' && integral' <= integral
    ensures ControlDelta(c, s', integral') <= ControlDelta(c, s, integral)
  {
    assert c.kp * (c.targetFill - s') <= c.kp * (c.targetFill - s);
    assert c.ki * integral' <= c.ki * integral;
  }

  /** Above the target the control output stays below `nominal + ki * limit`. */
  lemma PressedDelta(c: Config, s: real, integral: real)
    requires c.kp >= 0.0 && c.ki >= 0.0 && s > c.targetFill && integral <= c.integralLimit
    ensures ControlDelta(c, s, integral) <= c.ki * c.integralLimit
    ensures c.ki > 0.0 && integral < c.integralLimit ==> ControlDelta(c, s, integral) < c.ki * c.integralLimit
  {
  }

  /** Above the target a tame configuration never proposes more than the pressed branch takes back; nor does any
      configuration whose integral is not positive. */
  lemma PressedProposal(c: Config, s: real, integral: real)
    requires Runnable(c) && c.kp >= 0.0 && c.ki >= 0.0
    requires s > c.targetFill && -c.integralLimit <= integral <= c.integralLimit
    requires integral <= 0.0 || !LiftsPast(c)
    ensures Proposal(c, ControlDelta(c, s, NextIntegral(c, integral, s))) <= c.nominalSleepUs + c.stepUpUs + c.stepDownUs
  {
    hide ControlDelta;
    var next := NextIntegral(c, integral, s);
    var delta := ControlDelta(c, s, next);
    if integral <= 0.0 {
      TimesMonotone(c.ki, next, 0.0);
      PressedByTerm(c, s, next, 0.0);
    } else if c.ki * c.integralLimit <= (c.stepUpUs + c.stepDownUs + 1) as real {
      PressedDelta(c, s, next);
      if c.ki == 0.0 || c.integralLimit == 0.0 {
        assert c.ki * c.integralLimit == 0.0;
      } else {
        assert next < c.integralLimit;
      }
      assert delta < (c.stepUpUs + c.stepDownUs + 1) as real;
    } else {
      ProposalInRange(c, delta);
    }
  }

  lemma PressedByTerm(c: Config, s: real, integral: real, most: real)
    requires c.kp >= 0.0 && s >= c.targetFill && Times(c.ki, integral) <= most
    ensures ControlDelta(c, s, integral) <= most
  {
    TimesMonotone(c.kp, c.targetFill - s, 0.0);
  }

  /** What the mode makes of two ordered proposals. */
  lemma AdjustedMonotone(c: Config, relaxed: bool, relaxed': bool, pressed: bool, pressed': bool, p: nat, p': nat)
    requires Accepted(c) && c.minSleepUs <= p' <= p <= c.maxSleepUs
    requires relaxed' ==> relaxed
    requires pressed ==> pressed'
    requires !relaxed && pressed' && !pressed ==> p' <= SaturatingAdd(c.nominalSleepUs, c.stepUpUs) + c.stepDownUs
    ensures Adjusted(c, relaxed', pressed', p') <= Adjusted(c, relaxed, pressed, p)
  {
  }

  lemma ClampedMonotone(c: Config, ov: Override, p: nat, p': nat)
    requires p' <= p
    ensures Clamped(c, ov, p') <= Clamped(c, ov, p)
  {
  }

  /** The fuller governor of the pair cannot be lifted past the emptier one: either both smooth alike, or it is not
      above the target, or its sensor counts as pressed anyway, or the integral cannot lift that far. */
  predicate Tame(c: Config, integral: real, s: real, s': real) {
    s == s' || s' <= c.targetFill || c.softThreshold == 0 || integral <= 0.0 || !LiftsPast(c)
  }

  /** For the branch without an emergency; `smoothed` and `tel.smoothed` are the new values. */
  lemma ProposedMonotone(c: Config, mode: Mode, tel: Telemetry, smoothed: real, integral: real, ov: Override)
    requires Runnable(c) && c.kp >= 0.0 && c.ki >= 0.0
    requires -c.integralLimit <= integral <= c.integralLimit
    requires tel.smoothed <= smoothed && Tame(c, integral, tel.smoothed, smoothed)
    ensures Proposed(c, mode, tel.(smoothed := smoothed), NextIntegral(c, integral, smoothed), ov)
         <= Proposed(c, mode, tel, NextIntegral(c, integral, tel.smoothed), ov)
  {
    hide Proposal, ControlDelta, Adjusted, Clamped, LiftsPast;
    var tel' := tel.(smoothed := smoothed);
    var i, i' := NextIntegral(c, integral, tel.smoothed), NextIntegral(c, integral, smoothed);
    var d, d' := ControlDelta(c, tel.smoothed, i), ControlDelta(c, smoothed, i');
    DeltaMonotone(c, tel.smoothed, smoothed, i, i');
    ProposalMonotone(c, d', d);
    ProposalInRange(c, d);
    ProposalInRange(c, d');
    if Pressed(c, tel') && !Pressed(c, tel) {
      PressedProposal(c, smoothed, integral);
    }
    AdjustedMonotone(c, Relaxed(c, mode, tel, ov), Relaxed(c, mode, tel', ov), Pressed(c, tel), Pressed(c, tel'),
                     Proposal(c, d), Proposal(c, d'));
    ClampedMonotone(c, ov,
                    Adjusted(c, Relaxed(c, mode, tel, ov), Pressed(c, tel), Proposal(c, d)),
                    Adjusted(c, Relaxed(c, mode, tel', ov), Pressed(c, tel'), Proposal(c, d')));
  }

  /** One step of a pair of safe governors. */
  lemma TameNeverLonger(g: Gov, h: Gov, input: Input)
    requires Safe(g) && Safe(h) && Fuller(g, h) && Sound(input.st) && g.cfg.kp >= 0.0 && g.cfg.ki >= 0.0
    requires var fill := FillRatio(input.st);
             var s' := Smooth(g.cfg.alpha, h.tel.smoothed, fill);
             s' < g.cfg.highFill ==> Tame(g.cfg, g.integral, Smooth(g.cfg.alpha, g.tel.smoothed, fill), s')
    ensures NeverLonger(g, h, input)
  {
    hide Proposed, Smooth, FillRatio, InMode, LiftsPast;
    var c := g.cfg;
    var tel := Observed(c, g.tel, input.available, input.st);
    var tel' := Observed(c, h.tel, input.available, input.st);
    SmoothMonotone(c.alpha, g.tel.smoothed, h.tel.smoothed, FillRatio(input.st), FillRatio(input.st));
    UpdateKeepsSafe(g, input.available, input.st, input.ov);
    ProposedInRange(c, g.modes.mode, tel, NextIntegral(c, g.integral, tel.smoothed), input.ov);
    if !Emergency(c, tel', input.ov) {
      ProposedMonotone(c, g.modes.mode, tel, tel'.smoothed, g.integral, input.ov);
      ProposedInRange(c, g.modes.mode, tel', NextIntegral(c, g.integral, tel'.smoothed), input.ov);
      ProposedOfFuller(c, g.modes.mode, tel, tel', NextIntegral(c, g.integral, tel'.smoothed), input.ov);
    }
  }

  /** A proposal does not depend on the last raw fill. */
  lemma ProposedOfFuller(c: Config, mode: Mode, tel: Telemetry, tel': Telemetry, integral: real, ov: Override)
    requires Accepted(c) && tel' == tel.(smoothed := tel'.smoothed)
    ensures Proposed(c, mode, tel', integral, ov) == Proposed(c, mode, tel.(smoothed := tel'.smoothed), integral, ov)
  {
  }

  /** A smoothed fill that does not move stays at zero, and without a target above zero the integral never charges. */
  lemma {:induction false} ReachedBounds(c: Config, inputs: seq<Input>)
    requires Runnable(c) && AllSound(inputs)
    ensures var g := Runs(Initial(c), inputs);
            && (c.alpha == 0.0 ==> g.tel.smoothed == 0.0)
            && (c.targetFill == 0.0 ==> g.integral <= 0.0)
  {
    hide Smooth, FillRatio, Proposed, InMode;
    if inputs != [] {
      var n := |inputs| - 1;
      ReachedBounds(c, inputs[..n]);
      RunsStaySafe(c, inputs[..n]);
      var g, last := Runs(Initial(c), inputs[..n]), inputs[n];
      var fill := FillRatio(last.st);
      FillInUnit(last.st);
      SmoothInUnit(c.alpha, g.tel.smoothed, fill);
      SmoothExpands(c.alpha, g.tel.smoothed, fill);
    }
  }

  /** Whatever sound runs reach a pair, on one buffer or not: a configuration that does not overshoot never lets the fuller
      governor sleep longer. */
  lemma {:induction false} ReachedNeverLonger(c: Config, emptier: seq<Input>, fuller: seq<Input>, input: Input)
    requires Runnable(c) && c.kp >= 0.0 && c.ki >= 0.0 && !Overshoots(c)
    requires AllSound(emptier) && AllSound(fuller) && Sound(input.st)
    requires Fuller(Runs(Initial(c), emptier), Runs(Initial(c), fuller))
    ensures NeverLonger(Runs(Initial(c), emptier), Runs(Initial(c), fuller), input)
  {
    hide Runs, Smooth, FillRatio, NeverLonger, LiftsPast, Safe;
    var g, h := Runs(Initial(c), emptier), Runs(Initial(c), fuller);
    RunsStaySafe(c, emptier);
    RunsStaySafe(c, fuller);
    ReachedBounds(c, emptier);
    ReachedBounds(c, fuller);
    SmoothMonotone(c.alpha, g.tel.smoothed, h.tel.smoothed, FillRatio(input.st), FillRatio(input.st));
    TameNeverLonger(g, h, input);
  }

  // ---------- Necessity ----------

  /** Calls on a buffer of constant fill on which nobody waits, with an empty sensor and no override. */
  function Steady(capacity: nat, len: nat, n: nat): (inputs: seq<Input>)
    ensures |inputs| == n && forall i :: 0 <= i < n ==> inputs[i] == Input(0, BufferStats(capacity, len, 0, 0), NoOverride)
  {
    seq(n, _ => Input(0, BufferStats(capacity, len, 0, 0), NoOverride))
  }

  /** What a steady fill `fill` below the target leaves: the integral has grown by the error each time, up to its limit. */
  predicate Charging(g: Gov, fill: real, n: nat) {
    && g.modes.mode.Tracking? && g.tel.prevPushWaitNs == 0 && g.tel.prevPopWaitNs == 0
    && 0.0 <= g.tel.smoothed <= fill
    && (g.integral == g.cfg.integralLimit || g.integral >= Times(n as real, g.cfg.targetFill - fill))
  }

  lemma ChargingStep(g: Gov, st: BufferStats, n: nat)
    requires Safe(g) && Sound(st) && st == BufferStats(st.capacity, st.len, 0, 0) && 0 < g.cfg.hardThreshold
    requires var fill := FillRatio(st); fill < g.cfg.targetFill && Charging(g, fill, n)
    ensures Charging(Updated(g, 0, st, NoOverride), FillRatio(st), n + 1)
  {
    hide Smooth, FillRatio, Proposed, Times;
    var c, fill := g.cfg, FillRatio(st);
    var s' := Smooth(c.alpha, g.tel.smoothed, fill);
    FillInUnit(st);
    SmoothInUnit(c.alpha, g.tel.smoothed, fill);
    SmoothMonotone(c.alpha, g.tel.smoothed, fill, fill, fill);
    SmoothOfSame(c.alpha, fill);
    TimesSuccessor(n, c.targetFill - fill);
    var tel := Observed(c, g.tel, 0, st);
    ProposedInRange(c, g.modes.mode, tel, NextIntegral(c, g.integral, tel.smoothed), NoOverride);
  }

  lemma TimesSuccessor(n: nat, x: real)
    ensures Times((n + 1) as real, x) == Times(n as real, x) + x
  {
  }

  lemma {:induction false} SteadyCharges(c: Config, capacity: nat, len: nat, n: nat)
    requires Runnable(c) && 0 < c.hardThreshold && len <= capacity && 0 < capacity
    requires FillRatio(BufferStats(capacity, len, 0, 0)) < c.targetFill
    ensures Charging(Runs(Initial(c), Steady(capacity, len, n)), FillRatio(BufferStats(capacity, len, 0, 0)), n)
    ensures Safe(Runs(Initial(c), Steady(capacity, len, n)))
  {
    hide FillRatio, Charging, Updated;
    var st := BufferStats(capacity, len, 0, 0);
    RunsStaySafe(c, Steady(capacity, len, n));
    if n == 0 {
      NothingCharges(c, st);
    } else {
      var g := Runs(Initial(c), Steady(capacity, len, n - 1));
      SteadyCharges(c, capacity, len, n - 1);
      ChargingStep(g, st, n - 1);
      assert Steady(capacity, len, n)[..n - 1] == Steady(capacity, len, n - 1);
    }
  }

  lemma NothingCharges(c: Config, st: BufferStats)
    requires Accepted(c) && Sound(st)
    ensures Charging(Initial(c), FillRatio(st), 0)
  {
    FillInUnit(st);
  }

  /** Slightly above the target, a charged integral still proposes more than the pressed branch takes back. */
  lemma ChargedDelta(c: Config, t: real)
    requires Runnable(c) && c.kp >= 0.0 && c.ki >= 0.0 && c.targetFill < t
    requires Times(c.kp + c.ki, t - c.targetFill) <= c.ki * c.integralLimit - (c.stepUpUs + c.stepDownUs + 1) as real
    ensures ControlDelta(c, t, NextIntegral(c, c.integralLimit, t)) >= (c.stepUpUs + c.stepDownUs + 1) as real
  {
    var over := t - c.targetFill;
    var next := NextIntegral(c, c.integralLimit, t);
    MulMonotone(c.ki, c.integralLimit - over, next);
    assert c.ki * (c.integralLimit - over) == c.ki * c.integralLimit - c.ki * over;
    assert c.kp * (c.targetFill - t) == -(c.kp * over);
  }

  /** One common call on which the emptier governor is not pressed and the fuller one is. */
  lemma PressedSleepsLonger(g: Gov, h: Gov, st: BufferStats)
    requires Safe(g) && Safe(h) && Fuller(g, h) && Sound(st) && st == BufferStats(st.capacity, st.len, 0, 0)
    requires g.modes.mode.Tracking? && g.tel.prevPushWaitNs == 0 && g.tel.prevPopWaitNs == 0
    requires g.cfg.kp >= 0.0 && g.cfg.ki >= 0.0 && Overshoots(g.cfg) && g.integral == g.cfg.integralLimit
    requires Smooth(g.cfg.alpha, g.tel.smoothed, FillRatio(st)) <= g.cfg.targetFill
    requires var t := Smooth(g.cfg.alpha, h.tel.smoothed, FillRatio(st));
             && g.cfg.targetFill < t < g.cfg.highFill
             && Times(g.cfg.kp + g.cfg.ki, t - g.cfg.targetFill)
                <= g.cfg.ki * g.cfg.integralLimit - (g.cfg.stepUpUs + g.cfg.stepDownUs + 1) as real
    ensures !NeverLonger(g, h, Input(0, st, NoOverride))
  {
    hide Smooth, FillRatio, ControlDelta, NextIntegral, Times;
    var c, t := g.cfg, Smooth(g.cfg.alpha, h.tel.smoothed, FillRatio(st));
    ChargedDelta(c, t);
    var delta := ControlDelta(c, t, NextIntegral(c, c.integralLimit, t));
    assert Updated(g, 0, st, NoOverride).sleepUs <= c.nominalSleepUs + c.stepUpUs;
    assert Proposal(c, delta) >= c.nominalSleepUs + c.stepUpUs + c.stepDownUs + 1;
    assert Updated(h, 0, st, NoOverride).sleepUs > c.nominalSleepUs + c.stepUpUs;
  }

  // Choosing the numbers.

  lemma PositiveProduct(x: real, y: real)
    requires x > 0.0 && y > 0.0
    ensures Times(x, y) > 0.0
  {
  }

  lemma PositiveQuotient(x: real, y: real)
    requires x > 0.0 && y > 0.0
    ensures x / y > 0.0 && Times(y, x / y) == x
  {
    var q := x / y;
    assert q * y == x;
  }

  /** A positive number below `gap`, at most `room`, of which `gain` makes at most `slack`. */
  lemma SmallEnough(gain: real, slack: real, room: real, gap: real) returns (e: real)
    requires gain >= 0.0 && slack > 0.0 && room > 0.0 && gap > 0.0
    ensures 0.0 < e < gap && e <= room && Times(gain, e) <= slack
  {
    hide Times;
    var a := slack / (gain + 1.0);
    PositiveQuotient(slack, gain + 1.0);
    e := if a < room then a else room;
    if e >= gap {
      e := gap / 2.0;
    }
    TimesMonotone(gain + 1.0, e, a);
    TimesOneMore(gain, e);
  }

  lemma TimesOneMore(gain: real, e: real)
    ensures Times(gain + 1.0, e) == Times(gain, e) + e
  {
  }

  lemma QuotientBetween(n: real, d: real, x: real, e: real)
    requires 0.0 < d && Times(d, x) < n <= Times(d, x) + 1.0 && 1.0 <= Times(d, e)
    ensures x < n / d <= x + e
  {
  }

  /** A number of steps of size at least `x` that add up to `y`. */
  lemma EnoughSteps(x: real, y: real) returns (n: nat)
    requires 0.0 < x && 0.0 <= y
    ensures n > 0 && Times(n as real, x) >= y
  {
    var q := y / x;
    assert q * x == y;
    n := q.Floor + 1;
    MulMonotone(x, q, n as real);
  }

  /** A capacity of which some length gives a fill just above `x`. */
  lemma FillAbove(capacity: nat, x: real, e: real) returns (len: nat)
    requires 0 < capacity && 0.0 <= x && Times(capacity as real, e) >= 1.0
    ensures x < FillRatio(BufferStats(capacity, len, 0, 0)) <= x + e
  {
    var d := capacity as real;
    TimesMonotone(d, 0.0, x);
    len := Times(d, x).Floor + 1;
    QuotientBetween(len as real, d, x, e);
  }

  lemma FillWithin(capacity: nat, len: nat)
    requires 0 < capacity && FillRatio(BufferStats(capacity, len, 0, 0)) <= 1.0
    ensures len <= capacity
  {
    var d := capacity as real;
    var q := len as real / d;
    assert q * d == len as real;
    MulMonotone(d, q, 1.0);
  }

  /** From an empty past, one call with a fill of at most `target + e` stays at or below the target. */
  lemma FromZero(alpha: real, target: real, t: real, e: real)
    requires 0.0 <= alpha <= 1.0 && 0.0 < target && t <= target + e && e <= (1.0 - alpha) * target
    ensures Smooth(alpha, 0.0, t) <= target
  {
    hide Smooth;
    SmoothExpands(alpha, 0.0, t);
    var gained := alpha * target;
    assert e <= target - gained;
    MulMonotone(alpha, t, target + target - gained);
    BernoulliLike(alpha, target);
  }

  lemma BernoulliLike(alpha: real, target: real)
    requires 0.0 <= target
    ensures alpha * (target + target - alpha * target) <= target
  {
  }

  /** How far above the target the counterexample may go. */
  lemma Margin(c: Config) returns (e: real)
    requires Runnable(c) && c.kp >= 0.0 && c.ki >= 0.0 && Overshoots(c)
    ensures 0.0 < e < c.highFill - c.targetFill && e <= (1.0 - c.alpha) * c.targetFill
    ensures Times(c.kp + c.ki, e) <= c.ki * c.integralLimit - (c.stepUpUs + c.stepDownUs + 1) as real
  {
    hide Times;
    PositiveProduct(1.0 - c.alpha, c.targetFill);
    TimesIs(1.0 - c.alpha, c.targetFill);
    e := SmallEnough(c.kp + c.ki, c.ki * c.integralLimit - (c.stepUpUs + c.stepDownUs + 1) as real,
                     (1.0 - c.alpha) * c.targetFill, c.highFill - c.targetFill);
  }

  lemma TimesIs(x: real, y: real)
    ensures Times(x, y) == x * y
  {
  }

  /** From just below the target, a fill that is above it by more than what is missing, weighted, crosses it. */
  lemma Crosses(alpha: real, target: real, s: real, t: real, e: real)
    requires 0.0 < alpha < 1.0 && 0.0 < e && s > target - Times(alpha, e / 2.0) && target + e / 2.0 <= t
    ensures Smooth(alpha, s, t) > target
  {
    hide Smooth, Times;
    var half := Times(alpha, e / 2.0);
    SmoothMonotone(alpha, target - half, s, target + e / 2.0, t);
    SmoothExpands(alpha, target - half, target + e / 2.0);
    CrossesExactly(alpha, target, e / 2.0);
  }

  lemma CrossesExactly(alpha: real, target: real, half: real)
    requires 0.0 < alpha && 0.0 < half
    ensures var s := target - Times(alpha, half);
            s - Times(alpha, s) + Times(alpha, target + half) > target
  {
    var step := alpha * half;
    assert step > 0.0;
    assert alpha * (target - step) == alpha * target - alpha * step;
    assert alpha * (target + half) == alpha * target + step;
    assert alpha * step > 0.0;
  }

  /** A gap that has shrunk for long enough is small. */
  lemma GapSmall(n: real, alpha: real, gap: real, small: real, q: real)
    requires 0.0 <= n && 0.0 <= alpha && 0.0 < small && q <= 1.0
    requires (1.0 + n * alpha) * gap <= q && Times(n, Times(alpha, small)) >= 1.0
    ensures gap < small
  {
    if gap >= small {
      MulMonotone(1.0 + n * alpha, small, gap);
      assert false;
    }
  }

  /** The emptier run: a steadily empty buffer. The fuller one: a steady fill slightly below the target, for as long. */
  lemma SteadyPair(c: Config, capacity: nat, len: nat, n: nat, w: real)
    requires Runnable(c) && Overshoots(c) && 0 < capacity && len <= capacity && 0.0 < w
    requires var q := FillRatio(BufferStats(capacity, len, 0, 0)); c.targetFill - 2.0 * w < q <= c.targetFill - w
    requires Times(n as real, w) >= c.integralLimit && Times(n as real, Times(c.alpha, 2.0 * w)) >= 1.0
    ensures var g, h := Runs(Initial(c), Steady(capacity, 0, n)), Runs(Initial(c), Steady(capacity, len, n));
            && Safe(g) && Safe(h) && Fuller(g, h) && g.modes.mode.Tracking? && g.integral == c.integralLimit
            && g.tel.prevPushWaitNs == 0 && g.tel.prevPopWaitNs == 0
            && g.tel.smoothed == 0.0 && c.targetFill - 4.0 * w < h.tel.smoothed <= c.targetFill
  {
    hide Runs, FillRatio, Times, LiftsPast;
    var st := BufferStats(capacity, len, 0, 0);
    var q := FillRatio(st);
    EmptyRatio(BufferStats(capacity, 0, 0, 0));
    SteadyCharges(c, capacity, 0, n);
    SteadyCharges(c, capacity, len, n);
    TimesMonotone(n as real, w, c.targetFill - q);
    TimesMonotone(n as real, w, c.targetFill);
    GapAfter(Initial(c), Steady(capacity, len, n), q);
    FillInUnit(st);
    GapSmall(n as real, c.alpha, q - Runs(Initial(c), Steady(capacity, len, n)).tel.smoothed, 2.0 * w, q);
  }

  /** The unit of the construction, an eighth of what one call adds of the margin. */
  lemma Unit(alpha: real, e: real) returns (w: real)
    requires 0.0 < alpha < 1.0 && 0.0 < e
    ensures 0.0 < w <= e / 8.0 && 4.0 * w == Times(alpha, e / 2.0)
  {
    hide Times;
    w := Times(alpha, e) / 8.0;
    PositiveProduct(alpha, e);
    TimesMonotone(e, alpha, 1.0);
    TimesCommutes(alpha, e);
    TimesUnit(e);
    TimesHalf(alpha, e);
  }

  /** A capacity and two lengths: `len` slightly below the target, `full` slightly above. */
  lemma Lengths(target: real, e: real, w: real) returns (capacity: nat, len: nat, full: nat)
    requires 0.0 < w <= e / 8.0 && e <= target && target + e < 1.0
    ensures 0 < capacity && len <= capacity && full <= capacity
    ensures target - 2.0 * w < FillRatio(BufferStats(capacity, len, 0, 0)) <= target - w
    ensures target + e / 2.0 <= FillRatio(BufferStats(capacity, full, 0, 0)) <= target + e
  {
    hide FillRatio, Times;
    capacity := EnoughSteps(w, 1.0);
    len := FillAbove(capacity, target - 2.0 * w, w);
    full := FillAbove(capacity, target + e / 2.0, w);
    FillWithin(capacity, len);
    FillWithin(capacity, full);
  }

  /** What the common call with a fill of about `target + e` makes of the two smoothed fills. */
  lemma OneCallApart(alpha: real, target: real, s: real, t: real, e: real)
    requires 0.0 < alpha < 1.0 && 0.0 < target && 0.0 < e <= (1.0 - alpha) * target
    requires target - Times(alpha, e / 2.0) < s <= target && target + e / 2.0 <= t <= target + e
    ensures Smooth(alpha, 0.0, t) <= target < Smooth(alpha, s, t) <= target + e
  {
    hide Smooth, Times;
    FromZero(alpha, target, t, e);
    Crosses(alpha, target, s, t, e);
    SmoothMonotone(alpha, s, t, t, t);
    SmoothOfSame(alpha, t);
  }

  /** Necessity: on some buffer an overshooting configuration lets a fuller governor sleep longer. */
  lemma OvershootLengthens(c: Config)
    requires Runnable(c) && c.kp >= 0.0 && c.ki >= 0.0 && Overshoots(c)
    ensures !Backpressured(c)
  {
    hide FillRatio, Smooth, Times, Runs, NeverLonger, Safe, LiftsPast;
    var e := Margin(c);
    MarginWithinTarget(c.alpha, c.targetFill, e);
    var w := Unit(c.alpha, e);
    var capacity, len, full := Lengths(c.targetFill, e, w);
    var n := StepsFor(c, w);
    SteadyPair(c, capacity, len, n, w);
    var st := BufferStats(capacity, full, 0, 0);
    var g, h := Runs(Initial(c), Steady(capacity, 0, n)), Runs(Initial(c), Steady(capacity, len, n));
    var t := Smooth(c.alpha, h.tel.smoothed, FillRatio(st));
    OneCallApart(c.alpha, c.targetFill, h.tel.smoothed, FillRatio(st), e);
    TimesMonotone(c.kp + c.ki, t - c.targetFill, e);
    PressedSleepsLonger(g, h, st);
    assert OnBuffer(capacity, [Input(0, st, NoOverride)]);
  }

  lemma MarginWithinTarget(alpha: real, target: real, e: real)
    requires 0.0 < alpha < 1.0 && 0.0 < target && e <= (1.0 - alpha) * target
    ensures e <= target
  {
    MulMonotone(target, 1.0 - alpha, 1.0);
  }

  lemma TimesHalf(alpha: real, e: real)
    ensures Times(alpha, e / 2.0) == Times(alpha, e) / 2.0
  {
  }

  /** Steps enough to charge the integral, and to bring the smoothed fill close. */
  lemma StepsFor(c: Config, w: real) returns (n: nat)
    requires Runnable(c) && 0.0 < w && 0.0 < c.alpha
    ensures Times(n as real, w) >= c.integralLimit && Times(n as real, Times(c.alpha, 2.0 * w)) >= 1.0
  {
    hide Times;
    PositiveProduct(c.alpha, 2.0 * w);
    var x := Times(c.alpha, 2.0 * w);
    var a := EnoughSteps(w, c.integralLimit);
    var b := EnoughSteps(x, 1.0);
    n := Max(a, b);
    TimesMonotone(w, a as real, n as real);
    TimesMonotone(x, b as real, n as real);
    TimesCommutes(w, a as real);
    TimesCommutes(w, n as real);
    TimesCommutes(x, b as real);
    TimesCommutes(x, n as real);
  }

  lemma TimesCommutes(x: real, y: real)
    ensures Times(x, y) == Times(y, x)
  {
  }

  // ---------- The exact condition ----------

  /** With gains that are not negative, more buffered data never buys a longer sleep exactly when the configuration does
      not overshoot. */
  lemma MonotoneBackpressureExactly(c: Config)
    requires Runnable(c) && c.kp >= 0.0 && c.ki >= 0.0
    ensures Backpressured(c) <==> !Overshoots(c)
  {
    hide Overshoots, NeverLonger, Runs;
    if Overshoots(c) {
      OvershootLengthens(c);
    } else {
      forall capacity: nat, emptier: seq<Input>, fuller: seq<Input>, input: Input
        | OnBuffer(capacity, emptier) && OnBuffer(capacity, fuller) && OnBuffer(capacity, [input])
          && Fuller(Runs(Initial(c), emptier), Runs(Initial(c), fuller))
        ensures NeverLonger(Runs(Initial(c), emptier), Runs(Initial(c), fuller), input)
      {
        assert [input][0] == input;
        ReachedNeverLonger(c, emptier, fuller, input);
      }
    }
  }

  lemma DefaultIsBackpressured()
    ensures Backpressured(DEFAULT_CONFIG)
  {
    MonotoneBackpressureExactly(DEFAULT_CONFIG);
  }

  /** An accepted configuration that fails: the default one with a larger integral gain. */
  lemma LargerGainIsNotBackpressured()
    ensures Accepted(DEFAULT_CONFIG.(ki := 200.0)) && !Backpressured(DEFAULT_CONFIG.(ki := 200.0))
  {
    MonotoneBackpressureExactly(DEFAULT_CONFIG.(ki := 200.0));
  }
}
