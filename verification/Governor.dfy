/** The adaptive polling governor (`gateway/src/governor.rs`): an EWMA of the buffer's fill ratio, a clamped
    integral of its error, and four modes that set how long a reader sleeps.

    Ratios and gains are exact reals (so finite), sleeps are microseconds below 2^64, and the cast of the
    proposal to an integer rounds down.
 */
module Governor {
  import opened Common

  datatype Override = NoOverride | ClampMaxSleep(maxSleepUs: nat) | ForceFastRecovery

  datatype Mode = FastRecovery | Tracking | Economy | FailSafe

  datatype Config = Config(
    minSleepUs: nat, nominalSleepUs: nat, maxSleepUs: nat,
    targetFill: real, highFill: real, lowFill: real,
    softThreshold: nat, hardThreshold: nat,
    stepUpUs: nat, stepDownUs: nat,
    kp: real, ki: real, integralLimit: real, alpha: real)

  const DEFAULT_CONFIG := Config(25, 100, 1000, 0.03, 0.25, 0.01, 8, 24, 25, 75, 2000.0, 80.0, 1.0, 0.2)

  /** What the governor reads of the buffer's statistics. */
  datatype BufferStats = BufferStats(capacity: nat, len: nat, pushWaitNs: nat, popWaitNs: nat)

  /** The current mode, and how often each mode was entered. */
  datatype Modes = Modes(
    mode: Mode, switches: nat,
    fastRecoveryEntries: nat, economyEntries: nat, trackingEntries: nat, failSafeEntries: nat)

  /** What the last update saw, and the running totals it compares the next one with. */
  datatype Telemetry = Telemetry(
    lastFill: real, smoothed: real, available: nat, pushDeltaNs: nat, popDeltaNs: nat,
    prevPushWaitNs: nat, prevPopWaitNs: nat)

  datatype Gov = Gov(cfg: Config, modes: Modes, tel: Telemetry, integral: real, sleepUs: nat, updates: nat)

  predicate InUnit(x: real) {
    0.0 <= x <= 1.0
  }

  /** The configurations `new` accepts; the 64-bit bound is the source's field type. */
  predicate Accepted(c: Config) {
    && 0 < c.minSleepUs <= c.nominalSleepUs <= c.maxSleepUs <= U64_MAX
    && InUnit(c.lowFill) && InUnit(c.targetFill) && InUnit(c.highFill) && InUnit(c.alpha)
    && c.lowFill <= c.targetFill <= c.highFill
    && c.softThreshold <= c.hardThreshold
  }

  function Initial(cfg: Config): Gov {
    var c := if Accepted(cfg) then cfg else DEFAULT_CONFIG;
    Gov(c, Modes(Tracking, 0, 0, 0, 1, 0), Telemetry(0.0, 0.0, 0, 0, 0, 0, 0), 0.0, c.nominalSleepUs, 0)
  }

  // ---------- One update ----------

  function SaturatingAdd(a: nat, b: nat): nat {
    Min(a + b, U64_MAX)
  }

  /** Rust's `clamp`, which panics unless `lo <= hi`. */
  function Clamp(x: real, lo: real, hi: real): real
    requires lo <= hi
  {
    if x < lo then lo else if x > hi then hi else x
  }

  function InMode(m: Modes, next: Mode): Modes {
    if m.mode == next then m
    else
      var m' := m.(switches := m.switches + 1, mode := next);
      match next
      case FastRecovery => m'.(fastRecoveryEntries := m.fastRecoveryEntries + 1)
      case Tracking => m'.(trackingEntries := m.trackingEntries + 1)
      case Economy => m'.(economyEntries := m.economyEntries + 1)
      case FailSafe => m'.(failSafeEntries := m.failSafeEntries + 1)
  }

  function FillRatio(st: BufferStats): (ratio: real)
    requires st.capacity > 0
    ensures ratio * st.capacity as real == st.len as real
  {
    st.len as real / st.capacity as real
  }

  function Smooth(alpha: real, smoothed: real, fill: real): real {
    (1.0 - alpha) * smoothed + alpha * fill
  }

  /** The telemetry an update takes in from a buffer that has room for something. */
  function Observed(c: Config, tel: Telemetry, available: nat, st: BufferStats): Telemetry
    requires st.capacity > 0
  {
    Telemetry(FillRatio(st), Smooth(c.alpha, tel.smoothed, FillRatio(st)), available,
              SaturatingSub(st.pushWaitNs, tel.prevPushWaitNs), SaturatingSub(st.popWaitNs, tel.prevPopWaitNs),
              st.pushWaitNs, st.popWaitNs)
  }

  predicate Emergency(c: Config, tel: Telemetry, ov: Override) {
    || ov.ForceFastRecovery?
    || tel.available >= c.hardThreshold
    || tel.smoothed >= c.highFill
    || tel.pushDeltaNs > 0
  }

  function NextIntegral(c: Config, integral: real, smoothed: real): real
    requires c.integralLimit >= 0.0
  {
    Clamp(integral + (c.targetFill - smoothed), -c.integralLimit, c.integralLimit)
  }

  /** The proportional and integral terms, in microseconds above the nominal sleep. */
  function ControlDelta(c: Config, smoothed: real, integral: real): real {
    c.kp * (c.targetFill - smoothed) + c.ki * integral
  }

  function Proposal(c: Config, delta: real): nat
    requires Accepted(c)
  {
    Clamp(c.nominalSleepUs as real + delta, c.minSleepUs as real, c.maxSleepUs as real).Floor
  }

  predicate EntersEconomy(c: Config, tel: Telemetry, ov: Override) {
    && ov.NoOverride?
    && tel.smoothed <= c.lowFill
    && tel.available <= c.softThreshold / 2
    && tel.popDeltaNs > tel.pushDeltaNs
  }

  predicate StaysEconomy(c: Config, mode: Mode, tel: Telemetry, ov: Override) {
    && ov.NoOverride?
    && mode.Economy?
    && tel.smoothed <= c.targetFill
    && tel.available <= c.softThreshold
    && tel.pushDeltaNs == 0
  }

  predicate Relaxed(c: Config, mode: Mode, tel: Telemetry, ov: Override) {
    EntersEconomy(c, tel, ov) || StaysEconomy(c, mode, tel, ov)
  }

  predicate Pressed(c: Config, tel: Telemetry) {
    tel.smoothed > c.targetFill || tel.available >= c.softThreshold
  }

  /** The proposal as the mode adjusts it. */
  function Adjusted(c: Config, relaxed: bool, pressed: bool, proposed: nat): nat {
    if relaxed then Min(SaturatingAdd(proposed, c.stepUpUs), c.maxSleepUs)
    else if pressed then Max(SaturatingSub(proposed, c.stepDownUs), c.minSleepUs)
    else Min(proposed, SaturatingAdd(c.nominalSleepUs, c.stepUpUs))
  }

  function Clamped(c: Config, ov: Override, proposed: nat): nat {
    if ov.ClampMaxSleep? then Min(proposed, Max(ov.maxSleepUs, c.minSleepUs)) else proposed
  }

  /** The sleep the branch without an emergency proposes; `integral` is already the new one. */
  function Proposed(c: Config, mode: Mode, tel: Telemetry, integral: real, ov: Override): nat
    requires Accepted(c)
  {
    Clamped(c, ov, Adjusted(c, Relaxed(c, mode, tel, ov), Pressed(c, tel),
                            Proposal(c, ControlDelta(c, tel.smoothed, integral))))
  }

  function Regulated(g: Gov, ov: Override): Gov
    requires Accepted(g.cfg) && g.cfg.integralLimit >= 0.0
  {
    var integral := NextIntegral(g.cfg, g.integral, g.tel.smoothed);
    var modes := InMode(g.modes, if Relaxed(g.cfg, g.modes.mode, g.tel, ov) then Economy else Tracking);
    var proposed := Proposed(g.cfg, g.modes.mode, g.tel, integral, ov);
    if proposed == 0 then g.(integral := integral, modes := InMode(modes, FailSafe), sleepUs := 1000)
    else g.(integral := integral, modes := modes, sleepUs := proposed)
  }

  /** The call returns: `clamp` panics on a negative limit, which `new` does not reject, but only the branch without an
      emergency gets there. */
  predicate Returns(g: Gov, available: nat, st: BufferStats, ov: Override) {
    g.cfg.integralLimit >= 0.0 || st.capacity == 0 || Emergency(g.cfg, Observed(g.cfg, g.tel, available, st), ov)
  }

  /** One call of `update_with_override`. */
  function Updated(g: Gov, available: nat, st: BufferStats, ov: Override): Gov
    requires Accepted(g.cfg) && Returns(g, available, st, ov)
  {
    if st.capacity == 0 then
      g.(updates := g.updates + 1, modes := InMode(g.modes, FailSafe), sleepUs := 1000,
         tel := Telemetry(0.0, 0.0, available, 0, 0, g.tel.prevPushWaitNs, g.tel.prevPopWaitNs))
    else
      var tel := Observed(g.cfg, g.tel, available, st);
      var g1 := g.(updates := g.updates + 1, tel := tel);
      if Emergency(g.cfg, tel, ov) then
        g1.(modes := InMode(g.modes, FastRecovery), integral := 0.0, sleepUs := g.cfg.minSleepUs)
      else Regulated(g1, ov)
  }

  /** The source's mutable governor. */
  class AdaptivePollingGovernor {
    const cfg: Config
    var mode: Mode
    var sleepUs: nat
    var integral: real
    var prevPushWaitNs: nat
    var prevPopWaitNs: nat
    var updates: nat
    var modeSwitches: nat
    var fastRecoveryEntries: nat
    var economyEntries: nat
    var trackingEntries: nat
    var failSafeEntries: nat
    var lastFill: real
    var smoothedFill: real
    var lastAvailable: nat
    var lastPushDeltaNs: nat
    var lastPopDeltaNs: nat

    function ModesView(): Modes
      reads this
    {
      Modes(mode, modeSwitches, fastRecoveryEntries, economyEntries, trackingEntries, failSafeEntries)
    }

    function TelemetryView(): Telemetry
      reads this
    {
      Telemetry(lastFill, smoothedFill, lastAvailable, lastPushDeltaNs, lastPopDeltaNs,
                prevPushWaitNs, prevPopWaitNs)
    }

    function View(): Gov
      reads this
    {
      Gov(cfg, ModesView(), TelemetryView(), integral, sleepUs, updates)
    }

    constructor (cfg: Config)
      ensures View() == Initial(cfg)
    {
      var accepted := cfg;
      if !Accepted(cfg) {
        accepted := DEFAULT_CONFIG;
      }
      this.cfg := accepted;
      mode, sleepUs, integral := Tracking, accepted.nominalSleepUs, 0.0;
      prevPushWaitNs, prevPopWaitNs, updates, modeSwitches := 0, 0, 0, 0;
      fastRecoveryEntries, economyEntries, trackingEntries, failSafeEntries := 0, 0, 1, 0;
      lastFill, smoothedFill, lastAvailable, lastPushDeltaNs, lastPopDeltaNs := 0.0, 0.0, 0, 0, 0;
    }

    method SetMode(next: Mode)
      modifies this`mode, this`modeSwitches, this`fastRecoveryEntries, this`economyEntries,
               this`trackingEntries, this`failSafeEntries
      ensures ModesView() == InMode(old(ModesView()), next)
    {
      if mode != next {
        modeSwitches := modeSwitches + 1;
        mode := next;
        match next {
          case FastRecovery => fastRecoveryEntries := fastRecoveryEntries + 1;
          case Tracking => trackingEntries := trackingEntries + 1;
          case Economy => economyEntries := economyEntries + 1;
          case FailSafe => failSafeEntries := failSafeEntries + 1;
        }
      }
    }

    method UpdateWithOverride(available: nat, st: BufferStats, ov: Override) returns (sleep: nat)
      requires Accepted(cfg) && Returns(View(), available, st, ov)
      modifies this
      ensures View() == Updated(old(View()), available, st, ov)
      ensures sleep == sleepUs
    {
      hide InMode, Regulated, Observed;
      updates := updates + 1;
      if st.capacity == 0 {
        SetMode(FailSafe);
        sleepUs := 1000;
        Blind(available);
        return sleepUs;
      }
      Observe(available, st);
      if ov.ForceFastRecovery? || available >= cfg.hardThreshold || smoothedFill >= cfg.highFill || lastPushDeltaNs > 0 {
        SetMode(FastRecovery);
        integral, sleepUs := 0.0, cfg.minSleepUs;
        return sleepUs;
      }
      Regulate(ov);
      sleep := sleepUs;
    }

    /** The telemetry of an update on a buffer without room. */
    method Blind(available: nat)
      modifies this`lastFill, this`smoothedFill, this`lastAvailable, this`lastPushDeltaNs, this`lastPopDeltaNs
      ensures TelemetryView() == Telemetry(0.0, 0.0, available, 0, 0, old(prevPushWaitNs), old(prevPopWaitNs))
    {
      lastFill, smoothedFill, lastAvailable, lastPushDeltaNs, lastPopDeltaNs := 0.0, 0.0, available, 0, 0;
    }

    /** Taking in an update's telemetry. */
    method Observe(available: nat, st: BufferStats)
      requires st.capacity > 0
      modifies this`lastFill, this`smoothedFill, this`lastAvailable, this`lastPushDeltaNs, this`lastPopDeltaNs,
               this`prevPushWaitNs, this`prevPopWaitNs
      ensures TelemetryView() == Observed(cfg, old(TelemetryView()), available, st) && lastAvailable == available
    {
      lastPushDeltaNs := SaturatingSub(st.pushWaitNs, prevPushWaitNs);
      lastPopDeltaNs := SaturatingSub(st.popWaitNs, prevPopWaitNs);
      prevPushWaitNs, prevPopWaitNs := st.pushWaitNs, st.popWaitNs;
      lastFill := st.len as real / st.capacity as real;
      smoothedFill := (1.0 - cfg.alpha) * smoothedFill + cfg.alpha * lastFill;
      lastAvailable := available;
    }

    /** The branch without an emergency. */
    method Regulate(ov: Override)
      requires Accepted(cfg) && cfg.integralLimit >= 0.0
      modifies this`mode, this`modeSwitches, this`fastRecoveryEntries, this`economyEntries,
               this`trackingEntries, this`failSafeEntries, this`integral, this`sleepUs
      ensures View() == Regulated(old(View()), ov)
    {
      hide InMode, Clamp, Proposal, ControlDelta;
      ghost var g := View();
      var error := cfg.targetFill - smoothedFill;
      integral := Clamp(integral + error, -cfg.integralLimit, cfg.integralLimit);
      assert integral == NextIntegral(g.cfg, g.integral, g.tel.smoothed);
      var proposed := Proposal(cfg, ControlDelta(cfg, smoothedFill, integral));
      var relaxed := Relaxed(cfg, mode, TelemetryView(), ov);
      if relaxed {
        SetMode(Economy);
        proposed := Min(SaturatingAdd(proposed, cfg.stepUpUs), cfg.maxSleepUs);
      } else {
        SetMode(Tracking);
        if smoothedFill > cfg.targetFill || lastAvailable >= cfg.softThreshold {
          proposed := Max(SaturatingSub(proposed, cfg.stepDownUs), cfg.minSleepUs);
        } else {
          proposed := Min(proposed, SaturatingAdd(cfg.nominalSleepUs, cfg.stepUpUs));
        }
      }
      if ov.ClampMaxSleep? {
        proposed := Min(proposed, Max(ov.maxSleepUs, cfg.minSleepUs));
      }
      if proposed == 0 {
        SetMode(FailSafe);
        sleepUs := 1000;
      } else {
        sleepUs := proposed;
      }
    }
  }
}
