/** The polling governor's control law (`gateway/src/governor.rs`), told by the calls alone: what it sleeps, in which mode it
    is, and what it reports are functions of the telemetry of the run, written out here from the definitions.
 */
module GovernorControl {
  import opened Common
  import opened Governor
  import opened GovernorProofs

  /** Telemetry of buffers with room. */
  predicate HaveRoom(inputs: seq<Input>) {
    forall i :: 0 <= i < |inputs| ==> inputs[i].st.capacity > 0
  }

  /** The exponentially weighted average of the fills of a run, starting from an empty buffer. */
  function Ewma(alpha: real, inputs: seq<Input>): real
    requires forall i :: 0 <= i < |inputs| ==> inputs[i].st.capacity > 0
  {
    if inputs == [] then 0.0
    else
      var n := |inputs| - 1;
      (1.0 - alpha) * Ewma(alpha, inputs[..n]) + alpha * (inputs[n].st.len as real / inputs[n].st.capacity as real)
  }

  lemma {:induction false} EwmaStep(alpha: real, inputs: seq<Input>)
    requires inputs != [] && forall i :: 0 <= i < |inputs| ==> inputs[i].st.capacity > 0
    ensures var n := |inputs| - 1;
            Ewma(alpha, inputs) == Smooth(alpha, Ewma(alpha, inputs[..n]), FillRatio(inputs[n].st))
  {
  }

  /** The push and pop waits the last call reported. */
  function LastWaits(inputs: seq<Input>): (nat, nat) {
    if inputs == [] then (0, 0) else (inputs[|inputs| - 1].st.pushWaitNs, inputs[|inputs| - 1].st.popWaitNs)
  }

  lemma {:induction false} EwmaOfNothing(alpha: real)
    ensures Ewma(alpha, []) == 0.0
  {
  }

  function Front(inputs: seq<Input>): seq<Input>
    requires inputs != []
  {
    inputs[..|inputs| - 1]
  }

  function Last(inputs: seq<Input>): Input
    requires inputs != []
  {
    inputs[|inputs| - 1]
  }

  /** The last call is an emergency: forced, a hard backlog, a high average fill, or a producer that has waited. */
  predicate Recovery(c: Config, inputs: seq<Input>)
    requires inputs != [] && HaveRoom(inputs)
  {
    var last := Last(inputs);
    || last.ov.ForceFastRecovery? || last.available >= c.hardThreshold
    || Ewma(c.alpha, inputs) >= c.highFill || last.st.pushWaitNs > LastWaits(Front(inputs)).0
  }

  /** The mode after the last call. An economy is entered when the buffer is low and consumers wait longer than producers,
      and kept while the buffer is at most at its target. */
  function ModeOf(c: Config, inputs: seq<Input>): Mode
    requires HaveRoom(inputs)
  {
    if inputs == [] then Tracking
    else if Recovery(c, inputs) then FastRecovery
    else
      var last, level := Last(inputs), Ewma(c.alpha, inputs);
      if && last.ov.NoOverride?
         && ((level <= c.lowFill && last.available <= c.softThreshold / 2 && last.st.popWaitNs > LastWaits(Front(inputs)).1)
             || (ModeOf(c, Front(inputs)).Economy? && level <= c.targetFill && last.available <= c.softThreshold))
      then Economy
      else Tracking
  }

  /** The errors summed up since the last emergency, held within the limit at every call. */
  function Charge(c: Config, inputs: seq<Input>): real
    requires HaveRoom(inputs)
  {
    if inputs == [] || Recovery(c, inputs) then 0.0
    else
      var sum := Charge(c, Front(inputs)) + (c.targetFill - Ewma(c.alpha, inputs));
      if sum < -c.integralLimit then -c.integralLimit else if sum > c.integralLimit then c.integralLimit else sum
  }

  /** Proportional and integral control around the nominal sleep, in whole microseconds within the range. */
  function Controlled(c: Config, level: real, charge: real): nat
    requires Accepted(c)
  {
    var control := c.nominalSleepUs as real + (Times(c.kp, c.targetFill - level) + Times(c.ki, charge));
    if control < c.minSleepUs as real then c.minSleepUs
    else if control > c.maxSleepUs as real then c.maxSleepUs
    else control.Floor
  }

  /** The sleep after the last call. */
  function SleepOf(c: Config, inputs: seq<Input>): nat
    requires Accepted(c) && HaveRoom(inputs)
  {
    if inputs == [] then c.nominalSleepUs
    else
      var last, level, mode := Last(inputs), Ewma(c.alpha, inputs), ModeOf(c, inputs);
      if mode.FastRecovery? then c.minSleepUs
      else
        var p := Controlled(c, level, Charge(c, inputs));
        var q :=
          if mode.Economy? then (if p + c.stepUpUs <= c.maxSleepUs then p + c.stepUpUs else c.maxSleepUs)
          else if level > c.targetFill || last.available >= c.softThreshold
          then (if c.minSleepUs + c.stepDownUs <= p then p - c.stepDownUs else c.minSleepUs)
          else (if p <= c.nominalSleepUs + c.stepUpUs then p else c.nominalSleepUs + c.stepUpUs);
        if last.ov.ClampMaxSleep? && q > last.ov.maxSleepUs
        then (if last.ov.maxSleepUs <= c.minSleepUs then c.minSleepUs else last.ov.maxSleepUs)
        else q
  }

  lemma ControlledIsProposal(c: Config, level: real, charge: real)
    requires Accepted(c)
    ensures Controlled(c, level, charge) == Proposal(c, ControlDelta(c, level, charge))
  {
    hide ControlDelta, Times;
    ControlDeltaIs(c, level, charge);
  }

  lemma ControlDeltaIs(c: Config, level: real, charge: real)
    ensures ControlDelta(c, level, charge) == Times(c.kp, c.targetFill - level) + Times(c.ki, charge)
  {
  }

  /** The state of the governor that the law speaks of. */
  predicate Lawful(g: Gov, inputs: seq<Input>)
    requires Accepted(g.cfg) && HaveRoom(inputs)
  {
    && g.modes.mode == ModeOf(g.cfg, inputs)
    && g.integral == Charge(g.cfg, inputs)
    && g.sleepUs == SleepOf(g.cfg, inputs)
    && g.tel.smoothed == Ewma(g.cfg.alpha, inputs)
    && (g.tel.prevPushWaitNs, g.tel.prevPopWaitNs) == LastWaits(inputs)
  }

  /** One call after a lawful run: what it observes, and whether it is an emergency. */
  lemma {:induction false} LawfulObservation(g: Gov, inputs: seq<Input>)
    requires Runnable(g.cfg) && inputs != [] && HaveRoom(inputs) && Lawful(g, Front(inputs))
    ensures var c, last := g.cfg, Last(inputs);
            var tel := Observed(c, g.tel, last.available, last.st);
            && tel.smoothed == Ewma(c.alpha, inputs)
            && (tel.prevPushWaitNs, tel.prevPopWaitNs) == LastWaits(inputs)
            && (Emergency(c, tel, last.ov) <==> Recovery(c, inputs))
            && (!Recovery(c, inputs) ==>
                  && (Relaxed(c, g.modes.mode, tel, last.ov) <==> ModeOf(c, inputs).Economy?)
                  && ModeOf(c, inputs) == (if ModeOf(c, inputs).Economy? then Economy else Tracking)
                  && NextIntegral(c, g.integral, tel.smoothed) == Charge(c, inputs))
  {
    hide Smooth, FillRatio, Ewma, SleepOf;
    EwmaStep(g.cfg.alpha, inputs);
  }

  /** What the branch without an emergency proposes is what the law says. */
  lemma {:induction false} LawfulProposal(g: Gov, inputs: seq<Input>)
    requires Runnable(g.cfg) && inputs != [] && HaveRoom(inputs) && Lawful(g, Front(inputs)) && !Recovery(g.cfg, inputs)
    ensures var c, last := g.cfg, Last(inputs);
            Proposed(c, g.modes.mode, Observed(c, g.tel, last.available, last.st), Charge(c, inputs), last.ov)
            == SleepOf(c, inputs)
  {
    hide Smooth, FillRatio, Ewma, Recovery, Charge, Proposal, ControlDelta, Controlled, Relaxed, ModeOf, Lawful;
    var c := g.cfg;
    LawfulObservation(g, inputs);
    ControlledIsProposal(c, Ewma(c.alpha, inputs), Charge(c, inputs));
    ProposalInRange(c, ControlDelta(c, Ewma(c.alpha, inputs), Charge(c, inputs)));
  }

  lemma {:induction false} LawfulStep(g: Gov, inputs: seq<Input>)
    requires Runnable(g.cfg) && inputs != [] && HaveRoom(inputs) && Lawful(g, Front(inputs))
    ensures Lawful(Updated(g, Last(inputs).available, Last(inputs).st, Last(inputs).ov), inputs)
  {
    hide Smooth, FillRatio, Ewma, Recovery, Charge, Proposed, Relaxed, ModeOf, SleepOf, Emergency, NextIntegral, Observed;
    var c, last := g.cfg, Last(inputs);
    LawfulObservation(g, inputs);
    if Recovery(c, inputs) {
      RecoveryLaw(c, inputs);
    } else {
      LawfulProposal(g, inputs);
      ProposedInRange(c, g.modes.mode, Observed(c, g.tel, last.available, last.st), Charge(c, inputs), last.ov);
    }
  }

  lemma {:induction false} RecoveryLaw(c: Config, inputs: seq<Input>)
    requires Accepted(c) && inputs != [] && HaveRoom(inputs) && Recovery(c, inputs)
    ensures ModeOf(c, inputs) == FastRecovery && Charge(c, inputs) == 0.0 && SleepOf(c, inputs) == c.minSleepUs
  {
    hide Recovery, Ewma;
  }

  /** Over every run the governor follows the law. */
  lemma {:induction false} GovernorFollowsLaw(cfg: Config, inputs: seq<Input>)
    requires Initial(cfg).cfg.integralLimit >= 0.0 && HaveRoom(inputs)
    ensures Lawful(Runs(Initial(cfg), inputs), inputs)
  {
    hide Updated;
    if inputs == [] {
      NothingIsLawful(cfg);
    } else {
      GovernorFollowsLaw(cfg, Front(inputs));
      LawfulStep(Runs(Initial(cfg), Front(inputs)), inputs);
    }
  }

  lemma NothingIsLawful(cfg: Config)
    ensures Lawful(Initial(cfg), [])
  {
    EwmaOfNothing(Initial(cfg).cfg.alpha);
  }

  // ---------- What else a call sets ----------

  /** `new` keeps exactly the configurations whose sleeps are positive and ordered, whose marks are ordered ratios, whose
      smoothing weight is one, and whose thresholds are ordered. */
  lemma NewKeepsExactly(cfg: Config)
    requires cfg.maxSleepUs <= U64_MAX
    ensures Initial(cfg).cfg ==
              if && 1 <= cfg.minSleepUs && cfg.minSleepUs <= cfg.nominalSleepUs && cfg.nominalSleepUs <= cfg.maxSleepUs
                 && 0.0 <= cfg.lowFill && cfg.lowFill <= cfg.targetFill && cfg.targetFill <= cfg.highFill
                 && cfg.highFill <= 1.0 && 0.0 <= cfg.alpha && cfg.alpha <= 1.0
                 && cfg.softThreshold <= cfg.hardThreshold
              then cfg else DEFAULT_CONFIG
  {
  }

  /** A call on a buffer without capacity fails safe for a millisecond. It forgets the fill, but neither the integral nor
      the waits the next call compares with. */
  lemma BlindCall(g: Gov, available: nat, st: BufferStats, ov: Override)
    requires Accepted(g.cfg) && st.capacity == 0
    ensures var r := Updated(g, available, st, ov);
            && r.modes.mode.FailSafe? && r.sleepUs == 1000 && r.updates == g.updates + 1
            && r.integral == g.integral
            && r.tel == Telemetry(0.0, 0.0, available, 0, 0, g.tel.prevPushWaitNs, g.tel.prevPopWaitNs)
  {
  }

  /** What the governor's statistics report of the last call: its fill and backlog, and what each wait total has grown by
      since the call before. */
  lemma {:induction false} StatsReportLastCall(cfg: Config, inputs: seq<Input>)
    requires Initial(cfg).cfg.integralLimit >= 0.0 && HaveRoom(inputs) && inputs != []
    ensures var tel, last, before := Runs(Initial(cfg), inputs).tel, Last(inputs), LastWaits(Front(inputs));
            && tel.lastFill * last.st.capacity as real == last.st.len as real
            && tel.available == last.available
            && (before.0 <= last.st.pushWaitNs ==> before.0 + tel.pushDeltaNs == last.st.pushWaitNs)
            && (before.1 <= last.st.popWaitNs ==> before.1 + tel.popDeltaNs == last.st.popWaitNs)
            && (last.st.pushWaitNs < before.0 ==> tel.pushDeltaNs == 0)
            && (last.st.popWaitNs < before.1 ==> tel.popDeltaNs == 0)
  {
    hide FillRatio, Smooth, Ewma, Proposed;
    GovernorFollowsLaw(cfg, Front(inputs));
  }

  /** The calls of a run that brought a mode, which is Tracking at the start. */
  function Entries(cfg: Config, inputs: seq<Input>, mode: Mode): nat
    requires Initial(cfg).cfg.integralLimit >= 0.0
  {
    if inputs == [] then (if mode.Tracking? then 1 else 0)
    else
      var before, after := Runs(Initial(cfg), Front(inputs)).modes.mode, Runs(Initial(cfg), inputs).modes.mode;
      Entries(cfg, Front(inputs), mode) + (if after == mode && before != mode then 1 else 0)
  }

  /** Each entry counter counts the entries into its own mode, and the switches are all of them but the start. */
  lemma {:induction false} EntriesAreCounted(cfg: Config, inputs: seq<Input>)
    requires Initial(cfg).cfg.integralLimit >= 0.0
    ensures var m := Runs(Initial(cfg), inputs).modes;
            && m.fastRecoveryEntries == Entries(cfg, inputs, FastRecovery)
            && m.economyEntries == Entries(cfg, inputs, Economy)
            && m.trackingEntries == Entries(cfg, inputs, Tracking)
            && m.failSafeEntries == Entries(cfg, inputs, FailSafe)
            && EntriesCount(m)
  {
    hide Updated;
    if inputs != [] {
      EntriesAreCounted(cfg, Front(inputs));
      ModesStep(Runs(Initial(cfg), Front(inputs)), Last(inputs));
    }
  }

  lemma ModesStep(g: Gov, input: Input)
    requires Runnable(g.cfg)
    ensures var r := Updated(g, input.available, input.st, input.ov);
            r.modes == InMode(g.modes, r.modes.mode)
  {
    hide FillRatio, Smooth, Proposed;
    if input.st.capacity > 0 {
      var tel := Observed(g.cfg, g.tel, input.available, input.st);
      ProposedInRange(g.cfg, g.modes.mode, tel, NextIntegral(g.cfg, g.integral, tel.smoothed), input.ov);
    }
  }

  /** The first call of a default governor, on an empty buffer: the control asks for 162 us, the cap is 25 us above nominal. */
  lemma DefaultFirstCall()
    ensures Updated(Initial(DEFAULT_CONFIG), 0, BufferStats(100, 0, 0, 0), NoOverride).sleepUs == 125
  {
    hide Updated, Ewma, Controlled, Smooth, FillRatio;
    var c, inputs := DEFAULT_CONFIG, [Input(0, BufferStats(100, 0, 0, 0), NoOverride)];
    assert Front(inputs) == [] && Runs(Initial(c), []) == Initial(c);
    EwmaOfNothing(c.alpha);
    EwmaStep(c.alpha, inputs);
    EmptyRatio(inputs[0].st);
    SmoothOfSame(c.alpha, 0.0);
    DefaultControl();
    assert !Recovery(c, inputs) && ModeOf(c, inputs) == Tracking;
    assert Charge(c, inputs) == 0.03;
    GovernorFollowsLaw(c, inputs);
  }

  lemma DefaultControl()
    ensures Controlled(DEFAULT_CONFIG, 0.0, 0.03) == 162
  {
  }
}
