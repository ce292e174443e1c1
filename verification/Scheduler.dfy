/** The scheduler thread (`gateway/src/main.rs`): it watches the readers' statuses, counts how often each is above its
    thresholds, and sends a reader a command when the mode it wants changes.

    Statuses and instants are inputs; a command channel is the sequence of what was sent into it.
 */
module Scheduler {
  import opened Common

  datatype ControlMode = Automatic | ClampToNominal | ForceFastRecovery | ShutdownDrain

  datatype Status = Status(id: string, available: nat, fill: real, observedAtNs: nat)

  datatype Config = Config(warningThreshold: nat, criticalThreshold: nat, warningLimit: nat, staleMs: nat)

  const DEFAULT_CONFIG := Config(16, 24, 3, 500)

  /** What the scheduler holds for one reader. */
  datatype Entry = Entry(status: Option<Status>, warn: nat, crit: nat, last: Option<ControlMode>, sent: seq<ControlMode>)

  const UNKNOWN := Entry(None, 0, 0, None, [])

  /** One poll, as one reader's entry sees it: the latest status that arrived for it, if any, and the time. */
  datatype Round = Round(arrived: Option<Status>, nowNs: nat)

  function ElapsedMs(nowNs: nat, earlierNs: nat): nat {
    Min(SaturatingSub(nowNs, earlierNs) / 1_000_000, U64_MAX)
  }

  /** A hit counter is a saturating 32-bit integer. */
  function Hits(before: nat, available: nat, threshold: nat): nat {
    if available >= threshold then Min(before + 1, U32_MAX) else 0
  }

  function Desired(cfg: Config, st: Status, warn: nat, crit: nat, nowNs: nat): ControlMode {
    if ElapsedMs(nowNs, st.observedAtNs) >= cfg.staleMs || crit > 0 then ForceFastRecovery
    else if warn >= cfg.warningLimit || st.fill >= 0.20 then ClampToNominal
    else Automatic
  }

  function Visited(e: Entry, cfg: Config, nowNs: nat): Entry {
    match e.status
    case None => e
    case Some(st) =>
      var warn, crit := Hits(e.warn, st.available, cfg.warningThreshold), Hits(e.crit, st.available, cfg.criticalThreshold);
      var desired := Desired(cfg, st, warn, crit, nowNs);
      Entry(e.status, warn, crit, Some(desired), if e.last == Some(desired) then e.sent else e.sent + [desired])
  }

  /** The last status in `arrived` that is about `id`, or else `before`. */
  function LatestOf(arrived: seq<Status>, id: string, before: Option<Status>): Option<Status> {
    if arrived == [] then before
    else
      var last := arrived[|arrived| - 1];
      if last.id == id then Some(last) else LatestOf(arrived[..|arrived| - 1], id, before)
  }

  function Told(e: Entry, arrived: Option<Status>): Entry {
    if arrived.Some? then e.(status := arrived) else e
  }

  function Rounded(e: Entry, cfg: Config, round: Round): Entry {
    Visited(Told(e, round.arrived), cfg, round.nowNs)
  }

  class SchedulerThread {
    const cfg: Config
    const ids: seq<string>
    var latestStatus: map<string, Status>
    var warningHits: map<string, nat>
    var criticalHits: map<string, nat>
    var lastCommand: map<string, ControlMode>
    var sent: map<string, seq<ControlMode>>

    /** The ids are the keys of the map of command channels. */
    predicate Valid()
      reads this
    {
      && (forall i, j :: 0 <= i < j < |ids| ==> ids[i] != ids[j])
      && (forall i :: 0 <= i < |ids| ==> ids[i] in sent)
    }

    function EntryOf(id: string): Entry
      reads this
    {
      Entry(if id in latestStatus then Some(latestStatus[id]) else None,
            if id in warningHits then warningHits[id] else 0,
            if id in criticalHits then criticalHits[id] else 0,
            if id in lastCommand then Some(lastCommand[id]) else None,
            if id in sent then sent[id] else [])
    }

    constructor (cfg: Config, ids: seq<string>)
      requires forall i, j :: 0 <= i < j < |ids| ==> ids[i] != ids[j]
      ensures Valid() && this.cfg == cfg && this.ids == ids
      ensures forall id :: EntryOf(id) == UNKNOWN
    {
      this.cfg, this.ids := cfg, ids;
      latestStatus, warningHits, criticalHits, lastCommand := map[], map[], map[], map[];
      sent := map id | id in ids :: [];
    }

    /** Emptying the status channel: a later status of a reader replaces an earlier one. */
    method TakeStatuses(arrived: seq<Status>)
      modifies this`latestStatus
      ensures forall id :: EntryOf(id) == Told(old(EntryOf(id)), LatestOf(arrived, id, None))
    {
      var i := 0;
      while i < |arrived|
        invariant 0 <= i <= |arrived|
        invariant forall id :: EntryOf(id) == Told(old(EntryOf(id)), LatestOf(arrived[..i], id, None))
      {
        assert arrived[..i + 1][..i] == arrived[..i];
        latestStatus := latestStatus[arrived[i].id := arrived[i]];
        i := i + 1;
      }
      assert arrived[..i] == arrived;
    }

    /** One reader's turn within a poll. */
    method Visit(id: string, nowNs: nat)
      requires Valid() && id in ids
      modifies this`warningHits, this`criticalHits, this`lastCommand, this`sent
      ensures Valid()
      ensures EntryOf(id) == Visited(old(EntryOf(id)), cfg, nowNs)
      ensures forall other :: other != id ==> EntryOf(other) == old(EntryOf(other))
    {
      hide Desired, Hits;
      if id !in latestStatus {
        return;
      }
      var status := latestStatus[id];
      var warn := CountHits(warningHits, id, status.available, cfg.warningThreshold);
      warningHits := warningHits[id := warn];
      var crit := CountHits(criticalHits, id, status.available, cfg.criticalThreshold);
      criticalHits := criticalHits[id := crit];
      Command(id, Desired(cfg, status, warn, crit, nowNs));
    }

    method CountHits(hits: map<string, nat>, id: string, available: nat, threshold: nat) returns (n: nat)
      ensures n == Hits(if id in hits then hits[id] else 0, available, threshold)
    {
      n := 0;
      if available >= threshold {
        n := Min((if id in hits then hits[id] else 0) + 1, U32_MAX);
      }
    }

    /** A command is sent only when it differs from the last one. */
    method Command(id: string, desired: ControlMode)
      requires id in sent
      modifies this`lastCommand, this`sent
      ensures lastCommand == old(lastCommand)[id := desired]
      ensures sent == if id in old(lastCommand) && old(lastCommand)[id] == desired then old(sent)
                      else old(sent)[id := old(sent)[id] + [desired]]
    {
      if id !in lastCommand || lastCommand[id] != desired {
        sent := sent[id := sent[id] + [desired]];
        lastCommand := lastCommand[id := desired];
      }
    }

    /** One pass of the polling loop. */
    method Poll(arrived: seq<Status>, nowNs: nat)
      requires Valid()
      modifies this`latestStatus, this`warningHits, this`criticalHits, this`lastCommand, this`sent
      ensures Valid()
      ensures forall id :: id in ids ==>
                EntryOf(id) == Rounded(old(EntryOf(id)), cfg, Round(LatestOf(arrived, id, None), nowNs))
    {
      hide Visited, LatestOf;
      TakeStatuses(arrived);
      label told:
      var i := 0;
      while i < |ids|
        invariant 0 <= i <= |ids| && Valid()
        invariant forall j :: 0 <= j < i ==> EntryOf(ids[j]) == Visited(old@told(EntryOf(ids[j])), cfg, nowNs)
        invariant forall j :: i <= j < |ids| ==> EntryOf(ids[j]) == old@told(EntryOf(ids[j]))
      {
        Visit(ids[i], nowNs);
        i := i + 1;
      }
    }

    /** After the stop flag: every reader is told to drain. */
    method SendDrain()
      requires Valid()
      modifies this`sent
      ensures Valid()
      ensures forall id :: id in ids ==> EntryOf(id) == old(EntryOf(id)).(sent := old(EntryOf(id)).sent + [ShutdownDrain])
    {
      var i := 0;
      while i < |ids|
        invariant 0 <= i <= |ids| && Valid()
        invariant forall j :: 0 <= j < i ==> ids[j] in old(sent) && sent[ids[j]] == old(sent)[ids[j]] + [ShutdownDrain]
        invariant forall j :: i <= j < |ids| ==> ids[j] in old(sent) && sent[ids[j]] == old(sent)[ids[j]]
      {
        sent := sent[ids[i] := sent[ids[i]] + [ShutdownDrain]];
        i := i + 1;
      }
    }
  }

  // ---------- One reader's entry over any polls ----------

  function After(cfg: Config, rounds: seq<Round>): Entry {
    if rounds == [] then UNKNOWN
    else Rounded(After(cfg, rounds[..|rounds| - 1]), cfg, rounds[|rounds| - 1])
  }

  /** The status the scheduler knows at the last of these polls. */
  function Known(rounds: seq<Round>): Option<Status> {
    if rounds == [] then None
    else
      var last := rounds[|rounds| - 1];
      if last.arrived.Some? then last.arrived else Known(rounds[..|rounds| - 1])
  }

  /** The poll found a status at or above the threshold. */
  predicate HitAt(rounds: seq<Round>, threshold: nat, i: nat)
    requires i < |rounds|
  {
    var st := Known(rounds[..i + 1]);
    st.Some? && st.value.available >= threshold
  }

  function HitSuffix(rounds: seq<Round>, threshold: nat): (k: nat)
    ensures k <= |rounds|
  {
    if rounds == [] then 0
    else
      var n := |rounds| - 1;
      if HitAt(rounds, threshold, n) then HitSuffix(rounds[..n], threshold) + 1 else 0
  }

  /** `HitSuffix` is the length of the longest suffix of polls at or above the threshold. */
  lemma {:induction false} SuffixIsLongest(rounds: seq<Round>, threshold: nat)
    ensures var k := HitSuffix(rounds, threshold);
            && (forall i :: |rounds| - k <= i < |rounds| ==> HitAt(rounds, threshold, i))
            && (k < |rounds| ==> !HitAt(rounds, threshold, |rounds| - k - 1))
  {
    if rounds != [] {
      var n := |rounds| - 1;
      SuffixIsLongest(rounds[..n], threshold);
      forall i | 0 <= i < n ensures HitAt(rounds, threshold, i) == HitAt(rounds[..n], threshold, i) {
        assert rounds[..n][..i + 1] == rounds[..i + 1];
      }
    }
  }

  lemma {:induction false} SuffixAtLeast(rounds: seq<Round>, threshold: nat, m: nat)
    ensures HitSuffix(rounds, threshold) >= m
       <==> m <= |rounds| && forall i :: |rounds| - m <= i < |rounds| ==> HitAt(rounds, threshold, i)
  {
    SuffixIsLongest(rounds, threshold);
    var k := HitSuffix(rounds, threshold);
    if k < |rounds| {
      assert !HitAt(rounds, threshold, |rounds| - k - 1);
    }
  }

  /** Of the statuses that have arrived, a reader's latest is the last one that is about it. */
  lemma {:induction false} LatestIsLast(arrived: seq<Status>, id: string, before: Option<Status>)
    ensures var latest := LatestOf(arrived, id, before);
            || (latest == before && forall i :: 0 <= i < |arrived| ==> arrived[i].id != id)
            || exists i :: 0 <= i < |arrived| && latest == Some(arrived[i]) && arrived[i].id == id
                           && forall j :: i < j < |arrived| ==> arrived[j].id != id
  {
    if arrived != [] && arrived[|arrived| - 1].id != id {
      var front := arrived[..|arrived| - 1];
      LatestIsLast(front, id, before);
      if i :| 0 <= i < |front| && LatestOf(front, id, before) == Some(front[i]) && front[i].id == id
              && forall j :: i < j < |front| ==> front[j].id != id {
        assert arrived[i] == front[i];
        assert forall j :: i < j < |arrived| ==> arrived[j].id != id;
      }
    }
  }

  /** Each hit counter is the length of the current suffix of polls at or above its threshold, up to saturation. */
  lemma {:induction false} HitsAreSuffixes(cfg: Config, rounds: seq<Round>)
    ensures var e := After(cfg, rounds);
            && e.status == Known(rounds)
            && e.warn == Min(HitSuffix(rounds, cfg.warningThreshold), U32_MAX)
            && e.crit == Min(HitSuffix(rounds, cfg.criticalThreshold), U32_MAX)
    ensures Known(rounds).None? ==> After(cfg, rounds) == UNKNOWN
  {
    if rounds != [] {
      var n := |rounds| - 1;
      HitsAreSuffixes(cfg, rounds[..n]);
      assert rounds[..n + 1] == rounds;
      if Known(rounds).None? {
        assert Known(rounds[..n]).None?;
        assert !HitAt(rounds, cfg.warningThreshold, n);
      }
    }
  }

  /** A status is stale when it was made at least `staleMs` milliseconds before now. */
  predicate Stale(cfg: Config, nowNs: nat, observedAtNs: nat) {
    cfg.staleMs == 0 || (observedAtNs <= nowNs && nowNs - observedAtNs >= cfg.staleMs * 1_000_000)
  }

  /** By default a reader is stale half a second after its last status. */
  lemma DefaultStaleness(nowNs: nat, observedAtNs: nat)
    ensures Stale(DEFAULT_CONFIG, nowNs, observedAtNs) <==> nowNs - observedAtNs >= 500_000_000
  {
  }

  lemma StaleExactly(cfg: Config, nowNs: nat, observedAtNs: nat)
    requires cfg.staleMs <= U64_MAX
    ensures ElapsedMs(nowNs, observedAtNs) >= cfg.staleMs <==> Stale(cfg, nowNs, observedAtNs)
  {
  }

  /** The mode the scheduler last asked for, told by the history of polls: recovery when the status is stale or critical
      now; else the clamp when the last `warningLimit` polls were all at the warning level or the buffer is a fifth full;
      else automatic. */
  lemma {:induction false} CommandFollowsHistory(cfg: Config, rounds: seq<Round>)
    requires rounds != [] && Known(rounds).Some? && cfg.warningLimit <= U32_MAX && cfg.staleMs <= U64_MAX
    ensures var st, now := Known(rounds).value, rounds[|rounds| - 1].nowNs;
            var n := |rounds|;
            After(cfg, rounds).last == Some(
              if Stale(cfg, now, st.observedAtNs) || st.available >= cfg.criticalThreshold then ForceFastRecovery
              else if (cfg.warningLimit <= n && forall i :: n - cfg.warningLimit <= i < n ==> HitAt(rounds, cfg.warningThreshold, i))
                      || st.fill >= 0.20 then ClampToNominal
              else Automatic)
  {
    HitsAreSuffixes(cfg, rounds);
    HitsAreSuffixes(cfg, rounds[..|rounds| - 1]);
    SuffixAtLeast(rounds, cfg.warningThreshold, cfg.warningLimit);
    StaleExactly(cfg, rounds[|rounds| - 1].nowNs, Known(rounds).value.observedAtNs);
    assert rounds[..|rounds|] == rounds;
  }

  predicate NoRepeats(modes: seq<ControlMode>) {
    forall i :: 0 < i < |modes| ==> modes[i - 1] != modes[i]
  }

  function LastOf(modes: seq<ControlMode>): Option<ControlMode> {
    if modes == [] then None else Some(modes[|modes| - 1])
  }

  /** No two adjacent commands sent to a reader are equal, the last is the one on record, and none but the final one, sent
      on shutdown, is a drain. */
  lemma {:induction false} CommandsNeverRepeat(cfg: Config, rounds: seq<Round>)
    ensures var e := After(cfg, rounds);
            && NoRepeats(e.sent) && LastOf(e.sent) == e.last
            && (forall i :: 0 <= i < |e.sent| ==> !e.sent[i].ShutdownDrain?)
            && NoRepeats(e.sent + [ShutdownDrain])
  {
    if rounds != [] {
      CommandsNeverRepeat(cfg, rounds[..|rounds| - 1]);
    }
  }
}
