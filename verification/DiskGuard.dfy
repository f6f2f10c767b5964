/** The disk-space guard that admits or pauses capture. */
module DiskGuard {
  import opened Basics

  datatype Reason = Healthy | LowDisk | CheckFailed

  /** Thresholds in bytes and the sampling interval in nanoseconds. A zero pause threshold disables the guard. */
  datatype GuardConfig = GuardConfig(pauseBelow: nat, resumeAt: nat, interval: nat)

  /** The status and sampleOK fields; no sample yet is `sampledAt == None`. */
  datatype Status = Status(paused: bool, reason: Reason, available: nat, sampledAt: Option<int>, sampleOk: bool)

  const UNSAMPLED := Status(false, Healthy, 0, None, false)

  /** One call of Check: whether it is forced, the clock, and what the probe would answer if asked. */
  datatype Call = Call(force: bool, now: int, probe: Option<nat>)

  predicate Probes(cfg: GuardConfig, s: Status, c: Call) {
    cfg.pauseBelow > 0 && (c.force || s.sampledAt.None? || c.now - s.sampledAt.value >= cfg.interval)
  }

  function Sampled(cfg: GuardConfig, s: Status, c: Call): Status {
    match c.probe
    case None => Status(true, CheckFailed, s.available, Some(c.now), false)
    case Some(free) =>
      if free < cfg.pauseBelow || (s.paused && free < cfg.resumeAt)
      then Status(true, LowDisk, free, Some(c.now), true)
      else Status(false, Healthy, free, Some(c.now), true)
  }

  function Checked(cfg: GuardConfig, s: Status, c: Call): Status {
    if Probes(cfg, s, c) then Sampled(cfg, s, c) else s
  }

  predicate Admits(cfg: GuardConfig, s: Status, c: Call) {
    cfg.pauseBelow == 0 || !Checked(cfg, s, c).paused
  }

  class Guard {
    const cfg: GuardConfig
    var status: Status
    /** Every check made so far, by whichever session. */
    ghost var calls: seq<Call>

    ghost predicate Valid()
      reads this
    {
      status == After(cfg, calls, |calls|)
    }

    constructor (cfg: GuardConfig)
      ensures this.cfg == cfg && status == UNSAMPLED && calls == [] && Valid()
    {
      this.cfg := cfg;
      status := UNSAMPLED;
      calls := [];
    }

    /** nil is `ok`; ErrPaused is its negation. */
    method Check(c: Call) returns (ok: bool)
      requires Valid()
      modifies this
      ensures Valid() && calls == old(calls) + [c]
      ensures c.force && ok ==> AdmittedAt(cfg, calls, |old(calls)|)
      ensures status == Checked(cfg, old(status), c) && ok == Admits(cfg, old(status), c)
      ensures c.force && ok && cfg.pauseBelow > 0 ==> c.probe.Some? && c.probe.value >= cfg.pauseBelow
      ensures old(status).paused && ok && cfg.pauseBelow > 0 ==>
        c.probe.Some? && c.probe.value >= Max(cfg.pauseBelow, cfg.resumeAt)
    {
      AfterPrefix(cfg, calls, [c], |calls|);
      calls := calls + [c];
      if cfg.pauseBelow == 0 {
        return true;
      }
      if !c.force && status.sampledAt.Some? && c.now - status.sampledAt.value < cfg.interval {
        return !status.paused;
      }
      var previous := status;
      status := status.(sampledAt := Some(c.now), sampleOk := c.probe.Some?);
      if c.probe.None? {
        status := status.(paused := true, reason := CheckFailed);
      } else {
        status := status.(available := c.probe.value);
        if c.probe.value < cfg.pauseBelow || (previous.paused && c.probe.value < cfg.resumeAt) {
          status := status.(paused := true, reason := LowDisk);
        } else {
          status := status.(paused := false, reason := Healthy);
        }
      }
      ok := !status.paused;
    }
  }

  /**
   When a check admits, and what it leaves: a sample admits exactly at the pause threshold, and at the resume threshold
   too if the guard was paused; between samples the last verdict stands; a disabled guard admits and samples nothing.
   */
  lemma AdmitsExactly(cfg: GuardConfig, s: Status, c: Call)
    ensures var t, ok := Checked(cfg, s, c), Admits(cfg, s, c);
      if cfg.pauseBelow == 0 then ok && t == s
      else if c.force || s.sampledAt == None || c.now - s.sampledAt.value >= cfg.interval then
        && (ok <==> c.probe.Some? && c.probe.value >= cfg.pauseBelow && (s.paused ==> c.probe.value >= cfg.resumeAt))
        && t.paused == !ok && t.sampledAt == Some(c.now) && t.sampleOk == c.probe.Some?
        && t.available == (if c.probe.Some? then c.probe.value else s.available)
        && t.reason == (if ok then Healthy else if c.probe.Some? then LowDisk else CheckFailed)
      else (ok <==> !s.paused) && t == s
  {
  }

  // ----- Whole runs -----

  function After(cfg: GuardConfig, calls: seq<Call>, n: nat): Status
    requires n <= |calls|
  {
    if n == 0 then UNSAMPLED else Checked(cfg, After(cfg, calls, n - 1), calls[n - 1])
  }

  lemma {:induction false} AfterPrefix(cfg: GuardConfig, calls: seq<Call>, more: seq<Call>, n: nat)
    requires n <= |calls|
    ensures After(cfg, calls + more, n) == After(cfg, calls, n)
  {
    if n != 0 {
      AfterPrefix(cfg, calls, more, n - 1);
    }
  }

  /** A forced check admitted a batch. */
  ghost predicate AdmittedAt(cfg: GuardConfig, calls: seq<Call>, j: nat) {
    j < |calls| && calls[j].force && Admits(cfg, After(cfg, calls, j), calls[j])
  }

  /** Each of n batches was admitted by a forced check of its own, in order, from call `first` on. */
  ghost predicate Admissions(cfg: GuardConfig, calls: seq<Call>, first: nat, admitted: seq<nat>, n: nat) {
    && |admitted| == n
    && (forall k | 0 <= k < n :: first <= admitted[k] && AdmittedAt(cfg, calls, admitted[k]))
    && forall k, l | 0 <= k < l < n :: admitted[k] < admitted[l]
  }

  lemma AdmissionsStay(cfg: GuardConfig, calls: seq<Call>, later: seq<Call>, first: nat, admitted: seq<nat>, n: nat)
    requires Admissions(cfg, calls, first, admitted, n) && calls <= later
    ensures Admissions(cfg, later, first, admitted, n)
  {
    assert later == calls + later[|calls|..];
    forall k | 0 <= k < n ensures AdmittedAt(cfg, later, admitted[k]) {
      AfterPrefix(cfg, calls, later[|calls|..], admitted[k]);
    }
  }

  /** Call n took a sample and found at least the resume threshold (and the pause threshold) free. */
  ghost predicate Recovers(cfg: GuardConfig, calls: seq<Call>, n: nat)
    requires n < |calls|
  {
    && Probes(cfg, After(cfg, calls, n), calls[n])
    && calls[n].probe.Some? && calls[n].probe.value >= Max(cfg.pauseBelow, cfg.resumeAt)
  }

  /** Call n took a sample that failed or found less than the pause threshold free. */
  ghost predicate Alarms(cfg: GuardConfig, calls: seq<Call>, n: nat)
    requires n < |calls|
  {
    && Probes(cfg, After(cfg, calls, n), calls[n])
    && (calls[n].probe == None || calls[n].probe.value < cfg.pauseBelow)
  }

  /** An alarm after which no sample has recovered. */
  ghost predicate AlarmLasts(cfg: GuardConfig, calls: seq<Call>, i: nat, n: nat)
    requires n <= |calls|
  {
    i < n && Alarms(cfg, calls, i) && forall m: nat | i < m < n :: !Recovers(cfg, calls, m)
  }

  /** Hysteresis, exactly: the guard is paused if and only if there was an alarm and no recovery since. */
  lemma {:induction false} PausedExactly(cfg: GuardConfig, calls: seq<Call>, n: nat)
    requires n <= |calls|
    ensures After(cfg, calls, n).paused <==> exists i: nat :: AlarmLasts(cfg, calls, i, n)
  {
    if n != 0 {
      var m: nat := n - 1;
      PausedExactly(cfg, calls, m);
      if i: nat :| AlarmLasts(cfg, calls, i, m) {
        assert !Recovers(cfg, calls, m) ==> AlarmLasts(cfg, calls, i, n);
      }
      if i: nat :| AlarmLasts(cfg, calls, i, n) {
        assert i < m ==> AlarmLasts(cfg, calls, i, m) && !Recovers(cfg, calls, m);
      }
      assert Alarms(cfg, calls, m) ==> AlarmLasts(cfg, calls, m, n);
    }
  }

  /** Once paused, the guard admits nothing until a successful probe at or above the resume threshold. */
  lemma {:induction false} PauseHolds(cfg: GuardConfig, calls: seq<Call>, i: nat, j: nat)
    requires i <= j < |calls| && After(cfg, calls, i).paused
    requires Admits(cfg, After(cfg, calls, j), calls[j]) && cfg.pauseBelow > 0
    ensures exists m :: i <= m <= j && Recovers(cfg, calls, m)
    decreases j - i
  {
    if !Recovers(cfg, calls, i) {
      assert After(cfg, calls, i + 1).paused;
      assert i < j;
      PauseHolds(cfg, calls, i + 1, j);
    }
  }

  /** So no batch admitted after the guard paused came before a successful probe at or above the resume threshold. */
  lemma NoBatchWhilePaused(cfg: GuardConfig, calls: seq<Call>, first: nat, admitted: seq<nat>, n: nat, k: nat, i: nat)
    requires Admissions(cfg, calls, first, admitted, n) && k < n && cfg.pauseBelow > 0
    requires i <= admitted[k] && After(cfg, calls, i).paused
    ensures exists m :: i <= m <= admitted[k] && Recovers(cfg, calls, m)
  {
    PauseHolds(cfg, calls, i, admitted[k]);
  }
}
