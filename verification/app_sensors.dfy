/**
 * Sensor sampling and the presence engine (app/app_sensors.c).
 *
 * Each due light-sensor sample feeds the moving average. Each due distance
 * sample that is valid goes through the median-of-3 filter and then drives
 * the presence engine: capture of a reference distance, the away / flat /
 * motion conditions, four millisecond streak counters, the no-user reason,
 * and recovery from AWAY (back near the reference long enough) or from
 * FLAT (motion seen on this sample).
 *
 * The engine never clears `lastValidPresence`: reaching a timeout only
 * raises the no-user candidate and sets the reason. The drop to "nobody
 * present" happens elsewhere in the firmware (the pre-off logic), which is
 * not part of this model.
 *
 * The sensor drivers are inputs: a light reading is "OK or not" with the
 * value the driver left in `last_ldr_raw`, a distance reading is a
 * centimetre value with "OK or not".
 */
module AppSensors {
  import opened Wrap
  import opened Filters
  import opened AppState

  /** abs_diff_u32: the distance between two readings, computed without wrapping. */
  function AbsDiff(a: u32, b: u32): (d: u32)
    ensures d == Abs(a - b)
  {
    if a > b then a - b else b - a
  }

  /** The reference distance in force: the captured one when valid, otherwise the configured fallback. */
  function RefOf(p: Presence, cfg: PolicyCfg): u32
  {
    if p.refValid then p.refCm else cfg.refFallbackCm
  }

  /** The three per-sample conditions of the engine. */
  datatype Conditions = Conditions(away: bool, flat: bool, motion: bool)

  /**
   * Away: further than the reference plus the body margin (a 32-bit sum).
   * Flat and motion need a previous sample: the step from it is within the
   * flat band, or at least the motion delta.
   */
  function ConditionsOf(p: Presence, d: u32, cfg: PolicyCfg): (c: Conditions)
    ensures c.away <==> d > Add32(RefOf(p, cfg), cfg.bodyMarginCm)
    ensures c.flat <==> p.prevReady && Abs(d - p.prevCm) <= cfg.flatBandCm
    ensures c.motion <==> p.prevReady && Abs(d - p.prevCm) >= cfg.motionDeltaCm
  {
    var delta := if p.prevReady then AbsDiff(d, p.prevCm) else 0;
    Conditions(
      d > Add32(RefOf(p, cfg), cfg.bodyMarginCm),
      p.prevReady && delta <= cfg.flatBandCm,
      p.prevReady && delta >= cfg.motionDeltaCm)
  }

  /** A pending reference capture takes the filtered distance as the reference. */
  function Captured(p: Presence, d: u32): Presence
  {
    p.(refCm := if p.refPending then d else p.refCm,
       refValid := p.refPending || p.refValid,
       refPending := false,
       usingFallback := !p.refPending && p.usingFallback)
  }

  /** The away streak grows by the sample period while present and away, and is 0 otherwise. */
  function AwayStreak(p: Presence, c: Conditions, ms: u32): u32
  {
    if p.present && c.away then Add32(p.awayMs, ms) else 0
  }

  /** The flat streak grows by the sample period while present and flat, and is 0 otherwise. */
  function FlatStreak(p: Presence, c: Conditions, ms: u32): u32
  {
    if p.present && c.flat then Add32(p.flatMs, ms) else 0
  }

  /**
   * The motion streak is tracked only while nobody is present for reason
   * FLAT: it grows with motion and otherwise decays by half a period, never
   * below 0.
   */
  function MotionStreak(p: Presence, c: Conditions, ms: u32): u32
  {
    if !p.present && p.reason == ReasonFlat then
      (if c.motion then Add32(p.motionMs, ms) else if p.motionMs > ms / 2 then p.motionMs - ms / 2 else 0)
    else 0
  }

  /**
   * The near-reference streak grows only while nobody is present for reason
   * AWAY and the distance is back within the return band of the reference.
   */
  function NearStreak(p: Presence, d: u32, ms: u32, cfg: PolicyCfg): u32
  {
    if !p.present && p.reason == ReasonAway && d <= Add32(RefOf(p, cfg), cfg.returnBandCm)
    then Add32(p.nearRefMs, ms) else 0
  }

  /** The four streak counters after one sample. */
  function StreaksOf(p: Presence, d: u32, c: Conditions, ms: u32, cfg: PolicyCfg): Presence
  {
    p.(awayMs := AwayStreak(p, c, ms), flatMs := FlatStreak(p, c, ms),
       motionMs := MotionStreak(p, c, ms), nearRefMs := NearStreak(p, d, ms, cfg))
  }

  /** Recovery from AWAY: nobody present for that reason, and near the reference for the confirmation time. */
  predicate BackFromAway(p: Presence, cfg: PolicyCfg)
  {
    !p.present && p.reason == ReasonAway && p.nearRefMs >= cfg.returnConfirmMs
  }

  /** Recovery from FLAT: nobody present for that reason, and motion on this sample. */
  predicate BackFromFlat(p: Presence, motion: bool)
  {
    !p.present && p.reason == ReasonFlat && motion
  }

  /**
   * The reason after the decision: while present, AWAY when the away streak
   * reached its timeout, else FLAT when the flat streak reached the stale
   * timeout, else NONE; while absent, NONE on recovery and unchanged
   * otherwise.
   */
  function ReasonAfter(p: Presence, motion: bool, cfg: PolicyCfg): u8
  {
    if p.present then
      if p.awayMs >= cfg.awayTimeoutMs then ReasonAway
      else if p.flatMs >= cfg.staleTimeoutMs then ReasonFlat
      else ReasonNone
    else if BackFromAway(p, cfg) || BackFromFlat(p, motion) then ReasonNone
    else p.reason
  }

  /**
   * The decision after the streaks: the candidate is raised only for a
   * present user who reached a timeout; recovery makes the user present
   * again and clears the away and flat streaks together with the streak
   * that confirmed the return.
   */
  function Classified(p: Presence, motion: bool, cfg: PolicyCfg): Presence
  {
    var fromAway := BackFromAway(p, cfg);
    var fromFlat := !fromAway && BackFromFlat(p, motion);
    p.(present := p.present || fromAway || fromFlat,
       candidate := p.present && (p.awayMs >= cfg.awayTimeoutMs || p.flatMs >= cfg.staleTimeoutMs),
       reason := ReasonAfter(p, motion, cfg),
       awayMs := if fromAway || fromFlat then 0 else p.awayMs,
       flatMs := if fromAway || fromFlat then 0 else p.flatMs,
       nearRefMs := if fromAway then 0 else p.nearRefMs,
       motionMs := if fromFlat then 0 else p.motionMs)
  }

  /** The engine proper: with the light off it only clears the streaks and the candidate. */
  function Tracked(p: Presence, d: u32, lightEnabled: bool, ms: u32, cfg: PolicyCfg): Presence
  {
    if !lightEnabled then
      p.(awayMs := 0, flatMs := 0, motionMs := 0, nearRefMs := 0, candidate := false)
    else
      var c := ConditionsOf(p, d, cfg);
      Classified(StreaksOf(p, d, c, ms, cfg), c.motion, cfg)
  }

  /** One valid, filtered distance sample `d` through the presence engine. */
  function PresenceStep(p: Presence, d: u32, lightEnabled: bool, ms: u32, cfg: PolicyCfg): Presence
  {
    Tracked(Captured(p, d), d, lightEnabled, ms, cfg).(prevCm := d, prevReady := true)
  }

  /**
   * A pending capture takes `d` as the reference and drops the fallback,
   * whether or not the light is on; otherwise the reference is kept. Either
   * way `d` becomes the previous sample for the next one.
   */
  lemma StepCapturesReference(p: Presence, d: u32, lightEnabled: bool, ms: u32, cfg: PolicyCfg)
    ensures var q := PresenceStep(p, d, lightEnabled, ms, cfg);
      && (if p.refPending then q.refCm == d && q.refValid && !q.refPending && !q.usingFallback
          else q.refCm == p.refCm && q.refValid == p.refValid && !q.refPending && q.usingFallback == p.usingFallback)
      && q.prevCm == d && q.prevReady
  {
  }

  /** With the light off, the four streaks and the candidate are cleared; presence and reason are left alone. */
  lemma StepLightOff(p: Presence, d: u32, ms: u32, cfg: PolicyCfg)
    ensures var q := PresenceStep(p, d, false, ms, cfg);
      && q.awayMs == 0 && q.flatMs == 0 && q.motionMs == 0 && q.nearRefMs == 0 && !q.candidate
      && q.present == p.present && q.reason == p.reason
  {
  }

  /** The engine never turns presence off: a present user stays present after any sample. */
  lemma StepNeverDropsPresence(p: Presence, d: u32, lightEnabled: bool, ms: u32, cfg: PolicyCfg)
    requires p.present
    ensures PresenceStep(p, d, lightEnabled, ms, cfg).present
  {
  }

  /**
   * While present: the away and flat streaks grow by one period while their
   * condition holds and restart at 0 otherwise; the reason is AWAY once the
   * away streak reaches its timeout (checked first), FLAT once the flat
   * streak reaches the stale timeout, NONE otherwise; the candidate is
   * raised exactly when there is a reason; motion and near-reference
   * streaks are 0.
   */
  lemma StepWhilePresent(p: Presence, d: u32, ms: u32, cfg: PolicyCfg)
    requires p.present
    ensures var c := ConditionsOf(Captured(p, d), d, cfg);
      var q := PresenceStep(p, d, true, ms, cfg);
      && q.present
      && q.awayMs == (if c.away then Add32(p.awayMs, ms) else 0)
      && q.flatMs == (if c.flat then Add32(p.flatMs, ms) else 0)
      && q.motionMs == 0 && q.nearRefMs == 0
      && (q.reason == ReasonAway <==> q.awayMs >= cfg.awayTimeoutMs)
      && (q.reason == ReasonFlat <==> q.awayMs < cfg.awayTimeoutMs && q.flatMs >= cfg.staleTimeoutMs)
      && (q.candidate <==> q.reason == ReasonAway || q.reason == ReasonFlat)
  {
  }

  /**
   * While nobody is present: no candidate and no away or flat streak; the
   * user is back when the reason was AWAY and the near-reference streak
   * (this sample included) reached the confirmation time, or the reason was
   * FLAT and this sample shows motion. Recovery clears the reason; without
   * it the reason stays.
   */
  lemma StepWhileAbsent(p: Presence, d: u32, ms: u32, cfg: PolicyCfg)
    requires !p.present
    ensures var p1 := Captured(p, d);
      var c := ConditionsOf(p1, d, cfg);
      var s := StreaksOf(p1, d, c, ms, cfg);
      var q := PresenceStep(p, d, true, ms, cfg);
      && !q.candidate && q.awayMs == 0 && q.flatMs == 0
      && (q.present <==> (p.reason == ReasonAway && s.nearRefMs >= cfg.returnConfirmMs) || (p.reason == ReasonFlat && c.motion))
      && (q.present ==> q.reason == ReasonNone)
      && (!q.present ==> q.reason == p.reason)
  {
  }

  /**
   * The recovery streaks: motion counts only for reason FLAT and decays by
   * half a period (never below 0) without motion; near-reference counts
   * only for reason AWAY within the return band. Each is 0 in every other
   * situation.
   */
  lemma StepRecoveryStreaks(p: Presence, d: u32, ms: u32, cfg: PolicyCfg)
    ensures var p1 := Captured(p, d);
      var c := ConditionsOf(p1, d, cfg);
      var q := PresenceStep(p, d, true, ms, cfg);
      && (q.motionMs != 0 ==> !p.present && p.reason == ReasonFlat && !q.present)
      && (!p.present && p.reason == ReasonFlat && !c.motion ==>
            q.motionMs == (if p.motionMs > ms / 2 then p.motionMs - ms / 2 else 0) && q.motionMs <= p.motionMs)
      && (q.nearRefMs != 0 ==>
            !p.present && p.reason == ReasonAway && !q.present && d <= Add32(RefOf(p1, cfg), cfg.returnBandCm))
  {
  }

  /** A run of valid samples through the engine, oldest first. */
  function PresenceRun(p: Presence, ds: seq<u32>, lightEnabled: bool, ms: u32, cfg: PolicyCfg): Presence
    decreases |ds|
  {
    if |ds| == 0 then p else PresenceRun(PresenceStep(p, ds[0], lightEnabled, ms, cfg), ds[1..], lightEnabled, ms, cfg)
  }

  /** However long the run, a present user is still present at its end. */
  lemma {:induction false} RunNeverDropsPresence(p: Presence, ds: seq<u32>, lightEnabled: bool, ms: u32, cfg: PolicyCfg)
    requires p.present
    ensures PresenceRun(p, ds, lightEnabled, ms, cfg).present
    decreases |ds|
  {
    if |ds| > 0 {
      StepNeverDropsPresence(p, ds[0], lightEnabled, ms, cfg);
      RunNeverDropsPresence(PresenceStep(p, ds[0], lightEnabled, ms, cfg), ds[1..], lightEnabled, ms, cfg);
    }
  }

  /**
   * With the light on and no capture pending, a present user whose samples
   * are all beyond the reference plus the margin accumulates one period per
   * sample in the away streak (while it cannot wrap) and keeps the
   * reference.
   */
  lemma {:induction false} AwayStreakAccumulates(p: Presence, ds: seq<u32>, ms: u32, cfg: PolicyCfg)
    requires p.present && !p.refPending
    requires forall i :: 0 <= i < |ds| ==> ds[i] > Add32(RefOf(p, cfg), cfg.bodyMarginCm)
    requires p.awayMs + |ds| * ms < U32_LIMIT
    ensures var q := PresenceRun(p, ds, true, ms, cfg);
      && q.present && !q.refPending && RefOf(q, cfg) == RefOf(p, cfg)
      && q.awayMs == p.awayMs + |ds| * ms
    decreases |ds|
  {
    if |ds| > 0 {
      var p1 := PresenceStep(p, ds[0], true, ms, cfg);
      var rest := ds[1..];
      assert PresenceRun(p, ds, true, ms, cfg) == PresenceRun(p1, rest, true, ms, cfg);
      MulPeel(|ds|, ms);
      AwayStep(p, ds[0], ms, cfg);
      AwayRestFarther(p, p1, ds, cfg);
      AwayStreakAccumulates(p1, rest, ms, cfg);
    }
  }

  /**
   * In the same situation, once the streak at the end of a nonempty run has
   * reached the away timeout, the engine flags the AWAY candidate.
   */
  lemma {:induction false} AwayRunFlagsCandidate(p: Presence, ds: seq<u32>, ms: u32, cfg: PolicyCfg)
    requires p.present && !p.refPending
    requires forall i :: 0 <= i < |ds| ==> ds[i] > Add32(RefOf(p, cfg), cfg.bodyMarginCm)
    requires p.awayMs + |ds| * ms < U32_LIMIT
    requires |ds| > 0 && PresenceRun(p, ds, true, ms, cfg).awayMs >= cfg.awayTimeoutMs
    ensures PresenceRun(p, ds, true, ms, cfg).candidate && PresenceRun(p, ds, true, ms, cfg).reason == ReasonAway
    decreases |ds|
  {
    var p1 := PresenceStep(p, ds[0], true, ms, cfg);
    var rest := ds[1..];
    assert PresenceRun(p, ds, true, ms, cfg) == PresenceRun(p1, rest, true, ms, cfg);
    MulPeel(|ds|, ms);
    AwayStep(p, ds[0], ms, cfg);
    if |rest| > 0 {
      AwayRestFarther(p, p1, ds, cfg);
      AwayRunFlagsCandidate(p1, rest, ms, cfg);
    }
  }

  /** Taking one period off a run of `n` periods. */
  lemma MulPeel(n: nat, m: nat)
    requires n > 0
    ensures n * m == (n - 1) * m + m && (n - 1) * m >= 0
  {
  }

  /** The samples after the first are still beyond the (unchanged) reference plus margin. */
  lemma AwayRestFarther(p: Presence, p1: Presence, ds: seq<u32>, cfg: PolicyCfg)
    requires |ds| > 0 && RefOf(p1, cfg) == RefOf(p, cfg)
    requires forall i :: 0 <= i < |ds| ==> ds[i] > Add32(RefOf(p, cfg), cfg.bodyMarginCm)
    ensures forall i :: 0 <= i < |ds[1..]| ==> ds[1..][i] > Add32(RefOf(p1, cfg), cfg.bodyMarginCm)
  {
    forall i | 0 <= i < |ds[1..]|
      ensures ds[1..][i] == ds[i + 1]
    {
    }
  }

  /** One sample of an away run: the streak grows by one period and the candidate is flagged at the timeout. */
  lemma AwayStep(p: Presence, d: u32, ms: u32, cfg: PolicyCfg)
    requires p.present && !p.refPending
    requires d > Add32(RefOf(p, cfg), cfg.bodyMarginCm)
    requires p.awayMs + ms < U32_LIMIT
    ensures var p1 := PresenceStep(p, d, true, ms, cfg);
      && p1.present && !p1.refPending && RefOf(p1, cfg) == RefOf(p, cfg)
      && p1.awayMs == p.awayMs + ms
      && (p1.awayMs >= cfg.awayTimeoutMs ==> p1.candidate && p1.reason == ReasonAway)
  {
  }

  /** When the sum cannot wrap, away means exactly "further than reference plus margin". */
  lemma AwayWithoutWrap(p: Presence, d: u32, cfg: PolicyCfg)
    requires RefOf(p, cfg) + cfg.bodyMarginCm < U32_LIMIT
    ensures ConditionsOf(p, d, cfg).away <==> d > RefOf(p, cfg) + cfg.bodyMarginCm
  {
  }

  /**
   * app_sample_ldr_if_due: when the light-sensor interval has elapsed,
   * advance its timestamp by one interval and read the sensor; only an OK
   * reading enters the moving average and updates the filtered value.
   */
  method SampleLdrIfDue(timing: Timing, sensors: Sensors, nowMs: u32, ldrOk: bool, ldrRaw: u16,
                        tcfg: TimingCfg, elapsed: ElapsedFn)
    requires sensors.Valid()
    modifies timing`lastLdrSampleMs, sensors`lastLdrRaw, sensors`lastLdrOk, sensors`lastLdrFiltered
    modifies sensors.ldrMa, sensors.ldrMa.buffer
    ensures sensors.Valid()
    ensures !elapsed(nowMs, old(timing.lastLdrSampleMs), tcfg.ldrSampleMs) ==>
      && timing.lastLdrSampleMs == old(timing.lastLdrSampleMs)
      && unchanged(sensors, sensors.ldrMa, sensors.ldrMa.buffer)
    ensures elapsed(nowMs, old(timing.lastLdrSampleMs), tcfg.ldrSampleMs) ==>
      && timing.lastLdrSampleMs == Add32(old(timing.lastLdrSampleMs), tcfg.ldrSampleMs)
      && sensors.lastLdrOk == ldrOk && sensors.lastLdrRaw == ldrRaw
    ensures elapsed(nowMs, old(timing.lastLdrSampleMs), tcfg.ldrSampleMs) && !ldrOk ==>
      && sensors.lastLdrFiltered == old(sensors.lastLdrFiltered)
      && unchanged(sensors.ldrMa, sensors.ldrMa.buffer)
    ensures elapsed(nowMs, old(timing.lastLdrSampleMs), tcfg.ldrSampleMs) && ldrOk ==>
      && sensors.ldrMa.history == old(sensors.ldrMa.history) + [ldrRaw]
      && sensors.lastLdrFiltered == sensors.ldrMa.Get()
  {
    if elapsed(nowMs, timing.lastLdrSampleMs, tcfg.ldrSampleMs) {
      timing.lastLdrSampleMs := Add32(timing.lastLdrSampleMs, tcfg.ldrSampleMs);
      sensors.lastLdrOk := ldrOk;
      sensors.lastLdrRaw := ldrRaw;
      if sensors.lastLdrOk {
        sensors.lastLdrFiltered := sensors.ldrMa.Push(sensors.lastLdrRaw);
      }
    }
  }

  /**
   * app_sample_ultrasonic_if_due: when the distance interval has elapsed,
   * advance its timestamp by one interval and take a reading. A reading
   * equal to the error value, or with a failed status, changes nothing but
   * the recorded status. A valid one goes through the median filter, and
   * the filtered distance drives one step of the presence engine.
   */
  method SampleUltrasonicIfDue(timing: Timing, sensors: Sensors, control: Control, nowMs: u32,
                               distanceCm: u32, usOk: bool,
                               tcfg: TimingCfg, pcfg: PolicyCfg, elapsed: ElapsedFn)
    requires sensors.Valid()
    modifies timing`lastUsSampleMs, sensors`lastUsOk, sensors`presence
    modifies sensors`lastDistanceRawCm, sensors`lastDistanceFilteredCm, sensors`lastValidDistanceCm
    modifies sensors.distMedian3, sensors.distMedian3.samples
    ensures sensors.Valid()
    ensures !elapsed(nowMs, old(timing.lastUsSampleMs), tcfg.usSampleMs) ==>
      && timing.lastUsSampleMs == old(timing.lastUsSampleMs)
      && unchanged(sensors, sensors.distMedian3, sensors.distMedian3.samples)
    ensures elapsed(nowMs, old(timing.lastUsSampleMs), tcfg.usSampleMs) ==>
      && timing.lastUsSampleMs == Add32(old(timing.lastUsSampleMs), tcfg.usSampleMs)
      && sensors.lastUsOk == usOk
    ensures elapsed(nowMs, old(timing.lastUsSampleMs), tcfg.usSampleMs) && (distanceCm == pcfg.distanceErrorCm || !usOk) ==>
      && sensors.presence == old(sensors.presence)
      && sensors.lastDistanceRawCm == old(sensors.lastDistanceRawCm)
      && sensors.lastDistanceFilteredCm == old(sensors.lastDistanceFilteredCm)
      && sensors.lastValidDistanceCm == old(sensors.lastValidDistanceCm)
      && unchanged(sensors.distMedian3, sensors.distMedian3.samples)
    ensures elapsed(nowMs, old(timing.lastUsSampleMs), tcfg.usSampleMs) && distanceCm != pcfg.distanceErrorCm && usOk ==>
      && sensors.distMedian3.history == old(sensors.distMedian3.history) + [distanceCm]
      && sensors.lastDistanceRawCm == distanceCm
      && sensors.lastDistanceFilteredCm == sensors.distMedian3.Get()
      && sensors.lastValidDistanceCm == sensors.lastDistanceFilteredCm
      && sensors.presence ==
           PresenceStep(old(sensors.presence), sensors.lastDistanceFilteredCm, control.lightEnabled, tcfg.usSampleMs, pcfg)
  {
    if !elapsed(nowMs, timing.lastUsSampleMs, tcfg.usSampleMs) {
      return;
    }
    timing.lastUsSampleMs := Add32(timing.lastUsSampleMs, tcfg.usSampleMs);
    sensors.lastUsOk := usOk;
    if distanceCm == pcfg.distanceErrorCm || !sensors.lastUsOk {
      return;
    }
    FilterDistance(sensors, distanceCm);
    sensors.presence := RunPresence(sensors.presence, sensors.lastDistanceFilteredCm, control.lightEnabled,
                                    tcfg.usSampleMs, pcfg);
  }

  /** Lines 37-40: the raw reading, the median filter and the filtered distance. */
  method FilterDistance(sensors: Sensors, distanceCm: u32)
    requires sensors.Valid()
    modifies sensors`lastDistanceRawCm, sensors`lastDistanceFilteredCm, sensors`lastValidDistanceCm
    modifies sensors.distMedian3, sensors.distMedian3.samples
    ensures sensors.Valid()
    ensures sensors.distMedian3.history == old(sensors.distMedian3.history) + [distanceCm]
    ensures sensors.lastDistanceRawCm == distanceCm
    ensures sensors.lastDistanceFilteredCm == sensors.distMedian3.Get()
    ensures sensors.lastValidDistanceCm == sensors.lastDistanceFilteredCm
  {
    // The raw store and the push touch different state; their order is immaterial.
    sensors.distMedian3.Push(distanceCm);
    sensors.lastDistanceRawCm := distanceCm;
    sensors.lastDistanceFilteredCm := sensors.distMedian3.Get();
    sensors.lastValidDistanceCm := sensors.lastDistanceFilteredCm;
  }

  /** Lines 42-137 of the distance sample: capture, the engine, and the new previous sample. */
  method RunPresence(p0: Presence, d: u32, lightEnabled: bool, ms: u32, cfg: PolicyCfg) returns (p: Presence)
    ensures p == PresenceStep(p0, d, lightEnabled, ms, cfg)
  {
    p := p0;
    if p.refPending {
      p := p.(refCm := d, refValid := true, refPending := false, usingFallback := false);
    }
    if !lightEnabled {
      p := p.(awayMs := 0, flatMs := 0, motionMs := 0, nearRefMs := 0, candidate := false);
    } else {
      p := Track(p, d, ms, cfg);
    }
    p := p.(prevCm := d, prevReady := true);
  }

  /** The light-on branch: the three conditions, then the streaks, then the decision. */
  method Track(p0: Presence, d: u32, ms: u32, cfg: PolicyCfg) returns (p: Presence)
    ensures p == Tracked(p0, d, true, ms, cfg)
  {
    var refCm := if p0.refValid then p0.refCm else cfg.refFallbackCm;
    var prevReady := p0.prevReady;
    var delta: u32 := 0;
    if prevReady {
      delta := AbsDiff(d, p0.prevCm);
    }
    var away := d > Add32(refCm, cfg.bodyMarginCm);
    var flat := prevReady && delta <= cfg.flatBandCm;
    var motion := prevReady && delta >= cfg.motionDeltaCm;
    p := UpdateStreaks(p0, d, refCm, Conditions(away, flat, motion), ms, cfg);
    p := Decide(p, motion, cfg);
  }

  /** Lines 66-105: the away, flat, motion and near-reference streaks. */
  method UpdateStreaks(p0: Presence, d: u32, refCm: u32, c: Conditions, ms: u32, cfg: PolicyCfg) returns (p: Presence)
    requires refCm == RefOf(p0, cfg)
    ensures p == StreaksOf(p0, d, c, ms, cfg)
  {
    var away, flat := UpdateAwayFlat(p0, c, ms);
    var motion := UpdateMotion(p0, c, ms);
    var near := UpdateNear(p0, d, refCm, ms, cfg);
    p := p0.(awayMs := away, flatMs := flat, motionMs := motion, nearRefMs := near);
  }

  /** Lines 66-81 */
  method UpdateAwayFlat(p: Presence, c: Conditions, ms: u32) returns (away: u32, flat: u32)
    ensures away == AwayStreak(p, c, ms) && flat == FlatStreak(p, c, ms)
  {
    away, flat := p.awayMs, p.flatMs;
    if p.present {
      if c.away {
        away := Add32(away, ms);
      } else {
        away := 0;
      }
      if c.flat {
        flat := Add32(flat, ms);
      } else {
        flat := 0;
      }
    } else {
      away := 0;
      flat := 0;
    }
  }

  /** Lines 83-97 */
  method UpdateMotion(p: Presence, c: Conditions, ms: u32) returns (motion: u32)
    ensures motion == MotionStreak(p, c, ms)
  {
    motion := p.motionMs;
    if !p.present && p.reason == ReasonFlat {
      if c.motion {
        motion := Add32(motion, ms);
      } else if motion > ms / 2 {
        motion := motion - ms / 2;
      } else {
        motion := 0;
      }
    } else {
      motion := 0;
    }
  }

  /** Lines 99-105 */
  method UpdateNear(p: Presence, d: u32, refCm: u32, ms: u32, cfg: PolicyCfg) returns (near: u32)
    requires refCm == RefOf(p, cfg)
    ensures near == NearStreak(p, d, ms, cfg)
  {
    near := p.nearRefMs;
    if !p.present && p.reason == ReasonAway && d <= Add32(refCm, cfg.returnBandCm) {
      near := Add32(near, ms);
    } else {
      near := 0;
    }
  }

  /** Lines 107-133: the no-user candidate and reason while present, recovery while absent. */
  method Decide(p0: Presence, motion: bool, cfg: PolicyCfg) returns (p: Presence)
    ensures p == Classified(p0, motion, cfg)
  {
    p := p0.(candidate := false);
    if p.present {
      p := p.(reason := ReasonNone);
      if p.awayMs >= cfg.awayTimeoutMs {
        p := p.(candidate := true, reason := ReasonAway);
      } else if p.flatMs >= cfg.staleTimeoutMs {
        p := p.(candidate := true, reason := ReasonFlat);
      }
    } else {
      if p.reason == ReasonAway && p.nearRefMs >= cfg.returnConfirmMs {
        p := p.(present := true, nearRefMs := 0, awayMs := 0, flatMs := 0, reason := ReasonNone);
      } else if p.reason == ReasonFlat && motion {
        p := p.(present := true, motionMs := 0, awayMs := 0, flatMs := 0, reason := ReasonNone);
      }
    }
  }
}
