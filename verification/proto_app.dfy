/**
 * The first application loop of the firmware (app.c at the top of the
 * source tree): every 100 ms it takes one ultrasonic reading, keeps the last
 * valid distance and the presence flag it implies, classifies the system
 * state for the RGB indicator and logs the state when it changes. The build
 * has the RGB test mode switched on, which replaces every state but FAULT
 * by a one-second cycle through four colours.
 *
 * HAL_GetTick and the ultrasonic driver become parameters; the display and
 * the status-LED driver calls and the log text are not modelled.
 */
module ProtoApp {
  import opened Wrap
  import StatusLed
  import Settings

  /** APP_DISTANCE_ERROR_CM: the distance the driver reports for a failed echo. */
  const DistanceErrorCm: int := 999
  /** APP_LOOP_TICK_MS */
  const LoopTickMs: int := 100
  /** APP_BOOT_SETUP_MS */
  const BootSetupMs: int := 1000
  /** APP_PRESENCE_CM: a user is present when the last valid distance is below it. */
  const PresenceCm: int := 80
  /** APP_TEST_STATE_MS: how long each colour of the test cycle is shown. */
  const TestStateMs: int := 1000

  /**
   * app_evaluate_state of this revision: fault, then the boot window, then
   * "nobody present" and "positive offset", both only while the light is
   * on; AUTO otherwise. It has no LIGHT_OFF state.
   */
  function EvaluateState(fatalFault: bool, bootDone: bool, lightEnabled: bool, present: bool, offset: int): (s: StatusLed.LedState)
    ensures s == StatusLed.FaultFatal <==> fatalFault
    ensures s == StatusLed.BootSetup <==> !fatalFault && !bootDone
    ensures s == StatusLed.NoUser <==> !fatalFault && bootDone && lightEnabled && !present
    ensures s == StatusLed.OffsetPositive <==> !fatalFault && bootDone && lightEnabled && present && offset > 0
    ensures s == StatusLed.Auto <==> !fatalFault && bootDone && (!lightEnabled || (present && offset <= 0))
  {
    if fatalFault then StatusLed.FaultFatal
    else if !bootDone then StatusLed.BootSetup
    else if lightEnabled && !present then StatusLed.NoUser
    else if lightEnabled && offset > 0 then StatusLed.OffsetPositive
    else StatusLed.Auto
  }

  /** The boot window has passed once 1000 ms have elapsed since boot (modulo 2^32). */
  predicate BootDone(nowMs: u32, bootStartMs: u32)
  {
    Sub32(nowMs, bootStartMs) >= BootSetupMs
  }

  /** The colour of each phase of the test cycle. */
  function PhaseState(phase: int): StatusLed.LedState
  {
    if phase == 0 then StatusLed.Auto
    else if phase == 1 then StatusLed.OffsetPositive
    else if phase == 2 then StatusLed.NoUser
    else StatusLed.BootSetup
  }

  /** The state that follows another in the test cycle. */
  function CycleNext(s: StatusLed.LedState): StatusLed.LedState
  {
    match s
    case Auto => StatusLed.OffsetPositive
    case OffsetPositive => StatusLed.NoUser
    case NoUser => StatusLed.BootSetup
    case _ => StatusLed.Auto
  }

  /**
   * app_apply_test_override with the test mode on: FAULT passes through;
   * any other state is replaced by the phase of the whole seconds since boot
   * modulo 4, in the order AUTO, OFFSET_POSITIVE, NO_USER, BOOT_SETUP.
   */
  function TestOverride(runtimeState: StatusLed.LedState, nowMs: u32, bootStartMs: u32): (s: StatusLed.LedState)
    ensures runtimeState == StatusLed.FaultFatal ==> s == StatusLed.FaultFatal
    ensures runtimeState != StatusLed.FaultFatal ==>
      s == PhaseState((Sub32(nowMs, bootStartMs) / TestStateMs) % 4)
    ensures s == StatusLed.FaultFatal <==> runtimeState == StatusLed.FaultFatal
  {
    if runtimeState == StatusLed.FaultFatal then runtimeState
    else
      var phase := (Sub32(nowMs, bootStartMs) / TestStateMs) % 4;
      if phase == 0 then StatusLed.Auto
      else if phase == 1 then StatusLed.OffsetPositive
      else if phase == 2 then StatusLed.NoUser
      else StatusLed.BootSetup
  }

  /** The successor modulo 4 of a natural number. */
  lemma ModFourSucc(q: nat)
    ensures (q + 1) % 4 == if q % 4 == 3 then 0 else q % 4 + 1
  {
    var k := q / 4;
    assert q == 4 * k + q % 4;
    if q % 4 == 3 {
      Settings.DivUnique(q + 1, 4, k + 1);
    } else {
      Settings.DivUnique(q + 1, 4, k);
    }
  }

  /**
   * One second later (without the time since boot wrapping), the test mode
   * shows the next colour of the cycle, so every four seconds the cycle
   * repeats.
   */
  lemma TestOverrideCycles(s: StatusLed.LedState, nowMs: u32, laterMs: u32, bootStartMs: u32)
    requires s != StatusLed.FaultFatal
    requires Sub32(laterMs, bootStartMs) == Sub32(nowMs, bootStartMs) + TestStateMs
    ensures TestOverride(s, laterMs, bootStartMs) == CycleNext(TestOverride(s, nowMs, bootStartMs))
  {
    var t := Sub32(nowMs, bootStartMs);
    var q := t / TestStateMs;
    assert q * TestStateMs <= t < q * TestStateMs + TestStateMs;
    Settings.DivUnique(t + TestStateMs, TestStateMs, q + 1);
    ModFourSucc(q);
  }

  /**
   * The effect of one ultrasonic reading on (last valid distance, presence):
   * a reading of 999 cm or one whose driver status is not OK leaves both as
   * they were; any other reading becomes the last valid distance, and the
   * user is present exactly when it is below 80 cm.
   */
  function ApplyReading(lastCm: u32, present: bool, distanceCm: u32, statusOk: bool): (r: (u32, bool))
    ensures distanceCm == DistanceErrorCm || !statusOk ==> r == (lastCm, present)
    ensures distanceCm != DistanceErrorCm && statusOk ==> r.0 == distanceCm && (r.1 <==> distanceCm < PresenceCm)
  {
    if distanceCm != DistanceErrorCm && statusOk then (distanceCm, distanceCm < PresenceCm)
    else (lastCm, present)
  }

  /** A reading as the driver returns it: the distance and whether its status is OK. */
  datatype Reading = Reading(distanceCm: u32, statusOk: bool)

  predicate IsValid(r: Reading)
  {
    r.distanceCm != DistanceErrorCm && r.statusOk
  }

  /** A run of readings, applied in order. */
  function ApplyReadings(lastCm: u32, present: bool, rs: seq<Reading>): (u32, bool)
    decreases |rs|
  {
    if rs == [] then (lastCm, present)
    else
      var prev := ApplyReadings(lastCm, present, rs[..|rs| - 1]);
      ApplyReading(prev.0, prev.1, rs[|rs| - 1].distanceCm, rs[|rs| - 1].statusOk)
  }

  /**
   * After any run of readings the stored distance is the latest valid one
   * and the presence flag is exactly "it is below 80 cm"; with no valid
   * reading in the run both are what they were before.
   */
  lemma {:induction false} ReadingsKeepLastValid(lastCm: u32, present: bool, rs: seq<Reading>)
    ensures (forall k :: 0 <= k < |rs| ==> !IsValid(rs[k])) ==> ApplyReadings(lastCm, present, rs) == (lastCm, present)
    ensures forall k :: 0 <= k < |rs| && IsValid(rs[k]) && (forall j :: k < j < |rs| ==> !IsValid(rs[j])) ==>
      ApplyReadings(lastCm, present, rs) == (rs[k].distanceCm, rs[k].distanceCm < PresenceCm)
    decreases |rs|
  {
    if rs != [] {
      var init := rs[..|rs| - 1];
      ReadingsKeepLastValid(lastCm, present, init);
      forall k | 0 <= k < |rs| - 1
        ensures init[k] == rs[k]
      {
      }
    }
  }

  /** The log-on-change state: whether anything was logged yet, and the last state logged. */
  datatype LogState = LogState(hasLogged: bool, lastLogged: StatusLed.LedState)

  /**
   * The logging decision of app_step: the first state is logged, and after
   * that a state is logged only when it differs from the last one logged;
   * a logged state becomes the last one.
   */
  function LogStep(log: LogState, state: StatusLed.LedState): (r: (bool, LogState))
    ensures r.0 <==> !log.hasLogged || state != log.lastLogged
    ensures r.1.hasLogged && r.1.lastLogged == state
    ensures !r.0 ==> r.1 == log
  {
    if !log.hasLogged || state != log.lastLogged then (true, LogState(true, state)) else (false, log)
  }

  /** The states logged over a run of steps, from a log state. */
  function LoggedStates(log: LogState, ss: seq<StatusLed.LedState>): seq<StatusLed.LedState>
    decreases |ss|
  {
    if ss == [] then []
    else
      var r := LogStep(log, ss[0]);
      (if r.0 then [ss[0]] else []) + LoggedStates(r.1, ss[1..])
  }

  /** The run with every repetition of its previous state removed. */
  function Changes(prev: StatusLed.LedState, ss: seq<StatusLed.LedState>): seq<StatusLed.LedState>
    decreases |ss|
  {
    if ss == [] then []
    else (if ss[0] != prev then [ss[0]] else []) + Changes(ss[0], ss[1..])
  }

  /**
   * From the initial log state, the states logged over any run are its
   * first state followed by every change of state: a state that repeats is
   * never logged twice in a row, and no change goes unlogged.
   */
  lemma LogsEveryChangeOnce(initial: StatusLed.LedState, ss: seq<StatusLed.LedState>)
    requires ss != []
    ensures LoggedStates(LogState(false, initial), ss) == [ss[0]] + Changes(ss[0], ss[1..])
  {
    LoggedAfterFirst(ss[0], ss[1..]);
  }

  lemma {:induction false} LoggedAfterFirst(last: StatusLed.LedState, ss: seq<StatusLed.LedState>)
    ensures LoggedStates(LogState(true, last), ss) == Changes(last, ss)
    decreases |ss|
  {
    if ss != [] {
      LoggedAfterFirst(ss[0], ss[1..]);
    }
  }

  /**
   * The application context of app.c. Nothing in this revision writes the
   * light flag or the offset after app_init, so they keep their initial
   * values (light off, offset 0).
   */
  class Context {
    var bootStartMs: u32
    var lastTickMs: u32
    var lastValidDistanceCm: u32
    var manualOffset: i32
    var present: bool
    var lightEnabled: bool
    var fatalFault: bool
    var displayReady: bool
    var log: LogState

    /** The light stays off and the offset at zero. */
    predicate Valid()
      reads this
    {
      !lightEnabled && manualOffset == 0
    }

    /**
     * app_init, with `displayOk` the result of display_init and `bootMs` the
     * tick read after the peripherals are up, which restarts the boot window:
     * a display that fails to start latches the fatal fault.
     */
    constructor (displayOk: bool, bootMs: u32)
      ensures Valid()
      ensures bootStartMs == bootMs && lastTickMs == bootMs
      ensures lastValidDistanceCm == DistanceErrorCm && present
      ensures fatalFault == !displayOk && displayReady == displayOk
      ensures log == LogState(false, StatusLed.Auto)
    {
      bootStartMs, lastTickMs := bootMs, bootMs;
      lastValidDistanceCm, manualOffset, present := DistanceErrorCm, 0, true;
      lightEnabled, fatalFault, displayReady := false, !displayOk, displayOk;
      log := LogState(false, StatusLed.Auto);
    }

    /** app_set_fatal_fault: any nonzero argument latches the fault, zero clears it. */
    method SetFatalFault(enabled: bool)
      modifies this`fatalFault
      ensures fatalFault == enabled
    {
      fatalFault := enabled;
    }

    /**
     * app_step, with the reading the ultrasonic driver would return: before
     * 100 ms have passed since the last loop tick nothing changes and no
     * state is produced; otherwise the tick restarts at `nowMs`, the reading
     * is applied, the shown state is the test override of the classified
     * state, and `logged` tells whether it was logged.
     */
    method Step(nowMs: u32, reading: Reading) returns (state: Option<StatusLed.LedState>, logged: bool)
      requires Valid()
      modifies this`lastTickMs, this`lastValidDistanceCm, this`present, this`log
      ensures Valid()
      ensures Sub32(nowMs, old(lastTickMs)) < LoopTickMs ==>
        state == None && !logged && unchanged(this)
      ensures Sub32(nowMs, old(lastTickMs)) >= LoopTickMs ==>
        && lastTickMs == nowMs
        && (lastValidDistanceCm, present)
           == ApplyReading(old(lastValidDistanceCm), old(present), reading.distanceCm, reading.statusOk)
        && state == Some(TestOverride(EvaluateState(fatalFault, BootDone(nowMs, bootStartMs), lightEnabled, present, manualOffset), nowMs, bootStartMs))
        && (logged, log) == LogStep(old(log), state.value)
    {
      if Sub32(nowMs, lastTickMs) < LoopTickMs {
        return None, false;
      }
      lastTickMs := nowMs;
      if reading.distanceCm != DistanceErrorCm && reading.statusOk {
        lastValidDistanceCm := reading.distanceCm;
        present := reading.distanceCm < PresenceCm;
      }
      var s := EvaluateState(fatalFault, Sub32(nowMs, bootStartMs) >= BootSetupMs, lightEnabled, present, manualOffset);
      s := TestOverride(s, nowMs, bootStartMs);
      logged := false;
      if !log.hasLogged || s != log.lastLogged {
        logged := true;
        log := LogState(true, s);
      }
      state := Some(s);
    }
  }
}
