/**
 * The output controller (app/app_control.c): the light sensor sets an
 * automatic brightness, the user's offset shifts it, the result is forced
 * to 0 when the light is off or nobody is present, then held by a
 * hysteresis band and moved towards by a rate-limited ramp before it
 * reaches the main LED. Beside it: the status classifier that picks the
 * RGB indicator state, and the fixed-cadence control tick.
 */
module AppControl {
  import opened Wrap
  import opened AppState
  import StatusLed
  import MainLed

  /** APP_ADC_MAX_VALUE: full scale of the 12-bit light-sensor ADC. */
  const AdcMax: int := 4095

  /** clamp_percent_i32: the nearest value in [0, 100]. */
  function ClampPercent(value: int): (r: u8)
    ensures r <= 100
    ensures 0 <= value <= 100 ==> r == value
    ensures value < 0 ==> r == 0
    ensures value > 100 ==> r == 100
  {
    if value <= 0 then 0
    else if value >= 100 then 100
    else value
  }

  /**
   * The light level as a share of full scale, `min(raw * 100 / 4095, 100)`.
   * The controller uses it through `AutoPercent`; app_ui.c shows it as the
   * LDR percentage (app_compute_ldr_percent).
   */
  function LdrPercent(raw: u16): (p: u8)
    ensures p <= 100
    ensures raw == 0 ==> p == 0
    ensures raw >= AdcMax ==> p == 100
  {
    var scaled := raw * 100 / AdcMax;
    if scaled > 100 then 100 else scaled
  }

  /** A brighter room never shows a smaller light level. */
  lemma LdrPercentMonotone(r1: u16, r2: u16)
    requires r1 <= r2
    ensures LdrPercent(r1) <= LdrPercent(r2)
  {
    var x1, x2 := r1 * 100, r2 * 100;
    MulMonotone(r1, r2, 100);
    assert x1 / AdcMax <= x2 / AdcMax;
  }

  /**
   * compute_auto_percent_from_ldr: the automatic brightness is the
   * complement of the light level, so it and the displayed LDR percentage
   * always add up to 100.
   */
  function AutoPercent(raw: u16): (p: u8)
    ensures p <= 100
    ensures p + LdrPercent(raw) == 100
  {
    100 - LdrPercent(raw)
  }

  /** Darkness gives full brightness, full-scale light gives none, and more light never gives more output. */
  lemma AutoPercentShape(r1: u16, r2: u16)
    requires r1 <= r2
    ensures AutoPercent(0) == 100
    ensures r2 >= AdcMax ==> AutoPercent(r2) == 0
    ensures AutoPercent(r2) <= AutoPercent(r1)
  {
    LdrPercentMonotone(r1, r2);
  }

  /**
   * The target of app_update_output_control: automatic brightness plus the
   * offset, clamped to [0, 100], and 0 whenever the light is off or the
   * presence engine reports nobody.
   */
  function TargetPercent(autoPercent: u8, offset: int, lightEnabled: bool, present: bool): (t: u8)
    ensures t <= 100
    ensures !lightEnabled || !present ==> t == 0
    ensures lightEnabled && present && 0 <= autoPercent + offset <= 100 ==> t == autoPercent + offset
    ensures lightEnabled && present && autoPercent + offset > 100 ==> t == 100
  {
    var t := ClampPercent(autoPercent + offset);
    if !lightEnabled || !present then 0 else t
  }

  /**
   * The value apply_output_hysteresis keeps once initialised, given the
   * last applied value: a new target replaces it only when it is 0 or at
   * least `band` away, so the output is always the target itself or within
   * the band of it, and it never moves except to the target.
   */
  function HysteresisOf(last: u8, target: u8, band: u8): (r: u8)
    ensures r == target || (target != 0 && Abs(target - r) < band)
    ensures r != last ==> r == target
    ensures target != 0 && Abs(target - last) < band ==> r == last
  {
    var diff := if target > last then target - last else last - target;
    if target == 0 || diff >= band then target else last
  }

  /** With last 50 and band 5: a target of 53 is held at 50, while 55 and 0 are adopted. */
  lemma HysteresisExamples()
    ensures HysteresisOf(50, 53, 5) == 50
    ensures HysteresisOf(50, 55, 5) == 55
    ensures HysteresisOf(50, 0, 5) == 0
  {
  }

  /**
   * The step apply_output_ramp uses: the switch-on step when leaving 0, the
   * switch-off step when heading for 0, the normal step otherwise; a zero
   * step becomes 1.
   */
  function RampStep(current: u8, desired: u8, cfg: PolicyCfg): (step: u8)
    ensures step >= 1
  {
    var s :=
      if current == 0 && desired > 0 then cfg.rampStepOnPercent
      else if desired == 0 && current > 0 then cfg.rampStepOffPercent
      else cfg.rampStepPercent;
    if s == 0 then 1 else s
  }

  /** Which configured step applies, case by case. */
  lemma RampStepCases(current: u8, desired: u8, cfg: PolicyCfg)
    ensures current == 0 < desired && cfg.rampStepOnPercent != 0 ==> RampStep(current, desired, cfg) == cfg.rampStepOnPercent
    ensures desired == 0 < current && cfg.rampStepOffPercent != 0 ==> RampStep(current, desired, cfg) == cfg.rampStepOffPercent
    ensures (current == 0) == (desired == 0) && cfg.rampStepPercent != 0 ==> RampStep(current, desired, cfg) == cfg.rampStepPercent
  {
  }

  /**
   * One ramp movement: towards `desired` by exactly `step`, or onto it when
   * it is at most `step` away. The result never overshoots.
   */
  function RampOf(current: u8, desired: u8, step: u8): (r: u8)
    requires step >= 1
    ensures Min(current, desired) <= r <= Min(current, desired) + Abs(desired - current)
    ensures Abs(desired - current) > step ==> Abs(r - current) == step
    ensures Abs(desired - current) <= step ==> r == desired
  {
    if desired > current then
      (if desired - current > step then current + step else desired)
    else if desired < current then
      (if current - desired > step then current - step else desired)
    else current
  }

  /** `n` ramp movements with the same step. */
  function RampIter(current: u8, desired: u8, step: u8, n: nat): u8
    requires step >= 1
    decreases n
  {
    if n == 0 then current else RampIter(RampOf(current, desired, step), desired, step, n - 1)
  }

  /** The ramp reaches the requested value after ceil(|desired - current| / step) movements and stays there. */
  lemma {:induction false} RampConverges(current: u8, desired: u8, step: u8, n: nat)
    requires step >= 1 && n * step >= Abs(desired - current)
    ensures RampIter(current, desired, step, n) == desired
    decreases n
  {
    if n == 0 {
    } else {
      var next := RampOf(current, desired, step);
      assert (n - 1) * step == n * step - step;
      RampConverges(next, desired, step, n - 1);
    }
  }

  /**
   * `n` successive calls of apply_output_ramp towards the same value, each
   * choosing its step afresh from where the previous one left the output.
   */
  function RampRun(current: u8, desired: u8, cfg: PolicyCfg, n: nat): u8
    decreases n
  {
    if n == 0 then current else RampRun(RampOf(current, desired, RampStep(current, desired, cfg)), desired, cfg, n - 1)
  }

  /**
   * Whatever the configured on, off and normal steps, the ramp as the code
   * calls it reaches the requested value within |desired - current| calls
   * and stays there.
   */
  lemma {:induction false} RampRunConverges(current: u8, desired: u8, cfg: PolicyCfg, n: nat)
    requires n >= Abs(desired - current)
    ensures RampRun(current, desired, cfg, n) == desired
    decreases n
  {
    if n > 0 {
      var next := RampOf(current, desired, RampStep(current, desired, cfg));
      assert Abs(desired - next) < Abs(desired - current) || next == desired;
      RampRunConverges(next, desired, cfg, n - 1);
    }
  }

  /**
   * app_evaluate_state, with `bootDone` the elapsed test on the boot window:
   * the first condition that holds in the order fault, boot window, light
   * off, nobody present, nonzero offset picks the state; otherwise AUTO.
   */
  function EvaluateState(fatalFault: bool, bootDone: bool, lightEnabled: bool, present: bool, offset: int): (s: StatusLed.LedState)
    ensures s == StatusLed.FaultFatal <==> fatalFault
    ensures s == StatusLed.BootSetup <==> !fatalFault && !bootDone
    ensures s == StatusLed.LightOff <==> !fatalFault && bootDone && !lightEnabled
    ensures s == StatusLed.NoUser <==> !fatalFault && bootDone && lightEnabled && !present
    ensures s == StatusLed.OffsetPositive <==> !fatalFault && bootDone && lightEnabled && present && offset != 0
    ensures s == StatusLed.Auto <==> !fatalFault && bootDone && lightEnabled && present && offset == 0
  {
    if fatalFault then StatusLed.FaultFatal
    else if !bootDone then StatusLed.BootSetup
    else if !lightEnabled then StatusLed.LightOff
    else if !present then StatusLed.NoUser
    else if offset != 0 then StatusLed.OffsetPositive
    else StatusLed.Auto
  }

  /**
   * app_control_tick_due: when the control interval has elapsed, advance the
   * tick time by exactly one interval (not to `nowMs`, so the cadence does
   * not drift) and report it; otherwise change nothing.
   */
  method ControlTickDue(timing: Timing, nowMs: u32, tcfg: TimingCfg, elapsed: ElapsedFn) returns (due: bool)
    modifies timing`lastControlTickMs
    ensures due == elapsed(nowMs, old(timing.lastControlTickMs), tcfg.controlTickMs)
    ensures due ==> timing.lastControlTickMs == Add32(old(timing.lastControlTickMs), tcfg.controlTickMs)
    ensures !due ==> timing.lastControlTickMs == old(timing.lastControlTickMs)
  {
    if !elapsed(nowMs, timing.lastControlTickMs, tcfg.controlTickMs) {
      return false;
    }
    timing.lastControlTickMs := Add32(timing.lastControlTickMs, tcfg.controlTickMs);
    due := true;
  }

  /** apply_output_hysteresis: the first call adopts the target; later calls keep the band. */
  method ApplyHysteresis(control: Control, target: u8, band: u8) returns (r: u8)
    modifies control`lastAppliedOutputPercent, control`outputHysteresisInitialized
    ensures control.outputHysteresisInitialized && control.lastAppliedOutputPercent == r
    ensures !old(control.outputHysteresisInitialized) ==> r == target
    ensures old(control.outputHysteresisInitialized) ==>
      r == HysteresisOf(old(control.lastAppliedOutputPercent), target, band)
  {
    if !control.outputHysteresisInitialized {
      control.lastAppliedOutputPercent := target;
      control.outputHysteresisInitialized := true;
      return target;
    }
    var diff: u8;
    if target > control.lastAppliedOutputPercent {
      diff := target - control.lastAppliedOutputPercent;
    } else {
      diff := control.lastAppliedOutputPercent - target;
    }
    if target == 0 || diff >= band {
      control.lastAppliedOutputPercent := target;
    }
    r := control.lastAppliedOutputPercent;
  }

  /** apply_output_ramp: the first call jumps to the request; later calls move one step towards it. */
  method ApplyRamp(control: Control, desired: u8, cfg: PolicyCfg) returns (r: u8)
    modifies control`rampedOutputPercent, control`rampInitialized
    ensures control.rampInitialized && control.rampedOutputPercent == r
    ensures !old(control.rampInitialized) ==> r == desired
    ensures old(control.rampInitialized) ==>
      r == RampOf(old(control.rampedOutputPercent), desired, RampStep(old(control.rampedOutputPercent), desired, cfg))
  {
    if !control.rampInitialized {
      control.rampedOutputPercent := desired;
      control.rampInitialized := true;
      return desired;
    }
    var current := control.rampedOutputPercent;
    var step := cfg.rampStepPercent;
    if current == 0 && desired > 0 {
      step := cfg.rampStepOnPercent;
    } else if desired == 0 && current > 0 {
      step := cfg.rampStepOffPercent;
    }
    if step == 0 {
      step := 1;
    }
    if desired > current {
      var delta := desired - current;
      if delta > step {
        current := current + step;
      } else {
        current := desired;
      }
    } else if desired < current {
      var delta := current - desired;
      if delta > step {
        current := current - step;
      } else {
        current := desired;
      }
    }
    control.rampedOutputPercent := current;
    r := current;
  }

  /**
   * app_update_output_control: recompute the chain light level -> automatic
   * brightness -> target -> hysteresis -> ramp, publish the ramped value as
   * the output and hand it to the main LED driver. Every percentage stays at
   * most 100.
   */
  method UpdateOutputControl(control: Control, sensors: Sensors, led: MainLed.Driver, cfg: PolicyCfg)
    requires control.Valid() && led.Valid()
    modifies control`autoPercent, control`targetOutputPercent, control`hysteresisOutputPercent
    modifies control`rampedOutputPercent, control`outputPercent
    modifies control`lastAppliedOutputPercent, control`outputHysteresisInitialized, control`rampInitialized
    modifies led
    ensures control.Valid() && led.Valid()
    ensures control.autoPercent == AutoPercent(sensors.lastLdrFiltered)
    ensures control.targetOutputPercent ==
      TargetPercent(control.autoPercent, control.manualOffset, control.lightEnabled, sensors.presence.present)
    ensures control.hysteresisOutputPercent ==
      if old(control.outputHysteresisInitialized)
      then HysteresisOf(old(control.lastAppliedOutputPercent), control.targetOutputPercent, cfg.hysteresisBandPercent)
      else control.targetOutputPercent
    ensures control.rampedOutputPercent ==
      if old(control.rampInitialized)
      then RampOf(old(control.rampedOutputPercent), control.hysteresisOutputPercent,
                  RampStep(old(control.rampedOutputPercent), control.hysteresisOutputPercent, cfg))
      else control.hysteresisOutputPercent
    ensures control.outputPercent == control.rampedOutputPercent
    ensures old(led.started) ==> led.percent == control.outputPercent
  {
    var autoPercent := AutoPercent(sensors.lastLdrFiltered);
    var target := TargetPercent(autoPercent, control.manualOffset, control.lightEnabled, sensors.presence.present);
    var held := ApplyHysteresis(control, target, cfg.hysteresisBandPercent);
    var ramped := ApplyRamp(control, held, cfg);
    control.autoPercent, control.targetOutputPercent := autoPercent, target;
    control.hysteresisOutputPercent, control.rampedOutputPercent := held, ramped;
    control.outputPercent := ramped;
    var _ := led.SetPercent(ramped);
  }

  /** app_update_rgb: classify, show the state on the indicator and advance its fault blink. */
  method UpdateRgb(control: Control, sensors: Sensors, timing: Timing, led: StatusLed.Indicator,
                   nowMs: u32, cfg: PolicyCfg, elapsed: ElapsedFn)
    requires led.Valid()
    modifies control`rgbState, led
    ensures led.Valid()
    ensures control.rgbState == EvaluateState(control.fatalFault, elapsed(nowMs, timing.bootStartMs, cfg.bootSetupMs),
                                              control.lightEnabled, sensors.presence.present, control.manualOffset)
    ensures led.state == control.rgbState
  {
    control.rgbState := EvaluateState(control.fatalFault, elapsed(nowMs, timing.bootStartMs, cfg.bootSetupMs),
                                      control.lightEnabled, sensors.presence.present, control.manualOffset);
    led.SetState(control.rgbState, nowMs);
    led.Tick(nowMs);
  }
}
