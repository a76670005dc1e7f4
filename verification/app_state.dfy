/**
 * The application context of app/app_internal.h: the two configuration
 * tables and one class per sub-structure of the global `s_app` that the
 * application modules update in place.
 *
 * The values of `s_timing_cfg` and `s_policy_cfg` are not part of this
 * model, so they enter as `TimingCfg` and `PolicyCfg` values; neither is
 * `input_has_elapsed_ms`, which enters as a function parameter of type
 * `ElapsedFn`. The settings draft, the settings-menu state, the redraw rate
 * limit, the long-press threshold and the fast-on flag are used by the
 * application but not declared in its header; they are modelled with the
 * fields the code reads and writes.
 *
 * The constructors give the zero state of the statically allocated context;
 * app_init, which fills it in, is not part of this model.
 */
module AppState {
  import opened Wrap
  import opened Filters
  import opened Settings
  import StatusLed

  /** input_has_elapsed_ms(now, since, interval) */
  type ElapsedFn = (u32, u32, u32) -> bool

  /** app_timing_cfg_t, with the minimum redraw interval of the display. */
  datatype TimingCfg = TimingCfg(
    controlTickMs: u32,
    ldrSampleMs: u32,
    usSampleMs: u32,
    logMs: u32,
    uiMinRedrawMs: u32)

  /** The fields of app_policy_cfg_t that the modelled code reads, with the encoder long-press threshold. */
  datatype PolicyCfg = PolicyCfg(
    bootSetupMs: u32,
    offsetStep: i32,
    offsetMin: i32,
    offsetMax: i32,
    distanceErrorCm: u32,
    hysteresisBandPercent: u8,
    rampStepPercent: u8,
    rampStepOnPercent: u8,
    rampStepOffPercent: u8,
    refFallbackCm: u32,
    bodyMarginCm: u32,
    returnBandCm: u32,
    returnConfirmMs: u32,
    awayTimeoutMs: u32,
    flatBandCm: u32,
    motionDeltaCm: u32,
    staleTimeoutMs: u32,
    uiOverlayTimeoutMs: u32,
    uiRefreshMs: u32,
    encoderLongPressMs: u32)

  /**
   * The no-user reason codes. The display code reads 1 as AWAY and 2 as
   * FLAT; NONE only has to differ from both.
   */
  const ReasonNone: u8 := 0
  const ReasonAway: u8 := 1
  const ReasonFlat: u8 := 2

  /** app_timing_state_t, with the time of the last display redraw. */
  class Timing {
    var bootStartMs: u32
    var lastControlTickMs: u32
    var lastLdrSampleMs: u32
    var lastUsSampleMs: u32
    var lastLogMs: u32
    var lastUiRefreshMs: u32
    var lastUiDrawMs: u32

    constructor ()
    {
      bootStartMs, lastControlTickMs, lastLdrSampleMs, lastUsSampleMs := 0, 0, 0, 0;
      lastLogMs, lastUiRefreshMs, lastUiDrawMs := 0, 0, 0;
    }
  }

  /**
   * The presence-engine fields of app_sensor_state_t, grouped as one value:
   * last_valid_presence, the reference distance with its valid, pending-
   * capture and fallback flags, the previous valid distance, the four streak
   * counters, the no-user reason and the no-user candidate flag.
   */
  datatype Presence = Presence(
    present: bool,
    refCm: u32,
    refValid: bool,
    refPending: bool,
    usingFallback: bool,
    prevCm: u32,
    prevReady: bool,
    awayMs: u32,
    flatMs: u32,
    motionMs: u32,
    nearRefMs: u32,
    reason: u8,
    candidate: bool)

  /** The presence state of a zeroed context. */
  const ZeroPresence := Presence(false, 0, false, false, false, 0, false, 0, 0, 0, 0, ReasonNone, false)

  /** app_sensor_state_t; the driver status enumerations are reduced to "OK or not". */
  class Sensors {
    var lastLdrRaw: u16
    var lastLdrFiltered: u16
    var lastLdrOk: bool
    var lastDistanceRawCm: u32
    var lastDistanceFilteredCm: u32
    var lastValidDistanceCm: u32
    var lastUsOk: bool
    var presence: Presence
    const ldrMa: MovingAverage
    const distMedian3: Median3

    ghost predicate Valid()
      reads ldrMa, ldrMa.buffer, distMedian3, distMedian3.samples
    {
      ldrMa.Valid() && distMedian3.Valid()
    }

    constructor (ldrWindow: u8)
      ensures Valid() && fresh(ldrMa) && fresh(ldrMa.buffer) && fresh(distMedian3) && fresh(distMedian3.samples)
    {
      lastLdrRaw, lastLdrFiltered, lastLdrOk := 0, 0, false;
      lastDistanceRawCm, lastDistanceFilteredCm, lastValidDistanceCm, lastUsOk := 0, 0, 0, false;
      presence := ZeroPresence;
      ldrMa := new MovingAverage(ldrWindow);
      distMedian3 := new Median3();
    }
  }

  /** app_control_state_t, with the fast-on ramp flag. */
  class Control {
    var lightEnabled: bool
    var manualOffset: i32
    var autoPercent: u8
    var targetOutputPercent: u8
    var hysteresisOutputPercent: u8
    var rampedOutputPercent: u8
    var outputPercent: u8
    var lastAppliedOutputPercent: u8
    var outputHysteresisInitialized: bool
    var rampInitialized: bool
    var rgbState: StatusLed.LedState
    var fatalFault: bool
    var preoffActive: bool
    var preoffStartMs: u32
    var preoffDimTargetPercent: u8
    var rampFastOnActive: bool

    /** Every percentage the output chain holds is at most 100. */
    ghost predicate Valid()
      reads this
    {
      && autoPercent <= 100 && targetOutputPercent <= 100 && hysteresisOutputPercent <= 100
      && rampedOutputPercent <= 100 && outputPercent <= 100 && lastAppliedOutputPercent <= 100
    }

    constructor ()
      ensures Valid()
    {
      lightEnabled, manualOffset := false, 0;
      autoPercent, targetOutputPercent, hysteresisOutputPercent := 0, 0, 0;
      rampedOutputPercent, outputPercent, lastAppliedOutputPercent := 0, 0, 0;
      outputHysteresisInitialized, rampInitialized := false, false;
      rgbState, fatalFault := StatusLed.BootSetup, false;
      preoffActive, preoffStartMs, preoffDimTargetPercent := false, 0, 0;
      rampFastOnActive := false;
    }
  }

  /** The press and release times of app_click_state_t. */
  class Click {
    var lastPressMs: u32
    var lastReleaseMs: u32

    constructor ()
    {
      lastPressMs, lastReleaseMs := 0, 0;
    }
  }

  /** app_ui_state_t */
  class Ui {
    var pageIndex: u8
    var pageCount: u8
    var overlayActive: bool
    var overlayUntilMs: u32
    var overlayOffset: i32
    var renderDirty: bool

    constructor ()
    {
      pageIndex, pageCount := 0, 0;
      overlayActive, overlayUntilMs, overlayOffset, renderDirty := false, 0, 0, false;
    }
  }

  /** The active settings, the draft being edited and whether they differ. */
  class SettingsCtx {
    var draft: Settings
    var active: Settings
    var dirty: bool

    constructor ()
    {
      draft, active, dirty := Settings(0, 0, 0, 0, 0, 0), Settings(0, 0, 0, 0, 0, 0), false;
    }
  }

  /** The status line of the settings page (display_settings_status_t). */
  datatype Toast = ToastNone | ToastSaved | ToastSaveErr | ToastReset

  /** The settings-menu and button state. */
  class SettingsUi {
    var modeActive: bool
    var editingValue: bool
    var selectedRow: u8
    var buttonPressed: bool
    var longPressFired: bool
    var buttonPressStartMs: u32
    var toast: Toast
    var toastUntilMs: u32

    constructor ()
    {
      modeActive, editingValue, selectedRow := false, false, 0;
      buttonPressed, longPressFired, buttonPressStartMs := false, false, 0;
      toast, toastUntilMs := ToastNone, 0;
    }
  }
}
