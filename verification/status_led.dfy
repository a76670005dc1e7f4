/**
 * The RGB status indicator (bsp/status_led.c): each system state has a
 * colour, and a latched fatal fault overrides it with a red blink driven by
 * the tick.
 *
 * The three GPIO outputs are a ghost triple of logical levels (the active-low
 * build option only inverts what reaches the pin); HAL_GetTick becomes a
 * `nowMs` parameter of the operations that read it.
 */
module StatusLed {
  import opened Wrap

  /** DISTANCE_THRESHOLD_NEAR_CM, DISTANCE_THRESHOLD_MID_CM */
  const NearCm: int := 10
  const MidCm: int := 20
  /** STATUS_LED_FAULT_BLINK_DEFAULT_MS */
  const DefaultBlinkMs: int := 250

  /**
   * status_led_state_t of the board support header, plus `Unrecognised` for
   * a value outside the enumeration, which the colour switch sends to its
   * default branch.
   */
  datatype LedState = BootSetup | LightOff | Auto | OffsetPositive | NoUser | FaultFatal | Unrecognised

  /** The logical levels of the red, green and blue channels. */
  datatype Rgb = Rgb(r: bool, g: bool, b: bool)

  const Purple := Rgb(true, false, true)
  const Red := Rgb(true, false, false)
  const Blue := Rgb(false, false, true)
  const Green := Rgb(false, true, false)
  const Yellow := Rgb(true, true, false)

  /** apply_state_color as a map: the colour a state paints, or None for FAULT, which leaves the pins alone. */
  function StateColor(s: LedState): Option<Rgb>
  {
    match s
    case BootSetup => Some(Purple)
    case LightOff => Some(Red)
    case Auto => Some(Blue)
    case OffsetPositive => Some(Green)
    case NoUser => Some(Yellow)
    case FaultFatal => None
    case Unrecognised => Some(Blue)
  }

  /** Every state but FAULT has a colour, and the five named states are told apart by it. */
  lemma ColorsDistinguishStates(s1: LedState, s2: LedState)
    requires s1 != Unrecognised && s2 != Unrecognised
    ensures StateColor(s1).None? <==> s1 == FaultFatal
    ensures StateColor(s1) == StateColor(s2) ==> s1 == s2
  {
  }

  /** status_led_set_for_distance: under 10 cm NO_USER, under 20 cm OFFSET_POSITIVE, else AUTO. */
  function DistanceState(distanceCm: u32): (s: LedState)
    ensures s == NoUser <==> distanceCm < NearCm
    ensures s == OffsetPositive <==> NearCm <= distanceCm < MidCm
    ensures s == Auto <==> distanceCm >= MidCm
  {
    if distanceCm < NearCm then NoUser
    else if distanceCm < MidCm then OffsetPositive
    else Auto
  }

  /** The module statics of bsp/status_led.c and the ghost pin levels. */
  class Indicator {
    var state: LedState
    var fatalFaultEnabled: bool
    var faultRedOn: bool
    var blinkPeriodMs: u32
    var lastFaultToggleMs: u32
    ghost var pins: Rgb

    /**
     * What the LED shows: with a latched fault, the blink phase in red alone;
     * otherwise the colour of the recorded state, which then is not FAULT.
     */
    ghost predicate Valid()
      reads this
    {
      && blinkPeriodMs > 0
      && (fatalFaultEnabled ==> pins == Rgb(faultRedOn, false, false))
      && (!fatalFaultEnabled ==> state != FaultFatal && StateColor(state) == Some(pins))
    }

    constructor (nowMs: u32)
      ensures Valid()
      ensures state == BootSetup && !fatalFaultEnabled && !faultRedOn
      ensures blinkPeriodMs == DefaultBlinkMs && lastFaultToggleMs == nowMs && pins == Purple
    {
      state := BootSetup;
      fatalFaultEnabled := false;
      faultRedOn := false;
      blinkPeriodMs := DefaultBlinkMs;
      lastFaultToggleMs := nowMs;
      pins := Purple;
    }

    /** apply_state_color: paint the state's colour; FAULT leaves the pins unchanged. */
    method ApplyStateColor(s: LedState)
      modifies this
      ensures StateColor(s).Some? ==> pins == StateColor(s).value
      ensures StateColor(s).None? ==> pins == old(pins)
      ensures state == old(state) && fatalFaultEnabled == old(fatalFaultEnabled) && faultRedOn == old(faultRedOn)
      ensures blinkPeriodMs == old(blinkPeriodMs) && lastFaultToggleMs == old(lastFaultToggleMs)
    {
      match s {
        case BootSetup => pins := Purple;
        case LightOff => pins := Red;
        case Auto => pins := Blue;
        case OffsetPositive => pins := Green;
        case NoUser => pins := Yellow;
        case FaultFatal =>
        case Unrecognised => pins := Blue;
      }
    }

    /** status_led_init */
    method Init(nowMs: u32)
      modifies this
      ensures Valid()
      ensures state == BootSetup && !fatalFaultEnabled && !faultRedOn
      ensures blinkPeriodMs == DefaultBlinkMs && lastFaultToggleMs == nowMs && pins == Purple
    {
      state := BootSetup;
      fatalFaultEnabled := false;
      faultRedOn := false;
      blinkPeriodMs := DefaultBlinkMs;
      lastFaultToggleMs := nowMs;
      ApplyStateColor(state);
    }

    /**
     * status_led_set_fatal_fault: enabling latches the fault with red on;
     * clearing it drops the latch and the red phase, turns a FAULT state
     * into AUTO and repaints the state's colour.
     */
    method SetFatalFault(enabled: bool, nowMs: u32)
      requires blinkPeriodMs > 0
      modifies this
      ensures Valid() && blinkPeriodMs == old(blinkPeriodMs)
      ensures enabled ==>
        && fatalFaultEnabled && faultRedOn && lastFaultToggleMs == nowMs
        && pins == Red && state == old(state)
      ensures !enabled ==>
        && !fatalFaultEnabled && !faultRedOn && lastFaultToggleMs == old(lastFaultToggleMs)
        && state == (if old(state) == FaultFatal then Auto else old(state))
        && Some(pins) == StateColor(state)
    {
      if enabled {
        fatalFaultEnabled := true;
        faultRedOn := true;
        lastFaultToggleMs := nowMs;
        pins := Red;
        return;
      }
      fatalFaultEnabled := false;
      faultRedOn := false;
      if state == FaultFatal {
        state := Auto;
      }
      ApplyStateColor(state);
    }

    /**
     * status_led_set_state: always records the state; FAULT latches the fatal
     * fault, any other state repaints only while no fault is latched.
     */
    method SetState(s: LedState, nowMs: u32)
      requires Valid()
      modifies this
      ensures Valid() && state == s && blinkPeriodMs == old(blinkPeriodMs)
      ensures s == FaultFatal ==> fatalFaultEnabled && faultRedOn && lastFaultToggleMs == nowMs && pins == Red
      ensures s != FaultFatal && !old(fatalFaultEnabled) ==> Some(pins) == StateColor(s) && !fatalFaultEnabled
      ensures s != FaultFatal && old(fatalFaultEnabled) ==>
        fatalFaultEnabled && pins == old(pins) && faultRedOn == old(faultRedOn)
    {
      state := s;
      if s == FaultFatal {
        SetFatalFault(true, nowMs);
        return;
      }
      if !fatalFaultEnabled {
        ApplyStateColor(s);
      }
    }

    /**
     * status_led_tick: nothing unless a fault is latched or the state is
     * FAULT; then, once per blink period, toggle red with green and blue off.
     */
    method Tick(nowMs: u32)
      requires Valid()
      modifies this
      ensures Valid()
      ensures !old(fatalFaultEnabled) || Sub32(nowMs, old(lastFaultToggleMs)) < old(blinkPeriodMs) ==>
        unchanged(this)
      ensures old(fatalFaultEnabled) && Sub32(nowMs, old(lastFaultToggleMs)) >= old(blinkPeriodMs) ==>
        && faultRedOn == !old(faultRedOn) && lastFaultToggleMs == nowMs
        && pins == Rgb(faultRedOn, false, false) && state == old(state) && fatalFaultEnabled
        && blinkPeriodMs == old(blinkPeriodMs)
    {
      if !fatalFaultEnabled && state != FaultFatal {
        return;
      }
      if Sub32(nowMs, lastFaultToggleMs) < blinkPeriodMs {
        return;
      }
      lastFaultToggleMs := nowMs;
      faultRedOn := !faultRedOn;
      pins := Rgb(faultRedOn, false, false);
    }

    /** status_led_set_for_distance */
    method SetForDistance(distanceCm: u32, nowMs: u32)
      requires Valid()
      modifies this
      ensures Valid() && state == DistanceState(distanceCm)
      ensures !old(fatalFaultEnabled) ==> Some(pins) == StateColor(state)
      ensures old(fatalFaultEnabled) ==> pins == old(pins)
    {
      SetState(DistanceState(distanceCm), nowMs);
    }

    /**
     * status_led_blink_error: a nonzero period replaces the blink period, 0
     * keeps it; the fault is latched and the blink is ticked once. The two
     * HAL_GetTick reads are `faultMs` and `tickMs`.
     */
    method BlinkError(periodMs: u32, faultMs: u32, tickMs: u32)
      requires Valid()
      modifies this
      ensures Valid() && fatalFaultEnabled && state == old(state)
      ensures blinkPeriodMs == if periodMs != 0 then periodMs else old(blinkPeriodMs)
      ensures Sub32(tickMs, faultMs) < blinkPeriodMs ==> faultRedOn && pins == Red && lastFaultToggleMs == faultMs
      ensures Sub32(tickMs, faultMs) >= blinkPeriodMs ==> !faultRedOn && pins == Rgb(false, false, false) && lastFaultToggleMs == tickMs
    {
      if periodMs != 0 {
        blinkPeriodMs := periodMs;
      }
      SetFatalFault(true, faultMs);
      Tick(tickMs);
    }
  }
}
