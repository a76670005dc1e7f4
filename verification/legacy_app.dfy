/**
 * The single-file application of the second firmware revision (app/app.c):
 * a 50 ms control loop that turns the light-sensor reading into an automatic
 * brightness, adds the user's offset, and switches the output off when the
 * light is disabled or the ultrasonic sensor (sampled every 100 ms) sees
 * nobody within 80 cm. The encoder turns the offset in steps of 5 within
 * [-50, 50]; a single click of its push switch toggles the light once the
 * 350 ms double-click window has passed, and a double click resets the
 * offset instead.
 *
 * The percentage clamp, the automatic brightness, the output target and the
 * status classifier of this revision are the same code as in
 * app/app_control.c, and the offset clamp is the one of app/app_events.c
 * with the bounds -50 and 50; the model uses those definitions. HAL_GetTick,
 * the pin levels and the sensor drivers become parameters; the display, the
 * status-LED and main-LED driver calls and the log lines are not modelled.
 */
module LegacyApp {
  import opened Wrap
  import opened EventQueue
  import opened Debounce
  import opened EncoderInput
  import StatusLed
  import SwitchInput
  import AppControl
  import AppEvents
  import ProtoApp

  /** APP_CONTROL_TICK_MS */
  const ControlTickMs: int := 50
  /** APP_US_SAMPLE_MS */
  const UsSampleMs: int := 100
  /** APP_BOOT_SETUP_MS */
  const BootSetupMs: int := 1000
  /** APP_DOUBLE_CLICK_MS: how long after a release a second release counts as a double click. */
  const DoubleClickMs: int := 350
  /** APP_OFFSET_STEP, APP_OFFSET_MIN, APP_OFFSET_MAX */
  const OffsetStep: int := 5
  const OffsetMin: i32 := -50
  const OffsetMax: i32 := 50

  /**
   * The fields of the context that the encoder and the click timeout change:
   * light_enabled, manual_offset, click_pending, click_deadline_ms,
   * last_press_ms and last_release_ms.
   */
  datatype Clicks = Clicks(
    lightEnabled: bool,
    offset: i32,
    pending: bool,
    deadlineMs: u32,
    lastPressMs: u32,
    lastReleaseMs: u32)

  predicate OffsetInRange(c: Clicks)
  {
    OffsetMin <= c.offset <= OffsetMax
  }

  /**
   * app_handle_encoder_event for one event. A rotation moves the offset by
   * one step, clamped to [-50, 50], and only while the light is on. A press
   * records its time. A release records its time; if a click is pending and
   * its deadline has not passed (signed wrap-around compare), it is a double
   * click: the offset returns to 0 and the pending click is dropped, so the
   * light does not toggle. Otherwise the release arms a click due 350 ms
   * later. No encoder event toggles the light itself.
   */
  function OnEncoderEvent(c: Clicks, e: Event): (r: Clicks)
    ensures r.lightEnabled == c.lightEnabled
    ensures OffsetInRange(c) ==> OffsetInRange(r)
    ensures (e.kind == Cw || e.kind == Ccw) && !c.lightEnabled ==> r == c
    ensures e.kind == Cw && c.lightEnabled && OffsetInRange(c) ==>
      r == c.(offset := if c.offset + OffsetStep > OffsetMax then OffsetMax else c.offset + OffsetStep)
    ensures e.kind == Ccw && c.lightEnabled && OffsetInRange(c) ==>
      r == c.(offset := if c.offset - OffsetStep < OffsetMin then OffsetMin else c.offset - OffsetStep)
    ensures e.kind == SwPressed ==> r == c.(lastPressMs := e.timestampMs)
    ensures e.kind == SwReleased ==> r.lastReleaseMs == e.timestampMs && r.lastPressMs == c.lastPressMs
    ensures e.kind == SwReleased && c.pending && SignedNonPositive(Sub32(e.timestampMs, c.deadlineMs)) ==>
      r.offset == 0 && !r.pending && r.deadlineMs == c.deadlineMs
    ensures e.kind == SwReleased && !(c.pending && SignedNonPositive(Sub32(e.timestampMs, c.deadlineMs))) ==>
      r.offset == c.offset && r.pending && Sub32(r.deadlineMs, e.timestampMs) == DoubleClickMs
  {
    match e.kind
    case Cw =>
      if c.lightEnabled then c.(offset := Clamp(c.offset + OffsetStep, OffsetMin, OffsetMax)) else c
    case Ccw =>
      if c.lightEnabled then c.(offset := Clamp(c.offset - OffsetStep, OffsetMin, OffsetMax)) else c
    case SwPressed =>
      c.(lastPressMs := e.timestampMs)
    case SwReleased =>
      if c.pending && SignedNonPositive(Sub32(e.timestampMs, c.deadlineMs)) then
        c.(lastReleaseMs := e.timestampMs, offset := 0, pending := false)
      else
        c.(lastReleaseMs := e.timestampMs, pending := true, deadlineMs := Add32(e.timestampMs, DoubleClickMs))
  }

  /** The encoder events of one loop pass, handled oldest first. */
  function HandleAll(c: Clicks, es: seq<Event>): Clicks
  {
    if |es| == 0 then c else OnEncoderEvent(HandleAll(c, es[..|es| - 1]), es[|es| - 1])
  }

  /**
   * Whatever the encoder does, the light flag stays as it was and an offset
   * within [-50, 50] stays there.
   */
  lemma {:induction false} HandleAllKeepsLightAndRange(c: Clicks, es: seq<Event>)
    ensures HandleAll(c, es).lightEnabled == c.lightEnabled
    ensures OffsetInRange(c) ==> OffsetInRange(HandleAll(c, es))
  {
    if |es| > 0 {
      HandleAllKeepsLightAndRange(c, es[..|es| - 1]);
    }
  }

  /**
   * app_handle_click_timeout: a pending click whose deadline has been
   * reached (the signed difference `now - deadline` is not negative) is
   * dropped and toggles the light; otherwise nothing changes.
   */
  function OnTimeout(c: Clicks, nowMs: u32): (r: Clicks)
    ensures r.lightEnabled != c.lightEnabled <==> c.pending && SignedNonNegative(Sub32(nowMs, c.deadlineMs))
    ensures r.pending <==> c.pending && !SignedNonNegative(Sub32(nowMs, c.deadlineMs))
    ensures r.offset == c.offset && r.deadlineMs == c.deadlineMs
    ensures r.lastPressMs == c.lastPressMs && r.lastReleaseMs == c.lastReleaseMs
  {
    if !c.pending || !SignedNonNegative(Sub32(nowMs, c.deadlineMs)) then c
    else c.(pending := false, lightEnabled := !c.lightEnabled)
  }

  /** `a + b` and `a - b` on uint32_t: without or with one wrap. */
  lemma WrapCases(a: u32, b: u32)
    ensures Add32(a, b) == if a + b < U32_LIMIT then a + b else a + b - U32_LIMIT
    ensures Sub32(a, b) == if a >= b then a - b else a - b + U32_LIMIT
  {
  }

  /** Two times reached from the same base differ by the difference of their offsets. */
  lemma SubOfAdds(t: u32, a: u32, b: u32)
    ensures Sub32(Add32(t, a), Add32(t, b)) == Sub32(a, b)
  {
    WrapCases(t, a);
    WrapCases(t, b);
    WrapCases(Add32(t, a), Add32(t, b));
    WrapCases(a, b);
  }

  /**
   * A single click: with no click pending, a release at `t0` arms a click,
   * and the first timeout check at least 350 ms (and less than 2^31 ms)
   * later toggles the light and clears the pending click, leaving the
   * offset alone. Every later check finds nothing to do, so the light
   * toggles exactly once.
   */
  lemma SingleClickTogglesOnce(c: Clicks, release: Event, elapsedMs: u32, laterMs: u32)
    requires !c.pending && release.kind == SwReleased
    requires DoubleClickMs <= elapsedMs < DoubleClickMs + 0x8000_0000
    ensures var fired := OnTimeout(OnEncoderEvent(c, release), Add32(release.timestampMs, elapsedMs));
      && fired.lightEnabled == !c.lightEnabled && !fired.pending && fired.offset == c.offset
      && OnTimeout(fired, laterMs) == fired
  {
    var armed := OnEncoderEvent(c, release);
    assert armed.deadlineMs == Add32(release.timestampMs, DoubleClickMs);
    SubOfAdds(release.timestampMs, elapsedMs, DoubleClickMs);
  }

  /**
   * A double click: with no click pending, a release at `t0`, a timeout
   * check less than 350 ms later (which does nothing) and a second release
   * at most 350 ms after `t0` leave the offset at 0, no click pending and
   * the light as it was.
   */
  lemma DoubleClickResetsOffset(c: Clicks, first: Event, checkMs: u32, second: Event)
    requires !c.pending && first.kind == SwReleased && second.kind == SwReleased
    requires checkMs < DoubleClickMs && Sub32(second.timestampMs, first.timestampMs) <= DoubleClickMs
    ensures var armed := OnEncoderEvent(c, first);
      && OnTimeout(armed, Add32(first.timestampMs, checkMs)) == armed
      && var r := OnEncoderEvent(armed, second);
      && r.offset == 0 && !r.pending && r.lightEnabled == c.lightEnabled
  {
    var t0 := first.timestampMs;
    var armed := OnEncoderEvent(c, first);
    assert armed.pending && armed.deadlineMs == Add32(t0, DoubleClickMs);
    SubOfAdds(t0, checkMs, DoubleClickMs);
    WrapCases(checkMs, DoubleClickMs);
    assert !SignedNonNegative(Sub32(Add32(t0, checkMs), armed.deadlineMs));
    var d := Sub32(second.timestampMs, t0);
    WrapCases(second.timestampMs, t0);
    WrapCases(t0, d);
    assert second.timestampMs == Add32(t0, d);
    SubOfAdds(t0, d, DoubleClickMs);
    WrapCases(d, DoubleClickMs);
    assert SignedNonPositive(Sub32(second.timestampMs, armed.deadlineMs));
  }

  /**
   * The result of ldr_read_raw: whether its status is OK, and the value it
   * wrote through its pointer, if it got as far as reading the converter.
   */
  datatype LdrRead = LdrRead(statusOk: bool, raw: Option<u16>)

  /** The encoder queue after encoder_input_tick, as that operation specifies it. */
  ghost function TickedQueue(encoder: Encoder, nowMs: u32, swLevel: Level): seq<Event>
    reads encoder, encoder.sw, encoder.queue
  {
    if SampleDue(nowMs, encoder.lastSwSampleMs) then
      AfterSample(encoder.queue.contents, encoder.sw.stable, Step(encoder.sw.Current(), swLevel).stable, nowMs)
    else encoder.queue.contents
  }

  /** The context `s_app` of app/app.c, without the log and display timers. */
  class Context {
    var bootStartMs: u32
    var lastControlTickMs: u32
    var lastUsSampleMs: u32
    var lastLdrRaw: u16
    var lastLdrOk: bool
    var lastValidDistanceCm: u32
    var lastUsOk: bool
    var present: bool
    var clicks: Clicks
    var autoPercent: u8
    var outputPercent: u8
    var fatalFault: bool
    var displayReady: bool
    var rgbState: StatusLed.LedState

    /** The offset stays within its bounds and both percentages within [0, 100]. */
    predicate Valid()
      reads this
    {
      OffsetInRange(clicks) && autoPercent <= 100 && outputPercent <= 100
    }

    /**
     * The state app_init sets up at time `nowMs`, with `displayOk` the result
     * of display_init: light off, offset 0, the user assumed present, no
     * valid distance yet, and the indicator in the boot state.
     */
    constructor (nowMs: u32, displayOk: bool)
      ensures Valid()
      ensures bootStartMs == nowMs && lastControlTickMs == nowMs && lastUsSampleMs == nowMs
      ensures lastLdrRaw == 0 && !lastLdrOk && !lastUsOk
      ensures lastValidDistanceCm == ProtoApp.DistanceErrorCm && present
      ensures clicks == Clicks(false, 0, false, nowMs, nowMs, nowMs)
      ensures autoPercent == 0 && outputPercent == 0 && !fatalFault && displayReady == displayOk
      ensures rgbState == StatusLed.BootSetup
    {
      bootStartMs, lastControlTickMs, lastUsSampleMs := nowMs, nowMs, nowMs;
      lastLdrRaw, lastLdrOk, lastUsOk := 0, false, false;
      lastValidDistanceCm, present := ProtoApp.DistanceErrorCm, true;
      clicks := Clicks(false, 0, false, nowMs, nowMs, nowMs);
      autoPercent, outputPercent, fatalFault, displayReady := 0, 0, false, displayOk;
      rgbState := AppControl.EvaluateState(false, Sub32(nowMs, nowMs) >= BootSetupMs, false, true, 0);
    }

    /** app_set_fatal_fault: any nonzero argument latches the fault, zero clears it. */
    method SetFatalFault(enabled: bool)
      modifies this`fatalFault
      ensures fatalFault == enabled
    {
      fatalFault := enabled;
    }

    /** app_handle_click_timeout on the context. */
    method HandleClickTimeout(nowMs: u32)
      modifies this`clicks
      ensures clicks == OnTimeout(old(clicks), nowMs)
    {
      if !clicks.pending || !SignedNonNegative(Sub32(nowMs, clicks.deadlineMs)) {
        return;
      }
      clicks := clicks.(pending := false);
      clicks := clicks.(lightEnabled := !clicks.lightEnabled);
    }

    /** app_handle_encoder_event on the context; a NULL event (None) changes nothing. */
    method HandleEncoderEvent(event: Option<Event>)
      modifies this`clicks
      ensures event.None? ==> clicks == old(clicks)
      ensures event.Some? ==> clicks == OnEncoderEvent(old(clicks), event.value)
    {
      if event.None? {
        return;
      }
      var e := event.value;
      match e.kind {
        case Cw =>
          if clicks.lightEnabled {
            clicks := clicks.(offset := Clamp(clicks.offset + OffsetStep, OffsetMin, OffsetMax));
          }
        case Ccw =>
          if clicks.lightEnabled {
            clicks := clicks.(offset := Clamp(clicks.offset - OffsetStep, OffsetMin, OffsetMax));
          }
        case SwPressed =>
          clicks := clicks.(lastPressMs := e.timestampMs);
        case SwReleased =>
          clicks := clicks.(lastReleaseMs := e.timestampMs);
          if clicks.pending && SignedNonPositive(Sub32(e.timestampMs, clicks.deadlineMs)) {
            clicks := clicks.(offset := 0);
            clicks := clicks.(pending := false);
          } else {
            clicks := clicks.(pending := true);
            clicks := clicks.(deadlineMs := Add32(e.timestampMs, DoubleClickMs));
          }
      }
    }

    /** The encoder loop of app_step: every queued event is handled, oldest first, and the queue ends empty. */
    method DrainEncoderEvents(encoder: Encoder)
      requires encoder.Valid()
      modifies encoder.queue, this`clicks
      ensures encoder.Valid() && encoder.queue.contents == []
      ensures clicks == HandleAll(old(clicks), old(encoder.queue.contents))
    {
      ghost var c0 := clicks;
      ghost var pending := encoder.queue.contents;
      ghost var done: seq<Event> := [];
      while true
        invariant encoder.Valid()
        invariant done + encoder.queue.contents == pending
        invariant clicks == HandleAll(c0, done)
        decreases |encoder.queue.contents|
      {
        label Pop:
        var ev := encoder.PopEvent(true);
        if ev.None? {
          break;
        }
        HandleEncoderEvent(ev);
        assert (done + [ev.value])[..|done|] == done;
        AppEvents.ShiftFront(done, old@Pop(encoder.queue.contents));
        done := done + [ev.value];
      }
      assert done + [] == done;
    }

    /** The switch loop of app_step: the events are only logged, so the queue is emptied and nothing else changes. */
    method DrainSwitchEvents(switches: SwitchInput.Switches)
      requires switches.Valid()
      modifies switches.queue
      ensures switches.Valid() && switches.queue.contents == []
    {
      while true
        invariant switches.Valid()
        decreases |switches.queue.contents|
      {
        var ev := switches.PopEvent(true);
        if ev.None? {
          break;
        }
      }
    }

    /**
     * The ultrasonic part of the control tick: 100 ms after the last sample
     * the reading is taken and applied; before that nothing changes.
     */
    method SampleUltrasonic(nowMs: u32, reading: ProtoApp.Reading)
      modifies this`lastUsSampleMs, this`lastUsOk, this`lastValidDistanceCm, this`present
      ensures Sub32(nowMs, old(lastUsSampleMs)) >= UsSampleMs ==>
        && lastUsSampleMs == nowMs && lastUsOk == reading.statusOk
        && (lastValidDistanceCm, present)
           == ProtoApp.ApplyReading(old(lastValidDistanceCm), old(present), reading.distanceCm, reading.statusOk)
      ensures Sub32(nowMs, old(lastUsSampleMs)) < UsSampleMs ==>
        && lastUsSampleMs == old(lastUsSampleMs) && lastUsOk == old(lastUsOk)
        && lastValidDistanceCm == old(lastValidDistanceCm) && present == old(present)
    {
      if Sub32(nowMs, lastUsSampleMs) >= UsSampleMs {
        lastUsSampleMs := nowMs;
        lastUsOk := reading.statusOk;
        if reading.distanceCm != ProtoApp.DistanceErrorCm && reading.statusOk {
          lastValidDistanceCm := reading.distanceCm;
          present := reading.distanceCm < ProtoApp.PresenceCm;
        }
      }
    }

    /**
     * The output part of the control tick: the automatic brightness follows
     * the light reading, the output is the clamped sum of it and the offset,
     * or 0 when the light is off or nobody is present, and the indicator
     * state is classified again.
     */
    method UpdateOutputs(nowMs: u32)
      modifies this`autoPercent, this`outputPercent, this`rgbState
      ensures autoPercent == AppControl.AutoPercent(lastLdrRaw)
      ensures outputPercent == AppControl.TargetPercent(autoPercent, clicks.offset, clicks.lightEnabled, present)
      ensures rgbState == AppControl.EvaluateState(fatalFault, Sub32(nowMs, bootStartMs) >= BootSetupMs,
                                                   clicks.lightEnabled, present, clicks.offset)
    {
      autoPercent := AppControl.AutoPercent(lastLdrRaw);
      outputPercent := AppControl.ClampPercent(autoPercent + clicks.offset);
      if !clicks.lightEnabled || !present {
        outputPercent := 0;
      }
      rgbState := AppControl.EvaluateState(fatalFault, Sub32(nowMs, bootStartMs) >= BootSetupMs,
                                           clicks.lightEnabled, present, clicks.offset);
    }

    /**
     * The control part of app_step. Less than 50 ms after the last control
     * tick nothing changes. Otherwise the tick restarts at `nowMs`, the light
     * sensor is read, the ultrasonic sample is taken when due, and the
     * outputs are computed again.
     */
    method ControlStep(nowMs: u32, ldr: LdrRead, reading: ProtoApp.Reading)
      requires Valid()
      modifies this`lastControlTickMs, this`lastLdrOk, this`lastLdrRaw, this`lastUsSampleMs, this`lastUsOk
      modifies this`lastValidDistanceCm, this`present, this`autoPercent, this`outputPercent, this`rgbState
      ensures Valid()
      ensures Sub32(nowMs, old(lastControlTickMs)) < ControlTickMs ==> unchanged(this)
      ensures Sub32(nowMs, old(lastControlTickMs)) >= ControlTickMs ==>
        && lastControlTickMs == nowMs
        && lastLdrOk == ldr.statusOk
        && lastLdrRaw == (if ldr.raw.Some? then ldr.raw.value else old(lastLdrRaw))
        && autoPercent == AppControl.AutoPercent(lastLdrRaw)
        && outputPercent == AppControl.TargetPercent(autoPercent, clicks.offset, clicks.lightEnabled, present)
        && rgbState == AppControl.EvaluateState(fatalFault, Sub32(nowMs, bootStartMs) >= BootSetupMs,
                                                clicks.lightEnabled, present, clicks.offset)
      ensures Sub32(nowMs, old(lastControlTickMs)) >= ControlTickMs && Sub32(nowMs, old(lastUsSampleMs)) >= UsSampleMs ==>
        && lastUsSampleMs == nowMs && lastUsOk == reading.statusOk
        && (lastValidDistanceCm, present)
           == ProtoApp.ApplyReading(old(lastValidDistanceCm), old(present), reading.distanceCm, reading.statusOk)
      ensures Sub32(nowMs, old(lastUsSampleMs)) < UsSampleMs ==>
        && lastUsSampleMs == old(lastUsSampleMs) && lastUsOk == old(lastUsOk)
        && lastValidDistanceCm == old(lastValidDistanceCm) && present == old(present)
    {
      if Sub32(nowMs, lastControlTickMs) < ControlTickMs {
        return;
      }
      lastControlTickMs := nowMs;
      lastLdrOk := ldr.statusOk;
      if ldr.raw.Some? {
        lastLdrRaw := ldr.raw.value;
      }
      SampleUltrasonic(nowMs, reading);
      UpdateOutputs(nowMs);
    }

    /**
     * The input part of app_step: tick and drain both input queues, then
     * handle the click timeout. The light and offset end as the encoder
     * events queued after the tick and then the timeout leave them.
     */
    method ProcessInputs(switches: SwitchInput.Switches, encoder: Encoder, nowMs: u32,
                         buttonLevel: Level, sw2Level: Level, swLevel: Level)
      requires switches.Valid() && encoder.Valid()
      requires encoder.sw != switches.button && encoder.sw != switches.sw2
      modifies this`clicks, switches, switches.button, switches.sw2, switches.queue, switches.queue.buf
      modifies encoder, encoder.sw, encoder.queue, encoder.queue.buf
      ensures switches.Valid() && encoder.Valid()
      ensures switches.queue.contents == [] && encoder.queue.contents == []
      ensures clicks == OnTimeout(HandleAll(old(clicks), old(TickedQueue(encoder, nowMs, swLevel))), nowMs)
      ensures OffsetInRange(old(clicks)) ==> OffsetInRange(clicks)
    {
      switches.Tick(nowMs, buttonLevel, sw2Level);
      DrainSwitchEvents(switches);
      ghost var c0 := clicks;
      encoder.Tick(nowMs, swLevel);
      ghost var q := encoder.queue.contents;
      DrainEncoderEvents(encoder);
      HandleAllKeepsLightAndRange(c0, q);
      HandleClickTimeout(nowMs);
    }

    /**
     * app_step: the input part, then the control part. The light and offset
     * end as the encoder events queued after the tick and then the timeout
     * leave them; the output and the indicator are computed from those.
     */
    method Step(switches: SwitchInput.Switches, encoder: Encoder, nowMs: u32,
                buttonLevel: Level, sw2Level: Level, swLevel: Level, ldr: LdrRead, reading: ProtoApp.Reading)
      requires Valid() && switches.Valid() && encoder.Valid()
      requires encoder.sw != switches.button && encoder.sw != switches.sw2
      modifies this, switches, switches.button, switches.sw2, switches.queue, switches.queue.buf
      modifies encoder, encoder.sw, encoder.queue, encoder.queue.buf
      ensures Valid() && switches.Valid() && encoder.Valid()
      ensures switches.queue.contents == [] && encoder.queue.contents == []
      ensures clicks == OnTimeout(HandleAll(old(clicks), old(TickedQueue(encoder, nowMs, swLevel))), nowMs)
      ensures fatalFault == old(fatalFault) && bootStartMs == old(bootStartMs) && displayReady == old(displayReady)
      ensures Sub32(nowMs, old(lastControlTickMs)) >= ControlTickMs ==>
        && lastControlTickMs == nowMs
        && outputPercent == AppControl.TargetPercent(AppControl.AutoPercent(lastLdrRaw), clicks.offset, clicks.lightEnabled, present)
        && rgbState == AppControl.EvaluateState(fatalFault, Sub32(nowMs, bootStartMs) >= BootSetupMs,
                                                clicks.lightEnabled, present, clicks.offset)
      ensures Sub32(nowMs, old(lastControlTickMs)) < ControlTickMs ==>
        && lastControlTickMs == old(lastControlTickMs) && outputPercent == old(outputPercent)
        && rgbState == old(rgbState) && present == old(present)
    {
      ProcessInputs(switches, encoder, nowMs, buttonLevel, sw2Level, swLevel);
      ControlStep(nowMs, ldr, reading);
    }
  }
}
