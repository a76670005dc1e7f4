/**
 * User input of the application (app/app_events.c): the encoder adjusts the
 * manual offset, toggles the light or resets the offset with a long click;
 * the BUTTON switch pages the display and, held for a second, enters or
 * leaves the settings menu, where the encoder moves between rows, edits
 * values and saves, resets or discards the draft.
 *
 * The input drivers, the settings store and the presence engine are the
 * modelled ones. The build defaults applied by the RESET row come from code
 * that is not part of this model and enter as the `defaults` parameter; a
 * NULL event pointer is `None`. Debug logging is left out.
 */
module AppEvents {
  import opened Wrap
  import opened Settings
  import SettingsStore
  import opened AppState
  import opened AppSensors
  import opened EventQueue
  import opened Debounce
  import opened EncoderInput
  import opened SwitchInput

  /** APP_SETTINGS_LONG_PRESS_MS and APP_SETTINGS_TOAST_MS */
  const LongPressMs: u32 := 1000
  const ToastMs: u32 := 1500

  /** display_settings_row_id_t, in menu order. */
  const RowAwayMode: u8 := 0
  const RowFlatMode: u8 := 1
  const RowAwayTimeout: u8 := 2
  const RowFlatTimeout: u8 := 3
  const RowPreoffDim: u8 := 4
  const RowReturnBand: u8 := 5
  const RowSave: u8 := 6
  const RowReset: u8 := 7
  const RowExit: u8 := 8
  const RowCount: u8 := 9

  // ---------------------------------------------------------------------
  // Values

  /**
   * wrap_settings_u16: with no step or an empty range, clamp; otherwise move
   * one step in `direction`, wrapping to the other end of [lo, hi] when the
   * step would leave it.
   */
  function WrapSettingsU16(current: u16, direction: int, lo: u16, hi: u16, step: u16): (r: u16)
    requires -128 <= direction <= 127
    ensures step == 0 || hi <= lo ==> r == Clamp(current, lo, hi)
    ensures step != 0 && lo < hi ==> lo <= r <= hi
    ensures step != 0 && lo < hi ==>
      var next := current + direction * step;
      || (lo <= next <= hi && r == next)
      || (next > hi && r == lo)
      || (next < lo && r == hi)
  {
    if step == 0 || hi <= lo then Clamp(current, lo, hi)
    else
      var next := current + direction * step;
      if next > hi then lo
      else if next < lo then hi
      else next
  }

  /** One step up and one step down cancel out wherever neither wraps. */
  lemma WrapUndo(current: u16, lo: u16, hi: u16, step: u16)
    requires 0 < step && lo < hi
    ensures lo <= current && current + step <= hi ==>
      WrapSettingsU16(WrapSettingsU16(current, 1, lo, hi, step), -1, lo, hi, step) == current
    ensures current <= hi && lo <= current - step ==>
      WrapSettingsU16(WrapSettingsU16(current, -1, lo, hi, step), 1, lo, hi, step) == current
  {
  }

  /**
   * When the range is a whole number of steps, every single step keeps an
   * on-grid value on the grid, wrapping included.
   */
  lemma WrapKeepsGrid(current: u16, direction: int, lo: u16, hi: u16, step: u16)
    requires direction == 1 || direction == -1
    requires 0 < step && lo < hi && (hi - lo) % step == 0
    requires OnGrid(current, lo, hi, step)
    ensures OnGrid(WrapSettingsU16(current, direction, lo, hi, step), lo, hi, step)
  {
    var next := current + direction * step;
    assert next - lo == (current - lo) + direction * step;
    if lo <= next <= hi {
      if direction == 1 {
        ModAddStep(current - lo, step);
      } else {
        ModAddStep(next - lo, step);
      }
    }
  }

  /** Adding one step does not change the remainder modulo the step. */
  lemma ModAddStep(x: int, step: int)
    requires 0 < step && 0 <= x
    ensures (x + step) % step == x % step
  {
    var q := x / step;
    assert q * step <= x < q * step + step;
    assert (q + 1) * step == q * step + step;
    DivUnique(x + step, step, q + 1);
  }

  /** settings_are_equal: field by field. */
  function SettingsEqual(a: Settings, b: Settings): (r: bool)
    ensures r <==> a == b
  {
    && a.awayModeEnabled == b.awayModeEnabled
    && a.flatModeEnabled == b.flatModeEnabled
    && a.awayTimeoutS == b.awayTimeoutS
    && a.staleTimeoutS == b.staleTimeoutS
    && a.preoffDimS == b.preoffDimS
    && a.returnBandCm == b.returnBandCm
  }

  /** The expiry time app_set_settings_toast stores. */
  function ToastUntil(toast: Toast, nowMs: u32): (until: u32)
    ensures toast == ToastNone ==> until == 0
    ensures toast != ToastNone ==> Sub32(until, nowMs) == ToastMs
  {
    if toast == ToastNone then 0 else Add32(nowMs, ToastMs)
  }

  /** A menu flag flipped between 0 and 1; any nonzero value counts as on. */
  function ToggleFlag(x: u8): (r: u8)
    ensures r <= 1 && (r == 1 <==> x == 0)
  {
    if x == 0 then 1 else 0
  }

  /** Toggling a 0/1 flag twice restores it. */
  lemma ToggleFlagTwice(x: u8)
    requires x <= 1
    ensures ToggleFlag(ToggleFlag(x)) == x
  {
  }

  /** The encoder direction of a rotation event: CW is +1, CCW -1. */
  function Direction(kind: EventKind): (d: int)
    ensures d == 1 || d == -1
    ensures d == 1 <==> kind == Cw
  {
    if kind == Cw then 1 else -1
  }

  /**
   * app_settings_adjust_value: the numeric field of the selected row moves
   * one step, wrapping within its bounds; the return band is cast back to 8
   * bits. Other rows leave the draft alone.
   */
  function AdjustValue(draft: Settings, row: u8, direction: int, st: Steps): (r: Settings)
    requires direction == 1 || direction == -1
    ensures row < RowAwayTimeout || row > RowReturnBand ==> r == draft
    ensures row == RowAwayTimeout ==> r == draft.(awayTimeoutS := r.awayTimeoutS)
    ensures row == RowFlatTimeout ==> r == draft.(staleTimeoutS := r.staleTimeoutS)
    ensures row == RowPreoffDim ==> r == draft.(preoffDimS := r.preoffDimS)
    ensures row == RowReturnBand ==> r == draft.(returnBandCm := r.returnBandCm)
    ensures WithinBounds(draft) ==> WithinBounds(r)
  {
    if row == RowAwayTimeout then
      draft.(awayTimeoutS := WrapSettingsU16(draft.awayTimeoutS, direction, AWAY_TIMEOUT_S_MIN, AWAY_TIMEOUT_S_MAX, st.awayTimeoutS))
    else if row == RowFlatTimeout then
      draft.(staleTimeoutS := WrapSettingsU16(draft.staleTimeoutS, direction, STALE_TIMEOUT_S_MIN, STALE_TIMEOUT_S_MAX, st.staleTimeoutS))
    else if row == RowPreoffDim then
      draft.(preoffDimS := WrapSettingsU16(draft.preoffDimS, direction, PREOFF_DIM_S_MIN, PREOFF_DIM_S_MAX, st.preoffDimS))
    else if row == RowReturnBand then
      draft.(returnBandCm := Cast8(WrapSettingsU16(draft.returnBandCm, direction, RETURN_BAND_CM_MIN, RETURN_BAND_CM_MAX, st.returnBandCm)))
    else draft
  }

  /**
   * When every range is a whole number of steps, editing keeps a draft the
   * store accepts acceptable, so saving it stores exactly what was shown.
   */
  lemma AdjustKeepsInRange(draft: Settings, row: u8, direction: int, st: Steps)
    requires direction == 1 || direction == -1
    requires SettingsStore.StepsNonZero(st)
    requires (AWAY_TIMEOUT_S_MAX - AWAY_TIMEOUT_S_MIN) % st.awayTimeoutS == 0
    requires (STALE_TIMEOUT_S_MAX - STALE_TIMEOUT_S_MIN) % st.staleTimeoutS == 0
    requires (PREOFF_DIM_S_MAX - PREOFF_DIM_S_MIN) % st.preoffDimS == 0
    requires (RETURN_BAND_CM_MAX - RETURN_BAND_CM_MIN) % st.returnBandCm == 0
    requires SettingsStore.InRange(draft, st)
    ensures SettingsStore.InRange(AdjustValue(draft, row, direction, st), st)
    ensures Validate(AdjustValue(draft, row, direction, st), st) == AdjustValue(draft, row, direction, st)
  {
    var r := AdjustValue(draft, row, direction, st);
    if row == RowAwayTimeout {
      WrapKeepsGrid(draft.awayTimeoutS, direction, AWAY_TIMEOUT_S_MIN, AWAY_TIMEOUT_S_MAX, st.awayTimeoutS);
    } else if row == RowFlatTimeout {
      WrapKeepsGrid(draft.staleTimeoutS, direction, STALE_TIMEOUT_S_MIN, STALE_TIMEOUT_S_MAX, st.staleTimeoutS);
    } else if row == RowPreoffDim {
      WrapKeepsGrid(draft.preoffDimS, direction, PREOFF_DIM_S_MIN, PREOFF_DIM_S_MAX, st.preoffDimS);
    } else if row == RowReturnBand {
      WrapKeepsGrid(draft.returnBandCm, direction, RETURN_BAND_CM_MIN, RETURN_BAND_CM_MAX, st.returnBandCm);
    }
    SettingsStore.InRangeIsValidated(r, st);
  }

  /** app_settings_cycle_row: forward modulo the row count, backward from row 0 to the last row. */
  function NextRow(selected: u8, direction: int): (r: u8)
    ensures direction > 0 ==> r < RowCount
    ensures selected < RowCount ==> r < RowCount
    ensures direction > 0 && selected < RowCount - 1 ==> r == selected + 1
    ensures direction <= 0 && 0 < selected ==> r == selected - 1
  {
    if direction > 0 then ((selected + 1) % RowCount) as u8
    else if selected == 0 then RowCount - 1
    else selected - 1
  }

  /** Moving forward and back, or back and forward, returns to the same row. */
  lemma NextRowInverse(selected: u8)
    requires selected < RowCount
    ensures NextRow(NextRow(selected, 1), -1) == selected
    ensures NextRow(NextRow(selected, -1), 1) == selected
  {
  }

  /** Up to nine moves in one direction count rows around the ring; nine bring the selection back. */
  lemma {:induction false} NextRowCycles(selected: u8, direction: int, n: nat)
    requires selected < RowCount && n <= RowCount as int
    ensures direction > 0 ==>
      RowsAhead(selected, direction, n) as int == (if selected as int + n < RowCount as int then selected as int + n else selected as int + n - RowCount as int)
    ensures direction <= 0 ==>
      RowsAhead(selected, direction, n) as int == (if selected as int - n >= 0 then selected as int - n else selected as int - n + RowCount as int)
    ensures n == RowCount as int ==> RowsAhead(selected, direction, n) == selected
  {
    if n > 0 {
      NextRowCycles(selected, direction, n - 1);
    }
  }

  /** The row reached after `n` moves in `direction`. */
  function RowsAhead(selected: u8, direction: int, n: nat): (r: u8)
    requires selected < RowCount
    ensures r < RowCount
  {
    if n == 0 then selected else NextRow(RowsAhead(selected, direction, n - 1), direction)
  }

  /** reset_presence_runtime_state, the presence part: streaks, reason and candidate cleared. */
  function RuntimeCleared(p: Presence): (q: Presence)
    ensures q.awayMs == 0 && q.flatMs == 0 && q.motionMs == 0 && q.nearRefMs == 0
    ensures q.reason == ReasonNone && !q.candidate
    ensures q.present == p.present && q.prevCm == p.prevCm && q.prevReady == p.prevReady
    ensures q.refCm == p.refCm && q.refValid == p.refValid && q.refPending == p.refPending
    ensures q.usingFallback == p.usingFallback
  {
    p.(awayMs := 0, flatMs := 0, motionMs := 0, nearRefMs := 0, reason := ReasonNone, candidate := false)
  }

  /**
   * The presence state app_toggle_light_enabled leaves when the light goes
   * on: runtime cleared, the fallback reference armed for recapture, the
   * previous distance forgotten and the user assumed present.
   */
  function SwitchedOn(p: Presence, cfg: PolicyCfg): (q: Presence)
    ensures q.present && q.refValid && q.refPending && q.usingFallback && !q.prevReady
    ensures q.refCm == cfg.refFallbackCm
    ensures q == RuntimeCleared(q)
  {
    RuntimeCleared(p).(refCm := cfg.refFallbackCm, refValid := true, refPending := true,
                       usingFallback := true, prevReady := false, present := true)
  }

  /**
   * After the light goes on, the first distance sample becomes the reference
   * and the user counts as present, whatever the engine held before.
   */
  lemma SwitchOnRecapturesReference(p: Presence, d: u32, ms: u32, cfg: PolicyCfg)
    ensures var q := PresenceStep(SwitchedOn(p, cfg), d, true, ms, cfg);
      && q.present && q.refCm == d && q.refValid && !q.refPending && !q.usingFallback
      && q.prevCm == d && q.prevReady
      && q.flatMs == 0 && q.motionMs == 0 && q.nearRefMs == 0
  {
    var p1 := SwitchedOn(p, cfg);
    StepCapturesReference(p1, d, true, ms, cfg);
    StepNeverDropsPresence(p1, d, true, ms, cfg);
    StepWhilePresent(p1, d, ms, cfg);
  }

  // ---------------------------------------------------------------------
  // The BUTTON switch and the long press

  /** The part of the context app_process_switch_events reads and writes. */
  datatype ButtonMenu = ButtonMenu(
    modeActive: bool,
    buttonPressed: bool,
    longPressFired: bool,
    pressStartMs: u32,
    pageIndex: u8,
    pageCount: u8,
    renderDirty: bool)

  ghost function MenuOf(sui: SettingsUi, ui: Ui): ButtonMenu
    reads sui, ui
  {
    ButtonMenu(sui.modeActive, sui.buttonPressed, sui.longPressFired, sui.buttonPressStartMs,
               ui.pageIndex, ui.pageCount, ui.renderDirty)
  }

  predicate IsRelease(e: SwitchEvent)
  {
    e.input == Button && e.pressed == 0
  }

  predicate IsPress(e: SwitchEvent)
  {
    e.input == Button && e.pressed != 0
  }

  /** A release that pages the display: not ending a long press, outside the settings menu. */
  predicate Pages(m: ButtonMenu, e: SwitchEvent)
  {
    IsRelease(e) && !m.longPressFired && !m.modeActive
  }

  /** The body of the event loop of app_process_switch_events for one event. */
  function OnSwitchEvent(m: ButtonMenu, e: SwitchEvent, nowMs: u32): (r: ButtonMenu)
    ensures r.modeActive == m.modeActive && r.pageCount == m.pageCount
    ensures e.input == Sw2 ==> r == m
    ensures IsPress(e) ==> r == m.(buttonPressed := true, longPressFired := false, pressStartMs := nowMs)
    ensures IsRelease(e) ==> !r.buttonPressed && !r.longPressFired && r.pressStartMs == m.pressStartMs
    ensures IsRelease(e) ==> (r.renderDirty <==> m.renderDirty || Pages(m, e))
    ensures r.pageIndex != m.pageIndex ==> Pages(m, e)
    ensures m.pageIndex < m.pageCount ==> r.pageIndex < r.pageCount
    ensures Pages(m, e) && 1 < m.pageCount && m.pageIndex < m.pageCount ==> r.pageIndex != m.pageIndex
  {
    var pages := Pages(m, e);
    m.(buttonPressed := if IsRelease(e) then false else if IsPress(e) then true else m.buttonPressed,
       longPressFired := if IsRelease(e) || IsPress(e) then false else m.longPressFired,
       pressStartMs := if IsPress(e) then nowMs else m.pressStartMs,
       pageIndex := if pages && m.pageCount != 0 then ((m.pageIndex as int + 1) % m.pageCount as int) as u8 else m.pageIndex,
       renderDirty := m.renderDirty || pages)
  }

  /** The loop of app_process_switch_events over the queued events, oldest first. */
  function DrainSwitchEvents(m: ButtonMenu, es: seq<SwitchEvent>, nowMs: u32): ButtonMenu
  {
    if |es| == 0 then m else OnSwitchEvent(DrainSwitchEvents(m, es[..|es| - 1], nowMs), es[|es| - 1], nowMs)
  }

  /** Inside the settings menu, switch events never change the page, and the menu mode itself never changes. */
  lemma {:induction false} DrainKeepsMenuPage(m: ButtonMenu, es: seq<SwitchEvent>, nowMs: u32)
    ensures var r := DrainSwitchEvents(m, es, nowMs);
      && r.modeActive == m.modeActive && r.pageCount == m.pageCount
      && (m.modeActive ==> r.pageIndex == m.pageIndex)
      && (m.pageIndex < m.pageCount ==> r.pageIndex < r.pageCount)
  {
    if |es| > 0 {
      DrainKeepsMenuPage(m, es[..|es| - 1], nowMs);
    }
  }

  /** A held BUTTON has been down for a second without having fired yet. */
  predicate LongPressDue(m: ButtonMenu, nowMs: u32, elapsed: ElapsedFn)
  {
    m.buttonPressed && !m.longPressFired && elapsed(nowMs, m.pressStartMs, LongPressMs)
  }

  /**
   * The long-press check after the loop as written: the latch is set, but the
   * enter and exit routines it then calls clear it again.
   */
  function LongPressAsWritten(m: ButtonMenu, nowMs: u32, elapsed: ElapsedFn): (r: ButtonMenu)
    ensures !LongPressDue(m, nowMs, elapsed) ==> r == m
    ensures LongPressDue(m, nowMs, elapsed) ==> r.modeActive == !m.modeActive && !r.longPressFired
  {
    if LongPressDue(m, nowMs, elapsed) then
      m.(modeActive := !m.modeActive, buttonPressed := false, longPressFired := false,
         pressStartMs := nowMs, renderDirty := true)
    else m
  }

  /**
   * The long-press check as evidently intended: the latch stays set after the
   * menu routine, so that the release ending the press is consumed. This is
   * the corrected variant; the code as written is `LongPressAsWritten`.
   */
  function LongPress(m: ButtonMenu, nowMs: u32, elapsed: ElapsedFn): (r: ButtonMenu)
    ensures !LongPressDue(m, nowMs, elapsed) ==> r == m
    ensures LongPressDue(m, nowMs, elapsed) ==>
      && r.longPressFired && !r.buttonPressed && r.renderDirty
      && r.modeActive == !m.modeActive
      && r.pageIndex == m.pageIndex && r.pageCount == m.pageCount
  {
    if LongPressDue(m, nowMs, elapsed) then
      m.(modeActive := !m.modeActive, buttonPressed := false, longPressFired := true,
         pressStartMs := nowMs, renderDirty := true)
    else m
  }

  /** The corrected and the written long-press check differ in the latch alone. */
  lemma LongPressDiffersOnlyInLatch(m: ButtonMenu, nowMs: u32, elapsed: ElapsedFn)
    ensures LongPressAsWritten(m, nowMs, elapsed) == LongPress(m, nowMs, elapsed).(longPressFired := m.longPressFired && !LongPressDue(m, nowMs, elapsed))
    ensures LongPressDue(m, nowMs, elapsed) <==> LongPress(m, nowMs, elapsed).longPressFired != LongPressAsWritten(m, nowMs, elapsed).longPressFired
  {
  }

  /** The elapsed test of the input layer, for the concrete counterexample. */
  function WrapElapsed(nowMs: u32, sinceMs: u32, intervalMs: u32): bool
  {
    Sub32(nowMs, sinceMs) >= intervalMs
  }

  /**
   * As written, the consume branch of the loop is dead: the latch is never
   * set when an event is examined, in any run that starts with it clear.
   */
  lemma {:induction false} AsWrittenLatchNeverSet(m: ButtonMenu, es: seq<SwitchEvent>, nowMs: u32, elapsed: ElapsedFn)
    requires !m.longPressFired
    ensures !DrainSwitchEvents(m, es, nowMs).longPressFired
    ensures !LongPressAsWritten(DrainSwitchEvents(m, es, nowMs), nowMs, elapsed).longPressFired
  {
    if |es| > 0 {
      AsWrittenLatchNeverSet(m, es[..|es| - 1], nowMs, elapsed);
    }
  }

  /**
   * As written, holding BUTTON for a second to leave the settings menu also
   * advances the display page when the button is let go.
   */
  lemma LongPressExitPagesAsWritten()
    ensures var m := ButtonMenu(true, true, false, 0, 0, 2, false);
      var m1 := LongPressAsWritten(m, 1000, WrapElapsed);
      var m2 := OnSwitchEvent(m1, SwitchEvent(Button, 0, 1), 1000);
      && !m1.modeActive && m2.pageIndex == 1
  {
  }

  /**
   * With the latch kept, the release that ends a long press is consumed: it
   * neither pages the display nor changes the menu mode, and it re-arms the
   * latch for the next press.
   */
  lemma LongPressReleaseConsumed(m: ButtonMenu, nowMs: u32, elapsed: ElapsedFn, e: SwitchEvent, t: u32)
    requires LongPressDue(m, nowMs, elapsed) && IsRelease(e)
    ensures var m1 := LongPress(m, nowMs, elapsed);
      var m2 := OnSwitchEvent(m1, e, t);
      && m2.modeActive == !m.modeActive && m2.pageIndex == m.pageIndex
      && !m2.buttonPressed && !m2.longPressFired
  {
  }

  // ---------------------------------------------------------------------
  // The context

  /**
   * What the event handlers keep true of the context: the selected row is a
   * row, `dirty` says whether the draft differs from the active settings,
   * and the manual offset lies within its bounds.
   */
  ghost predicate Consistent(sui: SettingsUi, settings: SettingsCtx, control: Control, cfg: PolicyCfg)
    reads sui, settings, control
  {
    && sui.selectedRow < RowCount
    && (settings.dirty <==> settings.draft != settings.active)
    && cfg.offsetMin <= control.manualOffset <= cfg.offsetMax
  }

  /** The menu fields enter and exit both reset: not editing, row 0, no toast. */
  ghost predicate MenuRestarted(sui: SettingsUi)
    reads sui
  {
    !sui.editingValue && sui.selectedRow == 0 && sui.toast == ToastNone && sui.toastUntilMs == 0
  }

  /** app_refresh_settings_dirty */
  method RefreshDirty(settings: SettingsCtx)
    modifies settings`dirty
    ensures settings.dirty <==> settings.draft != settings.active
  {
    settings.dirty := !SettingsEqual(settings.draft, settings.active);
  }

  /** app_set_settings_toast */
  method SetToast(sui: SettingsUi, toast: Toast, nowMs: u32)
    modifies sui`toast, sui`toastUntilMs
    ensures sui.toast == toast && sui.toastUntilMs == ToastUntil(toast, nowMs)
  {
    sui.toast := toast;
    if toast == ToastNone {
      sui.toastUntilMs := 0;
    } else {
      sui.toastUntilMs := Add32(nowMs, ToastMs);
    }
  }

  /** app_enter_settings_mode: the menu opens on row 0 with the draft equal to the active settings and the overlay closed. */
  method EnterSettingsMode(sui: SettingsUi, settings: SettingsCtx, ui: Ui, nowMs: u32)
    modifies sui, settings, ui`overlayActive, ui`renderDirty
    ensures sui.modeActive && MenuRestarted(sui)
    ensures !sui.buttonPressed && !sui.longPressFired && sui.buttonPressStartMs == nowMs
    ensures settings.active == old(settings.active) && settings.draft == settings.active && !settings.dirty
    ensures !ui.overlayActive && ui.renderDirty
  {
    sui.modeActive := true;
    sui.editingValue := false;
    sui.selectedRow := 0;
    sui.buttonPressed := false;
    sui.longPressFired := false;
    sui.buttonPressStartMs := nowMs;
    SetToast(sui, ToastNone, nowMs);
    settings.draft := settings.active;
    settings.dirty := false;
    ui.overlayActive := false;
    ui.renderDirty := true;
  }

  /** app_exit_settings_mode_discard: the menu closes and the draft is thrown away. */
  method ExitSettingsModeDiscard(sui: SettingsUi, settings: SettingsCtx, ui: Ui, nowMs: u32)
    modifies sui, settings, ui`renderDirty
    ensures !sui.modeActive && MenuRestarted(sui)
    ensures !sui.buttonPressed && !sui.longPressFired && sui.buttonPressStartMs == nowMs
    ensures settings.active == old(settings.active) && settings.draft == settings.active && !settings.dirty
    ensures ui.renderDirty
  {
    sui.modeActive := false;
    sui.editingValue := false;
    sui.selectedRow := 0;
    sui.buttonPressed := false;
    sui.longPressFired := false;
    sui.buttonPressStartMs := nowMs;
    SetToast(sui, ToastNone, nowMs);
    settings.draft := settings.active;
    settings.dirty := false;
    ui.renderDirty := true;
  }

  /** reset_presence_runtime_state */
  method ResetPresenceRuntimeState(sensors: Sensors, control: Control)
    modifies sensors`presence, control`preoffActive, control`preoffStartMs, control`preoffDimTargetPercent
    ensures sensors.presence == RuntimeCleared(old(sensors.presence))
    ensures !control.preoffActive && control.preoffStartMs == 0 && control.preoffDimTargetPercent == 0
  {
    sensors.presence := sensors.presence.(awayMs := 0, flatMs := 0, motionMs := 0, nearRefMs := 0);
    sensors.presence := sensors.presence.(reason := ReasonNone, candidate := false);
    control.preoffActive := false;
    control.preoffStartMs := 0;
    control.preoffDimTargetPercent := 0;
  }

  /**
   * app_toggle_light_enabled: switching on arms the fast ramp and restarts
   * the presence engine from the fallback reference; switching off stops the
   * fast ramp and clears the runtime state; either way the screen is redrawn.
   */
  method ToggleLightEnabled(control: Control, sensors: Sensors, ui: Ui, cfg: PolicyCfg)
    modifies control`lightEnabled, control`rampFastOnActive, control`preoffActive, control`preoffStartMs
    modifies control`preoffDimTargetPercent, sensors`presence, ui`renderDirty
    ensures control.lightEnabled == !old(control.lightEnabled) && ui.renderDirty
    ensures control.rampFastOnActive == control.lightEnabled
    ensures !control.preoffActive && control.preoffStartMs == 0 && control.preoffDimTargetPercent == 0
    ensures control.lightEnabled ==> sensors.presence == SwitchedOn(old(sensors.presence), cfg)
    ensures !control.lightEnabled ==> sensors.presence == RuntimeCleared(old(sensors.presence))
  {
    var wasLightEnabled := control.lightEnabled;
    control.lightEnabled := !control.lightEnabled;
    if !wasLightEnabled && control.lightEnabled {
      control.rampFastOnActive := true;
      ResetPresenceRuntimeState(sensors, control);
      sensors.presence := sensors.presence.(refCm := cfg.refFallbackCm, refValid := true, refPending := true);
      sensors.presence := sensors.presence.(usingFallback := true, prevReady := false, present := true);
    } else if wasLightEnabled && !control.lightEnabled {
      control.rampFastOnActive := false;
      ResetPresenceRuntimeState(sensors, control);
    }
    ui.renderDirty := true;
  }

  // ---------------------------------------------------------------------
  // Encoder events in the settings menu

  /** A turn in the menu: edits the selected value while editing, otherwise moves the selection. */
  method RotateInSettings(direction: int, sui: SettingsUi, settings: SettingsCtx, ui: Ui, st: Steps)
    requires direction == 1 || direction == -1
    modifies sui`selectedRow, settings`draft, settings`dirty, ui`renderDirty
    ensures settings.active == old(settings.active) && ui.renderDirty
    ensures sui.editingValue ==>
      && settings.draft == AdjustValue(old(settings.draft), sui.selectedRow, direction, st)
      && (settings.dirty <==> settings.draft != settings.active)
      && sui.selectedRow == old(sui.selectedRow)
    ensures !sui.editingValue ==>
      && sui.selectedRow == NextRow(old(sui.selectedRow), direction)
      && settings.draft == old(settings.draft) && settings.dirty == old(settings.dirty)
  {
    if sui.editingValue {
      settings.draft := AdjustValue(settings.draft, sui.selectedRow, direction, st);
      RefreshDirty(settings);
    } else {
      sui.selectedRow := NextRow(sui.selectedRow, direction);
    }
    ui.renderDirty := true;
  }

  /**
   * The SAVE row: validate the draft and store it; on success it becomes the
   * active settings and the draft, and SAVED is shown, otherwise SAVE_ERR.
   */
  method SaveDraft(ts: u32, sui: SettingsUi, settings: SettingsCtx, flash: SettingsStore.Flash, st: Steps, hal: SettingsStore.FlashHal)
    requires flash.Valid() && SettingsStore.StepsNonZero(st)
    modifies sui`toast, sui`toastUntilMs, settings, flash
    ensures flash.Valid()
    ensures var res := SettingsStore.SaveOf(old(flash.slots), Validate(old(settings.draft), st), st, hal);
      && flash.slots == res.slots
      && (res.status == SettingsStore.Ok ==>
            && settings.active == Validate(old(settings.draft), st) && settings.draft == settings.active
            && !settings.dirty && sui.toast == ToastSaved && sui.toastUntilMs == ToastUntil(ToastSaved, ts))
      && (res.status != SettingsStore.Ok ==>
            && unchanged(settings) && sui.toast == ToastSaveErr && sui.toastUntilMs == ToastUntil(ToastSaveErr, ts))
  {
    var validated := Validate(settings.draft, st);
    var status := flash.Save(validated, st, hal);
    if status == SettingsStore.Ok {
      settings.active := validated;
      settings.draft := validated;
      settings.dirty := false;
      SetToast(sui, ToastSaved, ts);
    } else {
      SetToast(sui, ToastSaveErr, ts);
    }
  }

  /** A click on the selected row while not editing. */
  method ActivateRow(ts: u32, sui: SettingsUi, settings: SettingsCtx, ui: Ui, flash: SettingsStore.Flash,
                     st: Steps, hal: SettingsStore.FlashHal, defaults: Settings)
    requires flash.Valid() && SettingsStore.StepsNonZero(st)
    modifies sui, settings, ui`renderDirty, flash
    ensures flash.Valid() && ui.renderDirty
    ensures var row := old(sui.selectedRow);
      && (row != RowSave ==> unchanged(flash))
      && (row == RowAwayMode ==>
            && settings.draft == old(settings.draft).(awayModeEnabled := ToggleFlag(old(settings.draft.awayModeEnabled)))
            && settings.active == old(settings.active) && (settings.dirty <==> settings.draft != settings.active)
            && unchanged(sui))
      && (row == RowFlatMode ==>
            && settings.draft == old(settings.draft).(flatModeEnabled := ToggleFlag(old(settings.draft.flatModeEnabled)))
            && settings.active == old(settings.active) && (settings.dirty <==> settings.draft != settings.active)
            && unchanged(sui))
      && (RowAwayTimeout <= row <= RowReturnBand ==>
            && sui.editingValue && sui.selectedRow == row && sui.modeActive == old(sui.modeActive)
            && sui.toast == old(sui.toast) && unchanged(settings))
      && (row == RowSave ==>
            var res := SettingsStore.SaveOf(old(flash.slots), Validate(old(settings.draft), st), st, hal);
            && flash.slots == res.slots && sui.selectedRow == row && sui.modeActive == old(sui.modeActive)
            && (res.status == SettingsStore.Ok ==>
                  && settings.active == Validate(old(settings.draft), st) && settings.draft == settings.active
                  && !settings.dirty && sui.toast == ToastSaved && sui.toastUntilMs == ToastUntil(ToastSaved, ts))
            && (res.status != SettingsStore.Ok ==>
                  && unchanged(settings) && sui.toast == ToastSaveErr && sui.toastUntilMs == ToastUntil(ToastSaveErr, ts)))
      && (row == RowReset ==>
            && settings.draft == defaults && settings.active == old(settings.active)
            && (settings.dirty <==> settings.draft != settings.active)
            && sui.selectedRow == row && sui.modeActive == old(sui.modeActive)
            && sui.toast == ToastReset && sui.toastUntilMs == ToastUntil(ToastReset, ts))
      && (row == RowExit ==>
            && !sui.modeActive && MenuRestarted(sui)
            && !sui.buttonPressed && !sui.longPressFired && sui.buttonPressStartMs == ts
            && settings.active == old(settings.active) && settings.draft == settings.active && !settings.dirty)
      && (row >= RowCount ==> unchanged(sui, settings))
  {
    var row := sui.selectedRow;
    if row == RowAwayMode {
      settings.draft := settings.draft.(awayModeEnabled := ToggleFlag(settings.draft.awayModeEnabled));
      RefreshDirty(settings);
    } else if row == RowFlatMode {
      settings.draft := settings.draft.(flatModeEnabled := ToggleFlag(settings.draft.flatModeEnabled));
      RefreshDirty(settings);
    } else if RowAwayTimeout <= row <= RowReturnBand {
      sui.editingValue := true;
    } else if row == RowSave {
      SaveDraft(ts, sui, settings, flash, st, hal);
    } else if row == RowReset {
      settings.draft := defaults;
      RefreshDirty(settings);
      SetToast(sui, ToastReset, ts);
    } else if row == RowExit {
      ExitSettingsModeDiscard(sui, settings, ui, ts);
    }
    ui.renderDirty := true;
  }

  /**
   * The settings-menu half of app_handle_encoder_event: a turn edits or
   * moves; a press does nothing; a release ends editing, or acts on the
   * selected row. Everything but a press marks the screen for redraw.
   */
  method HandleSettingsEvent(e: Event, sui: SettingsUi, settings: SettingsCtx, ui: Ui, flash: SettingsStore.Flash,
                             st: Steps, hal: SettingsStore.FlashHal, defaults: Settings)
    requires flash.Valid() && SettingsStore.StepsNonZero(st)
    modifies sui, settings, ui`renderDirty, flash
    ensures flash.Valid()
    ensures e.kind == SwPressed ==> unchanged(sui, settings, ui, flash)
    ensures e.kind != SwPressed ==> ui.renderDirty
    ensures e.kind == Cw || e.kind == Ccw ==>
      && unchanged(flash) && settings.active == old(settings.active)
      && sui.modeActive == old(sui.modeActive) && sui.editingValue == old(sui.editingValue)
      && (sui.editingValue ==>
            && settings.draft == AdjustValue(old(settings.draft), sui.selectedRow, Direction(e.kind), st)
            && sui.selectedRow == old(sui.selectedRow))
      && (!sui.editingValue ==>
            && sui.selectedRow == NextRow(old(sui.selectedRow), Direction(e.kind))
            && settings.draft == old(settings.draft))
    ensures e.kind == SwReleased && old(sui.editingValue) ==>
      && !sui.editingValue && sui.selectedRow == old(sui.selectedRow) && sui.modeActive == old(sui.modeActive)
      && sui.toast == old(sui.toast) && unchanged(settings, flash)
    ensures old(sui.selectedRow) < RowCount ==> sui.selectedRow < RowCount
    ensures old(settings.dirty <==> settings.draft != settings.active) ==> (settings.dirty <==> settings.draft != settings.active)
  {
    if e.kind == Cw || e.kind == Ccw {
      RotateInSettings(Direction(e.kind), sui, settings, ui, st);
      return;
    }
    if e.kind != SwReleased {
      return;
    }
    if sui.editingValue {
      sui.editingValue := false;
      ui.renderDirty := true;
      return;
    }
    ActivateRow(e.timestampMs, sui, settings, ui, flash, st, hal, defaults);
  }

  // ---------------------------------------------------------------------
  // Encoder events outside the menu

  /**
   * The normal-mode half of app_handle_encoder_event: with the light on, a
   * turn moves the manual offset by one step within its bounds and opens the
   * offset overlay; a click shorter than the long-press threshold toggles the
   * light, a longer one resets the offset to 0.
   */
  method HandleNormalEvent(e: Event, control: Control, click: Click, sensors: Sensors, ui: Ui, cfg: PolicyCfg)
    modifies control`manualOffset, control`lightEnabled, control`rampFastOnActive, control`preoffActive
    modifies control`preoffStartMs, control`preoffDimTargetPercent, click, sensors`presence
    modifies ui`overlayActive, ui`overlayUntilMs, ui`overlayOffset, ui`renderDirty
    ensures e.kind == Cw || e.kind == Ccw ==>
      && unchanged(click, sensors) && control.lightEnabled == old(control.lightEnabled)
      && control.rampFastOnActive == old(control.rampFastOnActive) && control.preoffActive == old(control.preoffActive)
      && (old(control.lightEnabled) ==>
            && control.manualOffset == Clamp(old(control.manualOffset) + Direction(e.kind) * cfg.offsetStep, cfg.offsetMin, cfg.offsetMax)
            && ui.overlayActive && ui.overlayUntilMs == Add32(e.timestampMs, cfg.uiOverlayTimeoutMs)
            && ui.overlayOffset == control.manualOffset && ui.renderDirty)
      && (!old(control.lightEnabled) ==> unchanged(control, ui))
    ensures e.kind == SwPressed ==>
      && click.lastPressMs == e.timestampMs && click.lastReleaseMs == old(click.lastReleaseMs)
      && unchanged(control, sensors, ui)
    ensures e.kind == SwReleased ==>
      && click.lastReleaseMs == e.timestampMs && click.lastPressMs == old(click.lastPressMs) && ui.renderDirty
      && ui.overlayActive == old(ui.overlayActive) && ui.overlayUntilMs == old(ui.overlayUntilMs)
      && ui.overlayOffset == old(ui.overlayOffset)
    ensures e.kind == SwReleased && Sub32(e.timestampMs, old(click.lastPressMs)) >= cfg.encoderLongPressMs ==>
      && control.manualOffset == 0 && control.lightEnabled == old(control.lightEnabled)
      && control.rampFastOnActive == old(control.rampFastOnActive) && control.preoffActive == old(control.preoffActive)
      && sensors.presence == old(sensors.presence)
    ensures e.kind == SwReleased && Sub32(e.timestampMs, old(click.lastPressMs)) < cfg.encoderLongPressMs ==>
      && control.manualOffset == old(control.manualOffset)
      && control.lightEnabled == !old(control.lightEnabled) && control.rampFastOnActive == control.lightEnabled
      && !control.preoffActive && control.preoffStartMs == 0 && control.preoffDimTargetPercent == 0
      && (control.lightEnabled ==> sensors.presence == SwitchedOn(old(sensors.presence), cfg))
      && (!control.lightEnabled ==> sensors.presence == RuntimeCleared(old(sensors.presence)))
  {
    match e.kind {
      case Cw =>
        if control.lightEnabled {
          control.manualOffset := Clamp(control.manualOffset + cfg.offsetStep, cfg.offsetMin, cfg.offsetMax);
        }
      case Ccw =>
        if control.lightEnabled {
          control.manualOffset := Clamp(control.manualOffset - cfg.offsetStep, cfg.offsetMin, cfg.offsetMax);
        }
      case SwPressed =>
        click.lastPressMs := e.timestampMs;
      case SwReleased =>
        click.lastReleaseMs := e.timestampMs;
        if Sub32(e.timestampMs, click.lastPressMs) >= cfg.encoderLongPressMs {
          control.manualOffset := 0;
          ui.renderDirty := true;
        } else {
          ToggleLightEnabled(control, sensors, ui, cfg);
        }
    }
    if (e.kind == Cw || e.kind == Ccw) && control.lightEnabled {
      ui.overlayActive := true;
      ui.overlayUntilMs := Add32(e.timestampMs, cfg.uiOverlayTimeoutMs);
      ui.overlayOffset := control.manualOffset;
      ui.renderDirty := true;
    }
  }

  /**
   * app_handle_encoder_event: nothing for a NULL event; otherwise the menu
   * or the normal handler, by the menu mode. Either keeps the context
   * consistent when the offset bounds contain 0.
   */
  method HandleEncoderEvent(event: Option<Event>, sui: SettingsUi, settings: SettingsCtx, ui: Ui, control: Control,
                            click: Click, sensors: Sensors, flash: SettingsStore.Flash, cfg: PolicyCfg, st: Steps,
                            hal: SettingsStore.FlashHal, defaults: Settings)
    requires flash.Valid() && SettingsStore.StepsNonZero(st)
    modifies sui, settings, ui, flash, click, sensors`presence
    modifies control`manualOffset, control`lightEnabled, control`rampFastOnActive, control`preoffActive
    modifies control`preoffStartMs, control`preoffDimTargetPercent
    ensures flash.Valid()
    ensures event.None? ==> unchanged(sui, settings, ui, flash, click, sensors, control)
    ensures old(sui.modeActive) ==> unchanged(click, sensors, control)
    ensures !old(sui.modeActive) ==> unchanged(sui, settings, flash)
    ensures old(Consistent(sui, settings, control, cfg)) && cfg.offsetMin <= 0 <= cfg.offsetMax ==>
      Consistent(sui, settings, control, cfg)
  {
    if event.None? {
      return;
    }
    if sui.modeActive {
      HandleSettingsEvent(event.value, sui, settings, ui, flash, st, hal, defaults);
    } else {
      HandleNormalEvent(event.value, control, click, sensors, ui, cfg);
    }
  }

  /**
   * app_process_encoder_events: tick the encoder driver, then hand every
   * queued event, oldest first, to the handler until the queue is empty.
   */
  method ProcessEncoderEvents(encoder: Encoder, nowMs: u32, swLevel: Level, sui: SettingsUi, settings: SettingsCtx,
                              ui: Ui, control: Control, click: Click, sensors: Sensors, flash: SettingsStore.Flash,
                              cfg: PolicyCfg, st: Steps, hal: SettingsStore.FlashHal, defaults: Settings)
    requires encoder.Valid() && flash.Valid() && SettingsStore.StepsNonZero(st)
    modifies encoder, encoder.sw, encoder.queue, encoder.queue.buf
    modifies sui, settings, ui, flash, click, sensors`presence
    modifies control`manualOffset, control`lightEnabled, control`rampFastOnActive, control`preoffActive
    modifies control`preoffStartMs, control`preoffDimTargetPercent
    ensures encoder.Valid() && flash.Valid() && encoder.queue.contents == []
    ensures !SampleDue(nowMs, old(encoder.lastSwSampleMs)) ==> encoder.sw.Current() == old(encoder.sw.Current())
    ensures SampleDue(nowMs, old(encoder.lastSwSampleMs)) ==>
      encoder.lastSwSampleMs == nowMs && encoder.sw.Current() == Step(old(encoder.sw.Current()), swLevel)
    ensures old(Consistent(sui, settings, control, cfg)) && cfg.offsetMin <= 0 <= cfg.offsetMax ==>
      Consistent(sui, settings, control, cfg)
  {
    encoder.Tick(nowMs, swLevel);
    ghost var consistent := Consistent(sui, settings, control, cfg) && cfg.offsetMin <= 0 <= cfg.offsetMax;
    while true
      invariant encoder.Valid() && flash.Valid()
      invariant encoder.sw.Current() == old(encoder.sw.Current()) || SampleDue(nowMs, old(encoder.lastSwSampleMs))
      invariant SampleDue(nowMs, old(encoder.lastSwSampleMs)) ==>
        encoder.lastSwSampleMs == nowMs && encoder.sw.Current() == Step(old(encoder.sw.Current()), swLevel)
      invariant consistent ==> Consistent(sui, settings, control, cfg)
      decreases |encoder.queue.contents|
    {
      var ev := encoder.PopEvent(true);
      if ev.None? {
        break;
      }
      HandleEncoderEvent(ev, sui, settings, ui, control, click, sensors, flash, cfg, st, hal, defaults);
    }
  }

  // ---------------------------------------------------------------------
  // Switch events

  /** The body of the event loop of app_process_switch_events. */
  method ApplySwitchEvent(e: SwitchEvent, sui: SettingsUi, ui: Ui, nowMs: u32)
    modifies sui`buttonPressed, sui`longPressFired, sui`buttonPressStartMs, ui`pageIndex, ui`renderDirty
    ensures MenuOf(sui, ui) == OnSwitchEvent(old(MenuOf(sui, ui)), e, nowMs)
  {
    if e.input == Button && e.pressed == 0 {
      sui.buttonPressed := false;
      if sui.longPressFired {
        sui.longPressFired := false;
        return;
      }
      if sui.modeActive {
        return;
      }
      if ui.pageCount != 0 {
        ui.pageIndex := ((ui.pageIndex as int + 1) % ui.pageCount as int) as u8;
      }
      ui.renderDirty := true;
    } else if e.input == Button && e.pressed != 0 {
      sui.buttonPressed := true;
      sui.longPressFired := false;
      sui.buttonPressStartMs := nowMs;
    }
  }

  /** The event loop of app_process_switch_events: every queued event, oldest first, applied to the button state. */
  method DrainSwitchQueue(switches: Switches, sui: SettingsUi, ui: Ui, nowMs: u32)
    requires switches.Valid()
    modifies switches.queue, sui`buttonPressed, sui`longPressFired, sui`buttonPressStartMs, ui`pageIndex, ui`renderDirty
    ensures switches.Valid() && switches.queue.contents == []
    ensures MenuOf(sui, ui) == DrainSwitchEvents(old(MenuOf(sui, ui)), old(switches.queue.contents), nowMs)
  {
    ghost var m0 := MenuOf(sui, ui);
    ghost var pending := switches.queue.contents;
    ghost var done: seq<SwitchEvent> := [];
    while true
      invariant switches.Valid()
      invariant done + switches.queue.contents == pending
      invariant MenuOf(sui, ui) == DrainSwitchEvents(m0, done, nowMs)
      decreases |switches.queue.contents|
    {
      label Pop:
      var ev := switches.PopEvent(true);
      if ev.None? {
        break;
      }
      var e := ev.value;
      ApplySwitchEvent(e, sui, ui, nowMs);
      DrainAppend(m0, done, e, nowMs);
      ShiftFront(done, old@Pop(switches.queue.contents));
      done := done + [e];
    }
    assert done + [] == done;
  }

  /** Moving the head of the pending events to the end of the handled ones keeps their concatenation. */
  lemma ShiftFront<T>(done: seq<T>, pending: seq<T>)
    requires |pending| > 0
    ensures (done + [pending[0]]) + pending[1..] == done + pending
  {
  }

  /** Draining one more event applies it to the state the earlier ones left. */
  lemma DrainAppend(m: ButtonMenu, es: seq<SwitchEvent>, e: SwitchEvent, nowMs: u32)
    ensures DrainSwitchEvents(m, es + [e], nowMs) == OnSwitchEvent(DrainSwitchEvents(m, es, nowMs), e, nowMs)
  {
    assert (es + [e])[..|es|] == es;
  }

  /**
   * app_process_switch_events: tick the switch driver, apply the queued
   * events, then act on a BUTTON held for a second by leaving or entering the
   * settings menu. The latch the long press sets is cleared again by the menu
   * routine it calls, so the release that ends the press is not consumed.
   */
  method ProcessSwitchEvents(switches: Switches, nowMs: u32, buttonLevel: Level, sw2Level: Level, elapsed: ElapsedFn,
                             sui: SettingsUi, settings: SettingsCtx, ui: Ui)
    requires switches.Valid()
    modifies switches, switches.button, switches.sw2, switches.queue, switches.queue.buf
    modifies sui, settings, ui`overlayActive, ui`pageIndex, ui`renderDirty
    ensures switches.Valid() && switches.queue.contents == []
    ensures SampleDue(nowMs, old(switches.lastSampleMs)) ==>
      && switches.lastSampleMs == nowMs
      && switches.button.Current() == Step(old(switches.button.Current()), buttonLevel)
      && switches.sw2.Current() == Step(old(switches.sw2.Current()), sw2Level)
    ensures
      var es := if SampleDue(nowMs, old(switches.lastSampleMs))
        then AfterProcess(AfterProcess(old(switches.queue.contents), Button, old(switches.button.stable), switches.button.stable),
                          Sw2, old(switches.sw2.stable), switches.sw2.stable)
        else old(switches.queue.contents);
      var m := DrainSwitchEvents(old(MenuOf(sui, ui)), es, nowMs);
      && MenuOf(sui, ui) == LongPressAsWritten(m, nowMs, elapsed)
      && (LongPressDue(m, nowMs, elapsed) ==>
            && MenuRestarted(sui)
            && settings.active == old(settings.active) && settings.draft == settings.active && !settings.dirty
            && (m.modeActive ==> ui.overlayActive == old(ui.overlayActive))
            && (!m.modeActive ==> !ui.overlayActive))
      && (!LongPressDue(m, nowMs, elapsed) ==>
            && unchanged(settings) && ui.overlayActive == old(ui.overlayActive)
            && sui.editingValue == old(sui.editingValue) && sui.selectedRow == old(sui.selectedRow)
            && sui.toast == old(sui.toast) && sui.toastUntilMs == old(sui.toastUntilMs))
  {
    switches.Tick(nowMs, buttonLevel, sw2Level);
    DrainSwitchQueue(switches, sui, ui, nowMs);
    CheckLongPress(nowMs, elapsed, sui, settings, ui);
  }

  /**
   * The long-press check that ends app_process_switch_events: a held BUTTON
   * that has not fired yet sets the latch and then leaves or enters the
   * settings menu, whose routines clear the latch again.
   */
  method CheckLongPress(nowMs: u32, elapsed: ElapsedFn, sui: SettingsUi, settings: SettingsCtx, ui: Ui)
    modifies sui, settings, ui`overlayActive, ui`renderDirty
    ensures var m := old(MenuOf(sui, ui));
      && MenuOf(sui, ui) == LongPressAsWritten(m, nowMs, elapsed)
      && (LongPressDue(m, nowMs, elapsed) ==>
            && MenuRestarted(sui)
            && settings.active == old(settings.active) && settings.draft == settings.active && !settings.dirty
            && (m.modeActive ==> ui.overlayActive == old(ui.overlayActive))
            && (!m.modeActive ==> !ui.overlayActive))
      && (!LongPressDue(m, nowMs, elapsed) ==> unchanged(sui, settings, ui))
  {
    if sui.buttonPressed && !sui.longPressFired && elapsed(nowMs, sui.buttonPressStartMs, LongPressMs) {
      sui.longPressFired := true;
      if sui.modeActive {
        ExitSettingsModeDiscard(sui, settings, ui, nowMs);
      } else {
        EnterSettingsMode(sui, settings, ui, nowMs);
      }
    }
  }
}
