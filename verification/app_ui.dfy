/**
 * The display side of the application (app/app_ui.c): the view shown on the
 * OLED is composed from the context, compared with a snapshot of what was
 * drawn last, and redrawn when it changed, when the periodic refresh is due,
 * or when the offset overlay opens or expires, subject to a minimum redraw
 * interval.
 *
 * The drawing routines of the display driver are not part of this model; a
 * redraw is reported as the `Screen` it would show. The readiness flag of the
 * display is a parameter. The log summary is left out.
 */
module AppUi {
  import opened Wrap
  import opened AppState
  import AppControl

  /** display_mode_t */
  datatype DisplayMode = ModeOff | ModeOn | ModeSleep

  /** display_reason_t */
  datatype DisplayReason = DisplayNone | DisplayAway | DisplayFlat

  /** display_badge_t */
  datatype Badge = BadgeNone | BadgeLeave | BadgeDim | BadgeAway | BadgeIdle

  /** display_view_t */
  datatype View = View(
    mode: DisplayMode,
    ldrPercent: u8,
    outputPercent: u8,
    manualOffset: i32,
    distanceCm: u32,
    ldrFilteredRaw: u16,
    refCm: u32,
    present: bool,
    reason: DisplayReason,
    badge: Badge)

  /** What one redraw puts on the screen. */
  datatype Screen = OffsetOverlay(offset: i32) | MainPage(view: View) | SensorPage(view: View)

  /** app_to_display_mode: OFF with the light disabled, else SLEEP without a user, else ON. */
  function ModeOf(lightEnabled: bool, present: bool): (m: DisplayMode)
    ensures m == ModeOff <==> !lightEnabled
    ensures m == ModeSleep <==> lightEnabled && !present
    ensures m == ModeOn <==> lightEnabled && present
  {
    if !lightEnabled then ModeOff
    else if !present then ModeSleep
    else ModeOn
  }

  /** app_to_display_reason: code 1 is AWAY, 2 is FLAT, anything else NONE. */
  function ReasonOf(code: u8): (r: DisplayReason)
    ensures r == DisplayAway <==> code == ReasonAway
    ensures r == DisplayFlat <==> code == ReasonFlat
    ensures r == DisplayNone <==> code != ReasonAway && code != ReasonFlat
  {
    if code == 1 then DisplayAway
    else if code == 2 then DisplayFlat
    else DisplayNone
  }

  /** no_user_reason_to_string: the name the log prints for a reason code. */
  function ReasonName(code: u8): (s: string)
    ensures s in {"away", "flat", "none"}
  {
    if code == 1 then "away"
    else if code == 2 then "flat"
    else "none"
  }

  /** The log and the display name the reason alike. */
  lemma ReasonNameAgrees(code: u8)
    ensures ReasonName(code) == "away" <==> ReasonOf(code) == DisplayAway
    ensures ReasonName(code) == "flat" <==> ReasonOf(code) == DisplayFlat
    ensures ReasonName(code) == "none" <==> ReasonOf(code) == DisplayNone
  {
  }

  /**
   * app_select_main_badge: a running away streak shows LEAVE first, then an
   * active pre-off shows DIM, then a no-user candidate or an absent user
   * shows LEAVE; otherwise no badge.
   */
  function MainBadge(awayMs: u32, preoffActive: bool, candidate: bool, present: bool): (b: Badge)
    ensures b == BadgeDim <==> awayMs == 0 && preoffActive
    ensures b == BadgeLeave <==> awayMs > 0 || (!preoffActive && (candidate || !present))
    ensures b == BadgeNone <==> awayMs == 0 && !preoffActive && !candidate && present
    ensures b != BadgeAway && b != BadgeIdle
  {
    if awayMs > 0 then BadgeLeave
    else if preoffActive then BadgeDim
    else if candidate || !present then BadgeLeave
    else BadgeNone
  }

  /**
   * app_compose_display_view: the view of the current context. The LDR
   * percentage is the one the output control computes (app_compute_ldr_percent
   * uses the same formula).
   */
  function ComposeView(control: Control, sensors: Sensors): (v: View)
    reads control, sensors
    ensures v.ldrPercent <= 100
    ensures v.present == sensors.presence.present && v.refCm == sensors.presence.refCm
    ensures v.mode == ModeOf(control.lightEnabled, sensors.presence.present)
    ensures v.reason == ReasonOf(sensors.presence.reason)
    ensures v.badge == MainBadge(sensors.presence.awayMs, control.preoffActive, sensors.presence.candidate, sensors.presence.present)
  {
    View(ModeOf(control.lightEnabled, sensors.presence.present),
         AppControl.LdrPercent(sensors.lastLdrFiltered),
         control.outputPercent,
         control.manualOffset,
         sensors.lastValidDistanceCm,
         sensors.lastLdrFiltered,
         sensors.presence.refCm,
         sensors.presence.present,
         ReasonOf(sensors.presence.reason),
         MainBadge(sensors.presence.awayMs, control.preoffActive, sensors.presence.candidate, sensors.presence.present))
  }

  /** The fields the main page (page 0) shows. */
  datatype MainFields = MainFields(mode: DisplayMode, ldrPercent: u8, outputPercent: u8, manualOffset: i32, badge: Badge)

  /** The fields every other page shows. */
  datatype SensorFields = SensorFields(distanceCm: u32, ldrFilteredRaw: u16, refCm: u32, present: bool, reason: DisplayReason)

  function MainOf(v: View): MainFields
  {
    MainFields(v.mode, v.ldrPercent, v.outputPercent, v.manualOffset, v.badge)
  }

  function SensorOf(v: View): SensorFields
  {
    SensorFields(v.distanceCm, v.ldrFilteredRaw, v.refCm, v.present, v.reason)
  }

  /**
   * app_view_changed_for_page: page 0 compares only what the main page shows,
   * other pages only what the sensor page shows.
   */
  function ViewChangedForPage(last: View, current: View, pageIndex: u8): (changed: bool)
    ensures pageIndex == 0 ==> (changed <==> MainOf(last) != MainOf(current))
    ensures pageIndex != 0 ==> (changed <==> SensorOf(last) != SensorOf(current))
  {
    if pageIndex == 0 then
      || last.mode != current.mode
      || last.ldrPercent != current.ldrPercent
      || last.outputPercent != current.outputPercent
      || last.manualOffset != current.manualOffset
      || last.badge != current.badge
    else
      || last.distanceCm != current.distanceCm
      || last.ldrFilteredRaw != current.ldrFilteredRaw
      || last.refCm != current.refCm
      || last.present != current.present
      || last.reason != current.reason
  }

  /** A change is seen on some page exactly when the two views differ. */
  lemma ChangeSeenOnSomePage(last: View, current: View)
    ensures last != current <==> ViewChangedForPage(last, current, 0) || ViewChangedForPage(last, current, 1)
  {
  }

  /** The contents of s_ui_snapshot: what the last redraw showed. */
  datatype Snap = Snap(valid: bool, overlayActive: bool, pageIndex: u8, overlayOffset: i32, view: View)

  /**
   * The condition under which app_update_ui_dirty_from_data marks the screen:
   * with the overlay open, a missing snapshot, a snapshot without the overlay
   * or a different overlay offset; otherwise a missing snapshot, a snapshot
   * with the overlay, another page, or a change on the current page.
   */
  predicate DataChanged(s: Snap, overlayActive: bool, overlayOffset: i32, pageIndex: u8, current: View)
  {
    if overlayActive then !s.valid || !s.overlayActive || s.overlayOffset != overlayOffset
    else !s.valid || s.overlayActive || s.pageIndex != pageIndex || ViewChangedForPage(s.view, current, pageIndex)
  }

  /** Right after a commit, the same state and view show no change. */
  lemma CommitLeavesNoChange(overlayActive: bool, overlayOffset: i32, pageIndex: u8, current: View)
    ensures !DataChanged(Snap(true, overlayActive, pageIndex, overlayOffset, current), overlayActive, overlayOffset, pageIndex, current)
  {
  }

  /**
   * Outside the overlay, a committed snapshot reports a change exactly when
   * the page changed or a field the page shows changed.
   */
  lemma ChangeAfterCommit(page0: u8, v0: View, offset0: i32, overlay0: bool, overlayOffset: i32, pageIndex: u8, current: View)
    ensures var s := Snap(true, overlay0, page0, offset0, v0);
      DataChanged(s, false, overlayOffset, pageIndex, current) <==>
        overlay0 || page0 != pageIndex
        || (pageIndex == 0 && MainOf(v0) != MainOf(current))
        || (pageIndex != 0 && SensorOf(v0) != SensorOf(current))
  {
  }

  /** The overlay has expired once `now` has reached `until`, compared as a signed 32-bit difference. */
  predicate OverlayExpired(nowMs: u32, untilMs: u32)
  {
    SignedNonNegative(Sub32(nowMs, untilMs))
  }

  /**
   * Across the counter wrap, the overlay counts as expired from its deadline
   * for the next 2^31 - 1 ms and as pending for the 2^31 ms before it.
   */
  lemma OverlayExpiryWindow(untilMs: u32, d: int)
    ensures 0 <= d < 0x8000_0000 ==> OverlayExpired(Add32(untilMs, d), untilMs)
    ensures 0 < d <= 0x8000_0000 ==> !OverlayExpired(Sub32(untilMs, d), untilMs)
  {
  }

  /** app_render_display: the overlay when open, else the main page on page 0 and the sensor page elsewhere. */
  function ScreenOf(overlayActive: bool, overlayOffset: i32, pageIndex: u8, view: View): (s: Screen)
    ensures s.OffsetOverlay? <==> overlayActive
    ensures s.MainPage? ==> s.view == view && pageIndex == 0
    ensures s.SensorPage? ==> s.view == view && pageIndex != 0
  {
    if overlayActive then OffsetOverlay(overlayOffset)
    else if pageIndex == 0 then MainPage(view)
    else SensorPage(view)
  }

  /** s_ui_snapshot */
  class Snapshot {
    var valid: bool
    var overlayActive: bool
    var pageIndex: u8
    var overlayOffset: i32
    var view: View

    function Value(): Snap
      reads this
    {
      Snap(valid, overlayActive, pageIndex, overlayOffset, view)
    }

    constructor ()
      ensures !valid
    {
      valid, overlayActive, pageIndex, overlayOffset := false, false, 0, 0;
      view := View(ModeOff, 0, 0, 0, 0, 0, 0, false, DisplayNone, BadgeNone);
    }

    /** app_snapshot_commit: remember the view and the overlay and page it was drawn with. */
    method Commit(ui: Ui, current: View)
      modifies this
      ensures Value() == Snap(true, ui.overlayActive, ui.pageIndex, ui.overlayOffset, current)
    {
      view := current;
      valid := true;
      overlayActive := ui.overlayActive;
      pageIndex := ui.pageIndex;
      overlayOffset := ui.overlayOffset;
    }
  }

  /** app_update_ui_dirty_from_data: mark the screen when the data changed; never clears the mark. */
  method UpdateUiDirtyFromData(ui: Ui, snapshot: Snapshot, current: View)
    modifies ui`renderDirty
    ensures ui.renderDirty == (old(ui.renderDirty) || DataChanged(snapshot.Value(), ui.overlayActive, ui.overlayOffset, ui.pageIndex, current))
  {
    if ui.overlayActive {
      if !snapshot.valid || !snapshot.overlayActive || snapshot.overlayOffset != ui.overlayOffset {
        ui.renderDirty := true;
      }
      return;
    }
    if !snapshot.valid {
      ui.renderDirty := true;
      return;
    }
    if snapshot.overlayActive {
      ui.renderDirty := true;
      return;
    }
    if snapshot.pageIndex != ui.pageIndex {
      ui.renderDirty := true;
      return;
    }
    if ViewChangedForPage(snapshot.view, current, ui.pageIndex) {
      ui.renderDirty := true;
    }
  }

  /**
   * app_update_oled_if_due. Nothing happens while the display is not ready.
   * Otherwise an expired overlay closes and marks the screen, the data check
   * may mark it, and the periodic refresh, when due, advances its timestamp
   * by one period. The screen is redrawn when the periodic refresh is due,
   * or when it is marked and the minimum redraw interval has passed; a
   * redraw records its time, commits the snapshot and clears the mark.
   */
  method UpdateOledIfDue(displayReady: bool, nowMs: u32, ui: Ui, timing: Timing, snapshot: Snapshot,
                         control: Control, sensors: Sensors, tcfg: TimingCfg, pcfg: PolicyCfg, elapsed: ElapsedFn)
    returns (shown: Option<Screen>)
    modifies ui`overlayActive, ui`renderDirty, timing`lastUiRefreshMs, timing`lastUiDrawMs, snapshot
    ensures !displayReady ==> shown == None && unchanged(ui, timing, snapshot)
    ensures displayReady ==>
      var expired := old(ui.overlayActive) && OverlayExpired(nowMs, ui.overlayUntilMs);
      var current := ComposeView(control, sensors);
      var marked := old(ui.renderDirty) || expired
        || DataChanged(old(snapshot.Value()), ui.overlayActive, ui.overlayOffset, ui.pageIndex, current);
      var periodic := elapsed(nowMs, old(timing.lastUiRefreshMs), pcfg.uiRefreshMs);
      var limited := !elapsed(nowMs, old(timing.lastUiDrawMs), tcfg.uiMinRedrawMs);
      && ui.overlayActive == (old(ui.overlayActive) && !expired)
      && timing.lastUiRefreshMs == (if periodic then Add32(old(timing.lastUiRefreshMs), pcfg.uiRefreshMs) else old(timing.lastUiRefreshMs))
      && (periodic || (marked && !limited) ==>
            && shown == Some(ScreenOf(ui.overlayActive, ui.overlayOffset, ui.pageIndex, current))
            && timing.lastUiDrawMs == nowMs && !ui.renderDirty
            && snapshot.Value() == Snap(true, ui.overlayActive, ui.pageIndex, ui.overlayOffset, current))
      && (!(periodic || (marked && !limited)) ==>
            && shown == None && ui.renderDirty == marked
            && timing.lastUiDrawMs == old(timing.lastUiDrawMs) && unchanged(snapshot))
  {
    if !displayReady {
      return None;
    }
    if ui.overlayActive && OverlayExpired(nowMs, ui.overlayUntilMs) {
      ui.overlayActive := false;
      ui.renderDirty := true;
    }
    var current := ComposeView(control, sensors);
    UpdateUiDirtyFromData(ui, snapshot, current);
    var rateLimited := !elapsed(nowMs, timing.lastUiDrawMs, tcfg.uiMinRedrawMs);
    var periodicDue := false;
    if elapsed(nowMs, timing.lastUiRefreshMs, pcfg.uiRefreshMs) {
      timing.lastUiRefreshMs := Add32(timing.lastUiRefreshMs, pcfg.uiRefreshMs);
      periodicDue := true;
    }
    if !ui.renderDirty && !periodicDue {
      return None;
    }
    if !periodicDue && rateLimited {
      return None;
    }
    shown := Some(ScreenOf(ui.overlayActive, ui.overlayOffset, ui.pageIndex, current));
    timing.lastUiDrawMs := nowMs;
    snapshot.Commit(ui, current);
    ui.renderDirty := false;
  }
}
