/**
 * User settings (app/app_settings.c, app/app_settings.h): the six persisted
 * fields, their defaults and bounds, and the normalisation that clamps every
 * numeric field into its range and rounds it to its step grid.
 *
 * The step sizes APP_SETTINGS_*_STEP are not part of this model's sources;
 * they enter as a `Steps` value.
 */
module Settings {
  import opened Wrap

  /** app_settings_t */
  datatype Settings = Settings(
    awayModeEnabled: u8,
    flatModeEnabled: u8,
    awayTimeoutS: u16,
    staleTimeoutS: u16,
    preoffDimS: u16,
    returnBandCm: u8)

  /** The APP_SETTINGS_*_STEP constants. */
  datatype Steps = Steps(awayTimeoutS: u16, staleTimeoutS: u16, preoffDimS: u16, returnBandCm: u16)

  const AWAY_MODE_ENABLED_DEFAULT: u8 := 1
  const FLAT_MODE_ENABLED_DEFAULT: u8 := 1
  const AWAY_TIMEOUT_S_DEFAULT: u16 := 30
  const STALE_TIMEOUT_S_DEFAULT: u16 := 120
  const PREOFF_DIM_S_DEFAULT: u16 := 10
  const RETURN_BAND_CM_DEFAULT: u8 := 10

  const AWAY_TIMEOUT_S_MIN: u16 := 3
  const AWAY_TIMEOUT_S_MAX: u16 := 120
  const STALE_TIMEOUT_S_MIN: u16 := 10
  const STALE_TIMEOUT_S_MAX: u16 := 300
  const PREOFF_DIM_S_MIN: u16 := 2
  const PREOFF_DIM_S_MAX: u16 := 30
  const RETURN_BAND_CM_MIN: u16 := 1
  const RETURN_BAND_CM_MAX: u16 := 30

  /** Both flags are 0 or 1 and every numeric field lies within its bounds. */
  predicate WithinBounds(c: Settings)
  {
    && c.awayModeEnabled <= 1
    && c.flatModeEnabled <= 1
    && AWAY_TIMEOUT_S_MIN <= c.awayTimeoutS <= AWAY_TIMEOUT_S_MAX
    && STALE_TIMEOUT_S_MIN <= c.staleTimeoutS <= STALE_TIMEOUT_S_MAX
    && PREOFF_DIM_S_MIN <= c.preoffDimS <= PREOFF_DIM_S_MAX
    && RETURN_BAND_CM_MIN <= c.returnBandCm <= RETURN_BAND_CM_MAX
  }

  /** `value` lies in [lo, hi] and sits on the step grid that starts at lo. */
  predicate OnGrid(value: int, lo: int, hi: int, step: int)
    requires step > 0
  {
    lo <= value <= hi && (value - lo) % step == 0
  }

  /** Multiplying by a positive number keeps a strict order at least `d` apart. */
  lemma MulLess(a: int, b: int, d: int)
    requires d > 0
    ensures a < b ==> a * d + d <= b * d
  {
    if a < b {
      MulMonotone(1, b - a, d);
      assert b * d - a * d == (b - a) * d;
    }
  }

  lemma DivUnique(x: int, d: int, q: int)
    requires x >= 0 && d > 0 && q * d <= x < q * d + d
    ensures x / d == q
  {
    var k := x / d;
    assert x == k * d + x % d;
    MulLess(k, q, d);
    MulLess(q, k, d);
  }

  lemma MulMod(q: nat, d: nat)
    requires d > 0
    ensures (q * d) % d == 0 && (q * d) / d == q
  {
    DivUnique(q * d, d, q);
  }

  /** Two multiples of `d` that are less than `d` apart are ordered. */
  lemma MultiplesApart(m1: nat, m2: nat, d: nat)
    requires d > 0 && m1 % d == 0 && m2 % d == 0 && m1 < m2 + d
    ensures m1 <= m2
  {
    var q1, q2 := m1 / d, m2 / d;
    assert m1 == q1 * d && m2 == q2 * d;
    MulLess(q2, q1, d);
  }

  /**
   * The greatest multiple of `step` not above `x`, by repeated subtraction.
   * FloorMultipleIsDivision shows that it is the `(x / step) * step` of the
   * source.
   */
  function FloorMultiple(x: nat, step: nat): (m: nat)
    requires step > 0
    ensures m <= x < m + step
    decreases x
  {
    if x < step then 0 else step + FloorMultiple(x - step, step)
  }

  lemma {:induction false} FloorMultipleIsDivision(x: nat, step: nat)
    requires step > 0
    ensures FloorMultiple(x, step) == (x / step) * step
    decreases x
  {
    if x < step {
      DivUnique(x, step, 0);
    } else {
      FloorMultipleIsDivision(x - step, step);
      var q := (x - step) / step;
      assert q * step <= x - step < q * step + step;
      assert (q + 1) * step == q * step + step;
      DivUnique(x, step, q + 1);
    }
  }

  lemma FloorMultipleOnGrid(x: nat, step: nat)
    requires step > 0
    ensures FloorMultiple(x, step) % step == 0
  {
    FloorMultipleIsDivision(x, step);
    MulMod(x / step, step);
  }

  /** A multiple of `step` within one step below `x` is the floor multiple. */
  lemma FloorMultipleUnique(x: nat, step: nat, m: nat)
    requires step > 0 && m % step == 0 && m <= x < m + step
    ensures FloorMultiple(x, step) == m
  {
    var f := FloorMultiple(x, step);
    FloorMultipleOnGrid(x, step);
    MultiplesApart(f, m, step);
    MultiplesApart(m, f, step);
  }

  lemma {:induction false} FloorMultipleMonotone(a: nat, b: nat, step: nat)
    requires step > 0 && a <= b
    ensures FloorMultiple(a, step) <= FloorMultiple(b, step)
    decreases b
  {
    if a >= step {
      FloorMultipleMonotone(a - step, b - step, step);
    }
  }

  /**
   * clamp_step_u16: clamp, then round the offset from `lo` to the nearest
   * multiple of `step` (`((offset + step / 2) / step) * step`, half rounding
   * up), capped at `hi - lo`. The 16-bit casts of the source are written out
   * as reductions modulo 2^16.
   */
  function ClampStepU16(value: u16, lo: u16, hi: u16, step: u16): (r: u16)
    ensures step == 0 ==> r == Clamp(value, lo, hi)
  {
    if step == 0 then
      Clamp(value, lo, hi)
    else
      var clamped := Clamp(value, lo, hi);
      var offset := Cast16(clamped - lo);
      var rounded := Cast16(FloorMultiple(offset + step / 2, step));
      var span := Cast16(hi - lo);
      var capped := if rounded > span then span else rounded;
      Cast16(lo + capped)
  }

  /** Without wrap-around the 16-bit reductions are the identity. */
  lemma ClampStepNoWrap(value: u16, lo: u16, hi: u16, step: u16)
    requires 0 < step && lo <= hi && (hi - lo) + step / 2 < 0x1_0000
    ensures var m := FloorMultiple(Clamp(value, lo, hi) - lo + step / 2, step);
      ClampStepU16(value, lo, hi, step) == lo + (if m > hi - lo then hi - lo else m)
  {
  }

  /**
   * With `lo <= hi` and a positive step, the result lies in [lo, hi], is on
   * the step grid or equal to `hi`, is the nearest grid point to the clamped
   * value with ties rounding up unless it was capped at `hi`, and is never
   * more than half a step away from the clamped value.
   */
  lemma ClampStepRounds(value: u16, lo: u16, hi: u16, step: u16)
    requires 0 < step && lo <= hi && (hi - lo) + step / 2 < 0x1_0000
    ensures var r := ClampStepU16(value, lo, hi, step);
      var o := Clamp(value, lo, hi) - lo;
      && lo <= r <= hi
      && ((r - lo) % step == 0 || r == hi)
      && (r == hi || r - lo <= o + step / 2 < r - lo + step)
      && Abs(r - Clamp(value, lo, hi)) <= step / 2
  {
    ClampStepNoWrap(value, lo, hi, step);
    FloorMultipleOnGrid(Clamp(value, lo, hi) - lo + step / 2, step);
  }

  /** Rounding an offset to the grid capped at `span`, then rounding the result again, changes nothing. */
  lemma RoundCappedTwice(o: nat, span: nat, step: nat)
    requires step > 0 && o <= span
    ensures var m := FloorMultiple(o + step / 2, step);
      var r := if m > span then span else m;
      var m' := FloorMultiple(r + step / 2, step);
      (if m' > span then span else m') == r
  {
    var m := FloorMultiple(o + step / 2, step);
    if m > span {
      FloorMultipleMonotone(o + step / 2, span + step / 2, step);
    } else {
      FloorMultipleOnGrid(o + step / 2, step);
      FloorMultipleUnique(m + step / 2, step, m);
    }
  }

  /** Under the same conditions, normalising twice is normalising once. */
  lemma ClampStepIdempotent(value: u16, lo: u16, hi: u16, step: u16)
    requires lo <= hi && (hi - lo) + step / 2 < 0x1_0000
    ensures ClampStepU16(ClampStepU16(value, lo, hi, step), lo, hi, step) == ClampStepU16(value, lo, hi, step)
  {
    if step > 0 {
      ClampStepNoWrap(value, lo, hi, step);
      var r := ClampStepU16(value, lo, hi, step);
      ClampStepNoWrap(r, lo, hi, step);
      RoundCappedTwice(Clamp(value, lo, hi) - lo, hi - lo, step);
    }
  }

  /** When the range is a whole number of steps, the result is always on the grid. */
  lemma ClampStepOnGrid(value: u16, lo: u16, hi: u16, step: u16)
    requires 0 < step && lo <= hi && (hi - lo) + step / 2 < 0x1_0000 && (hi - lo) % step == 0
    ensures OnGrid(ClampStepU16(value, lo, hi, step), lo, hi, step)
  {
    ClampStepRounds(value, lo, hi, step);
  }

  /** app_settings_set_defaults: the six default constants, each inside its bounds. */
  function Defaults(): (d: Settings)
    ensures WithinBounds(d)
    ensures d.awayModeEnabled == 1 && d.flatModeEnabled == 1
  {
    Settings(AWAY_MODE_ENABLED_DEFAULT, FLAT_MODE_ENABLED_DEFAULT, AWAY_TIMEOUT_S_DEFAULT,
             STALE_TIMEOUT_S_DEFAULT, PREOFF_DIM_S_DEFAULT, RETURN_BAND_CM_DEFAULT)
  }

  /** A flag normalised to 0 or 1. */
  function Flag(x: u8): (r: u8)
    ensures r <= 1 && (r == 1 <==> x != 0)
  {
    if x != 0 then 1 else 0
  }

  /**
   * app_settings_validate, written as a function of the old struct (the
   * source overwrites it in place and, for a non-NULL struct, reports
   * success; every caller passes a static struct). The return
   * band goes through clamp_step_u16 and is then cast to uint8_t.
   */
  function Validate(c: Settings, st: Steps): (r: Settings)
    ensures WithinBounds(r)
    ensures (r.awayModeEnabled == 1 <==> c.awayModeEnabled != 0) && (r.flatModeEnabled == 1 <==> c.flatModeEnabled != 0)
  {
    ClampStepRounds0(c.awayTimeoutS, AWAY_TIMEOUT_S_MIN, AWAY_TIMEOUT_S_MAX, st.awayTimeoutS);
    ClampStepRounds0(c.staleTimeoutS, STALE_TIMEOUT_S_MIN, STALE_TIMEOUT_S_MAX, st.staleTimeoutS);
    ClampStepRounds0(c.preoffDimS, PREOFF_DIM_S_MIN, PREOFF_DIM_S_MAX, st.preoffDimS);
    ClampStepRounds0(c.returnBandCm, RETURN_BAND_CM_MIN, RETURN_BAND_CM_MAX, st.returnBandCm);
    Settings(
      Flag(c.awayModeEnabled),
      Flag(c.flatModeEnabled),
      ClampStepU16(c.awayTimeoutS, AWAY_TIMEOUT_S_MIN, AWAY_TIMEOUT_S_MAX, st.awayTimeoutS),
      ClampStepU16(c.staleTimeoutS, STALE_TIMEOUT_S_MIN, STALE_TIMEOUT_S_MAX, st.staleTimeoutS),
      ClampStepU16(c.preoffDimS, PREOFF_DIM_S_MIN, PREOFF_DIM_S_MAX, st.preoffDimS),
      Cast8(ClampStepU16(c.returnBandCm, RETURN_BAND_CM_MIN, RETURN_BAND_CM_MAX, st.returnBandCm)))
  }

  /** The bounds part of ClampStepRounds, for any step (a zero step falls back to clamping). */
  lemma ClampStepRounds0(value: u16, lo: u16, hi: u16, step: u16)
    requires lo <= hi && hi - lo <= 300
    ensures lo <= ClampStepU16(value, lo, hi, step) <= hi
  {
    if step > 0 {
      ClampStepRounds(value, lo, hi, step);
    }
  }

  /** Validation is idempotent, for every choice of step sizes. */
  lemma ValidateIdempotent(c: Settings, st: Steps)
    ensures Validate(Validate(c, st), st) == Validate(c, st)
  {
    var v := Validate(c, st);
    ClampStepIdempotent(c.awayTimeoutS, AWAY_TIMEOUT_S_MIN, AWAY_TIMEOUT_S_MAX, st.awayTimeoutS);
    ClampStepIdempotent(c.staleTimeoutS, STALE_TIMEOUT_S_MIN, STALE_TIMEOUT_S_MAX, st.staleTimeoutS);
    ClampStepIdempotent(c.preoffDimS, PREOFF_DIM_S_MIN, PREOFF_DIM_S_MAX, st.preoffDimS);
    ClampStepIdempotent(c.returnBandCm, RETURN_BAND_CM_MIN, RETURN_BAND_CM_MAX, st.returnBandCm);
    assert v.returnBandCm == ClampStepU16(c.returnBandCm, RETURN_BAND_CM_MIN, RETURN_BAND_CM_MAX, st.returnBandCm);
  }

  /** A value already on every grid is left unchanged by validation. */
  lemma ValidateFixesOnGrid(c: Settings, st: Steps)
    requires c.awayModeEnabled <= 1 && c.flatModeEnabled <= 1
    requires st.awayTimeoutS > 0 && OnGrid(c.awayTimeoutS, AWAY_TIMEOUT_S_MIN, AWAY_TIMEOUT_S_MAX, st.awayTimeoutS)
    requires st.staleTimeoutS > 0 && OnGrid(c.staleTimeoutS, STALE_TIMEOUT_S_MIN, STALE_TIMEOUT_S_MAX, st.staleTimeoutS)
    requires st.preoffDimS > 0 && OnGrid(c.preoffDimS, PREOFF_DIM_S_MIN, PREOFF_DIM_S_MAX, st.preoffDimS)
    requires st.returnBandCm > 0 && OnGrid(c.returnBandCm, RETURN_BAND_CM_MIN, RETURN_BAND_CM_MAX, st.returnBandCm)
    ensures Validate(c, st) == c
  {
    OnGridFixed(c.awayTimeoutS, AWAY_TIMEOUT_S_MIN, AWAY_TIMEOUT_S_MAX, st.awayTimeoutS);
    OnGridFixed(c.staleTimeoutS, STALE_TIMEOUT_S_MIN, STALE_TIMEOUT_S_MAX, st.staleTimeoutS);
    OnGridFixed(c.preoffDimS, PREOFF_DIM_S_MIN, PREOFF_DIM_S_MAX, st.preoffDimS);
    OnGridFixed(c.returnBandCm, RETURN_BAND_CM_MIN, RETURN_BAND_CM_MAX, st.returnBandCm);
  }

  lemma OnGridFixed(value: u16, lo: u16, hi: u16, step: u16)
    requires step > 0 && hi - lo <= 300 && OnGrid(value, lo, hi, step)
    ensures ClampStepU16(value, lo, hi, step) == value
  {
    ClampStepNoWrap(value, lo, hi, step);
    FloorMultipleUnique(value - lo + step / 2, step, value - lo);
  }

  /**
   * When every range is a whole number of steps, validation lands on the grid:
   * this is the condition under which a validated configuration is accepted by
   * the settings store.
   */
  lemma ValidateOnGrid(c: Settings, st: Steps, v: Settings)
    requires st.awayTimeoutS > 0 && (AWAY_TIMEOUT_S_MAX - AWAY_TIMEOUT_S_MIN) % st.awayTimeoutS == 0
    requires st.staleTimeoutS > 0 && (STALE_TIMEOUT_S_MAX - STALE_TIMEOUT_S_MIN) % st.staleTimeoutS == 0
    requires st.preoffDimS > 0 && (PREOFF_DIM_S_MAX - PREOFF_DIM_S_MIN) % st.preoffDimS == 0
    requires st.returnBandCm > 0 && (RETURN_BAND_CM_MAX - RETURN_BAND_CM_MIN) % st.returnBandCm == 0
    requires v == Validate(c, st)
    ensures OnGrid(v.awayTimeoutS, AWAY_TIMEOUT_S_MIN, AWAY_TIMEOUT_S_MAX, st.awayTimeoutS)
    ensures OnGrid(v.staleTimeoutS, STALE_TIMEOUT_S_MIN, STALE_TIMEOUT_S_MAX, st.staleTimeoutS)
    ensures OnGrid(v.preoffDimS, PREOFF_DIM_S_MIN, PREOFF_DIM_S_MAX, st.preoffDimS)
    ensures OnGrid(v.returnBandCm, RETURN_BAND_CM_MIN, RETURN_BAND_CM_MAX, st.returnBandCm)
  {
    ClampStepOnGrid(c.awayTimeoutS, AWAY_TIMEOUT_S_MIN, AWAY_TIMEOUT_S_MAX, st.awayTimeoutS);
    ClampStepOnGrid(c.staleTimeoutS, STALE_TIMEOUT_S_MIN, STALE_TIMEOUT_S_MAX, st.staleTimeoutS);
    ClampStepOnGrid(c.preoffDimS, PREOFF_DIM_S_MIN, PREOFF_DIM_S_MAX, st.preoffDimS);
    ClampStepOnGrid(c.returnBandCm, RETURN_BAND_CM_MIN, RETURN_BAND_CM_MAX, st.returnBandCm);
  }
}
