/**
 * The main light's PWM driver (bsp/main_led.c): a percentage is turned into
 * a timer compare value, and an enable gate forces the output to 0 while
 * keeping the requested percentage.
 *
 * The timer handle is an `Option<Timer>` (None for NULL) whose auto-reload
 * value the driver reads; the compare register the driver writes is a ghost
 * field; the result of HAL_TIM_PWM_Start is a parameter.
 */
module MainLed {
  import opened Wrap

  /** The timer behind the handle: its auto-reload value (ARR) and output channel. */
  datatype Timer = Timer(arr: u32, channel: u32)

  /** main_led_status_t */
  datatype Status = Ok | NotInit | NullPtr | InvalidPercent | HalStartError

  /**
   * apply_percent as written: `(arr + 1U) * percent` is computed in 32 bits,
   * so both the increment and the product wrap before the division.
   */
  function CompareAsWritten(arr: u32, percent: u8): (pulse: u32)
    ensures pulse <= arr
  {
    var p := Cast32(Cast32(arr + 1) * percent) / 100;
    if p > arr then arr else p
  }

  /** The compare value apply_percent is meant to produce: the share `percent` of the period, at most ARR. */
  function Compare(arr: u32, percent: u8): (pulse: u32)
  {
    var p := (arr + 1) * percent / 100;
    if p > arr then arr else p
  }

  /** 0 % gives compare 0, 100 % gives the full period ARR, and no percentage exceeds ARR. */
  lemma CompareBounds(arr: u32, percent: u8)
    requires percent <= 100
    ensures Compare(arr, percent) <= arr
    ensures percent == 0 ==> Compare(arr, 0) == 0
    ensures percent == 100 ==> Compare(arr, 100) == arr
    ensures percent < 100 ==> Compare(arr, percent) == (arr + 1) * percent / 100
  {
    if percent < 100 {
      MulMonotone(percent, 99, arr + 1);
    }
  }

  /** A brighter setting never gives a smaller compare value. */
  lemma CompareMonotone(arr: u32, p1: u8, p2: u8)
    requires p1 <= p2
    ensures Compare(arr, p1) <= Compare(arr, p2)
  {
    var x1, x2 := (arr + 1) * p1, (arr + 1) * p2;
    MulMonotone(p1, p2, arr + 1);
    assert x1 / 100 <= x2 / 100;
  }

  /** The written formula is the intended one whenever the 32-bit product cannot wrap. */
  lemma CompareAsWrittenAgrees(arr: u32, percent: u8)
    requires percent <= 100 && (arr + 1) * 100 < U32_LIMIT
    ensures CompareAsWritten(arr, percent) == Compare(arr, percent)
  {
    MulMonotone(percent, 100, arr + 1);
  }

  /** With a 32-bit timer at ARR 0xFFFFFFFF, 100 % as written switches the light off instead of full on. */
  lemma CompareAsWrittenWrapsAtFullScale()
    ensures CompareAsWritten(0xFFFF_FFFF, 100) == 0
    ensures Compare(0xFFFF_FFFF, 100) == 0xFFFF_FFFF
  {
  }

  /** The module statics of bsp/main_led.c, and the compare register of the channel. */
  class Driver {
    var tim: Option<Timer>
    var started: bool
    var enabled: bool
    var percent: u8
    ghost var compare: u32

    ghost predicate Valid()
      reads this
    {
      && percent <= 100
      && (started ==> tim.Some?)
    }

    constructor ()
      ensures Valid() && tim == None && !started && !enabled && percent == 0
    {
      tim := None;
      started, enabled, percent := false, false, 0;
    }

    /**
     * apply_percent: NOT_INIT without a timer, otherwise write the compare
     * value as the 32-bit arithmetic computes it; that is the intended share
     * of the period whenever (ARR + 1) * 100 fits in 32 bits.
     */
    method ApplyPercent(p: u8) returns (status: Status)
      modifies this
      ensures tim == old(tim) && started == old(started) && enabled == old(enabled) && percent == old(percent)
      ensures tim.None? ==> status == NotInit && compare == old(compare)
      ensures tim.Some? ==> status == Ok && compare == CompareAsWritten(tim.value.arr, p) && compare <= tim.value.arr
      ensures tim.Some? && p <= 100 && (tim.value.arr + 1) * 100 < U32_LIMIT ==> compare == Compare(tim.value.arr, p)
    {
      if tim.None? {
        return NotInit;
      }
      compare := CompareAsWritten(tim.value.arr, p);
      if p <= 100 && (tim.value.arr + 1) * 100 < U32_LIMIT {
        CompareAsWrittenAgrees(tim.value.arr, p);
      }
      status := Ok;
    }

    /** main_led_init: remember the timer; not started, disabled, 0 %. */
    method Init(htim: Option<Timer>)
      modifies this
      ensures Valid() && tim == htim && !started && !enabled && percent == 0
      ensures compare == old(compare)
    {
      tim := htim;
      started := false;
      enabled := false;
      percent := 0;
    }

    /** main_led_start: NOT_INIT without a timer, HAL_START_ERROR if the PWM does not start, else started at 0 %. */
    method Start(halStartOk: bool) returns (status: Status)
      requires Valid()
      modifies this
      ensures Valid() && tim == old(tim) && enabled == old(enabled) && percent == old(percent)
      ensures tim.None? ==> status == NotInit && unchanged(this)
      ensures tim.Some? && !halStartOk ==> status == HalStartError && unchanged(this)
      ensures tim.Some? && halStartOk ==> status == Ok && started && compare == 0
    {
      if tim.None? {
        return NotInit;
      }
      if !halStartOk {
        return HalStartError;
      }
      started := true;
      status := ApplyPercent(0);
    }

    /**
     * main_led_set_percent: INVALID_PERCENT above 100 and NOT_INIT before
     * init and start, both without change; otherwise store the percentage and
     * drive it, or 0 while disabled.
     */
    method SetPercent(p: u8) returns (status: Status)
      requires Valid()
      modifies this
      ensures Valid() && tim == old(tim) && started == old(started) && enabled == old(enabled)
      ensures p > 100 ==> status == InvalidPercent && unchanged(this)
      ensures p <= 100 && !started ==> status == NotInit && unchanged(this)
      ensures p <= 100 && started ==>
        && status == Ok && percent == p
        && compare == (if enabled then CompareAsWritten(tim.value.arr, p) else 0)
      ensures p <= 100 && started && enabled && (tim.value.arr + 1) * 100 < U32_LIMIT ==> compare == Compare(tim.value.arr, p)
    {
      if p > 100 {
        return InvalidPercent;
      }
      if tim.None? || !started {
        return NotInit;
      }
      percent := p;
      if !enabled {
        status := ApplyPercent(0);
        return;
      }
      status := ApplyPercent(percent);
    }

    /**
     * main_led_set_enabled: NOT_INIT before init and start; otherwise set the
     * gate and drive 0 or the stored percentage, which is kept either way.
     */
    method SetEnabled(on: u8) returns (status: Status)
      requires Valid()
      modifies this
      ensures Valid() && tim == old(tim) && started == old(started) && percent == old(percent)
      ensures !started ==> status == NotInit && unchanged(this)
      ensures started ==>
        && status == Ok && enabled == (on != 0)
        && compare == (if on != 0 then CompareAsWritten(tim.value.arr, percent) else 0)
      ensures started && on != 0 && (tim.value.arr + 1) * 100 < U32_LIMIT ==> compare == Compare(tim.value.arr, percent)
    {
      if tim.None? || !started {
        return NotInit;
      }
      enabled := on != 0;
      if !enabled {
        status := ApplyPercent(0);
        return;
      }
      status := ApplyPercent(percent);
    }
  }
}
