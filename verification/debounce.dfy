/**
 * The three-sample switch debouncer of the input drivers: `sw_state_t` in
 * input/encoder_input.c and encoder_input.c, `switch_state_t` with
 * `process_switch` in switch_input.c. Each sample that differs from the
 * candidate level restarts the count; the stable level follows the candidate
 * once three agreeing samples have been seen.
 *
 * `Step` is the debouncer on values; the class `Debouncer` updates its fields
 * in place as the C does and is proved to follow `Step`.
 */
module Debounce {
  import opened Wrap

  /** ENCODER_SW_SAMPLE_MS and SWITCH_SAMPLE_PERIOD_MS */
  const SamplePeriodMs: int := 10
  /** ENCODER_SW_DEBOUNCE_TICKS and SWITCH_DEBOUNCE_TICKS */
  const DebounceTicks: int := 3

  /** A pin level as read by the drivers: 1 for GPIO_PIN_SET, else 0. */
  type Level = x: int | 0 <= x <= 1

  datatype DebounceState = DebounceState(stable: Level, candidate: Level, ticks: u8)

  /** A sample period has passed since `last`, in wrapping 32-bit milliseconds. */
  predicate SampleDue(nowMs: u32, lastMs: u32)
  {
    Sub32(nowMs, lastMs) >= SamplePeriodMs
  }

  /** init_switch_state: stable and candidate at the current level, no agreeing samples yet. */
  function Seeded(level: Level): (d: DebounceState)
    ensures d.stable == level && d.candidate == level && d.ticks == 0
  {
    DebounceState(level, level, 0)
  }

  /** One sample of `level` (the body of process_switch / encoder_input_tick). */
  function Step(d: DebounceState, level: Level): (d': DebounceState)
    ensures d'.candidate == level
    ensures d.ticks <= DebounceTicks ==> d'.ticks <= DebounceTicks
    ensures d'.stable != d.stable ==> d.candidate == level && d'.stable == level && d'.ticks >= DebounceTicks
  {
    if level != d.candidate then
      DebounceState(d.stable, level, 1)
    else
      var t := if d.ticks < DebounceTicks then d.ticks + 1 else d.ticks;
      if t >= DebounceTicks && d.stable != d.candidate then
        DebounceState(d.candidate, d.candidate, t)
      else
        DebounceState(d.stable, d.candidate, t)
  }

  /** Feeding the samples `ls` in order. */
  function Run(d: DebounceState, ls: seq<Level>): DebounceState
    decreases |ls|
  {
    if ls == [] then d else Run(Step(d, ls[0]), ls[1..])
  }

  /** How many of the newest samples of `h` equal `l`. */
  function Trailing(h: seq<Level>, l: Level): (n: nat)
    ensures n <= |h|
  {
    if h == [] || h[|h| - 1] != l then 0 else Trailing(h[..|h| - 1], l) + 1
  }

  /** The tick counter never exceeds the run of newest samples that agree with the candidate. */
  ghost predicate Agrees(d: DebounceState, h: seq<Level>)
  {
    d.ticks <= Trailing(h, d.candidate)
  }

  /** The newest `n` samples all equal `l` when the trailing run is at least `n`. */
  lemma {:induction false} TrailingMeans(h: seq<Level>, l: Level, n: nat)
    requires n <= Trailing(h, l)
    ensures forall k :: |h| - n <= k < |h| ==> h[k] == l
  {
    if n > 0 {
      TrailingMeans(h[..|h| - 1], l, n - 1);
    }
  }

  /**
   * A sample keeps the agreement invariant, and the stable level moves only
   * to the level of the newest three samples, which all agree.
   */
  lemma StepAgrees(d: DebounceState, h: seq<Level>, level: Level)
    requires Agrees(d, h)
    ensures Agrees(Step(d, level), h + [level])
    ensures Step(d, level).stable != d.stable ==>
      |h| >= 2 && h[|h| - 2] == level && h[|h| - 1] == level
  {
    var h' := h + [level];
    assert h'[..|h'| - 1] == h;
    var d' := Step(d, level);
    if d'.stable != d.stable {
      TrailingMeans(h', level, DebounceTicks);
      assert h'[|h'| - 3] == h[|h| - 2];
    }
  }

  /** Three agreeing samples always settle the stable level on them, whatever the state. */
  lemma ThreeAgreeingSettle(d: DebounceState, level: Level)
    ensures Run(d, [level, level, level]).stable == level
  {
    var d1 := Step(d, level);
    var d2 := Step(d1, level);
    assert [level, level, level][1..] == [level, level];
    assert [level, level][1..] == [level];
    assert Run(d, [level, level, level]) == Run(d1, [level, level]);
    assert Run(d1, [level, level]) == Run(d2, [level]);
    assert Run(d2, [level]) == Run(Step(d2, level), []);
  }

  /** switch_state_t / sw_state_t: the debouncer's three fields, updated in place. */
  class Debouncer {
    var stable: Level
    var candidate: Level
    var ticks: u8

    function Current(): DebounceState
      reads this
    {
      DebounceState(stable, candidate, ticks)
    }

    constructor (level: Level)
      ensures Current() == Seeded(level)
    {
      stable, candidate, ticks := level, level, 0;
    }

    /** init_switch_state / the switch part of encoder_input_init. */
    method Seed(level: Level)
      modifies this
      ensures Current() == Seeded(level)
    {
      stable := level;
      candidate := level;
      ticks := 0;
    }

    /** process_switch without the push: one sample; `changed` reports a new stable level. */
    method Sample(level: Level) returns (changed: bool)
      modifies this
      ensures Current() == Step(old(Current()), level)
      ensures changed <==> stable != old(stable)
    {
      changed := false;
      if level != candidate {
        candidate := level;
        ticks := 1;
        return;
      }
      if ticks < DebounceTicks {
        ticks := ticks + 1;
      }
      if ticks >= DebounceTicks && stable != candidate {
        stable := candidate;
        changed := true;
      }
    }
  }
}
