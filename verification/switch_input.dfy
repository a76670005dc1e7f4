/**
 * The push-button driver (switch_input.c): two debounced switches, BUTTON
 * and SW2, sampled together every 10 ms, feeding one eight-event queue.
 * Pin reads and HAL_GetTick become parameters.
 */
module SwitchInput {
  import opened Wrap
  import opened EventQueue
  import opened Debounce

  /** switch_input_id_t */
  datatype SwitchId = Button | Sw2

  /** switch_input_event_t */
  datatype SwitchEvent = SwitchEvent(input: SwitchId, pressed: u8, level: u8)

  /** The event queue_push builds: pressed is 1 exactly for level 0 (active low). */
  function MakeEvent(input: SwitchId, level: Level): (e: SwitchEvent)
    ensures e.input == input && e.level == level
    ensures e.pressed == 1 <==> level == 0
    ensures e.pressed <= 1
  {
    SwitchEvent(input, if level == 0 then 1 else 0, level)
  }

  /** The queue after one switch was sampled: one event when its stable level moved, none otherwise. */
  function AfterProcess(q: seq<SwitchEvent>, input: SwitchId, before: Level, after: Level): seq<SwitchEvent>
  {
    if after != before then Pushed(q, MakeEvent(input, after)) else q
  }

  /**
   * With room for both, a tick where both switches changed enqueues the
   * BUTTON event first and the SW2 event right after it.
   */
  lemma ButtonBeforeSw2(q: seq<SwitchEvent>, b0: Level, b1: Level, s0: Level, s1: Level)
    requires |q| + 2 <= Capacity && b0 != b1 && s0 != s1
    ensures AfterProcess(AfterProcess(q, Button, b0, b1), Sw2, s0, s1)
      == q + [MakeEvent(Button, b1), MakeEvent(Sw2, s1)]
  {
  }

  /** The static state of switch_input.c. */
  class Switches {
    const button: Debouncer
    const sw2: Debouncer
    const queue: Queue<SwitchEvent>
    var lastSampleMs: u32

    ghost predicate Valid()
      reads this, queue, queue.buf
    {
      queue.Valid() && button != sw2
    }

    constructor (buttonLevel: Level, sw2Level: Level, nowMs: u32)
      ensures Valid() && fresh(button) && fresh(sw2) && fresh(queue) && fresh(queue.buf)
      ensures button.Current() == Seeded(buttonLevel) && sw2.Current() == Seeded(sw2Level)
      ensures queue.contents == [] && lastSampleMs == nowMs
    {
      button := new Debouncer(buttonLevel);
      sw2 := new Debouncer(sw2Level);
      queue := new Queue<SwitchEvent>();
      lastSampleMs := nowMs;
    }

    /** switch_input_init: seed both debouncers at the current levels and empty the queue. */
    method Init(buttonLevel: Level, sw2Level: Level, nowMs: u32)
      requires queue.buf.Length == Capacity && button != sw2
      modifies this, button, sw2, queue
      ensures Valid()
      ensures button.Current() == Seeded(buttonLevel) && sw2.Current() == Seeded(sw2Level)
      ensures queue.contents == [] && lastSampleMs == nowMs
    {
      button.Seed(buttonLevel);
      sw2.Seed(sw2Level);
      lastSampleMs := nowMs;
      queue.Clear();
    }

    /** process_switch: one sample of one switch; a new stable level enqueues exactly one event. */
    method ProcessSwitch(state: Debouncer, level: Level, input: SwitchId)
      requires Valid() && (state == button || state == sw2)
      modifies state, queue, queue.buf
      ensures Valid()
      ensures state.Current() == Step(old(state.Current()), level)
      ensures queue.contents == AfterProcess(old(queue.contents), input, old(state.stable), state.stable)
    {
      var changed := state.Sample(level);
      if changed {
        queue.Push(MakeEvent(input, state.stable));
      }
    }

    /** switch_input_tick: every 10 ms, sample BUTTON and then SW2. */
    method Tick(nowMs: u32, buttonLevel: Level, sw2Level: Level)
      requires Valid()
      modifies this, button, sw2, queue, queue.buf
      ensures Valid()
      ensures !SampleDue(nowMs, old(lastSampleMs)) ==> unchanged(this, button, sw2, queue, queue.buf)
      ensures SampleDue(nowMs, old(lastSampleMs)) ==>
        && lastSampleMs == nowMs
        && button.Current() == Step(old(button.Current()), buttonLevel)
        && sw2.Current() == Step(old(sw2.Current()), sw2Level)
        && queue.contents == AfterProcess(
             AfterProcess(old(queue.contents), Button, old(button.stable), button.stable),
             Sw2, old(sw2.stable), sw2.stable)
    {
      if Sub32(nowMs, lastSampleMs) < SamplePeriodMs {
        return;
      }
      lastSampleMs := nowMs;
      ProcessSwitch(button, buttonLevel, Button);
      ProcessSwitch(sw2, sw2Level, Sw2);
    }

    /** switch_input_pop_event: None with no destination or an empty queue, otherwise the oldest event. */
    method PopEvent(hasDestination: bool) returns (r: Option<SwitchEvent>)
      requires Valid()
      modifies queue
      ensures Valid()
      ensures !hasDestination || old(queue.contents) == [] ==> r == None && unchanged(queue)
      ensures hasDestination && old(queue.contents) != [] ==>
        r == Some(old(queue.contents)[0]) && queue.contents == old(queue.contents)[1..]
    {
      if !hasDestination {
        return None;
      }
      r := queue.Pop();
    }
  }
}
