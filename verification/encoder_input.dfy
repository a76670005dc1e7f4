/**
 * The rotary encoder driver (input/encoder_input.c): the clock-edge
 * interrupt turns each accepted edge into a CW or CCW event, the 10 ms tick
 * debounces the push switch into PRESSED / RELEASED events, and both feed
 * one eight-event queue that the application drains.
 *
 * Pin reads and HAL_GetTick become parameters of the operations; interrupt
 * masking around the queue is not modelled (the operations are sequential).
 */
module EncoderInput {
  import opened Wrap
  import opened EventQueue
  import opened Debounce

  /** ENCODER_EDGE_GUARD_MS */
  const EdgeGuardMs: int := 2

  /** encoder_event_type_t */
  datatype EventKind = Cw | Ccw | SwPressed | SwReleased

  /** encoder_event_t */
  datatype Event = Event(kind: EventKind, timestampMs: u32, swLevel: u8)

  /** The event a new stable switch level reports: the switch is active low. */
  function SwitchEventKind(level: Level): (k: EventKind)
    ensures k == SwPressed <==> level == 0
    ensures k == SwReleased <==> level == 1
  {
    if level == 0 then SwPressed else SwReleased
  }

  /** The direction of a clock edge: DT low means clockwise. */
  function RotationKind(dtLevel: Level): (k: EventKind)
    ensures k == Cw <==> dtLevel == 0
    ensures k == Ccw <==> dtLevel == 1
  {
    if dtLevel == 0 then Cw else Ccw
  }

  /** The queue after a debounce sample that moved the stable level from `before` to `after`. */
  function AfterSample(q: seq<Event>, before: Level, after: Level, nowMs: u32): seq<Event>
  {
    if after != before then Pushed(q, Event(SwitchEventKind(after), nowMs, after)) else q
  }

  /** A debounced change adds exactly one event, which reports the new level; no change adds none. */
  lemma AfterSampleEvents(q: seq<Event>, before: Level, after: Level, nowMs: u32)
    requires |q| < Capacity
    ensures before == after ==> AfterSample(q, before, after, nowMs) == q
    ensures before != after ==>
      && |AfterSample(q, before, after, nowMs)| == |q| + 1
      && AfterSample(q, before, after, nowMs)[|q|].swLevel == after
      && (AfterSample(q, before, after, nowMs)[|q|].kind == SwPressed <==> after == 0)
  {
  }

  /** The static state of input/encoder_input.c. */
  class Encoder {
    const sw: Debouncer
    const queue: Queue<Event>
    var lastSwSampleMs: u32
    var lastClkEdgeMs: u32

    ghost predicate Valid()
      reads this, queue, queue.buf
    {
      queue.Valid()
    }

    constructor (swLevel: Level, nowMs: u32)
      ensures Valid() && fresh(sw) && fresh(queue) && fresh(queue.buf)
      ensures queue.contents == [] && sw.Current() == Seeded(swLevel)
      ensures lastSwSampleMs == nowMs && lastClkEdgeMs == 0
    {
      sw := new Debouncer(swLevel);
      queue := new Queue<Event>();
      lastSwSampleMs := nowMs;
      lastClkEdgeMs := 0;
    }

    /** encoder_input_init: seed the debouncer at the current switch level and empty the queue. */
    method Init(swLevel: Level, nowMs: u32)
      requires queue.buf.Length == Capacity
      modifies this, sw, queue
      ensures Valid() && queue.contents == [] && sw.Current() == Seeded(swLevel)
      ensures lastSwSampleMs == nowMs && lastClkEdgeMs == 0
    {
      sw.Seed(swLevel);
      lastSwSampleMs := nowMs;
      lastClkEdgeMs := 0;
      queue.Clear();
    }

    /**
     * encoder_input_tick: at most one switch sample per 10 ms; a sample that
     * changes the stable level enqueues exactly one PRESSED or RELEASED event.
     */
    method Tick(nowMs: u32, swLevel: Level)
      requires Valid()
      modifies this, sw, queue, queue.buf
      ensures Valid()
      ensures !SampleDue(nowMs, old(lastSwSampleMs)) ==>
        unchanged(this, sw, queue, queue.buf)
      ensures SampleDue(nowMs, old(lastSwSampleMs)) ==>
        && lastSwSampleMs == nowMs && lastClkEdgeMs == old(lastClkEdgeMs)
        && sw.Current() == Step(old(sw.Current()), swLevel)
        && queue.contents == AfterSample(old(queue.contents), old(sw.stable), sw.stable, nowMs)
    {
      if Sub32(nowMs, lastSwSampleMs) < SamplePeriodMs {
        return;
      }
      lastSwSampleMs := nowMs;
      var changed := sw.Sample(swLevel);
      if changed {
        queue.Push(Event(SwitchEventKind(sw.stable), nowMs, sw.stable));
      }
    }

    /**
     * encoder_input_on_clk_edge_isr: an edge less than 2 ms after the last
     * accepted one is ignored; otherwise it enqueues CW (DT low) or CCW,
     * carrying the debounced switch level.
     */
    method OnClkEdge(nowMs: u32, dtLevel: Level)
      requires Valid()
      modifies this, queue, queue.buf
      ensures Valid()
      ensures Sub32(nowMs, old(lastClkEdgeMs)) < EdgeGuardMs ==> unchanged(this, queue, queue.buf)
      ensures Sub32(nowMs, old(lastClkEdgeMs)) >= EdgeGuardMs ==>
        && lastClkEdgeMs == nowMs && lastSwSampleMs == old(lastSwSampleMs)
        && queue.contents == Pushed(old(queue.contents), Event(RotationKind(dtLevel), nowMs, sw.stable))
    {
      if Sub32(nowMs, lastClkEdgeMs) < EdgeGuardMs {
        return;
      }
      lastClkEdgeMs := nowMs;
      queue.Push(Event(RotationKind(dtLevel), nowMs, sw.stable));
    }

    /**
     * encoder_input_pop_event: with no destination (`hasDestination` false,
     * a NULL pointer in C) or an empty queue, None and no change; otherwise
     * the oldest event.
     */
    method PopEvent(hasDestination: bool) returns (r: Option<Event>)
      requires Valid()
      modifies queue
      ensures Valid()
      ensures !hasDestination || old(queue.contents) == [] ==> r == None && unchanged(queue)
      ensures hasDestination && old(queue.contents) != [] ==>
        r == Some(old(queue.contents)[0]) && queue.contents == old(queue.contents)[1..]
    {
      if !hasDestination {
        return None;
      }
      r := queue.Pop();
    }
  }
}
