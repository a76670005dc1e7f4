/**
 * The earlier revision of the encoder driver (encoder_input.c). Its queue,
 * init, 10 ms switch debouncer and pop are the same code as in
 * input/encoder_input.c, so `EncoderInput.Encoder` models them for both
 * revisions. The one behavioural difference is the clock-edge handler:
 * the switch level it attaches to a rotation event is read raw from the pin,
 * not taken from the debouncer.
 */
module LegacyEncoderInput {
  import opened Wrap
  import opened EventQueue
  import opened Debounce
  import opened EncoderInput

  /**
   * encoder_input_on_clk_edge_isr of the earlier revision: the same 2 ms
   * edge guard and direction rule, but the event carries `swRawLevel`, the
   * undebounced switch pin.
   */
  method OnClkEdge(enc: Encoder, nowMs: u32, dtLevel: Level, swRawLevel: Level)
    requires enc.Valid()
    modifies enc, enc.queue, enc.queue.buf
    ensures enc.Valid()
    ensures Sub32(nowMs, old(enc.lastClkEdgeMs)) < EdgeGuardMs ==> unchanged(enc, enc.queue, enc.queue.buf)
    ensures Sub32(nowMs, old(enc.lastClkEdgeMs)) >= EdgeGuardMs ==>
      && enc.lastClkEdgeMs == nowMs && enc.lastSwSampleMs == old(enc.lastSwSampleMs)
      && enc.queue.contents == Pushed(old(enc.queue.contents), Event(RotationKind(dtLevel), nowMs, swRawLevel))
  {
    if Sub32(nowMs, enc.lastClkEdgeMs) < EdgeGuardMs {
      return;
    }
    enc.lastClkEdgeMs := nowMs;
    enc.queue.Push(Event(RotationKind(dtLevel), nowMs, swRawLevel));
  }

  /**
   * The two revisions disagree exactly when the pin and the debounced level
   * differ, e.g. during the first 30 ms of a press: the newer driver reports
   * the switch as still released.
   */
  lemma RevisionsDifferOnBounce(q: seq<Event>, nowMs: u32, dtLevel: Level, stable: Level, raw: Level)
    requires |q| < Capacity
    ensures Pushed(q, Event(RotationKind(dtLevel), nowMs, stable)) == Pushed(q, Event(RotationKind(dtLevel), nowMs, raw))
      <==> stable == raw
  {
    if stable != raw {
      assert Pushed(q, Event(RotationKind(dtLevel), nowMs, stable))[|q|].swLevel != Pushed(q, Event(RotationKind(dtLevel), nowMs, raw))[|q|].swLevel;
    }
  }
}
