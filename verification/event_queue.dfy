/**
 * The bounded event queue shared by the input drivers (input/encoder_input.c,
 * encoder_input.c, switch_input.c): a static array of eight events used as a
 * ring, with `head`, `tail` and `count` indices, that drops a new event when
 * it is full.
 *
 * The class carries a ghost `contents`, the queued events oldest first, and
 * its operations are stated against `Pushed`, the same queue on values.
 */
module EventQueue {
  import opened Wrap

  /** ENCODER_EVENT_QUEUE_SIZE and SWITCH_EVENT_QUEUE_SIZE */
  const Capacity: int := 8

  /** queue_push on the queued events: append when there is room, otherwise drop `e`. */
  function Pushed<T>(q: seq<T>, e: T): seq<T>
  {
    if |q| < Capacity then q + [e] else q
  }

  /** Pushing `es` one after the other. */
  function PushAll<T>(q: seq<T>, es: seq<T>): seq<T>
    decreases |es|
  {
    if es == [] then q else PushAll(Pushed(q, es[0]), es[1..])
  }

  /**
   * Overflow drops the newest events, never the queued ones: after any run of
   * pushes the queue holds the oldest events, in arrival order, up to its capacity.
   */
  lemma {:induction false} PushAllKeepsOldest<T>(q: seq<T>, es: seq<T>)
    requires |q| <= Capacity
    ensures PushAll(q, es) == (q + es)[..Min(|q| + |es|, Capacity)]
    decreases |es|
  {
    if es == [] {
      assert q + es == q;
    } else {
      var q' := Pushed(q, es[0]);
      PushAllKeepsOldest(q', es[1..]);
      if |q| < Capacity {
        assert q' + es[1..] == q + es;
      } else {
        assert (q' + es[1..])[..Capacity] == q == (q + es)[..Capacity];
      }
    }
  }

  /** The ring slot holding the `k`-th oldest event. */
  function SlotOf(head: int, k: int): (s: int)
    requires 0 <= head < Capacity && 0 <= k
    ensures 0 <= s < Capacity
  {
    (head + k) % Capacity
  }

  /** Within one lap, different positions of the queue sit in different slots. */
  lemma SlotsDistinct(head: int, j: int, k: int)
    requires 0 <= head < Capacity && 0 <= j < k < Capacity
    ensures SlotOf(head, j) != SlotOf(head, k)
  {
  }

  /** Advancing the head by one shifts every position down by one. */
  lemma SlotAfterPop(head: int, k: int)
    requires 0 <= head < Capacity && 0 <= k
    ensures SlotOf((head + 1) % Capacity, k) == SlotOf(head, k + 1)
  {
  }

  /** The slot after the tail is the tail of a queue one event longer. */
  lemma SlotAfterPush(head: int, count: int)
    requires 0 <= head < Capacity && 0 <= count < Capacity
    ensures (SlotOf(head, count) + 1) % Capacity == SlotOf(head, count + 1)
  {
  }

  class Queue<T(0)> {
    const buf: array<T>
    var head: u8
    var tail: u8
    var count: u8
    /** The queued events, oldest first. */
    ghost var contents: seq<T>

    /** count in [0, 8], tail == (head + count) mod 8, and the ring holds `contents` from `head`. */
    ghost predicate Valid()
      reads this, buf
    {
      && buf.Length == Capacity
      && head < Capacity && tail < Capacity && count <= Capacity
      && tail == (head + count) % Capacity
      && |contents| == count
      && forall k :: 0 <= k < count ==> contents[k] == buf[SlotOf(head, k)]
    }

    constructor ()
      ensures Valid() && fresh(buf) && contents == []
    {
      buf := new T[Capacity];
      head, tail, count := 0, 0, 0;
      contents := [];
    }

    /** The queue part of the init functions: all three indices back to 0; the slots keep their old events. */
    method Clear()
      requires buf.Length == Capacity
      modifies this
      ensures Valid() && contents == []
      ensures head == 0 && tail == 0 && count == 0
    {
      head, tail, count := 0, 0, 0;
      contents := [];
    }

    /** queue_push: store at `tail` when there is room, otherwise drop the event. */
    method Push(e: T)
      requires Valid()
      modifies this, buf
      ensures Valid()
      ensures contents == Pushed(old(contents), e)
      ensures old(count) < Capacity ==>
        && buf[..] == old(buf[..])[old(tail) := e]
        && tail == (old(tail) + 1) % Capacity && count == old(count) + 1 && head == old(head)
      ensures old(count) >= Capacity ==> unchanged(this, buf)
    {
      if count < Capacity {
        forall k | 0 <= k < count
          ensures SlotOf(head, k) != tail
        {
          SlotsDistinct(head, k, count);
        }
        ghost var n := count;
        buf[tail] := e;
        SlotAfterPush(head, count);
        tail := (tail + 1) % Capacity;
        count := count + 1;
        contents := contents + [e];
        forall k | 0 <= k < count
          ensures contents[k] == buf[SlotOf(head, k)]
        {
          if k == n {
            assert SlotOf(head, k) == old(tail);
          } else {
            assert contents[k] == old(contents)[k];
          }
        }
      }
    }

    /** encoder_input_pop_event / switch_input_pop_event: the oldest event, or None when empty. */
    method Pop() returns (r: Option<T>)
      requires Valid()
      modifies this
      ensures Valid()
      ensures old(count) == 0 ==> r == None && unchanged(this)
      ensures old(count) > 0 ==>
        && r == Some(old(contents)[0]) && contents == old(contents)[1..]
        && head == (old(head) + 1) % Capacity && count == old(count) - 1 && tail == old(tail)
    {
      if count == 0 {
        return None;
      }
      r := Some(buf[head]);
      var next := (head + 1) % Capacity;
      forall k | 0 <= k < count - 1
        ensures buf[SlotOf(next, k)] == contents[1..][k]
      {
        SlotAfterPop(head, k);
      }
      SlotAfterPop(head, count - 1);
      head := next;
      count := count - 1;
      contents := contents[1..];
    }
  }
}
