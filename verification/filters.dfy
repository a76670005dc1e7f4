/**
 * Sensor filters (support/filter_utils.c): a moving average over a ring
 * buffer of up to 16 slots with a running sum (light sensor), and a
 * round-robin median-of-3 (ultrasonic distance).
 *
 * Both filters carry a ghost `history` of every sample pushed since `Init`,
 * so that their outputs can be stated in terms of the samples they saw.
 */
module Filters {
  import opened Wrap

  /** FILTER_MA_U16_MAX_WINDOW */
  const MaxWindow: int := 16

  /** The sum of a sequence, built from the back so that appending is one step. */
  function Sum(s: seq<int>): int
  {
    if s == [] then 0 else Sum(s[..|s| - 1]) + s[|s| - 1]
  }

  /** The last `n` elements of `h`. */
  function Last<T>(h: seq<T>, n: nat): seq<T>
    requires n <= |h|
  {
    h[|h| - n..]
  }

  lemma {:induction false} SumConcat(a: seq<int>, b: seq<int>)
    ensures Sum(a + b) == Sum(a) + Sum(b)
  {
    if b == [] {
      assert a + b == a;
    } else {
      assert (a + b)[..|a + b| - 1] == a + b[..|b| - 1];
      SumConcat(a, b[..|b| - 1]);
    }
  }

  /** Dropping the first element subtracts it from the sum. */
  lemma SumDropFirst(s: seq<int>)
    requires s != []
    ensures Sum(s[1..]) == Sum(s) - s[0]
  {
    SumConcat([s[0]], s[1..]);
    assert [s[0]] + s[1..] == s;
    assert Sum([s[0]]) == Sum([]) + s[0];
  }

  lemma {:induction false} SumBound(s: seq<u16>)
    ensures 0 <= Sum(s) <= |s| * 0xFFFF
  {
    if s != [] {
      SumBound(s[..|s| - 1]);
    }
  }

  lemma DivBound(s: int, c: int)
    requires 0 < c && 0 <= s <= c * 0xFFFF
    ensures 0 <= s / c <= 0xFFFF
  {
  }

  /** `(i + 1) % w` for an index inside the window: the next slot, wrapping to 0. */
  function Advance(i: int, w: int): (r: int)
    requires 0 <= i < w
    ensures r == if i + 1 < w then i + 1 else 0
  {
    (i + 1) % w
  }

  /** Filling the slot after the used prefix extends the prefix. */
  lemma NotFullStep(b: seq<u16>, c: nat, s: u16)
    requires c < |b|
    ensures b[c := s][..c + 1] == b[..c] + [s]
    ensures Sum(b[..c] + [s]) == Sum(b[..c]) + s
  {
    SumConcat(b[..c], [s]);
    assert Sum([s]) == Sum([]) + s;
  }

  /**
   * Overwriting the oldest slot `i` of a full ring of width `w` and advancing
   * the index turns the oldest-first view into its tail plus the new sample.
   */
  lemma RingStep<T>(b: seq<T>, w: nat, i: nat, s: T)
    requires 1 <= w <= |b| && i < w
    ensures b[i := s][Advance(i, w)..w] + b[i := s][..Advance(i, w)] == (b[i..w] + b[..i])[1..] + [s]
  {
    var b' := b[i := s];
    var v := b[i..w] + b[..i];
    assert b[i..w] == [b[i]] + b[i + 1..w];
    assert v[1..] == b[i + 1..w] + b[..i];
    if i + 1 < w {
      assert b'[i + 1..w] == b[i + 1..w];
      assert b'[..i + 1] == b[..i] + [s];
    } else {
      assert b'[0..w] + b'[..0] == b[..i] + [s];
    }
  }

  /** `m` is one of `a`, `b`, `c` and the other two lie on either side of it. */
  predicate IsMedianOf(m: int, a: int, b: int, c: int)
  {
    || (m == a && (b <= m <= c || c <= m <= b))
    || (m == b && (a <= m <= c || c <= m <= a))
    || (m == c && (a <= m <= b || b <= m <= a))
  }

  /** median3_u32: three compare-and-swap steps, then the middle value. */
  function Median3Of(a: u32, b: u32, c: u32): (m: u32)
    ensures IsMedianOf(m, a, b, c)
  {
    var a1 := if a > b then b else a;
    var b1 := if a > b then a else b;
    var b2 := if b1 > c then c else b1;
    var a3 := a1;
    var b3 := if a3 > b2 then a3 else b2;
    b3
  }

  /** The median is a function of the three values only, so rotating them changes nothing. */
  lemma MedianIsUnique(m1: int, m2: int, a: int, b: int, c: int)
    requires IsMedianOf(m1, a, b, c) && IsMedianOf(m2, a, b, c)
    ensures m1 == m2
  {
  }

  lemma MedianRotations(a: u32, b: u32, c: u32)
    ensures Median3Of(a, b, c) == Median3Of(b, c, a) == Median3Of(c, a, b)
  {
    MedianIsUnique(Median3Of(a, b, c), Median3Of(b, c, a), a, b, c);
    MedianIsUnique(Median3Of(a, b, c), Median3Of(c, a, b), a, b, c);
  }

  /** The filled slots of a ring of width `w`, oldest first. */
  function RingView(buf: seq<u16>, w: int, c: int, i: int): seq<u16>
    requires 0 <= i <= w <= |buf| && 0 <= c <= w
  {
    if c < w then buf[..c] else buf[i..w] + buf[..i]
  }

  /**
   * The moving-average state: the ring holds the last min(n, w) samples of
   * the history oldest first, and the running sum is their sum.
   */
  ghost predicate RingInv(buf: seq<u16>, w: int, c: int, i: int, total: int, h: seq<u16>)
  {
    && |buf| == MaxWindow
    && 1 <= w <= MaxWindow
    && 0 <= c <= w
    && 0 <= i < w
    && (c < w ==> i == c)
    && c == Min(|h|, w)
    && RingView(buf, w, c, i) == Last(h, c)
    && total == Sum(Last(h, c))
    && total <= c * 0xFFFF
  }

  /** Appending a sample adds it to the sum of the last `c` samples. */
  lemma LastSumStep(h: seq<u16>, c: nat, s: u16)
    requires 0 < c <= |h| + 1
    ensures Sum(Last(h + [s], c)) == Sum(Last(h + [s], c)[..c - 1]) + s
    ensures Sum(Last(h + [s], c)) <= c * 0xFFFF
  {
    var l := Last(h + [s], c);
    SumConcat(l[..c - 1], [s]);
    assert l[..c - 1] + [s] == l;
    assert Sum([s]) == Sum([]) + s;
    SumBound(l);
  }

  /** A push while the window is still filling keeps the ring invariant. */
  lemma RingPushFilling(buf: seq<u16>, w: int, c: int, i: int, total: int, h: seq<u16>, s: u16, buf': seq<u16>)
    requires RingInv(buf, w, c, i, total, h) && c < w && buf' == buf[i := s]
    ensures RingInv(buf', w, c + 1, Advance(i, w), total + s, h + [s])
  {
    var h' := h + [s];
    NotFullStep(buf, c, s);
    assert Last(h', c + 1) == Last(h, c) + [s];
    assert Last(h', c + 1)[..c] == Last(h, c);
    LastSumStep(h, c + 1, s);
    if c + 1 == w {
      assert RingView(buf[i := s], w, c + 1, Advance(i, w)) == buf[i := s][..w];
    }
  }

  /** A push into a full window evicts the oldest sample and keeps the ring invariant. */
  lemma RingPushFull(buf: seq<u16>, w: int, c: int, i: int, total: int, h: seq<u16>, s: u16, buf': seq<u16>)
    requires RingInv(buf, w, c, i, total, h) && c == w && buf' == buf[i := s]
    ensures 0 <= total - buf[i]
    ensures RingInv(buf', w, c, Advance(i, w), total - buf[i] + s, h + [s])
  {
    var h' := h + [s];
    RingStep(buf, w, i, s);
    var win := RingView(buf, w, c, i);
    SumDropFirst(win);
    SumBound(win[1..]);
    assert win[0] == buf[i];
    assert Last(h', c) == win[1..] + [s];
    assert Last(h', c)[..c - 1] == win[1..];
    LastSumStep(h, c, s);
  }

  /** filter_moving_average_u16_t */
  class MovingAverage {
    const buffer: array<u16>
    var sum: u32
    var windowSize: u8
    var count: u8
    var index: u8
    /** Every sample pushed since the last Init. */
    ghost var history: seq<u16>

    ghost predicate Valid()
      reads this, buffer
    {
      buffer.Length == MaxWindow && RingInv(buffer[..], windowSize, count, index, sum, history)
    }

    constructor (requestedWindow: u8)
      ensures Valid() && fresh(buffer) && history == []
      ensures windowSize == (if requestedWindow == 0 || requestedWindow > MaxWindow then 1 else requestedWindow)
    {
      buffer := new u16[MaxWindow];
      new;
      Init(requestedWindow);
    }

    /** filter_moving_average_u16_init */
    method Init(requestedWindow: u8)
      requires buffer.Length == MaxWindow
      modifies this, buffer
      ensures Valid() && history == []
      ensures windowSize == (if requestedWindow == 0 || requestedWindow > MaxWindow then 1 else requestedWindow)
      ensures sum == 0 && count == 0 && index == 0
      ensures forall k :: 0 <= k < MaxWindow ==> buffer[k] == 0
    {
      var i := 0;
      while i < MaxWindow
        modifies buffer
        invariant 0 <= i <= MaxWindow
        invariant forall k :: 0 <= k < i ==> buffer[k] == 0
      {
        buffer[i] := 0;
        i := i + 1;
      }
      var w := requestedWindow;
      if w == 0 || w > MaxWindow {
        w := 1;
      }
      sum := 0;
      windowSize := w;
      count := 0;
      index := 0;
      history := [];
    }

    /** filter_moving_average_u16_push: returns the floored mean of the last min(n, window) samples. */
    method Push(sample: u16) returns (mean: u16)
      requires Valid()
      modifies this, buffer
      ensures Valid() && windowSize == old(windowSize)
      ensures history == old(history) + [sample]
      ensures buffer[..] == old(buffer[..])[old(index) := sample]
      ensures index == Advance(old(index), windowSize)
      ensures old(count) < windowSize ==> count == old(count) + 1 && sum == old(sum) + sample
      ensures old(count) == windowSize ==> count == windowSize && sum == old(sum) - old(buffer[index]) + sample
      ensures count == Min(|history|, windowSize) && count > 0
      ensures mean == Sum(Last(history, count)) / count
    {
      var i := index;
      var w := windowSize;
      ghost var b, c, t, h := buffer[..], count, sum, history;
      if count < w {
        buffer[i] := sample;
        sum := sum + sample;
        count := count + 1;
        assert buffer[..] == b[i := sample];
        RingPushFilling(b, w, c, i, t, h, sample, buffer[..]);
      } else {
        RingPushFull(b, w, c, i, t, h, sample, b[i := sample]);
        sum := sum - buffer[i];
        buffer[i] := sample;
        sum := sum + sample;
        assert buffer[..] == b[i := sample];
      }
      index := Advance(i, w);
      history := h + [sample];
      DivBound(sum, count);
      mean := sum / count;
    }

    /** filter_moving_average_u16_get: 0 before any sample, otherwise the floored mean. */
    function Get(): (r: u16)
      reads this, buffer
      requires Valid()
      ensures count == 0 ==> r == 0
      ensures count > 0 ==> r == Sum(Last(history, count)) / count
    {
      if count == 0 then 0 else DivBound(sum, count); sum / count
    }

    /** filter_moving_average_u16_is_ready: the window has been filled. */
    function IsReady(): (r: bool)
      reads this, buffer
      requires Valid()
      ensures r <==> |history| >= windowSize
    {
      count >= windowSize
    }
  }

  /** The filled slots of the three-slot ring, oldest first. */
  function TripleView(buf: seq<u32>, c: int, i: int): seq<u32>
    requires |buf| == 3 && 0 <= i <= 3 && 0 <= c <= 3
  {
    if c < 3 then buf[..c] else buf[i..] + buf[..i]
  }

  /** The median filter's state: the ring holds the last min(n, 3) samples, oldest first. */
  ghost predicate TripleInv(buf: seq<u32>, c: int, i: int, h: seq<u32>)
  {
    && |buf| == 3
    && 0 <= c <= 3
    && 0 <= i < 3
    && (c < 3 ==> i == c)
    && c == Min(|h|, 3)
    && TripleView(buf, c, i) == Last(h, c)
  }

  /** One push keeps the median filter's invariant. */
  lemma TriplePush(buf: seq<u32>, c: int, i: int, h: seq<u32>, x: u32, buf': seq<u32>)
    requires TripleInv(buf, c, i, h) && buf' == buf[i := x]
    ensures TripleInv(buf', Min(c + 1, 3), Advance(i, 3), h + [x])
  {
    var h' := h + [x];
    if c < 3 {
      assert buf'[..c + 1] == buf[..c] + [x];
      assert Last(h', c + 1) == Last(h, c) + [x];
      if c + 1 == 3 {
        assert TripleView(buf', 3, 0) == buf'[..3];
      }
    } else {
      RingStep(buf, 3, i, x);
      assert buf[..3] == buf && buf'[..3] == buf';
      assert Last(h', 3) == Last(h, 3)[1..] + [x];
    }
  }

  /** What the slots say about the newest samples, for each fill level. */
  lemma TripleLast(buf: seq<u32>, c: int, i: int, h: seq<u32>)
    requires TripleInv(buf, c, i, h)
    ensures c >= 1 ==> |h| >= c
    ensures c == 1 ==> buf[0] == h[|h| - 1]
    ensures c == 2 ==> buf[0] == h[|h| - 2] && buf[1] == h[|h| - 1]
    ensures c == 3 ==> Median3Of(buf[0], buf[1], buf[2]) == Median3Of(h[|h| - 3], h[|h| - 2], h[|h| - 1])
  {
    if c == 3 {
      var l := Last(h, 3);
      assert l[0] == h[|h| - 3] && l[1] == h[|h| - 2] && l[2] == h[|h| - 1];
      MedianRotations(buf[0], buf[1], buf[2]);
      if i == 0 {
        assert l == [buf[0], buf[1], buf[2]];
      } else if i == 1 {
        assert l == [buf[1], buf[2], buf[0]];
      } else {
        assert l == [buf[2], buf[0], buf[1]];
      }
    } else if c > 0 {
      assert buf[..c] == Last(h, c);
    }
  }

  /** filter_median3_u32_t */
  class Median3 {
    const samples: array<u32>
    var count: u8
    var index: u8
    /** Every sample pushed since the last Init. */
    ghost var history: seq<u32>

    ghost predicate Valid()
      reads this, samples
    {
      samples.Length == 3 && TripleInv(samples[..], count, index, history)
    }

    constructor ()
      ensures Valid() && fresh(samples) && history == []
    {
      samples := new u32[3];
      new;
      Init();
    }

    /** filter_median3_u32_init */
    method Init()
      requires samples.Length == 3
      modifies this, samples
      ensures Valid() && history == [] && count == 0 && index == 0
      ensures samples[..] == [0, 0, 0]
    {
      samples[0] := 0;
      samples[1] := 0;
      samples[2] := 0;
      count := 0;
      index := 0;
      history := [];
    }

    /** filter_median3_u32_push: overwrite the oldest slot, round robin, count saturating at 3. */
    method Push(sample: u32)
      requires Valid()
      modifies this, samples
      ensures Valid()
      ensures history == old(history) + [sample]
      ensures samples[..] == old(samples[..])[old(index) := sample]
      ensures index == Advance(old(index), 3)
      ensures count == if old(count) < 3 then old(count) + 1 else 3
    {
      ghost var b, h := samples[..], history;
      var i := index;
      samples[i] := sample;
      index := Advance(i, 3);
      if count < 3 {
        count := count + 1;
      }
      history := h + [sample];
      TriplePush(b, Min(|h|, 3), i, h, sample, samples[..]);
    }

    /**
     * filter_median3_u32_get: 0 before any sample, the sample itself after one,
     * the (32-bit, wrapping) mean of two after two, the median of the last three after that.
     */
    function Get(): (r: u32)
      reads this, samples
      requires Valid()
      ensures count == 0 ==> r == 0
      ensures count == 1 ==> r == history[|history| - 1]
      ensures count == 2 ==> r == Add32(history[|history| - 2], history[|history| - 1]) / 2
      ensures count == 3 ==> r == Median3Of(history[|history| - 3], history[|history| - 2], history[|history| - 1])
      ensures count == 3 ==> IsMedianOf(r, history[|history| - 3], history[|history| - 2], history[|history| - 1])
    {
      TripleLast(samples[..], count, index, history);
      if count == 0 then 0
      else if count == 1 then samples[0]
      else if count == 2 then Add32(samples[0], samples[1]) / 2
      else
        Median3Of(samples[0], samples[1], samples[2])
    }

    /** filter_median3_u32_is_ready */
    function IsReady(): (r: bool)
      reads this, samples
      requires Valid()
      ensures r <==> |history| >= 3
    {
      count >= 3
    }
  }
}
