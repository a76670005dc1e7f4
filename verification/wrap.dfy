/**
 * Fixed-width integers of the firmware (uint8_t, uint16_t, uint32_t, int32_t)
 * and the wrap-around arithmetic that C performs on them.
 */
module Wrap {

  const U8_LIMIT: int := 0x100
  const U16_LIMIT: int := 0x1_0000
  const U32_LIMIT: int := 0x1_0000_0000
  const I32_MIN: int := -0x8000_0000
  const I32_MAX: int := 0x7FFF_FFFF

  type u8 = x: int | 0 <= x < 0x100
  type u16 = x: int | 0 <= x < 0x1_0000
  type u32 = x: int | 0 <= x < 0x1_0000_0000
  type i32 = x: int | -0x8000_0000 <= x <= 0x7FFF_FFFF

  /**
   * The value limited to [lo, hi]: clamp_u16 (app/app_settings.c) and
   * clamp_offset (app/app_events.c and app/app.c) are this one function on
   * uint16_t and int32_t. A value below `lo` gives `lo`, one above `hi`
   * gives `hi`, and the result is always one of `lo`, `hi` or the value
   * itself, so it has the type of the bounds.
   */
  function Clamp(value: int, lo: int, hi: int): (r: int)
    ensures lo <= hi ==> lo <= r <= hi
    ensures lo <= value <= hi ==> r == value
    ensures value < lo ==> r == lo
    ensures lo <= hi < value ==> r == hi
    ensures r == lo || r == hi || lo <= r == value <= hi
  {
    if value < lo then lo
    else if value > hi then hi
    else value
  }

  /** Clamping keeps the order of its arguments: turning the encoder further never moves the offset back. */
  lemma ClampMonotone(a: int, b: int, lo: int, hi: int)
    requires a <= b && lo <= hi
    ensures Clamp(a, lo, hi) <= Clamp(b, lo, hi)
  {
  }

  /** A pointer that may be NULL, an optional out-parameter or a reading that may be absent. */
  datatype Option<T> = None | Some(value: T)

  /** `(uint8_t)x`: reduction modulo 2^8; a value already in range is kept. */
  function Cast8(x: int): u8
  {
    if 0 <= x < 0x100 then x else x % 0x100
  }

  /** `(uint16_t)x`: reduction modulo 2^16; a value already in range is kept. */
  function Cast16(x: int): u16
  {
    if 0 <= x < 0x1_0000 then x else x % 0x1_0000
  }

  /** `(uint32_t)x`: reduction modulo 2^32; a value already in range is kept. */
  function Cast32(x: int): u32
  {
    if 0 <= x < 0x1_0000_0000 then x else x % 0x1_0000_0000
  }

  /** `a + b` on uint32_t: the sum modulo 2^32. */
  function Add32(a: u32, b: u32): u32
  {
    Cast32(a + b)
  }

  /** `(uint32_t)(a - b)`: the difference modulo 2^32 (Dafny's % never goes negative). */
  function Sub32(a: u32, b: u32): u32
  {
    Cast32(a - b)
  }

  /** `(int32_t)x >= 0` for a uint32_t x: the top bit is clear. */
  predicate SignedNonNegative(x: u32)
  {
    x < 0x8000_0000
  }

  /** `(int32_t)x <= 0` for a uint32_t x: zero, or the top bit is set. */
  predicate SignedNonPositive(x: u32)
  {
    x == 0 || x >= 0x8000_0000
  }

  /** Multiplying both sides of an inequality by the same natural number. */
  lemma MulMonotone(a: nat, b: nat, d: nat)
    requires a <= b
    ensures a * d <= b * d
  {
  }

  function Min(a: int, b: int): int
  {
    if a <= b then a else b
  }

  function Abs(x: int): nat
  {
    if x < 0 then -x else x
  }
}
