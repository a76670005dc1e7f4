/**
 * The CRC-32 of the settings store (support/settings_store.c,
 * settings_crc32_compute): the reflected IEEE 802.3 polynomial 0xEDB88320,
 * register preset to all ones, one bit shifted out at a time, result
 * complemented.
 */
module Crc {
  /** One shift of the reflected register: `mask` is all ones exactly when the low bit is set. */
  function CrcBit(reg: bv32): bv32
  {
    var mask: bv32 := 0 - (reg & 1);
    (reg >> 1) ^ (0xEDB8_8320 & mask)
  }

  /** `n` shifts of the register. */
  function CrcBits(reg: bv32, n: nat): bv32
  {
    if n == 0 then reg else CrcBit(CrcBits(reg, n - 1))
  }

  /** The register after feeding one byte. */
  function CrcByte(reg: bv32, b: bv8): bv32
  {
    CrcBits(reg ^ (b as bv32), 8)
  }

  /** The register after feeding `data[i..]` to a register holding `reg`. */
  function CrcFeed(reg: bv32, data: seq<bv8>, i: nat): bv32
    decreases |data| - i
  {
    if i >= |data| then reg else CrcFeed(CrcByte(reg, data[i]), data, i + 1)
  }

  /** The CRC-32 of `data`: preset to all ones, feed every byte, complement. */
  function Crc32Of(data: seq<bv8>): bv32
  {
    !CrcFeed(0xFFFF_FFFF, data, 0)
  }

  /** The inner loop of settings_crc32_compute: eight shifts of the register. */
  method ShiftByte(start: bv32) returns (reg: bv32)
    ensures reg == CrcBits(start, 8)
  {
    reg := start;
    var bit := 0;
    while bit < 8
      invariant 0 <= bit <= 8
      invariant reg == CrcBits(start, bit)
    {
      reg := CrcBit(reg);
      bit := bit + 1;
    }
  }

  /** settings_crc32_compute: preset, then per byte an XOR and the eight-step inner loop, then complement. */
  method Crc32(data: seq<bv8>) returns (crc: bv32)
    ensures crc == Crc32Of(data)
  {
    var reg: bv32 := 0xFFFF_FFFF;
    var i := 0;
    while i < |data|
      invariant 0 <= i <= |data|
      invariant CrcFeed(reg, data, i) == CrcFeed(0xFFFF_FFFF, data, 0)
    {
      reg := ShiftByte(reg ^ (data[i] as bv32));
      i := i + 1;
    }
    crc := !reg;
  }

  /** Eight shifts written out, so that they can be evaluated on constants. */
  lemma EightShifts(x: bv32)
    ensures CrcBits(x, 8) == CrcBit(CrcBit(CrcBit(CrcBit(CrcBit(CrcBit(CrcBit(CrcBit(x))))))))
  {
    assert CrcBits(x, 1) == CrcBit(x);
    assert CrcBits(x, 2) == CrcBit(CrcBit(x));
    assert CrcBits(x, 3) == CrcBit(CrcBit(CrcBit(x)));
    assert CrcBits(x, 4) == CrcBit(CrcBit(CrcBit(CrcBit(x))));
    assert CrcBits(x, 5) == CrcBit(CrcBit(CrcBit(CrcBit(CrcBit(x)))));
    assert CrcBits(x, 6) == CrcBit(CrcBit(CrcBit(CrcBit(CrcBit(CrcBit(x))))));
    assert CrcBits(x, 7) == CrcBit(CrcBit(CrcBit(CrcBit(CrcBit(CrcBit(CrcBit(x)))))));
  }

  /** The register after each of the digits "123456789". */
  lemma CheckValueBytes()
    ensures CrcByte(0xFFFF_FFFF, 0x31) == 0x7C23_1048
    ensures CrcByte(0x7C23_1048, 0x32) == 0xB0AC_BB32
    ensures CrcByte(0xB0AC_BB32, 0x33) == 0x77B7_9C2D
    ensures CrcByte(0x77B7_9C2D, 0x34) == 0x641C_1F5C
    ensures CrcByte(0x641C_1F5C, 0x35) == 0x340A_C5E3
    ensures CrcByte(0x340A_C5E3, 0x36) == 0xF68D_2C9E
    ensures CrcByte(0xF68D_2C9E, 0x37) == 0xAFFC_9660
    ensures CrcByte(0xAFFC_9660, 0x38) == 0x651F_2550
    ensures CrcByte(0x651F_2550, 0x39) == 0x340B_C6D9
  {
    EightShifts(0xFFFF_FFFF ^ 0x31);
    EightShifts(0x7C23_1048 ^ 0x32);
    EightShifts(0xB0AC_BB32 ^ 0x33);
    EightShifts(0x77B7_9C2D ^ 0x34);
    EightShifts(0x641C_1F5C ^ 0x35);
    EightShifts(0x340A_C5E3 ^ 0x36);
    EightShifts(0xF68D_2C9E ^ 0x37);
    EightShifts(0xAFFC_9660 ^ 0x38);
    EightShifts(0x651F_2550 ^ 0x39);
  }

  /** The standard check value: the CRC-32 of the ASCII digits "123456789" is 0xCBF43926. */
  lemma Crc32CheckValue()
    ensures Crc32Of([0x31, 0x32, 0x33, 0x34, 0x35, 0x36, 0x37, 0x38, 0x39]) == 0xCBF4_3926
  {
    var d: seq<bv8> := [0x31, 0x32, 0x33, 0x34, 0x35, 0x36, 0x37, 0x38, 0x39];
    CheckValueBytes();
    assert CrcFeed(0xFFFF_FFFF, d, 0) == CrcFeed(0x7C23_1048, d, 1);
    assert CrcFeed(0x7C23_1048, d, 1) == CrcFeed(0xB0AC_BB32, d, 2);
    assert CrcFeed(0xB0AC_BB32, d, 2) == CrcFeed(0x77B7_9C2D, d, 3);
    assert CrcFeed(0x77B7_9C2D, d, 3) == CrcFeed(0x641C_1F5C, d, 4);
    assert CrcFeed(0x641C_1F5C, d, 4) == CrcFeed(0x340A_C5E3, d, 5);
    assert CrcFeed(0x340A_C5E3, d, 5) == CrcFeed(0xF68D_2C9E, d, 6);
    assert CrcFeed(0xF68D_2C9E, d, 6) == CrcFeed(0xAFFC_9660, d, 7);
    assert CrcFeed(0xAFFC_9660, d, 7) == CrcFeed(0x651F_2550, d, 8);
    assert CrcFeed(0x651F_2550, d, 8) == CrcFeed(0x340B_C6D9, d, 9);
  }
}
