/**
 Java's primitive integer types as they appear on the wire of the gateway
 protocol: octets as unsigned values, the narrowing casts `(byte)` and
 `(short)`, the signed value a boxed `Byte` carries, and the bit tests the
 source writes as mask-and-shift expressions.
 */
module Bytes {

  /** One octet of a frame, as its unsigned value. Java's `byte` is signed; the bit pattern is what the wire carries. */
  type byte = x: int | 0 <= x < 0x100

  /** The bit pattern of a Java `short`, read as unsigned. */
  type u16 = x: int | 0 <= x < 0x1_0000

  /** Java's 32-bit `int`. */
  type int32 = x: int | -0x8000_0000 <= x < 0x8000_0000

  /** 2 to the power k. */
  function Pow2(k: nat): (p: nat)
    ensures p >= 1
  {
    if k == 0 then 1 else 2 * Pow2(k - 1)
  }

  /** Bit k of an octet: `(b & (1 << k)) >> k` in the source. */
  function Bit(b: byte, k: nat): (r: int)
    requires k < 8
    ensures r == 0 || r == 1
  {
    (b / Pow2(k)) % 2
  }

  /** The low nibble of an octet: `b & 0x0f` in the source. */
  function LowNibble(b: byte): (r: int)
    ensures 0 <= r < 16
    ensures (b - r) % 16 == 0
  {
    b % 16
  }

  /**
   The mask-and-shift expressions of the source agree with the arithmetic
   `Bit` and `LowNibble` on every octet pattern. Java widens the signed byte
   before masking; the sign bits it adds are cleared by every mask used here.
   */
  lemma MasksAreArithmetic(x: bv8)
    ensures ((x & 0x80) >> 7) as int == Bit(x as int, 7)
    ensures ((x & 0x40) >> 6) as int == Bit(x as int, 6)
    ensures ((x & 0x10) >> 4) as int == Bit(x as int, 4)
    ensures (x & 0x01) as int == Bit(x as int, 0)
    ensures (x & 0x0f) as int == LowNibble(x as int)
  {
    MaskBit7(x);
    MaskBit6(x);
    MaskBit4(x);
    MaskBit0(x);
    MaskLowNibble(x);
  }

  /** `(x & 0x80) >> 7` is bit 7. */
  lemma MaskBit7(x: bv8)
    ensures ((x & 0x80) >> 7) as int == Bit(x as int, 7)
  {
    assert Pow2(7) == 128;
  }

  /** `(x & 0x40) >> 6` is bit 6. */
  lemma MaskBit6(x: bv8)
    ensures ((x & 0x40) >> 6) as int == Bit(x as int, 6)
  {
    assert Pow2(6) == 64;
  }

  /** `(x & 0x10) >> 4` is bit 4. */
  lemma MaskBit4(x: bv8)
    ensures ((x & 0x10) >> 4) as int == Bit(x as int, 4)
  {
    assert Pow2(4) == 16;
  }

  /** `x & 0x01` is bit 0. */
  lemma MaskBit0(x: bv8)
    ensures (x & 0x01) as int == Bit(x as int, 0)
  {
  }

  /** `x & 0x0f` is the low nibble. */
  lemma MaskLowNibble(x: bv8)
    ensures (x & 0x0f) as int == LowNibble(x as int)
  {
  }

  /** Java's `(byte) x`: keeps the low 8 bits of a 32-bit int. */
  function ByteCast(x: int32): (b: byte)
    ensures (x - b) % 0x100 == 0
    ensures 0 <= x < 0x100 ==> b == x
  {
    x % 0x100
  }

  /** Java's `(short) x`: keeps the low 16 bits, as the unsigned pattern the wire carries. */
  function ShortCast(x: int): (w: u16)
    ensures (x - w) % 0x1_0000 == 0
    ensures 0 <= x < 0x1_0000 ==> w == x
  {
    x % 0x1_0000
  }

  /** The value of a Java `byte` (two's complement), as a boxed `Byte` reports it. */
  function Signed(b: byte): (v: int)
    ensures -128 <= v < 128
    ensures v % 0x100 == b
    ensures v >= 0 <==> Bit(b, 7) == 0
  {
    assert Pow2(7) == 128;
    if b < 128 then b else b - 0x100
  }
}
