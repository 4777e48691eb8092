/** Machine words: unsigned integers, bytes, and the 32-bit register of the checksum.

    Bytes and integers are mathematical integers in range.  The checksum works on a real 32-bit
    register, so this module also relates a register to the number it holds. */
module Words {

  const MAX_U64: int := 0xFFFF_FFFF_FFFF_FFFF

  type byte = x: int | 0 <= x < 256
  type u32 = x: int | 0 <= x < 0x1_0000_0000
  type u64 = x: int | 0 <= x <= MAX_U64

  function Pow2(n: nat): (p: nat)
    ensures p > 0
  {
    if n == 0 then 1 else 2 * Pow2(n - 1)
  }

  predicate Odd(c: bv32) { c & 1 == 1 }

  function Half(c: bv32): bv32 { c >> 1 }

  function Twice(c: bv32, odd: bool): bv32 { (c << 1) | (if odd then 1 else 0) }

  function Next(c: bv32): bv32 { c + 1 }

  /** The number in the lowest n bits of a register. */
  function Low(c: bv32, n: nat): (v: nat)
    ensures v < Pow2(n)
    decreases n
  {
    if n == 0 then 0 else (if Odd(c) then 1 else 0) + 2 * Low(Half(c), n - 1)
  }

  /** The register holding the lowest n bits of a number. */
  function Bits(x: nat, n: nat): bv32 {
    if n == 0 then 0 else Twice(Bits(x / 2, n - 1), x % 2 == 1)
  }

  /** No bit at or above position n is set. */
  predicate Narrow(c: bv32, n: nat)
    decreases n
  {
    if n == 0 then c == 0 else Narrow(Half(c), n - 1)
  }

  function Mask(n: nat): bv32 {
    if n == 0 then 0 else Twice(Mask(n - 1), true)
  }

  lemma WordMasks(n: nat)
    requires n <= 32
    ensures Mask(32) == 0xFFFF_FFFF && Mask(8) == 0xFF
    ensures n < 32 ==> Mask(n) <= 0x7FFF_FFFF
    ensures n < 8 ==> Mask(n) <= 0x7F
  {
    assert Mask(1) == 0x1 && Mask(2) == 0x3 && Mask(3) == 0x7 && Mask(4) == 0xF;
    assert Mask(5) == 0x1F && Mask(6) == 0x3F && Mask(7) == 0x7F && Mask(8) == 0xFF;
    assert Mask(9) == 0x1FF && Mask(10) == 0x3FF && Mask(11) == 0x7FF && Mask(12) == 0xFFF;
    assert Mask(13) == 0x1FFF && Mask(14) == 0x3FFF && Mask(15) == 0x7FFF && Mask(16) == 0xFFFF;
    assert Mask(17) == 0x1_FFFF && Mask(18) == 0x3_FFFF && Mask(19) == 0x7_FFFF && Mask(20) == 0xF_FFFF;
    assert Mask(21) == 0x1F_FFFF && Mask(22) == 0x3F_FFFF && Mask(23) == 0x7F_FFFF && Mask(24) == 0xFF_FFFF;
    assert Mask(25) == 0x1FF_FFFF && Mask(26) == 0x3FF_FFFF && Mask(27) == 0x7FF_FFFF && Mask(28) == 0xFFF_FFFF;
    assert Mask(29) == 0x1FFF_FFFF && Mask(30) == 0x3FFF_FFFF && Mask(31) == 0x7FFF_FFFF;
  }

  lemma WordSizes()
    ensures Pow2(8) == 0x100 && Pow2(32) == 0x1_0000_0000
  {
    assert Pow2(4) == 0x10;
    assert Pow2(12) == 0x1000;
    assert Pow2(16) == 0x1_0000;
    assert Pow2(20) == 0x10_0000;
    assert Pow2(24) == 0x100_0000;
    assert Pow2(28) == 0x1000_0000;
  }

  // Facts about registers alone, kept apart from the numbers they hold.

  lemma HalfOfTwice(c: bv32, odd: bool, m: bv32)
    requires c <= m <= 0x7FFF_FFFF
    ensures Half(Twice(c, odd)) == c
    ensures Odd(Twice(c, odd)) == odd
    ensures Twice(c, odd) <= Twice(m, true)
  {}

  lemma HalfBelow(c: bv32, m: bv32)
    requires m <= 0x7FFF_FFFF && c <= Twice(m, true)
    ensures Half(c) <= m
  {}

  lemma SameHalves(c: bv32, d: bv32)
    requires Odd(c) == Odd(d) && Half(c) == Half(d)
    ensures c == d
  {}

  lemma NextHalves(c: bv32)
    requires c <= 0xFFFF
    ensures Odd(Next(c)) == !Odd(c)
    ensures Half(Next(c)) == if Odd(c) then Next(Half(c)) else Half(c)
    ensures Half(c) <= 0xFFFF
  {}

  // Registers and the numbers they hold.

  lemma LowStep(c: bv32, n: nat)
    requires n > 0
    ensures Low(c, n) == (if Odd(c) then 1 else 0) + 2 * Low(Half(c), n - 1)
  {}

  lemma {:induction false} BitsThenLow(x: nat, n: nat)
    requires n <= 8 && x < Pow2(n)
    ensures Bits(x, n) <= Mask(n)
    ensures Low(Bits(x, n), n) == x
  {
    hide Half, Twice, Odd, Low;
    if n > 0 {
      BitsThenLow(x / 2, n - 1);
      WordMasks(n - 1);
      HalfOfTwice(Bits(x / 2, n - 1), x % 2 == 1, Mask(n - 1));
      LowStep(Bits(x, n), n);
    }
  }

  lemma {:induction false} BelowMaskIsNarrow(c: bv32, n: nat)
    requires n <= 32 && c <= Mask(n)
    ensures Narrow(c, n)
    decreases n
  {
    hide Half, Twice;
    if n > 0 {
      WordMasks(n - 1);
      HalfBelow(c, Mask(n - 1));
      BelowMaskIsNarrow(Half(c), n - 1);
    }
  }

  lemma {:induction false} LowIsInjective(c: bv32, d: bv32, n: nat)
    requires Narrow(c, n) && Narrow(d, n) && Low(c, n) == Low(d, n)
    ensures c == d
    decreases n
  {
    hide Half, Odd;
    if n > 0 {
      LowIsInjective(Half(c), Half(d), n - 1);
      SameHalves(c, d);
    }
  }

  lemma {:induction false} LowCounts(c: bv32, n: nat)
    requires c <= 0xFFFF && Low(c, n) + 1 < Pow2(n)
    ensures Low(Next(c), n) == Low(c, n) + 1
    decreases n
  {
    hide Half, Odd, Next;
    if n > 0 {
      NextHalves(c);
      if Odd(c) {
        LowCounts(Half(c), n - 1);
      }
    }
  }

  /** The register holding one byte. */
  function ByteRegister(b: byte): bv32 { Bits(b, 8) }

  /** The number in the lowest byte of a register. */
  function LowByte(c: bv32): byte {
    WordSizes();
    Low(c, 8)
  }

  /** The number held by a whole register. */
  function RegisterValue(c: bv32): u32 {
    WordSizes();
    Low(c, 32)
  }

  lemma ByteRegisterIsInjective(x: byte, y: byte)
    ensures ByteRegister(x) <= 0xFF
    ensures ByteRegister(x) == ByteRegister(y) ==> x == y
  {
    hide Low, Mask, Narrow, Bits;
    WordSizes();
    WordMasks(8);
    BitsThenLow(x, 8);
    BitsThenLow(y, 8);
  }

  lemma LowByteIsInjective(c: bv32, d: bv32)
    requires c <= 0xFF && d <= 0xFF && LowByte(c) == LowByte(d)
    ensures c == d
  {
    hide Low, Mask, Narrow, Bits;
    WordMasks(8);
    BelowMaskIsNarrow(c, 8);
    BelowMaskIsNarrow(d, 8);
    LowIsInjective(c, d, 8);
  }

  lemma RegisterValueIsInjective(c: bv32, d: bv32)
    requires RegisterValue(c) == RegisterValue(d)
    ensures c == d
  {
    hide Low, Mask, Narrow, Bits;
    WordMasks(32);
    BelowMaskIsNarrow(c, 32);
    BelowMaskIsNarrow(d, 32);
    LowIsInjective(c, d, 32);
  }
}
