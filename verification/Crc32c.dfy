/** CRC-32C (Castagnoli): the table-driven computation against bit-by-bit division, section 12.1 of RFC 3720.

    A register holds a remainder in reflected form: its lowest bit is the highest coefficient.
    Adding two polynomials is exclusive or. */
module Crc32c {
  import opened Words

  const POLYNOMIAL: bv32 := 0x82F6_3B78
  const ALL_ONES: bv32 := 0xFFFF_FFFF

  function Plus(c: bv32, d: bv32): bv32 { c ^ d }

  function Up8(c: bv32): bv32 { c << 8 }

  function Down8(c: bv32): bv32 { c >> 8 }

  function Low8(c: bv32): bv32 { c & 0xFF }

  function High24(c: bv32): bv32 { c & 0xFFFF_FF00 }

  // ----- The reference: division of the message, one bit at a time -----

  /** One division step: shift the next message bit in and subtract the divisor when the leading term is set. */
  function Feed(c: bv32, bit: bool): bv32 {
    if Odd(c) != bit then Plus(Half(c), POLYNOMIAL) else Half(c)
  }

  function Divide(c: bv32, bits: seq<bool>): bv32
    decreases |bits|
  {
    if bits == [] then c else Divide(Feed(c, bits[0]), bits[1..])
  }

  /** The bits of a byte, lowest first. */
  function BitsOf(x: nat, n: nat): seq<bool> {
    if n == 0 then [] else [x % 2 == 1] + BitsOf(x / 2, n - 1)
  }

  function MessageBits(data: seq<byte>): seq<bool> {
    if data == [] then [] else BitsOf(data[0], 8) + MessageBits(data[1..])
  }

  /** The checksum of a byte string, by long division of its bits. */
  function Crc(data: seq<byte>): bv32 {
    Plus(Divide(ALL_ONES, MessageBits(data)), ALL_ONES)
  }

  function Checksum(data: seq<byte>): u32 { RegisterValue(Crc(data)) }

  // ----- Running a register -----

  /** A division step on a zero bit. */
  function Step(c: bv32): bv32 {
    if Odd(c) then Plus(Half(c), POLYNOMIAL) else Half(c)
  }

  function Steps(c: bv32, n: nat): bv32
    decreases n
  {
    if n == 0 then c else Steps(Step(c), n - 1)
  }

  function Run(c: bv32, data: seq<byte>): bv32
    decreases |data|
  {
    if data == [] then c else Run(Steps(Plus(c, ByteRegister(data[0])), 8), data[1..])
  }

  lemma HalfPlus(c: bv32, d: bv32)
    ensures Half(Plus(c, d)) == Plus(Half(c), Half(d))
    ensures Odd(Plus(c, d)) == (Odd(c) != Odd(d))
  {}

  lemma PlusMoves(a: bv32, b: bv32, p: bv32)
    ensures Plus(Plus(a, b), p) == Plus(Plus(a, p), b)
    ensures Plus(Plus(a, b), p) == Plus(a, Plus(b, p))
  {}

  lemma PlusZero(c: bv32)
    ensures Plus(c, 0) == c
  {}

  lemma PlusTwice(b: bv32, p: bv32)
    ensures Plus(p, Plus(b, p)) == b
  {}

  lemma PlusCancels(a: bv32, b: bv32, p: bv32)
    ensures Plus(Plus(a, p), Plus(b, p)) == Plus(a, b)
  {
    hide Plus;
    PlusMoves(a, p, Plus(b, p));
    PlusTwice(b, p);
  }

  lemma FeedIsStep(c: bv32, t: bv32, odd: bool)
    requires t <= 0x7FFF_FFFF
    ensures Step(Plus(c, Twice(t, odd))) == Plus(Feed(c, odd), t)
  {
    hide Half, Odd, Twice, Plus;
    HalfOfTwice(t, odd, t);
    HalfPlus(c, Twice(t, odd));
    PlusMoves(Half(c), t, POLYNOMIAL);
  }

  lemma {:induction false} ByteAtOnce(c: bv32, x: nat, n: nat)
    requires n <= 8 && x < Pow2(n)
    ensures Divide(c, BitsOf(x, n)) == Steps(Plus(c, Bits(x, n)), n)
    decreases n
  {
    hide Plus, Twice, Feed, Step;
    if n == 0 {
      PlusZero(c);
    } else {
      var rest := Bits(x / 2, n - 1);
      assert rest <= 0x7FFF_FFFF by {
        BitsThenLow(x / 2, n - 1);
        WordMasks(n - 1);
      }
      FeedIsStep(c, rest, x % 2 == 1);
      ByteAtOnce(Feed(c, x % 2 == 1), x / 2, n - 1);
      assert BitsOf(x, n)[1..] == BitsOf(x / 2, n - 1);
    }
  }

  lemma {:induction false} DivideInParts(c: bv32, a: seq<bool>, b: seq<bool>)
    ensures Divide(c, a + b) == Divide(Divide(c, a), b)
    decreases |a|
  {
    if a == [] {
      assert a + b == b;
    } else {
      assert (a + b)[1..] == a[1..] + b;
      DivideInParts(Feed(c, a[0]), a[1..], b);
    }
  }

  /** Running the register byte by byte is dividing the message bit by bit. */
  lemma {:induction false} RunIsDivision(c: bv32, data: seq<byte>)
    ensures Run(c, data) == Divide(c, MessageBits(data))
    decreases |data|
  {
    hide Plus, Steps, Bits, Feed;
    if data != [] {
      WordSizes();
      ByteAtOnce(c, data[0], 8);
      DivideInParts(c, BitsOf(data[0], 8), MessageBits(data[1..]));
      RunIsDivision(Steps(Plus(c, ByteRegister(data[0])), 8), data[1..]);
    }
  }

  // ----- The table -----

  lemma StepIsLinear(c: bv32, d: bv32)
    ensures Step(Plus(c, d)) == Plus(Step(c), Step(d))
  {
    hide Half, Odd, Plus;
    HalfPlus(c, d);
    PlusMoves(Half(c), Half(d), POLYNOMIAL);
    PlusCancels(Half(c), Half(d), POLYNOMIAL);
  }

  lemma {:induction false} StepsAreLinear(c: bv32, d: bv32, n: nat)
    ensures Steps(Plus(c, d), n) == Plus(Steps(c, n), Steps(d, n))
    decreases n
  {
    hide Step, Plus;
    if n > 0 {
      StepIsLinear(c, d);
      StepsAreLinear(Step(c), Step(d), n - 1);
    }
  }

  lemma EightHalves(c: bv32)
    ensures var h0 := High24(c); var h1 := Half(h0); var h2 := Half(h1); var h3 := Half(h2); var h4 := Half(h3);
            var h5 := Half(h4); var h6 := Half(h5); var h7 := Half(h6);
            && !Odd(h0) && !Odd(h1) && !Odd(h2) && !Odd(h3) && !Odd(h4) && !Odd(h5) && !Odd(h6) && !Odd(h7)
            && Half(h7) == Down8(c)
  {}

  /** Eight steps only shift a register whose lowest byte is clear. */
  lemma EightShifts(c: bv32)
    ensures Steps(High24(c), 8) == Down8(c)
  {
    EightHalves(c);
    var h1 := Half(High24(c));
    var h3 := Half(Half(h1));
    var h5 := Half(Half(h3));
    var h7 := Half(Half(h5));
    assert Steps(h7, 1) == Down8(c);
    assert Steps(h5, 3) == Down8(c);
    assert Steps(h3, 5) == Down8(c);
    assert Steps(h1, 7) == Down8(c);
  }

  lemma SplitByte(c: bv32)
    ensures c == Plus(Low8(c), High24(c))
  {}

  /** The identity the table rests on. */
  lemma TableStep(c: bv32)
    ensures Steps(c, 8) == Plus(Steps(Low8(c), 8), Down8(c))
  {
    hide *;
    SplitByte(c);
    StepsAreLinear(Low8(c), High24(c), 8);
    EightShifts(c);
  }

  /** The table: the image of every byte under eight steps. */
  method BuildTable() returns (entries: array<bv32>)
    ensures fresh(entries) && entries.Length == 256
    ensures forall b: byte :: entries[b] == Steps(ByteRegister(b), 8)
  {
    entries := new bv32[256];
    var position: bv32 := 0;
    var index := 0;
    while index < 256
      invariant 0 <= index <= 256
      invariant position == CountedTo(index)
      invariant forall b: byte | b < index :: entries[b] == Steps(ByteRegister(b), 8)
    {
      var crc := position;
      var bit := 0;
      while bit < 8
        invariant 0 <= bit <= 8
        invariant Steps(crc, 8 - bit) == Steps(position, 8)
      {
        crc := if Odd(crc) then Plus(Half(crc), POLYNOMIAL) else Half(crc);
        bit := bit + 1;
      }
      Counted(index);
      entries[index] := crc;
      position := Next(position);
      index := index + 1;
    }
  }

  function CountedTo(n: nat): bv32 {
    if n == 0 then 0 else Next(CountedTo(n - 1))
  }

  lemma ExtremeBytes()
    ensures LowByte(0) == 0 && LowByte(0xFF) == 0xFF
  {
    WordSizes();
    assert Half(0) == 0 && !Odd(0);
    assert Low(0, 2) == 0;
    assert Low(0, 4) == 0;
    assert Low(0, 6) == 0;
    assert Half(0xFF) == 0x7F && Half(0x7F) == 0x3F && Half(0x3F) == 0x1F && Half(0x1F) == 0xF;
    assert Half(0xF) == 0x7 && Half(0x7) == 0x3 && Half(0x3) == 0x1 && Half(0x1) == 0;
    assert Low(0x3, 2) == 3;
    assert Low(0xF, 4) == 15;
    assert Low(0x3F, 6) == 63;
  }

  lemma NextByte(c: bv32)
    requires c <= 0xFF && c != 0xFF
    ensures Next(c) <= 0xFF
  {}

  lemma CountOne(c: bv32)
    requires c <= 0xFF && LowByte(c) < 0xFF
    ensures Next(c) <= 0xFF && LowByte(Next(c)) == LowByte(c) + 1
  {
    hide Low;
    ExtremeBytes();
    WordSizes();
    NextByte(c);
    LowCounts(c, 8);
  }

  lemma {:induction false} CountedLow(n: nat)
    requires n < 256
    ensures CountedTo(n) <= 0xFF && LowByte(CountedTo(n)) == n
  {
    if n == 0 {
      ExtremeBytes();
    } else {
      CountedLow(n - 1);
      CountOne(CountedTo(n - 1));
    }
  }

  lemma Counted(b: byte)
    ensures CountedTo(b) == ByteRegister(b)
  {
    hide CountedTo, Low, Bits, Mask;
    CountedLow(b);
    ByteRegisterIsInjective(b, b);
    WordSizes();
    BitsThenLow(b, 8);
    LowByteIsInjective(CountedTo(b), ByteRegister(b));
  }

  lemma LowByteRoundTrip(c: bv32)
    requires c <= 0xFF
    ensures ByteRegister(LowByte(c)) == c
  {
    hide Low, Bits, Mask;
    var b := LowByte(c);
    WordSizes();
    BitsThenLow(b, 8);
    ByteRegisterIsInjective(b, b);
    LowByteIsInjective(ByteRegister(b), c);
  }

  lemma Down8IgnoresByte(c: bv32, d: bv32)
    requires d <= 0xFF
    ensures Down8(Plus(c, d)) == Down8(c)
    ensures Low8(Plus(c, d)) <= 0xFF
  {}

  lemma {:induction false} RunInParts(c: bv32, a: seq<byte>, b: seq<byte>)
    ensures Run(c, a + b) == Run(Run(c, a), b)
    decreases |a|
  {
    hide Steps, Plus, ByteRegister;
    if a == [] {
      assert a + b == b;
    } else {
      assert (a + b)[1..] == a[1..] + b;
      RunInParts(Steps(Plus(c, ByteRegister(a[0])), 8), a[1..], b);
    }
  }

  /** The table-driven loop computes the checksum of the reference division. */
  method Compute(data: seq<byte>) returns (crc: bv32)
    ensures crc == Crc(data)
  {
    hide Low8, Down8, Plus, Steps, ByteRegister, LowByte, Words.Half, Words.Odd;
    var entries := BuildTable();
    crc := ALL_ONES;
    for index := 0 to |data|
      invariant forall b: byte :: entries[b] == Steps(ByteRegister(b), 8)
      invariant crc == Run(ALL_ONES, data[..index])
    {
      ghost var before := crc;
      ghost var b := ByteRegister(data[index]);
      ByteRegisterIsInjective(data[index], data[index]);
      var slot := Low8(Plus(crc, ByteRegister(data[index])));
      crc := Plus(entries[LowByte(slot)], Down8(crc));
      Down8IgnoresByte(before, b);
      LowByteRoundTrip(slot);
      TableStep(Plus(before, b));
      assert crc == Steps(Plus(before, b), 8);
      assert data[..index + 1] == data[..index] + [data[index]];
      RunInParts(ALL_ONES, data[..index], [data[index]]);
      assert Run(before, [data[index]]) == crc;
    }
    assert data[..|data|] == data;
    RunIsDivision(ALL_ONES, data);
    crc := Plus(crc, ALL_ONES);
  }

  // ----- Error detection -----

  lemma StepIsInjective(c: bv32, d: bv32)
    requires Step(c) == Step(d)
    ensures c == d
  {
    hide *;
    TopBits(c, d);
    SameHalves(c, d);
  }

  lemma TopBits(c: bv32, d: bv32)
    requires Step(c) == Step(d)
    ensures Odd(c) == Odd(d) && Half(c) == Half(d)
  {}

  lemma {:induction false} StepsAreInjective(c: bv32, d: bv32, n: nat)
    requires Steps(c, n) == Steps(d, n)
    ensures c == d
    decreases n
  {
    hide Step;
    if n > 0 {
      StepsAreInjective(Step(c), Step(d), n - 1);
      StepIsInjective(c, d);
    }
  }

  lemma PlusIsInjective(c: bv32, d: bv32, p: bv32)
    ensures Plus(c, p) == Plus(d, p) ==> c == d
    ensures Plus(p, c) == Plus(p, d) ==> c == d
  {}

  /** A register is determined by the one it becomes after any bytes. */
  lemma {:induction false} RunIsInjective(c: bv32, d: bv32, data: seq<byte>)
    requires Run(c, data) == Run(d, data)
    ensures c == d
    decreases |data|
  {
    hide Plus, Steps, ByteRegister;
    if data != [] {
      var b := ByteRegister(data[0]);
      RunIsInjective(Steps(Plus(c, b), 8), Steps(Plus(d, b), 8), data[1..]);
      StepsAreInjective(Plus(c, b), Plus(d, b), 8);
      PlusIsInjective(c, d, b);
    }
  }

  /** Up to four bytes as one register, the first byte lowest. */
  function Word(m: seq<byte>): bv32
    decreases |m|
  {
    if m == [] then 0 else Plus(ByteRegister(m[0]), Up8(Word(m[1..])))
  }

  lemma WordLow(b: bv32, w: bv32)
    requires b <= 0xFF
    ensures Low8(Plus(b, Up8(w))) == b
  {}

  lemma WordHigh(b: bv32, w: bv32)
    requires b <= 0xFF && w <= 0xFF_FFFF
    ensures Down8(Plus(b, Up8(w))) == w
  {}

  lemma WordShifted(w: bv32)
    requires w <= 0xFF_FFFF
    ensures High24(Up8(w)) == Up8(w) && Down8(Up8(w)) == w
  {}

  lemma WordGrows(b: bv32, w: bv32)
    requires b <= 0xFF
    ensures w <= 0 ==> Plus(b, Up8(w)) <= 0xFF
    ensures w <= 0xFF ==> Plus(b, Up8(w)) <= 0xFFFF
    ensures w <= 0xFFFF ==> Plus(b, Up8(w)) <= 0xFF_FFFF
  {}

  function WordBound(n: nat): bv32 {
    if n == 0 then 0 else if n == 1 then 0xFF else if n == 2 then 0xFFFF else if n == 3 then 0xFF_FFFF else ALL_ONES
  }

  lemma {:induction false} WordIsBounded(m: seq<byte>)
    requires |m| <= 4
    ensures Word(m) <= WordBound(|m|)
    decreases |m|
  {
    hide Plus, Up8, ByteRegister;
    if m != [] {
      WordIsBounded(m[1..]);
      ByteRegisterIsInjective(m[0], m[0]);
      WordGrows(ByteRegister(m[0]), Word(m[1..]));
    }
  }

  lemma WordSplits(m: seq<byte>)
    requires 0 < |m| <= 4
    ensures Low8(Word(m)) == ByteRegister(m[0]) && Down8(Word(m)) == Word(m[1..])
  {
    hide Plus, Up8, ByteRegister, Low8, Down8;
    WordIsBounded(m[1..]);
    ByteRegisterIsInjective(m[0], m[0]);
    WordLow(ByteRegister(m[0]), Word(m[1..]));
    WordHigh(ByteRegister(m[0]), Word(m[1..]));
  }

  lemma {:induction false} WordIsInjective(m: seq<byte>, k: seq<byte>)
    requires |m| == |k| <= 4 && Word(m) == Word(k)
    ensures m == k
    decreases |m|
  {
    hide Plus, Up8, ByteRegister, Low8, Down8;
    if m != [] {
      WordSplits(m);
      WordSplits(k);
      ByteRegisterIsInjective(m[0], k[0]);
      WordIsInjective(m[1..], k[1..]);
      assert m == [m[0]] + m[1..] && k == [k[0]] + k[1..];
    }
  }

  lemma {:induction false} StepsCompose(c: bv32, m: nat, n: nat)
    ensures Steps(c, m + n) == Steps(Steps(c, m), n)
    decreases m
  {
    hide Step;
    if m > 0 {
      StepsCompose(Step(c), m - 1, n);
    }
  }

  /** Up to four bytes enter the register together. */
  lemma {:induction false} RunAtOnce(c: bv32, m: seq<byte>)
    requires |m| <= 4
    ensures Run(c, m) == Steps(Plus(c, Word(m)), 8 * |m|)
    decreases |m|
  {
    hide Plus, Up8, ByteRegister, High24, Down8, Step;
    if m == [] {
      PlusZero(c);
    } else {
      var b, w := ByteRegister(m[0]), Word(m[1..]);
      var after := Steps(Plus(c, b), 8);
      RunAtOnce(after, m[1..]);
      assert Plus(after, w) == Steps(Plus(c, Word(m)), 8) by {
        WordIsBounded(m[1..]);
        WordShifted(w);
        EightShifts(Up8(w));
        StepsAreLinear(Plus(c, b), Up8(w), 8);
        PlusMoves(c, b, Up8(w));
      }
      StepsCompose(Plus(c, Word(m)), 8, 8 * |m[1..]|);
    }
  }

  /** Altering a byte string only within four consecutive bytes always changes its checksum. */
  lemma BurstChangesChecksum(a: seq<byte>, b: seq<byte>, start: nat)
    requires |a| == |b| && a != b
    requires forall k | 0 <= k < |a| && !(start <= k < start + 4) :: a[k] == b[k]
    ensures Checksum(a) != Checksum(b)
  {
    hide Plus, Word, Steps, RegisterValue, Run, Divide, MessageBits;
    var lo := if start <= |a| then start else |a|;
    var hi := if start + 4 <= |a| then start + 4 else |a|;
    var before, after := a[..lo], a[hi..];
    var m, k := a[lo..hi], b[lo..hi];
    assert a == before + m + after;
    assert b == before + k + after;
    if Checksum(a) == Checksum(b) {
      RegisterValueIsInjective(Crc(a), Crc(b));
      RunIsDivision(ALL_ONES, a);
      RunIsDivision(ALL_ONES, b);
      PlusIsInjective(Run(ALL_ONES, a), Run(ALL_ONES, b), ALL_ONES);
      RunInParts(ALL_ONES, before + m, after);
      RunInParts(ALL_ONES, before + k, after);
      RunIsInjective(Run(ALL_ONES, before + m), Run(ALL_ONES, before + k), after);
      RunInParts(ALL_ONES, before, m);
      RunInParts(ALL_ONES, before, k);
      var c := Run(ALL_ONES, before);
      RunAtOnce(c, m);
      RunAtOnce(c, k);
      StepsAreInjective(Plus(c, Word(m)), Plus(c, Word(k)), 8 * |m|);
      PlusIsInjective(Word(m), Word(k), c);
      WordIsInjective(m, k);
      assert false;
    }
  }

  // ----- The check value -----

  lemma EightSteps(c: bv32)
    ensures Steps(c, 8) == Step(Step(Step(Step(Step(Step(Step(Step(c))))))))
  {
    hide Step;
    assert Steps(c, 8) == Steps(Step(Step(Step(Step(c)))), 4);
  }

  /** The register after one more digit, step by step. */
  lemma AfterOne()
    ensures Steps(Plus(0xFFFF_FFFF, 0x31), 8) == 0x6F0A_661C
  {
    EightSteps(0xFFFF_FFCE);
    assert Step(0xFFFF_FFCE) == 0x7FFF_FFE7 && Step(0x7FFF_FFE7) == 0xBD09_C48B;
    assert Step(0xBD09_C48B) == 0xDC72_D93D && Step(0xDC72_D93D) == 0xECCF_57E6;
    assert Step(0xECCF_57E6) == 0x7667_ABF3 && Step(0x7667_ABF3) == 0xB9C5_EE81;
    assert Step(0xB9C5_EE81) == 0xDE14_CC38 && Step(0xDE14_CC38) == 0x6F0A_661C;
  }

  lemma AfterTwo()
    ensures Steps(Plus(0x6F0A_661C, 0x32), 8) == 0x8CAA_3B9F
  {
    EightSteps(0x6F0A_662E);
    assert Step(0x6F0A_662E) == 0x3785_3317 && Step(0x3785_3317) == 0x9934_A2F3;
    assert Step(0x9934_A2F3) == 0xCE6C_6A01 && Step(0xCE6C_6A01) == 0xE5C0_0E78;
    assert Step(0xE5C0_0E78) == 0x72E0_073C && Step(0x72E0_073C) == 0x3970_039E;
    assert Step(0x3970_039E) == 0x1CB8_01CF && Step(0x1CB8_01CF) == 0x8CAA_3B9F;
  }

  lemma AfterThree()
    ensures Steps(Plus(0x8CAA_3B9F, 0x33), 8) == 0xEF84_D04D
  {
    EightSteps(0x8CAA_3BAC);
    assert Step(0x8CAA_3BAC) == 0x4655_1DD6 && Step(0x4655_1DD6) == 0x232A_8EEB;
    assert Step(0x232A_8EEB) == 0x9363_7C0D && Step(0x9363_7C0D) == 0xCB47_857E;
    assert Step(0xCB47_857E) == 0x65A3_C2BF && Step(0x65A3_C2BF) == 0xB027_DA27;
    assert Step(0xB027_DA27) == 0xDAE5_D66B && Step(0xDAE5_D66B) == 0xEF84_D04D;
  }

  lemma AfterFour()
    ensures Steps(Plus(0xEF84_D04D, 0x34), 8) == 0x09C5_0B11
  {
    EightSteps(0xEF84_D079);
    assert Step(0xEF84_D079) == 0xF534_5344 && Step(0xF534_5344) == 0x7A9A_29A2;
    assert Step(0x7A9A_29A2) == 0x3D4D_14D1 && Step(0x3D4D_14D1) == 0x9C50_B110;
    assert Step(0x9C50_B110) == 0x4E28_5888 && Step(0x4E28_5888) == 0x2714_2C44;
    assert Step(0x2714_2C44) == 0x138A_1622 && Step(0x138A_1622) == 0x09C5_0B11;
  }

  lemma AfterFive()
    ensures Steps(Plus(0x09C5_0B11, 0x35), 8) == 0xE72E_DCCA
  {
    EightSteps(0x09C5_0B24);
    assert Step(0x09C5_0B24) == 0x04E2_8592 && Step(0x04E2_8592) == 0x0271_42C9;
    assert Step(0x0271_42C9) == 0x83CE_9A1C && Step(0x83CE_9A1C) == 0x41E7_4D0E;
    assert Step(0x41E7_4D0E) == 0x20F3_A687 && Step(0x20F3_A687) == 0x928F_E83B;
    assert Step(0x928F_E83B) == 0xCBB1_CF65 && Step(0xCBB1_CF65) == 0xE72E_DCCA;
  }

  lemma AfterSix()
    ensures Steps(Plus(0xE72E_DCCA, 0x36), 8) == 0xBECA_8E79
  {
    EightSteps(0xE72E_DCFC);
    assert Step(0xE72E_DCFC) == 0x7397_6E7E && Step(0x7397_6E7E) == 0x39CB_B73F;
    assert Step(0x39CB_B73F) == 0x9E13_E0E7 && Step(0x9E13_E0E7) == 0xCDFF_CB0B;
    assert Step(0xCDFF_CB0B) == 0xE409_DEFD && Step(0xE409_DEFD) == 0xF0F2_D406;
    assert Step(0xF0F2_D406) == 0x7879_6A03 && Step(0x7879_6A03) == 0xBECA_8E79;
  }

  lemma AfterSeven()
    ensures Steps(Plus(0xBECA_8E79, 0x37), 8) == 0xEDBD_6815
  {
    EightSteps(0xBECA_8E4E);
    assert Step(0xBECA_8E4E) == 0x5F65_4727 && Step(0x5F65_4727) == 0xAD44_98EB;
    assert Step(0xAD44_98EB) == 0xD454_770D && Step(0xD454_770D) == 0xE8DC_00FE;
    assert Step(0xE8DC_00FE) == 0x746E_007F && Step(0x746E_007F) == 0xB8C1_3B47;
    assert Step(0xB8C1_3B47) == 0xDE96_A6DB && Step(0xDE96_A6DB) == 0xEDBD_6815;
  }

  lemma AfterEight()
    ensures Steps(Plus(0xEDBD_6815, 0x38), 8) == 0x9F78_7F65
  {
    EightSteps(0xEDBD_682D);
    assert Step(0xEDBD_682D) == 0xF428_8F6E && Step(0xF428_8F6E) == 0x7A14_47B7;
    assert Step(0x7A14_47B7) == 0xBFFC_18A3 && Step(0xBFFC_18A3) == 0xDD08_3729;
    assert Step(0xDD08_3729) == 0xEC72_20EC && Step(0xEC72_20EC) == 0x7639_1076;
    assert Step(0x7639_1076) == 0x3B1C_883B && Step(0x3B1C_883B) == 0x9F78_7F65;
  }

  lemma AfterNine()
    ensures Steps(Plus(0x9F78_7F65, 0x39), 8) == 0x1CF9_6D7C
  {
    EightSteps(0x9F78_7F5C);
    assert Step(0x9F78_7F5C) == 0x4FBC_3FAE && Step(0x4FBC_3FAE) == 0x27DE_1FD7;
    assert Step(0x27DE_1FD7) == 0x9119_3493 && Step(0x9119_3493) == 0xCA7A_A131;
    assert Step(0xCA7A_A131) == 0xE7CB_6BE0 && Step(0xE7CB_6BE0) == 0x73E5_B5F0;
    assert Step(0x73E5_B5F0) == 0x39F2_DAF8 && Step(0x39F2_DAF8) == 0x1CF9_6D7C;
  }

  lemma DigitRegisters()
    ensures ByteRegister(0x31) == 0x31
    ensures ByteRegister(0x32) == 0x32
    ensures ByteRegister(0x33) == 0x33
    ensures ByteRegister(0x34) == 0x34
    ensures ByteRegister(0x35) == 0x35
    ensures ByteRegister(0x36) == 0x36
    ensures ByteRegister(0x37) == 0x37
    ensures ByteRegister(0x38) == 0x38
    ensures ByteRegister(0x39) == 0x39
  {
    assert Bits(0, 1) == 0x00 && Bits(0, 2) == 0x00 && Bits(1, 3) == 0x01 && Bits(3, 4) == 0x03 && Bits(6, 5) == 0x06 && Bits(12, 6) == 0x0C && Bits(24, 7) == 0x18;
    assert Bits(0, 1) == 0x00 && Bits(0, 2) == 0x00 && Bits(1, 3) == 0x01 && Bits(3, 4) == 0x03 && Bits(6, 5) == 0x06 && Bits(12, 6) == 0x0C && Bits(25, 7) == 0x19;
    assert Bits(0, 1) == 0x00 && Bits(0, 2) == 0x00 && Bits(1, 3) == 0x01 && Bits(3, 4) == 0x03 && Bits(6, 5) == 0x06 && Bits(12, 6) == 0x0C && Bits(25, 7) == 0x19;
    assert Bits(0, 1) == 0x00 && Bits(0, 2) == 0x00 && Bits(1, 3) == 0x01 && Bits(3, 4) == 0x03 && Bits(6, 5) == 0x06 && Bits(13, 6) == 0x0D && Bits(26, 7) == 0x1A;
    assert Bits(0, 1) == 0x00 && Bits(0, 2) == 0x00 && Bits(1, 3) == 0x01 && Bits(3, 4) == 0x03 && Bits(6, 5) == 0x06 && Bits(13, 6) == 0x0D && Bits(26, 7) == 0x1A;
    assert Bits(0, 1) == 0x00 && Bits(0, 2) == 0x00 && Bits(1, 3) == 0x01 && Bits(3, 4) == 0x03 && Bits(6, 5) == 0x06 && Bits(13, 6) == 0x0D && Bits(27, 7) == 0x1B;
    assert Bits(0, 1) == 0x00 && Bits(0, 2) == 0x00 && Bits(1, 3) == 0x01 && Bits(3, 4) == 0x03 && Bits(6, 5) == 0x06 && Bits(13, 6) == 0x0D && Bits(27, 7) == 0x1B;
    assert Bits(0, 1) == 0x00 && Bits(0, 2) == 0x00 && Bits(1, 3) == 0x01 && Bits(3, 4) == 0x03 && Bits(7, 5) == 0x07 && Bits(14, 6) == 0x0E && Bits(28, 7) == 0x1C;
    assert Bits(0, 1) == 0x00 && Bits(0, 2) == 0x00 && Bits(1, 3) == 0x01 && Bits(3, 4) == 0x03 && Bits(7, 5) == 0x07 && Bits(14, 6) == 0x0E && Bits(28, 7) == 0x1C;
  }

  /** The standard check value of the checksum: that of the digits from one to nine. */
  lemma CheckValue()
    ensures Crc([0x31, 0x32, 0x33, 0x34, 0x35, 0x36, 0x37, 0x38, 0x39]) == 0xE306_9283
  {
    hide Steps, Plus, ByteRegister, Divide, MessageBits;
    var digits: seq<byte> := [0x31, 0x32, 0x33, 0x34, 0x35, 0x36, 0x37, 0x38, 0x39];
    RunIsDivision(ALL_ONES, digits);
    DigitRegisters();
    AfterOne();
    AfterTwo();
    AfterThree();
    AfterFour();
    AfterFive();
    AfterSix();
    AfterSeven();
    AfterEight();
    AfterNine();
    assert Run(0x9F78_7F65, digits[8..]) == 0x1CF9_6D7C;
    assert Run(0xEDBD_6815, digits[7..]) == 0x1CF9_6D7C;
    assert Run(0xBECA_8E79, digits[6..]) == 0x1CF9_6D7C;
    assert Run(0xE72E_DCCA, digits[5..]) == 0x1CF9_6D7C;
    assert Run(0x09C5_0B11, digits[4..]) == 0x1CF9_6D7C;
    assert Run(0xEF84_D04D, digits[3..]) == 0x1CF9_6D7C;
    assert Run(0x8CAA_3B9F, digits[2..]) == 0x1CF9_6D7C;
    assert Run(0x6F0A_661C, digits[1..]) == 0x1CF9_6D7C;
    assert Run(0xFFFF_FFFF, digits[0..]) == 0x1CF9_6D7C;
    assert digits[0..] == digits;
    LastComplement();
  }

  lemma LastComplement()
    ensures Plus(0x1CF9_6D7C, ALL_ONES) == 0xE306_9283
  {}
}
