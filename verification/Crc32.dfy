// The table-driven CRC-32 of the icon generator against the bit-by-bit CRC of section 3.4 of
// RFC 2083: register all ones, each byte from its least significant bit, complemented at the end.

module Crc32 {
  import opened Basics
  import opened Bits

  const POLYNOMIAL: uint32 := 0xedb88320
  const ALL_ONES: uint32 := 0xffff_ffff

  /** The constant has exactly the terms listed in section 3.4 of RFC 2083, the highest power first:
      x^26, x^23, x^22, x^16, x^12, x^11, x^10, x^8, x^7, x^5, x^4, x^2, x and 1. */
  lemma PolynomialIs()
    ensures POLYNOMIAL == Pow2(31 - 26) + Pow2(31 - 23) + Pow2(31 - 22) + Pow2(31 - 16) + Pow2(31 - 12) + Pow2(31 - 11)
                          + Pow2(31 - 10) + Pow2(31 - 8) + Pow2(31 - 7) + Pow2(31 - 5) + Pow2(31 - 4) + Pow2(31 - 2)
                          + Pow2(31 - 1) + Pow2(31 - 0)
    ensures ALL_ONES == Pow2(32) - 1
  {
    Pow2Values();
    assert Pow2(5) == 0x20;
    PowersAbove(8);
    PowersAbove(16);
    PowersAbove(24);
  }

  lemma PowersAbove(k: nat)
    ensures Pow2(k + 1) == 2 * Pow2(k) && Pow2(k + 2) == 4 * Pow2(k) && Pow2(k + 3) == 8 * Pow2(k) && Pow2(k + 4) == 16 * Pow2(k)
    ensures Pow2(k + 5) == 32 * Pow2(k) && Pow2(k + 6) == 64 * Pow2(k) && Pow2(k + 7) == 128 * Pow2(k)
  {
    assert Pow2(k + 3) == 2 * Pow2(k + 2);
    assert Pow2(k + 5) == 2 * Pow2(k + 4);
    assert Pow2(k + 7) == 2 * Pow2(k + 6);
  }

  // One step of the shift register.
  function Shift(x: nat): nat {
    if x % 2 == 1 then Xor(POLYNOMIAL, x / 2) else x / 2
  }

  function ShiftTimes(x: nat, k: nat): nat
    decreases k, x
  {
    if k == 0 then x else ShiftTimes(Shift(x), k - 1)
  }

  // ----- the specification: bits are fed one at a time

  function FeedBit(register: nat, bit: nat): nat { Shift(Xor(register, bit)) }

  // The k low bits of b, least significant first.
  function FeedBits(register: nat, b: nat, k: nat): nat
    decreases k, register, b
  {
    if k == 0 then register else FeedBits(FeedBit(register, b % 2), b / 2, k - 1)
  }

  function FeedBytes(register: nat, bytes: seq<byte>): nat
    decreases bytes
  {
    if bytes == [] then register else FeedBytes(FeedBits(register, bytes[0], 8), bytes[1..])
  }

  function Crc(bytes: seq<byte>): nat { Xor(FeedBytes(ALL_ONES, bytes), ALL_ONES) }

  // ----- the register is linear

  lemma ShiftLinear(x: nat, y: nat)
    ensures Shift(Xor(x, y)) == Xor(Shift(x), Shift(y))
  {
    BitwiseUnfold(XOR, x, y);
    XorRegroup(POLYNOMIAL, x / 2, y / 2);
  }

  lemma XorRegroup(p: nat, a: nat, b: nat)
    ensures Xor(Xor(p, a), b) == Xor(p, Xor(a, b)) == Xor(a, Xor(p, b))
    ensures Xor(Xor(p, a), Xor(p, b)) == Xor(a, b)
  {
    XorAssociates(p, a, b);
    XorAssociates(a, p, b);
    XorCommutes(p, a);
    XorAssociates(a, p, Xor(p, b));
    XorAssociates(p, p, b);
    XorSelf(p);
    XorZero(b);
  }

  lemma {:induction false} ShiftTimesLinear(x: nat, y: nat, k: nat)
    ensures ShiftTimes(Xor(x, y), k) == Xor(ShiftTimes(x, k), ShiftTimes(y, k))
    decreases k
  {
    if k > 0 {
      ShiftLinear(x, y);
      ShiftTimesLinear(Shift(x), Shift(y), k - 1);
    }
  }

  lemma ShiftIsWord(x: uint32)
    ensures Shift(x) < 0x1_0000_0000
  {
    Pow2Values();
    BitwiseBound(XOR, POLYNOMIAL, x / 2, 32);
  }

  lemma {:induction false} ShiftTimesIsWord(x: uint32, k: nat)
    ensures ShiftTimes(x, k) < 0x1_0000_0000
    decreases k
  {
    if k > 0 {
      ShiftIsWord(x);
      ShiftTimesIsWord(Shift(x), k - 1);
    }
  }

  // The low bits of a register that are zero are just shifted out.
  lemma {:induction false} ShiftOutZeros(x: nat, k: nat)
    ensures ShiftTimes(Shl(x, k), k) == x
  {
    if k > 0 {
      assert Shift(Shl(x, k)) == Shl(x, k - 1);
      ShiftOutZeros(x, k - 1);
    }
  }

  /** Feeding k bits one at a time is adding them to the register and shifting k times. */
  lemma {:induction false} FeedBitsIsShift(register: nat, b: nat, k: nat)
    requires b < Pow2(k)
    ensures FeedBits(register, b, k) == ShiftTimes(Xor(register, b), k)
    decreases k
  {
    if k == 0 {
      XorZero(register);
    } else {
      var bit, rest := b % 2, b / 2;
      FeedBitsIsShift(FeedBit(register, bit), rest, k - 1);
      BitPlusRest(bit, rest);
      // Shift(register ^ b) == Shift(register ^ bit) ^ Shift(2 * rest), and Shift(2 * rest) == rest
      ShiftLinear(Xor(register, bit), 2 * rest);
      XorAssociates(register, bit, 2 * rest);
    }
  }

  lemma BitPlusRest(bit: nat, rest: nat)
    requires bit < 2
    ensures Xor(bit, 2 * rest) == 2 * rest + bit
  {
    BitwiseUnfold(XOR, bit, 2 * rest);
    XorZero(rest);
  }

  // ----- the table

  function TableEntry(i: nat): nat { ShiftTimes(i, 8) }

  /** One byte at a time: step8(x) == table[x & 255] ^ (x >>> 8). */
  lemma EightShifts(x: nat)
    ensures ShiftTimes(x, 8) == Xor(x / 256, TableEntry(x % 256))
  {
    var hi, lo := x / 256, x % 256;
    Pow2Values();
    ShlIsMultiplication(hi, 8);
    ShlIsMultiplication(0, 8);
    BitwiseSplit(XOR, hi, 0, 0, lo, 8);
    XorZero(hi);
    XorZero(lo);
    assert x == Xor(Shl(hi, 8), lo);
    ShiftTimesLinear(Shl(hi, 8), lo, 8);
    ShiftOutZeros(hi, 8);
  }

  lemma ShiftByLowBit(x: nat)
    ensures Shift(x) == if And(x, 1) == 1 then Xor(POLYNOMIAL, x / 2) else x / 2
  {
    BitwiseUnfold(AND, x, 1);
    AndZero(x / 2);
  }

  method CreateCrcTable() returns (table: array<uint32>)
    ensures fresh(table) && table.Length == 256
    ensures forall i :: 0 <= i < 256 ==> table[i] == TableEntry(i)
  {
    table := new uint32[256];
    var i := 0;
    while i < 256
      invariant 0 <= i <= 256
      invariant forall j :: 0 <= j < i ==> table[j] == TableEntry(j)
    {
      var value: uint32 := i;
      var bit := 0;
      while bit < 8
        invariant 0 <= bit <= 8
        invariant forall j :: 0 <= j < i ==> table[j] == TableEntry(j)
        invariant ShiftTimes(value, 8 - bit) == TableEntry(i)
      {
        ghost var before := value;
        ShiftIsWord(value);
        ShiftByLowBit(value);
        value := if And(value, 1) == 1 then Xor(POLYNOMIAL, value / 2) else value / 2;
        bit := bit + 1;
        assert value == Shift(before);
        assert ShiftTimes(before, 9 - bit) == ShiftTimes(value, 8 - bit);
      }
      table[i] := value;
      i := i + 1;
    }
  }

  lemma FeedByteIsLookup(crc: uint32, b: byte)
    ensures FeedBits(crc, b, 8) == Xor(crc / 256, TableEntry(And(Xor(crc, b), 0xff)))
    ensures And(Xor(crc, b), 0xff) < 256
  {
    Pow2Values();
    FeedBitsIsShift(crc, b, 8);
    EightShifts(Xor(crc, b));
    LowByte(Xor(crc, b));
    XorLeavesHighBytes(crc, b);
  }

  lemma XorLeavesHighBytes(x: nat, b: byte)
    ensures Xor(x, b) / 256 == x / 256
  {
    Pow2Values();
    ShlIsMultiplication(x / 256, 8);
    ShlIsMultiplication(0, 8);
    BitwiseSplit(XOR, x / 256, x % 256, 0, b, 8);
    XorZero(x / 256);
    BitwiseBound(XOR, x % 256, b, 8);
  }

  lemma FeedByteIsWord(crc: uint32, b: byte)
    ensures FeedBits(crc, b, 8) < 0x1_0000_0000
  {
    Pow2Values();
    FeedBitsIsShift(crc, b, 8);
    BitwiseBound(XOR, crc, b, 32);
    ShiftTimesIsWord(Xor(crc, b), 8);
  }

  /** The table-driven loop computes the bit-by-bit CRC of every byte sequence. */
  method ComputeCrc32(buffer: seq<byte>, crcTable: array<uint32>) returns (result: uint32)
    requires crcTable.Length == 256 && forall i :: 0 <= i < 256 ==> crcTable[i] == TableEntry(i)
    ensures result == Crc(buffer)
  {
    var crc: uint32 := ALL_ONES;
    for i := 0 to |buffer|
      invariant FeedBytes(crc, buffer[i..]) == FeedBytes(ALL_ONES, buffer)
    {
      var b := buffer[i];
      FeedByteIsLookup(crc, b);
      FeedByteIsWord(crc, b);
      assert buffer[i..][1..] == buffer[i + 1..];
      crc := Xor(crc / 256, crcTable[And(Xor(crc, b), 0xff)]);
    }
    Pow2Values();
    BitwiseBound(XOR, crc, ALL_ONES, 32);
    result := Xor(crc, ALL_ONES);
  }

  lemma {:induction false} FeedBytesIsWord(register: uint32, bytes: seq<byte>)
    ensures FeedBytes(register, bytes) < 0x1_0000_0000
    decreases bytes
  {
    if bytes != [] {
      FeedByteIsWord(register, bytes[0]);
      FeedBytesIsWord(FeedBits(register, bytes[0], 8), bytes[1..]);
    }
  }

  lemma CrcIsWord(bytes: seq<byte>)
    ensures Crc(bytes) < 0x1_0000_0000
  {
    Pow2Values();
    FeedBytesIsWord(ALL_ONES, bytes);
    BitwiseBound(XOR, FeedBytes(ALL_ONES, bytes), ALL_ONES, 32);
  }

  // ----- error detection

  // The polynomial's top bit tells whether a one was shifted out.
  lemma TopBit(a: nat)
    requires a < 0x8000_0000
    ensures Xor(POLYNOMIAL, a) >= 0x8000_0000
  {
    Pow2Values();
    ShlIsMultiplication(1, 31);
    ShlIsMultiplication(0, 31);
    BitwiseSplit(XOR, 1, 0x6db88320, 0, a, 31);
    assert Xor(1, 0) == 1;
    ShlIsMultiplication(Xor(1, 0), 31);
  }

  lemma ShiftInjective(x: uint32, y: uint32)
    requires Shift(x) == Shift(y)
    ensures x == y
  {
    TopBit(x / 2);
    TopBit(y / 2);
    if x % 2 == 1 {
      XorCommutes(POLYNOMIAL, x / 2);
      XorCommutes(POLYNOMIAL, y / 2);
      XorCancels(x / 2, y / 2, POLYNOMIAL);
    }
  }

  lemma {:induction false} ShiftTimesInjective(x: uint32, y: uint32, k: nat)
    requires ShiftTimes(x, k) == ShiftTimes(y, k)
    ensures x == y
    decreases k
  {
    if k > 0 {
      ShiftIsWord(x);
      ShiftIsWord(y);
      ShiftTimesInjective(Shift(x), Shift(y), k - 1);
      ShiftInjective(x, y);
    }
  }

  // Feeding one number of j bits and then another of k bits.
  lemma {:induction false} FeedBitsSplit(register: nat, lo: nat, hi: nat, j: nat, k: nat)
    requires lo < Pow2(j)
    ensures FeedBits(register, Shl(hi, j) + lo, j + k) == FeedBits(FeedBits(register, lo, j), hi, k)
    decreases j
  {
    if j > 0 {
      var b := Shl(hi, j) + lo;
      assert b % 2 == lo % 2 && b / 2 == Shl(hi, j - 1) + lo / 2;
      FeedBitsSplit(FeedBit(register, lo % 2), lo / 2, hi, j - 1, k);
    }
  }

  // The bytes as one number, the first byte lowest.
  function LittleEndian(bytes: seq<byte>): nat {
    if bytes == [] then 0 else Shl(LittleEndian(bytes[1..]), 8) + bytes[0]
  }

  lemma {:induction false} LittleEndianBound(bytes: seq<byte>)
    ensures LittleEndian(bytes) < Pow2(8 * |bytes|)
  {
    if bytes != [] {
      LittleEndianBound(bytes[1..]);
      Pow2Values();
      Pow2Add(8, 8 * |bytes[1..]|);
      ShlIsMultiplication(LittleEndian(bytes[1..]), 8);
    }
  }

  lemma {:induction false} LittleEndianInjective(a: seq<byte>, b: seq<byte>)
    requires |a| == |b| && LittleEndian(a) == LittleEndian(b)
    ensures a == b
  {
    if a != [] {
      Pow2Values();
      ShlIsMultiplication(LittleEndian(a[1..]), 8);
      ShlIsMultiplication(LittleEndian(b[1..]), 8);
      LittleEndianInjective(a[1..], b[1..]);
      assert a == [a[0]] + a[1..] && b == [b[0]] + b[1..];
    }
  }

  lemma {:induction false} FeedBytesIsFeedBits(register: nat, bytes: seq<byte>)
    ensures FeedBytes(register, bytes) == FeedBits(register, LittleEndian(bytes), 8 * |bytes|)
    decreases bytes
  {
    if bytes != [] {
      Pow2Values();
      FeedBytesIsFeedBits(FeedBits(register, bytes[0], 8), bytes[1..]);
      FeedBitsSplit(register, bytes[0], LittleEndian(bytes[1..]), 8, 8 * |bytes[1..]|);
    }
  }

  lemma {:induction false} FeedBytesInjectiveInRegister(x: uint32, y: uint32, bytes: seq<byte>)
    requires FeedBytes(x, bytes) == FeedBytes(y, bytes)
    ensures x == y
    decreases bytes
  {
    if bytes != [] {
      FeedByteIsWord(x, bytes[0]);
      FeedByteIsWord(y, bytes[0]);
      FeedBytesInjectiveInRegister(FeedBits(x, bytes[0], 8), FeedBits(y, bytes[0], 8), bytes[1..]);
      Pow2Values();
      FeedBitsIsShift(x, bytes[0], 8);
      FeedBitsIsShift(y, bytes[0], 8);
      BitwiseBound(XOR, x, bytes[0], 32);
      BitwiseBound(XOR, y, bytes[0], 32);
      ShiftTimesInjective(Xor(x, bytes[0]), Xor(y, bytes[0]), 8);
      XorCancels(x, y, bytes[0]);
    }
  }

  lemma FeedBytesInjectiveInWindow(register: uint32, a: seq<byte>, b: seq<byte>)
    requires |a| == |b| <= 4 && FeedBytes(register, a) == FeedBytes(register, b)
    ensures a == b
  {
    var x, y, k := LittleEndian(a), LittleEndian(b), 8 * |a|;
    FeedBytesIsFeedBits(register, a);
    FeedBytesIsFeedBits(register, b);
    LittleEndianBound(a);
    LittleEndianBound(b);
    FeedBitsIsShift(register, x, k);
    FeedBitsIsShift(register, y, k);
    Pow2Values();
    Pow2Monotone(k, 32);
    BitwiseBound(XOR, register, x, 32);
    BitwiseBound(XOR, register, y, 32);
    ShiftTimesInjective(Xor(register, x), Xor(register, y), k);
    XorCommutes(register, x);
    XorCommutes(register, y);
    XorCancels(x, y, register);
    LittleEndianInjective(a, b);
  }

  lemma {:induction false} FeedBytesConcat(register: nat, a: seq<byte>, b: seq<byte>)
    ensures FeedBytes(register, a + b) == FeedBytes(FeedBytes(register, a), b)
    decreases a
  {
    if a == [] {
      assert a + b == b;
    } else {
      assert (a + b)[1..] == a[1..] + b;
      FeedBytesConcat(FeedBits(register, a[0], 8), a[1..], b);
    }
  }

  /** Whatever is done to up to four consecutive bytes, short of leaving them as they are, changes
      the CRC: every error burst of at most 32 bits that lies in four bytes is detected. */
  lemma BurstIsDetected(before: seq<byte>, a: seq<byte>, b: seq<byte>, after: seq<byte>)
    requires |a| == |b| <= 4 && a != b
    ensures Crc(before + a + after) != Crc(before + b + after)
  {
    var register := FeedBytes(ALL_ONES, before);
    FeedBytesIsWord(ALL_ONES, before);
    FeedBytesConcat(ALL_ONES, before, a);
    FeedBytesConcat(ALL_ONES, before, b);
    FeedBytesConcat(ALL_ONES, before + a, after);
    FeedBytesConcat(ALL_ONES, before + b, after);
    if Crc(before + a + after) == Crc(before + b + after) {
      XorCancels(FeedBytes(ALL_ONES, before + a + after), FeedBytes(ALL_ONES, before + b + after), ALL_ONES);
      FeedBytesIsWord(register, a);
      FeedBytesIsWord(register, b);
      FeedBytesInjectiveInRegister(FeedBytes(register, a), FeedBytes(register, b), after);
      FeedBytesInjectiveInWindow(register, a, b);
    }
  }
}
