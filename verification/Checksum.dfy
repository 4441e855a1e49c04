// The FNV-1a checksum that a file transfer carries, and its textual form.

module Checksum {
  import opened Basics
  import opened Bits

  const FNV_OFFSET: uint32 := 0x811c9dc5

  // Math.imul by the FNV prime 0x01000193, read as unsigned: the low 32 bits of the product.
  function TimesPrime(h: nat): uint32 { (h * 0x01000193) % 0x1_0000_0000 }

  function Step(h: uint32, b: byte): uint32 { TimesPrime(Xor(h, b)) }

  function Fold(h: uint32, bytes: seq<byte>): uint32
    decreases bytes
  {
    if bytes == [] then h else Fold(Step(h, bytes[0]), bytes[1..])
  }

  function Fnv1a(bytes: seq<byte>): uint32 { Fold(FNV_OFFSET, bytes) }

  /** Published values of the 32-bit FNV-1a hash: of nothing, and of the letter a. */
  lemma KnownChecksums(letter: byte)
    requires letter == 'a' as nat
    ensures Fnv1a([]) == 0x811c9dc5 && Fnv1a([letter]) == 0xe40c292c
  {
    var bytes: seq<byte> := [letter];
    assert bytes[1..] == [];
    LetterMixed(FNV_OFFSET, letter);
    assert Fold(FNV_OFFSET, bytes) == Step(FNV_OFFSET, letter);
  }

  lemma LetterMixed(h: uint32, letter: byte)
    requires h == 0x811c9dc5 && letter == 'a' as nat
    ensures Xor(h, letter) == 0x811c9da4
  {
    Pow2Values();
    ShlIsMultiplication(0x811c9d, 8);
    ShlIsMultiplication(0, 8);
    BitwiseSplit(XOR, 0x811c9d, 0xc5, 0, 0x61, 8);
    XorZero(0x811c9d);
    LowByteMixed(0xc5, 0x61);
  }

  lemma LowByteMixed(x: nat, y: nat)
    requires x == 0xc5 && y == 0x61
    ensures Xor(x, y) == 0xa4
  {
    XorNibbles(12, 5, 6, 1);
  }

  lemma XorNibbles(a: nat, b: nat, c: nat, d: nat)
    requires a == 12 && b == 5 && c == 6 && d == 1
    ensures Xor(16 * a + b, 16 * c + d) == 16 * 10 + 4
  {
    ShlIsMultiplication(a, 4);
    ShlIsMultiplication(c, 4);
    BitwiseSplit(XOR, a, b, c, d, 4);
    assert Xor(a, c) == 10 && Xor(b, d) == 4;
    ShlIsMultiplication(10, 4);
  }

  method UpdateFileTransferChecksum(checksum: uint32, bytes: seq<byte>) returns (next: uint32)
    ensures next == Fold(checksum, bytes)
  {
    next := checksum;
    for i := 0 to |bytes|
      invariant Fold(next, bytes[i..]) == Fold(checksum, bytes)
    {
      assert bytes[i..][1..] == bytes[i + 1..];
      var mixed := Xor(next, bytes[i]);
      next := TimesPrime(mixed);
    }
  }

  lemma {:induction false} FoldConcat(h: uint32, a: seq<byte>, b: seq<byte>)
    ensures Fold(h, a + b) == Fold(Fold(h, a), b)
    decreases a
  {
    if a == [] {
      assert a + b == b;
    } else {
      assert (a + b)[1..] == a[1..] + b;
      FoldConcat(Step(h, a[0]), a[1..], b);
    }
  }

  function FoldChunks(h: uint32, chunks: seq<seq<byte>>): uint32
    decreases chunks
  {
    if chunks == [] then h else FoldChunks(Fold(h, chunks[0]), chunks[1..])
  }

  /** Updating chunk by chunk gives the checksum of the whole, however the bytes are cut. */
  lemma {:induction false} ChunkedFoldIsWholeFold(h: uint32, chunks: seq<seq<byte>>)
    ensures FoldChunks(h, chunks) == Fold(h, Flatten(chunks))
    decreases chunks
  {
    if chunks != [] {
      ChunkedFoldIsWholeFold(Fold(h, chunks[0]), chunks[1..]);
      FoldConcat(h, chunks[0], Flatten(chunks[1..]));
    }
  }

  // The prime is odd: 0x359c449b is its inverse modulo 2^32.
  lemma TimesPrimeInjective(m: uint32, n: uint32)
    requires TimesPrime(m) == TimesPrime(n)
    ensures m == n
  {
    var q := (m * 0x01000193) / 0x1_0000_0000 - (n * 0x01000193) / 0x1_0000_0000;
    assert (m - n) * 0x01000193 == q * 0x1_0000_0000;
    // 0x01000193 * 0x359c449b == 1 + 0x359c99 * 2^32
    assert 0x01000193 * 0x359c449b == 1 + 0x35_9c99 * 0x1_0000_0000;
    assert m - n == (q * 0x359c449b - (m - n) * 0x35_9c99) * 0x1_0000_0000;
  }

  lemma XorByteIsWord(h: uint32, b: byte)
    ensures Xor(h, b) < 0x1_0000_0000
  {
    Pow2Values();
    BitwiseBound(XOR, h, b, 32);
  }

  lemma StepInjectiveInState(h: uint32, k: uint32, b: byte)
    requires Step(h, b) == Step(k, b)
    ensures h == k
  {
    XorByteIsWord(h, b);
    XorByteIsWord(k, b);
    TimesPrimeInjective(Xor(h, b), Xor(k, b));
    XorCancels(h, k, b);
  }

  lemma StepInjectiveInByte(h: uint32, a: byte, b: byte)
    requires Step(h, a) == Step(h, b)
    ensures a == b
  {
    XorByteIsWord(h, a);
    XorByteIsWord(h, b);
    TimesPrimeInjective(Xor(h, a), Xor(h, b));
    XorCommutes(h, a);
    XorCommutes(h, b);
    XorCancels(a, b, h);
  }

  lemma {:induction false} FoldInjectiveInState(h: uint32, k: uint32, bytes: seq<byte>)
    requires Fold(h, bytes) == Fold(k, bytes)
    ensures h == k
    decreases bytes
  {
    if bytes != [] {
      FoldInjectiveInState(Step(h, bytes[0]), Step(k, bytes[0]), bytes[1..]);
      StepInjectiveInState(h, k, bytes[0]);
    }
  }

  /** Changing exactly one byte of a file, in place, always changes its checksum. */
  lemma SingleByteChangeIsDetected(a: seq<byte>, b: seq<byte>, i: nat)
    requires |a| == |b| && i < |a|
    requires a[i] != b[i]
    requires forall j :: 0 <= j < |a| && j != i ==> a[j] == b[j]
    ensures Fnv1a(a) != Fnv1a(b)
  {
    var before, after := a[..i], a[i + 1..];
    assert a == before + ([a[i]] + after) && b == before + ([b[i]] + after);
    var h := Fold(FNV_OFFSET, before);
    FoldConcat(FNV_OFFSET, before, [a[i]] + after);
    FoldConcat(FNV_OFFSET, before, [b[i]] + after);
    assert ([a[i]] + after)[1..] == after && ([b[i]] + after)[1..] == after;
    if Fnv1a(a) == Fnv1a(b) {
      FoldInjectiveInState(Step(h, a[i]), Step(h, b[i]), after);
      StepInjectiveInByte(h, a[i], b[i]);
    }
  }

  // ----- the eight-digit hexadecimal form

  function HexDigit(n: nat): char
    requires n < 16
  {
    if n < 10 then '0' + n as char else 'a' + (n - 10) as char
  }

  predicate IsHexDigit(c: char) {
    '0' <= c <= '9' || 'a' <= c <= 'f' || 'A' <= c <= 'F'
  }

  function ToLower(c: char): char { if 'A' <= c <= 'Z' then c + 32 as char else c }

  // Number.prototype.toString(16).
  function ToHex(n: nat): string {
    if n < 16 then [HexDigit(n)] else ToHex(n / 16) + [HexDigit(n % 16)]
  }

  // String.prototype.padStart with a one-character filler.
  function PadStart(s: string, length: nat, filler: char): string
    decreases length - |s|
  {
    if |s| >= length then s else PadStart([filler] + s, length, filler)
  }

  function FormatFileTransferChecksum(checksum: uint32): string {
    PadStart(ToHex(checksum), 8, '0')
  }

  function SanitizeChecksum(value: string): Option<string> {
    if |value| > 8 || value == "" then None
    else if |value| == 8 && forall i :: 0 <= i < 8 ==> IsHexDigit(value[i])
    then Some(seq(8, i requires 0 <= i < 8 => ToLower(value[i])))
    else None
  }

  function DigitValue(c: char): nat {
    if '0' <= c <= '9' then (c - '0') as nat
    else if 'a' <= c <= 'f' then (c - 'a') as nat + 10
    else 0
  }

  function HexValue(s: string): nat {
    if s == "" then 0 else 16 * HexValue(s[..|s| - 1]) + DigitValue(s[|s| - 1])
  }

  predicate LowerHex(s: string) {
    forall i :: 0 <= i < |s| ==> '0' <= s[i] <= '9' || 'a' <= s[i] <= 'f'
  }

  function Pow16(k: nat): nat { if k == 0 then 1 else 16 * Pow16(k - 1) }

  lemma {:induction false} ToHexValue(n: nat, k: nat)
    requires 1 <= k && n < Pow16(k)
    ensures HexValue(ToHex(n)) == n && 1 <= |ToHex(n)| <= k && LowerHex(ToHex(n))
    decreases n
  {
    if n < 16 {
      assert HexValue([HexDigit(n)]) == 16 * HexValue("") + DigitValue(HexDigit(n));
    } else {
      assert k != 1 by { assert Pow16(1) == 16 * Pow16(0); }
      ToHexValue(n / 16, k - 1);
      var front := ToHex(n / 16);
      assert (front + [HexDigit(n % 16)])[..|front|] == front;
    }
  }

  lemma {:induction false} LeadingZero(s: string)
    ensures HexValue("0" + s) == HexValue(s)
  {
    if s == "" {
      assert HexValue("0") == 16 * HexValue("0"[..0]) + DigitValue('0');
    } else {
      var z := "0" + s;
      assert z[..|z| - 1] == "0" + s[..|s| - 1];
      LeadingZero(s[..|s| - 1]);
    }
  }

  lemma {:induction false} PadStartValue(s: string, length: nat)
    requires |s| <= length && LowerHex(s)
    ensures |PadStart(s, length, '0')| == length
    ensures HexValue(PadStart(s, length, '0')) == HexValue(s)
    ensures LowerHex(PadStart(s, length, '0'))
    decreases length - |s|
  {
    if |s| < length {
      LeadingZero(s);
      PadStartValue("0" + s, length);
    }
  }

  lemma FormatValue(checksum: uint32)
    ensures var s := FormatFileTransferChecksum(checksum);
            |s| == 8 && LowerHex(s) && HexValue(s) == checksum
  {
    assert Pow16(8) == 0x1_0000_0000 by {
      assert Pow16(2) == 256 && Pow16(4) == 65536;
      assert Pow16(6) == 256 * Pow16(4);
      assert Pow16(8) == 256 * Pow16(6);
    }
    ToHexValue(checksum, 8);
    PadStartValue(ToHex(checksum), 8);
  }

  /** Different checksums never share a textual form. */
  lemma FormatInjective(a: uint32, b: uint32)
    requires FormatFileTransferChecksum(a) == FormatFileTransferChecksum(b)
    ensures a == b
  {
    FormatValue(a);
    FormatValue(b);
  }

  /** What the sender formats is what the receiver's validator passes on. */
  lemma FormatPassesSanitizer(checksum: uint32)
    ensures SanitizeChecksum(FormatFileTransferChecksum(checksum)) == Some(FormatFileTransferChecksum(checksum))
  {
    FormatValue(checksum);
    var s := FormatFileTransferChecksum(checksum);
    assert seq(8, i requires 0 <= i < 8 => ToLower(s[i])) == s;
  }
}
