// The bitwise operators of the source, on unsigned integers, defined by their action on
// binary digits. A 32-bit word is a natural number below 2^32.

module Bits {

  datatype Op = AND | OR | XOR

  // The operator on one pair of binary digits.
  function Digit(op: Op, x: nat, y: nat): (d: nat)
    requires x < 2 && y < 2
    ensures d < 2
  {
    match op
    case AND => if x == 1 && y == 1 then 1 else 0
    case OR => if x == 1 || y == 1 then 1 else 0
    case XOR => if x != y then 1 else 0
  }

  function Bitwise(op: Op, a: nat, b: nat): nat
    decreases a + b
  {
    if a == 0 && b == 0 then 0
    else 2 * Bitwise(op, a / 2, b / 2) + Digit(op, a % 2, b % 2)
  }

  function And(a: nat, b: nat): nat { Bitwise(AND, a, b) }

  function Or(a: nat, b: nat): nat { Bitwise(OR, a, b) }

  function Xor(a: nat, b: nat): nat { Bitwise(XOR, a, b) }

  function Pow2(k: nat): (p: nat)
    ensures p > 0
  {
    if k == 0 then 1 else 2 * Pow2(k - 1)
  }

  // `~a` on words of the given width.
  function Not(a: nat, width: nat): nat
    requires a < Pow2(width)
  {
    Pow2(width) - 1 - a
  }

  lemma Pow2Values()
    ensures Pow2(8) == 0x100 && Pow2(16) == 0x1_0000 && Pow2(24) == 0x100_0000
    ensures Pow2(31) == 0x8000_0000 && Pow2(32) == 0x1_0000_0000
  {
    Pow2Add(8, 8);
    Pow2Add(16, 8);
    Pow2Add(24, 7);
    assert Pow2(7) == 128;
    assert Pow2(32) == 2 * Pow2(31);
  }

  lemma {:induction false} Pow2Add(j: nat, k: nat)
    ensures Pow2(j + k) == Pow2(j) * Pow2(k)
  {
    if k > 0 {
      Pow2Add(j, k - 1);
    }
  }

  lemma {:induction false} Pow2Monotone(j: nat, k: nat)
    requires j <= k
    ensures Pow2(j) <= Pow2(k)
  {
    if j < k {
      Pow2Monotone(j, k - 1);
    }
  }

  lemma {:induction false} BitwiseBound(op: Op, a: nat, b: nat, k: nat)
    requires a < Pow2(k) && b < Pow2(k)
    ensures Bitwise(op, a, b) < Pow2(k)
  {
    if a != 0 || b != 0 {
      BitwiseBound(op, a / 2, b / 2, k - 1);
    }
  }

  // `a << k`, without truncation.
  function Shl(a: nat, k: nat): nat { if k == 0 then a else 2 * Shl(a, k - 1) }

  /** The operators act on the high and the low part of a word separately. */
  lemma {:induction false} BitwiseSplit(op: Op, a: nat, b: nat, c: nat, d: nat, k: nat)
    requires b < Pow2(k) && d < Pow2(k)
    ensures Bitwise(op, Shl(a, k) + b, Shl(c, k) + d) == Shl(Bitwise(op, a, c), k) + Bitwise(op, b, d)
  {
    if k > 0 {
      BitwiseSplit(op, a, b / 2, c, d / 2, k - 1);
      DoubledBitwise(op, Shl(a, k - 1), b, Shl(c, k - 1), d);
    }
  }

  lemma DoubledBitwise(op: Op, x: nat, b: nat, y: nat, d: nat)
    ensures Bitwise(op, 2 * x + b, 2 * y + d) == 2 * Bitwise(op, x + b / 2, y + d / 2) + Digit(op, b % 2, d % 2)
  {
    BitwiseUnfold(op, 2 * x + b, 2 * y + d);
    assert (2 * x + b) / 2 == x + b / 2 && (2 * y + d) / 2 == y + d / 2;
  }

  lemma {:induction false} ShlIsMultiplication(a: nat, k: nat)
    ensures Shl(a, k) == a * Pow2(k)
  {
    if k > 0 {
      ShlIsMultiplication(a, k - 1);
    }
  }

  lemma BitwiseUnfold(op: Op, a: nat, b: nat)
    ensures Bitwise(op, a, b) == 2 * Bitwise(op, a / 2, b / 2) + Digit(op, a % 2, b % 2)
  {
  }

  lemma {:induction false} XorZero(a: nat)
    ensures Xor(a, 0) == a && Xor(0, a) == a
  {
    if a > 0 {
      XorZero(a / 2);
    }
  }

  lemma {:induction false} XorSelf(a: nat)
    ensures Xor(a, a) == 0
  {
    if a > 0 {
      XorSelf(a / 2);
    }
  }

  lemma {:induction false} XorCommutes(a: nat, b: nat)
    ensures Xor(a, b) == Xor(b, a)
    decreases a + b
  {
    if a != 0 || b != 0 {
      XorCommutes(a / 2, b / 2);
    }
  }

  lemma {:induction false} XorAssociates(a: nat, b: nat, c: nat)
    ensures Xor(Xor(a, b), c) == Xor(a, Xor(b, c))
    decreases a + b + c
  {
    if a != 0 || b != 0 || c != 0 {
      XorAssociates(a / 2, b / 2, c / 2);
      BitwiseUnfold(XOR, Xor(a, b), c);
      BitwiseUnfold(XOR, a, Xor(b, c));
      BitwiseUnfold(XOR, a, b);
      BitwiseUnfold(XOR, b, c);
    }
  }

  lemma XorCancels(a: nat, b: nat, m: nat)
    requires Xor(a, m) == Xor(b, m)
    ensures a == b
  {
    XorAssociates(a, m, m);
    XorAssociates(b, m, m);
    XorSelf(m);
    XorZero(a);
    XorZero(b);
  }

  // x & 255
  lemma LowByte(x: nat)
    ensures And(x, 0xff) == x % 256
  {
    Pow2Values();
    ShlIsMultiplication(x / 256, 8);
    ShlIsMultiplication(0, 8);
    BitwiseSplit(AND, x / 256, x % 256, 0, 0xff, 8);
    AndZero(x / 256);
    AndOnes(x % 256, 8);
  }

  lemma {:induction false} AndZero(a: nat)
    ensures And(a, 0) == 0
  {
    if a > 0 {
      AndZero(a / 2);
    }
  }

  lemma {:induction false} AndOnes(a: nat, k: nat)
    requires a < Pow2(k)
    ensures And(a, Pow2(k) - 1) == a
  {
    if k > 0 {
      AndOnes(a / 2, k - 1);
      BitwiseUnfold(AND, a, Pow2(k) - 1);
    }
  }

  /** Numbers without a common digit are added by `|`. */
  lemma OrIsSum(a: nat, b: nat, k: nat)
    requires b < Pow2(k)
    ensures Or(Shl(a, k), b) == Shl(a, k) + b
  {
    ShlIsMultiplication(0, k);
    BitwiseSplit(OR, a, 0, 0, b, k);
    OrZero(a);
    OrZero(b);
  }

  lemma {:induction false} OrZero(a: nat)
    ensures Or(a, 0) == a && Or(0, a) == a
  {
    if a > 0 {
      OrZero(a / 2);
    }
  }
}
