/** Fixed-width unsigned integers and the bit operations the interpreter needs,
    stated over mathematical integers.

    Rust's `u8`, `u16` and the 4-bit instruction fields are subset types of `int`.
    Bitwise OR/AND/XOR and single-bit tests are defined arithmetically, bit by bit
    from the least significant end, so that every contract about them can be
    proved with linear arithmetic and induction. */
module Bits {

  /** Rust `u8`. */
  type Byte = x: int | 0 <= x < 0x100

  /** Rust `u16`. */
  type Word = x: int | 0 <= x < 0x1_0000

  /** A 4-bit instruction field: a register index or a nibble value. */
  type Nibble = x: int | 0 <= x < 0x10

  /** Bit k of v, where bit 0 is the least significant one. */
  predicate Bit(v: nat, k: nat)
  {
    if k == 0 then v % 2 == 1 else Bit(v / 2, k - 1)
  }

  function Pow2(k: nat): (r: nat)
    ensures r >= 1
    ensures r > k && (k > 0 ==> r % 2 == 0)
  {
    if k == 0 then 1 else 2 * Pow2(k - 1)
  }

  /** The three bitwise connectives of the instruction set (8xy1, 8xy2, 8xy3, Cxkk). */
  datatype BitOp = Or | And | Xor

  function Apply(op: BitOp, p: bool, q: bool): bool
  {
    match op
    case Or => p || q
    case And => p && q
    case Xor => p != q
  }

  /** The bitwise combination of a and b, assembled from the least significant bit up. */
  function Bitwise(op: BitOp, a: nat, b: nat): nat
    decreases a + b
  {
    if a == 0 && b == 0 then 0
    else 2 * Bitwise(op, a / 2, b / 2) + (if Apply(op, a % 2 == 1, b % 2 == 1) then 1 else 0)
  }

  lemma {:induction false} ZeroHasNoBits(k: nat)
    ensures !Bit(0, k)
  {
    if k > 0 {
      ZeroHasNoBits(k - 1);
    }
  }

  /** A number below 2^n has no bit at position n or above. */
  lemma {:induction false} NoBitsAbove(v: nat, n: nat, k: nat)
    requires v < Pow2(n) && n <= k
    ensures !Bit(v, k)
    decreases n
  {
    if n == 0 {
      ZeroHasNoBits(k);
    } else {
      NoBitsAbove(v / 2, n - 1, k - 1);
    }
  }

  /** Numbers agreeing in every bit are equal. */
  lemma {:induction false} SameBitsSameNumber(a: nat, b: nat)
    requires forall k: nat :: Bit(a, k) == Bit(b, k)
    ensures a == b
    decreases a + b
  {
    if a + b > 0 {
      assert Bit(a, 0) == Bit(b, 0);
      forall k: nat
        ensures Bit(a / 2, k) == Bit(b / 2, k)
      {
        assert Bit(a, k + 1) == Bit(b, k + 1);
      }
      SameBitsSameNumber(a / 2, b / 2);
    }
  }

  /** Every bit of a bitwise combination is the connective applied to the operands' bits. */
  lemma {:induction false} BitwiseBits(op: BitOp, a: nat, b: nat)
    ensures forall k: nat :: Bit(Bitwise(op, a, b), k) == Apply(op, Bit(a, k), Bit(b, k))
    decreases a + b
  {
    if a == 0 && b == 0 {
      forall k: nat
        ensures Bit(Bitwise(op, a, b), k) == Apply(op, Bit(a, k), Bit(b, k))
      {
        ZeroHasNoBits(k);
      }
    } else {
      var r := Bitwise(op, a, b);
      var rest := Bitwise(op, a / 2, b / 2);
      assert r / 2 == rest;
      BitwiseBits(op, a / 2, b / 2);
      forall k: nat
        ensures Bit(r, k) == Apply(op, Bit(a, k), Bit(b, k))
      {
        if k > 0 {
          assert Bit(r, k) == Bit(rest, k - 1);
        }
      }
    }
  }

  /** Combining two numbers below 2^n stays below 2^n. */
  lemma {:induction false} BitwiseBound(op: BitOp, a: nat, b: nat, n: nat)
    requires a < Pow2(n) && b < Pow2(n)
    ensures Bitwise(op, a, b) < Pow2(n)
    decreases n
  {
    if a == 0 && b == 0 {
    } else {
      assert n > 0;
      BitwiseBound(op, a / 2, b / 2, n - 1);
    }
  }

  /** `a | b`, `a & b` or `a ^ b` on `u8`: a byte whose every bit is the connective of
      the operands' bits. */
  function ByteOp(op: BitOp, a: Byte, b: Byte): (r: Byte)
    ensures forall k: nat :: Bit(r, k) == Apply(op, Bit(a, k), Bit(b, k))
  {
    BitwiseBits(op, a, b);
    BitwiseBound(op, a, b, 8);
    Bitwise(op, a, b)
  }

  /** `v <<= 1` on `u8`: the top bit falls off. */
  function ShiftLeft(v: Byte): Byte
  {
    (2 * v) % 0x100
  }

  lemma MulAtLeast(q: int, k: int)
    requires q >= 1 && k >= 1
    ensures q * k >= q
  {
  }

  /** Division by a positive q has a unique quotient and remainder. */
  lemma DivModUnique(x: int, q: int, a: int, s: int)
    requires q >= 1 && x == q * a + s && 0 <= s < q
    ensures x % q == s && x / q == a
  {
    var d, m := x / q, x % q;
    assert x == q * d + m;
    assert q * (a - d) == m - s;
    if a - d >= 1 {
      MulAtLeast(q, a - d);
      assert false;
    }
    if a - d <= -1 {
      MulAtLeast(q, d - a);
      assert false;
    }
  }

  lemma HalveRemainder(v: nat, q: nat)
    requires q >= 1
    ensures (v % (2 * q)) / 2 == (v / 2) % q
    ensures (v % (2 * q)) % 2 == v % 2
  {
    var a := v / (2 * q);
    var r := v % (2 * q);
    assert v == 2 * q * a + r;
    assert v / 2 == q * a + r / 2;
    DivModUnique(v / 2, q, a, r / 2);
  }

  /** Reducing modulo 2^m keeps the bits below m. */
  lemma {:induction false} BitOfRemainder(v: nat, m: nat, j: nat)
    requires j < m
    ensures Bit(v % Pow2(m), j) == Bit(v, j)
    decreases j
  {
    HalveRemainder(v, Pow2(m - 1));
    if j > 0 {
      BitOfRemainder(v / 2, m - 1, j - 1);
    }
  }

  /** After a left shift, bit j + 1 holds what bit j held, and bit 0 is clear. */
  lemma ShiftLeftBits(v: Byte)
    ensures !Bit(ShiftLeft(v), 0)
    ensures forall j: nat :: 1 <= j < 8 ==> Bit(ShiftLeft(v), j) == Bit(v, j - 1)
  {
    assert ShiftLeft(v) / 2 == v % 128;
    assert Pow2(7) == 128;
    forall j: nat | 1 <= j < 8
      ensures Bit(ShiftLeft(v), j) == Bit(v, j - 1)
    {
      BitOfRemainder(v, 7, j - 1);
    }
  }
}
