/** Fixed-width unsigned integers of the interpreter, and the C bitwise
    operators on them, defined bit by bit on ordinary integers. */
module Bits {

  /** uint8_t */
  type Byte = v: int | 0 <= v < 0x100
  /** uint16_t */
  type Word = v: int | 0 <= v < 0x1_0000
  /** a 4-bit field of an opcode */
  type Nibble = v: int | 0 <= v < 0x10
  /** a 12-bit address field of an opcode */
  type Addr = v: int | 0 <= v < 0x1000

  /** Conversion of an int to uint8_t: the byte congruent to v modulo 256,
      which is v itself when v fits. */
  function Wrap8(v: int): (r: Byte)
    ensures (v - r) % 0x100 == 0
    ensures 0 <= v < 0x100 ==> r == v
  {
    v % 0x100
  }

  /** Conversion of an int to uint16_t: the word congruent to v modulo
      65536, which is v itself when v fits. */
  function Wrap16(v: int): (r: Word)
    ensures (v - r) % 0x1_0000 == 0
    ensures 0 <= v < 0x1_0000 ==> r == v
  {
    v % 0x1_0000
  }

  function Pow2(k: nat): (r: nat)
    ensures r >= 1
  {
    if k == 0 then 1 else 2 * Pow2(k - 1)
  }

  /** Bit i of v, bit 0 being the least significant. */
  function Bit(v: nat, i: nat): nat
  {
    (v / Pow2(i)) % 2
  }

  datatype BitOp = AndOp | OrOp | XorOp

  /** The operator on two single bits. */
  function BitTable(op: BitOp, a: nat, b: nat): nat
  {
    match op
    case AndOp => if a == 1 && b == 1 then 1 else 0
    case OrOp => if a == 1 || b == 1 then 1 else 0
    case XorOp => if a != b then 1 else 0
  }

  /** The operator applied to the low `width` bits of a and b, lowest bit last. */
  function Combine(op: BitOp, a: nat, b: nat, width: nat): (r: nat)
    requires a < Pow2(width) && b < Pow2(width)
    ensures r < Pow2(width)
    decreases width
  {
    if width == 0 then 0
    else 2 * Combine(op, a / 2, b / 2, width - 1) + BitTable(op, a % 2, b % 2)
  }

  /** C's `&` on bytes: each result bit is the AND of the operand bits, so
      the result is at most either operand. */
  function BitAnd(a: Byte, b: Byte): (r: Byte)
    ensures forall i | 0 <= i < 8 :: Bit(r, i) == BitTable(AndOp, Bit(a, i), Bit(b, i))
    ensures r <= a && r <= b
  {
    assert Pow2(8) == 0x100;
    AndAtMost(a, b, 8);
    BitsOfCombine(AndOp, a, b);
    Combine(AndOp, a, b, 8)
  }

  /** C's `|` on bytes: each result bit is the OR of the operand bits. */
  function BitOr(a: Byte, b: Byte): (r: Byte)
    ensures forall i | 0 <= i < 8 :: Bit(r, i) == BitTable(OrOp, Bit(a, i), Bit(b, i))
  {
    assert Pow2(8) == 0x100;
    BitsOfCombine(OrOp, a, b);
    Combine(OrOp, a, b, 8)
  }

  /** C's `^` on bytes: each result bit is the XOR of the operand bits. */
  function BitXor(a: Byte, b: Byte): (r: Byte)
    ensures forall i | 0 <= i < 8 :: Bit(r, i) == BitTable(XorOp, Bit(a, i), Bit(b, i))
  {
    assert Pow2(8) == 0x100;
    BitsOfCombine(XorOp, a, b);
    Combine(XorOp, a, b, 8)
  }

  /** BitOfCombine for every bit of a byte. */
  lemma BitsOfCombine(op: BitOp, a: Byte, b: Byte)
    requires Pow2(8) == 0x100
    ensures forall i | 0 <= i < 8 :: Bit(Combine(op, a, b, 8), i) == BitTable(op, Bit(a, i), Bit(b, i))
  {
    forall i | 0 <= i < 8
      ensures Bit(Combine(op, a, b, 8), i) == BitTable(op, Bit(a, i), Bit(b, i))
    {
      BitOfCombine(op, a, b, 8, i);
    }
  }

  /** Dropping the lowest bit moves every other bit down by one place. */
  lemma BitOfHalf(v: nat, i: nat)
    ensures Bit(v, i + 1) == Bit(v / 2, i)
  {
    var p := Pow2(i);
    var q := (v / 2) / p;
    var r1 := (v / 2) % p;
    assert v / 2 == q * p + r1;
    assert v == 2 * (v / 2) + v % 2;
    assert v == q * (2 * p) + (2 * r1 + v % 2);
    assert 0 <= 2 * r1 + v % 2 < 2 * p;
    DivUnique(v, 2 * p, q, 2 * r1 + v % 2);
  }

  lemma DivUnique(v: int, d: int, q: int, r: int)
    requires d > 0 && 0 <= r < d && v == q * d + r
    ensures v / d == q
  {
    var q' := v / d;
    var r' := v % d;
    assert (q' - q) * d == r - r' by {
      assert q' * d + r' == q * d + r;
    }
    if q' > q {
      MulAtLeast(q' - q, d);
    } else if q' < q {
      MulAtLeast(q - q', d);
    }
  }

  lemma {:induction false} MulAtLeast(k: int, d: int)
    requires k >= 1 && d > 0
    ensures k * d >= d
    decreases k
  {
    if k > 1 {
      MulAtLeast(k - 1, d);
      assert k * d == (k - 1) * d + d;
    }
  }

  /** Each bit of the result is the operator applied to the same bit of
      both operands: the definition of C's `&`, `|` and `^`. */
  lemma {:induction false} BitOfCombine(op: BitOp, a: nat, b: nat, width: nat, i: nat)
    requires a < Pow2(width) && b < Pow2(width) && i < width
    ensures Bit(Combine(op, a, b, width), i) == BitTable(op, Bit(a, i), Bit(b, i))
    decreases width
  {
    var rest := Combine(op, a / 2, b / 2, width - 1);
    var r := Combine(op, a, b, width);
    assert r == 2 * rest + BitTable(op, a % 2, b % 2);
    if i == 0 {
      assert Bit(r, 0) == r % 2 && Bit(a, 0) == a % 2 && Bit(b, 0) == b % 2;
    } else {
      BitOfHalf(r, i - 1);
      BitOfHalf(a, i - 1);
      BitOfHalf(b, i - 1);
      assert r / 2 == rest;
      BitOfCombine(op, a / 2, b / 2, width - 1, i - 1);
    }
  }

  /** Masking with `&` never yields more than either operand. */
  lemma {:induction false} AndAtMost(a: nat, b: nat, width: nat)
    requires a < Pow2(width) && b < Pow2(width)
    ensures Combine(AndOp, a, b, width) <= a && Combine(AndOp, a, b, width) <= b
    decreases width
  {
    if width > 0 {
      AndAtMost(a / 2, b / 2, width - 1);
    }
  }
}
