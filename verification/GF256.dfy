/**
 * Arithmetic in GF(2^8). A field is given by the low byte of its polynomial:
 * 0x69 stands for 0x169 (the MDS matrix) and 0x4D for 0x14D (the Reed-Solomon code).
 */
module GF256 {
  import opened Words

  const MDS_FIELD: byte := 0x69
  const RS_FIELD: byte := 0x4D

  /** Multiplication by X. */
  function XTime(f: byte, a: byte): byte { (a << 1) ^ (f & (0 - (a >> 7))) }

  /** a when the lowest bit of m is set, and 0 otherwise. */
  function Pick(m: byte, a: byte): byte { a & (0 - (m & 1)) }

  /** Drops the lowest bit. */
  function Half(b: byte): byte { b >> 1 }

  /** The product of two field elements: the sum of a * X^i over the bits i of b. */
  function Mul(f: byte, a: byte, b: byte): byte
    decreases b
  {
    if b == 0 then 0 else XorB(Pick(b, a), Mul(f, XTime(f, a), Half(b)))
  }

  lemma XTimeOfSum(f: byte, a: byte, b: byte)
    ensures XTime(f, a ^ b) == XTime(f, a) ^ XTime(f, b)
  {
  }

  lemma PickOfSum(m: byte, a: byte, b: byte)
    ensures Pick(m, a ^ b) == Pick(m, a) ^ Pick(m, b)
  {
  }

  lemma XTimeSum(f: byte, a: byte, b: byte)
    ensures XTime(f, XorB(a, b)) == XorB(XTime(f, a), XTime(f, b))
  {
    XTimeOfSum(f, a, b);
  }

  lemma PickSum(f: byte, a: byte, b: byte)
    ensures Pick(f, XorB(a, b)) == XorB(Pick(f, a), Pick(f, b))
  {
    PickOfSum(f, a, b);
  }

  lemma {:induction false} MulLeft(f: byte, a: byte, b: byte, c: byte)
    ensures Mul(f, XorB(a, b), c) == XorB(Mul(f, a, c), Mul(f, b, c))
    decreases c
  {
    if c == 0 {
    } else {
      XTimeSum(f, a, b);
      PickSum(c, a, b);
      MulLeft(f, XTime(f, a), XTime(f, b), Half(c));
      SwapXorB(Pick(c, a), Pick(c, b), Mul(f, XTime(f, a), Half(c)), Mul(f, XTime(f, b), Half(c)));
    }
  }

  lemma ShiftOfXor(b: byte, c: byte)
    ensures Half(XorB(b, c)) == XorB(Half(b), Half(c))
    ensures XorB(b, c) == 0 ==> b == c
    ensures XorB(b, b) == 0 && XorB(b, 0) == b && XorB(0, b) == b
  {
  }

  /** Multiplication by X^2. */
  function XTime2(f: byte, a: byte): byte {
    var a1 := (a << 1) ^ (f & (0 - (a >> 7)));
    (a1 << 1) ^ (f & (0 - (a1 >> 7)))
  }

  /** The two lowest terms of a product. */
  function MulTwo(f: byte, a: byte, b: byte): byte {
    (a & (0 - (b & 1))) ^ (((a << 1) ^ (f & (0 - (a >> 7)))) & (0 - ((b >> 1) & 1)))
  }

  /** The four lowest terms of a product, where c is b without its two lowest bits. */
  function MulFour(f: byte, a: byte, b: byte, c: byte): byte {
    XorB(MulTwo(f, a, b), MulTwo(f, XTime2(f, a), c))
  }

  /** The product written out, to evaluate it at constants. */
  function MulFast(f: byte, a: byte, b: byte): byte {
    XorB(MulFour(f, a, b, b >> 2), MulFour(f, XTime2(f, XTime2(f, a)), b >> 4, b >> 6))
  }

  lemma MulStep(f: byte, a: byte, b: byte)
    ensures Mul(f, a, b) == XorB(Pick(b, a), Mul(f, XTime(f, a), Half(b)))
  {
    ShiftOfXor(0, 0);
  }

  lemma TwoStepParts(f: byte, a: byte, b: byte)
    ensures XTime2(f, a) == XTime(f, XTime(f, a))
    ensures MulTwo(f, a, b) == XorB(Pick(b, a), Pick(Half(b), XTime(f, a)))
    ensures Half(Half(b)) == b >> 2
  {
  }

  lemma MulTwoSteps(f: byte, a: byte, b: byte)
    ensures Mul(f, a, b) == XorB(MulTwo(f, a, b), Mul(f, XTime2(f, a), b >> 2))
  {
    MulStep(f, a, b);
    MulStep(f, XTime(f, a), Half(b));
    TwoStepParts(f, a, b);
    AssocXorB(Pick(b, a), Pick(Half(b), XTime(f, a)), Mul(f, XTime2(f, a), b >> 2));
  }

  lemma ShiftsByTwo(b: byte)
    ensures (b >> 2) >> 2 == b >> 4 && (b >> 4) >> 2 == b >> 6 && (b >> 6) >> 2 == 0
  {
  }

  lemma MulFourSteps(f: byte, a: byte, b: byte, c: byte)
    requires c == b >> 2
    ensures Mul(f, a, b) == XorB(MulFour(f, a, b, c), Mul(f, XTime2(f, XTime2(f, a)), c >> 2))
  {
    var a2 := XTime2(f, a);
    MulTwoSteps(f, a, b);
    MulTwoSteps(f, a2, c);
    AssocXorB(MulTwo(f, a, b), MulTwo(f, a2, c), Mul(f, XTime2(f, a2), c >> 2));
  }

  lemma AddZero(a: byte)
    ensures XorB(a, 0) == a
  {
  }

  lemma MulHighBits(f: byte, a: byte, b: byte, c: byte)
    requires c == b >> 2 && c >> 2 == 0
    ensures Mul(f, a, b) == MulFour(f, a, b, c)
  {
    MulFourSteps(f, a, b, c);
    AddZero(MulFour(f, a, b, c));
  }

  lemma MulIsFast(f: byte, a: byte, b: byte)
    ensures Mul(f, a, b) == MulFast(f, a, b)
  {
    ShiftsByTwo(b);
    MulFourSteps(f, a, b, b >> 2);
    MulHighBits(f, XTime2(f, XTime2(f, a)), b >> 4, b >> 6);
  }
}
