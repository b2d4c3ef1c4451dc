/**
 * The Reed-Solomon code of the key schedule, over GF(2^8) with polynomial 0x14D: the shift-register
 * step of the program, polynomial division, and the code matrix of section 4.3 of the Twofish paper.
 */
module ReedSolomon {
  import opened Words
  import opened GF256

  // The two feedback bytes of a step, for the byte b that is shifted out.
  function G2(b: word): word { ((b << 1) ^ (if b & 0x80 != 0 then 0x14D else 0)) & 0xFF }
  function G3(b: word): word { (b >> 1) ^ (if b & 0x01 != 0 then 0x14D >> 1 else 0) ^ G2(b) }

  function Shifted(x: word, b: word, g2: word, g3: word): word {
    (x << 8) ^ (g3 << 24) ^ (g2 << 16) ^ (g3 << 8) ^ b
  }

  /** One step of the remainder computation. */
  function RsRem(x: word): word {
    var b := (x >> 24) & 0xFF;
    Shifted(x, b, G2(b), G3(b))
  }

  // Polynomials over the field, lowest coefficient first, as infinitely many coefficients.

  type Poly = seq<byte>

  function Coef(p: Poly, i: int): byte { if 0 <= i < |p| then p[i] else 0 }

  /** The generator X^4 + (a + 1/a) X^3 + a X^2 + (a + 1/a) X + 1 with a = X. */
  const GENERATOR: Poly := [0x01, 0xA4, 0x02, 0xA4, 0x01]

  /** The coefficient of X^i in the product of q and the generator. */
  function TimesGenerator(q: Poly, i: int): byte
    decreases |q|
  {
    if q == [] then 0 else XorB(Mul(RS_FIELD, q[0], Coef(GENERATOR, i)), TimesGenerator(q[1..], i - 1))
  }

  /** The i-th coefficient of a word. */
  function ByteAt(r: word, i: int): byte {
    match i
    case 0 => B0(r)
    case 1 => B1(r)
    case 2 => B2(r)
    case 3 => B3(r)
    case _ => 0
  }

  lemma WordCoef(r: word, i: int)
    ensures Coef(WordPoly(r), i) == ByteAt(r, i)
  {
  }

  function WordPoly(r: word): Poly { [B0(r), B1(r), B2(r), B3(r)] }

  /** p = q * generator + r */
  ghost predicate Divides(p: Poly, q: Poly, r: word) {
    forall i: nat :: Coef(p, i) == XorB(TimesGenerator(q, i), Coef(WordPoly(r), i))
  }

  /** The product by a. */
  function TimesA(b: byte): byte { (b << 1) ^ (if b & 0x80 != 0 then 0x4D else 0) }

  /** The product by a + 1/a. */
  function TimesSum(b: byte): byte { (b >> 1) ^ (if b & 0x01 != 0 then 0xA6 else 0) ^ TimesA(b) }

  lemma FeedbackConstants(b: byte)
    ensures Mul(RS_FIELD, b, 0x01) == b
    ensures Mul(RS_FIELD, b, 0x02) == TimesA(b)
    ensures Mul(RS_FIELD, b, 0xA4) == TimesSum(b)
  {
    MulIsFast(RS_FIELD, b, 0x01);
    MulIsFast(RS_FIELD, b, 0x02);
    MulIsFast(RS_FIELD, b, 0xA4);
  }

  /** With a = X, that is 0x02, the inverse of a is 0xA6, and a + 1/a is 0xA4. */
  lemma GeneratorCoefficients()
    ensures Mul(RS_FIELD, 0x02, 0xA6) == 0x01 && XorB(0x02, 0xA6) == 0xA4
  {
    MulIsFast(RS_FIELD, 0x02, 0xA6);
  }

  lemma FeedbackBytes(x: word)
    ensures (x >> 24) & 0xFF == B3(x) as word
    ensures G2(B3(x) as word) == TimesA(B3(x)) as word
    ensures G3(B3(x) as word) == TimesSum(B3(x)) as word
  {
  }

  lemma ShiftedByte0(x: word, b: byte, c: byte, d: byte)
    ensures B0(Shifted(x, b as word, d as word, c as word)) == b
  {
  }

  lemma ShiftedByte1(x: word, b: byte, c: byte, d: byte)
    ensures B1(Shifted(x, b as word, d as word, c as word)) == XorB(B0(x), c)
  {
  }

  lemma ShiftedByte2(x: word, b: byte, c: byte, d: byte)
    ensures B2(Shifted(x, b as word, d as word, c as word)) == XorB(B1(x), d)
  {
  }

  lemma ShiftedByte3(x: word, b: byte, c: byte, d: byte)
    ensures B3(Shifted(x, b as word, d as word, c as word)) == XorB(B2(x), c)
  {
  }

  lemma RsRemShifts(x: word)
    ensures RsRem(x) == Shifted(x, B3(x) as word, TimesA(B3(x)) as word, TimesSum(B3(x)) as word)
  {
    FeedbackBytes(x);
  }

  lemma RsRemByte0(x: word)
    ensures B0(RsRem(x)) == B3(x)
  {
    RsRemShifts(x);
    ShiftedByte0(x, B3(x), TimesSum(B3(x)), TimesA(B3(x)));
  }

  lemma RsRemByte1(x: word)
    ensures B1(RsRem(x)) == XorB(B0(x), TimesSum(B3(x)))
  {
    RsRemShifts(x);
    ShiftedByte1(x, B3(x), TimesSum(B3(x)), TimesA(B3(x)));
  }

  lemma RsRemByte2(x: word)
    ensures B2(RsRem(x)) == XorB(B1(x), TimesA(B3(x)))
  {
    RsRemShifts(x);
    ShiftedByte2(x, B3(x), TimesSum(B3(x)), TimesA(B3(x)));
  }

  lemma RsRemByte3(x: word)
    ensures B3(RsRem(x)) == XorB(B2(x), TimesSum(B3(x)))
  {
    RsRemShifts(x);
    ShiftedByte3(x, B3(x), TimesSum(B3(x)), TimesA(B3(x)));
  }

  /** The bytes after one step: shifted up, plus the top byte times the generator. */
  lemma RsRemBytes(x: word)
    ensures B0(RsRem(x)) == Mul(RS_FIELD, B3(x), 0x01)
    ensures B1(RsRem(x)) == XorB(B0(x), Mul(RS_FIELD, B3(x), 0xA4))
    ensures B2(RsRem(x)) == XorB(B1(x), Mul(RS_FIELD, B3(x), 0x02))
    ensures B3(RsRem(x)) == XorB(B2(x), Mul(RS_FIELD, B3(x), 0xA4))
  {
    FeedbackConstants(B3(x));
    RsRemByte0(x);
    RsRemByte1(x);
    RsRemByte2(x);
    RsRemByte3(x);
  }

  /** n steps of the remainder computation. */
  function RsSteps(r: word, n: nat): word {
    if n == 0 then r else RsRem(RsSteps(r, n - 1))
  }

  /** The four check bytes for the eight data bytes k0, k1. */
  function RsEncode(k0: word, k1: word): word { RsSteps(XorW(RsSteps(k1, 4), k0), 4) }

  /** The encoder as the program runs it. */
  method RsMdsEncode(k0: word, k1: word) returns (r: word)
    ensures r == RsEncode(k0, k1)
  {
    r := k1;
    for i := 0 to 4
      invariant r == RsSteps(k1, i)
    {
      r := RsRem(r);
    }
    r := r ^ k0;
    ghost var half := r;
    for i := 0 to 4
      invariant r == RsSteps(half, i)
    {
      r := RsRem(r);
    }
  }

  // Division by the generator.

  lemma TimesZero(b: byte)
    ensures Mul(RS_FIELD, b, 0) == 0 && Mul(RS_FIELD, 0, b) == 0
  {
    MulLeft(RS_FIELD, 0, 0, b);
    assert XorB(0, 0) == 0;
    assert forall m: byte :: XorB(m, m) == 0;
  }

  lemma {:induction false} NoNegativePowers(q: Poly, i: int)
    requires i < 0
    ensures TimesGenerator(q, i) == 0
  {
    if q != [] {
      TimesZero(q[0]);
      NoNegativePowers(q[1..], i - 1);
    }
  }

  lemma CancelSum(m: byte, b: byte)
    ensures XorB(XorB(b, m), m) == b && XorB(m, m) == 0 && XorB(0, b) == b && XorB(b, 0) == b
  {
  }

  lemma RegroupSum(m: byte, t: byte, c: byte)
    ensures XorB(XorB(m, t), c) == XorB(t, XorB(c, m))
  {
  }

  /** The i-th coefficient of the generator. */
  function GeneratorAt(i: int): byte {
    match i
    case 0 => 0x01
    case 1 => 0xA4
    case 2 => 0x02
    case 3 => 0xA4
    case 4 => 0x01
    case _ => 0x00
  }

  lemma GeneratorCoef(i: int)
    ensures Coef(GENERATOR, i) == GeneratorAt(i)
  {
  }

  /** What the multiple of the generator leaves of each byte: the byte below it, and nothing of the lowest. */
  lemma StepShiftsUp(x: word)
    ensures XorB(B0(RsRem(x)), Mul(RS_FIELD, B3(x), 0x01)) == 0
    ensures XorB(B1(RsRem(x)), Mul(RS_FIELD, B3(x), 0xA4)) == B0(x)
    ensures XorB(B2(RsRem(x)), Mul(RS_FIELD, B3(x), 0x02)) == B1(x)
    ensures XorB(B3(RsRem(x)), Mul(RS_FIELD, B3(x), 0xA4)) == B2(x)
    ensures XorB(0, Mul(RS_FIELD, B3(x), 0x01)) == B3(x)
  {
    RsRemBytes(x);
    CancelSum(Mul(RS_FIELD, B3(x), 0xA4), B0(x));
    CancelSum(Mul(RS_FIELD, B3(x), 0x02), B1(x));
    CancelSum(Mul(RS_FIELD, B3(x), 0xA4), B2(x));
    CancelSum(Mul(RS_FIELD, B3(x), 0x01), Mul(RS_FIELD, B3(x), 0x01));
    FeedbackConstants(B3(x));
  }

  lemma StepAt(x: word, i: int)
    ensures XorB(ByteAt(RsRem(x), i), Mul(RS_FIELD, B3(x), GeneratorAt(i))) == ByteAt(x, i - 1)
  {
    match i
    case 0 => StepShiftsUp(x);
    case 1 => StepShiftsUp(x);
    case 2 => StepShiftsUp(x);
    case 3 => StepShiftsUp(x);
    case 4 => StepShiftsUp(x);
    case _ =>
      TimesZero(B3(x));
      CancelSum(0, 0);
  }

  /** One step multiplies by X modulo the generator: X * x = b * generator + RsRem(x). */
  lemma RsRemIsTimesX(x: word, i: int)
    ensures XorB(Coef(WordPoly(RsRem(x)), i), Mul(RS_FIELD, B3(x), Coef(GENERATOR, i))) == Coef(WordPoly(x), i - 1)
  {
    WordCoef(RsRem(x), i);
    WordCoef(x, i - 1);
    GeneratorCoef(i);
    StepAt(x, i);
  }

  /** Multiplying a dividend by X takes its remainder through one step. */
  lemma DivideShifted(p: Poly, q: Poly, r: word)
    requires Divides(p, q, r)
    ensures Divides([0] + p, [B3(r)] + q, RsRem(r))
  {
    var b := B3(r);
    assert ([b] + q)[1..] == q;
    NoNegativePowers(q, -1);
    forall i: nat
      ensures Coef([0] + p, i) == XorB(TimesGenerator([b] + q, i), Coef(WordPoly(RsRem(r)), i))
    {
      var m, t := Mul(RS_FIELD, b, Coef(GENERATOR, i)), TimesGenerator(q, i - 1);
      assert TimesGenerator([b] + q, i) == XorB(m, t);
      RsRemIsTimesX(r, i);
      RegroupSum(m, t, Coef(WordPoly(RsRem(r)), i));
      if i > 0 {
        assert Coef(p, i - 1) == XorB(t, Coef(WordPoly(r), i - 1));
      } else {
        CancelSum(0, 0);
      }
    }
  }

  lemma ByteAtSum(r: word, k: word, i: int)
    ensures ByteAt(XorW(r, k), i) == XorB(ByteAt(r, i), ByteAt(k, i))
  {
    match i
    case 0 => XorBytes(r, k);
    case 1 => XorBytes(r, k);
    case 2 => XorBytes(r, k);
    case 3 => XorBytes(r, k);
    case _ => CancelSum(0, 0);
  }

  lemma WordPolySum(r: word, k: word, i: int)
    ensures Coef(WordPoly(XorW(r, k)), i) == XorB(Coef(WordPoly(r), i), Coef(WordPoly(k), i))
  {
    WordCoef(r, i);
    WordCoef(k, i);
    WordCoef(XorW(r, k), i);
    ByteAtSum(r, k, i);
  }

  lemma CoefBehindWord(k: word, tail: Poly, i: int)
    ensures Coef(WordPoly(k) + tail, i) == if i < 4 then Coef(WordPoly(k), i) else Coef(tail, i - 4)
    ensures Coef([0, 0, 0, 0] + tail, i) == if i < 4 then 0 else Coef(tail, i - 4)
  {
  }

  lemma AddToBoth(t: byte, c: byte, d: byte)
    ensures XorB(t, c) == 0 ==> XorB(t, XorB(c, d)) == d
    ensures XorB(t, XorB(c, 0)) == XorB(t, c)
  {
    AssocXorB(t, c, d);
    CancelSum(0, d);
    CancelSum(0, c);
  }

  /** Adding a low-degree polynomial to a dividend adds it to the remainder. */
  lemma DivideSum(tail: Poly, q: Poly, r: word, k: word)
    requires Divides([0, 0, 0, 0] + tail, q, r)
    ensures Divides(WordPoly(k) + tail, q, XorW(r, k))
  {
    forall i: nat
      ensures Coef(WordPoly(k) + tail, i) == XorB(TimesGenerator(q, i), Coef(WordPoly(XorW(r, k)), i))
    {
      assert Coef([0, 0, 0, 0] + tail, i) == XorB(TimesGenerator(q, i), Coef(WordPoly(r), i));
      CoefBehindWord(k, tail, i);
      WordPolySum(r, k, i);
      AddToBoth(TimesGenerator(q, i), Coef(WordPoly(r), i), Coef(WordPoly(k), i));
    }
  }

  /** The product by X^n. */
  function Raised(p: Poly, n: nat): Poly { if n == 0 then p else [0] + Raised(p, n - 1) }

  lemma RaisedByFour(p: Poly)
    ensures Raised(p, 4) == [0, 0, 0, 0] + p
  {
    assert Raised(p, 1) == [0] + p;
    assert Raised(p, 2) == [0, 0] + p;
    assert Raised(p, 3) == [0, 0, 0] + p;
  }

  lemma {:induction false} DivideSteps(p: Poly, q: Poly, r: word, n: nat) returns (q': Poly)
    requires Divides(p, q, r)
    ensures Divides(Raised(p, n), q', RsSteps(r, n))
  {
    if n == 0 {
      q' := q;
    } else {
      var q1 := DivideSteps(p, q, r, n - 1);
      DivideShifted(Raised(p, n - 1), q1, RsSteps(r, n - 1));
      q' := [B3(RsSteps(r, n - 1))] + q1;
    }
  }

  /** A word divides with quotient zero, leaving itself. */
  lemma DivideWord(r: word)
    ensures Divides(WordPoly(r), [], r)
  {
    forall i: nat
      ensures Coef(WordPoly(r), i) == XorB(TimesGenerator([], i), Coef(WordPoly(r), i))
    {
      CancelSum(0, Coef(WordPoly(r), i));
    }
  }

  /** The encoder computes the remainder of k1 * X^8 + k0 * X^4. */
  lemma RsEncodeIsRemainder(k0: word, k1: word) returns (q: Poly)
    ensures Divides([0, 0, 0, 0] + WordPoly(k0) + WordPoly(k1), q, RsEncode(k0, k1))
  {
    DivideWord(k1);
    var q1 := DivideSteps(WordPoly(k1), [], k1, 4);
    RaisedByFour(WordPoly(k1));
    DivideSum(WordPoly(k1), q1, RsSteps(k1, 4), k0);
    q := DivideSteps(WordPoly(k0) + WordPoly(k1), q1, XorW(RsSteps(k1, 4), k0), 4);
    RaisedByFour(WordPoly(k0) + WordPoly(k1));
    assert [0, 0, 0, 0] + (WordPoly(k0) + WordPoly(k1)) == [0, 0, 0, 0] + WordPoly(k0) + WordPoly(k1);
  }

  // The remainder is unique, because the generator is monic.

  function PolySum(p: Poly, q: Poly): Poly
    decreases |p|
  {
    if p == [] then q else if q == [] then p else [XorB(p[0], q[0])] + PolySum(p[1..], q[1..])
  }

  lemma {:induction false} TimesGeneratorAdds(p: Poly, q: Poly, i: int)
    ensures TimesGenerator(PolySum(p, q), i) == XorB(TimesGenerator(p, i), TimesGenerator(q, i))
    decreases |p|
  {
    if p == [] || q == [] {
      CancelSum(0, TimesGenerator(p, i));
      CancelSum(0, TimesGenerator(q, i));
    } else {
      var g := Coef(GENERATOR, i);
      TimesGeneratorAdds(p[1..], q[1..], i - 1);
      MulLeft(RS_FIELD, p[0], q[0], g);
      SwapXorB(Mul(RS_FIELD, p[0], g), Mul(RS_FIELD, q[0], g),
               TimesGenerator(p[1..], i - 1), TimesGenerator(q[1..], i - 1));
      assert PolySum(p, q)[1..] == PolySum(p[1..], q[1..]);
    }
  }

  lemma {:induction false} LowProductIsZero(d: Poly)
    requires forall i | i >= 4 :: TimesGenerator(d, i) == 0
    ensures forall i :: TimesGenerator(d, i) == 0
  {
    if d != [] {
      var rest := d[1..];
      forall i | i >= 4
        ensures TimesGenerator(rest, i) == 0
      {
        TimesZero(d[0]);
        assert TimesGenerator(d, i + 1) == XorB(Mul(RS_FIELD, d[0], Coef(GENERATOR, i + 1)), TimesGenerator(rest, i));
        CancelSum(0, TimesGenerator(rest, i));
      }
      LowProductIsZero(rest);
      assert TimesGenerator(d, 4) == XorB(Mul(RS_FIELD, d[0], 0x01), TimesGenerator(rest, 3));
      FeedbackConstants(d[0]);
      CancelSum(0, d[0]);
      forall i
        ensures TimesGenerator(d, i) == 0
      {
        TimesZero(Coef(GENERATOR, i));
        CancelSum(0, 0);
      }
    }
  }

  lemma WordFromPoly(r: word, s: word)
    requires forall i: nat | i < 4 :: Coef(WordPoly(r), i) == Coef(WordPoly(s), i)
    ensures r == s
  {
    WordCoef(r, 0);
    WordCoef(r, 1);
    WordCoef(r, 2);
    WordCoef(r, 3);
    WordCoef(s, 0);
    WordCoef(s, 1);
    WordCoef(s, 2);
    WordCoef(s, 3);
    PackBytes(r);
    PackBytes(s);
  }

  lemma SumZero(t: byte, u: byte, c: byte, d: byte)
    requires XorB(t, c) == XorB(u, d)
    ensures XorB(t, u) == XorB(c, d)
    ensures XorB(c, d) == 0 ==> c == d
  {
  }

  lemma RemainderIsUnique(p: Poly, q: Poly, r: word, q': Poly, r': word)
    requires Divides(p, q, r) && Divides(p, q', r')
    ensures r == r'
  {
    var d := PolySum(q, q');
    forall i: nat
      ensures TimesGenerator(d, i) == XorB(Coef(WordPoly(r), i), Coef(WordPoly(r'), i))
      ensures XorB(Coef(WordPoly(r), i), Coef(WordPoly(r'), i)) == 0 ==> Coef(WordPoly(r), i) == Coef(WordPoly(r'), i)
    {
      TimesGeneratorAdds(q, q', i);
      assert Coef(p, i) == XorB(TimesGenerator(q, i), Coef(WordPoly(r), i));
      assert Coef(p, i) == XorB(TimesGenerator(q', i), Coef(WordPoly(r'), i));
      SumZero(TimesGenerator(q, i), TimesGenerator(q', i), Coef(WordPoly(r), i), Coef(WordPoly(r'), i));
    }
    CancelSum(0, 0);
    LowProductIsZero(d);
    WordFromPoly(r, r');
  }
}
