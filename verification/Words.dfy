/** Bytes, 32-bit words, and the byte selectors and rotations of the cipher. */
module Words {

  type byte = bv8
  type word = bv32

  // Exclusive or under a name, so that the linearity proofs can treat it as a bare symbol.
  function XorB(a: byte, b: byte): byte { a ^ b }
  function XorW(a: word, b: word): word { a ^ b }

  function B0(w: word): byte { (w & 0xFF) as byte }
  function B1(w: word): byte { ((w >> 8) & 0xFF) as byte }
  function B2(w: word): byte { ((w >> 16) & 0xFF) as byte }
  function B3(w: word): byte { ((w >> 24) & 0xFF) as byte }

  /** The n-th byte of a word; the shift amount 8n is taken modulo the word size. */
  function Bn(w: word, n: nat): byte {
    match n % 4
    case 0 => B0(w)
    case 1 => B1(w)
    case 2 => B2(w)
    case _ => B3(w)
  }

  /** The word with the given bytes, least significant first. */
  function Pack(b0: byte, b1: byte, b2: byte, b3: byte): word {
    (b0 as word) | ((b1 as word) << 8) | ((b2 as word) << 16) | ((b3 as word) << 24)
  }

  function Rol1(x: word): word { (x << 1) | (x >> 31) }
  function Ror1(x: word): word { (x >> 1) | (x << 31) }
  function Rol8(x: word): word { (x << 8) | (x >> 24) }
  function Ror8(x: word): word { (x >> 8) | (x << 24) }
  function Rol9(x: word): word { (x << 9) | (x >> 23) }
  function Ror9(x: word): word { (x >> 9) | (x << 23) }

  lemma RotationsInvert(x: word)
    ensures Rol1(Ror1(x)) == x && Ror1(Rol1(x)) == x
    ensures Rol8(Ror8(x)) == x && Ror8(Rol8(x)) == x
    ensures Rol9(Ror9(x)) == x && Ror9(Rol9(x)) == x
  {
  }

  lemma PackBytes(x: word)
    ensures Pack(B0(x), B1(x), B2(x), B3(x)) == x
  {
  }

  lemma BytesOfPack(b0: byte, b1: byte, b2: byte, b3: byte)
    ensures B0(Pack(b0, b1, b2, b3)) == b0 && B1(Pack(b0, b1, b2, b3)) == b1
    ensures B2(Pack(b0, b1, b2, b3)) == b2 && B3(Pack(b0, b1, b2, b3)) == b3
  {
  }

  /** Rotating left by a byte moves every byte selector up by one. */
  lemma BytesOfRol8(x: word)
    ensures B0(Rol8(x)) == B3(x) && B1(Rol8(x)) == B0(x)
    ensures B2(Rol8(x)) == B1(x) && B3(Rol8(x)) == B2(x)
  {
  }

  lemma BytesOfXor(x: word, y: word)
    ensures B0(x ^ y) == B0(x) ^ B0(y) && B1(x ^ y) == B1(x) ^ B1(y)
    ensures B2(x ^ y) == B2(x) ^ B2(y) && B3(x ^ y) == B3(x) ^ B3(y)
  {
  }

  lemma XorBytes(x: word, y: word)
    ensures B0(XorW(x, y)) == XorB(B0(x), B0(y)) && B1(XorW(x, y)) == XorB(B1(x), B1(y))
    ensures B2(XorW(x, y)) == XorB(B2(x), B2(y)) && B3(XorW(x, y)) == XorB(B3(x), B3(y))
  {
    BytesOfXor(x, y);
  }

  lemma PackOfXor(a0: byte, a1: byte, a2: byte, a3: byte, b0: byte, b1: byte, b2: byte, b3: byte)
    ensures Pack(a0 ^ b0, a1 ^ b1, a2 ^ b2, a3 ^ b3) == Pack(a0, a1, a2, a3) ^ Pack(b0, b1, b2, b3)
  {
  }

  lemma SwapXorB(a: byte, b: byte, c: byte, d: byte)
    ensures XorB(XorB(a, b), XorB(c, d)) == XorB(XorB(a, c), XorB(b, d))
  {
    AssocXorB(a, b, XorB(c, d));
    AssocXorB(b, c, d);
    AssocXorB(c, b, d);
    AssocXorB(a, c, XorB(b, d));
  }

  lemma AssocXorB(a: byte, b: byte, c: byte)
    ensures XorB(XorB(a, b), c) == XorB(a, XorB(b, c)) && XorB(a, b) == XorB(b, a)
  {
  }

  lemma AssocXorW(a: word, b: word, c: word)
    ensures XorW(XorW(a, b), c) == XorW(a, XorW(b, c)) && XorW(a, b) == XorW(b, a)
  {
  }

  lemma SwapXorW(a: word, b: word, c: word, d: word)
    ensures XorW(XorW(a, b), XorW(c, d)) == XorW(XorW(a, c), XorW(b, d))
  {
    AssocXorW(a, b, XorW(c, d));
    AssocXorW(b, c, d);
    AssocXorW(c, b, d);
    AssocXorW(a, c, XorW(b, d));
  }

  lemma SumPack(a0: byte, a1: byte, a2: byte, a3: byte, b0: byte, b1: byte, b2: byte, b3: byte)
    ensures Pack(XorB(a0, b0), XorB(a1, b1), XorB(a2, b2), XorB(a3, b3))
         == XorW(Pack(a0, a1, a2, a3), Pack(b0, b1, b2, b3))
  {
    PackOfXor(a0, a1, a2, a3, b0, b1, b2, b3);
  }

  lemma SwapEight(a: word, b: word, c: word, d: word, p: word, q: word, r: word, s: word)
    ensures XorW(XorW(XorW(a, p), XorW(b, q)), XorW(XorW(c, r), XorW(d, s)))
         == XorW(XorW(XorW(a, b), XorW(c, d)), XorW(XorW(p, q), XorW(r, s)))
  {
    SwapXorW(a, p, b, q);
    SwapXorW(c, r, d, s);
    SwapXorW(XorW(a, b), XorW(p, q), XorW(c, d), XorW(r, s));
  }

  // Sums modulo 2^32 under names.
  function Plus(a: word, b: word): word { a + b }
  function PlusTwice(a: word, b: word): word { a + 2 * b }
  function Minus(a: word, b: word): word { a - b }

  lemma PlusMinus(x: word, y: word)
    ensures Minus(Plus(x, y), y) == x && Minus(Plus(x, y), x) == y
  {
  }

  lemma PlusAgain(sum: word, b: word)
    ensures PlusTwice(Minus(sum, b), b) == Plus(sum, b)
  {
    assert PlusTwice(sum - b, b) == Plus(sum, b);
  }

  /** Adding b twice is adding 2b. */
  lemma PlusTwiceIs(a: word, b: word)
    ensures Plus(Plus(a, b), b) == PlusTwice(a, b)
  {
    PlusMinus(a, b);
    PlusAgain(Plus(a, b), b);
  }

  lemma LowTop(x: word)
    requires x & 0x8000_0000 == 0
    ensures x >> 31 == 0
  {
  }

  lemma HighTop(x: word)
    requires x & 0x8000_0000 != 0
    ensures x >> 31 == 1
  {
  }

  /** A rotation to the left by one bit moves every bit up by one, and the highest to the lowest place. */
  lemma Rol1Is(x: word)
    ensures x & 0x8000_0000 == 0 ==> Rol1(x) == x << 1
    ensures x & 0x8000_0000 != 0 ==> Rol1(x) == (x << 1) | 1
  {
    if x & 0x8000_0000 == 0 {
      LowTop(x);
      assert Rol1(x) == (x << 1) | 0;
    } else {
      HighTop(x);
      assert Rol1(x) == (x << 1) | 1;
    }
  }

  /** n rotations to the left by one bit. */
  function Rotated(x: word, n: nat): word { if n == 0 then x else Rol1(Rotated(x, n - 1)) }

  function RolTwo(x: word): word { (x << 2) | (x >> 30) }

  lemma RolTwice(x: word)
    ensures Rol1(Rol1(x)) == RolTwo(x)
  {
  }

  lemma TwoMore(x: word, n: nat)
    ensures Rotated(x, n + 2) == RolTwo(Rotated(x, n))
  {
    assert Rotated(x, n + 1) == Rol1(Rotated(x, n));
    RolTwice(Rotated(x, n));
  }

  function RolFour(x: word): word { RolTwo(RolTwo(x)) }

  lemma FourMore(x: word, n: nat)
    ensures Rotated(x, n + 4) == RolFour(Rotated(x, n))
  {
    TwoMore(x, n);
    TwoMore(x, n + 2);
  }

  lemma RolInFours(x: word)
    ensures RolFour(RolFour(x)) == Rol8(x)
  {
  }

  lemma Rol8Is(x: word)
    ensures Rol8(x) == Rotated(x, 8)
  {
    FourMore(x, 0);
    FourMore(x, 4);
    RolInFours(x);
  }

  lemma RolOnce(x: word)
    ensures Rol9(x) == Rol1(Rol8(x))
  {
  }

  lemma Rol9Is(x: word)
    ensures Rol9(x) == Rotated(x, 9)
  {
    Rol8Is(x);
    RolOnce(x);
  }

  /** A byte of a word weighs 1, 2^8, 2^16 or 2^24, from the first on. */
  lemma BytesWeigh(b: byte)
    ensures Pack(b, 0, 0, 0) == b as word && Pack(0, b, 0, 0) == (b as word) * 0x100
    ensures Pack(0, 0, b, 0) == (b as word) * 0x1_0000 && Pack(0, 0, 0, b) == (b as word) * 0x100_0000
  {
  }
}
