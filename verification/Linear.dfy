/** Additive maps on words are determined by their values on single bits. */
module Linear {
  import opened Words

  ghost predicate Additive(f: word -> word) {
    forall x, y {:trigger f(XorW(x, y))} :: f(XorW(x, y)) == XorW(f(x), f(y))
  }

  /** The words with a single bit set, in byte j. */
  predicate BitOf(e: word, j: nat) {
    match j
    case 0 => (e == 0x01 || e == 0x02 || e == 0x04 || e == 0x08 ||
      e == 0x10 || e == 0x20 || e == 0x40 || e == 0x80)
    case 1 => (e == 0x0100 || e == 0x0200 || e == 0x0400 || e == 0x0800 ||
      e == 0x1000 || e == 0x2000 || e == 0x4000 || e == 0x8000)
    case 2 => (e == 0x010000 || e == 0x020000 || e == 0x040000 || e == 0x080000 ||
      e == 0x100000 || e == 0x200000 || e == 0x400000 || e == 0x800000)
    case _ => (e == 0x01000000 || e == 0x02000000 || e == 0x04000000 || e == 0x08000000 ||
      e == 0x10000000 || e == 0x20000000 || e == 0x40000000 || e == 0x80000000)
  }

  predicate IsBit(e: word) { BitOf(e, 0) || BitOf(e, 1) || BitOf(e, 2) || BitOf(e, 3) }

  ghost predicate AgreeOnBits(f: word -> word, g: word -> word) {
    forall e | IsBit(e) :: f(e) == g(e)
  }

  lemma BitInByte0(x: word) returns (e: word)
    requires x & 0xFF != 0
    ensures BitOf(e, 0) && x & e == e
  {
    e := if x & 0x01 != 0 then 0x01 else if x & 0x02 != 0 then 0x02 else if x & 0x04 != 0 then 0x04
         else if x & 0x08 != 0 then 0x08 else if x & 0x10 != 0 then 0x10 else if x & 0x20 != 0 then 0x20
         else if x & 0x40 != 0 then 0x40 else 0x80;
  }

  lemma BitInByte1(x: word) returns (e: word)
    requires x & 0xFF00 != 0
    ensures BitOf(e, 1) && x & e == e
  {
    e := if x & 0x0100 != 0 then 0x0100 else if x & 0x0200 != 0 then 0x0200 else if x & 0x0400 != 0 then 0x0400
         else if x & 0x0800 != 0 then 0x0800 else if x & 0x1000 != 0 then 0x1000 else if x & 0x2000 != 0 then 0x2000
         else if x & 0x4000 != 0 then 0x4000 else 0x8000;
  }

  lemma BitInByte2(x: word) returns (e: word)
    requires x & 0xFF0000 != 0
    ensures BitOf(e, 2) && x & e == e
  {
    e := if x & 0x010000 != 0 then 0x010000 else if x & 0x020000 != 0 then 0x020000
         else if x & 0x040000 != 0 then 0x040000
         else if x & 0x080000 != 0 then 0x080000 else if x & 0x100000 != 0 then 0x100000
         else if x & 0x200000 != 0 then 0x200000
         else if x & 0x400000 != 0 then 0x400000 else 0x800000;
  }

  lemma BitInByte3(x: word) returns (e: word)
    requires x & 0xFF000000 != 0
    ensures BitOf(e, 3) && x & e == e
  {
    e := if x & 0x01000000 != 0 then 0x01000000 else if x & 0x02000000 != 0 then 0x02000000
         else if x & 0x04000000 != 0 then 0x04000000
         else if x & 0x08000000 != 0 then 0x08000000 else if x & 0x10000000 != 0 then 0x10000000
         else if x & 0x20000000 != 0 then 0x20000000
         else if x & 0x40000000 != 0 then 0x40000000 else 0x80000000;
  }

  lemma DropBit(x: word, e: word)
    requires IsBit(e) && x & e == e
    ensures XorW(e, x ^ e) == x && x ^ e < x
  {
  }

  lemma FindBit(x: word) returns (e: word)
    requires x != 0
    ensures IsBit(e) && x & e == e
  {
    if x & 0xFF != 0 {
      e := BitInByte0(x);
    } else if x & 0xFF00 != 0 {
      e := BitInByte1(x);
    } else if x & 0xFF0000 != 0 {
      e := BitInByte2(x);
    } else {
      e := BitInByte3(x);
    }
  }

  lemma AdditiveAtZero(f: word -> word)
    requires Additive(f)
    ensures f(0) == 0
  {
    assert f(XorW(0, 0)) == XorW(f(0), f(0));
  }

  lemma {:induction false} Agree(f: word -> word, g: word -> word, x: word)
    requires Additive(f) && Additive(g) && AgreeOnBits(f, g)
    ensures f(x) == g(x)
    decreases x
  {
    if x == 0 {
      AdditiveAtZero(f);
      AdditiveAtZero(g);
    } else {
      var e := FindBit(x);
      var rest := x ^ e;
      DropBit(x, e);
      Agree(f, g, rest);
      assert f(XorW(e, rest)) == XorW(f(e), f(rest));
      assert g(XorW(e, rest)) == XorW(g(e), g(rest));
    }
  }

  predicate IsByteBit(b: byte) {
    b == 0x01 || b == 0x02 || b == 0x04 || b == 0x08 || b == 0x10 || b == 0x20 || b == 0x40 || b == 0x80
  }

  lemma BitAsByte(e: word) returns (b: byte)
    requires IsBit(e)
    ensures IsByteBit(b)
    ensures e == Pack(b, 0, 0, 0) || e == Pack(0, b, 0, 0) || e == Pack(0, 0, b, 0) || e == Pack(0, 0, 0, b)
  {
    b := if BitOf(e, 0) then B0(e) else if BitOf(e, 1) then B1(e) else if BitOf(e, 2) then B2(e) else B3(e);
  }

  // Matrices, by their columns.

  /** A column of a matrix with four rows, as the map from a byte to its multiple of the column. */
  type Column = byte -> word

  /** The product of the matrix with the given columns and the vector of the bytes of x. */
  function ByColumns(c0: Column, c1: Column, c2: Column, c3: Column, x: word): word {
    XorW(XorW(c0(B0(x)), c1(B1(x))), XorW(c2(B2(x)), c3(B3(x))))
  }

  ghost predicate AdditiveColumn(c: Column) {
    forall y, z {:trigger c(XorB(y, z))} :: c(XorB(y, z)) == XorW(c(y), c(z))
  }

  lemma AdditiveColumnAtZero(c: Column)
    requires AdditiveColumn(c)
    ensures c(0) == 0
  {
    assert c(XorB(0, 0)) == XorW(c(0), c(0));
  }

  lemma ByColumnsAdds(c0: Column, c1: Column, c2: Column, c3: Column, x: word, y: word)
    requires AdditiveColumn(c0) && AdditiveColumn(c1) && AdditiveColumn(c2) && AdditiveColumn(c3)
    ensures ByColumns(c0, c1, c2, c3, XorW(x, y)) == XorW(ByColumns(c0, c1, c2, c3, x), ByColumns(c0, c1, c2, c3, y))
  {
    XorBytes(x, y);
    SwapEight(c0(B0(x)), c1(B1(x)), c2(B2(x)), c3(B3(x)), c0(B0(y)), c1(B1(y)), c2(B2(y)), c3(B3(y)));
  }

  lemma OneTerm(x: word)
    ensures XorW(XorW(x, 0), XorW(0, 0)) == x && XorW(XorW(0, x), XorW(0, 0)) == x
    ensures XorW(XorW(0, 0), XorW(x, 0)) == x && XorW(XorW(0, 0), XorW(0, x)) == x
  {
  }

  /** The product of a matrix and a vector with a single non-zero byte is a multiple of one column. */
  lemma SingleByte(c0: Column, c1: Column, c2: Column, c3: Column, b: byte)
    requires AdditiveColumn(c0) && AdditiveColumn(c1) && AdditiveColumn(c2) && AdditiveColumn(c3)
    ensures ByColumns(c0, c1, c2, c3, Pack(b, 0, 0, 0)) == c0(b)
    ensures ByColumns(c0, c1, c2, c3, Pack(0, b, 0, 0)) == c1(b)
    ensures ByColumns(c0, c1, c2, c3, Pack(0, 0, b, 0)) == c2(b)
    ensures ByColumns(c0, c1, c2, c3, Pack(0, 0, 0, b)) == c3(b)
  {
    BytesOfPack(b, 0, 0, 0);
    BytesOfPack(0, b, 0, 0);
    BytesOfPack(0, 0, b, 0);
    BytesOfPack(0, 0, 0, b);
    AdditiveColumnAtZero(c0);
    AdditiveColumnAtZero(c1);
    AdditiveColumnAtZero(c2);
    AdditiveColumnAtZero(c3);
    OneTerm(c0(b));
    OneTerm(c1(b));
    OneTerm(c2(b));
    OneTerm(c3(b));
  }

  // The map f takes the vectors with a single bit set in byte j to the multiples of column c.
  ghost predicate HasColumn0(f: word -> word, c: Column) { forall b | IsByteBit(b) :: f(Pack(b, 0, 0, 0)) == c(b) }
  ghost predicate HasColumn1(f: word -> word, c: Column) { forall b | IsByteBit(b) :: f(Pack(0, b, 0, 0)) == c(b) }
  ghost predicate HasColumn2(f: word -> word, c: Column) { forall b | IsByteBit(b) :: f(Pack(0, 0, b, 0)) == c(b) }
  ghost predicate HasColumn3(f: word -> word, c: Column) { forall b | IsByteBit(b) :: f(Pack(0, 0, 0, b)) == c(b) }

  lemma AgreeOnBit(f: word -> word, g: word -> word, c0: Column, c1: Column, c2: Column, c3: Column, e: word, b: byte)
    requires HasColumn0(f, c0) && HasColumn1(f, c1) && HasColumn2(f, c2) && HasColumn3(f, c3)
    requires HasColumn0(g, c0) && HasColumn1(g, c1) && HasColumn2(g, c2) && HasColumn3(g, c3)
    requires IsByteBit(b)
    requires e == Pack(b, 0, 0, 0) || e == Pack(0, b, 0, 0) || e == Pack(0, 0, b, 0) || e == Pack(0, 0, 0, b)
    ensures f(e) == g(e)
  {
  }

  /** Additive maps with the same columns are the same. */
  lemma SameColumns(f: word -> word, g: word -> word, c0: Column, c1: Column, c2: Column, c3: Column, x: word)
    requires Additive(f) && HasColumn0(f, c0) && HasColumn1(f, c1) && HasColumn2(f, c2) && HasColumn3(f, c3)
    requires Additive(g) && HasColumn0(g, c0) && HasColumn1(g, c1) && HasColumn2(g, c2) && HasColumn3(g, c3)
    ensures f(x) == g(x)
  {
    forall e | IsBit(e)
      ensures f(e) == g(e)
    {
      var b := BitAsByte(e);
      AgreeOnBit(f, g, c0, c1, c2, c3, e, b);
    }
    Agree(f, g, x);
  }

  lemma MatrixIsAdditive(g: word -> word, c0: Column, c1: Column, c2: Column, c3: Column)
    requires AdditiveColumn(c0) && AdditiveColumn(c1) && AdditiveColumn(c2) && AdditiveColumn(c3)
    requires forall x :: g(x) == ByColumns(c0, c1, c2, c3, x)
    ensures Additive(g)
  {
    forall x, y
      ensures g(XorW(x, y)) == XorW(g(x), g(y))
    {
      ByColumnsAdds(c0, c1, c2, c3, x, y);
    }
  }

  lemma MatrixAt(g: word -> word, c0: Column, c1: Column, c2: Column, c3: Column, b: byte)
    requires AdditiveColumn(c0) && AdditiveColumn(c1) && AdditiveColumn(c2) && AdditiveColumn(c3)
    requires forall x :: g(x) == ByColumns(c0, c1, c2, c3, x)
    ensures g(Pack(b, 0, 0, 0)) == c0(b) && g(Pack(0, b, 0, 0)) == c1(b)
    ensures g(Pack(0, 0, b, 0)) == c2(b) && g(Pack(0, 0, 0, b)) == c3(b)
  {
    SingleByte(c0, c1, c2, c3, b);
  }

  lemma MatrixHasColumns(g: word -> word, c0: Column, c1: Column, c2: Column, c3: Column)
    requires AdditiveColumn(c0) && AdditiveColumn(c1) && AdditiveColumn(c2) && AdditiveColumn(c3)
    requires forall x :: g(x) == ByColumns(c0, c1, c2, c3, x)
    ensures HasColumn0(g, c0) && HasColumn1(g, c1) && HasColumn2(g, c2) && HasColumn3(g, c3)
  {
    forall b
      ensures g(Pack(b, 0, 0, 0)) == c0(b) && g(Pack(0, b, 0, 0)) == c1(b)
      ensures g(Pack(0, 0, b, 0)) == c2(b) && g(Pack(0, 0, 0, b)) == c3(b)
    {
      MatrixAt(g, c0, c1, c2, c3, b);
    }
  }
}
