/**
 * The MDS matrix of section 4.2 of the Twofish paper, over GF(2^8) with polynomial 0x169,
 * acting on a word read as the vector of its four bytes, and its inverse.
 */
module MdsMatrix {
  import opened Words
  import opened GF256
  import opened Linear

  function Times(y: byte, c: byte): byte { Mul(MDS_FIELD, y, c) }

  /** The multiple by y of a matrix column. */
  function Scaled(y: byte, c0: byte, c1: byte, c2: byte, c3: byte): word {
    Pack(Times(y, c0), Times(y, c1), Times(y, c2), Times(y, c3))
  }

  function Column0(y: byte): word { Scaled(y, 0x01, 0x5B, 0xEF, 0xEF) }
  function Column1(y: byte): word { Scaled(y, 0xEF, 0xEF, 0x5B, 0x01) }
  function Column2(y: byte): word { Scaled(y, 0x5B, 0xEF, 0x01, 0xEF) }
  function Column3(y: byte): word { Scaled(y, 0x5B, 0x01, 0xEF, 0x5B) }

  /** The product of the matrix and the vector of the bytes of x. */
  function MdsMul(x: word): word { ByColumns(Column0, Column1, Column2, Column3, x) }

  function Inverse0(y: byte): word { Scaled(y, 0xBB, 0x1B, 0xF2, 0x32) }
  function Inverse1(y: byte): word { Scaled(y, 0xC4, 0xED, 0x89, 0xBB) }
  function Inverse2(y: byte): word { Scaled(y, 0xED, 0xBF, 0x7B, 0x1B) }
  function Inverse3(y: byte): word { Scaled(y, 0x89, 0x7B, 0x89, 0xF2) }

  /** The product of the inverse matrix and the vector of the bytes of x. */
  function MdsInv(x: word): word { ByColumns(Inverse0, Inverse1, Inverse2, Inverse3, x) }

  lemma ScaledSum(y: byte, z: byte, c0: byte, c1: byte, c2: byte, c3: byte)
    ensures Scaled(XorB(y, z), c0, c1, c2, c3) == XorW(Scaled(y, c0, c1, c2, c3), Scaled(z, c0, c1, c2, c3))
  {
    MulLeft(MDS_FIELD, y, z, c0);
    MulLeft(MDS_FIELD, y, z, c1);
    MulLeft(MDS_FIELD, y, z, c2);
    MulLeft(MDS_FIELD, y, z, c3);
    SumPack(Times(y, c0), Times(y, c1), Times(y, c2), Times(y, c3),
            Times(z, c0), Times(z, c1), Times(z, c2), Times(z, c3));
  }

  lemma ScaledAdditive(c: Column, c0: byte, c1: byte, c2: byte, c3: byte)
    requires forall y :: c(y) == Scaled(y, c0, c1, c2, c3)
    ensures AdditiveColumn(c)
  {
    forall y, z
      ensures c(XorB(y, z)) == XorW(c(y), c(z))
    {
      ScaledSum(y, z, c0, c1, c2, c3);
    }
  }

  lemma ColumnsAdditive()
    ensures AdditiveColumn(Column0) && AdditiveColumn(Column1) && AdditiveColumn(Column2) && AdditiveColumn(Column3)
  {
    ScaledAdditive(Column0, 0x01, 0x5B, 0xEF, 0xEF);
    ScaledAdditive(Column1, 0xEF, 0xEF, 0x5B, 0x01);
    ScaledAdditive(Column2, 0x5B, 0xEF, 0x01, 0xEF);
    ScaledAdditive(Column3, 0x5B, 0x01, 0xEF, 0x5B);
  }

  lemma InversesAdditive()
    ensures AdditiveColumn(Inverse0) && AdditiveColumn(Inverse1) && AdditiveColumn(Inverse2) && AdditiveColumn(Inverse3)
  {
    ScaledAdditive(Inverse0, 0xBB, 0x1B, 0xF2, 0x32);
    ScaledAdditive(Inverse1, 0xC4, 0xED, 0x89, 0xBB);
    ScaledAdditive(Inverse2, 0xED, 0xBF, 0x7B, 0x1B);
    ScaledAdditive(Inverse3, 0x89, 0x7B, 0x89, 0xF2);
  }

  // The multiples with every field multiplication written out, to evaluate them at constants.

  function ScaledFast(y: byte, c0: byte, c1: byte, c2: byte, c3: byte): word {
    Pack(MulFast(MDS_FIELD, y, c0), MulFast(MDS_FIELD, y, c1), MulFast(MDS_FIELD, y, c2), MulFast(MDS_FIELD, y, c3))
  }

  function MdsMulFast(x: word): word {
    XorW(XorW(ScaledFast(B0(x), 0x01, 0x5B, 0xEF, 0xEF), ScaledFast(B1(x), 0xEF, 0xEF, 0x5B, 0x01)),
         XorW(ScaledFast(B2(x), 0x5B, 0xEF, 0x01, 0xEF), ScaledFast(B3(x), 0x5B, 0x01, 0xEF, 0x5B)))
  }

  function MdsInvFast(x: word): word {
    XorW(XorW(ScaledFast(B0(x), 0xBB, 0x1B, 0xF2, 0x32), ScaledFast(B1(x), 0xC4, 0xED, 0x89, 0xBB)),
         XorW(ScaledFast(B2(x), 0xED, 0xBF, 0x7B, 0x1B), ScaledFast(B3(x), 0x89, 0x7B, 0x89, 0xF2)))
  }

  lemma ScaledIsFast(y: byte, c0: byte, c1: byte, c2: byte, c3: byte)
    ensures Scaled(y, c0, c1, c2, c3) == ScaledFast(y, c0, c1, c2, c3)
  {
    MulIsFast(MDS_FIELD, y, c0);
    MulIsFast(MDS_FIELD, y, c1);
    MulIsFast(MDS_FIELD, y, c2);
    MulIsFast(MDS_FIELD, y, c3);
  }

  lemma MdsMulIsFast(x: word)
    ensures MdsMul(x) == MdsMulFast(x)
  {
    ScaledIsFast(B0(x), 0x01, 0x5B, 0xEF, 0xEF);
    ScaledIsFast(B1(x), 0xEF, 0xEF, 0x5B, 0x01);
    ScaledIsFast(B2(x), 0x5B, 0xEF, 0x01, 0xEF);
    ScaledIsFast(B3(x), 0x5B, 0x01, 0xEF, 0x5B);
  }

  lemma MdsInvIsFast(x: word)
    ensures MdsInv(x) == MdsInvFast(x)
  {
    ScaledIsFast(B0(x), 0xBB, 0x1B, 0xF2, 0x32);
    ScaledIsFast(B1(x), 0xC4, 0xED, 0x89, 0xBB);
    ScaledIsFast(B2(x), 0xED, 0xBF, 0x7B, 0x1B);
    ScaledIsFast(B3(x), 0x89, 0x7B, 0x89, 0xF2);
  }

  lemma InverseOnByte0(b: byte)
    requires IsByteBit(b)
    ensures MdsInvFast(ScaledFast(b, 0x01, 0x5B, 0xEF, 0xEF)) == Pack(b, 0, 0, 0)
  {
    match b
    case 0x01 => case 0x02 => case 0x04 => case 0x08 => case 0x10 => case 0x20 => case 0x40 => case _ =>
  }

  lemma InverseAfterByte0(b: byte)
    requires IsByteBit(b)
    ensures MdsMulFast(ScaledFast(b, 0xBB, 0x1B, 0xF2, 0x32)) == Pack(b, 0, 0, 0)
  {
    match b
    case 0x01 => case 0x02 => case 0x04 => case 0x08 => case 0x10 => case 0x20 => case 0x40 => case _ =>
  }

  lemma InverseOnByte1(b: byte)
    requires IsByteBit(b)
    ensures MdsInvFast(ScaledFast(b, 0xEF, 0xEF, 0x5B, 0x01)) == Pack(0, b, 0, 0)
  {
    match b
    case 0x01 => case 0x02 => case 0x04 => case 0x08 => case 0x10 => case 0x20 => case 0x40 => case _ =>
  }

  lemma InverseAfterByte1(b: byte)
    requires IsByteBit(b)
    ensures MdsMulFast(ScaledFast(b, 0xC4, 0xED, 0x89, 0xBB)) == Pack(0, b, 0, 0)
  {
    match b
    case 0x01 => case 0x02 => case 0x04 => case 0x08 => case 0x10 => case 0x20 => case 0x40 => case _ =>
  }

  lemma InverseOnByte2(b: byte)
    requires IsByteBit(b)
    ensures MdsInvFast(ScaledFast(b, 0x5B, 0xEF, 0x01, 0xEF)) == Pack(0, 0, b, 0)
  {
    match b
    case 0x01 => case 0x02 => case 0x04 => case 0x08 => case 0x10 => case 0x20 => case 0x40 => case _ =>
  }

  lemma InverseAfterByte2(b: byte)
    requires IsByteBit(b)
    ensures MdsMulFast(ScaledFast(b, 0xED, 0xBF, 0x7B, 0x1B)) == Pack(0, 0, b, 0)
  {
    match b
    case 0x01 => case 0x02 => case 0x04 => case 0x08 => case 0x10 => case 0x20 => case 0x40 => case _ =>
  }

  lemma InverseOnByte3(b: byte)
    requires IsByteBit(b)
    ensures MdsInvFast(ScaledFast(b, 0x5B, 0x01, 0xEF, 0x5B)) == Pack(0, 0, 0, b)
  {
    match b
    case 0x01 => case 0x02 => case 0x04 => case 0x08 => case 0x10 => case 0x20 => case 0x40 => case _ =>
  }

  lemma InverseAfterByte3(b: byte)
    requires IsByteBit(b)
    ensures MdsMulFast(ScaledFast(b, 0x89, 0x7B, 0x89, 0xF2)) == Pack(0, 0, 0, b)
  {
    match b
    case 0x01 => case 0x02 => case 0x04 => case 0x08 => case 0x10 => case 0x20 => case 0x40 => case _ =>
  }

  function Place0(b: byte): word { Pack(b, 0, 0, 0) }
  function Place1(b: byte): word { Pack(0, b, 0, 0) }
  function Place2(b: byte): word { Pack(0, 0, b, 0) }
  function Place3(b: byte): word { Pack(0, 0, 0, b) }

  lemma InverseOfColumn0(b: byte)
    requires IsByteBit(b)
    ensures MdsInv(Column0(b)) == Place0(b)
  {
    ScaledIsFast(b, 0x01, 0x5B, 0xEF, 0xEF);
    MdsInvIsFast(Column0(b));
    InverseOnByte0(b);
  }

  lemma ColumnOfInverse0(b: byte)
    requires IsByteBit(b)
    ensures MdsMul(Inverse0(b)) == Place0(b)
  {
    ScaledIsFast(b, 0xBB, 0x1B, 0xF2, 0x32);
    MdsMulIsFast(Inverse0(b));
    InverseAfterByte0(b);
  }

  lemma InverseOfColumn1(b: byte)
    requires IsByteBit(b)
    ensures MdsInv(Column1(b)) == Place1(b)
  {
    ScaledIsFast(b, 0xEF, 0xEF, 0x5B, 0x01);
    MdsInvIsFast(Column1(b));
    InverseOnByte1(b);
  }

  lemma ColumnOfInverse1(b: byte)
    requires IsByteBit(b)
    ensures MdsMul(Inverse1(b)) == Place1(b)
  {
    ScaledIsFast(b, 0xC4, 0xED, 0x89, 0xBB);
    MdsMulIsFast(Inverse1(b));
    InverseAfterByte1(b);
  }

  lemma InverseOfColumn2(b: byte)
    requires IsByteBit(b)
    ensures MdsInv(Column2(b)) == Place2(b)
  {
    ScaledIsFast(b, 0x5B, 0xEF, 0x01, 0xEF);
    MdsInvIsFast(Column2(b));
    InverseOnByte2(b);
  }

  lemma ColumnOfInverse2(b: byte)
    requires IsByteBit(b)
    ensures MdsMul(Inverse2(b)) == Place2(b)
  {
    ScaledIsFast(b, 0xED, 0xBF, 0x7B, 0x1B);
    MdsMulIsFast(Inverse2(b));
    InverseAfterByte2(b);
  }

  lemma InverseOfColumn3(b: byte)
    requires IsByteBit(b)
    ensures MdsInv(Column3(b)) == Place3(b)
  {
    ScaledIsFast(b, 0x5B, 0x01, 0xEF, 0x5B);
    MdsInvIsFast(Column3(b));
    InverseOnByte3(b);
  }

  lemma ColumnOfInverse3(b: byte)
    requires IsByteBit(b)
    ensures MdsMul(Inverse3(b)) == Place3(b)
  {
    ScaledIsFast(b, 0x89, 0x7B, 0x89, 0xF2);
    MdsMulIsFast(Inverse3(b));
    InverseAfterByte3(b);
  }

  lemma MulAdditive()
    ensures Additive(MdsMul)
  {
    ColumnsAdditive();
    MatrixIsAdditive(MdsMul, Column0, Column1, Column2, Column3);
  }

  lemma InvAdditive()
    ensures Additive(MdsInv)
  {
    InversesAdditive();
    MatrixIsAdditive(MdsInv, Inverse0, Inverse1, Inverse2, Inverse3);
  }

  lemma MulHasColumns()
    ensures HasColumn0(MdsMul, Column0) && HasColumn1(MdsMul, Column1)
    ensures HasColumn2(MdsMul, Column2) && HasColumn3(MdsMul, Column3)
  {
    ColumnsAdditive();
    MatrixHasColumns(MdsMul, Column0, Column1, Column2, Column3);
  }

  lemma InvHasColumns()
    ensures HasColumn0(MdsInv, Inverse0) && HasColumn1(MdsInv, Inverse1)
    ensures HasColumn2(MdsInv, Inverse2) && HasColumn3(MdsInv, Inverse3)
  {
    InversesAdditive();
    MatrixHasColumns(MdsInv, Inverse0, Inverse1, Inverse2, Inverse3);
  }

  /** The map f takes the multiples of the columns c to the vectors with a single byte. */
  ghost predicate Straightens(f: word -> word, c0: Column, c1: Column, c2: Column, c3: Column) {
    forall b | IsByteBit(b) ::
      f(c0(b)) == Place0(b) && f(c1(b)) == Place1(b) && f(c2(b)) == Place2(b) && f(c3(b)) == Place3(b)
  }

  lemma MatricesStraighten()
    ensures Straightens(MdsInv, Column0, Column1, Column2, Column3)
    ensures Straightens(MdsMul, Inverse0, Inverse1, Inverse2, Inverse3)
  {
    forall b | IsByteBit(b)
      ensures MdsInv(Column0(b)) == Place0(b) && MdsMul(Inverse0(b)) == Place0(b)
      ensures MdsInv(Column1(b)) == Place1(b) && MdsMul(Inverse1(b)) == Place1(b)
      ensures MdsInv(Column2(b)) == Place2(b) && MdsMul(Inverse2(b)) == Place2(b)
      ensures MdsInv(Column3(b)) == Place3(b) && MdsMul(Inverse3(b)) == Place3(b)
    {
      InverseOfColumn0(b);
      InverseOfColumn1(b);
      InverseOfColumn2(b);
      InverseOfColumn3(b);
      ColumnOfInverse0(b);
      ColumnOfInverse1(b);
      ColumnOfInverse2(b);
      ColumnOfInverse3(b);
    }
  }

  lemma ComposedAdds(f: word -> word, g: word -> word, x: word, y: word)
    requires Additive(f) && Additive(g)
    ensures f(g(XorW(x, y))) == XorW(f(g(x)), f(g(y)))
  {
  }

  lemma ComposedAdditive(f: word -> word, g: word -> word, h: word -> word)
    requires Additive(f) && Additive(g) && forall x :: h(x) == f(g(x))
    ensures Additive(h)
  {
    forall x, y
      ensures h(XorW(x, y)) == XorW(h(x), h(y))
    {
      ComposedAdds(f, g, x, y);
    }
  }

  lemma ComposedHasColumns(f: word -> word, g: word -> word, h: word -> word,
                           c0: Column, c1: Column, c2: Column, c3: Column)
    requires forall x :: h(x) == f(g(x))
    requires HasColumn0(g, c0) && HasColumn1(g, c1) && HasColumn2(g, c2) && HasColumn3(g, c3)
    requires Straightens(f, c0, c1, c2, c3)
    ensures HasColumn0(h, Place0) && HasColumn1(h, Place1) && HasColumn2(h, Place2) && HasColumn3(h, Place3)
  {
  }

  /** An additive map that leaves the vectors with a single bit alone leaves every vector alone. */
  lemma KeepsAll(h: word -> word, x: word)
    requires Additive(h)
    requires HasColumn0(h, Place0) && HasColumn1(h, Place1) && HasColumn2(h, Place2) && HasColumn3(h, Place3)
    ensures h(x) == x
  {
    SameColumns(h, y => y, Place0, Place1, Place2, Place3, x);
  }

  /** A map that straightens the columns of another undoes it. */
  lemma Undoes(f: word -> word, g: word -> word, c0: Column, c1: Column, c2: Column, c3: Column, x: word)
    requires Additive(f) && Additive(g) && Straightens(f, c0, c1, c2, c3)
    requires HasColumn0(g, c0) && HasColumn1(g, c1) && HasColumn2(g, c2) && HasColumn3(g, c3)
    ensures f(g(x)) == x
  {
    var h := (y: word) => f(g(y));
    ComposedAdditive(f, g, h);
    ComposedHasColumns(f, g, h, c0, c1, c2, c3);
    KeepsAll(h, x);
  }

  /** The two matrices are inverses of each other. */
  lemma MdsInverse(x: word)
    ensures MdsInv(MdsMul(x)) == x && MdsMul(MdsInv(x)) == x
  {
    MulAdditive();
    InvAdditive();
    MatricesStraighten();
    MulHasColumns();
    InvHasColumns();
    Undoes(MdsInv, MdsMul, Column0, Column1, Column2, Column3, x);
    Undoes(MdsMul, MdsInv, Inverse0, Inverse1, Inverse2, Inverse3, x);
  }
}
