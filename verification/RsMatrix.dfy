/** The encoder of the key schedule is the code matrix of section 4.3 of the Twofish paper. */
module RsMatrix {
  import opened Words
  import opened GF256
  import opened Linear
  import opened ReedSolomon

  /** The multiple by m of a matrix column. */
  function Multiple(m: byte, c0: byte, c1: byte, c2: byte, c3: byte): word {
    Pack(Mul(RS_FIELD, m, c0), Mul(RS_FIELD, m, c1), Mul(RS_FIELD, m, c2), Mul(RS_FIELD, m, c3))
  }

  function Left0(m: byte): word { Multiple(m, 0x01, 0xA4, 0x02, 0xA4) }
  function Left1(m: byte): word { Multiple(m, 0xA4, 0x56, 0xA1, 0x55) }
  function Left2(m: byte): word { Multiple(m, 0x55, 0x82, 0xFC, 0x87) }
  function Left3(m: byte): word { Multiple(m, 0x87, 0xF3, 0xC1, 0x5A) }
  function Right0(m: byte): word { Multiple(m, 0x5A, 0x1E, 0x47, 0x58) }
  function Right1(m: byte): word { Multiple(m, 0x58, 0xC6, 0xAE, 0xDB) }
  function Right2(m: byte): word { Multiple(m, 0xDB, 0x68, 0x3D, 0x9E) }
  function Right3(m: byte): word { Multiple(m, 0x9E, 0xE5, 0x19, 0x03) }

  /** The product of columns 0 to 3 and the four bytes of x. */
  function LeftHalf(x: word): word { ByColumns(Left0, Left1, Left2, Left3, x) }

  /** The product of columns 4 to 7 and the four bytes of x. */
  function RightHalf(x: word): word { ByColumns(Right0, Right1, Right2, Right3, x) }

  /** The product of the code matrix and the eight bytes of k0, k1. */
  function RsTimes(k0: word, k1: word): word { XorW(LeftHalf(k0), RightHalf(k1)) }

  lemma MultipleSum(m: byte, n: byte, c0: byte, c1: byte, c2: byte, c3: byte)
    ensures Multiple(XorB(m, n), c0, c1, c2, c3) == XorW(Multiple(m, c0, c1, c2, c3), Multiple(n, c0, c1, c2, c3))
  {
    MulLeft(RS_FIELD, m, n, c0);
    MulLeft(RS_FIELD, m, n, c1);
    MulLeft(RS_FIELD, m, n, c2);
    MulLeft(RS_FIELD, m, n, c3);
    SumPack(Mul(RS_FIELD, m, c0), Mul(RS_FIELD, m, c1), Mul(RS_FIELD, m, c2), Mul(RS_FIELD, m, c3),
            Mul(RS_FIELD, n, c0), Mul(RS_FIELD, n, c1), Mul(RS_FIELD, n, c2), Mul(RS_FIELD, n, c3));
  }

  lemma MultipleAdditive(c: Column, c0: byte, c1: byte, c2: byte, c3: byte)
    requires forall m :: c(m) == Multiple(m, c0, c1, c2, c3)
    ensures AdditiveColumn(c)
  {
    forall m, n
      ensures c(XorB(m, n)) == XorW(c(m), c(n))
    {
      MultipleSum(m, n, c0, c1, c2, c3);
    }
  }

  lemma LeftAdditive()
    ensures AdditiveColumn(Left0) && AdditiveColumn(Left1) && AdditiveColumn(Left2) && AdditiveColumn(Left3)
  {
    MultipleAdditive(Left0, 0x01, 0xA4, 0x02, 0xA4);
    MultipleAdditive(Left1, 0xA4, 0x56, 0xA1, 0x55);
    MultipleAdditive(Left2, 0x55, 0x82, 0xFC, 0x87);
    MultipleAdditive(Left3, 0x87, 0xF3, 0xC1, 0x5A);
  }

  lemma RightAdditive()
    ensures AdditiveColumn(Right0) && AdditiveColumn(Right1) && AdditiveColumn(Right2) && AdditiveColumn(Right3)
  {
    MultipleAdditive(Right0, 0x5A, 0x1E, 0x47, 0x58);
    MultipleAdditive(Right1, 0x58, 0xC6, 0xAE, 0xDB);
    MultipleAdditive(Right2, 0xDB, 0x68, 0x3D, 0x9E);
    MultipleAdditive(Right3, 0x9E, 0xE5, 0x19, 0x03);
  }

  lemma RsRemAdds(x: word, y: word)
    ensures RsRem(XorW(x, y)) == XorW(RsRem(x), RsRem(y))
  {
    var s := XorW(x, y);
    XorBytes(x, y);
    RsRemBytes(x);
    RsRemBytes(y);
    RsRemBytes(s);
    MulLeft(RS_FIELD, B3(x), B3(y), 0x01);
    MulLeft(RS_FIELD, B3(x), B3(y), 0xA4);
    MulLeft(RS_FIELD, B3(x), B3(y), 0x02);
    SwapXorB(B0(x), B0(y), Mul(RS_FIELD, B3(x), 0xA4), Mul(RS_FIELD, B3(y), 0xA4));
    SwapXorB(B1(x), B1(y), Mul(RS_FIELD, B3(x), 0x02), Mul(RS_FIELD, B3(y), 0x02));
    SwapXorB(B2(x), B2(y), Mul(RS_FIELD, B3(x), 0xA4), Mul(RS_FIELD, B3(y), 0xA4));
    XorBytes(RsRem(x), RsRem(y));
    PackBytes(RsRem(s));
    PackBytes(XorW(RsRem(x), RsRem(y)));
  }

  lemma {:induction false} RsStepsAdd(x: word, y: word, n: nat)
    ensures RsSteps(XorW(x, y), n) == XorW(RsSteps(x, n), RsSteps(y, n))
  {
    if n > 0 {
      RsStepsAdd(x, y, n - 1);
      RsRemAdds(RsSteps(x, n - 1), RsSteps(y, n - 1));
    }
  }

  function FourSteps(x: word): word { RsRem(RsRem(RsRem(RsRem(x)))) }
  function EightSteps(x: word): word { FourSteps(FourSteps(x)) }

  lemma FourStepsIs(x: word)
    ensures FourSteps(x) == RsSteps(x, 4)
  {
    assert RsSteps(x, 1) == RsRem(x);
    assert RsSteps(x, 2) == RsRem(RsRem(x));
    assert RsSteps(x, 3) == RsRem(RsRem(RsRem(x)));
  }

  lemma StepsAdd(x: word, y: word)
    ensures FourSteps(XorW(x, y)) == XorW(FourSteps(x), FourSteps(y))
  {
    FourStepsIs(x);
    FourStepsIs(y);
    FourStepsIs(XorW(x, y));
    RsStepsAdd(x, y, 4);
  }

  function MultipleFast(m: byte, c0: byte, c1: byte, c2: byte, c3: byte): word {
    Pack(MulFast(RS_FIELD, m, c0), MulFast(RS_FIELD, m, c1), MulFast(RS_FIELD, m, c2), MulFast(RS_FIELD, m, c3))
  }

  lemma MultipleIsFast(m: byte, c0: byte, c1: byte, c2: byte, c3: byte)
    ensures Multiple(m, c0, c1, c2, c3) == MultipleFast(m, c0, c1, c2, c3)
  {
    MulIsFast(RS_FIELD, m, c0);
    MulIsFast(RS_FIELD, m, c1);
    MulIsFast(RS_FIELD, m, c2);
    MulIsFast(RS_FIELD, m, c3);
  }

  lemma StepsOnByte0(b: byte)
    requires IsByteBit(b)
    ensures FourSteps(Pack(b, 0, 0, 0)) == MultipleFast(b, 0x01, 0xA4, 0x02, 0xA4)
  {
    match b
    case 0x01 => case 0x02 => case 0x04 => case 0x08 => case 0x10 => case 0x20 => case 0x40 => case _ =>
  }

  lemma StepsOnByte1(b: byte)
    requires IsByteBit(b)
    ensures FourSteps(Pack(0, b, 0, 0)) == MultipleFast(b, 0xA4, 0x56, 0xA1, 0x55)
  {
    match b
    case 0x01 => case 0x02 => case 0x04 => case 0x08 => case 0x10 => case 0x20 => case 0x40 => case _ =>
  }

  lemma StepsOnByte2(b: byte)
    requires IsByteBit(b)
    ensures FourSteps(Pack(0, 0, b, 0)) == MultipleFast(b, 0x55, 0x82, 0xFC, 0x87)
  {
    match b
    case 0x01 => case 0x02 => case 0x04 => case 0x08 => case 0x10 => case 0x20 => case 0x40 => case _ =>
  }

  lemma StepsOnByte3(b: byte)
    requires IsByteBit(b)
    ensures FourSteps(Pack(0, 0, 0, b)) == MultipleFast(b, 0x87, 0xF3, 0xC1, 0x5A)
  {
    match b
    case 0x01 => case 0x02 => case 0x04 => case 0x08 => case 0x10 => case 0x20 => case 0x40 => case _ =>
  }

  lemma StepsOnByte4(b: byte)
    requires IsByteBit(b)
    ensures EightSteps(Pack(b, 0, 0, 0)) == MultipleFast(b, 0x5A, 0x1E, 0x47, 0x58)
  {
    match b
    case 0x01 => case 0x02 => case 0x04 => case 0x08 => case 0x10 => case 0x20 => case 0x40 => case _ =>
  }

  lemma StepsOnByte5(b: byte)
    requires IsByteBit(b)
    ensures EightSteps(Pack(0, b, 0, 0)) == MultipleFast(b, 0x58, 0xC6, 0xAE, 0xDB)
  {
    match b
    case 0x01 => case 0x02 => case 0x04 => case 0x08 => case 0x10 => case 0x20 => case 0x40 => case _ =>
  }

  lemma StepsOnByte6(b: byte)
    requires IsByteBit(b)
    ensures EightSteps(Pack(0, 0, b, 0)) == MultipleFast(b, 0xDB, 0x68, 0x3D, 0x9E)
  {
    match b
    case 0x01 => case 0x02 => case 0x04 => case 0x08 => case 0x10 => case 0x20 => case 0x40 => case _ =>
  }

  lemma StepsOnByte7(b: byte)
    requires IsByteBit(b)
    ensures EightSteps(Pack(0, 0, 0, b)) == MultipleFast(b, 0x9E, 0xE5, 0x19, 0x03)
  {
    match b
    case 0x01 => case 0x02 => case 0x04 => case 0x08 => case 0x10 => case 0x20 => case 0x40 => case _ =>
  }

  lemma StepsAdditive()
    ensures Additive(FourSteps)
  {
    forall x, y
      ensures FourSteps(XorW(x, y)) == XorW(FourSteps(x), FourSteps(y))
    {
      StepsAdd(x, y);
    }
  }

  lemma EightStepsAdditive()
    ensures Additive(EightSteps)
  {
    forall x, y
      ensures EightSteps(XorW(x, y)) == XorW(EightSteps(x), EightSteps(y))
    {
      StepsAdd(x, y);
      StepsAdd(FourSteps(x), FourSteps(y));
    }
  }

  lemma FourStepsColumn0()
    ensures HasColumn0(FourSteps, Left0)
  {
    forall b | IsByteBit(b)
      ensures FourSteps(Pack(b, 0, 0, 0)) == Left0(b)
    {
      StepsOnByte0(b);
      MultipleIsFast(b, 0x01, 0xA4, 0x02, 0xA4);
    }
  }

  lemma FourStepsColumn1()
    ensures HasColumn1(FourSteps, Left1)
  {
    forall b | IsByteBit(b)
      ensures FourSteps(Pack(0, b, 0, 0)) == Left1(b)
    {
      StepsOnByte1(b);
      MultipleIsFast(b, 0xA4, 0x56, 0xA1, 0x55);
    }
  }

  lemma FourStepsColumn2()
    ensures HasColumn2(FourSteps, Left2)
  {
    forall b | IsByteBit(b)
      ensures FourSteps(Pack(0, 0, b, 0)) == Left2(b)
    {
      StepsOnByte2(b);
      MultipleIsFast(b, 0x55, 0x82, 0xFC, 0x87);
    }
  }

  lemma FourStepsColumn3()
    ensures HasColumn3(FourSteps, Left3)
  {
    forall b | IsByteBit(b)
      ensures FourSteps(Pack(0, 0, 0, b)) == Left3(b)
    {
      StepsOnByte3(b);
      MultipleIsFast(b, 0x87, 0xF3, 0xC1, 0x5A);
    }
  }

  lemma LeftHalfAdditive()
    ensures Additive(LeftHalf)
  {
    LeftAdditive();
    MatrixIsAdditive(LeftHalf, Left0, Left1, Left2, Left3);
  }

  lemma LeftHalfColumns()
    ensures HasColumn0(LeftHalf, Left0) && HasColumn1(LeftHalf, Left1)
    ensures HasColumn2(LeftHalf, Left2) && HasColumn3(LeftHalf, Left3)
  {
    LeftAdditive();
    MatrixHasColumns(LeftHalf, Left0, Left1, Left2, Left3);
  }

  lemma LeftHalfIsSteps(x: word)
    ensures FourSteps(x) == LeftHalf(x)
  {
    StepsAdditive();
    FourStepsColumn0();
    FourStepsColumn1();
    FourStepsColumn2();
    FourStepsColumn3();
    LeftHalfAdditive();
    LeftHalfColumns();
    SameColumns(FourSteps, LeftHalf, Left0, Left1, Left2, Left3, x);
  }

  lemma EightStepsColumn0()
    ensures HasColumn0(EightSteps, Right0)
  {
    forall b | IsByteBit(b)
      ensures EightSteps(Pack(b, 0, 0, 0)) == Right0(b)
    {
      StepsOnByte4(b);
      MultipleIsFast(b, 0x5A, 0x1E, 0x47, 0x58);
    }
  }

  lemma EightStepsColumn1()
    ensures HasColumn1(EightSteps, Right1)
  {
    forall b | IsByteBit(b)
      ensures EightSteps(Pack(0, b, 0, 0)) == Right1(b)
    {
      StepsOnByte5(b);
      MultipleIsFast(b, 0x58, 0xC6, 0xAE, 0xDB);
    }
  }

  lemma EightStepsColumn2()
    ensures HasColumn2(EightSteps, Right2)
  {
    forall b | IsByteBit(b)
      ensures EightSteps(Pack(0, 0, b, 0)) == Right2(b)
    {
      StepsOnByte6(b);
      MultipleIsFast(b, 0xDB, 0x68, 0x3D, 0x9E);
    }
  }

  lemma EightStepsColumn3()
    ensures HasColumn3(EightSteps, Right3)
  {
    forall b | IsByteBit(b)
      ensures EightSteps(Pack(0, 0, 0, b)) == Right3(b)
    {
      StepsOnByte7(b);
      MultipleIsFast(b, 0x9E, 0xE5, 0x19, 0x03);
    }
  }

  lemma RightHalfAdditive()
    ensures Additive(RightHalf)
  {
    RightAdditive();
    MatrixIsAdditive(RightHalf, Right0, Right1, Right2, Right3);
  }

  lemma RightHalfColumns()
    ensures HasColumn0(RightHalf, Right0) && HasColumn1(RightHalf, Right1)
    ensures HasColumn2(RightHalf, Right2) && HasColumn3(RightHalf, Right3)
  {
    RightAdditive();
    MatrixHasColumns(RightHalf, Right0, Right1, Right2, Right3);
  }

  lemma RightHalfIsSteps(x: word)
    ensures EightSteps(x) == RightHalf(x)
  {
    EightStepsAdditive();
    EightStepsColumn0();
    EightStepsColumn1();
    EightStepsColumn2();
    EightStepsColumn3();
    RightHalfAdditive();
    RightHalfColumns();
    SameColumns(EightSteps, RightHalf, Right0, Right1, Right2, Right3, x);
  }

  /** The encoder multiplies its eight bytes by the code matrix. */
  lemma RsEncodeIsMatrix(k0: word, k1: word)
    ensures RsEncode(k0, k1) == RsTimes(k0, k1)
  {
    var mid := FourSteps(k1);
    FourStepsIs(k1);
    FourStepsIs(XorW(mid, k0));
    StepsAdd(mid, k0);
    AssocXorW(FourSteps(mid), FourSteps(k0), 0);
    LeftHalfIsSteps(k0);
    RightHalfIsSteps(k1);
  }

  /** The encoder is linear in both words. */
  lemma RsEncodeAdds(k0: word, k1: word, j0: word, j1: word)
    ensures RsEncode(XorW(k0, j0), XorW(k1, j1)) == XorW(RsEncode(k0, k1), RsEncode(j0, j1))
  {
    RsStepsAdd(k1, j1, 4);
    SwapXorW(RsSteps(k1, 4), RsSteps(j1, 4), k0, j0);
    RsStepsAdd(XorW(RsSteps(k1, 4), k0), XorW(RsSteps(j1, 4), j0), 4);
  }
}
