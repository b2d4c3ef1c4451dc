/** What the constant tables hold: the permutations of the paper and the columns of the matrix. */
module TableFacts {
  import opened Words
  import opened MdsMatrix
  import opened QBoxes
  import opened Tables
  import opened HFunction
  import opened KeySchedule

  ghost predicate MatrixAt(x: byte) {
    && Mds0(x) == ScaledFast(P1(x), 0x01, 0x5B, 0xEF, 0xEF)
    && Mds1(x) == ScaledFast(P0(x), 0xEF, 0xEF, 0x5B, 0x01)
    && Mds2(x) == ScaledFast(P1(x), 0x5B, 0xEF, 0x01, 0xEF)
    && Mds3(x) == ScaledFast(P0(x), 0x5B, 0x01, 0xEF, 0x5B)
  }

  lemma PermutationRow0(n: byte)
    requires n < 0x10
    ensures P0Row0(n) == Q0(n) && P1Row0(n) == Q1(n)
  {
    match n
    case 0x0 => assert P0Row0(0x00) == Q0(0x00) && P1Row0(0x00) == Q1(0x00);
    case 0x1 => assert P0Row0(0x01) == Q0(0x01) && P1Row0(0x01) == Q1(0x01);
    case 0x2 => assert P0Row0(0x02) == Q0(0x02) && P1Row0(0x02) == Q1(0x02);
    case 0x3 => assert P0Row0(0x03) == Q0(0x03) && P1Row0(0x03) == Q1(0x03);
    case 0x4 => assert P0Row0(0x04) == Q0(0x04) && P1Row0(0x04) == Q1(0x04);
    case 0x5 => assert P0Row0(0x05) == Q0(0x05) && P1Row0(0x05) == Q1(0x05);
    case 0x6 => assert P0Row0(0x06) == Q0(0x06) && P1Row0(0x06) == Q1(0x06);
    case 0x7 => assert P0Row0(0x07) == Q0(0x07) && P1Row0(0x07) == Q1(0x07);
    case 0x8 => assert P0Row0(0x08) == Q0(0x08) && P1Row0(0x08) == Q1(0x08);
    case 0x9 => assert P0Row0(0x09) == Q0(0x09) && P1Row0(0x09) == Q1(0x09);
    case 0xA => assert P0Row0(0x0A) == Q0(0x0A) && P1Row0(0x0A) == Q1(0x0A);
    case 0xB => assert P0Row0(0x0B) == Q0(0x0B) && P1Row0(0x0B) == Q1(0x0B);
    case 0xC => assert P0Row0(0x0C) == Q0(0x0C) && P1Row0(0x0C) == Q1(0x0C);
    case 0xD => assert P0Row0(0x0D) == Q0(0x0D) && P1Row0(0x0D) == Q1(0x0D);
    case 0xE => assert P0Row0(0x0E) == Q0(0x0E) && P1Row0(0x0E) == Q1(0x0E);
    case _ => assert P0Row0(0x0F) == Q0(0x0F) && P1Row0(0x0F) == Q1(0x0F);
  }

  lemma MatrixRow0(n: byte)
    requires n < 0x10
    ensures Mds0Row0(n) == ScaledFast(P1Row0(n), 0x01, 0x5B, 0xEF, 0xEF)
    ensures Mds1Row0(n) == ScaledFast(P0Row0(n), 0xEF, 0xEF, 0x5B, 0x01)
    ensures Mds2Row0(n) == ScaledFast(P1Row0(n), 0x5B, 0xEF, 0x01, 0xEF)
    ensures Mds3Row0(n) == ScaledFast(P0Row0(n), 0x5B, 0x01, 0xEF, 0x5B)
  {
    match n
    case 0x0 => case 0x1 => case 0x2 => case 0x3 => case 0x4 => case 0x5 => case 0x6 => case 0x7 =>
    case 0x8 => case 0x9 => case 0xA => case 0xB => case 0xC => case 0xD => case 0xE => case _ =>
  }

  lemma At0(x: byte)
    requires x >> 4 == 0x0
    ensures P0(x) == Q0(x) && P1(x) == Q1(x) && MatrixAt(x)
  {
    var n := x & 0x0F;
    assert n == x;
    PermutationRow0(n);
    MatrixRow0(n);
    assert P0(x) == P0Row0(n) && P1(x) == P1Row0(n);
  }

  lemma PermutationRow1(n: byte)
    requires n < 0x10
    ensures P0Row1(n) == Q0(0x10 | n) && P1Row1(n) == Q1(0x10 | n)
  {
    match n
    case 0x0 => case 0x1 => case 0x2 => case 0x3 => case 0x4 => case 0x5 => case 0x6 => case 0x7 =>
    case 0x8 => case 0x9 => case 0xA => case 0xB => case 0xC => case 0xD => case 0xE => case _ =>
  }

  lemma MatrixRow1(n: byte)
    requires n < 0x10
    ensures Mds0Row1(n) == ScaledFast(P1Row1(n), 0x01, 0x5B, 0xEF, 0xEF)
    ensures Mds1Row1(n) == ScaledFast(P0Row1(n), 0xEF, 0xEF, 0x5B, 0x01)
    ensures Mds2Row1(n) == ScaledFast(P1Row1(n), 0x5B, 0xEF, 0x01, 0xEF)
    ensures Mds3Row1(n) == ScaledFast(P0Row1(n), 0x5B, 0x01, 0xEF, 0x5B)
  {
    match n
    case 0x0 => case 0x1 => case 0x2 => case 0x3 => case 0x4 => case 0x5 => case 0x6 => case 0x7 =>
    case 0x8 => case 0x9 => case 0xA => case 0xB => case 0xC => case 0xD => case 0xE => case _ =>
  }

  lemma At1(x: byte)
    requires x >> 4 == 0x1
    ensures P0(x) == Q0(x) && P1(x) == Q1(x) && MatrixAt(x)
  {
    var n := x & 0x0F;
    assert 0x10 | n == x;
    PermutationRow1(n);
    MatrixRow1(n);
    assert P0(x) == P0Row1(n) && P1(x) == P1Row1(n);
  }

  lemma PermutationRow2(n: byte)
    requires n < 0x10
    ensures P0Row2(n) == Q0(0x20 | n) && P1Row2(n) == Q1(0x20 | n)
  {
    match n
    case 0x0 => case 0x1 => case 0x2 => case 0x3 => case 0x4 => case 0x5 => case 0x6 => case 0x7 =>
    case 0x8 => case 0x9 => case 0xA => case 0xB => case 0xC => case 0xD => case 0xE => case _ =>
  }

  lemma MatrixRow2(n: byte)
    requires n < 0x10
    ensures Mds0Row2(n) == ScaledFast(P1Row2(n), 0x01, 0x5B, 0xEF, 0xEF)
    ensures Mds1Row2(n) == ScaledFast(P0Row2(n), 0xEF, 0xEF, 0x5B, 0x01)
    ensures Mds2Row2(n) == ScaledFast(P1Row2(n), 0x5B, 0xEF, 0x01, 0xEF)
    ensures Mds3Row2(n) == ScaledFast(P0Row2(n), 0x5B, 0x01, 0xEF, 0x5B)
  {
    match n
    case 0x0 => case 0x1 => case 0x2 => case 0x3 => case 0x4 => case 0x5 => case 0x6 => case 0x7 =>
    case 0x8 => case 0x9 => case 0xA => case 0xB => case 0xC => case 0xD => case 0xE => case _ =>
  }

  lemma At2(x: byte)
    requires x >> 4 == 0x2
    ensures P0(x) == Q0(x) && P1(x) == Q1(x) && MatrixAt(x)
  {
    var n := x & 0x0F;
    assert 0x20 | n == x;
    PermutationRow2(n);
    MatrixRow2(n);
    assert P0(x) == P0Row2(n) && P1(x) == P1Row2(n);
  }

  lemma PermutationRow3(n: byte)
    requires n < 0x10
    ensures P0Row3(n) == Q0(0x30 | n) && P1Row3(n) == Q1(0x30 | n)
  {
    match n
    case 0x0 => case 0x1 => case 0x2 => case 0x3 => case 0x4 => case 0x5 => case 0x6 => case 0x7 =>
    case 0x8 => case 0x9 => case 0xA => case 0xB => case 0xC => case 0xD => case 0xE => case _ =>
  }

  lemma MatrixRow3(n: byte)
    requires n < 0x10
    ensures Mds0Row3(n) == ScaledFast(P1Row3(n), 0x01, 0x5B, 0xEF, 0xEF)
    ensures Mds1Row3(n) == ScaledFast(P0Row3(n), 0xEF, 0xEF, 0x5B, 0x01)
    ensures Mds2Row3(n) == ScaledFast(P1Row3(n), 0x5B, 0xEF, 0x01, 0xEF)
    ensures Mds3Row3(n) == ScaledFast(P0Row3(n), 0x5B, 0x01, 0xEF, 0x5B)
  {
    match n
    case 0x0 => case 0x1 => case 0x2 => case 0x3 => case 0x4 => case 0x5 => case 0x6 => case 0x7 =>
    case 0x8 => case 0x9 => case 0xA => case 0xB => case 0xC => case 0xD => case 0xE => case _ =>
  }

  lemma At3(x: byte)
    requires x >> 4 == 0x3
    ensures P0(x) == Q0(x) && P1(x) == Q1(x) && MatrixAt(x)
  {
    var n := x & 0x0F;
    assert 0x30 | n == x;
    PermutationRow3(n);
    MatrixRow3(n);
    assert P0(x) == P0Row3(n) && P1(x) == P1Row3(n);
  }

  lemma PermutationRow4(n: byte)
    requires n < 0x10
    ensures P0Row4(n) == Q0(0x40 | n) && P1Row4(n) == Q1(0x40 | n)
  {
    match n
    case 0x0 => case 0x1 => case 0x2 => case 0x3 => case 0x4 => case 0x5 => case 0x6 => case 0x7 =>
    case 0x8 => case 0x9 => case 0xA => case 0xB => case 0xC => case 0xD => case 0xE => case _ =>
  }

  lemma MatrixRow4(n: byte)
    requires n < 0x10
    ensures Mds0Row4(n) == ScaledFast(P1Row4(n), 0x01, 0x5B, 0xEF, 0xEF)
    ensures Mds1Row4(n) == ScaledFast(P0Row4(n), 0xEF, 0xEF, 0x5B, 0x01)
    ensures Mds2Row4(n) == ScaledFast(P1Row4(n), 0x5B, 0xEF, 0x01, 0xEF)
    ensures Mds3Row4(n) == ScaledFast(P0Row4(n), 0x5B, 0x01, 0xEF, 0x5B)
  {
    match n
    case 0x0 => case 0x1 => case 0x2 => case 0x3 => case 0x4 => case 0x5 => case 0x6 => case 0x7 =>
    case 0x8 => case 0x9 => case 0xA => case 0xB => case 0xC => case 0xD => case 0xE => case _ =>
  }

  lemma At4(x: byte)
    requires x >> 4 == 0x4
    ensures P0(x) == Q0(x) && P1(x) == Q1(x) && MatrixAt(x)
  {
    var n := x & 0x0F;
    assert 0x40 | n == x;
    PermutationRow4(n);
    MatrixRow4(n);
    assert P0(x) == P0Row4(n) && P1(x) == P1Row4(n);
  }

  lemma PermutationRow5(n: byte)
    requires n < 0x10
    ensures P0Row5(n) == Q0(0x50 | n) && P1Row5(n) == Q1(0x50 | n)
  {
    match n
    case 0x0 => case 0x1 => case 0x2 => case 0x3 => case 0x4 => case 0x5 => case 0x6 => case 0x7 =>
    case 0x8 => case 0x9 => case 0xA => case 0xB => case 0xC => case 0xD => case 0xE => case _ =>
  }

  lemma MatrixRow5(n: byte)
    requires n < 0x10
    ensures Mds0Row5(n) == ScaledFast(P1Row5(n), 0x01, 0x5B, 0xEF, 0xEF)
    ensures Mds1Row5(n) == ScaledFast(P0Row5(n), 0xEF, 0xEF, 0x5B, 0x01)
    ensures Mds2Row5(n) == ScaledFast(P1Row5(n), 0x5B, 0xEF, 0x01, 0xEF)
    ensures Mds3Row5(n) == ScaledFast(P0Row5(n), 0x5B, 0x01, 0xEF, 0x5B)
  {
    match n
    case 0x0 => case 0x1 => case 0x2 => case 0x3 => case 0x4 => case 0x5 => case 0x6 => case 0x7 =>
    case 0x8 => case 0x9 => case 0xA => case 0xB => case 0xC => case 0xD => case 0xE => case _ =>
  }

  lemma At5(x: byte)
    requires x >> 4 == 0x5
    ensures P0(x) == Q0(x) && P1(x) == Q1(x) && MatrixAt(x)
  {
    var n := x & 0x0F;
    assert 0x50 | n == x;
    PermutationRow5(n);
    MatrixRow5(n);
    assert P0(x) == P0Row5(n) && P1(x) == P1Row5(n);
  }

  lemma PermutationRow6(n: byte)
    requires n < 0x10
    ensures P0Row6(n) == Q0(0x60 | n) && P1Row6(n) == Q1(0x60 | n)
  {
    match n
    case 0x0 => case 0x1 => case 0x2 => case 0x3 => case 0x4 => case 0x5 => case 0x6 => case 0x7 =>
    case 0x8 => case 0x9 => case 0xA => case 0xB => case 0xC => case 0xD => case 0xE => case _ =>
  }

  lemma MatrixRow6(n: byte)
    requires n < 0x10
    ensures Mds0Row6(n) == ScaledFast(P1Row6(n), 0x01, 0x5B, 0xEF, 0xEF)
    ensures Mds1Row6(n) == ScaledFast(P0Row6(n), 0xEF, 0xEF, 0x5B, 0x01)
    ensures Mds2Row6(n) == ScaledFast(P1Row6(n), 0x5B, 0xEF, 0x01, 0xEF)
    ensures Mds3Row6(n) == ScaledFast(P0Row6(n), 0x5B, 0x01, 0xEF, 0x5B)
  {
    match n
    case 0x0 => case 0x1 => case 0x2 => case 0x3 => case 0x4 => case 0x5 => case 0x6 => case 0x7 =>
    case 0x8 => case 0x9 => case 0xA => case 0xB => case 0xC => case 0xD => case 0xE => case _ =>
  }

  lemma At6(x: byte)
    requires x >> 4 == 0x6
    ensures P0(x) == Q0(x) && P1(x) == Q1(x) && MatrixAt(x)
  {
    var n := x & 0x0F;
    assert 0x60 | n == x;
    PermutationRow6(n);
    MatrixRow6(n);
    assert P0(x) == P0Row6(n) && P1(x) == P1Row6(n);
  }

  lemma PermutationRow7(n: byte)
    requires n < 0x10
    ensures P0Row7(n) == Q0(0x70 | n) && P1Row7(n) == Q1(0x70 | n)
  {
    match n
    case 0x0 => case 0x1 => case 0x2 => case 0x3 => case 0x4 => case 0x5 => case 0x6 => case 0x7 =>
    case 0x8 => case 0x9 => case 0xA => case 0xB => case 0xC => case 0xD => case 0xE => case _ =>
  }

  lemma MatrixRow7(n: byte)
    requires n < 0x10
    ensures Mds0Row7(n) == ScaledFast(P1Row7(n), 0x01, 0x5B, 0xEF, 0xEF)
    ensures Mds1Row7(n) == ScaledFast(P0Row7(n), 0xEF, 0xEF, 0x5B, 0x01)
    ensures Mds2Row7(n) == ScaledFast(P1Row7(n), 0x5B, 0xEF, 0x01, 0xEF)
    ensures Mds3Row7(n) == ScaledFast(P0Row7(n), 0x5B, 0x01, 0xEF, 0x5B)
  {
    match n
    case 0x0 => case 0x1 => case 0x2 => case 0x3 => case 0x4 => case 0x5 => case 0x6 => case 0x7 =>
    case 0x8 => case 0x9 => case 0xA => case 0xB => case 0xC => case 0xD => case 0xE => case _ =>
  }

  lemma At7(x: byte)
    requires x >> 4 == 0x7
    ensures P0(x) == Q0(x) && P1(x) == Q1(x) && MatrixAt(x)
  {
    var n := x & 0x0F;
    assert 0x70 | n == x;
    PermutationRow7(n);
    MatrixRow7(n);
    assert P0(x) == P0Row7(n) && P1(x) == P1Row7(n);
  }

  lemma PermutationRow8(n: byte)
    requires n < 0x10
    ensures P0Row8(n) == Q0(0x80 | n) && P1Row8(n) == Q1(0x80 | n)
  {
    match n
    case 0x0 => case 0x1 => case 0x2 => case 0x3 => case 0x4 => case 0x5 => case 0x6 => case 0x7 =>
    case 0x8 => case 0x9 => case 0xA => case 0xB => case 0xC => case 0xD => case 0xE => case _ =>
  }

  lemma MatrixRow8(n: byte)
    requires n < 0x10
    ensures Mds0Row8(n) == ScaledFast(P1Row8(n), 0x01, 0x5B, 0xEF, 0xEF)
    ensures Mds1Row8(n) == ScaledFast(P0Row8(n), 0xEF, 0xEF, 0x5B, 0x01)
    ensures Mds2Row8(n) == ScaledFast(P1Row8(n), 0x5B, 0xEF, 0x01, 0xEF)
    ensures Mds3Row8(n) == ScaledFast(P0Row8(n), 0x5B, 0x01, 0xEF, 0x5B)
  {
    match n
    case 0x0 => case 0x1 => case 0x2 => case 0x3 => case 0x4 => case 0x5 => case 0x6 => case 0x7 =>
    case 0x8 => case 0x9 => case 0xA => case 0xB => case 0xC => case 0xD => case 0xE => case _ =>
  }

  lemma At8(x: byte)
    requires x >> 4 == 0x8
    ensures P0(x) == Q0(x) && P1(x) == Q1(x) && MatrixAt(x)
  {
    var n := x & 0x0F;
    assert 0x80 | n == x;
    PermutationRow8(n);
    MatrixRow8(n);
    assert P0(x) == P0Row8(n) && P1(x) == P1Row8(n);
  }

  lemma PermutationRow9(n: byte)
    requires n < 0x10
    ensures P0Row9(n) == Q0(0x90 | n) && P1Row9(n) == Q1(0x90 | n)
  {
    match n
    case 0x0 => case 0x1 => case 0x2 => case 0x3 => case 0x4 => case 0x5 => case 0x6 => case 0x7 =>
    case 0x8 => case 0x9 => case 0xA => case 0xB => case 0xC => case 0xD => case 0xE => case _ =>
  }

  lemma MatrixRow9(n: byte)
    requires n < 0x10
    ensures Mds0Row9(n) == ScaledFast(P1Row9(n), 0x01, 0x5B, 0xEF, 0xEF)
    ensures Mds1Row9(n) == ScaledFast(P0Row9(n), 0xEF, 0xEF, 0x5B, 0x01)
    ensures Mds2Row9(n) == ScaledFast(P1Row9(n), 0x5B, 0xEF, 0x01, 0xEF)
    ensures Mds3Row9(n) == ScaledFast(P0Row9(n), 0x5B, 0x01, 0xEF, 0x5B)
  {
    match n
    case 0x0 => case 0x1 => case 0x2 => case 0x3 => case 0x4 => case 0x5 => case 0x6 => case 0x7 =>
    case 0x8 => case 0x9 => case 0xA => case 0xB => case 0xC => case 0xD => case 0xE => case _ =>
  }

  lemma At9(x: byte)
    requires x >> 4 == 0x9
    ensures P0(x) == Q0(x) && P1(x) == Q1(x) && MatrixAt(x)
  {
    var n := x & 0x0F;
    assert 0x90 | n == x;
    PermutationRow9(n);
    MatrixRow9(n);
    assert P0(x) == P0Row9(n) && P1(x) == P1Row9(n);
  }

  lemma PermutationRowA(n: byte)
    requires n < 0x10
    ensures P0RowA(n) == Q0(0xA0 | n) && P1RowA(n) == Q1(0xA0 | n)
  {
    match n
    case 0x0 => case 0x1 => case 0x2 => case 0x3 => case 0x4 => case 0x5 => case 0x6 => case 0x7 =>
    case 0x8 => case 0x9 => case 0xA => case 0xB => case 0xC => case 0xD => case 0xE => case _ =>
  }

  lemma MatrixRowA(n: byte)
    requires n < 0x10
    ensures Mds0RowA(n) == ScaledFast(P1RowA(n), 0x01, 0x5B, 0xEF, 0xEF)
    ensures Mds1RowA(n) == ScaledFast(P0RowA(n), 0xEF, 0xEF, 0x5B, 0x01)
    ensures Mds2RowA(n) == ScaledFast(P1RowA(n), 0x5B, 0xEF, 0x01, 0xEF)
    ensures Mds3RowA(n) == ScaledFast(P0RowA(n), 0x5B, 0x01, 0xEF, 0x5B)
  {
    match n
    case 0x0 => case 0x1 => case 0x2 => case 0x3 => case 0x4 => case 0x5 => case 0x6 => case 0x7 =>
    case 0x8 => case 0x9 => case 0xA => case 0xB => case 0xC => case 0xD => case 0xE => case _ =>
  }

  lemma AtA(x: byte)
    requires x >> 4 == 0xA
    ensures P0(x) == Q0(x) && P1(x) == Q1(x) && MatrixAt(x)
  {
    var n := x & 0x0F;
    assert 0xA0 | n == x;
    PermutationRowA(n);
    MatrixRowA(n);
    assert P0(x) == P0RowA(n) && P1(x) == P1RowA(n);
  }

  lemma PermutationRowB(n: byte)
    requires n < 0x10
    ensures P0RowB(n) == Q0(0xB0 | n) && P1RowB(n) == Q1(0xB0 | n)
  {
    match n
    case 0x0 => case 0x1 => case 0x2 => case 0x3 => case 0x4 => case 0x5 => case 0x6 => case 0x7 =>
    case 0x8 => case 0x9 => case 0xA => case 0xB => case 0xC => case 0xD => case 0xE => case _ =>
  }

  lemma MatrixRowB(n: byte)
    requires n < 0x10
    ensures Mds0RowB(n) == ScaledFast(P1RowB(n), 0x01, 0x5B, 0xEF, 0xEF)
    ensures Mds1RowB(n) == ScaledFast(P0RowB(n), 0xEF, 0xEF, 0x5B, 0x01)
    ensures Mds2RowB(n) == ScaledFast(P1RowB(n), 0x5B, 0xEF, 0x01, 0xEF)
    ensures Mds3RowB(n) == ScaledFast(P0RowB(n), 0x5B, 0x01, 0xEF, 0x5B)
  {
    match n
    case 0x0 => case 0x1 => case 0x2 => case 0x3 => case 0x4 => case 0x5 => case 0x6 => case 0x7 =>
    case 0x8 => case 0x9 => case 0xA => case 0xB => case 0xC => case 0xD => case 0xE => case _ =>
  }

  lemma AtB(x: byte)
    requires x >> 4 == 0xB
    ensures P0(x) == Q0(x) && P1(x) == Q1(x) && MatrixAt(x)
  {
    var n := x & 0x0F;
    assert 0xB0 | n == x;
    PermutationRowB(n);
    MatrixRowB(n);
    assert P0(x) == P0RowB(n) && P1(x) == P1RowB(n);
  }

  lemma PermutationRowC(n: byte)
    requires n < 0x10
    ensures P0RowC(n) == Q0(0xC0 | n) && P1RowC(n) == Q1(0xC0 | n)
  {
    match n
    case 0x0 => case 0x1 => case 0x2 => case 0x3 => case 0x4 => case 0x5 => case 0x6 => case 0x7 =>
    case 0x8 => case 0x9 => case 0xA => case 0xB => case 0xC => case 0xD => case 0xE => case _ =>
  }

  lemma MatrixRowC(n: byte)
    requires n < 0x10
    ensures Mds0RowC(n) == ScaledFast(P1RowC(n), 0x01, 0x5B, 0xEF, 0xEF)
    ensures Mds1RowC(n) == ScaledFast(P0RowC(n), 0xEF, 0xEF, 0x5B, 0x01)
    ensures Mds2RowC(n) == ScaledFast(P1RowC(n), 0x5B, 0xEF, 0x01, 0xEF)
    ensures Mds3RowC(n) == ScaledFast(P0RowC(n), 0x5B, 0x01, 0xEF, 0x5B)
  {
    match n
    case 0x0 => case 0x1 => case 0x2 => case 0x3 => case 0x4 => case 0x5 => case 0x6 => case 0x7 =>
    case 0x8 => case 0x9 => case 0xA => case 0xB => case 0xC => case 0xD => case 0xE => case _ =>
  }

  lemma AtC(x: byte)
    requires x >> 4 == 0xC
    ensures P0(x) == Q0(x) && P1(x) == Q1(x) && MatrixAt(x)
  {
    var n := x & 0x0F;
    assert 0xC0 | n == x;
    PermutationRowC(n);
    MatrixRowC(n);
    assert P0(x) == P0RowC(n) && P1(x) == P1RowC(n);
  }

  lemma PermutationRowD(n: byte)
    requires n < 0x10
    ensures P0RowD(n) == Q0(0xD0 | n) && P1RowD(n) == Q1(0xD0 | n)
  {
    match n
    case 0x0 => case 0x1 => case 0x2 => case 0x3 => case 0x4 => case 0x5 => case 0x6 => case 0x7 =>
    case 0x8 => case 0x9 => case 0xA => case 0xB => case 0xC => case 0xD => case 0xE => case _ =>
  }

  lemma MatrixRowD(n: byte)
    requires n < 0x10
    ensures Mds0RowD(n) == ScaledFast(P1RowD(n), 0x01, 0x5B, 0xEF, 0xEF)
    ensures Mds1RowD(n) == ScaledFast(P0RowD(n), 0xEF, 0xEF, 0x5B, 0x01)
    ensures Mds2RowD(n) == ScaledFast(P1RowD(n), 0x5B, 0xEF, 0x01, 0xEF)
    ensures Mds3RowD(n) == ScaledFast(P0RowD(n), 0x5B, 0x01, 0xEF, 0x5B)
  {
    match n
    case 0x0 => case 0x1 => case 0x2 => case 0x3 => case 0x4 => case 0x5 => case 0x6 => case 0x7 =>
    case 0x8 => case 0x9 => case 0xA => case 0xB => case 0xC => case 0xD => case 0xE => case _ =>
  }

  lemma AtD(x: byte)
    requires x >> 4 == 0xD
    ensures P0(x) == Q0(x) && P1(x) == Q1(x) && MatrixAt(x)
  {
    var n := x & 0x0F;
    assert 0xD0 | n == x;
    PermutationRowD(n);
    MatrixRowD(n);
    assert P0(x) == P0RowD(n) && P1(x) == P1RowD(n);
  }

  lemma PermutationRowE(n: byte)
    requires n < 0x10
    ensures P0RowE(n) == Q0(0xE0 | n) && P1RowE(n) == Q1(0xE0 | n)
  {
    match n
    case 0x0 => case 0x1 => case 0x2 => case 0x3 => case 0x4 => case 0x5 => case 0x6 => case 0x7 =>
    case 0x8 => case 0x9 => case 0xA => case 0xB => case 0xC => case 0xD => case 0xE => case _ =>
  }

  lemma MatrixRowE(n: byte)
    requires n < 0x10
    ensures Mds0RowE(n) == ScaledFast(P1RowE(n), 0x01, 0x5B, 0xEF, 0xEF)
    ensures Mds1RowE(n) == ScaledFast(P0RowE(n), 0xEF, 0xEF, 0x5B, 0x01)
    ensures Mds2RowE(n) == ScaledFast(P1RowE(n), 0x5B, 0xEF, 0x01, 0xEF)
    ensures Mds3RowE(n) == ScaledFast(P0RowE(n), 0x5B, 0x01, 0xEF, 0x5B)
  {
    match n
    case 0x0 => case 0x1 => case 0x2 => case 0x3 => case 0x4 => case 0x5 => case 0x6 => case 0x7 =>
    case 0x8 => case 0x9 => case 0xA => case 0xB => case 0xC => case 0xD => case 0xE => case _ =>
  }

  lemma AtE(x: byte)
    requires x >> 4 == 0xE
    ensures P0(x) == Q0(x) && P1(x) == Q1(x) && MatrixAt(x)
  {
    var n := x & 0x0F;
    assert 0xE0 | n == x;
    PermutationRowE(n);
    MatrixRowE(n);
    assert P0(x) == P0RowE(n) && P1(x) == P1RowE(n);
  }

  lemma PermutationRowF(n: byte)
    requires n < 0x10
    ensures P0RowF(n) == Q0(0xF0 | n) && P1RowF(n) == Q1(0xF0 | n)
  {
    match n
    case 0x0 => case 0x1 => case 0x2 => case 0x3 => case 0x4 => case 0x5 => case 0x6 => case 0x7 =>
    case 0x8 => case 0x9 => case 0xA => case 0xB => case 0xC => case 0xD => case 0xE => case _ =>
  }

  lemma MatrixRowF(n: byte)
    requires n < 0x10
    ensures Mds0RowF(n) == ScaledFast(P1RowF(n), 0x01, 0x5B, 0xEF, 0xEF)
    ensures Mds1RowF(n) == ScaledFast(P0RowF(n), 0xEF, 0xEF, 0x5B, 0x01)
    ensures Mds2RowF(n) == ScaledFast(P1RowF(n), 0x5B, 0xEF, 0x01, 0xEF)
    ensures Mds3RowF(n) == ScaledFast(P0RowF(n), 0x5B, 0x01, 0xEF, 0x5B)
  {
    match n
    case 0x0 => case 0x1 => case 0x2 => case 0x3 => case 0x4 => case 0x5 => case 0x6 => case 0x7 =>
    case 0x8 => case 0x9 => case 0xA => case 0xB => case 0xC => case 0xD => case 0xE => case _ =>
  }

  lemma AtF(x: byte)
    requires x >> 4 == 0xF
    ensures P0(x) == Q0(x) && P1(x) == Q1(x) && MatrixAt(x)
  {
    var n := x & 0x0F;
    assert 0xF0 | n == x;
    RowF(x, n);
    PermutationRowF(n);
    MatrixRowF(n);
  }

  lemma RowF(x: byte, n: byte)
    requires x >> 4 == 0xF && n == x & 0x0F
    ensures P0(x) == P0RowF(n) && P1(x) == P1RowF(n)
    ensures Mds0(x) == Mds0RowF(n) && Mds1(x) == Mds1RowF(n) && Mds2(x) == Mds2RowF(n) && Mds3(x) == Mds3RowF(n)
  {
  }

  /** P[0] and P[1] are the permutations q0 and q1; each MDS table is a matrix column times one of them. */
  lemma LiteralTables(x: byte)
    ensures P0(x) == Q0(x) && P1(x) == Q1(x) && MatrixAt(x)
  {
    match x >> 4
    case 0x0 => At0(x);
    case 0x1 => At1(x);
    case 0x2 => At2(x);
    case 0x3 => At3(x);
    case 0x4 => At4(x);
    case 0x5 => At5(x);
    case 0x6 => At6(x);
    case 0x7 => At7(x);
    case 0x8 => At8(x);
    case 0x9 => At9(x);
    case 0xA => AtA(x);
    case 0xB => AtB(x);
    case 0xC => AtC(x);
    case 0xD => AtD(x);
    case 0xE => AtE(x);
    case _ => AtF(x);
  }

  /** The constant tables, as the program uses them. */
  function TwofishTables(): Boxes { Boxes(P0, P1, Mds0, Mds1, Mds2, Mds3) }

  lemma HoldsColumn0(y: byte)
    ensures Mds0(y) == Column0(P1(y))
  {
    LiteralTables(y);
    ScaledIsFast(P1(y), 0x01, 0x5B, 0xEF, 0xEF);
  }

  lemma HoldsColumn1(y: byte)
    ensures Mds1(y) == Column1(P0(y))
  {
    LiteralTables(y);
    ScaledIsFast(P0(y), 0xEF, 0xEF, 0x5B, 0x01);
  }

  lemma HoldsColumn2(y: byte)
    ensures Mds2(y) == Column2(P1(y))
  {
    LiteralTables(y);
    ScaledIsFast(P1(y), 0x5B, 0xEF, 0x01, 0xEF);
  }

  lemma HoldsColumn3(y: byte)
    ensures Mds3(y) == Column3(P0(y))
  {
    LiteralTables(y);
    ScaledIsFast(P0(y), 0x5B, 0x01, 0xEF, 0x5B);
  }

  lemma TwofishTablesHoldMatrix()
    ensures TablesHoldMatrix(TwofishTables())
  {
    forall y: byte
      ensures Mds0(y) == Column0(P1(y)) && Mds1(y) == Column1(P0(y))
      ensures Mds2(y) == Column2(P1(y)) && Mds3(y) == Column3(P0(y))
    {
      HoldsColumn0(y);
      HoldsColumn1(y);
      HoldsColumn2(y);
      HoldsColumn3(y);
    }
  }

  lemma TwofishPermutations()
    ensures Inverses(P0, Q0Inv) && Inverses(P1, Q1Inv)
  {
    forall x: byte
      ensures Q0Inv(P0(x)) == x && P0(Q0Inv(x)) == x && Q1Inv(P1(x)) == x && P1(Q1Inv(x)) == x
    {
      LiteralTables(x);
      LiteralTables(Q0Inv(x));
      LiteralTables(Q1Inv(x));
      Q0Inverts(x);
      Q1Inverts(x);
      Q0InvInverts(x);
      Q1InvInverts(x);
    }
  }

  lemma PermutationsAreQ()
    ensures forall y :: P0(y) == Q0(y) && P1(y) == Q1(y)
  {
    forall y: byte
      ensures P0(y) == Q0(y) && P1(y) == Q1(y)
    {
      LiteralTables(y);
    }
  }

  /** With the constant tables, h is the function of the paper over q0 and q1. */
  lemma TwofishH(x: word, l: seq<word>)
    requires |l| == 4
    ensures H(TwofishTables(), x, l) == PaperH(Q0, Q1, x, l)
  {
    TwofishTablesHoldMatrix();
    HIsPaperH(TwofishTables(), x, l);
    PermutationsAreQ();
    PaperHAgrees(P0, P1, Q0, Q1, x, l);
  }

  /** With the constant tables, g is a permutation of the words for every key. */
  lemma TwofishGPermutes(l: seq<word>)
    requires |l| == 4
    ensures forall x, y :: H(TwofishTables(), x, l) == H(TwofishTables(), y, l) ==> x == y
    ensures forall z :: H(TwofishTables(), PaperHInv(Q0Inv, Q1Inv, z, l), l) == z
  {
    TwofishTablesHoldMatrix();
    TwofishPermutations();
    HPermutes(TwofishTables(), Q0Inv, Q1Inv, l);
  }

  /**
   * So the look-ups in a filled S-box, plain and from byte 3 on, are permutations of the words, for every key:
   * different words have different images, and every word is one.
   */
  lemma TwofishLookupsPermute(l: seq<word>, s: SBoxTable)
    requires |l| == 4 && Holds(TwofishTables(), l, s, 256)
    ensures forall x, y :: Lookup(s, x, 0) == Lookup(s, y, 0) ==> x == y
    ensures forall x, y :: Lookup(s, x, 3) == Lookup(s, y, 3) ==> x == y
    ensures forall z :: Lookup(s, PaperHInv(Q0Inv, Q1Inv, z, l), 0) == z
    ensures forall z :: Lookup(s, Ror8(PaperHInv(Q0Inv, Q1Inv, z, l)), 3) == z
  {
    TwofishGPermutes(l);
    forall x
      ensures Lookup(s, x, 0) == H(TwofishTables(), x, l) && Lookup(s, x, 3) == H(TwofishTables(), Rol8(x), l)
      ensures Ror8(Rol8(x)) == x && Rol8(Ror8(x)) == x
    {
      LookupIsH(TwofishTables(), l, s, x);
      RotationsInvert(x);
    }
  }
}
