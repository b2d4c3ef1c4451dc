/**
 * The keyed function h (section 4.3.2 of the Twofish paper): once as the program evaluates it,
 * with table look-ups, and once as the paper defines it, with the permutations and the matrix.
 */
module HFunction {
  import opened Words
  import opened MdsMatrix

  /** The constant tables of the program. */
  datatype Boxes = Boxes(
    p0: byte -> byte, p1: byte -> byte,
    mds0: byte -> word, mds1: byte -> word, mds2: byte -> word, mds3: byte -> word)

  /** Four key-dependent substitutions: a permutation, then the addition of a key byte. */
  function Chain(a: byte -> byte, b: byte -> byte, c: byte -> byte, d: byte -> byte,
                 x: byte, l3: byte, l2: byte, l1: byte, l0: byte): byte {
    XorB(d(XorB(c(XorB(b(XorB(a(x), l3)), l2)), l1)), l0)
  }

  // The index into each MDS table for input byte x.
  function Index0(t: Boxes, x: byte, l: seq<word>): byte
    requires |l| == 4
  {
    Chain(t.p1, t.p1, t.p0, t.p0, x, B0(l[3]), B0(l[2]), B0(l[1]), B0(l[0]))
  }

  function Index1(t: Boxes, x: byte, l: seq<word>): byte
    requires |l| == 4
  {
    Chain(t.p0, t.p1, t.p1, t.p0, x, B1(l[3]), B1(l[2]), B1(l[1]), B1(l[0]))
  }

  function Index2(t: Boxes, x: byte, l: seq<word>): byte
    requires |l| == 4
  {
    Chain(t.p0, t.p0, t.p0, t.p1, x, B2(l[3]), B2(l[2]), B2(l[1]), B2(l[0]))
  }

  function Index3(t: Boxes, x: byte, l: seq<word>): byte
    requires |l| == 4
  {
    Chain(t.p1, t.p0, t.p1, t.p1, x, B3(l[3]), B3(l[2]), B3(l[1]), B3(l[0]))
  }

  /** h as the program computes it. */
  function H(t: Boxes, x: word, l: seq<word>): word
    requires |l| == 4
  {
    XorW(XorW(t.mds0(Index0(t, B0(x), l)), t.mds1(Index1(t, B1(x), l))),
         XorW(t.mds2(Index2(t, B2(x), l)), t.mds3(Index3(t, B3(x), l))))
  }

  /** h as the paper defines it, over the permutations q0 and q1. */
  function PaperH(q0: byte -> byte, q1: byte -> byte, x: word, l: seq<word>): word
    requires |l| == 4
  {
    MdsMul(Pack(
      q1(Chain(q1, q1, q0, q0, B0(x), B0(l[3]), B0(l[2]), B0(l[1]), B0(l[0]))),
      q0(Chain(q0, q1, q1, q0, B1(x), B1(l[3]), B1(l[2]), B1(l[1]), B1(l[0]))),
      q1(Chain(q0, q0, q0, q1, B2(x), B2(l[3]), B2(l[2]), B2(l[1]), B2(l[0]))),
      q0(Chain(q1, q0, q1, q1, B3(x), B3(l[3]), B3(l[2]), B3(l[1]), B3(l[0])))))
  }

  /** One stage of h on all four bytes: a permutation of each, then the addition of a key word. */
  function Stage(a: byte -> byte, b: byte -> byte, c: byte -> byte, d: byte -> byte, y: word, k: word): word {
    XorW(Pack(a(B0(y)), b(B1(y)), c(B2(y)), d(B3(y))), k)
  }

  lemma StageBytes(a: byte -> byte, b: byte -> byte, c: byte -> byte, d: byte -> byte, y: word, k: word)
    ensures var z := Stage(a, b, c, d, y, k);
      B0(z) == XorB(a(B0(y)), B0(k)) && B1(z) == XorB(b(B1(y)), B1(k))
      && B2(z) == XorB(c(B2(y)), B2(k)) && B3(z) == XorB(d(B3(y)), B3(k))
  {
    var z := Pack(a(B0(y)), b(B1(y)), c(B2(y)), d(B3(y)));
    BytesOfPack(a(B0(y)), b(B1(y)), c(B2(y)), d(B3(y)));
    XorBytes(z, k);
  }

  /** h word by word, as the figure of section 4.3.2 of the paper has it: four stages from l3 to l0, and the matrix. */
  lemma PaperHByStages(q0: byte -> byte, q1: byte -> byte, x: word, l: seq<word>)
    requires |l| == 4
    ensures var y3 := Stage(q1, q0, q0, q1, x, l[3]);
      var y2 := Stage(q1, q1, q0, q0, y3, l[2]);
      var y1 := Stage(q0, q1, q0, q1, y2, l[1]);
      var y0 := Stage(q0, q0, q1, q1, y1, l[0]);
      PaperH(q0, q1, x, l) == MdsMul(Stage(q1, q0, q1, q0, y0, 0))
  {
    var y3 := Stage(q1, q0, q0, q1, x, l[3]);
    var y2 := Stage(q1, q1, q0, q0, y3, l[2]);
    var y1 := Stage(q0, q1, q0, q1, y2, l[1]);
    var y0 := Stage(q0, q0, q1, q1, y1, l[0]);
    StageBytes(q1, q0, q0, q1, x, l[3]);
    StageBytes(q1, q1, q0, q0, y3, l[2]);
    StageBytes(q0, q1, q0, q1, y2, l[1]);
    StageBytes(q0, q0, q1, q1, y1, l[0]);
    AddNothing(Pack(q1(B0(y0)), q0(B1(y0)), q1(B2(y0)), q0(B3(y0))));
  }

  lemma AddNothing(x: word)
    ensures XorW(x, 0) == x
  {
  }

  /** Each MDS table is a matrix column times a last permutation. */
  ghost predicate TablesHoldMatrix(t: Boxes) {
    forall y ::
      && t.mds0(y) == Column0(t.p1(y)) && t.mds1(y) == Column1(t.p0(y))
      && t.mds2(y) == Column2(t.p1(y)) && t.mds3(y) == Column3(t.p0(y))
  }

  ghost predicate Inverses(q: byte -> byte, r: byte -> byte) {
    forall x :: r(q(x)) == x && q(r(x)) == x
  }

  lemma HIsPaperH(t: Boxes, x: word, l: seq<word>)
    requires |l| == 4 && TablesHoldMatrix(t)
    ensures H(t, x, l) == PaperH(t.p0, t.p1, x, l)
  {
    BytesOfPack(t.p1(Index0(t, B0(x), l)), t.p0(Index1(t, B1(x), l)),
                t.p1(Index2(t, B2(x), l)), t.p0(Index3(t, B3(x), l)));
  }

  // h backwards.

  function Unchain(a: byte -> byte, b: byte -> byte, c: byte -> byte, d: byte -> byte,
                   y: byte, l3: byte, l2: byte, l1: byte, l0: byte): byte {
    a(XorB(b(XorB(c(XorB(d(XorB(y, l0)), l1)), l2)), l3))
  }

  lemma AddTwice(x: byte, k: byte)
    ensures XorB(XorB(x, k), k) == x
  {
  }

  lemma ChainInverts(a: byte -> byte, b: byte -> byte, c: byte -> byte, d: byte -> byte,
                     ai: byte -> byte, bi: byte -> byte, ci: byte -> byte, di: byte -> byte,
                     x: byte, l3: byte, l2: byte, l1: byte, l0: byte)
    requires Inverses(a, ai) && Inverses(b, bi) && Inverses(c, ci) && Inverses(d, di)
    ensures Unchain(ai, bi, ci, di, Chain(a, b, c, d, x, l3, l2, l1, l0), l3, l2, l1, l0) == x
    ensures Chain(a, b, c, d, Unchain(ai, bi, ci, di, x, l3, l2, l1, l0), l3, l2, l1, l0) == x
  {
    var u := XorB(a(x), l3);
    var v := XorB(b(u), l2);
    var w := XorB(c(v), l1);
    AddTwice(a(x), l3);
    AddTwice(b(u), l2);
    AddTwice(c(v), l1);
    AddTwice(d(w), l0);
    var w' := di(XorB(x, l0));
    var v' := ci(XorB(w', l1));
    var u' := bi(XorB(v', l2));
    AddTwice(x, l0);
    AddTwice(w', l1);
    AddTwice(v', l2);
    AddTwice(u', l3);
  }

  function PaperHInv(r0: byte -> byte, r1: byte -> byte, z: word, l: seq<word>): word
    requires |l| == 4
  {
    var y := MdsInv(z);
    Pack(
      Unchain(r1, r1, r0, r0, r1(B0(y)), B0(l[3]), B0(l[2]), B0(l[1]), B0(l[0])),
      Unchain(r0, r1, r1, r0, r0(B1(y)), B1(l[3]), B1(l[2]), B1(l[1]), B1(l[0])),
      Unchain(r0, r0, r0, r1, r1(B2(y)), B2(l[3]), B2(l[2]), B2(l[1]), B2(l[0])),
      Unchain(r1, r0, r1, r1, r0(B3(y)), B3(l[3]), B3(l[2]), B3(l[1]), B3(l[0])))
  }

  /** The inverse of h undoes h. */
  lemma PaperHInvInverts(q0: byte -> byte, q1: byte -> byte, r0: byte -> byte, r1: byte -> byte, x: word, l: seq<word>)
    requires |l| == 4 && Inverses(q0, r0) && Inverses(q1, r1)
    ensures PaperHInv(r0, r1, PaperH(q0, q1, x, l), l) == x
  {
    var c0 := Chain(q1, q1, q0, q0, B0(x), B0(l[3]), B0(l[2]), B0(l[1]), B0(l[0]));
    var c1 := Chain(q0, q1, q1, q0, B1(x), B1(l[3]), B1(l[2]), B1(l[1]), B1(l[0]));
    var c2 := Chain(q0, q0, q0, q1, B2(x), B2(l[3]), B2(l[2]), B2(l[1]), B2(l[0]));
    var c3 := Chain(q1, q0, q1, q1, B3(x), B3(l[3]), B3(l[2]), B3(l[1]), B3(l[0]));
    MdsInverse(Pack(q1(c0), q0(c1), q1(c2), q0(c3)));
    BytesOfPack(q1(c0), q0(c1), q1(c2), q0(c3));
    ChainInverts(q1, q1, q0, q0, r1, r1, r0, r0, B0(x), B0(l[3]), B0(l[2]), B0(l[1]), B0(l[0]));
    ChainInverts(q0, q1, q1, q0, r0, r1, r1, r0, B1(x), B1(l[3]), B1(l[2]), B1(l[1]), B1(l[0]));
    ChainInverts(q0, q0, q0, q1, r0, r0, r0, r1, B2(x), B2(l[3]), B2(l[2]), B2(l[1]), B2(l[0]));
    ChainInverts(q1, q0, q1, q1, r1, r0, r1, r1, B3(x), B3(l[3]), B3(l[2]), B3(l[1]), B3(l[0]));
    PackBytes(x);
  }

  /** h undoes the inverse of h. */
  lemma PaperHInvertsInv(q0: byte -> byte, q1: byte -> byte, r0: byte -> byte, r1: byte -> byte, z: word, l: seq<word>)
    requires |l| == 4 && Inverses(q0, r0) && Inverses(q1, r1)
    ensures PaperH(q0, q1, PaperHInv(r0, r1, z, l), l) == z
  {
    var y := MdsInv(z);
    var u0 := Unchain(r1, r1, r0, r0, r1(B0(y)), B0(l[3]), B0(l[2]), B0(l[1]), B0(l[0]));
    var u1 := Unchain(r0, r1, r1, r0, r0(B1(y)), B1(l[3]), B1(l[2]), B1(l[1]), B1(l[0]));
    var u2 := Unchain(r0, r0, r0, r1, r1(B2(y)), B2(l[3]), B2(l[2]), B2(l[1]), B2(l[0]));
    var u3 := Unchain(r1, r0, r1, r1, r0(B3(y)), B3(l[3]), B3(l[2]), B3(l[1]), B3(l[0]));
    BytesOfPack(u0, u1, u2, u3);
    ChainInverts(q1, q1, q0, q0, r1, r1, r0, r0, r1(B0(y)), B0(l[3]), B0(l[2]), B0(l[1]), B0(l[0]));
    ChainInverts(q0, q1, q1, q0, r0, r1, r1, r0, r0(B1(y)), B1(l[3]), B1(l[2]), B1(l[1]), B1(l[0]));
    ChainInverts(q0, q0, q0, q1, r0, r0, r0, r1, r1(B2(y)), B2(l[3]), B2(l[2]), B2(l[1]), B2(l[0]));
    ChainInverts(q1, q0, q1, q1, r1, r0, r1, r1, r0(B3(y)), B3(l[3]), B3(l[2]), B3(l[1]), B3(l[0]));
    PackBytes(y);
    MdsInverse(z);
  }

  /** With tables of that kind h permutes the words, for every key. */
  lemma HPermutes(t: Boxes, r0: byte -> byte, r1: byte -> byte, l: seq<word>)
    requires |l| == 4 && TablesHoldMatrix(t) && Inverses(t.p0, r0) && Inverses(t.p1, r1)
    ensures forall x, y :: H(t, x, l) == H(t, y, l) ==> x == y
    ensures forall z :: H(t, PaperHInv(r0, r1, z, l), l) == z
  {
    forall x, y | H(t, x, l) == H(t, y, l)
      ensures x == y
    {
      HIsPaperH(t, x, l);
      HIsPaperH(t, y, l);
      PaperHInvInverts(t.p0, t.p1, r0, r1, x, l);
      PaperHInvInverts(t.p0, t.p1, r0, r1, y, l);
    }
    forall z
      ensures H(t, PaperHInv(r0, r1, z, l), l) == z
    {
      HIsPaperH(t, PaperHInv(r0, r1, z, l), l);
      PaperHInvertsInv(t.p0, t.p1, r0, r1, z, l);
    }
  }

  lemma ChainAgrees(a: byte -> byte, b: byte -> byte, c: byte -> byte, d: byte -> byte,
                    a': byte -> byte, b': byte -> byte, c': byte -> byte, d': byte -> byte,
                    x: byte, l3: byte, l2: byte, l1: byte, l0: byte)
    requires forall y :: a(y) == a'(y) && b(y) == b'(y) && c(y) == c'(y) && d(y) == d'(y)
    ensures Chain(a, b, c, d, x, l3, l2, l1, l0) == Chain(a', b', c', d', x, l3, l2, l1, l0)
  {
  }

  /** The paper's h depends on its permutations only through their values. */
  lemma PaperHAgrees(q0: byte -> byte, q1: byte -> byte, r0: byte -> byte, r1: byte -> byte, x: word, l: seq<word>)
    requires |l| == 4 && forall y :: q0(y) == r0(y) && q1(y) == r1(y)
    ensures PaperH(q0, q1, x, l) == PaperH(r0, r1, x, l)
  {
    ChainAgrees(q1, q1, q0, q0, r1, r1, r0, r0, B0(x), B0(l[3]), B0(l[2]), B0(l[1]), B0(l[0]));
    ChainAgrees(q0, q1, q1, q0, r0, r1, r1, r0, B1(x), B1(l[3]), B1(l[2]), B1(l[1]), B1(l[0]));
    ChainAgrees(q0, q0, q0, q1, r0, r0, r0, r1, B2(x), B2(l[3]), B2(l[2]), B2(l[1]), B2(l[0]));
    ChainAgrees(q1, q0, q1, q1, r1, r0, r1, r1, B3(x), B3(l[3]), B3(l[2]), B3(l[1]), B3(l[0]));
  }
}
