/**
 * The fixed permutations q0 and q1 as section 4.3.5 of the Twofish paper builds them:
 * two mixing steps on a pair of nibbles, each followed by two tables of sixteen entries.
 */
module QBoxes {
  import opened Words

  type nibble = bv4

  function MixA(a: nibble, b: nibble): nibble { a ^ b }
  function MixB(a: nibble, b: nibble): nibble { a ^ ((b >> 1) | (b << 3)) ^ (a << 3) }

  // The two nibbles before a mixing step.
  function UnmixB(a: nibble, b: nibble): nibble {
    var c := a ^ b ^ (a << 3);
    c ^ (c >> 1) ^ (c >> 2) ^ (c >> 3)
  }

  function UnmixA(a: nibble, b: nibble): nibble { a ^ UnmixB(a, b) }

  function High(x: byte): nibble { (x >> 4) as nibble }
  function Low(x: byte): nibble { (x & 0x0F) as nibble }
  function Join(high: nibble, low: nibble): byte { ((high as byte) << 4) | (low as byte) }

  function Q0T0(n: nibble): nibble {
    match n >> 2
    case 0 => (match n & 3 case 0 => 0x8 case 1 => 0x1 case 2 => 0x7 case _ => 0xD)
    case 1 => (match n & 3 case 0 => 0x6 case 1 => 0xF case 2 => 0x3 case _ => 0x2)
    case 2 => (match n & 3 case 0 => 0x0 case 1 => 0xB case 2 => 0x5 case _ => 0x9)
    case _ => (match n & 3 case 0 => 0xE case 1 => 0xC case 2 => 0xA case _ => 0x4)
  }

  function Q0T0Inv(n: nibble): nibble {
    match n >> 2
    case 0 => (match n & 3 case 0 => 0x8 case 1 => 0x1 case 2 => 0x7 case _ => 0x6)
    case 1 => (match n & 3 case 0 => 0xF case 1 => 0xA case 2 => 0x4 case _ => 0x2)
    case 2 => (match n & 3 case 0 => 0x0 case 1 => 0xB case 2 => 0xE case _ => 0x9)
    case _ => (match n & 3 case 0 => 0xD case 1 => 0x3 case 2 => 0xC case _ => 0x5)
  }

  function Q0T1(n: nibble): nibble {
    match n >> 2
    case 0 => (match n & 3 case 0 => 0xE case 1 => 0xC case 2 => 0xB case _ => 0x8)
    case 1 => (match n & 3 case 0 => 0x1 case 1 => 0x2 case 2 => 0x3 case _ => 0x5)
    case 2 => (match n & 3 case 0 => 0xF case 1 => 0x4 case 2 => 0xA case _ => 0x6)
    case _ => (match n & 3 case 0 => 0x7 case 1 => 0x0 case 2 => 0x9 case _ => 0xD)
  }

  function Q0T1Inv(n: nibble): nibble {
    match n >> 2
    case 0 => (match n & 3 case 0 => 0xD case 1 => 0x4 case 2 => 0x5 case _ => 0x6)
    case 1 => (match n & 3 case 0 => 0x9 case 1 => 0x7 case 2 => 0xB case _ => 0xC)
    case 2 => (match n & 3 case 0 => 0x3 case 1 => 0xE case 2 => 0xA case _ => 0x2)
    case _ => (match n & 3 case 0 => 0x1 case 1 => 0xF case 2 => 0x0 case _ => 0x8)
  }

  function Q0T2(n: nibble): nibble {
    match n >> 2
    case 0 => (match n & 3 case 0 => 0xB case 1 => 0xA case 2 => 0x5 case _ => 0xE)
    case 1 => (match n & 3 case 0 => 0x6 case 1 => 0xD case 2 => 0x9 case _ => 0x0)
    case 2 => (match n & 3 case 0 => 0xC case 1 => 0x8 case 2 => 0xF case _ => 0x3)
    case _ => (match n & 3 case 0 => 0x2 case 1 => 0x4 case 2 => 0x7 case _ => 0x1)
  }

  function Q0T2Inv(n: nibble): nibble {
    match n >> 2
    case 0 => (match n & 3 case 0 => 0x7 case 1 => 0xF case 2 => 0xC case _ => 0xB)
    case 1 => (match n & 3 case 0 => 0xD case 1 => 0x2 case 2 => 0x4 case _ => 0xE)
    case 2 => (match n & 3 case 0 => 0x9 case 1 => 0x6 case 2 => 0x1 case _ => 0x0)
    case _ => (match n & 3 case 0 => 0x8 case 1 => 0x5 case 2 => 0x3 case _ => 0xA)
  }

  function Q0T3(n: nibble): nibble {
    match n >> 2
    case 0 => (match n & 3 case 0 => 0xD case 1 => 0x7 case 2 => 0xF case _ => 0x4)
    case 1 => (match n & 3 case 0 => 0x1 case 1 => 0x2 case 2 => 0x6 case _ => 0xE)
    case 2 => (match n & 3 case 0 => 0x9 case 1 => 0xB case 2 => 0x3 case _ => 0x0)
    case _ => (match n & 3 case 0 => 0x8 case 1 => 0x5 case 2 => 0xC case _ => 0xA)
  }

  function Q0T3Inv(n: nibble): nibble {
    match n >> 2
    case 0 => (match n & 3 case 0 => 0xB case 1 => 0x4 case 2 => 0x5 case _ => 0xA)
    case 1 => (match n & 3 case 0 => 0x3 case 1 => 0xD case 2 => 0x6 case _ => 0x1)
    case 2 => (match n & 3 case 0 => 0xC case 1 => 0x8 case 2 => 0xF case _ => 0x9)
    case _ => (match n & 3 case 0 => 0xE case 1 => 0x0 case 2 => 0x7 case _ => 0x2)
  }

  function Q1T0(n: nibble): nibble {
    match n >> 2
    case 0 => (match n & 3 case 0 => 0x2 case 1 => 0x8 case 2 => 0xB case _ => 0xD)
    case 1 => (match n & 3 case 0 => 0xF case 1 => 0x7 case 2 => 0x6 case _ => 0xE)
    case 2 => (match n & 3 case 0 => 0x3 case 1 => 0x1 case 2 => 0x9 case _ => 0x4)
    case _ => (match n & 3 case 0 => 0x0 case 1 => 0xA case 2 => 0xC case _ => 0x5)
  }

  function Q1T0Inv(n: nibble): nibble {
    match n >> 2
    case 0 => (match n & 3 case 0 => 0xC case 1 => 0x9 case 2 => 0x0 case _ => 0x8)
    case 1 => (match n & 3 case 0 => 0xB case 1 => 0xF case 2 => 0x6 case _ => 0x5)
    case 2 => (match n & 3 case 0 => 0x1 case 1 => 0xA case 2 => 0xD case _ => 0x2)
    case _ => (match n & 3 case 0 => 0xE case 1 => 0x3 case 2 => 0x7 case _ => 0x4)
  }

  function Q1T1(n: nibble): nibble {
    match n >> 2
    case 0 => (match n & 3 case 0 => 0x1 case 1 => 0xE case 2 => 0x2 case _ => 0xB)
    case 1 => (match n & 3 case 0 => 0x4 case 1 => 0xC case 2 => 0x3 case _ => 0x7)
    case 2 => (match n & 3 case 0 => 0x6 case 1 => 0xD case 2 => 0xA case _ => 0x5)
    case _ => (match n & 3 case 0 => 0xF case 1 => 0x9 case 2 => 0x0 case _ => 0x8)
  }

  function Q1T1Inv(n: nibble): nibble {
    match n >> 2
    case 0 => (match n & 3 case 0 => 0xE case 1 => 0x0 case 2 => 0x2 case _ => 0x6)
    case 1 => (match n & 3 case 0 => 0x4 case 1 => 0xB case 2 => 0x8 case _ => 0x7)
    case 2 => (match n & 3 case 0 => 0xF case 1 => 0xD case 2 => 0xA case _ => 0x3)
    case _ => (match n & 3 case 0 => 0x5 case 1 => 0x9 case 2 => 0x1 case _ => 0xC)
  }

  function Q1T2(n: nibble): nibble {
    match n >> 2
    case 0 => (match n & 3 case 0 => 0x4 case 1 => 0xC case 2 => 0x7 case _ => 0x5)
    case 1 => (match n & 3 case 0 => 0x1 case 1 => 0x6 case 2 => 0x9 case _ => 0xA)
    case 2 => (match n & 3 case 0 => 0x0 case 1 => 0xE case 2 => 0xD case _ => 0x8)
    case _ => (match n & 3 case 0 => 0x2 case 1 => 0xB case 2 => 0x3 case _ => 0xF)
  }

  function Q1T2Inv(n: nibble): nibble {
    match n >> 2
    case 0 => (match n & 3 case 0 => 0x8 case 1 => 0x4 case 2 => 0xC case _ => 0xE)
    case 1 => (match n & 3 case 0 => 0x0 case 1 => 0x3 case 2 => 0x5 case _ => 0x2)
    case 2 => (match n & 3 case 0 => 0xB case 1 => 0x6 case 2 => 0x7 case _ => 0xD)
    case _ => (match n & 3 case 0 => 0x1 case 1 => 0xA case 2 => 0x9 case _ => 0xF)
  }

  function Q1T3(n: nibble): nibble {
    match n >> 2
    case 0 => (match n & 3 case 0 => 0xB case 1 => 0x9 case 2 => 0x5 case _ => 0x1)
    case 1 => (match n & 3 case 0 => 0xC case 1 => 0x3 case 2 => 0xD case _ => 0xE)
    case 2 => (match n & 3 case 0 => 0x6 case 1 => 0x4 case 2 => 0x7 case _ => 0xF)
    case _ => (match n & 3 case 0 => 0x2 case 1 => 0x0 case 2 => 0x8 case _ => 0xA)
  }

  function Q1T3Inv(n: nibble): nibble {
    match n >> 2
    case 0 => (match n & 3 case 0 => 0xD case 1 => 0x3 case 2 => 0xC case _ => 0x5)
    case 1 => (match n & 3 case 0 => 0x9 case 1 => 0x2 case 2 => 0x8 case _ => 0xA)
    case 2 => (match n & 3 case 0 => 0xE case 1 => 0x1 case 2 => 0xF case _ => 0x0)
    case _ => (match n & 3 case 0 => 0x4 case 1 => 0x6 case 2 => 0x7 case _ => 0xB)
  }

  function Q0(x: byte): byte {
    var a, b := High(x), Low(x);
    var c, d := Q0T0(MixA(a, b)), Q0T1(MixB(a, b));
    Join(Q0T3(MixB(c, d)), Q0T2(MixA(c, d)))
  }

  function Q0Inv(y: byte): byte {
    var e, f := Q0T2Inv(Low(y)), Q0T3Inv(High(y));
    var c, d := Q0T0Inv(UnmixA(e, f)), Q0T1Inv(UnmixB(e, f));
    Join(UnmixA(c, d), UnmixB(c, d))
  }

  function Q1(x: byte): byte {
    var a, b := High(x), Low(x);
    var c, d := Q1T0(MixA(a, b)), Q1T1(MixB(a, b));
    Join(Q1T3(MixB(c, d)), Q1T2(MixA(c, d)))
  }

  function Q1Inv(y: byte): byte {
    var e, f := Q1T2Inv(Low(y)), Q1T3Inv(High(y));
    var c, d := Q1T0Inv(UnmixA(e, f)), Q1T1Inv(UnmixB(e, f));
    Join(UnmixA(c, d), UnmixB(c, d))
  }

  lemma MixingInverts(a: nibble, b: nibble)
    ensures UnmixA(MixA(a, b), MixB(a, b)) == a && UnmixB(MixA(a, b), MixB(a, b)) == b
    ensures MixA(UnmixA(a, b), UnmixB(a, b)) == a && MixB(UnmixA(a, b), UnmixB(a, b)) == b
  {
  }

  lemma JoiningInverts(x: byte, a: nibble, b: nibble)
    ensures Join(High(x), Low(x)) == x && High(Join(a, b)) == a && Low(Join(a, b)) == b
  {
  }

  lemma Q0TablesInvert(n: nibble)
    ensures Q0T0Inv(Q0T0(n)) == n && Q0T0(Q0T0Inv(n)) == n && Q0T1Inv(Q0T1(n)) == n && Q0T1(Q0T1Inv(n)) == n
    ensures Q0T2Inv(Q0T2(n)) == n && Q0T2(Q0T2Inv(n)) == n && Q0T3Inv(Q0T3(n)) == n && Q0T3(Q0T3Inv(n)) == n
  {
    match n
    case 0 => case 1 => case 2 => case 3 => case 4 => case 5 => case 6 => case 7 =>
    case 8 => case 9 => case 10 => case 11 => case 12 => case 13 => case 14 => case _ =>
  }

  lemma Q0Inverts(x: byte)
    ensures Q0Inv(Q0(x)) == x
  {
    var a, b := High(x), Low(x);
    var c, d := Q0T0(MixA(a, b)), Q0T1(MixB(a, b));
    JoiningInverts(x, Q0T3(MixB(c, d)), Q0T2(MixA(c, d)));
    Q0TablesInvert(MixA(c, d));
    Q0TablesInvert(MixB(c, d));
    Q0TablesInvert(MixA(a, b));
    Q0TablesInvert(MixB(a, b));
    MixingInverts(c, d);
    MixingInverts(a, b);
  }

  lemma Q0InvInverts(y: byte)
    ensures Q0(Q0Inv(y)) == y
  {
    var e, f := Q0T2Inv(Low(y)), Q0T3Inv(High(y));
    var c, d := Q0T0Inv(UnmixA(e, f)), Q0T1Inv(UnmixB(e, f));
    JoiningInverts(y, UnmixA(c, d), UnmixB(c, d));
    MixingInverts(c, d);
    MixingInverts(e, f);
    Q0TablesInvert(UnmixA(e, f));
    Q0TablesInvert(UnmixB(e, f));
    Q0TablesInvert(Low(y));
    Q0TablesInvert(High(y));
  }

  lemma Q1TablesInvert(n: nibble)
    ensures Q1T0Inv(Q1T0(n)) == n && Q1T0(Q1T0Inv(n)) == n && Q1T1Inv(Q1T1(n)) == n && Q1T1(Q1T1Inv(n)) == n
    ensures Q1T2Inv(Q1T2(n)) == n && Q1T2(Q1T2Inv(n)) == n && Q1T3Inv(Q1T3(n)) == n && Q1T3(Q1T3Inv(n)) == n
  {
    match n
    case 0 => case 1 => case 2 => case 3 => case 4 => case 5 => case 6 => case 7 =>
    case 8 => case 9 => case 10 => case 11 => case 12 => case 13 => case 14 => case _ =>
  }

  lemma Q1Inverts(x: byte)
    ensures Q1Inv(Q1(x)) == x
  {
    var a, b := High(x), Low(x);
    var c, d := Q1T0(MixA(a, b)), Q1T1(MixB(a, b));
    JoiningInverts(x, Q1T3(MixB(c, d)), Q1T2(MixA(c, d)));
    Q1TablesInvert(MixA(c, d));
    Q1TablesInvert(MixB(c, d));
    Q1TablesInvert(MixA(a, b));
    Q1TablesInvert(MixB(a, b));
    MixingInverts(c, d);
    MixingInverts(a, b);
  }

  lemma Q1InvInverts(y: byte)
    ensures Q1(Q1Inv(y)) == y
  {
    var e, f := Q1T2Inv(Low(y)), Q1T3Inv(High(y));
    var c, d := Q1T0Inv(UnmixA(e, f)), Q1T1Inv(UnmixB(e, f));
    JoiningInverts(y, UnmixA(c, d), UnmixB(c, d));
    MixingInverts(c, d);
    MixingInverts(e, f);
    Q1TablesInvert(UnmixA(e, f));
    Q1TablesInvert(UnmixB(e, f));
    Q1TablesInvert(Low(y));
    Q1TablesInvert(High(y));
  }
}
