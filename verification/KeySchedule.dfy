/** The key schedule of sections 4.3 to 4.3.4 of the Twofish paper, and the look-up form of g. */
module KeySchedule {
  import opened Words
  import opened HFunction
  import opened ReedSolomon
  import opened Cipher

  type UserKey = k: seq<byte> | |k| == 32 witness seq(32, _ => 0)
  type SBoxTable = s: seq<word> | |s| == 1024 witness seq(1024, _ => 0)

  function EvenWord(key: UserKey, i: nat): word
    requires i < 4
  {
    Load(key, 8 * i)
  }

  function OddWord(key: UserKey, i: nat): word
    requires i < 4
  {
    Load(key, 8 * i + 4)
  }

  function EvenWords(key: UserKey): seq<word> { seq(4, i requires 0 <= i < 4 => EvenWord(key, i)) }
  function OddWords(key: UserKey): seq<word> { seq(4, i requires 0 <= i < 4 => OddWord(key, i)) }

  /** The S-box key words: the encoded pairs of key words, in reverse order. */
  function SWord(key: UserKey, i: nat): word
    requires i < 4
  {
    RsEncode(EvenWord(key, 3 - i), OddWord(key, 3 - i))
  }

  function SWords(key: UserKey): seq<word> { seq(4, i requires 0 <= i < 4 => SWord(key, i)) }

  /** The even and odd key words hold the key's bytes in turn, four by four. */
  lemma KeyWordsHoldKey(key: UserKey, i: nat)
    requires i < 4
    ensures Store(EvenWords(key)[i]) == key[8 * i..8 * i + 4]
    ensures Store(OddWords(key)[i]) == key[8 * i + 4..8 * i + 8]
  {
    StoreLoad(key, 8 * i);
    StoreLoad(key, 8 * i + 4);
  }

  /** The i-th eight bytes of the key, as a polynomial, leave the i-th S-box word from the end as their remainder. */
  lemma SWordsAreRemainders(key: UserKey, i: nat) returns (q: Poly)
    requires i < 4
    ensures Divides([0, 0, 0, 0] + key[8 * i..8 * i + 8], q, SWords(key)[3 - i])
  {
    q := RsEncodeIsRemainder(EvenWord(key, i), OddWord(key, i));
    StoreLoad(key, 8 * i);
    StoreLoad(key, 8 * i + 4);
    Behind(EvenWord(key, i), OddWord(key, i), key[8 * i..8 * i + 4], key[8 * i + 4..8 * i + 8]);
    assert key[8 * i..8 * i + 4] + key[8 * i + 4..8 * i + 8] == key[8 * i..8 * i + 8];
    assert SWords(key)[3 - i] == SWord(key, 3 - i);
  }

  lemma Behind(even: word, odd: word, p: seq<byte>, r: seq<byte>)
    requires Store(even) == p && Store(odd) == r
    ensures [0, 0, 0, 0] + WordPoly(even) + WordPoly(odd) == [0, 0, 0, 0] + (p + r)
  {
  }

  lemma KeyWordsAre(key: UserKey, me: seq<word>, mo: seq<word>, s: seq<word>)
    requires |me| == |mo| == |s| == 4
    requires forall i | 0 <= i < 4 :: me[i] == EvenWord(key, i) && mo[i] == OddWord(key, i) && s[i] == SWord(key, i)
    ensures me == EvenWords(key) && mo == OddWords(key) && s == SWords(key)
  {
  }

  /** n times 0x01010101. */
  function Rho(n: nat): word { if n == 0 then 0 else Plus(Rho(n - 1), 0x01010101) }

  function SubkeyA(t: Boxes, key: UserKey, i: nat): word { H(t, Rho(2 * i), EvenWords(key)) }
  function SubkeyB(t: Boxes, key: UserKey, i: nat): word { Rol8(H(t, Rho(2 * i + 1), OddWords(key))) }

  function EvenSubkey(a: word, b: word): word { Plus(a, b) }
  function DoubleSum(a: word, b: word): word { Plus(Plus(a, b), b) }
  function OddSubkey(a: word, b: word): word { Rol9(DoubleSum(a, b)) }

  /** The expanded subkeys: A + B, and A + 2B rotated left by nine. */
  function Subkey(t: Boxes, key: UserKey, j: nat): word {
    if j % 2 == 0 then EvenSubkey(SubkeyA(t, key, j / 2), SubkeyB(t, key, j / 2))
    else OddSubkey(SubkeyA(t, key, j / 2), SubkeyB(t, key, j / 2))
  }

  function SubkeysOf(t: Boxes, key: UserKey): Subkeys { seq(40, j requires 0 <= j < 40 => Subkey(t, key, j)) }

  /** A pair of subkeys determines the two values it was mixed from. */
  lemma SubkeyPairDetermines(a: word, b: word)
    ensures var even, odd := EvenSubkey(a, b), OddSubkey(a, b);
      Minus(Ror9(odd), even) == b && Minus(even, Minus(Ror9(odd), even)) == a
  {
    RotationsInvert(DoubleSum(a, b));
    PlusMinus(a, b);
    PlusMinus(Plus(a, b), b);
  }

  lemma SubkeyAt(t: Boxes, key: UserKey, i: nat)
    requires i < 20
    ensures Subkey(t, key, 2 * i) == EvenSubkey(SubkeyA(t, key, i), SubkeyB(t, key, i))
    ensures Subkey(t, key, 2 * i + 1) == OddSubkey(SubkeyA(t, key, i), SubkeyB(t, key, i))
  {
    assert (2 * i) / 2 == i && (2 * i) % 2 == 0 && (2 * i + 1) / 2 == i && (2 * i + 1) % 2 == 1;
  }

  /** A multiple of the word that the paper calls rho: four copies of the byte. */
  function Repeated(b: byte): word { (b as word) * 0x01010101 }

  lemma NextByte(n: nat)
    requires n < 40
    ensures (n + 1) as byte == (n as byte) + 1 && n as byte != 0xFF
  {
    var b := n as byte;
    assert b as int == n;
    assert (b + 1) as int == n + 1;
  }

  lemma RepeatedNext(b: byte)
    requires b != 0xFF
    ensures Repeated(b + 1) == Plus(Repeated(b), 0x01010101)
  {
  }

  /** Stepping by 0x01010101 from zero gives as many times 0x01010101. */
  lemma {:induction false} RhoIs(n: nat)
    requires n <= 40
    ensures Rho(n) == Repeated(n as byte)
  {
    if n > 0 {
      RhoIs(n - 1);
      NextByte(n - 1);
      RepeatedNext((n - 1) as byte);
    }
  }

  /** The values that a pair of subkeys is mixed from are h of repeated bytes. */
  lemma SubkeyArguments(t: Boxes, key: UserKey, i: nat)
    requires i < 20
    ensures SubkeyA(t, key, i) == H(t, Repeated((2 * i) as byte), EvenWords(key))
    ensures SubkeyB(t, key, i) == Rol8(H(t, Repeated((2 * i + 1) as byte), OddWords(key)))
  {
    RhoIs(2 * i);
    RhoIs(2 * i + 1);
  }

  /**
   * Section 4.3.4 of the Twofish paper: subkeys 2i and 2i + 1 are A + B and ROL(A + 2B, 9), where A is h of 2i rho
   * under the even key words, and B is h of (2i + 1) rho under the odd ones, rotated by eight.
   */
  lemma SubkeyPair(t: Boxes, key: UserKey, i: nat)
    requires i < 20
    ensures var a := H(t, Repeated((2 * i) as byte), EvenWords(key));
      var b := Rol8(H(t, Repeated((2 * i + 1) as byte), OddWords(key)));
      SubkeysOf(t, key)[2 * i] == Plus(a, b) && SubkeysOf(t, key)[2 * i + 1] == Rol9(PlusTwice(a, b))
  {
    SubkeyArguments(t, key, i);
    SubkeyAt(t, key, i);
    PlusTwiceIs(SubkeyA(t, key, i), SubkeyB(t, key, i));
  }

  /** The look-up form of g, with input byte selectors starting at byte r. */
  function Lookup(s: SBoxTable, x: word, r: nat): word {
    XorW(XorW(s[2 * (Bn(x, r) as int)], s[2 * (Bn(x, r + 1) as int) + 1]),
         XorW(s[0x200 + 2 * (Bn(x, r + 2) as int)], s[0x200 + 2 * (Bn(x, r + 3) as int) + 1]))
  }

  /** The interleaved layout of the four key-dependent S-boxes, up to entry n of each. */
  ghost predicate Holds(t: Boxes, l: seq<word>, s: SBoxTable, n: nat)
    requires |l| == 4 && n <= 256
  {
    forall i: nat | i < n :: HoldsAt(t, l, s, i)
  }

  ghost predicate HoldsAt(t: Boxes, l: seq<word>, s: SBoxTable, i: nat)
    requires |l| == 4 && i < 256
  {
    && s[2 * i] == t.mds0(Index0(t, i as byte, l))
    && s[2 * i + 1] == t.mds1(Index1(t, i as byte, l))
    && s[0x200 + 2 * i] == t.mds2(Index2(t, i as byte, l))
    && s[0x200 + 2 * i + 1] == t.mds3(Index3(t, i as byte, l))
  }

  lemma ByteIndex(b: byte)
    ensures 0 <= b as int < 256 && (b as int) as byte == b
  {
  }

  /** Starting at byte three reads the rotated word. */
  lemma LookupRotated(s: SBoxTable, x: word)
    ensures Lookup(s, x, 3) == Lookup(s, Rol8(x), 0)
  {
    BytesOfRol8(x);
  }

  lemma EntryAt(t: Boxes, l: seq<word>, s: SBoxTable, b: byte)
    requires |l| == 4 && Holds(t, l, s, 256)
    ensures s[2 * (b as int)] == t.mds0(Index0(t, b, l)) && s[2 * (b as int) + 1] == t.mds1(Index1(t, b, l))
    ensures s[0x200 + 2 * (b as int)] == t.mds2(Index2(t, b, l))
    ensures s[0x200 + 2 * (b as int) + 1] == t.mds3(Index3(t, b, l))
  {
    ByteIndex(b);
    assert HoldsAt(t, l, s, b as int);
  }

  lemma PlainLookup(t: Boxes, l: seq<word>, s: SBoxTable, x: word)
    requires |l| == 4 && Holds(t, l, s, 256)
    ensures Lookup(s, x, 0) == H(t, x, l)
  {
    EntryAt(t, l, s, B0(x));
    EntryAt(t, l, s, B1(x));
    EntryAt(t, l, s, B2(x));
    EntryAt(t, l, s, B3(x));
  }

  /** The table agrees with the function it replaces, plain and rotated. */
  lemma LookupIsH(t: Boxes, l: seq<word>, s: SBoxTable, x: word)
    requires |l| == 4 && Holds(t, l, s, 256)
    ensures Lookup(s, x, 0) == H(t, x, l)
    ensures Lookup(s, x, 3) == H(t, Rol8(x), l)
  {
    PlainLookup(t, l, s, x);
    PlainLookup(t, l, s, Rol8(x));
    LookupRotated(s, x);
  }

  function KeyedG(t: Boxes, key: UserKey): word -> word { x => H(t, x, SWords(key)) }
  function TableG(s: SBoxTable): word -> word { x => Lookup(s, x, 0) }

  /** Twofish with a 256-bit key, as the paper defines it. */
  function TwofishEncrypt(t: Boxes, key: UserKey, p: Block): Block { Encipher(KeyedG(t, key), SubkeysOf(t, key), p) }
  function TwofishDecrypt(t: Boxes, key: UserKey, c: Block): Block { Decipher(KeyedG(t, key), SubkeysOf(t, key), c) }
}
