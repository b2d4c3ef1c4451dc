/**
 * The sixteen rounds of section 4.1 of the Twofish paper, for any word function g and any forty subkeys.
 */
module Cipher {
  import opened Words

  type Block = p: seq<byte> | |p| == 16 witness seq(16, _ => 0)
  type Subkeys = k: seq<word> | |k| == 40 witness seq(40, _ => 0)

  datatype Quad = Quad(a: word, b: word, c: word, d: word)

  function Load(p: seq<byte>, i: nat): word
    requires i + 4 <= |p|
  {
    Pack(p[i], p[i + 1], p[i + 2], p[i + 3])
  }

  function Store(w: word): seq<byte> { [B0(w), B1(w), B2(w), B3(w)] }

  function LoadBlock(p: Block): Quad { Quad(Load(p, 0), Load(p, 4), Load(p, 8), Load(p, 12)) }
  function StoreBlock(q: Quad): Block { Store(q.a) + Store(q.b) + Store(q.c) + Store(q.d) }

  /** Adds four subkeys, from number i on. */
  function Whiten(q: Quad, k: Subkeys, i: nat): Quad
    requires i + 4 <= 40
  {
    Quad(XorW(q.a, k[i]), XorW(q.b, k[i + 1]), XorW(q.c, k[i + 2]), XorW(q.d, k[i + 3]))
  }

  // The two outputs of the pseudo-Hadamard transform, each with a subkey added.
  function Pht0(t0: word, t1: word, key: word): word { Plus(Plus(t0, t1), key) }
  function Pht1(t0: word, t1: word, key: word): word { Plus(PlusTwice(t0, t1), key) }

  // The round function F of round r, on the two left words.

  function F0(g: word -> word, k: Subkeys, r: nat, a: word, b: word): word
    requires r < 16
  {
    Pht0(g(a), g(Rol8(b)), k[2 * r + 8])
  }

  function F1(g: word -> word, k: Subkeys, r: nat, a: word, b: word): word
    requires r < 16
  {
    Pht1(g(a), g(Rol8(b)), k[2 * r + 9])
  }

  /** One round with the values of the round function given. */
  function Mix(q: Quad, f0: word, f1: word): Quad {
    Quad(Ror1(XorW(q.c, f0)), XorW(Rol1(q.d), f1), q.a, q.b)
  }

  function Unmix(q: Quad, f0: word, f1: word): Quad {
    Quad(q.c, q.d, XorW(Rol1(q.a), f0), Ror1(XorW(q.b, f1)))
  }

  function Round(g: word -> word, k: Subkeys, r: nat, q: Quad): Quad
    requires r < 16
  {
    Mix(q, F0(g, k, r, q.a, q.b), F1(g, k, r, q.a, q.b))
  }

  function Rounds(g: word -> word, k: Subkeys, n: nat, q: Quad): Quad
    requires n <= 16
  {
    if n == 0 then q else Round(g, k, n - 1, Rounds(g, k, n - 1, q))
  }

  /** The last swap undone: the halves exchanged. */
  function Swap(q: Quad): Quad { Quad(q.c, q.d, q.a, q.b) }

  function Encipher(g: word -> word, k: Subkeys, p: Block): Block {
    StoreBlock(Whiten(Swap(Rounds(g, k, 16, Whiten(LoadBlock(p), k, 0))), k, 4))
  }

  // The rounds backwards.

  function Unround(g: word -> word, k: Subkeys, r: nat, q: Quad): Quad
    requires r < 16
  {
    Unmix(q, F0(g, k, r, q.c, q.d), F1(g, k, r, q.c, q.d))
  }

  /** Undoes the n rounds 15, 14, ... */
  function Unrounds(g: word -> word, k: Subkeys, n: nat, q: Quad): Quad
    requires n <= 16
  {
    if n == 0 then q else Unround(g, k, 16 - n, Unrounds(g, k, n - 1, q))
  }

  function Decipher(g: word -> word, k: Subkeys, c: Block): Block {
    StoreBlock(Whiten(Unrounds(g, k, 16, Swap(Whiten(LoadBlock(c), k, 4))), k, 0))
  }

  /** The pseudo-Hadamard transform determines its inputs: their sum and the sum with the second doubled. */
  lemma PhtDetermines(t0: word, t1: word, j: word, k: word)
    ensures var s0, s1 := Minus(Pht0(t0, t1, j), j), Minus(Pht1(t0, t1, k), k);
      Minus(s1, s0) == t1 && Minus(s0, Minus(s1, s0)) == t0
  {
    PlusMinus(Plus(t0, t1), j);
    PlusMinus(PlusTwice(t0, t1), k);
    PlusTwiceIs(t0, t1);
    PlusMinus(Plus(t0, t1), t1);
    PlusMinus(t0, t1);
  }

  /**
   * A round with its operators written out (section 4.1 of the Twofish paper): the right words are added to the
   * transformed left words, the first before its rotation to the right by one bit, the second after its rotation to
   * the left, and the halves change sides.
   */
  lemma RoundIs(g: word -> word, k: Subkeys, r: nat, q: Quad)
    requires r < 16
    ensures var t0, t1 := g(q.a), g(Rol8(q.b));
      var f0, f1 := Plus(Plus(t0, t1), k[2 * r + 8]), Plus(PlusTwice(t0, t1), k[2 * r + 9]);
      Round(g, k, r, q) == Quad(Ror1(XorW(q.c, f0)), XorW(Rol1(q.d), f1), q.a, q.b)
  {
  }

  /** The rounds are taken in order, the last one last. */
  lemma {:induction false} RoundsFromFirst(g: word -> word, k: Subkeys, n: nat, states: seq<Quad>)
    requires n <= 16 && |states| == n + 1
    requires forall r | 0 <= r < n :: states[r + 1] == Round(g, k, r, states[r])
    ensures Rounds(g, k, n, states[0]) == states[n]
  {
    if n > 0 {
      RoundsFromFirst(g, k, n - 1, states[..n]);
    }
  }

  lemma StoreLoad(p: seq<byte>, i: nat)
    requires i + 4 <= |p|
    ensures Store(Load(p, i)) == p[i..i + 4]
  {
    BytesOfPack(p[i], p[i + 1], p[i + 2], p[i + 3]);
  }

  /** The word at position i of a block that starts with four stored words. */
  lemma StoredWord(p: Block, i: nat, w: word)
    requires i + 4 <= 16 && p[i..i + 4] == Store(w)
    ensures Load(p, i) == w
  {
    PackBytes(w);
    assert p[i] == Store(w)[0] && p[i + 1] == Store(w)[1] && p[i + 2] == Store(w)[2] && p[i + 3] == Store(w)[3];
  }

  lemma FourSlices(s0: seq<byte>, s1: seq<byte>, s2: seq<byte>, s3: seq<byte>)
    requires |s0| == |s1| == |s2| == |s3| == 4
    ensures var p := s0 + s1 + s2 + s3;
      p[0..4] == s0 && p[4..8] == s1 && p[8..12] == s2 && p[12..16] == s3
  {
  }

  lemma LoadStored(q: Quad)
    ensures LoadBlock(StoreBlock(q)) == q
  {
    var p := StoreBlock(q);
    FourSlices(Store(q.a), Store(q.b), Store(q.c), Store(q.d));
    StoredWord(p, 0, q.a);
    StoredWord(p, 4, q.b);
    StoredWord(p, 8, q.c);
    StoredWord(p, 12, q.d);
  }

  lemma FourParts(p: Block, s0: seq<byte>, s1: seq<byte>, s2: seq<byte>, s3: seq<byte>)
    requires s0 == p[0..4] && s1 == p[4..8] && s2 == p[8..12] && s3 == p[12..16]
    ensures s0 + s1 + s2 + s3 == p
  {
  }

  lemma StoreLoaded(p: Block)
    ensures StoreBlock(LoadBlock(p)) == p
  {
    StoreLoad(p, 0);
    StoreLoad(p, 4);
    StoreLoad(p, 8);
    StoreLoad(p, 12);
    FourParts(p, Store(Load(p, 0)), Store(Load(p, 4)), Store(Load(p, 8)), Store(Load(p, 12)));
  }

  lemma AddTwice(x: word, k: word)
    ensures XorW(XorW(x, k), k) == x
  {
  }

  lemma WhitenTwice(q: Quad, k: Subkeys, i: nat)
    requires i + 4 <= 40
    ensures Whiten(Whiten(q, k, i), k, i) == q
  {
    AddTwice(q.a, k[i]);
    AddTwice(q.b, k[i + 1]);
    AddTwice(q.c, k[i + 2]);
    AddTwice(q.d, k[i + 3]);
  }

  /** Rotating after one addition undoes rotating before the other. */
  lemma HalfStepInverts(x: word, f: word)
    ensures XorW(Rol1(Ror1(XorW(x, f))), f) == x && Ror1(XorW(XorW(Rol1(x), f), f)) == x
  {
    RotationsInvert(XorW(x, f));
    RotationsInvert(x);
    AddTwice(x, f);
    AddTwice(Rol1(x), f);
  }

  lemma MixInverts(q: Quad, f0: word, f1: word)
    ensures Unmix(Mix(q, f0, f1), f0, f1) == q && Mix(Unmix(q, f0, f1), f0, f1) == q
  {
    HalfStepInverts(q.c, f0);
    HalfStepInverts(q.d, f1);
    HalfStepInverts(q.b, f1);
    HalfStepInverts(q.a, f0);
  }

  lemma RoundInverts(g: word -> word, k: Subkeys, r: nat, q: Quad)
    requires r < 16
    ensures Unround(g, k, r, Round(g, k, r, q)) == q
    ensures Round(g, k, r, Unround(g, k, r, q)) == q
  {
    MixInverts(q, F0(g, k, r, q.a, q.b), F1(g, k, r, q.a, q.b));
    MixInverts(q, F0(g, k, r, q.c, q.d), F1(g, k, r, q.c, q.d));
  }

  /** Undoing the last n rounds leaves the state before them. */
  lemma {:induction false} UnroundsAfterRounds(g: word -> word, k: Subkeys, n: nat, q: Quad)
    requires n <= 16
    ensures Unrounds(g, k, n, Rounds(g, k, 16, q)) == Rounds(g, k, 16 - n, q)
  {
    if n > 0 {
      UnroundsAfterRounds(g, k, n - 1, q);
      RoundInverts(g, k, 16 - n, Rounds(g, k, 16 - n, q));
    }
  }

  lemma {:induction false} RoundsAfterUnrounds(g: word -> word, k: Subkeys, n: nat, q: Quad)
    requires n <= 16
    ensures Rounds(g, k, n, Unrounds(g, k, 16, q)) == Unrounds(g, k, 16 - n, q)
  {
    if n > 0 {
      RoundsAfterUnrounds(g, k, n - 1, q);
      RoundInverts(g, k, n - 1, Unrounds(g, k, 16 - n, q));
    }
  }

  /** Deciphering undoes enciphering, whatever g and the subkeys are. */
  lemma DecipherEncipher(g: word -> word, k: Subkeys, p: Block)
    ensures Decipher(g, k, Encipher(g, k, p)) == p
  {
    var q := Whiten(LoadBlock(p), k, 0);
    var r := Rounds(g, k, 16, q);
    LoadStored(Whiten(Swap(r), k, 4));
    WhitenTwice(Swap(r), k, 4);
    UnroundsAfterRounds(g, k, 16, q);
    WhitenTwice(LoadBlock(p), k, 0);
    StoreLoaded(p);
  }

  /** Enciphering undoes deciphering. */
  lemma EncipherDecipher(g: word -> word, k: Subkeys, c: Block)
    ensures Encipher(g, k, Decipher(g, k, c)) == c
  {
    var q := Swap(Whiten(LoadBlock(c), k, 4));
    var r := Unrounds(g, k, 16, q);
    LoadStored(Whiten(r, k, 0));
    WhitenTwice(r, k, 0);
    RoundsAfterUnrounds(g, k, 16, q);
    WhitenTwice(LoadBlock(c), k, 4);
    StoreLoaded(c);
  }

  /**
   * The ends of the cipher written out: subkeys 0 to 3 are added to the four words of the block, subkeys 4 to 7 to the
   * words after the sixteen rounds, of which the right half comes first.
   */
  lemma EncipherIs(g: word -> word, k: Subkeys, p: Block, q: Quad)
    requires q == Rounds(g, k, 16, Quad(XorW(Load(p, 0), k[0]), XorW(Load(p, 4), k[1]),
                                        XorW(Load(p, 8), k[2]), XorW(Load(p, 12), k[3])))
    ensures var c := Encipher(g, k, p);
      Load(c, 0) == XorW(q.c, k[4]) && Load(c, 4) == XorW(q.d, k[5])
      && Load(c, 8) == XorW(q.a, k[6]) && Load(c, 12) == XorW(q.b, k[7])
  {
    LoadStored(Whiten(Swap(q), k, 4));
  }

  /** The cipher depends on g only through its values. */
  lemma {:induction false} RoundsAgree(g: word -> word, h: word -> word, k: Subkeys, n: nat, q: Quad)
    requires n <= 16 && forall x :: g(x) == h(x)
    ensures Rounds(g, k, n, q) == Rounds(h, k, n, q)
  {
    if n > 0 {
      RoundsAgree(g, h, k, n - 1, q);
    }
  }

  lemma {:induction false} UnroundsAgree(g: word -> word, h: word -> word, k: Subkeys, n: nat, q: Quad)
    requires n <= 16 && forall x :: g(x) == h(x)
    ensures Unrounds(g, k, n, q) == Unrounds(h, k, n, q)
  {
    if n > 0 {
      UnroundsAgree(g, h, k, n - 1, q);
    }
  }

  lemma CipherAgrees(g: word -> word, h: word -> word, k: Subkeys, p: Block)
    requires forall x :: g(x) == h(x)
    ensures Encipher(g, k, p) == Encipher(h, k, p) && Decipher(g, k, p) == Decipher(h, k, p)
  {
    RoundsAgree(g, h, k, 16, Whiten(LoadBlock(p), k, 0));
    UnroundsAgree(g, h, k, 16, Swap(Whiten(LoadBlock(p), k, 4)));
  }
}
