/** The cipher object: a session key computed once, then blocks enciphered and deciphered in place of four words. */
module Twofish {
  import opened Words
  import opened HFunction
  import opened ReedSolomon
  import opened Cipher
  import opened KeySchedule

  class Twofish256 {
    const t: Boxes
    var sBox: array<word>
    var subkeys: array<word>
    ghost var userKey: seq<byte>

    ghost predicate Valid()
      reads this, sBox, subkeys
    {
      && |userKey| == 32 && sBox.Length == 1024 && subkeys.Length == 40
      && Holds(t, SWords(userKey), sBox[..], 256)
      && subkeys[..] == SubkeysOf(t, userKey)
    }

    constructor (t: Boxes, userKey: seq<byte>)
      requires |userKey| == 32
      ensures Valid() && fresh(sBox) && fresh(subkeys)
      ensures this.t == t && this.userKey == userKey
    {
      this.t := t;
      this.sBox := new word[1024];
      this.subkeys := new word[40];
      this.userKey := userKey;
      new;
      MakeSessionKey(userKey);
    }

    /** The subkeys and the S-box table of the user key. */
    method MakeSessionKey(key: UserKey)
      requires sBox.Length == 1024 && subkeys.Length == 40 && sBox != subkeys
      modifies sBox, subkeys
      ensures Holds(t, SWords(key), sBox[..], 256)
      ensures subkeys[..] == SubkeysOf(t, key)
    {
      var me, mo, s := KeyWords(key);
      MakeSubkeys(key, me[..], mo[..], (j: nat) => Subkey(t, key, j));
      MakeSBox(key, s[..]);
    }

    /** The even and odd key words and the encoded S-box words, in reverse order. */
    static method KeyWords(key: UserKey) returns (me: array<word>, mo: array<word>, s: array<word>)
      ensures fresh(me) && fresh(mo) && fresh(s)
      ensures me[..] == EvenWords(key) && mo[..] == OddWords(key) && s[..] == SWords(key)
    {
      me, mo, s := new word[4], new word[4], new word[4];
      var i, j, offset := 0, 3, 0;
      while i < 4
        invariant 0 <= i <= 4 && j == 3 - i && offset == 8 * i
        invariant forall m | 0 <= m < i :: me[m] == EvenWord(key, m)
        invariant forall m | 0 <= m < i :: mo[m] == OddWord(key, m)
        invariant forall m | j < m < 4 :: s[m] == SWord(key, m)
      {
        var even, odd, encoded := KeyWordAt(key, i, offset);
        me[i] := even;
        mo[i] := odd;
        s[j] := encoded;
        offset := offset + 8;
        i, j := i + 1, j - 1;
      }
      KeyWordsAre(key, me[..], mo[..], s[..]);
    }

    static method KeyWordAt(key: UserKey, ghost i: nat, offset: nat) returns (even: word, odd: word, s: word)
      requires i < 4 && offset == 8 * i
      ensures even == EvenWord(key, i) && odd == OddWord(key, i) && s == SWord(key, 3 - i)
    {
      even := Load(key, offset);
      odd := Load(key, offset + 4);
      s := RsMdsEncode(even, odd);
    }

    method MakeSubkeys(ghost key: UserKey, me: seq<word>, mo: seq<word>, ghost want: nat -> word)
      requires subkeys.Length == 40 && me == EvenWords(key) && mo == OddWords(key)
      requires forall j {:trigger Subkey(t, key, j)} :: want(j) == Subkey(t, key, j)
      modifies subkeys
      ensures forall j | 0 <= j < 40 :: subkeys[j] == want(j)
    {
      var i, q: word := 0, 0;
      while i < 20
        invariant 0 <= i <= 20 && q == Rho(2 * i)
        invariant forall j | 0 <= j < 2 * i :: subkeys[j] == want(j)
      {
        subkeys[2 * i], subkeys[2 * i + 1] := SubkeysAt(t, key, i, q, me, mo, want);
        RhoSteps(2 * i);
        i, q := i + 1, Plus(q, 0x02020202);
      }
    }

    static method SubkeysAt(t: Boxes, ghost key: UserKey, ghost i: nat, q: word, me: seq<word>, mo: seq<word>,
                            ghost want: nat -> word)
      returns (even: word, odd: word)
      requires i < 20 && q == Rho(2 * i) && me == EvenWords(key) && mo == OddWords(key)
      requires forall j {:trigger Subkey(t, key, j)} :: want(j) == Subkey(t, key, j)
      ensures even == want(2 * i) && odd == want(2 * i + 1)
    {
      RhoSteps(2 * i);
      var a := H(t, q, me);
      var b := H(t, Plus(q, 0x01010101), mo);
      b := Rol8(b);
      even, odd := PseudoHadamard(a, b);
      SubkeyAt(t, key, i);
    }

    static method PseudoHadamard(a: word, b: word) returns (even: word, odd: word)
      ensures even == EvenSubkey(a, b) && odd == OddSubkey(a, b)
    {
      even := Plus(a, b);
      odd := Rol9(Plus(even, b));
    }

    method MakeSBox(ghost key: UserKey, s: seq<word>)
      requires sBox.Length == 1024 && s == SWords(key)
      modifies sBox
      ensures Holds(t, SWords(key), sBox[..], 256)
    {
      var k0, k1, k2, k3 := s[0], s[1], s[2], s[3];
      assert [k0, k1, k2, k3] == s;
      FillSBox(s, k0, k1, k2, k3);
    }

    method FillSBox(ghost l: seq<word>, k0: word, k1: word, k2: word, k3: word)
      requires sBox.Length == 1024 && l == [k0, k1, k2, k3]
      modifies sBox
      ensures Holds(t, l, sBox[..], 256)
    {
      var i := 0;
      while i < 256
        invariant 0 <= i <= 256
        invariant Holds(t, l, sBox[..], i)
      {
        ghost var before := sBox[..];
        var m0, m1, m2, m3 := SBoxEntries(t, i as byte, k0, k1, k2, k3);
        sBox[2 * i] := m0;
        sBox[1 + 2 * i] := m1;
        sBox[0x200 + 2 * i] := m2;
        sBox[0x201 + 2 * i] := m3;
        HoldsStep(t, l, before, sBox[..], i);
        i := i + 1;
      }
    }

    /** The four table entries for one byte value. */
    static method SBoxEntries(t: Boxes, x: byte, k0: word, k1: word, k2: word, k3: word)
      returns (m0: word, m1: word, m2: word, m3: word)
      ensures m0 == t.mds0(Index0(t, x, [k0, k1, k2, k3])) && m1 == t.mds1(Index1(t, x, [k0, k1, k2, k3]))
      ensures m2 == t.mds2(Index2(t, x, [k0, k1, k2, k3])) && m3 == t.mds3(Index3(t, x, [k0, k1, k2, k3]))
    {
      var b0, b1, b2, b3 := x, x, x, x;
      b0 := XorB(t.p1(b0), B0(k3));
      b1 := XorB(t.p0(b1), B1(k3));
      b2 := XorB(t.p0(b2), B2(k3));
      b3 := XorB(t.p1(b3), B3(k3));
      b0 := XorB(t.p1(b0), B0(k2));
      b1 := XorB(t.p1(b1), B1(k2));
      b2 := XorB(t.p0(b2), B2(k2));
      b3 := XorB(t.p0(b3), B3(k2));
      m0 := t.mds0(XorB(t.p0(XorB(t.p0(b0), B0(k1))), B0(k0)));
      m1 := t.mds1(XorB(t.p0(XorB(t.p1(b1), B1(k1))), B1(k0)));
      m2 := t.mds2(XorB(t.p1(XorB(t.p0(b2), B2(k1))), B2(k0)));
      m3 := t.mds3(XorB(t.p1(XorB(t.p1(b3), B3(k1))), B3(k0)));
    }

    static lemma HoldsStep(t: Boxes, l: seq<word>, s: SBoxTable, s': SBoxTable, i: nat)
      requires |l| == 4 && i < 256 && Holds(t, l, s, i)
      requires forall k | 0 <= k < 1024 && k !in {2 * i, 2 * i + 1, 0x200 + 2 * i, 0x201 + 2 * i} :: s'[k] == s[k]
      requires s'[2 * i] == t.mds0(Index0(t, i as byte, l)) && s'[2 * i + 1] == t.mds1(Index1(t, i as byte, l))
      requires s'[0x200 + 2 * i] == t.mds2(Index2(t, i as byte, l))
      requires s'[0x201 + 2 * i] == t.mds3(Index3(t, i as byte, l))
      ensures Holds(t, l, s', i + 1)
    {
      assert HoldsAt(t, l, s', i);
      forall j: nat | j < i
        ensures HoldsAt(t, l, s', j)
      {
        assert HoldsAt(t, l, s, j);
      }
    }

    method Encrypt(p: Block) returns (c: Block)
      requires Valid()
      ensures c == TwofishEncrypt(t, userKey, p)
      ensures TwofishDecrypt(t, userKey, c) == p
    {
      c := EncryptBlock(sBox[..], subkeys[..], p);
      TableIsKeyed(TableG(sBox[..]), p);
      DecipherEncipher(KeyedG(t, userKey), SubkeysOf(t, userKey), p);
    }

    static method EncryptBlock(box: SBoxTable, key: Subkeys, p: Block) returns (c: Block)
      ensures c == Encipher(TableG(box), key, p)
    {
      var x0, x1, x2, x3 := Load(p, 0), Load(p, 4), Load(p, 8), Load(p, 12);
      x0, x1, x2, x3 := XorW(x0, key[0]), XorW(x1, key[1]), XorW(x2, key[2]), XorW(x3, key[3]);
      x0, x1, x2, x3 := EncryptRounds(box, key, x0, x1, x2, x3);
      x2, x3, x0, x1 := XorW(x2, key[4]), XorW(x3, key[5]), XorW(x0, key[6]), XorW(x1, key[7]);
      c := Store(x2) + Store(x3) + Store(x0) + Store(x1);
    }

    static method EncryptRounds(box: SBoxTable, key: Subkeys, s0: word, s1: word, s2: word, s3: word)
      returns (x0: word, x1: word, x2: word, x3: word)
      ensures Quad(x0, x1, x2, x3) == Rounds(TableG(box), key, 16, Quad(s0, s1, s2, s3))
    {
      ghost var g, start := TableG(box), Quad(s0, s1, s2, s3);
      x0, x1, x2, x3 := s0, s1, s2, s3;
      var k := 8;
      for i := 0 to 8
        invariant k == 8 + 4 * i
        invariant Quad(x0, x1, x2, x3) == Rounds(g, key, 2 * i, start)
      {
        x2, x3 := EncryptHalf(box, key, k, 2 * i, x0, x1, x2, x3);
        assert Quad(x2, x3, x0, x1) == Rounds(g, key, 2 * i + 1, start);
        x0, x1 := EncryptHalf(box, key, k + 2, 2 * i + 1, x2, x3, x0, x1);
        k := k + 4;
      }
    }

    /** Half a turn of the loop: round r, which leaves its two left words alone. */
    static method EncryptHalf(box: SBoxTable, key: Subkeys, k: nat, ghost r: nat,
                              x0: word, x1: word, y2: word, y3: word)
      returns (x2: word, x3: word)
      requires r < 16 && k == 2 * r + 8
      ensures Quad(x2, x3, x0, x1) == Round(TableG(box), key, r, Quad(x0, x1, y2, y3))
    {
      HalfRound(box, key, r, Quad(x0, x1, y2, y3));
      var t0, t1 := Lookup(box, x0, 0), Lookup(box, x1, 3);
      x2 := XorW(y2, Pht0(t0, t1, key[k]));
      x2 := Ror1(x2);
      x3 := Rol1(y3);
      x3 := XorW(x3, Pht1(t0, t1, key[k + 1]));
    }

    lemma TableIsKeyed(g: word -> word, p: Block)
      requires Valid() && g == TableG(sBox[..])
      ensures Encipher(g, subkeys[..], p) == TwofishEncrypt(t, userKey, p)
      ensures Decipher(g, subkeys[..], p) == TwofishDecrypt(t, userKey, p)
    {
      forall x
        ensures g(x) == KeyedG(t, userKey)(x)
      {
        LookupIsH(t, SWords(userKey), sBox[..], x);
      }
      CipherAgrees(g, KeyedG(t, userKey), subkeys[..], p);
    }

    method Decrypt(c: Block) returns (p: Block)
      requires Valid()
      ensures p == TwofishDecrypt(t, userKey, c)
      ensures TwofishEncrypt(t, userKey, p) == c
    {
      p := DecryptBlock(sBox[..], subkeys[..], c);
      TableIsKeyed(TableG(sBox[..]), c);
      EncipherDecipher(KeyedG(t, userKey), SubkeysOf(t, userKey), c);
    }

    static method DecryptBlock(box: SBoxTable, key: Subkeys, c: Block) returns (p: Block)
      ensures p == Decipher(TableG(box), key, c)
    {
      var x2, x3, x0, x1 := Load(c, 0), Load(c, 4), Load(c, 8), Load(c, 12);
      x2, x3, x0, x1 := XorW(x2, key[4]), XorW(x3, key[5]), XorW(x0, key[6]), XorW(x1, key[7]);
      x0, x1, x2, x3 := DecryptRounds(box, key, x0, x1, x2, x3);
      x0, x1, x2, x3 := XorW(x0, key[0]), XorW(x1, key[1]), XorW(x2, key[2]), XorW(x3, key[3]);
      p := Store(x0) + Store(x1) + Store(x2) + Store(x3);
    }

    static method DecryptRounds(box: SBoxTable, key: Subkeys, s0: word, s1: word, s2: word, s3: word)
      returns (x0: word, x1: word, x2: word, x3: word)
      ensures Quad(x0, x1, x2, x3) == Unrounds(TableG(box), key, 16, Quad(s0, s1, s2, s3))
    {
      ghost var g, start := TableG(box), Quad(s0, s1, s2, s3);
      x0, x1, x2, x3 := s0, s1, s2, s3;
      var k := 39;
      for i := 0 to 8
        invariant k == 39 - 4 * i
        invariant Quad(x0, x1, x2, x3) == Unrounds(g, key, 2 * i, start)
      {
        x0, x1 := DecryptHalf(box, key, k, 15 - 2 * i, x0, x1, x2, x3);
        assert Quad(x2, x3, x0, x1) == Unrounds(g, key, 2 * i + 1, start);
        x2, x3 := DecryptHalf(box, key, k - 2, 14 - 2 * i, x2, x3, x0, x1);
        k := k - 4;
      }
    }

    /** Half a turn of the loop: round r undone. */
    static method DecryptHalf(box: SBoxTable, key: Subkeys, k: nat, ghost r: nat,
                              y0: word, y1: word, x2: word, x3: word)
      returns (x0: word, x1: word)
      requires r < 16 && k == 2 * r + 9
      ensures Quad(x2, x3, x0, x1) == Unround(TableG(box), key, r, Quad(y0, y1, x2, x3))
    {
      HalfUnround(box, key, r, Quad(y0, y1, x2, x3));
      var t0, t1 := Lookup(box, x2, 0), Lookup(box, x3, 3);
      x1 := XorW(y1, Pht1(t0, t1, key[k]));
      x1 := Ror1(x1);
      x0 := Rol1(y0);
      x0 := XorW(x0, Pht0(t0, t1, key[k - 1]));
    }
  }

  /** A half-step of the program's loop is a round of the paper. */
  lemma HalfRound(box: SBoxTable, key: Subkeys, r: nat, q: Quad)
    requires r < 16
    ensures Round(TableG(box), key, r, q)
         == Quad(Ror1(XorW(q.c, Pht0(Lookup(box, q.a, 0), Lookup(box, q.b, 3), key[2 * r + 8]))),
                 XorW(Rol1(q.d), Pht1(Lookup(box, q.a, 0), Lookup(box, q.b, 3), key[2 * r + 9])), q.a, q.b)
  {
    LookupRotated(box, q.b);
  }

  lemma HalfUnround(box: SBoxTable, key: Subkeys, r: nat, q: Quad)
    requires r < 16
    ensures Unround(TableG(box), key, r, q)
         == Quad(q.c, q.d, XorW(Rol1(q.a), Pht0(Lookup(box, q.c, 0), Lookup(box, q.d, 3), key[2 * r + 8])),
                 Ror1(XorW(q.b, Pht1(Lookup(box, q.c, 0), Lookup(box, q.d, 3), key[2 * r + 9]))))
  {
    LookupRotated(box, q.d);
  }

  lemma RhoSteps(n: nat)
    ensures Plus(Rho(n), 0x01010101) == Rho(n + 1) && Plus(Rho(n), 0x02020202) == Rho(n + 2)
  {
    assert Rho(n + 2) == Plus(Rho(n + 1), 0x01010101);
    TwoSteps(Rho(n));
  }

  lemma TwoSteps(x: word)
    ensures Plus(Plus(x, 0x01010101), 0x01010101) == Plus(x, 0x02020202)
  {
  }
}
