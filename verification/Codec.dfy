/** Encryption of byte strings under a decimal key: key padding, block padding, block loops, NUL stripping. */
module Codec {
  import opened Words
  import opened HFunction
  import opened Cipher
  import opened KeySchedule
  import opened NulStrings
  import Twofish

  const UINT32_SIZE: nat := 0x1_0000_0000
  const INT_LIMIT: nat := 0x8000_0000

  // The library's decimal conversion.

  function Digit(d: nat): byte
    requires d < 10
  {
    (48 + d) as byte
  }

  function Decimal(n: nat): seq<byte> {
    if n < 10 then [Digit(n)] else Decimal(n / 10) + [Digit(n % 10)]
  }

  function Power10(k: nat): nat { if k == 0 then 1 else 10 * Power10(k - 1) }

  lemma {:induction false} DecimalLength(n: nat, k: nat)
    requires 0 < k && n < Power10(k)
    ensures |Decimal(n)| <= k
    decreases k
  {
    if n >= 10 {
      DecimalLength(n / 10, k - 1);
    }
  }

  lemma DecimalFits(key: nat)
    requires key < UINT32_SIZE
    ensures |Decimal(key)| <= 10
  {
    assert Power10(5) == 100_000;
    assert Power10(10) == 100_000 * Power10(5);
    DecimalLength(key, 10);
  }

  /** The decimal digits of the key, padded with zero bytes. */
  function KeyBytes(key: nat): UserKey
    requires key < UINT32_SIZE
  {
    DecimalFits(key);
    Decimal(key) + Zeros(32 - |Decimal(key)|)
  }

  /** The number that decimal digits stand for. */
  function Value(s: seq<byte>): int {
    if s == [] then 0 else 10 * Value(s[..|s| - 1]) + (s[|s| - 1] as int - 48)
  }

  lemma DigitIs(d: nat)
    requires d < 10
    ensures Digit(d) as int == 48 + d && Digit(d) != 0
  {
  }

  lemma AppendDigit(s: seq<byte>, d: nat)
    requires d < 10 && NulFree(s)
    ensures Value(s + [Digit(d)]) == 10 * Value(s) + d && NulFree(s + [Digit(d)])
  {
    DigitIs(d);
    assert (s + [Digit(d)])[..|s|] == s;
  }

  lemma {:induction false} ValueOfDecimal(n: nat)
    ensures Value(Decimal(n)) == n && NulFree(Decimal(n))
  {
    if n < 10 {
      AppendDigit([], n);
      assert [] + [Digit(n)] == Decimal(n);
    } else {
      ValueOfDecimal(n / 10);
      AppendDigit(Decimal(n / 10), n % 10);
    }
  }

  /** The numeral of a number: at least one digit, only decimal digits, and none of them a leading zero. */
  lemma {:induction false} DecimalIsNumeral(n: nat)
    ensures Decimal(n) != [] && (n > 0 ==> Decimal(n)[0] != 48)
    ensures forall i :: 0 <= i < |Decimal(n)| ==> 48 <= Decimal(n)[i] <= 57
  {
    if n < 10 {
      DigitIs(n);
    } else {
      DecimalIsNumeral(n / 10);
      DigitIs(n % 10);
    }
  }

  /** Behind the numeral the key bytes are zero. */
  lemma KeyBytesAre(key: nat)
    requires key < UINT32_SIZE
    ensures Decimal(key) <= KeyBytes(key)
    ensures forall i :: |Decimal(key)| <= i < 32 ==> KeyBytes(key)[i] == 0
  {
    DecimalFits(key);
  }

  /** Different keys have different key bytes: the padding can be told from the digits. */
  lemma KeyBytesDiffer(key: nat, key': nat)
    requires key < UINT32_SIZE && key' < UINT32_SIZE
    ensures KeyBytes(key) == KeyBytes(key') <==> key == key'
  {
    DigitsOfKey(key);
    DigitsOfKey(key');
  }

  lemma DigitsOfKey(key: nat)
    requires key < UINT32_SIZE
    ensures Value(UpToNul(KeyBytes(key))) == key
  {
    DecimalFits(key);
    ValueOfDecimal(key);
    UpToNulPadded(Decimal(key), 32 - |Decimal(key)|);
    UpToNulWhole(Decimal(key));
  }

  method MakeKey(key: nat) returns (bytes: array<byte>)
    requires key < UINT32_SIZE
    ensures fresh(bytes) && bytes[..] == KeyBytes(key)
  {
    var stringKey := Decimal(key);
    DecimalFits(key);
    bytes := new byte[32];
    for i := 0 to 32
      invariant bytes[..i] == KeyBytes(key)[..i]
    {
      if i < |stringKey| {
        bytes[i] := stringKey[i];
      } else {
        bytes[i] := 0;
      }
    }
  }

  // Padding and block-wise maps.

  /** One to sixteen zero bytes, up to a multiple of sixteen. */
  function Pad(s: seq<byte>): seq<byte> { s + Zeros(16 - |s| % 16) }

  function MapBlocks(f: Block -> Block, s: seq<byte>): seq<byte> {
    if |s| < 16 then [] else f(s[..16]) + MapBlocks(f, s[16..])
  }

  lemma {:induction false} MapBlocksLength(f: Block -> Block, s: seq<byte>)
    ensures |MapBlocks(f, s)| == |s| / 16 * 16
  {
    if |s| >= 16 {
      MapBlocksLength(f, s[16..]);
    }
  }

  lemma {:induction false} MapBlocksAppend(f: Block -> Block, s: seq<byte>, b: Block)
    requires |s| % 16 == 0
    ensures MapBlocks(f, s + b) == MapBlocks(f, s) + f(b)
  {
    if s == [] {
      assert s + b == b && b[..16] == b && b[16..] == [];
      assert MapBlocks(f, b) == f(b) + MapBlocks(f, []);
      assert f(b) + [] == f(b) && [] + f(b) == f(b);
    } else {
      MapBlocksAppend(f, s[16..], b);
      assert (s + b)[..16] == s[..16] && (s + b)[16..] == s[16..] + b;
      assert MapBlocks(f, s + b) == f(s[..16]) + (MapBlocks(f, s[16..]) + f(b));
    }
  }

  /** Mapping an inverse over the mapped blocks gives the blocks back. */
  lemma {:induction false} MapBlocksInverts(f: Block -> Block, g: Block -> Block, s: seq<byte>)
    requires |s| % 16 == 0 && forall p: Block :: g(f(p)) == p
    ensures MapBlocks(g, MapBlocks(f, s)) == s
  {
    if s == [] {
    } else {
      var p: Block := s[..16];
      MapBlocksInverts(f, g, s[16..]);
      assert MapBlocks(f, s)[..16] == f(p) && MapBlocks(f, s)[16..] == MapBlocks(f, s[16..]);
      assert s == p + s[16..];
    }
  }

  /** Padding leaves the string, and adds from one to sixteen bytes, all zero, up to a multiple of sixteen. */
  lemma PadIs(s: seq<byte>)
    ensures s <= Pad(s) && |s| < |Pad(s)| <= |s| + 16 && |Pad(s)| % 16 == 0
    ensures forall i :: |s| <= i < |Pad(s)| ==> Pad(s)[i] == 0
  {
  }

  function BlockAt(s: seq<byte>, i: nat): Block
    requires i + 16 <= |s|
  {
    s[i..i + 16]
  }

  lemma BehindBlock(b: Block, rest: seq<byte>, i: nat)
    requires 16 <= i <= |rest|
    ensures BlockAt(b + rest, i) == BlockAt(rest, i - 16)
  {
  }

  lemma BlockOfTail(s: seq<byte>, i: nat)
    requires 16 <= i && i + 16 <= |s|
    ensures BlockAt(s, i) == BlockAt(s[16..], i - 16)
  {
  }

  lemma FirstBlock(b: Block, rest: seq<byte>)
    ensures BlockAt(b + rest, 0) == b
  {
  }

  /** Every block is mapped at its place. */
  lemma {:induction false} MapBlocksAt(f: Block -> Block, s: seq<byte>, i: nat)
    requires i % 16 == 0 && i + 16 <= |s|
    ensures i + 16 <= |MapBlocks(f, s)| && BlockAt(MapBlocks(f, s), i) == f(BlockAt(s, i))
    decreases i
  {
    var rest := MapBlocks(f, s[16..]);
    assert MapBlocks(f, s) == f(BlockAt(s, 0)) + rest;
    if i == 0 {
      FirstBlock(f(BlockAt(s, 0)), rest);
    } else {
      MapBlocksAt(f, s[16..], i - 16);
      BehindBlock(f(BlockAt(s, 0)), rest, i);
      BlockOfTail(s, i);
    }
  }

  // The two directions.

  function Encipher16(t: Boxes, key: nat): Block -> Block
    requires key < UINT32_SIZE
  {
    (p: Block) => TwofishEncrypt(t, KeyBytes(key), p)
  }

  function Decipher16(t: Boxes, key: nat): Block -> Block
    requires key < UINT32_SIZE
  {
    (c: Block) => TwofishDecrypt(t, KeyBytes(key), c)
  }

  function Encrypted(t: Boxes, key: nat, s: seq<byte>): seq<byte>
    requires key < UINT32_SIZE
  {
    MapBlocks(Encipher16(t, key), Pad(s))
  }

  function Decrypted(t: Boxes, key: nat, e: seq<byte>): seq<byte>
    requires key < UINT32_SIZE
  {
    UpToNul(MapBlocks(Decipher16(t, key), e))
  }

  lemma PaddedLength(f: Block -> Block, s: seq<byte>)
    ensures var n := |MapBlocks(f, Pad(s))|;
      n % 16 == 0 && |s| < n <= |s| + 16
  {
    MapBlocksLength(f, Pad(s));
  }

  /** Each block of the ciphertext is the block of the padded string at its place, under the cipher of the key bytes. */
  lemma EncryptedAt(t: Boxes, key: nat, s: seq<byte>, i: nat)
    requires key < UINT32_SIZE && i % 16 == 0 && i + 16 <= |Pad(s)|
    ensures i + 16 <= |Encrypted(t, key, s)|
      && BlockAt(Encrypted(t, key, s), i) == TwofishEncrypt(t, KeyBytes(key), BlockAt(Pad(s), i))
  {
    MapBlocksAt(Encipher16(t, key), Pad(s), i);
  }

  method Encrypt(t: Boxes, key: nat, toEncrypt: seq<byte>) returns (encrypted: seq<byte>)
    requires key < UINT32_SIZE && |toEncrypt| + 16 < INT_LIMIT
    ensures encrypted == Encrypted(t, key, toEncrypt)
    ensures |encrypted| % 16 == 0 && |toEncrypt| < |encrypted| <= |toEncrypt| + 16
  {
    var byteKey := MakeKey(key);
    var twofish := new Twofish.Twofish256(t, byteKey[..]);
    var plain := MakePlain(toEncrypt);
    encrypted := EncryptBlocks(twofish, plain, Encipher16(t, key));
    PaddedLength(Encipher16(t, key), toEncrypt);
  }

  /** The string followed by its padding. */
  method MakePlain(toEncrypt: seq<byte>) returns (plain: array<byte>)
    ensures fresh(plain) && plain[..] == Pad(toEncrypt)
  {
    var size := |toEncrypt|;
    size := size + (16 - size % 16);
    plain := new byte[size];
    for i := 0 to size
      invariant plain[..i] == Pad(toEncrypt)[..i]
    {
      if i < |toEncrypt| {
        plain[i] := toEncrypt[i];
      } else {
        plain[i] := 0;
      }
    }
  }

  method EncryptWith(twofish: Twofish.Twofish256, block: Block, ghost f: Block -> Block) returns (r: Block)
    requires twofish.Valid()
    requires forall p {:trigger TwofishEncrypt(twofish.t, twofish.userKey, p)} ::
      f(p) == TwofishEncrypt(twofish.t, twofish.userKey, p)
    ensures r == f(block)
  {
    r := twofish.Encrypt(block);
  }

  /** One turn of the block loop, at position i. */
  method EncryptAt(twofish: Twofish.Twofish256, plain: array<byte>, result: array<byte>, i: nat,
                   ghost f: Block -> Block)
    returns (block: Block)
    requires twofish.Valid() && i % 16 == 0 && i + 16 <= plain.Length == result.Length && result != plain
    requires forall p {:trigger TwofishEncrypt(twofish.t, twofish.userKey, p)} ::
      f(p) == TwofishEncrypt(twofish.t, twofish.userKey, p)
    modifies result
    ensures block == plain[i..i + 16] && result[..i + 16] == old(result[..i]) + f(block)
  {
    block := GetBlock(plain, i);
    var encryptedBlock := EncryptWith(twofish, block, f);
    PutBlock(result, i, encryptedBlock);
  }

  method EncryptBlocks(twofish: Twofish.Twofish256, plain: array<byte>, ghost f: Block -> Block)
    returns (encrypted: seq<byte>)
    requires twofish.Valid() && plain.Length % 16 == 0
    requires forall p {:trigger TwofishEncrypt(twofish.t, twofish.userKey, p)} ::
      f(p) == TwofishEncrypt(twofish.t, twofish.userKey, p)
    ensures encrypted == MapBlocks(f, plain[..])
  {
    var size := plain.Length;
    var result := new byte[size];
    var i := 0;
    while i < size
      invariant 0 <= i <= size && i % 16 == 0
      invariant result[..i] == MapBlocks(f, plain[..i])
    {
      var block := EncryptAt(twofish, plain, result, i, f);
      MapBlocksAppend(f, plain[..i], block);
      assert plain[..i + 16] == plain[..i] + block;
      i := i + 16;
    }
    assert plain[..size] == plain[..] && result[..size] == result[..];
    encrypted := result[..];
  }

  lemma Offset(i: nat, j: nat)
    requires i % 16 == 0 && i <= j < i + 16
    ensures j % 16 == j - i
  {
  }

  /** Copies sixteen bytes from position i into a block. */
  method GetBlock(a: array<byte>, i: nat) returns (block: Block)
    requires i % 16 == 0 && i + 16 <= a.Length
    ensures block == a[i..i + 16]
  {
    var b := new byte[16](_ => 0);
    for j := i to i + 16
      invariant b[..j - i] == a[i..j]
    {
      Offset(i, j);
      b[j % 16] := a[j];
    }
    block := b[..];
  }

  /** Copies a block to position i. */
  method PutBlock(a: array<byte>, i: nat, block: Block)
    requires i % 16 == 0 && i + 16 <= a.Length
    modifies a
    ensures a[..i + 16] == old(a[..i]) + block && a[i + 16..] == old(a[i + 16..])
  {
    for j := i to i + 16
      invariant a[..i] == old(a[..i]) && a[i + 16..] == old(a[i + 16..])
      invariant a[i..j] == block[..j - i]
    {
      Offset(i, j);
      a[j] := block[j % 16];
    }
  }

  method Decrypt(t: Boxes, key: nat, encrypted: seq<byte>) returns (output: seq<byte>)
    requires key < UINT32_SIZE && |encrypted| < INT_LIMIT && |encrypted| % 16 == 0
    ensures output == Decrypted(t, key, encrypted)
    ensures NulFree(output)
  {
    var byteKey := MakeKey(key);
    var twofish := new Twofish.Twofish256(t, byteKey[..]);
    var source := new byte[|encrypted|](j requires 0 <= j < |encrypted| => encrypted[j]);
    assert source[..] == encrypted;
    var decrypted := DecryptBlocks(twofish, source, Decipher16(t, key));
    output := StripAtNul(decrypted);
  }

  method DecryptWith(twofish: Twofish.Twofish256, block: Block, ghost g: Block -> Block) returns (r: Block)
    requires twofish.Valid()
    requires forall c {:trigger TwofishDecrypt(twofish.t, twofish.userKey, c)} ::
      g(c) == TwofishDecrypt(twofish.t, twofish.userKey, c)
    ensures r == g(block)
  {
    r := twofish.Decrypt(block);
  }

  /** One turn of the block loop, at position i. */
  method DecryptAt(twofish: Twofish.Twofish256, source: array<byte>, result: array<byte>, i: nat,
                   ghost g: Block -> Block)
    returns (block: Block)
    requires twofish.Valid() && i % 16 == 0 && i + 16 <= source.Length == result.Length && result != source
    requires forall c {:trigger TwofishDecrypt(twofish.t, twofish.userKey, c)} ::
      g(c) == TwofishDecrypt(twofish.t, twofish.userKey, c)
    modifies result
    ensures block == source[i..i + 16] && result[..i + 16] == old(result[..i]) + g(block)
  {
    block := GetBlock(source, i);
    var decryptedBlock := DecryptWith(twofish, block, g);
    PutBlock(result, i, decryptedBlock);
  }

  method DecryptBlocks(twofish: Twofish.Twofish256, source: array<byte>, ghost g: Block -> Block)
    returns (decrypted: seq<byte>)
    requires twofish.Valid() && source.Length % 16 == 0
    requires forall c {:trigger TwofishDecrypt(twofish.t, twofish.userKey, c)} ::
      g(c) == TwofishDecrypt(twofish.t, twofish.userKey, c)
    ensures decrypted == MapBlocks(g, source[..])
  {
    var size := source.Length;
    var result := new byte[size];
    var i := 0;
    while i < size
      invariant 0 <= i <= size && i % 16 == 0
      invariant result[..i] == MapBlocks(g, source[..i])
    {
      var block := DecryptAt(twofish, source, result, i, g);
      MapBlocksAppend(g, source[..i], block);
      assert source[..i + 16] == source[..i] + block;
      i := i + 16;
    }
    assert source[..size] == source[..] && result[..size] == result[..];
    decrypted := result[..];
  }

  /** The bytes before the first NUL. */
  method StripAtNul(decrypted: seq<byte>) returns (output: seq<byte>)
    ensures output == UpToNul(decrypted)
    ensures NulFree(output) && output <= decrypted
    ensures |output| < |decrypted| ==> decrypted[|output|] == 0
  {
    output := [];
    var i := 0;
    while i < |decrypted|
      invariant 0 <= i <= |decrypted| && output == decrypted[..i]
      invariant output + UpToNul(decrypted[i..]) == UpToNul(decrypted) && NulFree(output)
    {
      if decrypted[i] == 0 {
        break;
      }
      output := output + [decrypted[i]];
      i := i + 1;
    }
  }

  lemma StripsToOriginal(f: Block -> Block, g: Block -> Block, s: seq<byte>)
    requires forall p :: g(f(p)) == p
    ensures UpToNul(MapBlocks(g, MapBlocks(f, Pad(s)))) == UpToNul(s)
  {
    MapBlocksInverts(f, g, Pad(s));
    UpToNulPadded(s, 16 - |s| % 16);
  }

  lemma CipherInverts(t: Boxes, key: nat, f: Block -> Block, g: Block -> Block)
    requires key < UINT32_SIZE && f == Encipher16(t, key) && g == Decipher16(t, key)
    ensures forall p :: g(f(p)) == p
  {
    forall p
      ensures g(f(p)) == p
    {
      DecipherEncipher(KeyedG(t, KeyBytes(key)), SubkeysOf(t, KeyBytes(key)), p);
    }
  }

  /** Decrypting an encrypted string under the same key gives it back up to its first NUL byte. */
  lemma RoundTrip(t: Boxes, key: nat, s: seq<byte>)
    requires key < UINT32_SIZE
    ensures Decrypted(t, key, Encrypted(t, key, s)) == UpToNul(s)
    ensures NulFree(s) <==> Decrypted(t, key, Encrypted(t, key, s)) == s
  {
    var f, g := Encipher16(t, key), Decipher16(t, key);
    CipherInverts(t, key, f, g);
    StripsToOriginal(f, g, s);
    if NulFree(s) {
      UpToNulWhole(s);
    }
    UpToNulIsNulFree(s);
  }
}
