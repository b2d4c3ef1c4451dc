/** The brute-force search for the key of an encrypted string, from cipher to interleaved workers. */
module EndToEnd {
  import opened Words
  import opened HFunction
  import opened NulStrings
  import opened Codec
  import opened WorkSplit
  import opened ParallelDecryptor
  import opened Protocol

  /** The search of n workers over the keys up to rangeEnd. */
  function Search(t: Boxes, n: nat, rangeEnd: nat, expected: seq<byte>, encrypted: seq<byte>): Config
    requires n > 0
  {
    Config(n, WorkSplit.Step(rangeEnd, n), rangeEnd, (key: nat) => ResultFor(t, encrypted)(key).text, expected)
  }

  lemma SearchMatches(t: Boxes, n: nat, rangeEnd: nat, expected: seq<byte>, encrypted: seq<byte>, key: nat)
    requires n > 0 && key < UINT32_SIZE
    ensures Matches(Search(t, n, rangeEnd, expected, encrypted), key) <==> Decrypted(t, key, encrypted) == expected
  {
    ResultIs(t, key, encrypted);
    assert Search(t, n, rangeEnd, expected, encrypted).decrypted(key) == ResultFor(t, encrypted)(key).text;
  }

  /** The work prepared for the workers finds what the search looks for. */
  lemma PreparedWorkSearches(work: LazyWork, keys: seq<nat>, t: Boxes, n: nat, rangeEnd: nat, expected: seq<byte>,
                             encrypted: seq<byte>, key: nat)
    requires Maps(work, keys, ResultFor(t, encrypted), Success(expected)) && n > 0 && key < UINT32_SIZE
    ensures work.Matching()(key) <==> Matches(Search(t, n, rangeEnd, expected, encrypted), key)
  {
    LazyWorkMatches(work, keys, t, encrypted, expected, key);
    SearchMatches(t, n, rangeEnd, expected, encrypted, key);
  }

  /** What matches has no NUL byte. */
  lemma MatchesDecrypt(t: Boxes, n: nat, rangeEnd: nat, s: seq<byte>, encrypted: seq<byte>, key: nat)
    requires n > 0 && key < UINT32_SIZE
    ensures Matches(Search(t, n, rangeEnd, s, encrypted), key) ==> NulFree(s) && Decrypted(t, key, encrypted) == s
  {
    SearchMatches(t, n, rangeEnd, s, encrypted, key);
    UpToNulIsNulFree(MapBlocks(Decipher16(t, key), encrypted));
  }

  /** The search for a string s in its own ciphertext matches the key of the encryption exactly if s has no NUL byte. */
  lemma OwnKeyMatches(t: Boxes, k0: nat, s: seq<byte>, n: nat, rangeEnd: nat)
    requires n > 0 && k0 < UINT32_SIZE
    ensures Matches(Search(t, n, rangeEnd, s, Encrypted(t, k0, s)), k0) <==> NulFree(s)
  {
    RoundTrip(t, k0, s);
    SearchMatches(t, n, rangeEnd, s, Encrypted(t, k0, s), k0);
  }

  /**
   * Such a search over a range that holds the key: every complete run, whatever the interleaving, ends with a worker
   * that has found the string, if the string has no NUL byte. If it has one, no run finds anything.
   */
  lemma SearchFindsPlaintext(t: Boxes, k0: nat, s: seq<byte>, n: nat, rangeEnd: nat, schedule: seq<Move>)
    requires n > 0 && k0 <= rangeEnd < INT_LIMIT
    ensures var c := Search(t, n, rangeEnd, s, Encrypted(t, k0, s));
      CompleteRun(c, schedule) ==>
        (SomeResult(Reached(c, schedule)) <==> NulFree(s))
        && forall w :: w in Reached(c, schedule).workers && w.hasResult ==>
          w.result.Some? && w.result.value.text == s && w.result.value.key <= rangeEnd
          && w.result.value == ResultFor(t, Encrypted(t, k0, s))(w.result.value.key)
          && Decrypted(t, w.result.value.key, Encrypted(t, k0, s)) == s
  {
    var encrypted := Encrypted(t, k0, s);
    var c := Search(t, n, rangeEnd, s, encrypted);
    OwnKeyMatches(t, k0, s, n, rangeEnd);
    if CompleteRun(c, schedule) {
      SearchRefinesScan(c, schedule);
      ResultsAreMatches(c, schedule);
      forall key: nat | key <= rangeEnd && Matches(c, key)
        ensures NulFree(s) && Decrypted(t, key, encrypted) == s
      {
        MatchesDecrypt(t, n, rangeEnd, s, encrypted, key);
      }
      forall key: nat | key <= rangeEnd
        ensures ResultFor(t, encrypted)(key) == DecryptionResult(Decrypted(t, key, encrypted), key)
      {
        ResultIs(t, key, encrypted);
      }
    }
  }
}
