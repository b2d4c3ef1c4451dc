/** Byte strings ended by a NUL byte. */
module NulStrings {
  import opened Words

  function Zeros(n: nat): (z: seq<byte>)
    ensures |z| == n
  {
    seq(n, _ => 0)
  }

  function UpToNul(s: seq<byte>): seq<byte> {
    if s == [] || s[0] == 0 then [] else [s[0]] + UpToNul(s[1..])
  }

  predicate NulFree(s: seq<byte>) { 0 !in s }

  lemma {:induction false} UpToNulPadded(s: seq<byte>, n: nat)
    ensures UpToNul(s + Zeros(n)) == UpToNul(s)
  {
    if s == [] {
      assert s + Zeros(n) == Zeros(n);
    } else if s[0] != 0 {
      UpToNulPadded(s[1..], n);
      assert (s + Zeros(n))[1..] == s[1..] + Zeros(n);
    }
  }

  lemma {:induction false} UpToNulWhole(s: seq<byte>)
    requires NulFree(s)
    ensures UpToNul(s) == s
  {
    if s != [] {
      UpToNulWhole(s[1..]);
    }
  }

  lemma {:induction false} UpToNulIsNulFree(s: seq<byte>)
    ensures NulFree(UpToNul(s))
  {
    if s != [] && s[0] != 0 {
      UpToNulIsNulFree(s[1..]);
    }
  }

  /** A string without NUL bytes, followed by one, reads as itself. */
  lemma {:induction false} UpToNulOf(s: seq<byte>, rest: seq<byte>)
    requires NulFree(s) && rest != [] && rest[0] == 0
    ensures UpToNul(s + rest) == s
  {
    if s == [] {
      assert s + rest == rest;
    } else {
      UpToNulOf(s[1..], rest);
      assert (s + rest)[1..] == s[1..] + rest;
    }
  }
}
