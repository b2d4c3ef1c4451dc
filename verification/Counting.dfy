/** How often a number occurs in a list. */
module Counting {

  function Count(s: seq<nat>, k: nat): nat {
    if s == [] then 0 else (if s[0] == k then 1 else 0) + Count(s[1..], k)
  }

  lemma {:induction false} CountAppend(a: seq<nat>, b: seq<nat>, k: nat)
    ensures Count(a + b, k) == Count(a, k) + Count(b, k)
  {
    if a == [] {
      assert a + b == b;
    } else {
      CountAppend(a[1..], b, k);
      assert (a + b)[1..] == a[1..] + b;
    }
  }
}
