/** How far a sequential run over a list of arguments gets, and which matches it finds. */
module RunSpec {
  datatype Option<T> = None | Some(value: T)

  /**
   * The run calls the function on exactly the first n arguments: no stop was seen before any of them,
   * none but the last was a match that ends the run, and if any are left then the next one saw a stop,
   * or the last one was such a match.
   */
  ghost predicate StopsAfter<A>(n: nat, args: seq<A>, matches: A -> bool, stopped: nat -> bool, endsRun: bool) {
    n <= |args|
    && (forall k: nat :: k < n ==> !stopped(k))
    && (forall k: nat {:trigger args[k]} :: k + 1 < n && endsRun ==> !matches(args[k]))
    && (n < |args| ==> stopped(n) || (n > 0 && endsRun && matches(args[n - 1])))
  }

  /** The last match among the first n arguments, if any. */
  function LastMatch<A>(args: seq<A>, n: nat, matches: A -> bool): Option<A>
    requires n <= |args|
  {
    if n == 0 then None else if matches(args[n - 1]) then Some(args[n - 1]) else LastMatch(args, n - 1, matches)
  }

  lemma {:induction false} LastMatchIs<A>(args: seq<A>, n: nat, matches: A -> bool)
    requires n <= |args|
    ensures LastMatch(args, n, matches).None? <==> forall k :: 0 <= k < n ==> !matches(args[k])
    ensures LastMatch(args, n, matches).Some? ==>
      exists k :: 0 <= k < n && LastMatch(args, n, matches) == Some(args[k]) && matches(args[k])
        && forall l :: k < l < n ==> !matches(args[l])
  {
    if n > 0 && !matches(args[n - 1]) {
      LastMatchIs(args, n - 1, matches);
    }
  }

  /** A run that made n calls, none of them on a match that ends it. */
  ghost predicate Going<A>(n: nat, args: seq<A>, matches: A -> bool, stopped: nat -> bool, endsRun: bool) {
    n > 0 ==>
      n <= |args| && Going(n - 1, args, matches, stopped, endsRun)
      && !stopped(n - 1) && !(endsRun && matches(args[n - 1]))
  }

  lemma {:induction false} GoingMeans<A>(n: nat, args: seq<A>, matches: A -> bool, stopped: nat -> bool, endsRun: bool)
    requires Going(n, args, matches, stopped, endsRun)
    ensures forall k: nat :: k < n ==> !stopped(k)
    ensures forall k: nat {:trigger args[k]} :: k < n && endsRun ==> !matches(args[k])
  {
    if n > 0 {
      GoingMeans(n - 1, args, matches, stopped, endsRun);
    }
  }

  /** It ends at the end of the list, at a stop, or after a match. */
  lemma GoingEnds<A>(n: nat, args: seq<A>, matches: A -> bool, stopped: nat -> bool, endsRun: bool)
    requires n <= |args| && Going(n, args, matches, stopped, endsRun)
    ensures n == |args| || stopped(n) ==> StopsAfter(n, args, matches, stopped, endsRun)
    ensures n < |args| && !stopped(n) && endsRun && matches(args[n]) ==>
      StopsAfter(n + 1, args, matches, stopped, endsRun)
  {
    GoingMeans(n, args, matches, stopped, endsRun);
  }

  /** A run that made n calls, none but the last on a match that ends it. */
  ghost predicate Ran<A>(n: nat, args: seq<A>, matches: A -> bool, stopped: nat -> bool, endsRun: bool) {
    n > 0 ==> n <= |args| && Going(n - 1, args, matches, stopped, endsRun) && !stopped(n - 1)
  }

  lemma RunEnds<A>(n: nat, args: seq<A>, matches: A -> bool, stopped: nat -> bool, endsRun: bool)
    requires n <= |args| && Ran(n, args, matches, stopped, endsRun)
    requires n == |args| || stopped(n) || (endsRun && LastMatch(args, n, matches).Some?)
    ensures StopsAfter(n, args, matches, stopped, endsRun)
  {
    if n > 0 {
      GoingMeans(n - 1, args, matches, stopped, endsRun);
      LastMatchIs(args, n, matches);
    }
  }

  /** At most one number of calls fits. */
  lemma StopsAfterUnique<A>(n: nat, m: nat, args: seq<A>, matches: A -> bool, stopped: nat -> bool, endsRun: bool)
    requires StopsAfter(n, args, matches, stopped, endsRun) && StopsAfter(m, args, matches, stopped, endsRun)
    ensures n == m
  {
  }

  /** The index of the first match, or the length of the list. */
  function FirstMatch<A>(args: seq<A>, matches: A -> bool): (n: nat)
    ensures n <= |args| && (n < |args| ==> matches(args[n]))
    ensures forall k :: 0 <= k < n ==> !matches(args[k])
  {
    if args == [] || matches(args[0]) then 0 else 1 + FirstMatch(args[1..], matches)
  }

  /** If matches end the run, then the last match among the arguments run is the first of the whole list. */
  lemma EndedByMatch<A>(n: nat, args: seq<A>, matches: A -> bool, stopped: nat -> bool)
    requires StopsAfter(n, args, matches, stopped, true)
    ensures LastMatch(args, n, matches).Some? <==> FirstMatch(args, matches) < n
    ensures FirstMatch(args, matches) < n ==>
      n == FirstMatch(args, matches) + 1 && LastMatch(args, n, matches) == Some(args[n - 1])
  {
    LastMatchIs(args, n, matches);
    var f := FirstMatch(args, matches);
    assert f < |args| ==> matches(args[f]);
  }

  /** Without outside stops, a run that matches end stops right after the first match, or at the end of the list. */
  lemma UnstoppedRunLength<A>(n: nat, args: seq<A>, matches: A -> bool, stopped: nat -> bool)
    requires StopsAfter(n, args, matches, stopped, true)
    requires forall k: nat :: !stopped(k)
    ensures n == if FirstMatch(args, matches) < |args| then FirstMatch(args, matches) + 1 else |args|
  {
    EndedByMatch(n, args, matches, stopped);
    var f := FirstMatch(args, matches);
    assert n < |args| ==> matches(args[n - 1]);
  }

  /** A run that matches do not end, and nothing else stops, covers the list and finds its last match. */
  lemma UnendedRunCovers<A>(n: nat, args: seq<A>, matches: A -> bool, stopped: nat -> bool)
    requires StopsAfter(n, args, matches, stopped, false)
    requires forall k: nat :: !stopped(k)
    ensures n == |args|
    ensures LastMatch(args, n, matches).Some? <==> FirstMatch(args, matches) < |args|
    ensures forall k | 0 <= k < |args| && matches(args[k]) && (forall l :: k < l < |args| ==> !matches(args[l])) ::
      LastMatch(args, n, matches) == Some(args[k])
  {
    LastMatchIs(args, n, matches);
    assert FirstMatch(args, matches) < |args| ==> matches(args[FirstMatch(args, matches)]);
  }

  /**
   * Whatever stops it sees, the call that a run with a match makes last is a match, exactly if matches end the run,
   * or from the first match on there are only matches.
   */
  lemma LastCallMatchesIff<A>(args: seq<A>, matches: A -> bool, endsRun: bool)
    ensures
      (forall n: nat, stopped: nat -> bool {:trigger StopsAfter(n, args, matches, stopped, endsRun)} ::
         StopsAfter(n, args, matches, stopped, endsRun) && LastMatch(args, n, matches).Some? ==> matches(args[n - 1]))
      <==> endsRun || forall k :: FirstMatch(args, matches) <= k < |args| ==> matches(args[k])
  {
    forall n: nat, stopped: nat -> bool |
      StopsAfter(n, args, matches, stopped, endsRun) && LastMatch(args, n, matches).Some?
      && (endsRun || forall k :: FirstMatch(args, matches) <= k < |args| ==> matches(args[k]))
      ensures matches(args[n - 1])
    {
      LastMatchIs(args, n, matches);
      if endsRun {
        EndedByMatch(n, args, matches, stopped);
      }
    }
    if !endsRun {
      forall k: nat | FirstMatch(args, matches) <= k < |args| && !matches(args[k])
        ensures !endsRun && StopsAfter(k + 1, args, matches, (p: nat) => p > k, endsRun)
        ensures LastMatch(args, k + 1, matches).Some?
      {
        LastMatchIs(args, k + 1, matches);
        assert matches(args[FirstMatch(args, matches)]);
      }
    }
  }

  /** Of a run that sees no stop, that call is a match exactly if matches end the run, or the list ends with one. */
  lemma UnstoppedLastCallMatchesIff<A>(n: nat, args: seq<A>, matches: A -> bool, stopped: nat -> bool, endsRun: bool)
    requires StopsAfter(n, args, matches, stopped, endsRun)
    requires forall k: nat :: !stopped(k)
    requires FirstMatch(args, matches) < |args|
    ensures n > 0 && (matches(args[n - 1]) <==> endsRun || matches(args[|args| - 1]))
  {
    if endsRun {
      UnstoppedRunLength(n, args, matches, stopped);
    }
  }

  /** A run that matches do not end may call the function again after its match, and end on a mismatch. */
  lemma MatchMayNotBeLast()
    ensures var args: seq<nat>, matches := [7, 8], (k: nat) => k == 7;
      StopsAfter(2, args, matches, _ => false, false) && LastMatch(args, 2, matches) == Some(7) && !matches(args[1])
  {
    var args: seq<nat>, matches := [7, 8], (k: nat) => k == 7;
    assert LastMatch(args, 2, matches) == LastMatch(args, 1, matches) == Some(7);
  }

  /** If a stop comes then, it may do so even on a list that ends with a match. */
  lemma StopAfterMismatch()
    ensures var args: seq<nat>, matches, stopped := [7, 8, 7], (k: nat) => k == 7, (p: nat) => p == 2;
      StopsAfter(2, args, matches, stopped, false) && LastMatch(args, 2, matches) == Some(7)
      && !matches(args[1]) && matches(args[2])
  {
    var args: seq<nat>, matches := [7, 8, 7], (k: nat) => k == 7;
    assert LastMatch(args, 2, matches) == LastMatch(args, 1, matches) == Some(7);
  }

  /** Without outside stops, two runs over lists that match alike find a match alike, ended by it or not. */
  lemma UnstoppedRunsAgree<A, B>(n: nat, args: seq<A>, matches: A -> bool, stopped: nat -> bool, endsRun: bool,
                                 m: nat, others: seq<B>, matchesOther: B -> bool, stoppedOther: nat -> bool,
                                 endsOther: bool)
    requires StopsAfter(n, args, matches, stopped, endsRun)
    requires forall k: nat :: !stopped(k)
    requires StopsAfter(m, others, matchesOther, stoppedOther, endsOther)
    requires forall k: nat :: !stoppedOther(k)
    requires |args| == |others| && forall k :: 0 <= k < |args| ==> matches(args[k]) == matchesOther(others[k])
    ensures LastMatch(args, n, matches).Some? <==> LastMatch(others, m, matchesOther).Some?
  {
    UnstoppedRunFinds(n, args, matches, stopped, endsRun);
    UnstoppedRunFinds(m, others, matchesOther, stoppedOther, endsOther);
  }

  /** Without outside stops, a run finds a match exactly if there is one, whether matches end it or not. */
  lemma UnstoppedRunFinds<A>(n: nat, args: seq<A>, matches: A -> bool, stopped: nat -> bool, endsRun: bool)
    requires StopsAfter(n, args, matches, stopped, endsRun)
    requires forall k: nat :: !stopped(k)
    ensures LastMatch(args, n, matches).Some? <==> exists k :: 0 <= k < |args| && matches(args[k])
    ensures !endsRun ==> n == |args|
  {
    LastMatchIs(args, n, matches);
  }
}
