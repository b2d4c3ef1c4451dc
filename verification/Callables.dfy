/** The units of work that a runner executes: one call, a list of calls, and a call mapped over a generator. */
module Callables {
  import opened RunSpec
  import opened StopFlag
  import opened WorkSplit

  datatype Status = Done | NoSighandler

  datatype Outcome<T> = Ready(value: T) | NotReady

  /**
   * The handler through which callables learn of a stop and announce one. Without a flag it is the
   * OpenMP handler, which never stops anything. What the other workers write to the flag is a parameter:
   * outside(p) holds when their message is there at the p-th poll.
   */
  class Interrupter {
    const flag: SharedFlag?
    const outside: nat -> bool
    var polls: nat

    constructor (flag: SharedFlag?, outside: nat -> bool)
      ensures this.flag == flag && this.outside == outside && polls == 0
    {
      this.flag, this.outside := flag, outside;
      polls := 0;
    }

    ghost function Memory(): set<object> {
      if flag == null then {} else {flag.mem}
    }

    ghost predicate Valid()
      reads Memory()
    {
      flag != null ==> flag.Valid()
    }

    ghost predicate IsSet()
      reads Memory()
    {
      flag != null && flag.Message() == SUCCESS
    }

    /** Whether the k-th poll from now finds a message that is there already or comes from outside. */
    ghost function Stopped(): nat -> bool
      reads this, Memory()
    {
      var set0, first := IsSet(), polls;
      (k: nat) => set0 || (flag != null && outside(first + k))
    }

    method CheckNextSyncCall() returns (go: bool)
      requires Valid()
      modifies this`polls
      ensures polls == old(polls) + 1
      ensures go <==> flag == null || !(outside(old(polls)) || IsSet())
    {
      go := true;
      if flag != null {
        go := flag.CheckNextSyncCall();
        if outside(polls) {
          go := false;
        }
      }
      polls := polls + 1;
    }

    method HandleSuccess()
      requires Valid()
      modifies Memory()
      ensures Valid() && (flag != null ==> IsSet())
    {
      if flag != null {
        flag.HandleSuccess();
      }
    }
  }

  /** A function, its parameters, and the check that decides whether its result is a success. */
  class Callable<A, R> {
    const resultChecker: R -> bool
    const function_: A -> R
    const params: A
    const show: R -> string
    var shouldCallSighandler: bool
    var result: Option<R>
    var finished: bool
    var hasResult: bool
    var sighandlerSet: bool
    var sighandler: Interrupter?

    constructor (resultChecker: R -> bool, function_: A -> R, params: A, show: R -> string)
      ensures Valid() && !finished && !hasResult && !sighandlerSet && shouldCallSighandler
      ensures this.resultChecker == resultChecker && this.function_ == function_
      ensures this.params == params && this.show == show
    {
      this.resultChecker, this.function_, this.params, this.show := resultChecker, function_, params, show;
      shouldCallSighandler, result := true, None;
      finished, hasResult, sighandlerSet, sighandler := false, false, false, null;
    }

    ghost predicate Matches() { resultChecker(function_(params)) }

    ghost function Shown(): string { show(function_(params)) }

    /** A result is there exactly once the callable ran and its check succeeded. */
    ghost predicate Valid()
      reads this
    {
      (hasResult <==> finished && Matches()) && (finished ==> result == Some(function_(params)))
    }

    method SetSigHandler(handler: Interrupter?)
      modifies this`sighandler, this`sighandlerSet
      ensures sighandler == handler && sighandlerSet
    {
      sighandler, sighandlerSet := handler, true;
    }

    method Run() returns (status: Status)
      requires Valid()
      requires shouldCallSighandler && sighandlerSet ==> sighandler != null && sighandler.Valid()
      modifies this`result, this`finished, this`hasResult
      modifies if shouldCallSighandler && sighandler != null then sighandler.Memory() else {}
      ensures Valid()
      ensures status == (if sighandlerSet then Done else NoSighandler)
      ensures finished == (old(finished) || status == Done)
      ensures status == Done && shouldCallSighandler && Matches() && sighandler.flag != null ==> sighandler.IsSet()
      ensures sighandler != null && !(status == Done && shouldCallSighandler && Matches()) ==>
        unchanged(sighandler.Memory())
    {
      if !sighandlerSet {
        return NoSighandler;
      }
      result := Some(function_(params));
      finished := true;
      if resultChecker(result.value) {
        hasResult := true;
        if shouldCallSighandler {
          sighandler.HandleSuccess();
        }
      }
      status := Done;
    }

    predicate HasResult()
      reads this
    {
      finished && hasResult
    }

    method GetResult() returns (r: Outcome<R>)
      requires Valid()
      ensures r == if finished && Matches() then Ready(function_(params)) else NotReady
    {
      r := if finished && hasResult then Ready(result.value) else NotReady;
    }

    method ToString() returns (s: Outcome<string>)
      requires Valid()
      ensures s == if finished && Matches() then Ready(show(function_(params))) else NotReady
    {
      s := if finished && hasResult then Ready(show(result.value)) else NotReady;
    }
  }

  /** Callables run one after another. */
  class MultipleCallable<A, R> {
    var callables: seq<Callable<A, R>>
    var finished: bool
    var hasResult: bool
    var sighandlerSet: bool
    var resultString: string
    var sighandler: Interrupter?

    constructor ()
      ensures Valid() && callables == [] && !HasResult() && resultString == "" && !sighandlerSet
    {
      callables, finished, hasResult, sighandlerSet, resultString, sighandler := [], false, false, false, "", null;
    }

    /** No member announces its own success. */
    ghost predicate Valid()
      reads this, callables
    {
      (hasResult ==> finished)
      && (sighandlerSet ==> sighandler != null)
      && forall c :: c in callables ==> c.Valid() && c.sighandlerSet && !c.shouldCallSighandler
    }

    ghost function Matching(): Callable<A, R> -> bool { (c: Callable<A, R>) => c.Matches() }

    ghost function Last(n: nat): Option<Callable<A, R>>
      requires n <= |callables|
      reads this
    {
      LastMatch(callables, n, Matching())
    }

    method AddSingleCallable(runner: Callable<A, R>)
      requires Valid() && runner.Valid()
      modifies this`callables, runner`sighandler, runner`sighandlerSet, runner`shouldCallSighandler
      ensures Valid() && callables == old(callables) + [runner]
      ensures runner.sighandler == sighandler
    {
      runner.SetSigHandler(sighandler);
      runner.shouldCallSighandler := false;
      callables := callables + [runner];
    }

    method SetSigHandler(handler: Interrupter)
      requires Valid()
      modifies this`sighandler, this`sighandlerSet, callables
      ensures Valid() && sighandler == handler && sighandlerSet
      ensures forall c :: c in callables ==> c.sighandler == handler
    {
      sighandler, sighandlerSet := handler, true;
      for i := 0 to |callables|
        invariant Valid() && sighandler == handler && sighandlerSet && callables == old(callables)
        invariant forall k :: 0 <= k < i ==> callables[k].sighandler == handler
      {
        callables[i].SetSigHandler(handler);
      }
    }

    predicate HasResult()
      reads this
    {
      hasResult && finished
    }

    /**
     * Runs the members up to the first stop it sees; n is how many. Its own success stops it
     * through the flag only, so under a handler without one it runs all of them.
     */
    method Run() returns (status: Status, ghost n: nat)
      requires Valid() && (sighandlerSet ==> sighandler.Valid())
      modifies this`finished, this`hasResult, this`resultString, callables
      modifies if sighandlerSet then {sighandler} + sighandler.Memory() else {}
      ensures Valid() && n <= |callables|
      ensures status == if sighandlerSet then Done else NoSighandler
      ensures status == NoSighandler ==> n == 0
      ensures status == Done ==>
        StopsAfter(n, callables, Matching(), old(sighandler.Stopped()), sighandler.flag != null)
      ensures HasResult() == (old(HasResult()) || Last(n).Some?)
      ensures Last(n).Some? ==> var c := Last(n).value; resultString == c.show(c.function_(c.params))
      ensures Last(n).None? ==> resultString == old(resultString)
      ensures forall c :: c in callables ==> c.finished == (old(c.finished) || c in callables[..n])
    {
      n := 0;
      if !sighandlerSet {
        return NoSighandler, 0;
      }
      status := Done;
      n := RunMembers(sighandler, sighandler.Stopped());
    }

    /** Runs a member, which does not announce its success itself. */
    method RunQuietly(runner: Callable<A, R>) returns (matched: bool)
      requires Valid() && runner in callables
      modifies runner`result, runner`finished, runner`hasResult
      ensures Valid() && runner.finished && matched == runner.Matches()
    {
      var status := runner.Run();
      matched := runner.HasResult();
    }

    /** Polls, then runs one member and announces its success. */
    method TryMember(runner: Callable<A, R>, handler: Interrupter) returns (go: bool)
      requires Valid() && handler.Valid() && runner in callables
      modifies this`finished, this`hasResult, this`resultString, runner`result, runner`finished, runner`hasResult
      modifies {handler} + handler.Memory()
      ensures Valid() && handler.Valid() && handler.polls == old(handler.polls) + 1
      ensures go <==> handler.flag == null || !(handler.outside(old(handler.polls)) || old(handler.IsSet()))
      ensures HasResult() == (old(HasResult()) || (go && runner.Matches()))
      ensures resultString == if go && runner.Matches() then runner.Shown() else old(resultString)
      ensures runner.finished == (old(runner.finished) || go)
      ensures handler.IsSet() == if go && runner.Matches() then handler.flag != null else old(handler.IsSet())
    {
      go := handler.CheckNextSyncCall();
      if go {
        var matched := RunQuietly(runner);
        if matched {
          finished, hasResult := true, true;
          var shown := runner.ToString();
          resultString := shown.value;
          handler.HandleSuccess();
        }
      }
    }

    /** The state after i members ran, for a run that found the handler at the given poll and the flag set or not. */
    ghost predicate RanSoFar(i: nat, handler: Interrupter, stopped: nat -> bool, poll: nat, set0: bool,
                             had: bool, was: string)
      reads this, handler, handler.Memory()
    {
      i <= |callables| && handler.polls == poll + i
      && Ran(i, callables, Matching(), stopped, handler.flag != null)
      && (handler.flag != null ==> handler.IsSet() == (set0 || Last(i).Some?))
      && Reports(i, had, was)
    }

    ghost predicate Reports(i: nat, had: bool, was: string)
      requires i <= |callables|
      reads this
    {
      HasResult() == (had || Last(i).Some?)
      && resultString == if Last(i).Some? then Last(i).value.Shown() else was
    }

    /** One turn of the loop. */
    method RunMember(i: nat, handler: Interrupter, ghost stopped: nat -> bool, ghost poll: nat, ghost set0: bool,
                     ghost had: bool, ghost was: string)
      returns (go: bool)
      requires Valid() && handler.Valid() && i < |callables| && RanSoFar(i, handler, stopped, poll, set0, had, was)
      requires forall k: nat :: stopped(k) == (set0 || (handler.flag != null && handler.outside(poll + k)))
      requires handler.flag == null ==> !set0
      modifies this`finished, this`hasResult, this`resultString
      modifies {callables[i]}
      modifies {handler} + handler.Memory()
      ensures Valid() && handler.Valid()
      ensures go ==> RanSoFar(i + 1, handler, stopped, poll, set0, had, was)
      ensures !go ==> StopsAfter(i, callables, Matching(), stopped, handler.flag != null) && Reports(i, had, was)
      ensures forall c :: c in callables ==> c.finished == (old(c.finished) || (go && c == callables[i]))
    {
      var runner := callables[i];
      assert Matching()(runner) == runner.Matches();
      go := TryMember(runner, handler);
      if !go {
        RunEnds(i, callables, Matching(), stopped, handler.flag != null);
      }
    }

    method RunMembers(handler: Interrupter, ghost stopped: nat -> bool) returns (ghost n: nat)
      requires Valid() && handler.Valid()
      requires forall k: nat ::
        stopped(k) == (handler.IsSet() || (handler.flag != null && handler.outside(handler.polls + k)))
      modifies this`finished, this`hasResult, this`resultString, callables
      modifies {handler} + handler.Memory()
      ensures Valid() && n <= |callables| && StopsAfter(n, callables, Matching(), stopped, handler.flag != null)
      ensures Reports(n, old(HasResult()), old(resultString))
      ensures forall c :: c in callables ==> c.finished == (old(c.finished) || c in callables[..n])
    {
      n := 0;
      ghost var poll, set0, had, was := handler.polls, handler.IsSet(), HasResult(), resultString;
      for i := 0 to |callables|
        invariant Valid() && handler.Valid()
        invariant n == i && RanSoFar(i, handler, stopped, poll, set0, had, was)
        invariant forall c :: c in callables ==> c.finished == (old(c.finished) || c in callables[..i])
      {
        var go := RunMember(i, handler, stopped, poll, set0, had, was);
        if !go {
          return;
        }
        assert callables[..i + 1] == callables[..i] + [callables[i]];
        n := n + 1;
      }
      RunEnds(n, callables, Matching(), stopped, handler.flag != null);
    }
  }

  /** A function mapped over the keys of a generator. */
  class MapCallable<R> {
    const resultChecker: R -> bool
    const function_: nat -> R
    const iterator_: DecryptorSequence
    var shouldCallSighandler: bool
    var result: Option<R>
    var finished: bool
    var hasResult: bool
    var sighandlerSet: bool
    var sighandler: Interrupter?

    constructor (resultChecker: R -> bool, function_: nat -> R, iterator_: DecryptorSequence)
      ensures !finished && !hasResult && !sighandlerSet && shouldCallSighandler && result == None
      ensures this.resultChecker == resultChecker && this.function_ == function_ && this.iterator_ == iterator_
    {
      this.resultChecker, this.function_, this.iterator_ := resultChecker, function_, iterator_;
      shouldCallSighandler, result := true, None;
      finished, hasResult, sighandlerSet, sighandler := false, false, false, null;
    }

    predicate HasResult()
      reads this
    {
      finished && hasResult
    }

    ghost function Matching(): nat -> bool { (key: nat) => resultChecker(function_(key)) }

    method SetSigHandler(handler: Interrupter)
      modifies this`sighandler, this`sighandlerSet
      ensures sighandler == handler && sighandlerSet
    {
      sighandler, sighandlerSet := handler, true;
    }

    /** Calls the function on the first n keys. The result kept is that of the last call, match or not. */
    method Run() returns (status: Status, ghost n: nat)
      requires sighandlerSet ==> sighandler != null && sighandler.Valid()
      modifies this`result, this`finished, this`hasResult, iterator_
      modifies if sighandlerSet then {sighandler} + sighandler.Memory() else {}
      ensures status == (if sighandlerSet then Done else NoSighandler)
      ensures status == NoSighandler ==> n == 0
      ensures n <= |old(iterator_.Remaining())|
      ensures status == Done ==>
        StopsAfter(n, old(iterator_.Remaining()), Matching(), old(sighandler.Stopped()), shouldCallSighandler)
      ensures hasResult == (old(hasResult) || LastMatch(old(iterator_.Remaining()), n, Matching()).Some?)
      ensures finished == (old(finished) || n > 0)
      ensures result == if n > 0 then Some(function_(old(iterator_.Remaining())[n - 1])) else old(result)
      ensures old(iterator_.j) + n <= iterator_.j <= old(iterator_.j) + n + 1
    {
      n := 0;
      if !sighandlerSet {
        return NoSighandler, 0;
      }
      status := Done;
      n := RunKeys(sighandler, iterator_.Remaining(), sighandler.Stopped());
    }

    method Evaluate(key: nat) returns (matched: bool)
      modifies this`result, this`finished, this`hasResult
      ensures matched == resultChecker(function_(key)) && result == Some(function_(key)) && finished
      ensures hasResult == (old(hasResult) || matched)
    {
      result := Some(function_(key));
      finished := true;
      matched := resultChecker(result.value);
      if matched {
        hasResult := true;
      }
    }

    /** What the fields say after calls on the first n keys. */
    ghost predicate Reports(keys: seq<nat>, n: nat, had: bool, hadFinished: bool, was: Option<R>)
      requires n <= |keys|
      reads this
    {
      hasResult == (had || LastMatch(keys, n, Matching()).Some?)
      && finished == (hadFinished || n > 0)
      && result == if n > 0 then Some(function_(keys[n - 1])) else was
    }

    /** Draws the n-th key, polls, then evaluates the key and announces a match. */
    method TryNext(handler: Interrupter, ghost keys: seq<nat>, ghost n: nat, ghost had: bool,
                   ghost hadFinished: bool, ghost was: Option<R>)
      returns (go: bool, matched: bool)
      requires handler.Valid() && n < |keys| && iterator_.Remaining() == keys[n..]
      requires Reports(keys, n, had, hadFinished, was)
      modifies this`result, this`finished, this`hasResult, iterator_
      modifies {handler} + handler.Memory()
      ensures iterator_.Remaining() == keys[n + 1..] && iterator_.j == old(iterator_.j) + 1
      ensures handler.Valid() && handler.polls == old(handler.polls) + 1
      ensures go <==> handler.flag == null || !(handler.outside(old(handler.polls)) || old(handler.IsSet()))
      ensures matched <==> go && Matching()(keys[n])
      ensures Reports(keys, if go then n + 1 else n, had, hadFinished, was)
      ensures !(matched && shouldCallSighandler) ==> handler.IsSet() == old(handler.IsSet())
    {
      matched := false;
      var argsTuple := iterator_.Next();
      assert argsTuple == keys[n] && keys[n..][1..] == keys[n + 1..];
      go := handler.CheckNextSyncCall();
      if go {
        matched := Evaluate(argsTuple);
        if matched && shouldCallSighandler {
          handler.HandleSuccess();
        }
      }
    }

    /** The state after n calls, for a run that found the handler at the given poll and the flag set or not. */
    ghost predicate RanSoFar(keys: seq<nat>, n: nat, handler: Interrupter, stopped: nat -> bool, poll: nat, set0: bool)
      reads this, handler, handler.Memory()
    {
      n <= |keys| && handler.polls == poll + n && handler.IsSet() == set0
      && Going(n, keys, Matching(), stopped, shouldCallSighandler)
    }

    /** The generator has all but the first n keys to come. */
    ghost predicate ToCome(keys: seq<nat>, n: nat)
      reads iterator_
    {
      n <= |keys| && iterator_.Remaining() == keys[n..]
    }

    method MoreKeys(ghost keys: seq<nat>, ghost n: nat) returns (more: bool)
      requires ToCome(keys, n)
      ensures more <==> n < |keys|
    {
      more := iterator_.HasNext();
    }

    /** One turn of the loop. */
    method RunKey(handler: Interrupter, ghost keys: seq<nat>, ghost n: nat, ghost stopped: nat -> bool, ghost poll: nat,
                  ghost set0: bool, ghost had: bool, ghost hadFinished: bool, ghost was: Option<R>)
      returns (go: bool, ended: bool)
      requires handler.Valid() && RanSoFar(keys, n, handler, stopped, poll, set0) && n < |keys|
      requires ToCome(keys, n) && Reports(keys, n, had, hadFinished, was)
      requires forall k: nat :: stopped(k) == (set0 || (handler.flag != null && handler.outside(poll + k)))
      requires handler.flag == null ==> !set0
      modifies this`result, this`finished, this`hasResult, iterator_
      modifies {handler} + handler.Memory()
      ensures handler.Valid() && ToCome(keys, n + 1) && iterator_.j == old(iterator_.j) + 1
      ensures Reports(keys, if go then n + 1 else n, had, hadFinished, was)
      ensures !go || ended ==> StopsAfter(if go then n + 1 else n, keys, Matching(), stopped, shouldCallSighandler)
      ensures go && !ended ==> RanSoFar(keys, n + 1, handler, stopped, poll, set0)
    {
      var matched;
      go, matched := TryNext(handler, keys, n, had, hadFinished, was);
      ended := matched && shouldCallSighandler;
      GoingEnds(n, keys, Matching(), stopped, shouldCallSighandler);
    }

    method RunKeys(handler: Interrupter, ghost keys: seq<nat>, ghost stopped: nat -> bool) returns (ghost n: nat)
      requires handler.Valid() && keys == iterator_.Remaining()
      requires forall k: nat ::
        stopped(k) == (handler.IsSet() || (handler.flag != null && handler.outside(handler.polls + k)))
      modifies this`result, this`finished, this`hasResult, iterator_
      modifies {handler} + handler.Memory()
      ensures n <= |keys| && StopsAfter(n, keys, Matching(), stopped, shouldCallSighandler)
      ensures Reports(keys, n, old(hasResult), old(finished), old(result))
      ensures old(iterator_.j) + n <= iterator_.j <= old(iterator_.j) + n + 1
    {
      n := 0;
      ghost var poll, set0, had, hadFinished, was := handler.polls, handler.IsSet(), hasResult, finished, result;
      var more := MoreKeys(keys, n);
      while more
        invariant handler.Valid() && RanSoFar(keys, n, handler, stopped, poll, set0)
        invariant ToCome(keys, n) && (more <==> n < |keys|)
        invariant Reports(keys, n, had, hadFinished, was)
        invariant iterator_.j == old(iterator_.j) + n
        decreases |keys| - n
      {
        var go, ended := RunKey(handler, keys, n, stopped, poll, set0, had, hadFinished, was);
        if go {
          n := n + 1;
        }
        if !go || ended {
          return;
        }
        more := MoreKeys(keys, n);
      }
      GoingEnds(n, keys, Matching(), stopped, shouldCallSighandler);
    }
  }
}
