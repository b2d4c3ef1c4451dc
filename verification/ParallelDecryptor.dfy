/** The key search: the work of each worker, prepared eagerly as lists of calls or lazily as generators. */
module ParallelDecryptor {
  import opened Words
  import opened HFunction
  import opened Codec
  import opened WorkSplit
  import opened Callables
  import opened RunSpec

  /** The result for a key, which is an unsigned 32-bit number. */
  function ResultFor(t: Boxes, encrypted: seq<byte>): nat -> DecryptionResult {
    (key: nat) => var k := key % UINT32_SIZE; DecryptionResult(Decrypted(t, k, encrypted), k)
  }

  lemma ResultIs(t: Boxes, key: nat, encrypted: seq<byte>)
    requires key < UINT32_SIZE
    ensures ResultFor(t, encrypted)(key) == DecryptionResult(Decrypted(t, key, encrypted), key)
  {
    assert key % UINT32_SIZE == key;
  }

  method DecryptWithKey(t: Boxes, key: nat, encrypted: seq<byte>) returns (result: DecryptionResult)
    requires key < UINT32_SIZE && |encrypted| < INT_LIMIT && |encrypted| % 16 == 0
    ensures result == ResultFor(t, encrypted)(key)
    ensures result.text == Decrypted(t, key, encrypted) && result.key == key
  {
    ResultIs(t, key, encrypted);
    var text := Codec.Decrypt(t, key, encrypted);
    result := DecryptionResult(text, key);
  }

  function Success(expected: seq<byte>): DecryptionResult -> bool {
    (result: DecryptionResult) => result.text == expected
  }

  type EagerWork = MultipleCallable<nat, DecryptionResult>
  type LazyWork = MapCallable<DecryptionResult>

  /** A list of fresh calls, one for each of the keys, in order. */
  ghost predicate Calls(work: EagerWork, keys: seq<nat>, f: nat -> DecryptionResult, check: DecryptionResult -> bool,
                        show: DecryptionResult -> string)
    reads work, work.callables
  {
    work.Valid() && !work.HasResult() && |work.callables| == |keys|
    && forall j :: 0 <= j < |keys| ==> IsCall(work.callables[j], keys[j], f, check, show)
  }

  ghost predicate IsCall(c: Callable<nat, DecryptionResult>, key: nat, f: nat -> DecryptionResult,
                         check: DecryptionResult -> bool, show: DecryptionResult -> string) {
    c.params == key && c.function_ == f && c.resultChecker == check && c.show == show
  }

  /** A fresh call mapped over the keys. */
  ghost predicate Maps(work: LazyWork, keys: seq<nat>, f: nat -> DecryptionResult, check: DecryptionResult -> bool)
    reads work, work.iterator_
  {
    work.iterator_.Remaining() == keys && work.function_ == f && work.resultChecker == check
    && !work.HasResult() && work.shouldCallSighandler
  }

  /** The quotient, rounded up. */
  method DivideRange(rangeSize: nat, numThreads: nat) returns (step: nat)
    requires numThreads > 0
    ensures step == Step(rangeSize, numThreads)
  {
    var quot, rem := rangeSize / numThreads, rangeSize % numThreads;
    step := quot + (if rem == 0 then 0 else 1);
  }

  method PrepareFunctions(t: Boxes, rangeBegin: nat, rangeEnd: nat, numThreads: nat, expected: seq<byte>,
                          encrypted: seq<byte>, show: DecryptionResult -> string)
    returns (vec: seq<EagerWork>)
    requires rangeBegin <= rangeEnd < UINT32_SIZE && numThreads > 0 && rangeEnd - rangeBegin + numThreads < INT_LIMIT
    ensures |vec| == numThreads
    ensures forall i :: 0 <= i < numThreads ==>
      Calls(vec[i], WorkerKeys(i, Step(rangeEnd - rangeBegin, numThreads), rangeEnd),
            ResultFor(t, encrypted), Success(expected), show)
  {
    var rangeSize := rangeEnd - rangeBegin;
    var step := DivideRange(rangeSize, numThreads);
    vec := PrepareWorkers(step, rangeEnd, numThreads, ResultFor(t, encrypted), Success(expected), show);
  }

  method PrepareWorkers(step: nat, rangeEnd: nat, numThreads: nat, f: nat -> DecryptionResult,
                        check: DecryptionResult -> bool, show: DecryptionResult -> string)
    returns (vec: seq<EagerWork>)
    ensures |vec| == numThreads
    ensures forall i :: 0 <= i < numThreads ==> Calls(vec[i], WorkerKeys(i, step, rangeEnd), f, check, show)
  {
    vec := [];
    for i := 0 to numThreads
      invariant |vec| == i
      invariant forall k :: 0 <= k < i ==> Calls(vec[k], WorkerKeys(k, step, rangeEnd), f, check, show)
    {
      var threadCallable := PrepareWorker(i, step, rangeEnd, f, check, show);
      vec := vec + [threadCallable];
    }
  }

  /** One worker's list of calls. */
  method PrepareWorker(i: nat, step: nat, rangeEnd: nat, f: nat -> DecryptionResult, check: DecryptionResult -> bool,
                       show: DecryptionResult -> string)
    returns (threadCallable: EagerWork)
    ensures fresh(threadCallable) && Calls(threadCallable, WorkerKeys(i, step, rangeEnd), f, check, show)
  {
    threadCallable := new MultipleCallable<nat, DecryptionResult>();
    WorkerKeysAt(i, step, rangeEnd);
    var j := 0;
    while j <= step
      invariant j <= KeyCount(i, step, rangeEnd)
      invariant fresh(threadCallable) && fresh(threadCallable.callables)
      invariant Calls(threadCallable, WorkerKeys(i, step, rangeEnd)[..j], f, check, show)
      decreases step + 1 - j
    {
      var keyValue := i * step + j;
      if keyValue > rangeEnd {
        break;
      }
      var toCall := new Callable<nat, DecryptionResult>(check, f, keyValue, show);
      threadCallable.AddSingleCallable(toCall);
      j := j + 1;
    }
  }

  method PrepareMappedFunctions(t: Boxes, rangeBegin: nat, rangeEnd: nat, numThreads: nat, expected: seq<byte>,
                                encrypted: seq<byte>)
    returns (output: seq<LazyWork>)
    requires rangeBegin <= rangeEnd < UINT32_SIZE && numThreads > 0 && rangeEnd - rangeBegin + numThreads < INT_LIMIT
    ensures |output| == numThreads
    ensures forall i :: 0 <= i < numThreads ==>
      Maps(output[i], WorkerKeys(i, Step(rangeEnd - rangeBegin, numThreads), rangeEnd),
           ResultFor(t, encrypted), Success(expected))
  {
    var rangeSize := rangeEnd - rangeBegin;
    var step := DivideRange(rangeSize, numThreads);
    output := PrepareMappedWorkers(step, rangeEnd, numThreads, ResultFor(t, encrypted), Success(expected));
  }

  method PrepareMappedWorkers(step: nat, rangeEnd: nat, numThreads: nat, f: nat -> DecryptionResult,
                              check: DecryptionResult -> bool)
    returns (output: seq<LazyWork>)
    ensures |output| == numThreads
    ensures forall i :: 0 <= i < numThreads ==> Maps(output[i], WorkerKeys(i, step, rangeEnd), f, check)
  {
    output := [];
    for i := 0 to numThreads
      invariant |output| == i
      invariant forall k :: 0 <= k < i ==> Maps(output[k], WorkerKeys(k, step, rangeEnd), f, check)
    {
      var sequence := new DecryptorSequence(i, step, rangeEnd);
      var call := new MapCallable<DecryptionResult>(check, f, sequence);
      output := output + [call];
    }
  }

  /** The lazy work takes a key for a match exactly if the key decrypts to the expected text, and reports that key. */
  lemma LazyWorkMatches(work: LazyWork, keys: seq<nat>, t: Boxes, encrypted: seq<byte>, expected: seq<byte>, key: nat)
    requires Maps(work, keys, ResultFor(t, encrypted), Success(expected)) && key < UINT32_SIZE
    ensures work.Matching()(key) <==> Decrypted(t, key, encrypted) == expected
    ensures work.function_(key) == DecryptionResult(Decrypted(t, key, encrypted), key)
  {
    ResultIs(t, key, encrypted);
  }

  /** So does the j-th call of the eager work with its key. */
  lemma EagerWorkMatches(work: EagerWork, keys: seq<nat>, t: Boxes, encrypted: seq<byte>, expected: seq<byte>,
                         show: DecryptionResult -> string, j: nat)
    requires Calls(work, keys, ResultFor(t, encrypted), Success(expected), show)
    requires j < |keys| && keys[j] < UINT32_SIZE
    ensures var call := work.callables[j];
      (work.Matching()(call) <==> Decrypted(t, keys[j], encrypted) == expected)
      && call.function_(call.params) == DecryptionResult(Decrypted(t, keys[j], encrypted), keys[j])
  {
    ResultIs(t, keys[j], encrypted);
    assert IsCall(work.callables[j], keys[j], ResultFor(t, encrypted), Success(expected), show);
  }

  /** Without outside stops the two forms of the same work report a match alike. */
  lemma EagerAgreesWithLazy(eager: EagerWork, lazy: LazyWork, keys: seq<nat>, f: nat -> DecryptionResult,
                            check: DecryptionResult -> bool, show: DecryptionResult -> string,
                            n: nat, m: nat, endsEager: bool,
                            stopped: nat -> bool, stoppedLazy: nat -> bool)
    requires Calls(eager, keys, f, check, show) && Maps(lazy, keys, f, check)
    requires StopsAfter(n, eager.callables, eager.Matching(), stopped, endsEager)
    requires forall k: nat :: !stopped(k)
    requires StopsAfter(m, keys, lazy.Matching(), stoppedLazy, true)
    requires forall k: nat :: !stoppedLazy(k)
    ensures LastMatch(eager.callables, n, eager.Matching()).Some? <==> LastMatch(keys, m, lazy.Matching()).Some?
    ensures LastMatch(keys, m, lazy.Matching()).Some? <==> exists k :: 0 <= k < |keys| && check(f(keys[k]))
  {
    UnstoppedRunsAgree(n, eager.callables, eager.Matching(), stopped, endsEager,
                       m, keys, lazy.Matching(), stoppedLazy, true);
    UnstoppedRunFinds(m, keys, lazy.Matching(), stoppedLazy, true);
  }
}
