/** How a key range is split over the workers, and the generator of one worker's keys. */
module WorkSplit {
  import opened Words

  /** A decrypted string and the key it was decrypted with. */
  datatype DecryptionResult = DecryptionResult(text: seq<byte>, key: nat)

  /** The keys per worker: the range size over the number of workers, rounded up. */
  function Step(rangeSize: nat, n: nat): nat
    requires n > 0
  {
    rangeSize / n + (if rangeSize % n == 0 then 0 else 1)
  }

  /** How many keys worker i runs. */
  function KeyCount(i: nat, step: nat, rangeEnd: nat): nat {
    if i * step > rangeEnd then 0 else if rangeEnd - i * step < step then rangeEnd - i * step + 1 else step + 1
  }

  /** The keys of worker i from its j-th on: upwards, up to and including (i + 1) * step, within the range. */
  function KeysFrom(i: nat, step: nat, rangeEnd: nat, j: nat): seq<nat>
    decreases step + 1 - j
  {
    if i * step + j > rangeEnd || j > step then [] else [i * step + j] + KeysFrom(i, step, rangeEnd, j + 1)
  }

  function WorkerKeys(i: nat, step: nat, rangeEnd: nat): seq<nat> { KeysFrom(i, step, rangeEnd, 0) }

  lemma {:induction false} KeysFromAt(i: nat, step: nat, rangeEnd: nat, j: nat)
    requires j <= KeyCount(i, step, rangeEnd)
    ensures |KeysFrom(i, step, rangeEnd, j)| == KeyCount(i, step, rangeEnd) - j
    ensures forall k :: 0 <= k < KeyCount(i, step, rangeEnd) - j ==>
      KeysFrom(i, step, rangeEnd, j)[k] == i * step + j + k
    decreases step + 1 - j
  {
    if j < KeyCount(i, step, rangeEnd) {
      KeysFromAt(i, step, rangeEnd, j + 1);
    }
  }

  /** The keys of a worker are its count of consecutive numbers. */
  lemma WorkerKeysAt(i: nat, step: nat, rangeEnd: nat)
    ensures |WorkerKeys(i, step, rangeEnd)| == KeyCount(i, step, rangeEnd)
    ensures forall j :: 0 <= j < |WorkerKeys(i, step, rangeEnd)| ==> WorkerKeys(i, step, rangeEnd)[j] == i * step + j
  {
    KeysFromAt(i, step, rangeEnd, 0);
  }

  ghost predicate Runs(i: nat, step: nat, rangeEnd: nat, k: nat) { k in WorkerKeys(i, step, rangeEnd) }

  ghost predicate SomeWorkerRuns(n: nat, step: nat, rangeEnd: nat, k: nat) {
    exists i: nat | i < n :: Runs(i, step, rangeEnd, k)
  }

  lemma RunsMeans(i: nat, step: nat, rangeEnd: nat, k: nat)
    ensures Runs(i, step, rangeEnd, k) <==> i * step <= k <= i * step + step && k <= rangeEnd
  {
    WorkerKeysAt(i, step, rangeEnd);
    if i * step <= k <= i * step + step && k <= rangeEnd {
      assert WorkerKeys(i, step, rangeEnd)[k - i * step] == k;
    }
  }

  lemma MulMonotone(a: nat, b: nat, s: nat)
    requires a <= b
    ensures a * s <= b * s
  {
  }

  lemma StepBounds(rangeSize: nat, n: nat)
    requires n > 0
    ensures rangeSize <= n * Step(rangeSize, n) < rangeSize + n
  {
    assert rangeSize == n * (rangeSize / n) + rangeSize % n;
  }

  /** Some worker runs k exactly when k is at most the range end and at most n * step. */
  lemma Coverage(n: nat, step: nat, rangeEnd: nat, k: nat)
    requires n > 0
    ensures SomeWorkerRuns(n, step, rangeEnd, k) <==> k <= rangeEnd && k <= n * step
  {
    forall i: nat | i < n && Runs(i, step, rangeEnd, k)
      ensures k <= rangeEnd && k <= n * step
    {
      RunsMeans(i, step, rangeEnd, k);
      MulMonotone(i + 1, n, step);
      assert (i + 1) * step == i * step + step;
    }
    if k <= rangeEnd && k <= n * step {
      var i := if step == 0 then 0 else if k / step < n then k / step else n - 1;
      if step > 0 {
        assert k == step * (k / step) + k % step;
        if k / step >= n {
          MulMonotone(n, k / step, step);
        }
        assert (n - 1) * step + step == n * step;
      }
      RunsMeans(i, step, rangeEnd, k);
    }
  }

  /** A range that starts at zero is covered exactly. */
  lemma CoversFromZero(n: nat, rangeEnd: nat, k: nat)
    requires n > 0
    ensures SomeWorkerRuns(n, Step(rangeEnd, n), rangeEnd, k) <==> k <= rangeEnd
  {
    Coverage(n, Step(rangeEnd, n), rangeEnd, k);
    StepBounds(rangeEnd, n);
  }

  /** Any other range is covered exactly when its end is within n steps of zero, not of its beginning. */
  lemma CoversRangeIff(n: nat, rangeBegin: nat, rangeEnd: nat)
    requires n > 0 && rangeBegin <= rangeEnd
    ensures var step := Step(rangeEnd - rangeBegin, n);
      (forall k: nat | rangeBegin <= k <= rangeEnd :: SomeWorkerRuns(n, step, rangeEnd, k)) <==> rangeEnd <= n * step
  {
    var step := Step(rangeEnd - rangeBegin, n);
    forall k: nat | rangeBegin <= k <= rangeEnd
      ensures SomeWorkerRuns(n, step, rangeEnd, k) <==> k <= n * step
    {
      Coverage(n, step, rangeEnd, k);
    }
    assert SomeWorkerRuns(n, step, rangeEnd, rangeEnd) <==> rangeEnd <= n * step;
  }

  /** A range beginning at ten of which the workers run no key at all. */
  lemma RangeBeginMissesKeys(k: nat)
    ensures 10 <= k <= 19 ==> !SomeWorkerRuns(3, Step(19 - 10, 3), 19, k)
  {
    Coverage(3, 3, 19, k);
  }

  /** Two workers share a key only when they are neighbours, and then only the boundary key. */
  lemma Overlap(i: nat, i': nat, step: nat, rangeEnd: nat, k: nat)
    requires i < i' && step > 0
    ensures Runs(i, step, rangeEnd, k) && Runs(i', step, rangeEnd, k) <==>
      i' == i + 1 && k == i' * step && k <= rangeEnd
  {
    RunsMeans(i, step, rangeEnd, k);
    RunsMeans(i', step, rangeEnd, k);
    assert (i + 1) * step == i * step + step;
    MulMonotone(i + 1, i', step);
    if i' > i + 1 {
      MulMonotone(i + 2, i', step);
      assert (i + 2) * step == i * step + step + step;
    }
  }

  /** With an empty range every worker runs key zero and no other. */
  lemma EmptyRange(n: nat, i: nat, rangeEnd: nat)
    requires n > 0
    ensures Step(0, n) == 0 && WorkerKeys(i, 0, rangeEnd) == [0]
  {
    assert i * 0 == 0;
    assert KeyCount(i, 0, rangeEnd) == 1;
    WorkerKeysAt(i, 0, rangeEnd);
  }

  /**
   * No key a worker runs reaches the range size plus the number of workers, and the one the generator computes
   * behind the last does not exceed it.
   */
  lemma KeysBounded(n: nat, rangeSize: nat, i: nat, j: nat)
    requires i < n
    ensures j <= Step(rangeSize, n) ==> i * Step(rangeSize, n) + j < rangeSize + n
    ensures j <= Step(rangeSize, n) + 1 ==> i * Step(rangeSize, n) + j <= rangeSize + n
  {
    var step := Step(rangeSize, n);
    StepBounds(rangeSize, n);
    MulMonotone(i + 1, n, step);
    assert (i + 1) * step == i * step + step;
  }

  /** One worker over a range of size one computes that key. */
  lemma KeysReachBound()
    ensures Step(1, 1) == 1 && 0 * Step(1, 1) + (Step(1, 1) + 1) == 1 + 1
  {
  }

  /** The generator of one worker's arguments. */
  class DecryptorSequence {
    const i: nat
    const step: nat
    const rangeEnd: nat
    var j: nat

    constructor (i: nat, step: nat, rangeEnd: nat)
      ensures this.i == i && this.step == step && this.rangeEnd == rangeEnd && j == 0
      ensures Remaining() == WorkerKeys(i, step, rangeEnd)
    {
      this.i, this.step, this.rangeEnd := i, step, rangeEnd;
      j := 0;
    }

    /** The keys still to come. */
    ghost function Remaining(): seq<nat>
      reads this
    {
      KeysFrom(i, step, rangeEnd, j)
    }

    /** The key that HasNext and Next compute from their fields, which are signed 32-bit numbers in the program. */
    ghost function Computed(): nat
      reads this
    {
      i * step + j
    }

    /** Drawing only keys that there are keeps what both compute within the range size plus the number of workers. */
    lemma ComputedBounded(n: nat, rangeSize: nat)
      requires i < n && step == Step(rangeSize, n) && j <= step + 1
      ensures Computed() <= rangeSize + n
    {
      KeysBounded(n, rangeSize, i, j);
    }

    method HasNext() returns (more: bool)
      ensures more <==> Remaining() != []
    {
      var key := i * step + j;
      more := key <= rangeEnd && j <= step;
    }

    method Next() returns (key: nat)
      modifies this
      ensures j == old(j) + 1 && key == old(Computed())
      ensures old(Remaining()) != [] ==> j <= step + 1
      ensures old(Remaining()) != [] ==> key == old(Remaining())[0] && Remaining() == old(Remaining())[1..]
    {
      key := i * step + j;
      j := j + 1;
    }
  }
}
