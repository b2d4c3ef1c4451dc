/** The distribution of the callables over the ranks of an MPI job. */
module Striding {
  import opened Counting

  /** Every size-th index from the given one on, below count. */
  function Strided(first: nat, size: nat, count: nat): seq<nat>
    requires size > 0
    decreases count - first
  {
    if first >= count then [] else [first] + Strided(first + size, size, count)
  }

  /** What one rank runs, in order: the loop over all ranks does its work at the rank's own turn only. */
  method Run(rank: nat, size: nat, count: nat) returns (ran: seq<nat>)
    requires rank < size
    ensures ran == Strided(rank, size, count)
  {
    ran := [];
    for i := 0 to size
      invariant ran == if rank < i then Strided(rank, size, count) else []
    {
      if rank == i {
        ran := RunOwn(i, size, count);
      }
    }
  }

  method RunOwn(first: nat, size: nat, count: nat) returns (ran: seq<nat>)
    requires size > 0
    ensures ran == Strided(first, size, count)
  {
    ran := [];
    var counter := first;
    while counter < count
      invariant ran + Strided(counter, size, count) == Strided(first, size, count)
    {
      assert ran + ([counter] + Strided(counter + size, size, count))
          == (ran + [counter]) + Strided(counter + size, size, count);
      ran := ran + [counter];
      counter := counter + size;
    }
  }

  lemma {:induction false} StridedLength(first: nat, size: nat, count: nat)
    requires size > 0
    ensures |Strided(first, size, count)| == if first >= count then 0 else (count - first - 1) / size + 1
    decreases count - first
  {
    if first < count {
      StridedLength(first + size, size, count);
      if first + size < count {
        DivStep(count - first - size - 1, size);
      } else {
        DivUnique(count - first - 1, size, 0, count - first - 1);
      }
    }
  }

  /** The k-th index a rank runs: they are in ascending order, size apart. */
  lemma {:induction false} StridedAt(first: nat, size: nat, count: nat, k: nat)
    requires size > 0 && k < |Strided(first, size, count)|
    ensures Strided(first, size, count)[k] == first + k * size
    decreases k
  {
    if k > 0 {
      StridedAt(first + size, size, count, k - 1);
      assert first + size + (k - 1) * size == first + k * size;
    }
  }

  lemma DivStep(a: nat, size: nat)
    requires size > 0
    ensures (a + size) / size == a / size + 1
  {
    var q, r := a / size, a % size;
    assert a + size == size * (q + 1) + r;
    DivUnique(a + size, size, q + 1, r);
  }

  lemma DivUnique(a: nat, size: nat, q: nat, r: nat)
    requires a == size * q + r && r < size
    ensures a / size == q && a % size == r
  {
    var q', r' := a / size, a % size;
    assert a == size * q' + r';
    assert size * (q - q') == r' - r;
    MulPositive(size, q - q');
    MulPositive(size, q' - q);
  }

  lemma MulPositive(size: nat, d: int)
    ensures d >= 1 ==> size * d >= size
  {
  }

  lemma StridedCount(first: nat, size: nat, count: nat, k: nat)
    requires size > 0 && first < count
    ensures Count(Strided(first, size, count), k)
         == Count(Strided(first + size, size, count), k) + if k == first then 1 else 0
  {
    assert ([first] + Strided(first + size, size, count))[1..] == Strided(first + size, size, count);
  }

  lemma {:induction false} NothingBelow(first: nat, size: nat, count: nat, k: nat)
    requires size > 0 && k < first
    ensures Count(Strided(first, size, count), k) == 0
    decreases count - first
  {
    if first < count {
      StridedCount(first, size, count, k);
      NothingBelow(first + size, size, count, k);
    }
  }

  lemma {:induction false} HoldsOnce(first: nat, size: nat, count: nat, q: nat)
    requires size > 0 && first + q * size < count
    ensures Count(Strided(first, size, count), first + q * size) == 1
    decreases q
  {
    StridedCount(first, size, count, first + q * size);
    if q == 0 {
      NothingBelow(first + size, size, count, first);
    } else {
      assert first + size + (q - 1) * size == first + q * size;
      HoldsOnce(first + size, size, count, q - 1);
    }
  }

  lemma {:induction false} HoldsNoOther(first: nat, size: nat, count: nat, k: nat)
    requires size > 0 && (k >= count || forall q: nat :: k != first + q * size)
    ensures Count(Strided(first, size, count), k) == 0
    decreases count - first
  {
    if first < count {
      StridedCount(first, size, count, k);
      assert k < count ==> k != first + 0 * size;
      forall q: nat | k < count
        ensures k != first + size + q * size
      {
        assert first + (q + 1) * size == first + size + q * size;
      }
      HoldsNoOther(first + size, size, count, k);
    }
  }

  /** A rank runs an index once if it is the rank the index belongs to, and never otherwise. */
  lemma RankOf(rank: nat, size: nat, count: nat, k: nat)
    requires rank < size
    ensures Count(Strided(rank, size, count), k) == if k < count && k % size == rank then 1 else 0
  {
    if k < count && k % size == rank {
      assert k == rank + k / size * size;
      HoldsOnce(rank, size, count, k / size);
    } else {
      forall q: nat | k < count
        ensures k != rank + q * size
      {
        if k == rank + q * size {
          DivUnique(k, size, q, rank);
        }
      }
      HoldsNoOther(rank, size, count, k);
    }
  }

  /** What the first ranks run, taken together. */
  function Together(ranks: nat, size: nat, count: nat): seq<nat>
    requires ranks <= size && size > 0
  {
    if ranks == 0 then [] else Together(ranks - 1, size, count) + Strided(ranks - 1, size, count)
  }

  lemma {:induction false} TogetherHolds(ranks: nat, size: nat, count: nat, k: nat)
    requires ranks <= size && size > 0
    ensures Count(Together(ranks, size, count), k) == if k < count && k % size < ranks then 1 else 0
  {
    if ranks > 0 {
      TogetherHolds(ranks - 1, size, count, k);
      RankOf(ranks - 1, size, count, k);
      var others, own := Together(ranks - 1, size, count), Strided(ranks - 1, size, count);
      CountAppend(others, own, k);
    }
  }

  /** All ranks together run every index exactly once. */
  lemma RanksPartition(size: nat, count: nat)
    requires size > 0
    ensures forall k: nat :: Count(Together(size, size, count), k) == if k < count then 1 else 0
  {
    forall k: nat
      ensures Count(Together(size, size, count), k) == if k < count then 1 else 0
    {
      TogetherHolds(size, size, count, k);
    }
  }

  lemma DivMonotone(a: nat, b: nat, size: nat)
    requires a <= b && size > 0
    ensures a / size <= b / size
  {
    var p, q := a / size, b / size;
    assert a == size * p + a % size && b == size * q + b % size;
    MulPositive(size, p - q);
    assert size * (p - q) == size * p - size * q;
  }

  /** The loads of two ranks differ by at most one, and a lower rank never has less to do. */
  lemma RanksBalance(rank: nat, rank': nat, size: nat, count: nat)
    requires rank <= rank' < size
    ensures var load, load' := |Strided(rank, size, count)|, |Strided(rank', size, count)|;
      load' <= load <= load' + 1
  {
    StridedLength(rank, size, count);
    StridedLength(rank', size, count);
    if rank' < count {
      DivMonotone(count - rank' - 1, count - rank - 1, size);
      DivMonotone(count - rank - 1, count - rank' - 1 + size, size);
      DivStep(count - rank' - 1, size);
    } else if rank < count {
      DivUnique(count - rank - 1, size, 0, count - rank - 1);
    }
  }
}
