/** The recursive creation of one process for each callable, and the waiting for them. */
module Forking {
  import opened Counting

  const ULONG_SIZE: nat := 0x1_0000_0000_0000_0000

  /** Guard against too many processes. */
  const LIMIT: nat := 1000

  /** What a fork returns to a process: an error, zero in the child, and the child's number in the parent. */
  datatype ForkResult = Failed | InChild | InParent

  /** How a process leaves the recursion: back to its caller, or by exiting. */
  datatype Ending = Returns | Exits

  /**
   * The path of one process through the recursion, given what each fork returns to it: the callables it
   * runs itself, and the indices of the forks that succeeded on the path.
   */
  method Forker(nprocesses: nat, fork: nat -> ForkResult) returns (ran: seq<nat>, forked: seq<nat>, ending: Ending)
    ensures forked == Forked(nprocesses, fork)
    ensures ran == match Birth(nprocesses, fork) case Child(index) => [index] case Parent => []
    ensures ending == if Birth(nprocesses, fork).Child? then Exits else Returns
  {
    ran, forked, ending := [], [], Returns;
    var pid := fork(nprocesses);
    if pid == Failed {
    } else if pid == InChild {
      ran, forked, ending := [nprocesses], [nprocesses], Exits;
    } else if nprocesses != 0 {
      ran, forked, ending := Forker(nprocesses - 1, fork);
      forked := [nprocesses] + forked;
    } else {
      forked := [nprocesses];
    }
  }

  /** The forks on the path from index k down. */
  function Forked(k: nat, fork: nat -> ForkResult): seq<nat> {
    match fork(k)
    case Failed => []
    case InChild => [k]
    case InParent => [k] + (if k == 0 then [] else Forked(k - 1, fork))
  }

  datatype Process = Parent | Child(index: nat)

  /** Which process it is that takes a path. */
  function Birth(k: nat, fork: nat -> ForkResult): Process {
    match fork(k)
    case Failed => Parent
    case InChild => Child(k)
    case InParent => if k == 0 then Parent else Birth(k - 1, fork)
  }

  /** What the forks return to the original process when some of them fail. */
  function ParentView(fails: nat -> bool): nat -> ForkResult {
    (k: nat) => if fails(k) then Failed else InParent
  }

  /** What they return to the child with the given index, which shares the parent's path up to its birth. */
  function ChildView(fails: nat -> bool, index: nat): nat -> ForkResult {
    (k: nat) => if fails(k) then Failed else if k == index then InChild else InParent
  }

  /** The lowest index from k down before one whose fork fails. */
  function Lowest(k: nat, fails: nat -> bool): (low: nat)
    ensures low <= k + 1 && (low > 0 ==> fails(low - 1))
    ensures forall j: nat :: low <= j <= k ==> !fails(j)
  {
    if fails(k) then k + 1 else if k == 0 then 0 else Lowest(k - 1, fails)
  }

  /** The parent forks exactly the indices above the highest failing one, downwards, and runs nothing. */
  lemma {:induction false} ParentForks(k: nat, fails: nat -> bool)
    ensures var forked := Forked(k, ParentView(fails));
      |forked| == k + 1 - Lowest(k, fails) && forall i :: 0 <= i < |forked| ==> forked[i] == k - i
    ensures Birth(k, ParentView(fails)) == Parent
  {
    if !fails(k) && k > 0 {
      ParentForks(k - 1, fails);
    }
  }

  /** A child that is born forks no more: its path is the parent's up to its own index, which is all it runs. */
  lemma {:induction false} ChildRunsOwnIndex(k: nat, fails: nat -> bool, index: nat)
    requires Lowest(k, fails) <= index <= k
    ensures Birth(k, ChildView(fails, index)) == Child(index)
    ensures |Forked(k, ParentView(fails))| > k - index
    ensures Forked(k, ChildView(fails, index)) == Forked(k, ParentView(fails))[..k - index + 1]
  {
    ParentForks(k, fails);
    assert !fails(k);
    if index < k {
      ChildRunsOwnIndex(k - 1, fails, index);
      var child, parent := Forked(k - 1, ChildView(fails, index)), Forked(k - 1, ParentView(fails));
      assert ([k] + parent)[..k - index + 1] == [k] + parent[..k - index];
    }
  }

  /** The original process: forks, then waits once for every entry of the list. */
  method Run(count: nat, fork: nat -> ForkResult) returns (ran: seq<nat>, forked: seq<nat>, waits: nat, ending: Ending)
    requires count < ULONG_SIZE
    ensures 0 < count <= 1000 ==> forked == Forked(count - 1, fork)
    ensures 0 < count <= 1000 ==> ran == match Birth(count - 1, fork) case Child(index) => [index] case Parent => []
    ensures !(0 < count <= 1000) ==> ran == [] && forked == [] && waits == 0 && ending == Returns
    ensures 0 < count <= 1000 && Birth(count - 1, fork) == Parent ==> waits == count && ending == Returns
    ensures 0 < count <= 1000 && Birth(count - 1, fork).Child? ==> waits == 0 && ending == Exits
  {
    ran, forked, waits, ending := [], [], 0, Returns;
    var size := (count + ULONG_SIZE - 1) % ULONG_SIZE;
    if size < LIMIT {
      ran, forked, ending := Forker(size, fork);
      if ending == Returns {
        var i := count;
        while i > 0
          invariant 0 <= i <= count && waits == count - i
        {
          waits := waits + 1;
          i := i - 1;
        }
      }
    }
  }

  /**
   * The children are the indices from the lowest one up, one for each, all of them exactly if no fork fails.
   * The parent waits as often as the list is long, so only then once for each child.
   */
  lemma ChildrenAndWaits(count: nat, fails: nat -> bool)
    requires 0 < count <= 1000
    ensures var forked, low := Forked(count - 1, ParentView(fails)), Lowest(count - 1, fails);
      (forall c: nat :: Count(forked, c) == if low <= c < count then 1 else 0)
      && (|forked| == count <==> forall j: nat :: j < count ==> !fails(j))
  {
    var forked, low := Forked(count - 1, ParentView(fails)), Lowest(count - 1, fails);
    ParentForks(count - 1, fails);
    forall c: nat
      ensures Count(forked, c) == if low <= c < count then 1 else 0
    {
      DownwardCount(forked, count, low, c);
    }
  }

  lemma {:induction false} DownwardCount(list: seq<nat>, count: nat, low: nat, c: nat)
    requires low <= count && |list| == count - low && forall i :: 0 <= i < |list| ==> list[i] == count - 1 - i
    ensures Count(list, c) == if low <= c < count then 1 else 0
  {
    if list != [] {
      DownwardCount(list[1..], count - 1, low, c);
      assert list == [count - 1] + list[1..];
    }
  }
}
