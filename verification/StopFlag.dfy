/** The stop message in shared memory, as one process sees it between two steps of the others. */
module StopFlag {
  import opened Words
  import opened NulStrings

  /** "finished" */
  const SUCCESS: seq<byte> := [0x66, 0x69, 0x6E, 0x69, 0x73, 0x68, 0x65, 0x64]

  /** The size of a character pointer, which is how many bytes one write copies. */
  const WRITE_SIZE := 8

  /** A mapping of eight bytes is a whole page, zero-filled. */
  const PAGE := 4096

  lemma SuccessIsFinished()
    ensures |SUCCESS| == |"finished"| && forall k :: 0 <= k < |SUCCESS| ==> SUCCESS[k] as int == "finished"[k] as int
  {
  }

  lemma SuccessBytes(k: nat)
    requires k < 8
    ensures |SUCCESS| == 8 && SUCCESS[k] != 0
  {
  }

  /** What the page reads as after a write: as much of the string as the copy carried. */
  lemma {:induction false} WrittenPageReads(page: seq<byte>, str: seq<byte>)
    requires |page| == PAGE && |str| + 1 >= WRITE_SIZE && NulFree(str)
    requires page[..WRITE_SIZE] == (str + [0])[..WRITE_SIZE]
    requires forall k :: WRITE_SIZE <= k < PAGE ==> page[k] == 0
    ensures UpToNul(page) == if |str| < WRITE_SIZE then str else str[..WRITE_SIZE]
  {
    var carried := if |str| < WRITE_SIZE then str else str[..WRITE_SIZE];
    assert page[..|carried|] == carried;
    assert page == carried + page[|carried|..];
    assert page[|carried|] == 0;
    UpToNulOf(carried, page[|carried|..]);
  }

  class SharedFlag {
    const mem: array<byte>

    /** Only the first eight bytes are ever written. */
    ghost predicate Valid()
      reads mem
    {
      mem.Length == PAGE && forall k :: WRITE_SIZE <= k < PAGE ==> mem[k] == 0
    }

    /** The message the page holds. */
    ghost function Message(): seq<byte>
      reads mem
    {
      UpToNul(mem[..])
    }

    constructor ()
      ensures Valid() && Message() == [] && fresh(mem)
    {
      mem := new byte[PAGE](_ => 0);
    }

    /** Measures the string, then copies it. */
    method ReadMsg() returns (msg: seq<byte>)
      requires Valid()
      ensures msg == Message() && |msg| <= WRITE_SIZE
    {
      var len := 0;
      while mem[len] != 0
        invariant len <= WRITE_SIZE && NulFree(mem[..len])
        decreases WRITE_SIZE - len
      {
        len := len + 1;
      }
      msg := [];
      for k := 0 to len
        invariant msg == mem[..k]
      {
        msg := msg + [mem[k]];
      }
      UpToNulOf(mem[..len], mem[len..]);
      assert mem[..] == mem[..len] + mem[len..];
    }

    /** Copies the first eight bytes of the string with its terminating NUL, whatever its length. */
    method WriteMsg(str: seq<byte>)
      requires Valid() && |str| + 1 >= WRITE_SIZE
      modifies mem
      ensures Valid() && mem[..WRITE_SIZE] == (str + [0])[..WRITE_SIZE]
      ensures NulFree(str) ==> Message() == if |str| < WRITE_SIZE then str else str[..WRITE_SIZE]
    {
      var cStr := str + [0];
      for k := 0 to WRITE_SIZE
        invariant Valid() && mem[..k] == cStr[..k]
      {
        mem[k] := cStr[k];
      }
      if NulFree(str) {
        WrittenPageReads(mem[..], str);
      }
    }

    method HandleSuccess()
      requires Valid()
      modifies mem
      ensures Valid() && Message() == SUCCESS
    {
      WriteMsg(SUCCESS);
    }

    /** Whether to go on. */
    method CheckNextSyncCall() returns (go: bool)
      requires Valid()
      ensures go <==> Message() != SUCCESS
    {
      var msg := ReadMsg();
      go := msg != SUCCESS;
    }
  }
}
