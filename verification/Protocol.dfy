/**
 * The parallel search as a transition system. Every worker runs the mapped call under the shared-memory
 * handler; a step is one action of one worker that touches at most one shared byte, in any interleaving.
 * A check first measures the message, byte by byte up to a NUL, then copies the measured bytes in any
 * order; a write copies its eight bytes in any order. Both can be overtaken half-way.
 */
module Protocol {
  import opened Words
  import opened NulStrings
  import opened StopFlag
  import opened WorkSplit
  import opened RunSpec

  /** The split of the range, the decryption under each key, and the text looked for. */
  datatype Config = Config(n: nat, step: nat, rangeEnd: nat, decrypted: nat -> seq<byte>, expected: seq<byte>)

  datatype Pc =
    | AtLoop                                     // about to ask the generator for a key
    | Measuring(len: nat)                        // looking for the end of the message
    | Copying(msg: seq<byte>, todo: set<nat>)    // copying the measured bytes, then comparing
    | Evaluating
    | Writing(todo: set<nat>)                    // copying the stop message out
    | Halted

  /** Keys drawn, calls of the function made, and the fields of the mapped call. */
  datatype Worker = Worker(j: nat, calls: nat, pc: Pc, hasResult: bool, result: Option<DecryptionResult>)

  datatype State = State(mem: seq<byte>, workers: seq<Worker>)

  /** A step of a worker; byte is the one it copies, if it copies. */
  datatype Move = Move(worker: nat, byte: nat)

  function Keys(c: Config, i: nat): seq<nat> { WorkerKeys(i, c.step, c.rangeEnd) }

  predicate Matches(c: Config, key: nat) { c.decrypted(key) == c.expected }

  const ALL: set<nat> := {0, 1, 2, 3, 4, 5, 6, 7}

  function Upto(len: nat): (u: set<nat>)
    ensures forall k: nat :: k in u <==> k < len
    ensures |u| == len
  {
    if len == 0 then {} else var u := Upto(len - 1); assert len - 1 !in u; u + {len - 1}
  }

  /** Bytes after the first eight are never written. */
  function Read(mem: seq<byte>, k: nat): byte { if k < |mem| then mem[k] else 0 }

  function Init(c: Config): State {
    State(Zeros(WRITE_SIZE), seq(c.n, _ => Worker(0, 0, AtLoop, false, None)))
  }

  predicate CanMove(w: Worker, k: nat) {
    match w.pc
    case Copying(msg, todo) => todo != {} ==> k in todo && k < |msg|
    case Writing(todo) => k in todo && k < WRITE_SIZE
    case Halted => false
    case _ => true
  }

  function Loop(c: Config, i: nat, w: Worker): Worker {
    if w.j < |Keys(c, i)| then w.(j := w.j + 1, pc := Measuring(0)) else w.(pc := Halted)
  }

  function Measure(mem: seq<byte>, w: Worker): Worker
    requires w.pc.Measuring?
  {
    var len := w.pc.len;
    w.(pc := if Read(mem, len) != 0 then Measuring(len + 1) else Copying(Zeros(len), Upto(len)))
  }

  function Copy(mem: seq<byte>, w: Worker, k: nat): Worker
    requires w.pc.Copying? && CanMove(w, k)
  {
    var msg, todo := w.pc.msg, w.pc.todo;
    if todo != {} then w.(pc := Copying(msg[k := Read(mem, k)], todo - {k}))
    else if msg != SUCCESS then w.(pc := Evaluating)
    else w.(pc := Halted)
  }

  /** Calls the function on the key drawn last. */
  function Evaluate(c: Config, i: nat, w: Worker): Worker
    requires 0 < w.j <= |Keys(c, i)|
  {
    var key := Keys(c, i)[w.j - 1];
    var result := DecryptionResult(c.decrypted(key), key);
    if result.text == c.expected
    then Worker(w.j, w.calls + 1, Writing(ALL), true, Some(result))
    else Worker(w.j, w.calls + 1, AtLoop, w.hasResult, Some(result))
  }

  function Write(w: Worker, k: nat): Worker
    requires w.pc.Writing?
  {
    var rest := w.pc.todo - {k};
    w.(pc := if rest == {} then Halted else Writing(rest))
  }

  /** The worker after a step. */
  function Act(c: Config, mem: seq<byte>, i: nat, w: Worker, k: nat): Worker
    requires CanMove(w, k) && (w.pc.Evaluating? ==> 0 < w.j <= |Keys(c, i)|)
  {
    match w.pc
    case AtLoop => Loop(c, i, w)
    case Measuring(_) => Measure(mem, w)
    case Copying(_, _) => Copy(mem, w, k)
    case Evaluating => Evaluate(c, i, w)
    case Writing(_) => Write(w, k)
  }

  /** The shared bytes after a step. */
  function Touch(mem: seq<byte>, w: Worker, k: nat): seq<byte>
    requires |mem| == WRITE_SIZE && CanMove(w, k)
  {
    if w.pc.Writing? then mem[k := SUCCESS[k]] else mem
  }

  ghost predicate Enabled(s: State, m: Move) {
    m.worker < |s.workers| && CanMove(s.workers[m.worker], m.byte)
  }

  ghost predicate AllHalted(s: State) { forall i :: 0 <= i < |s.workers| ==> s.workers[i].pc.Halted? }

  ghost predicate SomeResult(s: State) { exists i :: 0 <= i < |s.workers| && s.workers[i].hasResult }

  // The invariant.

  /** The first n keys of worker i do not match. */
  ghost predicate Passed(c: Config, i: nat, n: int) {
    n <= |Keys(c, i)| && forall j :: 0 <= j < n ==> !Matches(c, Keys(c, i)[j])
  }

  ghost predicate Written(mem: seq<byte>, k: nat) { k < |mem| && k < WRITE_SIZE && mem[k] == SUCCESS[k] }

  ghost predicate Complete(mem: seq<byte>) {
    |mem| == WRITE_SIZE && forall k: nat :: k < WRITE_SIZE ==> Written(mem, k)
  }

  ghost predicate FlagInv(mem: seq<byte>, someResult: bool) {
    |mem| == WRITE_SIZE
    && forall k :: 0 <= k < WRITE_SIZE ==> mem[k] == 0 || (mem[k] == SUCCESS[k] && someResult)
  }

  ghost predicate PcInv(c: Config, mem: seq<byte>, someResult: bool, i: nat, w: Worker) {
    match w.pc
    case AtLoop => !w.hasResult && w.calls == w.j && Passed(c, i, w.j)
    case Measuring(len) =>
      !w.hasResult && w.j == w.calls + 1 && Passed(c, i, w.calls) && len <= WRITE_SIZE
      && forall k :: 0 <= k < len ==> Written(mem, k)
    case Copying(msg, todo) =>
      !w.hasResult && w.j == w.calls + 1 && Passed(c, i, w.calls) && |msg| <= WRITE_SIZE
      && (forall k :: k in todo ==> k < |msg|)
      && (forall k :: 0 <= k < |msg| ==> Written(mem, k) && (k in todo || msg[k] == SUCCESS[k]))
    case Evaluating => !w.hasResult && w.j == w.calls + 1 && Passed(c, i, w.calls)
    case Writing(todo) =>
      w.hasResult && w.calls == w.j && todo != {}
      && (forall k :: k in todo ==> k < WRITE_SIZE)
      && (forall k :: 0 <= k < WRITE_SIZE && k !in todo ==> Written(mem, k))
    case Halted =>
      if w.hasResult then w.calls == w.j && Complete(mem)
      else Passed(c, i, w.calls) && ((w.j == w.calls == |Keys(c, i)|) || (w.j == w.calls + 1 && someResult))
  }

  /** A result is that of the last call, and the first match among the keys of its worker. */
  ghost predicate ResultInv(c: Config, i: nat, w: Worker) {
    w.calls <= w.j <= |Keys(c, i)|
    && (w.result.Some? <==> w.calls > 0)
    && (w.calls > 0 ==>
          var key := Keys(c, i)[w.calls - 1]; w.result == Some(DecryptionResult(c.decrypted(key), key)))
    && (w.hasResult ==> w.calls > 0 && Matches(c, Keys(c, i)[w.calls - 1]) && Passed(c, i, w.calls - 1))
  }

  ghost predicate WorkerInv(c: Config, mem: seq<byte>, someResult: bool, i: nat, w: Worker) {
    PcInv(c, mem, someResult, i, w) && ResultInv(c, i, w)
  }

  ghost predicate Inv(c: Config, s: State) {
    |s.workers| == c.n && FlagInv(s.mem, SomeResult(s))
    && forall i :: 0 <= i < c.n ==> WorkerInv(c, s.mem, SomeResult(s), i, s.workers[i])
  }

  lemma InitInv(c: Config)
    ensures Inv(c, Init(c))
  {
  }

  /** The state after an enabled step. */
  function Step(c: Config, s: State, m: Move): State
    requires Inv(c, s) && Enabled(s, m)
  {
    assert WorkerInv(c, s.mem, SomeResult(s), m.worker, s.workers[m.worker]);
    var w := s.workers[m.worker];
    State(Touch(s.mem, w, m.byte), s.workers[m.worker := Act(c, s.mem, m.worker, w, m.byte)])
  }

  /** Shared bytes only turn from zero into bytes of the message. */
  ghost predicate Grows(mem: seq<byte>, mem': seq<byte>) {
    |mem'| == |mem| && forall k: nat :: Written(mem, k) ==> Written(mem', k)
  }

  lemma MeasureKeeps(c: Config, mem: seq<byte>, some: bool, i: nat, w: Worker)
    requires FlagInv(mem, some) && PcInv(c, mem, some, i, w) && w.pc.Measuring?
    ensures PcInv(c, mem, some, i, Measure(mem, w))
  {
  }

  lemma CopyKeeps(c: Config, mem: seq<byte>, some: bool, i: nat, w: Worker, k: nat)
    requires FlagInv(mem, some) && PcInv(c, mem, some, i, w) && w.pc.Copying? && CanMove(w, k)
    ensures PcInv(c, mem, some, i, Copy(mem, w, k))
  {
    if w.pc.todo == {} && w.pc.msg == SUCCESS {
      assert Written(mem, 0);
      SuccessBytes(0);
    }
  }

  lemma WriteKeeps(c: Config, mem: seq<byte>, some: bool, i: nat, w: Worker, k: nat)
    requires FlagInv(mem, some) && PcInv(c, mem, some, i, w) && w.pc.Writing? && CanMove(w, k)
    ensures PcInv(c, mem[k := SUCCESS[k]], true, i, Write(w, k))
  {
    var todo, rest := w.pc.todo, w.pc.todo - {k};
    forall l | 0 <= l < WRITE_SIZE && l !in rest
      ensures Written(mem[k := SUCCESS[k]], l)
    {
      assert l == k || l !in todo;
    }
    if rest == {} {
      assert forall l: nat {:trigger Written(mem[k := SUCCESS[k]], l)} :: l !in rest;
      assert Complete(mem[k := SUCCESS[k]]);
    }
  }

  /** What a step means for the worker that makes it. */
  lemma ActKeepsPc(c: Config, mem: seq<byte>, some: bool, i: nat, w: Worker, k: nat)
    requires FlagInv(mem, some) && WorkerInv(c, mem, some, i, w) && CanMove(w, k) && (w.hasResult ==> some)
    ensures var w' := Act(c, mem, i, w, k);
      PcInv(c, Touch(mem, w, k), some || w'.hasResult, i, w')
  {
    match w.pc
    case Measuring(_) => MeasureKeeps(c, mem, some, i, w);
    case Copying(_, _) => CopyKeeps(c, mem, some, i, w, k);
    case Writing(_) => WriteKeeps(c, mem, some, i, w, k);
    case _ =>
  }

  lemma ActKeepsResult(c: Config, mem: seq<byte>, some: bool, i: nat, w: Worker, k: nat)
    requires WorkerInv(c, mem, some, i, w) && CanMove(w, k)
    ensures ResultInv(c, i, Act(c, mem, i, w, k))
    ensures w.hasResult ==> Act(c, mem, i, w, k).hasResult
  {
  }

  lemma TouchKeeps(c: Config, mem: seq<byte>, some: bool, i: nat, w: Worker, k: nat)
    requires FlagInv(mem, some) && WorkerInv(c, mem, some, i, w) && CanMove(w, k) && (w.hasResult ==> some)
    ensures FlagInv(Touch(mem, w, k), some) && Grows(mem, Touch(mem, w, k))
  {
  }

  /** What a step of one worker means for the others. */
  lemma OthersKeep(c: Config, mem: seq<byte>, mem': seq<byte>, some: bool, some': bool, i: nat, w: Worker)
    requires WorkerInv(c, mem, some, i, w) && Grows(mem, mem') && (some ==> some')
    ensures WorkerInv(c, mem', some', i, w)
  {
  }

  lemma HasResultIsSome(s: State, i: nat)
    requires i < |s.workers| && s.workers[i].hasResult
    ensures SomeResult(s)
  {
  }

  lemma StepKeepsSome(c: Config, s: State, m: Move)
    requires Inv(c, s) && Enabled(s, m)
    ensures SomeResult(Step(c, s, m)) <==> SomeResult(s) || Step(c, s, m).workers[m.worker].hasResult
  {
    var s' := Step(c, s, m);
    ActKeepsResult(c, s.mem, SomeResult(s), m.worker, s.workers[m.worker], m.byte);
    forall i: nat | i < c.n && s.workers[i].hasResult
      ensures s'.workers[i].hasResult
    {
    }
    if SomeResult(s) {
      var i :| 0 <= i < |s.workers| && s.workers[i].hasResult;
      HasResultIsSome(s', i);
    }
  }

  lemma StepKeepsInv(c: Config, s: State, m: Move)
    requires Inv(c, s) && Enabled(s, m)
    ensures Inv(c, Step(c, s, m)) && Grows(s.mem, Step(c, s, m).mem)
  {
    var s', w, some := Step(c, s, m), s.workers[m.worker], SomeResult(s);
    assert WorkerInv(c, s.mem, some, m.worker, w);
    if w.hasResult {
      HasResultIsSome(s, m.worker);
    }
    StepKeepsSome(c, s, m);
    TouchKeeps(c, s.mem, some, m.worker, w, m.byte);
    ActKeepsPc(c, s.mem, some, m.worker, w, m.byte);
    ActKeepsResult(c, s.mem, some, m.worker, w, m.byte);
    forall i | 0 <= i < c.n
      ensures WorkerInv(c, s'.mem, SomeResult(s'), i, s'.workers[i])
    {
      if i != m.worker {
        OthersKeep(c, s.mem, s'.mem, some, SomeResult(s'), i, s.workers[i]);
      }
    }
  }

  // Runs: a schedule is a sequence of enabled steps.

  ghost predicate Legal(c: Config, s: State, schedule: seq<Move>)
    requires Inv(c, s)
    decreases |schedule|
  {
    schedule != [] ==>
      Enabled(s, schedule[0]) && (StepKeepsInv(c, s, schedule[0]); Legal(c, Step(c, s, schedule[0]), schedule[1..]))
  }

  ghost function After(c: Config, s: State, schedule: seq<Move>): (s': State)
    requires Inv(c, s) && Legal(c, s, schedule)
    ensures Inv(c, s')
    decreases |schedule|
  {
    if schedule == [] then s
    else StepKeepsInv(c, s, schedule[0]); After(c, Step(c, s, schedule[0]), schedule[1..])
  }

  /** A schedule followed by another is a schedule, and leads where the two lead. */
  lemma {:induction false} AfterBoth(c: Config, s: State, pre: seq<Move>, post: seq<Move>)
    requires Inv(c, s)
    ensures Legal(c, s, pre + post) <==> Legal(c, s, pre) && Legal(c, After(c, s, pre), post)
    ensures Legal(c, s, pre + post) ==> After(c, s, pre + post) == After(c, After(c, s, pre), post)
    decreases |pre|
  {
    if pre == [] {
      assert pre + post == post;
    } else {
      assert (pre + post)[0] == pre[0] && (pre + post)[1..] == pre[1..] + post;
      if Enabled(s, pre[0]) {
        StepKeepsInv(c, s, pre[0]);
        AfterBoth(c, Step(c, s, pre[0]), pre[1..], post);
      }
    }
  }

  /** A schedule from the start. */
  ghost predicate Run(c: Config, schedule: seq<Move>) {
    InitInv(c);
    Legal(c, Init(c), schedule)
  }

  /** The state a run reaches. */
  ghost function Reached(c: Config, schedule: seq<Move>): (s: State)
    requires Run(c, schedule)
    ensures Inv(c, s)
  {
    InitInv(c);
    After(c, Init(c), schedule)
  }

  /** A run after which every worker has halted. */
  ghost predicate CompleteRun(c: Config, schedule: seq<Move>) {
    Run(c, schedule) && AllHalted(Reached(c, schedule))
  }

  /** A run goes on from the state that its beginning reached. */
  lemma RunGoesOn(c: Config, pre: seq<Move>, post: seq<Move>)
    ensures Run(c, pre + post) <==> Run(c, pre) && Legal(c, Reached(c, pre), post)
    ensures Run(c, pre + post) ==> Reached(c, pre + post) == After(c, Reached(c, pre), post)
  {
    InitInv(c);
    AfterBoth(c, Init(c), pre, post);
  }

  // Which runs there are: any worker may take the next step, and any byte left may be the next one copied.

  lemma OneMore(c: Config, schedule: seq<Move>, m: Move)
    requires Run(c, schedule)
    ensures Run(c, schedule + [m]) <==> Enabled(Reached(c, schedule), m)
    ensures Run(c, schedule + [m]) ==> Reached(c, schedule + [m]) == Step(c, Reached(c, schedule), m)
  {
    RunGoesOn(c, schedule, [m]);
    if Enabled(Reached(c, schedule), m) {
      StepKeepsInv(c, Reached(c, schedule), m);
    }
  }

  /** Whatever the others do, a worker that has not halted can take a step. */
  lemma AnyWorkerMoves(c: Config, s: State, i: nat)
    requires Inv(c, s) && i < c.n && !s.workers[i].pc.Halted?
    ensures exists k :: Enabled(s, Move(i, k))
  {
    var w := s.workers[i];
    assert WorkerInv(c, s.mem, SomeResult(s), i, w);
    var k: nat := 0;
    if w.pc.Copying? && w.pc.todo != {} {
      k :| k in w.pc.todo;
    } else if w.pc.Writing? {
      k :| k in w.pc.todo;
    }
    assert Enabled(s, Move(i, k));
  }

  /** The bytes that a worker has left to copy, from the message or to it. */
  function ToCopy(w: Worker): set<nat> {
    match w.pc
    case Copying(_, todo) => todo
    case Writing(todo) => todo
    case _ => {}
  }

  /** In every state of every run, each worker that has not halted may be the next, and copy any byte it has left. */
  lemma AnyStepMayBeNext(c: Config, schedule: seq<Move>, i: nat)
    requires Run(c, schedule) && i < c.n
    ensures var w := Reached(c, schedule).workers[i];
      (!w.pc.Halted? ==> exists k :: Run(c, schedule + [Move(i, k)]))
      && (forall k :: k in ToCopy(w) ==> Run(c, schedule + [Move(i, k)]))
  {
    var s := Reached(c, schedule);
    var w := s.workers[i];
    assert WorkerInv(c, s.mem, SomeResult(s), i, w);
    if !w.pc.Halted? {
      AnyWorkerMoves(c, s, i);
      var k :| Enabled(s, Move(i, k));
      OneMore(c, schedule, Move(i, k));
    }
    forall k | k in ToCopy(w)
      ensures Run(c, schedule + [Move(i, k)])
    {
      OneMore(c, schedule, Move(i, k));
    }
  }

  /** A step copies one byte, if it copies: to the message read so far, or from the stop message. */
  lemma StepCopiesOneByte(c: Config, s: State, i: nat, k: nat)
    requires Inv(c, s) && i < c.n && k in ToCopy(s.workers[i])
    ensures Enabled(s, Move(i, k))
    ensures var s', w := Step(c, s, Move(i, k)), s.workers[i];
      ToCopy(s'.workers[i]) == ToCopy(w) - {k}
      && (forall l :: 0 <= l < c.n && l != i ==> s'.workers[l] == s.workers[l])
      && (w.pc.Writing? ==> s'.mem == s.mem[k := SUCCESS[k]])
      && (w.pc.Copying? ==> s'.mem == s.mem && s'.workers[i].pc.Copying?
                            && s'.workers[i].pc.msg == w.pc.msg[k := s.mem[k]])
  {
    assert WorkerInv(c, s.mem, SomeResult(s), i, s.workers[i]);
  }

  // Torn writes and torn reads do happen.

  const START: Worker := Worker(0, 0, AtLoop, false, None)

  /** The page holds exactly the given bytes of the message, and all workers but the first k are at their start. */
  ghost predicate TornPage(c: Config, s: State, done: set<nat>, k: nat) {
    |s.mem| == WRITE_SIZE && |s.workers| == c.n
    && (forall l: nat :: l < WRITE_SIZE ==> s.mem[l] == if l in done then SUCCESS[l] else 0)
    && (forall l :: k <= l < c.n ==> s.workers[l] == START)
  }

  /** The first key of the first worker matches. */
  ghost predicate MatchesAtOnce(c: Config) {
    c.n > 0 && Keys(c, 0) != [] && Matches(c, Keys(c, 0)[0])
  }

  lemma Advance(c: Config, schedule: seq<Move>, m: Move) returns (longer: seq<Move>)
    requires Run(c, schedule) && Enabled(Reached(c, schedule), m)
    ensures Run(c, longer) && Reached(c, longer) == Step(c, Reached(c, schedule), m)
  {
    OneMore(c, schedule, m);
    longer := schedule + [m];
  }

  lemma FirstWorkerMatches(c: Config) returns (schedule: seq<Move>)
    requires MatchesAtOnce(c)
    ensures Run(c, schedule) && TornPage(c, Reached(c, schedule), {}, 1)
    ensures Reached(c, schedule).workers[0].pc == Writing(ALL)
  {
    schedule := [];
    assert Run(c, schedule) && Reached(c, schedule) == Init(c);
    schedule := Advance(c, schedule, Move(0, 0));
    assert Reached(c, schedule).workers[0] == Worker(1, 0, Measuring(0), false, None);
    schedule := Advance(c, schedule, Move(0, 0));
    assert Reached(c, schedule).workers[0] == Worker(1, 0, Copying([], {}), false, None);
    schedule := Advance(c, schedule, Move(0, 0));
    assert Reached(c, schedule).workers[0] == Worker(1, 0, Evaluating, false, None);
    schedule := Advance(c, schedule, Move(0, 0));
  }

  lemma OneFewer(all: set<nat>, done: set<nat>, k: nat)
    requires k in done && done <= all
    ensures (all - (done - {k})) - {k} == all - done && k in all - (done - {k})
    ensures all - done == {} <==> done == all
    ensures done - {k} != all && done - {k} <= all
  {
    assert forall x :: x in all && x !in done ==> x in all - done;
    assert done == all ==> all - done == {};
    assert all - done == {} ==> done == all;
    assert k !in done - {k};
    var rest := all - (done - {k});
    assert forall x :: x in rest - {k} <==> x in all - done;
  }

  lemma WritesOneMore(c: Config, schedule: seq<Move>, todo: set<nat>, done: set<nat>, k: nat)
    returns (longer: seq<Move>)
    requires Run(c, schedule) && c.n > 0 && TornPage(c, Reached(c, schedule), done - {k}, 1)
    requires Reached(c, schedule).workers[0].pc == Writing(todo) && k in todo && k in done && k < WRITE_SIZE
    ensures Run(c, longer) && TornPage(c, Reached(c, longer), done, 1)
    ensures Reached(c, longer).workers[0].pc == if todo - {k} == {} then Halted else Writing(todo - {k})
  {
    longer := Advance(c, schedule, Move(0, k));
  }

  /** Any bytes of the message may be on the page without the others, while their writer goes on. */
  lemma {:induction false} AnyTornWrite(c: Config, done: set<nat>) returns (schedule: seq<Move>)
    requires MatchesAtOnce(c) && done <= ALL
    ensures Run(c, schedule) && TornPage(c, Reached(c, schedule), done, 1)
    ensures Reached(c, schedule).workers[0].pc == if done == ALL then Halted else Writing(ALL - done)
    decreases |done|
  {
    if done == {} {
      schedule := FirstWorkerMatches(c);
      assert ALL - {} == ALL;
    } else {
      var k :| k in done;
      OneFewer(ALL, done, k);
      schedule := AnyTornWrite(c, done - {k});
      schedule := WritesOneMore(c, schedule, ALL - (done - {k}), done, k);
    }
  }

  lemma SecondDraws(c: Config, schedule: seq<Move>, done: set<nat>) returns (longer: seq<Move>)
    requires c.n > 1 && Keys(c, 1) != [] && Run(c, schedule) && TornPage(c, Reached(c, schedule), done, 1)
    ensures Run(c, longer) && TornPage(c, Reached(c, longer), done, 2)
    ensures Reached(c, longer).workers[1].pc == Measuring(0)
  {
    longer := Advance(c, schedule, Move(1, 0));
  }

  lemma EndsMeasuring(c: Config, schedule: seq<Move>, len: nat) returns (longer: seq<Move>)
    requires c.n > 1 && Run(c, schedule) && Read(Reached(c, schedule).mem, len) == 0
    requires Reached(c, schedule).workers[1].pc == Measuring(len)
    ensures Run(c, longer)
    ensures Reached(c, longer).workers[1].pc.Copying? && |Reached(c, longer).workers[1].pc.msg| == len
  {
    longer := Advance(c, schedule, Move(1, 0));
  }

  /** Any beginning of the message may be all that a check reads of it. */
  lemma AnyTornRead(c: Config, len: nat) returns (schedule: seq<Move>)
    requires MatchesAtOnce(c) && c.n > 1 && Keys(c, 1) != [] && len <= WRITE_SIZE
    ensures Run(c, schedule) && Reached(c, schedule).workers[1].pc == Copying(SUCCESS[..len], {})
  {
    UptoIsPart(len);
    schedule := AnyTornWrite(c, Upto(len));
    schedule := SecondDraws(c, schedule, Upto(len));
    schedule := MeasuresTo(c, schedule, Upto(len), len, 0);
    schedule := EndsMeasuring(c, schedule, len);
    schedule := CopiesAll(c, schedule, len);
  }

  lemma UptoIsPart(len: nat)
    requires len <= WRITE_SIZE
    ensures Upto(len) <= ALL
  {
  }

  lemma MeasuresOne(c: Config, schedule: seq<Move>, done: set<nat>, at: nat) returns (longer: seq<Move>)
    requires c.n > 1 && Run(c, schedule) && Read(Reached(c, schedule).mem, at) != 0
    requires TornPage(c, Reached(c, schedule), done, 2) && Reached(c, schedule).workers[1].pc == Measuring(at)
    ensures Run(c, longer) && TornPage(c, Reached(c, longer), done, 2)
    ensures Reached(c, longer).workers[1].pc == Measuring(at + 1)
  {
    longer := Advance(c, schedule, Move(1, 0));
  }

  lemma {:induction false} MeasuresTo(c: Config, schedule: seq<Move>, done: set<nat>, len: nat, at: nat)
    returns (longer: seq<Move>)
    requires c.n > 1 && at <= len <= WRITE_SIZE && Run(c, schedule) && forall l: nat :: l < len ==> l in done
    requires TornPage(c, Reached(c, schedule), done, 2) && Reached(c, schedule).workers[1].pc == Measuring(at)
    ensures Run(c, longer) && TornPage(c, Reached(c, longer), done, 2)
    ensures Reached(c, longer).workers[1].pc == Measuring(len)
    decreases len - at
  {
    longer := schedule;
    if at < len {
      SuccessBytes(at);
      longer := MeasuresOne(c, schedule, done, at);
      longer := MeasuresTo(c, longer, done, len, at + 1);
    }
  }

  lemma {:induction false} CopiesAll(c: Config, schedule: seq<Move>, len: nat) returns (longer: seq<Move>)
    requires c.n > 1 && len <= WRITE_SIZE && Run(c, schedule)
    requires Reached(c, schedule).workers[1].pc.Copying? && |Reached(c, schedule).workers[1].pc.msg| == len
    ensures Run(c, longer) && Reached(c, longer).workers[1].pc == Copying(SUCCESS[..len], {})
    decreases Reached(c, schedule).workers[1].pc.todo
  {
    var s := Reached(c, schedule);
    var pc := s.workers[1].pc;
    assert WorkerInv(c, s.mem, SomeResult(s), 1, s.workers[1]);
    longer := schedule;
    if pc.todo == {} {
      assert forall k :: 0 <= k < len ==> Written(s.mem, k) && pc.msg[k] == SUCCESS[k];
      assert pc.msg == SUCCESS[..len];
    } else {
      var k :| k in pc.todo;
      longer := Advance(c, schedule, Move(1, k));
      longer := CopiesAll(c, longer, len);
    }
  }

  // The search agrees with a sequential scan.

  /** The smallest match from k on. */
  function Scan(c: Config, k: nat): (r: Option<nat>)
    ensures r.Some? <==> exists key :: k <= key <= c.rangeEnd && Matches(c, key)
    ensures r.Some? ==> k <= r.value <= c.rangeEnd && Matches(c, r.value)
    ensures r.Some? ==> forall key :: k <= key < r.value ==> !Matches(c, key)
    decreases c.rangeEnd + 1 - k
  {
    if k > c.rangeEnd then None else if Matches(c, k) then Some(k) else Scan(c, k + 1)
  }

  /** Whatever state a run reaches, a result is the first match among the keys of its worker. */
  lemma ResultsAreFirst(c: Config, schedule: seq<Move>, i: nat)
    requires Run(c, schedule) && i < c.n
    ensures var w, f := Reached(c, schedule).workers[i], FirstMatch(Keys(c, i), (key: nat) => Matches(c, key));
      w.hasResult ==> f < |Keys(c, i)| && w.result == Some(DecryptionResult(c.expected, Keys(c, i)[f]))
  {
    var s := Reached(c, schedule);
    var w, keys := s.workers[i], Keys(c, i);
    assert WorkerInv(c, s.mem, SomeResult(s), i, w);
    var matches := (key: nat) => Matches(c, key);
    var f := FirstMatch(keys, matches);
    if w.hasResult {
      assert matches(keys[w.calls - 1]);
    }
  }

  /** At the end some worker has a result exactly if some worker's keys hold a match; if not, all were tried. */
  lemma FinalMeans(c: Config, schedule: seq<Move>)
    requires CompleteRun(c, schedule)
    ensures var s := Reached(c, schedule);
      (SomeResult(s) <==> exists k :: SomeWorkerRuns(c.n, c.step, c.rangeEnd, k) && Matches(c, k))
      && (!SomeResult(s) ==> forall i :: 0 <= i < c.n ==> s.workers[i].calls == |Keys(c, i)|)
  {
    var s := Reached(c, schedule);
    forall i: nat | i < c.n && s.workers[i].hasResult
      ensures exists k :: SomeWorkerRuns(c.n, c.step, c.rangeEnd, k) && Matches(c, k)
    {
      var w := s.workers[i];
      assert WorkerInv(c, s.mem, SomeResult(s), i, w);
      var k := Keys(c, i)[w.calls - 1];
      assert Runs(i, c.step, c.rangeEnd, k);
    }
    if !SomeResult(s) {
      forall i: nat | i < c.n
        ensures s.workers[i].calls == |Keys(c, i)| && Passed(c, i, |Keys(c, i)|)
      {
        assert WorkerInv(c, s.mem, SomeResult(s), i, s.workers[i]);
      }
      forall i: nat, k | i < c.n && Runs(i, c.step, c.rangeEnd, k)
        ensures !Matches(c, k)
      {
        assert Passed(c, i, |Keys(c, i)|);
        var j :| 0 <= j < |Keys(c, i)| && Keys(c, i)[j] == k;
      }
    }
  }

  /** Every complete run over a range from zero finds something exactly if a sequential scan of the range does. */
  lemma SearchRefinesScan(c: Config, schedule: seq<Move>)
    requires c.n > 0 && c.step == WorkSplit.Step(c.rangeEnd, c.n)
    requires CompleteRun(c, schedule)
    ensures SomeResult(Reached(c, schedule)) <==> Scan(c, 0).Some?
  {
    FinalMeans(c, schedule);
    forall k: nat
      ensures SomeWorkerRuns(c.n, c.step, c.rangeEnd, k) <==> k <= c.rangeEnd
    {
      CoversFromZero(c.n, c.rangeEnd, k);
    }
  }

  /** What a worker has found is what the scan would accept. */
  lemma ResultsAreMatches(c: Config, schedule: seq<Move>)
    requires CompleteRun(c, schedule)
    ensures forall w :: w in Reached(c, schedule).workers && w.hasResult ==>
      w.result.Some? && w.result.value.text == c.expected
      && w.result.value.key <= c.rangeEnd && Matches(c, w.result.value.key)
  {
    var s := Reached(c, schedule);
    forall i: nat | i < c.n && s.workers[i].hasResult
      ensures s.workers[i].result.Some? && s.workers[i].result.value.text == c.expected
      ensures s.workers[i].result.value.key <= c.rangeEnd && Matches(c, s.workers[i].result.value.key)
    {
      assert WorkerInv(c, s.mem, SomeResult(s), i, s.workers[i]);
      var key := s.workers[i].result.value.key;
      assert Runs(i, c.step, c.rangeEnd, key);
      RunsMeans(i, c.step, c.rangeEnd, key);
    }
  }

  /** A single worker finds what the scan finds. */
  lemma SingleWorkerRefinesScan(c: Config, schedule: seq<Move>)
    requires c.n == 1 && c.step == WorkSplit.Step(c.rangeEnd, 1) && CompleteRun(c, schedule)
    ensures Reached(c, schedule).workers[0].hasResult <==> Scan(c, 0).Some?
    ensures Scan(c, 0).Some? ==>
      Reached(c, schedule).workers[0].result == Some(DecryptionResult(c.expected, Scan(c, 0).value))
  {
    SearchRefinesScan(c, schedule);
    if SomeResult(Reached(c, schedule)) {
      SingleWorkerScans(c, Reached(c, schedule));
    }
  }

  lemma SingleWorkerScans(c: Config, s: State)
    requires c.n == 1 && c.step == WorkSplit.Step(c.rangeEnd, 1) && Inv(c, s) && s.workers[0].hasResult
    ensures Scan(c, 0).Some? && s.workers[0].result == Some(DecryptionResult(c.expected, Scan(c, 0).value))
  {
    var w := s.workers[0];
    assert WorkerInv(c, s.mem, SomeResult(s), 0, w);
    WorkerKeysAt(0, c.step, c.rangeEnd);
    StepBounds(c.rangeEnd, 1);
    var r := Scan(c, 0).value;
    assert Keys(c, 0)[w.calls - 1] == w.calls - 1;
    forall k: nat | k < w.calls - 1
      ensures !Matches(c, k)
    {
      assert Keys(c, 0)[k] == k;
    }
  }

  /** A halted worker ran as the mapped call run by itself promises, with at most one stop seen from outside. */
  lemma HaltedWorkerRan(c: Config, schedule: seq<Move>, i: nat)
    requires Run(c, schedule) && i < c.n && Reached(c, schedule).workers[i].pc.Halted?
    ensures var w, keys, matches := Reached(c, schedule).workers[i], Keys(c, i), (key: nat) => Matches(c, key);
      StopsAfter(w.calls, keys, matches, (k: nat) => w.j == w.calls + 1 && k == w.calls, true)
      && (w.hasResult <==> LastMatch(keys, w.calls, matches).Some?)
      && (w.calls > 0 ==>
            w.result == Some(DecryptionResult(c.decrypted(keys[w.calls - 1]), keys[w.calls - 1])))
      && (w.calls == 0 ==> w.result == None)
  {
    var s := Reached(c, schedule);
    var w, keys, matches := s.workers[i], Keys(c, i), (key: nat) => Matches(c, key);
    assert WorkerInv(c, s.mem, SomeResult(s), i, w);
    assert forall j :: 0 <= j < |keys| ==> matches(keys[j]) == Matches(c, keys[j]);
    LastMatchIs(keys, w.calls, matches);
  }

  // The flag.

  /** The last call of a worker was on a key of its own that matches. */
  ghost predicate FoundMatch(c: Config, i: nat, w: Worker) {
    w.hasResult && 0 < w.calls <= |Keys(c, i)| && Matches(c, Keys(c, i)[w.calls - 1])
  }

  /** In every run, a check reads the stop message only when all of it is there and some worker has found a match. */
  lemma StopOnlyAfterMatch(c: Config, schedule: seq<Move>, i: nat)
    requires Run(c, schedule) && i < c.n && Reached(c, schedule).workers[i].pc == Copying(SUCCESS, {})
    ensures Complete(Reached(c, schedule).mem)
    ensures exists j: nat | j < c.n :: FoundMatch(c, j, Reached(c, schedule).workers[j])
  {
    var s := Reached(c, schedule);
    assert WorkerInv(c, s.mem, SomeResult(s), i, s.workers[i]);
    assert Written(s.mem, 0);
    var j :| 0 <= j < c.n && s.workers[j].hasResult;
    assert WorkerInv(c, s.mem, SomeResult(s), j, s.workers[j]);
    assert FoundMatch(c, j, s.workers[j]);
  }

  /** A check that is not overtaken between measuring and comparing reads the message of the page. */
  lemma CheckReadsMessage(c: Config, schedule: seq<Move>, i: nat, msg: seq<byte>)
    requires Run(c, schedule) && i < c.n && Reached(c, schedule).workers[i].pc == Copying(msg, {})
    requires Read(Reached(c, schedule).mem, |msg|) == 0
    ensures msg == UpToNul(Reached(c, schedule).mem + Zeros(PAGE - WRITE_SIZE))
  {
    var s := Reached(c, schedule);
    assert WorkerInv(c, s.mem, SomeResult(s), i, s.workers[i]);
    var page := s.mem + Zeros(PAGE - WRITE_SIZE);
    forall k | 0 <= k < |msg|
      ensures msg[k] == page[k] && msg[k] != 0
    {
      SuccessBytes(k);
      assert Written(s.mem, k);
    }
    assert page == msg + page[|msg|..];
    UpToNulOf(msg, page[|msg|..]);
  }

  /** A handler that returned has left the whole message. */
  lemma HandledMeansComplete(c: Config, s: State, j: nat)
    requires Inv(c, s) && j < c.n && s.workers[j].hasResult && s.workers[j].pc.Halted?
    ensures Complete(s.mem)
  {
    assert WorkerInv(c, s.mem, SomeResult(s), j, s.workers[j]);
  }

  /** Bounds on the calls and draws a worker makes once the message is complete. */
  function CallsLeft(w: Worker): nat {
    if w.pc.Evaluating? || (w.pc.Copying? && |w.pc.msg| < WRITE_SIZE) then 1 else 0
  }

  function DrawsLeft(w: Worker): nat {
    if w.pc.AtLoop? then 1 else CallsLeft(w)
  }

  /** A copy of a complete message is the stop message. */
  lemma CopiedIsSuccess(c: Config, mem: seq<byte>, some: bool, i: nat, w: Worker)
    requires PcInv(c, mem, some, i, w) && w.pc.Copying? && w.pc.todo == {} && |w.pc.msg| == WRITE_SIZE
    ensures w.pc.msg == SUCCESS
  {
    assert forall k :: 0 <= k < WRITE_SIZE ==> Written(mem, k) && w.pc.msg[k] == SUCCESS[k];
  }

  lemma CompleteHasNoEnd(mem: seq<byte>, k: nat)
    requires Complete(mem) && k < WRITE_SIZE
    ensures Read(mem, k) != 0
  {
    SuccessBytes(k);
    assert Written(mem, k);
  }

  lemma MeasureBounded(mem: seq<byte>, w: Worker)
    requires Complete(mem) && w.pc.Measuring? && w.pc.len <= WRITE_SIZE
    ensures CallsLeft(Measure(mem, w)) == 0
  {
    if w.pc.len < WRITE_SIZE {
      CompleteHasNoEnd(mem, w.pc.len);
    }
  }

  lemma CopyBounded(c: Config, mem: seq<byte>, some: bool, i: nat, w: Worker, k: nat)
    requires PcInv(c, mem, some, i, w) && w.pc.Copying? && CanMove(w, k)
    ensures CallsLeft(Copy(mem, w, k)) <= CallsLeft(w)
  {
    if w.pc.todo == {} && |w.pc.msg| == WRITE_SIZE {
      CopiedIsSuccess(c, mem, some, i, w);
    }
  }

  lemma ActBounded(c: Config, mem: seq<byte>, some: bool, i: nat, w: Worker, k: nat)
    requires WorkerInv(c, mem, some, i, w) && CanMove(w, k) && Complete(mem)
    ensures var w' := Act(c, mem, i, w, k);
      w'.calls + CallsLeft(w') <= w.calls + CallsLeft(w) && w'.j + DrawsLeft(w') <= w.j + DrawsLeft(w)
  {
    match w.pc
    case Measuring(_) => MeasureBounded(mem, w);
    case Copying(_, _) => CopyBounded(c, mem, some, i, w, k);
    case _ =>
  }

  lemma {:induction false} BoundedWork(c: Config, s: State, schedule: seq<Move>, i: nat)
    requires Inv(c, s) && Legal(c, s, schedule) && Complete(s.mem) && i < c.n
    ensures var w, w' := s.workers[i], After(c, s, schedule).workers[i];
      w'.calls <= w.calls + CallsLeft(w) && w'.j <= w.j + DrawsLeft(w)
    decreases |schedule|
  {
    if schedule != [] {
      var m := schedule[0];
      var w := s.workers[m.worker];
      assert WorkerInv(c, s.mem, SomeResult(s), m.worker, w);
      ActBounded(c, s.mem, SomeResult(s), m.worker, w, m.byte);
      StepKeepsInv(c, s, m);
      BoundedWork(c, Step(c, s, m), schedule[1..], i);
    }
  }

  /**
   * Once one worker's handler has returned, in every run and however it goes on, each worker makes at most one more
   * call and one more draw.
   */
  lemma BoundedWorkAfterStop(c: Config, pre: seq<Move>, post: seq<Move>, i: nat, j: nat)
    requires Run(c, pre + post) && Run(c, pre) && i < c.n && j < c.n
    requires Reached(c, pre).workers[j].hasResult && Reached(c, pre).workers[j].pc.Halted?
    ensures var w, w' := Reached(c, pre).workers[i], Reached(c, pre + post).workers[i];
      w'.calls <= w.calls + 1 && w'.j <= w.j + 1
  {
    RunGoesOn(c, pre, post);
    HandledMeansComplete(c, Reached(c, pre), j);
    BoundedWork(c, Reached(c, pre), post, i);
  }

  /** A worker that makes no more calls. */
  predicate Doomed(w: Worker) { !w.hasResult && CallsLeft(w) == 0 }

  lemma ActStaysDoomed(c: Config, mem: seq<byte>, some: bool, i: nat, w: Worker, k: nat)
    requires WorkerInv(c, mem, some, i, w) && CanMove(w, k) && Complete(mem) && Doomed(w)
    ensures var w' := Act(c, mem, i, w, k);
      Doomed(w') && w'.calls == w.calls && w'.result == w.result
  {
    match w.pc
    case Measuring(_) => MeasureBounded(mem, w);
    case Copying(_, _) => CopyBounded(c, mem, some, i, w, k);
    case _ =>
  }

  lemma {:induction false} StaysDoomed(c: Config, s: State, schedule: seq<Move>, i: nat)
    requires Inv(c, s) && Legal(c, s, schedule) && Complete(s.mem) && i < c.n && Doomed(s.workers[i])
    ensures var w, w' := s.workers[i], After(c, s, schedule).workers[i];
      Doomed(w') && w'.calls == w.calls && w'.result == w.result
    decreases |schedule|
  {
    if schedule != [] {
      var m := schedule[0];
      var w := s.workers[m.worker];
      assert WorkerInv(c, s.mem, SomeResult(s), m.worker, w);
      if m.worker == i {
        ActStaysDoomed(c, s.mem, SomeResult(s), i, w, m.byte);
      }
      StepKeepsInv(c, s, m);
      StaysDoomed(c, Step(c, s, m), schedule[1..], i);
    }
  }

  /**
   * Once one worker's handler has returned, every check that starts later stops its worker, and so does one that is
   * still measuring: in every run, and however it goes on, that worker makes no more calls and finds nothing.
   */
  lemma LaterChecksStop(c: Config, pre: seq<Move>, post: seq<Move>, i: nat, j: nat)
    requires Run(c, pre + post) && Run(c, pre) && i < c.n && j < c.n
    ensures var w, w' := Reached(c, pre).workers[i], Reached(c, pre + post).workers[i];
      Reached(c, pre).workers[j].hasResult && Reached(c, pre).workers[j].pc.Halted?
      && (w.pc.AtLoop? || w.pc.Measuring?) ==>
        w'.calls == w.calls && !w'.hasResult && w'.result == w.result
        && (w'.pc.Halted? ==> w'.j == w'.calls + 1 || w'.j == |Keys(c, i)|)
  {
    var s := Reached(c, pre);
    var w := s.workers[i];
    RunGoesOn(c, pre, post);
    if s.workers[j].hasResult && s.workers[j].pc.Halted? && (w.pc.AtLoop? || w.pc.Measuring?) {
      HandledMeansComplete(c, s, j);
      assert WorkerInv(c, s.mem, SomeResult(s), i, w);
      StaysDoomed(c, s, post, i);
      var s' := Reached(c, pre + post);
      assert WorkerInv(c, s'.mem, SomeResult(s'), i, s'.workers[i]);
    }
  }

  /** At the end the flag holds the whole message if there is a result, and is untouched if not. */
  lemma FinalFlag(c: Config, schedule: seq<Move>)
    requires CompleteRun(c, schedule)
    ensures var s := Reached(c, schedule);
      if SomeResult(s) then Complete(s.mem) else s.mem == Zeros(WRITE_SIZE)
  {
    var s := Reached(c, schedule);
    if SomeResult(s) {
      var i :| 0 <= i < c.n && s.workers[i].hasResult;
      HandledMeansComplete(c, s, i);
    }
  }

  // Every run is finite, whatever the scheduler does.

  /** Steps left in the current turn of a worker's loop. */
  function Rank(pc: Pc): nat {
    match pc
    case AtLoop => 1
    case Measuring(len) => if len <= WRITE_SIZE then 27 - len else 0
    case Copying(_, todo) => 10 + |todo|
    case Evaluating => 9
    case Writing(todo) => |todo|
    case Halted => 0
  }

  /** A turn takes at most 27 steps. */
  function Left(c: Config, i: nat, w: Worker): nat {
    (if w.j < |Keys(c, i)| then 27 * (|Keys(c, i)| - w.j) else 0) + Rank(w.pc)
  }

  lemma AllSize()
    ensures |ALL| == 8
  {
    assert ALL == Upto(8);
  }

  lemma MeasureRankFalls(c: Config, mem: seq<byte>, some: bool, i: nat, w: Worker)
    requires FlagInv(mem, some) && PcInv(c, mem, some, i, w) && w.pc.Measuring?
    ensures Rank(Measure(mem, w).pc) < Rank(w.pc)
  {
    assert Read(mem, w.pc.len) != 0 ==> w.pc.len < WRITE_SIZE;
  }

  lemma CopyRankFalls(c: Config, mem: seq<byte>, w: Worker, k: nat)
    requires w.pc.Copying? && CanMove(w, k)
    ensures Rank(Copy(mem, w, k).pc) < Rank(w.pc)
  {
  }

  lemma WriteRankFalls(w: Worker, k: nat)
    requires w.pc.Writing? && CanMove(w, k)
    ensures Rank(Write(w, k).pc) < Rank(w.pc)
  {
    assert |w.pc.todo - {k}| == |w.pc.todo| - 1;
  }

  lemma EvaluateRankFalls(c: Config, i: nat, w: Worker)
    requires w.pc.Evaluating? && 0 < w.j <= |Keys(c, i)|
    ensures Rank(Evaluate(c, i, w).pc) < Rank(w.pc)
  {
    AllSize();
  }

  /** Within a turn the rank falls. */
  lemma RankFalls(c: Config, mem: seq<byte>, some: bool, i: nat, w: Worker, k: nat)
    requires FlagInv(mem, some) && WorkerInv(c, mem, some, i, w) && CanMove(w, k) && !w.pc.AtLoop?
    ensures var w' := Act(c, mem, i, w, k);
      w'.j == w.j && Rank(w'.pc) < Rank(w.pc)
  {
    match w.pc
    case Measuring(_) => MeasureRankFalls(c, mem, some, i, w);
    case Copying(_, _) => CopyRankFalls(c, mem, w, k);
    case Evaluating => EvaluateRankFalls(c, i, w);
    case Writing(_) => WriteRankFalls(w, k);
  }

  /** Each step of a worker uses up some of its own steps. */
  lemma ActDecreases(c: Config, mem: seq<byte>, some: bool, i: nat, w: Worker, k: nat)
    requires FlagInv(mem, some) && WorkerInv(c, mem, some, i, w) && CanMove(w, k)
    ensures Left(c, i, Act(c, mem, i, w, k)) < Left(c, i, w)
  {
    if !w.pc.AtLoop? {
      RankFalls(c, mem, some, i, w, k);
    }
  }

  /** The steps left to the workers from the i-th on. */
  ghost function TotalLeft(c: Config, s: State, i: nat): nat
    requires i <= |s.workers|
    decreases |s.workers| - i
  {
    if i == |s.workers| then 0 else Left(c, i, s.workers[i]) + TotalLeft(c, s, i + 1)
  }

  lemma {:induction false} TotalFalls(c: Config, s: State, s': State, k: nat, i: nat)
    requires i <= |s.workers| && k < |s.workers| && |s'.workers| == |s.workers|
    requires forall l | 0 <= l < |s.workers| && l != k :: s'.workers[l] == s.workers[l]
    requires Left(c, k, s'.workers[k]) < Left(c, k, s.workers[k])
    ensures TotalLeft(c, s', i) <= TotalLeft(c, s, i)
    ensures i <= k ==> TotalLeft(c, s', i) < TotalLeft(c, s, i)
    decreases |s.workers| - i
  {
    if i < |s.workers| {
      TotalFalls(c, s, s', k, i + 1);
    }
  }

  lemma TotalDecreases(c: Config, s: State, m: Move)
    requires Inv(c, s) && Enabled(s, m)
    ensures |Step(c, s, m).workers| == |s.workers|
    ensures TotalLeft(c, Step(c, s, m), 0) < TotalLeft(c, s, 0)
  {
    assert WorkerInv(c, s.mem, SomeResult(s), m.worker, s.workers[m.worker]);
    ActDecreases(c, s.mem, SomeResult(s), m.worker, s.workers[m.worker], m.byte);
    TotalFalls(c, s, Step(c, s, m), m.worker, 0);
  }

  /** A natural number falls with every step of any worker, so no schedule is longer than it. */
  lemma {:induction false} SchedulesAreFinite(c: Config, s: State, schedule: seq<Move>)
    requires Inv(c, s) && Legal(c, s, schedule)
    ensures |schedule| + TotalLeft(c, After(c, s, schedule), 0) <= TotalLeft(c, s, 0)
    decreases |schedule|
  {
    if schedule != [] {
      StepKeepsInv(c, s, schedule[0]);
      TotalDecreases(c, s, schedule[0]);
      SchedulesAreFinite(c, Step(c, s, schedule[0]), schedule[1..]);
    }
  }

  /** A run can always go on until every worker has halted. */
  lemma StuckIffHalted(c: Config, s: State)
    requires Inv(c, s)
    ensures AllHalted(s) <==> forall m :: !Enabled(s, m)
  {
    forall i: nat | i < c.n && !s.workers[i].pc.Halted?
      ensures exists m :: Enabled(s, m)
    {
      AnyWorkerMoves(c, s, i);
      var k :| Enabled(s, Move(i, k));
    }
  }

  lemma {:induction false} CompletesFrom(c: Config, s: State) returns (schedule: seq<Move>)
    requires Inv(c, s)
    ensures Legal(c, s, schedule) && AllHalted(After(c, s, schedule))
    decreases TotalLeft(c, s, 0)
  {
    StuckIffHalted(c, s);
    if AllHalted(s) {
      schedule := [];
    } else {
      var m :| Enabled(s, m);
      StepKeepsInv(c, s, m);
      TotalDecreases(c, s, m);
      var rest := CompletesFrom(c, Step(c, s, m));
      schedule := [m] + rest;
      assert schedule[1..] == rest;
    }
  }

  /** Every run can be brought to its end. */
  lemma RunsComplete(c: Config, pre: seq<Move>) returns (post: seq<Move>)
    requires Run(c, pre)
    ensures CompleteRun(c, pre + post)
  {
    post := CompletesFrom(c, Reached(c, pre));
    RunGoesOn(c, pre, post);
  }

  lemma {:induction false} InitLeft(c: Config, i: nat)
    requires Inv(c, Init(c)) && i <= c.n
    ensures TotalLeft(c, Init(c), i) <= (c.n - i) * (27 * (c.step + 1) + 1)
    decreases c.n - i
  {
    if i < c.n {
      InitLeft(c, i + 1);
      WorkerKeysAt(i, c.step, c.rangeEnd);
      var turns := 27 * (c.step + 1) + 1;
      assert Left(c, i, Init(c).workers[i]) <= turns;
      assert (c.n - i) * turns == turns + (c.n - (i + 1)) * turns;
    }
  }

  /** No run of the search takes more steps than this. */
  lemma RunLength(c: Config, schedule: seq<Move>)
    requires Run(c, schedule)
    ensures |schedule| <= c.n * (27 * (c.step + 1) + 1)
  {
    InitInv(c);
    InitLeft(c, 0);
    SchedulesAreFinite(c, Init(c), schedule);
  }
}
