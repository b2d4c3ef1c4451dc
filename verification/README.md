# Key search over Twofish: cipher, codec and parallel protocol

A model of a program that encrypts strings with Twofish-256 under a decimal key and searches a key range for
the key of a ciphertext with several workers, which stop each other through a message in shared memory.

The project has two halves, joined in `EndToEnd.dfy`.

- **Cipher and codec.** `Twofish.dfy` follows the key expansion, `encrypt` and `decrypt` step by step on arrays.
  It is proved against `KeySchedule.dfy` and `Cipher.dfy`, which state the cipher as the paper "Twofish: A 128-Bit
  Block Cipher" (Schneier et al., 1998) does: sixteen rounds over a function g, and subkeys from a function h.
  `HFunction.dfy`, `MdsMatrix.dfy`, `Linear.dfy`, `QBoxes.dfy` and `GF256.dfy` give h over the permutations q0 and q1 and the matrix
  over GF(2^8); `Tables.dfy` holds the literal tables and `TableFacts.dfy` proves that they are those permutations and
  that matrix. `ReedSolomon.dfy` and `RsMatrix.dfy` prove what the key-word code computes. `Codec.dfy` pads and maps blocks.
  Everything about blocks and strings holds for any tables (`Boxes`); only the lemmas in `TableFacts` need the literals.
- **Search.** `WorkSplit.dfy` splits the range, `ParallelDecryptor.dfy` prepares the work eagerly or lazily,
  `Callables.dfy` runs one unit of it (specified in `RunSpec.dfy`), `StopFlag.dfy` is the stop message as one process sees
  it, and `Protocol.dfy` is the transition system of all workers: every interleaving, with checks and writes that
  overtake each other byte by byte. `Striding.dfy` and `Forking.dfy` are the MPI and the process runner.

Main results: every complete run of the search for a string in its own ciphertext finds that string, exactly if it
has no NUL byte (`EndToEnd.SearchFindsPlaintext`); every complete run agrees with a sequential scan
(`Protocol.SearchRefinesScan`); no schedule is infinite, and none is stuck before all workers halted; the stop message is
read only after a match, and bounds the work that follows it.

How the source is read:

- The round function asks for byte n of a word with n from 0 to 6, so its shift goes up to 48. It is modelled modulo the word
  size (byte n mod 4), which gives the rotated g that the comment at `sources/twofish.cpp:201` asks for.
- `t0` and `t1` are declared `int`; they are modelled as 32-bit words that wrap, as the comment at
  `sources/twofish.cpp:202-203` asks for.
- The program's range begin enters only the size of the range: worker i starts at i * step, whatever the begin. Coverage
  holds as expected for a range from zero, and `WorkSplit.CoversRangeIff` says exactly when it holds for another.
- A mapped call whose success is not announced goes on after a match and keeps the result of its last call.
  `RunSpec.LastCallMatchesIff` says for which arguments that call is a match whatever stops come from outside: exactly
  if matches are announced, or no argument after the first match fails to match. `RunSpec.MatchMayNotBeLast` is an
  input for which it is not, and `RunSpec.StopAfterMismatch` one that ends with a match but is stopped before it.
- The stop message's mapping of eight bytes is a page of zeros, of which only eight bytes are ever written; the ninth ends the message.
- Shared bytes are sequentially consistent; the copy of a message may take its bytes in any order.

Conventions: a method that works in place is specified by a function of its inputs, and the properties are lemmas about that
function. `XorB`, `XorW` and `Plus` name the machine operations. A value of type `Boxes` is the set of constant tables.
A `schedule` is a sequence of moves, each a step of one worker.

## Model

| member | source | states |
|---|---|---|
| TableFacts.LiteralTables | sources/twofish.cpp:322-531 | the two literal permutations are q0 and q1 built from their 4-bit tables, and the four word tables are the matrix columns, scaled over GF(2^8) modulo 0x169 |
| TableFacts.TwofishPermutations | sources/twofish.cpp:322-391 | the permutation tables have inverses on both sides |
| TableFacts.TwofishH | sources/twofish.cpp:56-85 | with the literal tables, the look-ups compute the h of section 4.3.2 of the paper, over q0, q1 and the matrix |
| TableFacts.TwofishGPermutes | sources/twofish.cpp:56-85 | with the literal tables and for every key list, h takes different words to different words and reaches every word, through an explicit inverse |
| TableFacts.TwofishLookupsPermute | sources/twofish.cpp:43-46 | so the look-ups in a filled S-box, plain and from byte 3 on, are permutations of the words, for every key |
| HFunction.HIsPaperH | sources/twofish.cpp:56-85 | for any tables that hold the scaled matrix columns, the program's h is the paper's |
| HFunction.PaperHByStages | sources/twofish.cpp:61-84 | that h is four word-wise stages, each a fixed choice of the two permutations on the four bytes and then the addition of a key word from the last to the first, followed by the last permutations and the matrix |
| HFunction.HPermutes | sources/twofish.cpp:56-85 | for any invertible permutations, h is a permutation of words under every key list |
| MdsMatrix.MdsInverse | sources/twofish.cpp:393-531 | the matrix has an inverse over GF(2^8) modulo 0x169, on both sides, on all words |
| QBoxes.Q0Inverts | sources/twofish.cpp:323-356 | q0 of section 4.3.5 of the paper has a left inverse |
| QBoxes.Q1Inverts | sources/twofish.cpp:357-390 | q1 of section 4.3.5 of the paper has a left inverse |
| ReedSolomon.RsRemIsTimesX | sources/twofish.cpp:90-95 | one step multiplies by X modulo the generator polynomial: adding the top byte times the generator gives the shifted word, coefficient by coefficient |
| ReedSolomon.GeneratorCoefficients | sources/twofish.cpp:87-89 | 0xA6 is the inverse of a = 2 modulo 0x14D, so the generator's coefficient is a + 1/a |
| ReedSolomon.RsMdsEncode | sources/twofish.cpp:100-110 | the two loops compute eight steps with the first word added after four |
| ReedSolomon.RsEncodeIsRemainder | sources/twofish.cpp:100-110 | the encoding is a remainder of k1 X^8 + k0 X^4 by the generator: there is a quotient |
| ReedSolomon.RemainderIsUnique | sources/twofish.cpp:97-110 | a polynomial has only one remainder, so the encoding is the remainder |
| RsMatrix.RsEncodeIsMatrix | sources/twofish.cpp:97-110 | the encoding is the product of the eight key bytes with the 4 x 8 matrix of section 4.3 of the paper |
| RsMatrix.RsEncodeAdds | sources/twofish.cpp:97-110 | the encoding is linear in both words |
| KeySchedule.SubkeyPair | sources/twofish.cpp:137-145 | section 4.3.4 of the paper: subkeys 2i and 2i + 1 are A + B and A + 2B rotated by nine, with A and B h of the 2i-th and (2i + 1)-th multiple of 0x01010101, B rotated by eight |
| KeySchedule.RhoIs | sources/twofish.cpp:137-139 | stepping from zero by 0x01010101 any number of times up to forty gives that multiple of it |
| KeySchedule.SubkeyPairDetermines | sources/twofish.cpp:141-144 | a pair of subkeys determines its A and B |
| Twofish.Twofish256.MakeSubkeys | sources/twofish.cpp:132-145 | the loop that steps q and updates A and B in place fills all 40 subkeys as specified |
| Twofish.Twofish256.MakeSBox | sources/twofish.cpp:147-174 | the loop leaves, for every byte, the four keyed table entries in the interleaved layout |
| KeySchedule.KeyWordsHoldKey | sources/twofish.cpp:118-127 | the even and odd key words, stored, are the key bytes four by four in turn |
| KeySchedule.SWordsAreRemainders | sources/twofish.cpp:128 | the i-th eight key bytes, as a polynomial shifted by X^4, leave the i-th S-box word from the end as remainder by the generator |
| Twofish.Twofish256.KeyWords | sources/twofish.cpp:112-130 | the loop fills the even and odd key words, and the encoded words in reverse order |
| Twofish.Twofish256.constructor | sources/twofish.cpp:48-178 | a session key holds the keyed S-box and the subkeys of its user key |
| KeySchedule.LookupIsH | sources/twofish.cpp:43-46 | four look-ups in a filled S-box give h of the word, and from byte 3 on h of the word rotated by 8, for every word |
| KeySchedule.LookupRotated | sources/twofish.cpp:43-46 | looking up from byte 3 on is looking up the word rotated by 8 |
| Words.BytesWeigh | sources/twofish.cpp:10-18 | a byte of a word weighs 1, 2^8, 2^16 or 2^24, from the first on |
| Words.Rol1Is | sources/twofish.cpp:211 | a rotation to the left by one moves every bit up and the highest to the lowest place |
| Words.Rol8Is | sources/twofish.cpp:140 | the rotation by eight is eight rotations by one |
| Words.Rol9Is | sources/twofish.cpp:144 | the rotation by nine is nine rotations by one |
| Words.RotationsInvert | sources/twofish.cpp:210-211 | the rotations to the right undo those to the left |
| Cipher.PhtDetermines | sources/twofish.cpp:209-219 | the two sums of a round, less their subkeys, determine both values of g: the second sum exceeds the first by the second value |
| Cipher.RoundIs | sources/twofish.cpp:206-220 | a round with its subkeys, sums, rotations and the change of sides written out |
| Cipher.RoundsFromFirst | sources/twofish.cpp:206-220 | a sequence of states, each the next round of the one before, ends with the state that the rounds lead to |
| Cipher.EncipherIs | sources/twofish.cpp:185-235 | subkeys 0 to 3 are added to the words of the block, subkeys 4 to 7 to the words after the rounds, the right half coming first |
| Cipher.RoundInverts | sources/twofish.cpp:206-220 | a round of section 4.1 of the paper and its reversal undo each other, for any g and subkeys |
| Cipher.DecipherEncipher | sources/twofish.cpp:180-293 | deciphering an enciphered block gives it back, for every g, every 40 subkeys and every block |
| Cipher.EncipherDecipher | sources/twofish.cpp:180-293 | enciphering a deciphered block gives it back |
| Twofish.Twofish256.Encrypt | sources/twofish.cpp:180-236 | the loop over half-rounds computes the paper's sixteen rounds over the keyed g, and the result decrypts to the block |
| Twofish.Twofish256.Decrypt | sources/twofish.cpp:238-293 | the loop that walks the subkeys downwards computes the reversed rounds, and the result encrypts to the block |
| Codec.DecimalFits | sources/encryptor.cpp:8-16 | the digits of a 32-bit key fit the 32 key bytes |
| Codec.DecimalIsNumeral | sources/encryptor.cpp:8-16 | the numeral of a key has at least one digit, decimal digits only, and no leading zero unless it is zero |
| Codec.ValueOfDecimal | sources/encryptor.cpp:8 | the digits stand for the key |
| Codec.KeyBytesAre | sources/encryptor.cpp:9-16 | the key bytes begin with the numeral and are zero from its length on |
| Codec.PadIs | sources/encryptor.cpp:18-28 | padding leaves the string and adds from one to sixteen bytes, all zero, up to a multiple of sixteen |
| Codec.KeyBytesDiffer | sources/encryptor.cpp:8-17 | two keys give the same padded key bytes only if they are the same key |
| Codec.Encrypt | sources/encryptor.cpp:7-40 | the loops compute the block-wise encryption of the padded string, one to sixteen bytes longer and a multiple of sixteen |
| Codec.EncryptedAt | sources/encryptor.cpp:29-38 | each block of the ciphertext is the padded string's block at the same place, enciphered under the key bytes |
| Codec.Decrypt | sources/encryptor.cpp:42-74 | the loops compute the block-wise decryption up to the first NUL byte |
| Codec.StripAtNul | sources/encryptor.cpp:66-73 | the output is the longest prefix without a NUL byte |
| Codec.MapBlocksAt | sources/encryptor.cpp:29-38 | mapping blocks maps each one at its place |
| Codec.MapBlocksInverts | sources/encryptor.cpp:29-38 | mapping an inverse over mapped blocks gives the blocks back |
| Codec.RoundTrip | sources/encryptor.cpp:7-74 | decrypting an encrypted string gives it up to its first NUL byte, and so the string itself exactly if it has none |
| NulStrings.UpToNulPadded | sources/encryptor.cpp:18-28 | zero padding does not change what a string reads as |
| WorkSplit.StepBounds | include/parallel_decryptor.h:61-63 | n steps cover the range size and exceed it by less than n |
| WorkSplit.WorkerKeysAt | include/parallel_decryptor.h:65-75 | a worker's keys are consecutive numbers from i * step, as many as the step and the range end allow |
| WorkSplit.Coverage | include/parallel_decryptor.h:65-75 | some worker runs a key exactly if it is at most the range end and at most n steps |
| WorkSplit.CoversFromZero | include/parallel_decryptor.h:61-75 | over a range from zero the workers run exactly the range |
| WorkSplit.CoversRangeIff | include/parallel_decryptor.h:61-75 | a range with another begin is covered exactly if its end is at most n steps |
| WorkSplit.RangeBeginMissesKeys | include/parallel_decryptor.h:61-75 | of the range from 10 to 19, three workers run no key at all |
| WorkSplit.Overlap | include/parallel_decryptor.h:67-70 | two workers both run a key exactly if they are neighbours, it is the boundary, and it is in the range |
| WorkSplit.KeysBounded | include/parallel_decryptor.h:68 | no key a worker runs reaches the range size plus the number of workers; the one computed behind its last key, at j = step + 1, does not exceed it |
| WorkSplit.DecryptorSequence.ComputedBounded | include/parallel_decryptor.h:90-99 | what the generator computes, when asked and when drawn from, does not exceed that bound as long as only keys that are there are drawn |
| WorkSplit.KeysReachBound | include/parallel_decryptor.h:96-99 | one worker over a range of size one computes a key equal to the bound |
| WorkSplit.EmptyRange | include/parallel_decryptor.h:61-70 | with an empty range every worker runs key zero only |
| WorkSplit.DecryptorSequence.HasNext | include/parallel_decryptor.h:96-99 | there is a next key exactly if the keys still to come are not empty |
| WorkSplit.DecryptorSequence.Next | include/parallel_decryptor.h:90-94 | yields the first of the keys still to come and drops it |
| ParallelDecryptor.PrepareFunctions | include/parallel_decryptor.h:53-77 | for every worker a list of fresh calls whose arguments are that worker's keys, in order |
| ParallelDecryptor.PrepareMappedFunctions | include/parallel_decryptor.h:103-121 | for every worker a fresh mapped call whose generator will yield exactly the same keys |
| ParallelDecryptor.EagerAgreesWithLazy | include/parallel_decryptor.h:53-121 | without outside stops, the list of calls and the mapped call over the same keys report a match alike, exactly if some key matches |
| ParallelDecryptor.LazyWorkMatches | include/parallel_decryptor.h:37-50 | prepared lazy work takes a key for a match exactly if the key decrypts to the expected text, and reports the text with that key |
| ParallelDecryptor.EagerWorkMatches | include/parallel_decryptor.h:37-50 | so does each call of prepared eager work with its own key |
| ParallelDecryptor.DecryptWithKey | include/parallel_decryptor.h:37-40 | the decrypted text together with the key used |
| Callables.Callable.Run | include/Callable.h:196-207 | refuses without a handler; otherwise has a result exactly if the check succeeds, and announces it only if told to |
| Callables.Callable.GetResult | include/Callable.h:209-214 | the result exactly if the call ran and matched, and not ready otherwise |
| Callables.Callable.ToString | include/Callable.h:219-229 | the rendered result exactly if the call ran and matched, and not ready otherwise |
| Callables.MultipleCallable.AddSingleCallable | include/Callable.h:98-102 | appends the call, hands it the present handler and silences it |
| Callables.MultipleCallable.SetSigHandler | include/Callable.h:91-96 | hands the handler to every member |
| Callables.MultipleCallable.Run | include/Callable.h:61-81 | runs exactly the members before the first stop and no others, own success stopping it only through the flag; keeps the last match among them |
| Callables.MapCallable.Run | include/Callable.h:268-291 | calls the function on exactly the keys before the first stop or announced match; has a result exactly if one of them matched; keeps the last call's result; draws at most one key more |
| RunSpec.StopsAfterUnique | include/Callable.h:268-291 | at most one number of calls fits the specification of a run |
| RunSpec.EndedByMatch | include/Callable.h:268-291 | if matches end the run, the match it holds is the first of the whole list |
| RunSpec.UnstoppedRunLength | include/Callable.h:268-291 | without outside stops such a run ends right after the first match, or at the end |
| RunSpec.UnendedRunCovers | include/OpenMpParallelRunner.h:15-17 | under the handler that never stops, a list runs to its end and holds its last match |
| RunSpec.LastCallMatchesIff | include/Callable.h:277-283 | the last call of every run with a match, whatever stops it sees, is a match exactly if matches end the run or no argument after the first match fails to match |
| RunSpec.UnstoppedLastCallMatchesIff | include/Callable.h:277-283 | of a run that sees no outside stop, over a list with a match, the last call is a match exactly if matches end the run or the list ends with one |
| RunSpec.MatchMayNotBeLast | include/Callable.h:277-283 | an input on which an unannounced match is followed by a call that does not match |
| RunSpec.StopAfterMismatch | include/Callable.h:277-283 | an input that ends with a match, on which an outside stop leaves a call that does not match as the last |
| StopFlag.SharedFlag.ReadMsg | sources/SharedMemorySystemInterrupter.cpp:38-40 | the page up to its first NUL byte, at most eight bytes |
| StopFlag.SharedFlag.WriteMsg | sources/SharedMemorySystemInterrupter.cpp:42-45 | the first eight bytes of the string and its terminator, so at most eight characters read back |
| StopFlag.SharedFlag.CheckNextSyncCall | sources/SharedMemorySystemInterrupter.cpp:51-53 | go on exactly if the message is not the stop message |
| StopFlag.WrittenPageReads | sources/SharedMemorySystemInterrupter.cpp:38-45 | what a written page reads as |
| StopFlag.SuccessIsFinished | sources/SharedMemorySystemInterrupter.cpp:8 | the stop message is the word "finished" |
| Protocol.StepKeepsInv | include/Callable.h:272-287 | every step of any worker, including torn reads and writes, keeps the global invariant: passed keys do not match unless there is a result, and flag bytes are zero or part of the message of a worker that matched |
| Protocol.Reached | include/Callable.h:272-287 | whatever state a run from the start reaches satisfies the invariant |
| Protocol.RunGoesOn | include/Callable.h:272-287 | a run is a beginning and a schedule from the state the beginning reached, and ends where that schedule leads |
| Protocol.AnyStepMayBeNext | include/Callable.h:272-287 | in every state of every run, each worker that has not halted may take the next step, whatever the others do, and copy any of the bytes it has left |
| Protocol.StepCopiesOneByte | sources/SharedMemorySystemInterrupter.cpp:38-45 | a step that copies takes one byte, from the page or to it, and leaves the other workers and bytes alone |
| Protocol.AnyTornWrite | sources/SharedMemorySystemInterrupter.cpp:42-45 | for every set of bytes there is a run after which the page holds exactly those bytes of the message while their writer goes on |
| Protocol.AnyTornRead | sources/SharedMemorySystemInterrupter.cpp:38-40 | for every length there is a run in which a check has read exactly that much of the message |
| Protocol.SearchRefinesScan | include/Callable.h:268-291 | every complete run over a range from zero, in any interleaving, ends with a result exactly if the sequential scan of the range has one |
| Protocol.ResultsAreMatches | include/Callable.h:275-283 | every result at the end of a run is the expected text under a key of the range that matches |
| Protocol.SingleWorkerRefinesScan | include/Callable.h:268-291 | with one worker, the result is exactly the smallest matching key, or none |
| Protocol.FinalMeans | include/Callable.h:268-291 | at the end of every complete run some worker has a result exactly if some worker's keys hold a match; if none has, all called every key |
| Protocol.ResultsAreFirst | include/Callable.h:275-283 | in every state that a run reaches a result is the first match among its worker's keys |
| Protocol.HaltedWorkerRan | include/Callable.h:268-291 | in every run, a worker that halted ran as the contract of the mapped call promises, with at most one stop seen |
| Protocol.StopOnlyAfterMatch | sources/SharedMemorySystemInterrupter.cpp:38-53 | in every run, whatever the order of bytes, a check that read the stop message implies a complete message and a worker whose last call was on a matching key |
| Protocol.CheckReadsMessage | sources/SharedMemorySystemInterrupter.cpp:38-40 | in every run, a check that no write overtakes reads what the page holds |
| Protocol.LaterChecksStop | sources/SharedMemorySystemInterrupter.cpp:47-53 | in every run in which one handler has returned, a check that starts later, or is still measuring, stops its worker without another call, however the run goes on |
| Protocol.BoundedWorkAfterStop | include/Callable.h:272-287 | in every run in which one handler has returned, however it goes on, each worker makes at most one more call and draws at most one more key |
| Protocol.FinalFlag | sources/SharedMemorySystemInterrupter.cpp:42-53 | at the end of every complete run the message is complete if there is a result, and the flag untouched if not |
| Protocol.SchedulesAreFinite | include/Callable.h:272-287 | from every state of the invariant, a natural number falls with every step of any worker, so it bounds every schedule, fair or not |
| Protocol.RunLength | include/Callable.h:272-287 | an explicit bound on the length of every run in the workers and the step |
| Protocol.StuckIffHalted | include/Callable.h:272-287 | in every state of the invariant, no step is possible exactly if every worker has halted |
| Protocol.RunsComplete | include/Callable.h:272-287 | every run can be continued to a complete one |
| EndToEnd.SearchFindsPlaintext | include/parallel_decryptor.h:103-121 | the search for a string in its own ciphertext, over a range that holds the key: every complete run ends with a worker that found the string exactly if the string has no NUL byte, and every result is what the called function returns for a key of the range that decrypts to the string |
| EndToEnd.SearchMatches | include/parallel_decryptor.h:37-50 | the search matches a key exactly if it decrypts to the expected text |
| EndToEnd.PreparedWorkSearches | include/parallel_decryptor.h:103-121 | the work prepared for the workers finds exactly the keys the search matches |
| EndToEnd.OwnKeyMatches | include/parallel_decryptor.h:37-50 | the key a string was encrypted under passes the success check exactly if the string has no NUL byte |
| EndToEnd.MatchesDecrypt | include/parallel_decryptor.h:37-50 | whatever passes the success check is the decryption, and has no NUL byte |
| Striding.Run | include/MPIParallelRunner.h:125-142 | a rank runs every size-th index from its own on |
| Striding.StridedAt | include/MPIParallelRunner.h:128-139 | the k-th index a rank runs is its own plus k times the number of ranks, so they ascend |
| Striding.RankOf | include/MPIParallelRunner.h:125-142 | a rank runs an index once if it is the index modulo the number of ranks, and never otherwise |
| Striding.RanksPartition | include/MPIParallelRunner.h:125-142 | all ranks together run every index of the list exactly once |
| Striding.RanksBalance | include/MPIParallelRunner.h:125-142 | the loads of two ranks differ by at most one, lower ranks having no less |
| Forking.Forker | include/LinuxProccessParallelRunner.h:49-75 | the path of one process through the recursion: which forks succeed on it, what it runs and whether it exits |
| Forking.ParentForks | include/LinuxProccessParallelRunner.h:49-75 | the parent forks exactly the indices above the highest failing one, downwards, and runs none itself |
| Forking.ChildRunsOwnIndex | include/LinuxProccessParallelRunner.h:57-69 | every child runs exactly its own index and forks no more |
| Forking.Run | include/LinuxProccessParallelRunner.h:82-91 | for 1 to 1000 entries the parent forks and waits once per entry; for none, or more, nothing happens |
| Forking.ChildrenAndWaits | include/LinuxProccessParallelRunner.h:82-91 | the children are the indices above the highest failing one, once each; they are as many as the waits exactly if no fork fails |

## Left out

- Codec.Decrypt: requires a length that is a multiple of sixteen; the program reads past the end of the vector otherwise.
- ParallelDecryptor.DecryptWithKey: the same, and a length below 2^31.
- Codec.Encrypt: requires a padded size below 2^31, since the loop counters are signed.
- StopFlag.SharedFlag.WriteMsg: requires at least seven characters, since the program copies eight bytes whatever the length; its only caller writes the stop message.
- ParallelDecryptor.PrepareFunctions: requires a positive number of workers and a range size plus workers below 2^31, where the program divides by zero or overflows.
- ParallelDecryptor.PrepareMappedFunctions: requires the same.
- Striding.Run: the counter is unbounded, where the program's is a signed 32-bit number.
- Protocol.Step: the eager list of calls is not part of the transition system; it runs under the sequential contract of `Callables.MultipleCallable.Run`, in which the other workers' messages are a parameter.
- The expected text is a parameter of the check; in the program it is a global that the latest preparation overwrites.
- The counter of live handlers, which maps the page when the first is created: the page is one object that exists from the start.
- Inheritance: `MapCallable` repeats the fields it inherits in the program, because the language's traits are not used.
- The runners' own bookkeeping (process numbers, running marks) and their printing.
- The exceptions of called functions: the called function is assumed to return.
- The socket server and its handler: asynchronous input and output of a library that is not part of this model.
- The MPI and signal stop paths, `pthread_cancel`, `killpg` and the terminate handler: operating-system effects.
- Runner selection, platform macros, rendering helpers and destructors: dispatch and memory management.
- The cipher's self-test and known-answer vectors: finite computation.
- Secrecy, timing and cryptographic strength.
