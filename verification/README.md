# Accelerator offload: a verified model

The repository measures how requests behave when part of their work is offloaded to an accelerator: a worker thread
starts request fibers, each submits an offload, yields, and is resumed once the accelerator has marked its completion
record. This project models the parts of it that carry real obligations and proves what they promise.

| file | what it models |
|---|---|
| `Words.dfy`, `Division.dfy`, `Wrappers.dfy` | 64-bit words as natural numbers, with shifts and exclusive-or digit by digit; division; optional values |
| `Murmur.dfy` | MurmurHash64A over byte strings and the rehash of a word |
| `MachineWords.dfy` | the same operations, and the rehash, on machine words, agreeing with the numbers |
| `Furc.dfy` | consistent hashing of keys to shards over a lazily extended chain of hash words |
| `HashExamples.dfy` | the keys of the router requests, hashed and placed |
| `FurcWitness.dfy` | a key that moves between old shards |
| `Interleaving.dfy` | completion records, and the turns that others take between two steps of a program |
| `Offload.dfy` | worker and emulated accelerator as a two-thread step system with a mailbox, completion records and a clock |
| `OffloadInvariant.dfy`, `OffloadSafety.dfy` | what every step keeps, and what therefore holds in every run |
| `OffloadDevice.dfy` | capacity, order, exactly when deadlines hold, and how long a due offload can wait |
| `OffloadRefusal.dfy` | exactly which configurations can have a submission refused |
| `OffloadProgress.dfy` | why every run in which all parties keep moving ends, and within what bound |
| `OffloadTurns.dfy` | a thread's program text against any turns of the other thread and the clock |
| `OffloadWorker.dfy` | `submit_offload`, the router requests and the executors' loops as program text |
| `EmulAx.dfy` | the accelerator's loop as program text |
| `Fibers.dfy`, `FiberSystem.dfy` | `jump_fcontext` and `make_fcontext` on registers and memory, and any number of fibers switching by them |
| `FiberExecutor.dfy` | an executor and its requests on the fiber machine |
| `Filler.dfy`, `FillerScheduler.dfy` | the executors that run a filler fiber while the single outstanding request is away, as a step system and as program text |
| `ThreePhase.dfy`, `ThreePhaseTemplates.dfy` | the gpcore, blocking and yielding three-phase templates, as a step system and as program text |
| `TimedTemplates.dfy` | the timed templates and the executors that report a breakdown |
| `Chain.dfy` | random pointer chains and the loops that follow them |
| `PostingList.dfy` | linked posting lists: building, in-place intersection, freeing |
| `Timing.dfy`, `Sampling.dfy` | cycle arithmetic, and the windows of sampled runs |

## How to read it

Machine words are natural numbers below 2^64 and every wrap-around is written out. `Furc.Search`, `Furc.Place` and
`Furc.Reads` say what a run of `furc_hash` computes and reads as functions of a bit stream; `Furc.FurcHash` is the loop
itself, proved to compute the one and, by the log that every `furc_get_bit` call extends, to read the other. Three keys
are worked out to the end (`HashExamples`, `FurcWitness`), so values stand beside the laws.

Concurrency is interleaving: `Offload.WorkerStep` and `Offload.DeviceStep` transcribe the two threads with at most one
access to a shared variable per step, in the order of the source, and a run is any schedule of worker steps, device
steps and clock ticks. It starts after the accelerator has cleared the submit flag (src/emul_ax.cpp:35). A request
function that returns after a refusal ends the process (inc/fcontext.h:96-97), so a refusal is the last thing that
happens in a run. `OffloadWorker.Process` and `EmulAx.Accelerator` are the same two threads as program text.
Before each access of a thread the other one and the clock take a turn, given as an argument (`Others`), and the
program's state is at every point proved to be the very state which that schedule leads to, so what is proved of
schedules holds of the program. `ThreePhaseTemplates.Process` and
`FillerScheduler.Scheduler` do the same for the three-phase templates and the filler executors.

`FiberSystem.Step` is one creation, one destruction, one switch, or anything at all the running fiber does to its
registers and to memory outside the suspended fibers' stacks. A trace is transparent if a fiber cannot tell that it was
away. `FiberExecutor` adds what executors and requests keep to: the executor switches from one stack depth, and requests
switch only to handles that they were given.

Where the source and its comments or intentions part, the model follows the code:

- inc/ch3_hash.h:15-18 limits the hash to 2^23 shards; bits are in fact never read twice up to 2^24 shards, and for
  every larger pool there is a key for which one is (`Furc.NoBitIsReadTwice`).
- Minimal movement has one exception: an old shard is left for shard 0 when the larger pool uses up all 32 tries. This
  happens to an actual key: ab b1 54 6c 0b 55 ae 2a is at shard 26 of 32 and at shard 0 of 33
  (`FurcWitness.AKeyIsMoved`). For which pool sizes there is a bit stream to which it happens is settled exactly, for
  pools of any size (`Furc.MinimalMovement`, `Furc.GrowthIsSafeExactly`).
- The retry loop of `submit_offload` never submits again: after a refusal no continuation contains another submission
  or decision (`OffloadRefusal.RetriesRereadTheVerdict`).
- While a request is being submitted its record can be completed before the executor has counted it as started, so
  completions are bounded by submissions (`OffloadSafety.CompletedPrefix`).
- The phase averages divide n - 1 samples by n, and add up only while the four accumulators together fit a word
  (`Timing.PhasesAccountForTheWhole`), which short samples see to (`Timing.ShortSamplesSuffice`).
- When the sample count leaves a large remainder, sampled runs write past the result array, and when it exceeds the
  total the program divides by zero (`Sampling.RunsTileExactly`).
- The clock of the accelerator is 64 bits wide, and offloads can be completed early exactly if a deadline can wrap
  (`OffloadDevice.EarlyExactlyWhenWrapped`).
- `intersect_posting_lists` does not look whether its result list ends: it writes through a null cursor exactly when the
  intersection is longer than that list (`PostingList.IntersectPostingLists`).

## Model

| member | source | states |
|---|---|---|
| Murmur.ScaleInverse | src/ch3_hash.cpp:3-8 | multiplying by the odd constant modulo 2^64 is undone, from either side, by multiplying with one other constant |
| Murmur.FoldInvolution | src/ch3_hash.cpp:9 | shifting by 47 and xoring twice gives the word back |
| Murmur.MixInverse | src/ch3_hash.cpp:8-10 | mixing a key word loses nothing: it has a two-sided inverse |
| Murmur.AbsorbInverse | src/ch3_hash.cpp:8-13 | for every state so far, absorbing a word has a two-sided inverse |
| Murmur.FinishInverse | src/ch3_hash.cpp:15-17 | the final mixing has a two-sided inverse |
| Murmur.RehashInverse | src/ch3_hash.cpp:2-20 | the rehash is a bijection on 64-bit words, with its inverse given |
| Murmur.RehashInjective | src/ch3_hash.cpp:2-20 | different words rehash differently |
| Murmur.LittleEndianRoundTrip | src/ch3_hash.cpp:30-34 | reading back the little-endian bytes of a number gives the number |
| Murmur.MurmurRehash64A | src/ch3_hash.cpp:2-20 | the straight-line code computes the function proved bijective |
| Murmur.TailCase | src/ch3_hash.cpp:46-65 | one case of the fallthrough switch extends the absorbed tail by one byte, whatever the cases before it did |
| Murmur.TailSwitch | src/ch3_hash.cpp:43-67 | for every tail length from 1 to 7 the fallthrough switch computes (h xor the little-endian number of the bytes) * 0xc6a4a7935bd1e995 modulo 2^64, and an empty tail leaves h alone |
| Murmur.MurmurHash64A | src/ch3_hash.cpp:22-74 | for keys of every length the loop and the switch compute the hash as a fold over whole words, one exclusive-or and one multiplication for a nonempty tail, and the final mixing |
| Murmur.RehashIsHashOfBytes | src/ch3_hash.cpp:2-74 | the rehash of a word is the byte-string hash of its eight little-endian bytes with the same seed |
| HashExamples.RouterKeyIsHashed | src/router_requests.cpp:192 | "foo:key", a tail of seven bytes, has the hash 0x524404e1c7b2ad2c and goes to shard 6 of 16, by reading bits 4, 3, 26 and 49 |
| HashExamples.RouterQueryIsHashed | src/router_requests.cpp:15-25 | the 29-byte query, three words and a tail of five bytes, has the hash 0x16375f2faa5ff03c and goes to shard 15 of 16, by reading bits 4, 27, 50 and 73 |
| MachineWords.RehashedIsRehash | src/ch3_hash.cpp:2-20 | for every 64-bit machine word, the rehash by machine operations is the rehash of its number |
| MachineWords.ScaledIsMultiplication | src/ch3_hash.cpp:8 | machine multiplication by the constant is multiplication modulo 2^64 |
| MachineWords.FoldedIsFold | src/ch3_hash.cpp:9 | machine shift and exclusive-or by 47 is the fold on numbers |
| MachineWords.BitOfIsDigit | src/ch3_hash.cpp:100 | a digit masked out of a machine word is that digit of its number |
| Furc.ChainsStayApart | src/ch3_hash.cpp:92-96 | two keys share a chain word at some position exactly when they share the first one |
| Furc.CandidateBounds | src/ch3_hash.cpp:134-139 | a number drawn at level d has exactly d binary digits |
| Furc.SearchInRange | src/ch3_hash.cpp:127-146 | from every point of a run, a shard that is found lies in 1 to m - 1 |
| Furc.ShardInRange | src/ch3_hash.cpp:103-147 | the result is below max(m, 1) for every key, null included, and every m |
| Furc.NullKey | src/ch3_hash.cpp:86-89 | a null key falls through all levels to shard 0, for pools of every size |
| Furc.SameStart | src/ch3_hash.cpp:127-146 | runs of a smaller and a larger pool from the same point end alike unless the larger one finds a shard the smaller does not have |
| Furc.OneTryIsEnough | src/ch3_hash.cpp:127-146 | below the top level the number of remaining tries does not matter and tries do not run out |
| Furc.PassesThrough | src/ch3_hash.cpp:127-146 | a run from a higher level gives up, finds a number too large for 2^e shards, or continues as the run from level e |
| Furc.GrowthKeepsOutcome | src/ch3_hash.cpp:103-147 | when the larger pool answers below m, the smaller one ended the same way, or the larger one gave up at a higher level |
| Furc.MinimalMovement | src/ch3_hash.cpp:103-147 | for every stream and m <= m': a key the larger pool puts below m has the same shard in the smaller one exactly unless the larger run exhausted its tries while the smaller found a shard; with equal level counts there is no exception |
| Furc.ExhaustedExactly | src/ch3_hash.cpp:127-146 | a run gives up exactly when all 32 attempts at the top level pass their gate and draw a number that is too large |
| Furc.GrowthToPowerOfTwo | src/ch3_hash.cpp:103-147 | a pool of 2^n shards never gives up, so growing to one moves keys only to new shards |
| Furc.GrowthIsSafeExactly | src/ch3_hash.cpp:103-147 | for all m <= m': growing moves no key between old shards on any stream if and only if m <= 1, or both sizes need the same number of levels, or m' is a power of two |
| Furc.ExhaustionMovesAKey | src/ch3_hash.cpp:127-146 | for all other sizes, a stream on which the larger pool exhausts its tries while the smaller one finds a shard above 0 |
| FurcWitness.AKeyIsMoved | src/ch3_hash.cpp:103-147 | the eight bytes ab b1 54 6c 0b 55 ae 2a, as a key, are at shard 26 of 32 and at shard 0 of 33: minimal movement fails for an actual key |
| FurcWitness.WithThirtyThreeShards | src/ch3_hash.cpp:127-146 | its 32 attempts among 33 shards, read from 68 words of its chain, all pass their gate and draw too large a number |
| Furc.ReadsMoveAhead | src/ch3_hash.cpp:126-142 | on at most 24 levels a run reads positions of its own or lower levels, forward on each, and none twice |
| Furc.DistinctUpTo24Levels | src/ch3_hash.cpp:126-142 | up to 2^24 shards the positions read in a run are distinct on every stream at all |
| Furc.NoBitIsReadTwice | inc/ch3_hash.h:15-18 | for m < 2^32: for every key all positions read in a run are distinct, if and only if m <= 2^24; the key that fails beyond is found by running the rehash backwards |
| Furc.ExtendCache | src/ch3_hash.cpp:91-98 | extending the memo array from any high-water mark leaves exactly the words of the eager chain |
| Furc.FurcGetBit | src/ch3_hash.cpp:77-101 | every answer is the bit of the eager rehash chain, lower indices after higher ones included; a null key reads zero and resets the mark; each call logs its index |
| Furc.ReadsFitTheMemo | inc/ch3_hash.h:20-21 | for every m below 2^32 every position a run reads lies in one of the 1024 words of the memo array |
| Furc.CountLevels | src/ch3_hash.cpp:123-124 | the loop finds the least d with m <= 2^d, at most 32 |
| Furc.DrawNumber | src/ch3_hash.cpp:134-139 | the inner loop draws the candidate of its attempt, having read exactly its digits in order, and leaves the cursor at the next attempt |
| Furc.FindGate | src/ch3_hash.cpp:128-133 | the gate loop with its cursor resets leaves a run that will end as the whole run prescribes, and its reads are that run's reads and the open gate |
| Furc.FurcHash | src/ch3_hash.cpp:103-147 | nested loops, cursor resets, memo array and retry cap compute the search's outcome, 0 for a null key or at most one shard; the calls made are the reset and then exactly the positions the specification lists, distinct for m <= 2^24 |
| OffloadInvariant.WorkerKeepsMailbox | src/offload.cpp:8-30 | no worker step breaks the agreement of flag, verdict and decisions |
| OffloadInvariant.DeviceKeepsMailbox | src/emul_ax.cpp:73-107 | no device step does either, although the verdict is written before the flag is lowered |
| OffloadInvariant.DeviceKeepsQueue | src/emul_ax.cpp:39-105 | the device's list holds exactly the accepted, unretired records in order, between the completion write and the pop too |
| OffloadInvariant.DeviceKeepsRecords | src/emul_ax.cpp:45-49 | a record is marked completed exactly when the device has said so |
| OffloadInvariant.DeviceKeepsClock | src/emul_ax.cpp:44-65 | start times, deadlines and completion times stay in order |
| OffloadSafety.StepInv | src/emul_ax.cpp:37-108 | every worker step, device step and clock tick keeps the whole invariant |
| OffloadSafety.RunInv | src/emul_ax.cpp:37-108 | so does every schedule |
| OffloadSafety.MailboxAgreement | src/offload.cpp:6-30 | in every interleaving: one decision per submission, submit_offload returns the decision made for its own submission, only the last decision can be a refusal, the device enqueues submitted records in order, and accepted = retired + queued + at most one being pushed |
| OffloadSafety.SuccessMeansAccepted | src/offload.cpp:20-29 | the i-th submission returned success if and only if record i was enqueued or is being pushed |
| OffloadSafety.CompletionsSurvive | src/offload.cpp:8 | no pending write ever overwrites a completion |
| OffloadSafety.CompletedPrefix | src/request_executors.cpp:176-198 | completed records form a prefix [0, c) with resumed <= c <= submitted <= total |
| OffloadSafety.InIndexOrder | src/request_executors.cpp:185-198 | requests are submitted, enqueued, completed and post-processed once each, in index order |
| OffloadSafety.ProcessedAfterCompletion | src/router_requests.cpp:17-28 | a step that post-processes a request finds that request's record completed, and takes the requests in order |
| OffloadSafety.FinishedMeansAllDone | src/request_executors.cpp:185-198 | when the loop ends, every request has been submitted, completed and post-processed exactly once |
| OffloadSafety.SpinsOnlyOnTheDevice | src/request_executors.cpp:185-198 | an iteration resumes, starts, ends the loop, or spins; it resumes exactly when the oldest record is completed, before anything else is started, and spins only with everything started and the oldest request at the device |
| OffloadSafety.MeasureDecreases | src/request_executors.cpp:185-198 | 2 * total - started - resumed drops exactly at starts and resumptions, never rises and is never negative |
| OffloadDevice.CapacityIsKept | src/emul_ax.cpp:81-105 | the in-flight counter is the list's length and never exceeds max_inflights |
| OffloadDevice.DeadlinesAreKept | src/emul_ax.cpp:39-70 | queued deadlines do not decrease, the cached one is the oldest's, completions come in acceptance order and never before start + offload_time |
| OffloadDevice.WrappedDeadlineIsEarly | src/emul_ax.cpp:87 | at every clock value at which a deadline wraps, an offload can be completed before its time |
| OffloadDevice.EarlyExactlyWhenWrapped | src/emul_ax.cpp:44-65 | a system whose clock stays up to a limit can complete an offload early if and only if the limit plus offload_time does not fit 64 bits |
| OffloadDevice.DueOffloadIsHandedBack | src/emul_ax.cpp:39-72 | an iteration that begins with a due offload completes its record, takes it off the list and caches the next deadline before it looks at the flag |
| OffloadDevice.NothingIsDue | src/emul_ax.cpp:39-73 | an iteration that begins without one gets to the flag and changes nothing |
| OffloadDevice.SubmissionIsAccepted | src/emul_ax.cpp:73-96 | with a place free a submission is accepted and is last on the list, due at the clock of its decision plus offload_time modulo 2^64 |
| OffloadDevice.SubmissionIsRefused | src/emul_ax.cpp:101-105 | without one it is refused and the device is as before |
| OffloadDevice.RunKeepsPace | src/emul_ax.cpp:37-108 | until an offload that is due, like all before it, is completed, every iteration completes one |
| OffloadDevice.CompletesWithin | src/emul_ax.cpp:37-70 | once the offload at position p and those before it are due, it is completed within p + 1 iterations, whatever the worker and the clock do and even if deadlines have wrapped |
| OffloadDevice.DueInOrder | src/emul_ax.cpp:87-95 | while no deadline has wrapped, an offload that is due has only due ones before it |
| OffloadRefusal.RoomAtDecision | src/emul_ax.cpp:46-81 | with enough room the device is never full when it decides, although the completion write precedes the decrement and the pop |
| OffloadRefusal.NeverRefused | src/router_requests.cpp:133-151 | blocking requests with one place, yielding runs with as many places as requests, and instant offloads with one place are never refused |
| OffloadRefusal.RetriesRereadTheVerdict | src/offload.cpp:15-26 | after a refusal, no continuation of the run contains another submission or another decision |
| OffloadRefusal.FillUp | src/emul_ax.cpp:81-105 | when offloads take any time at all, a yielding run can have any number of offloads up to the capacity waiting at the device at once |
| OffloadRefusal.RefusalExactly | src/emul_ax.cpp:81-105 | some run ends with a refusal if and only if there is a request and the device has fewer places than the configuration can have waiting |
| OffloadProgress.StepEffect | src/offload.cpp:15-26 | no step of any party raises the rank of a run, each leaves the same party needed or lowers it, and a move of the needed party lowers it |
| OffloadProgress.FairRunsEnd | src/request_executors.cpp:185-198 | every run in which worker, device and clock each move in (2 * total + 1) * (offload_time + 30) stretches has ended its loop or been refused, in whatever order they move |
| OffloadProgress.FairRunsFinish | src/request_executors.cpp:185-198 | with enough room it has submitted and post-processed every request, once each and in index order |
| OffloadProgress.FinishesExactlyWithEnoughRoom | src/request_executors.cpp:185-198 | every fair run finishes if and only if the device has enough room |
| OffloadTurns.NextAccess | src/offload.cpp:6-30 | each access of a thread extends the run so far by the turn before it and its own step |
| OffloadTurns.LaterIsARun | src/request_executors.cpp:185-198 | the states of a program follow on one another by runs of the system |
| OffloadWorker.FairTurnsSuffice | src/request_executors.cpp:185-198 | enough turns that each move the device and the clock do not run out before the loop has ended |
| OffloadWorker.Process.Others | src/emul_ax.cpp:37-108 | between two accesses the other thread and the clock take exactly the next turn, and the worker's own variables stay |
| OffloadWorker.Process.constructor | src/offload.cpp:32-41 | all completion records start pending, next to an idle accelerator |
| OffloadWorker.Process.MarkPending | src/offload.cpp:8 | one turn, one store: the record is pending |
| OffloadWorker.Process.PostAddress | src/offload.cpp:9 | one turn, one store: the address is posted before the flag is raised |
| OffloadWorker.Process.PostFlag | src/offload.cpp:10 | one turn, one store: the submission, with three retries to come |
| OffloadWorker.Process.PollFlag | src/offload.cpp:16 | one turn, one load: on to the verdict once the flag is down |
| OffloadWorker.Process.CheckStatus | src/offload.cpp:20-29 | one turn, one load: another try with one retry less, failure, or success |
| OffloadWorker.Process.SubmitOffload | src/offload.cpp:6-30 | against any turns the function reaches exactly the state they and its accesses lead to, with success and failure as in the worker's steps; failure takes at least eleven accesses: three stores and four looks at flag and verdict |
| OffloadWorker.Process.ResumeYielding | src/router_requests.cpp:22-28 | a resumed request counts itself and swaps back |
| OffloadWorker.Process.LookAtHead | src/request_executors.cpp:185-197 | the loop's guard and its look at the oldest record lead where the worker's step leads: the loop ends when all are resumed, else a completed oldest record is resumed, else the next request is started, if there is one |
| OffloadWorker.Process.ExecuteYielding | src/request_executors.cpp:176-198 | against any turns the loop ends with everything submitted, completed and post-processed once in index order, or with a refusal that needs too small a device, or has used up the turns; with fair turns it ends, and with enough room everything is done |
| OffloadWorker.Process.AwaitRecordOf | src/router_requests.cpp:144-146 | the blocking request goes on only once its own record is completed |
| OffloadWorker.Process.ExecuteBlocking | src/router_requests.cpp:133-151 | the same for blocking requests, whose only cause of refusal is a device with no place at all |
| EmulAx.Accelerator.constructor | src/emul_ax.cpp:15-35 | the device starts in the initial state of the system |
| EmulAx.Accelerator.Others | src/emul_ax.cpp:37-108 | between two accesses the worker and the clock take exactly the next turn, which may end the process |
| EmulAx.Accelerator.LookForOffloads | src/emul_ax.cpp:39 | one turn, one look: on to the clock if an offload is in flight, to the poll otherwise |
| EmulAx.Accelerator.CheckTime | src/emul_ax.cpp:44-45 | one turn, one reading of the clock against the cached deadline |
| EmulAx.Accelerator.NotifyOffloader | src/emul_ax.cpp:46-48 | one turn, one store: the oldest offload's record is completed, while it is still on the list and still counted |
| EmulAx.Accelerator.RetireFront | src/emul_ax.cpp:49-67 | one turn, then the oldest offload leaves the list and the next deadline is cached |
| EmulAx.Accelerator.PollFlag | src/emul_ax.cpp:73 | one turn, one load of the flag |
| EmulAx.Accelerator.DecideOnSubmission | src/emul_ax.cpp:74-102 | one turn, one reading of the clock and one store of the verdict, which is success exactly when a place is free |
| EmulAx.Accelerator.LoadAddress | src/emul_ax.cpp:83 | one turn, one load of the record's address |
| EmulAx.Accelerator.Acknowledge | src/emul_ax.cpp:85 | one turn, one store: the flag is lowered only after the verdict and the address |
| EmulAx.Accelerator.PushBack | src/emul_ax.cpp:87-95 | one turn, then the entry with its deadline modulo 2^64 is last on the list and counted |
| EmulAx.Accelerator.AcknowledgeRefusal | src/emul_ax.cpp:103 | one turn, one store: the flag is lowered after a refusal |
| EmulAx.Accelerator.CompleteIfDue | src/emul_ax.cpp:39-72 | against any turns of the worker and the clock, the first half of the loop body reaches exactly the state they and its accesses lead to, unless the worker ends the process |
| EmulAx.Accelerator.AnswerSubmission | src/emul_ax.cpp:73-107 | so does the second half, with the worker free to act between the verdict, the address and the flag |
| EmulAx.Accelerator.Iterate | src/emul_ax.cpp:37-108 | so does one iteration, which is counted once |
| EmulAx.Accelerator.Serve | src/emul_ax.cpp:37-108 | the loop, against any turns: after p + 1 iterations the offload at position p is completed, if it and those before it were due at the start |
| Fibers.Machine.SaveContext | src/jump_x86_64_sysv_elf_gas.S:32-45 | the running context is saved below its return address and nowhere else |
| Fibers.Machine.RestoreContext | src/jump_x86_64_sysv_elf_gas.S:48-72 | the target frame is loaded, released and jumped through, with handle and data in both register pairs |
| Fibers.Machine.JumpFcontext | src/jump_x86_64_sysv_elf_gas.S:31-72 | instruction by instruction the switch has the effect the fiber system uses |
| Fibers.Machine.MakeFcontext | src/make_x86_64_sysv_elf_gas.S:31-63 | the initial frame lies 0x40 below the aligned stack top, and only five of its cells are written |
| FiberSystem.SaveStaysInFrame | src/jump_x86_64_sysv_elf_gas.S:32-42 | saving writes only its frame, and the frame read back is the caller's context |
| FiberSystem.MadeStaysInFrame | src/make_x86_64_sysv_elf_gas.S:44-61 | making a fiber writes only its frame: function, finish, trampoline and control words |
| FiberSystem.SwitchEffect | src/jump_x86_64_sysv_elf_gas.S:31-72 | one switch, trampoline included: what is saved, what is restored or entered, and which memory stays |
| FiberSystem.FcontextSwap | src/make_x86_64_sysv_elf_gas.S:65-70 | call, jump and, for a fresh fiber, trampoline, run on the machine: the caller's context is in its frame, and the target is resumed or stands at its function with finish as return address |
| FiberSystem.StepKeepsInv | src/jump_x86_64_sysv_elf_gas.S:31-72 | every creation, destruction, switch and computation keeps all parked frames intact inside their own stacks |
| FiberSystem.OwnerIsUnique | src/jump_x86_64_sysv_elf_gas.S:47-48 | a handle belongs to one fiber |
| FiberSystem.StaysParked | src/jump_x86_64_sysv_elf_gas.S:31-72 | over any stretch of a run without it, the frame and the local variables of a suspended fiber that is not destroyed do not change |
| FiberSystem.SwitchIsTransparent | src/jump_x86_64_sysv_elf_gas.S:31-72 | over any run, a resumed fiber finds R12-R15, RBX, RBP, control words, RSP and its stack as they were, continues at its return address, and receives (resumer's handle, data) |
| FiberSystem.FirstEntry | src/make_x86_64_sysv_elf_gas.S:31-70 | a first entry has RSP + 8 a multiple of 16, finish as return address, its maker's control words, (handle, data) as arguments, and a frame of 0x40 bytes that ends at the last multiple of 16 in its stack and is written inside it only |
| FiberSystem.HandleIsStackDepth | src/jump_x86_64_sysv_elf_gas.S:32-48 | a handle received earlier is still the fiber's handle if and only if the fiber last switched from the same stack depth |
| FiberSystem.ReusedHandle | src/router_requests.cpp:22-28 | at constant depth, jumping through a handle captured earlier resumes the most recent switch |
| FiberExecutor.ExecutorWaits | src/request_executors.cpp:185-198 | while another fiber runs the executor is suspended, always at one handle |
| FiberExecutor.RequestsReturn | src/router_requests.cpp:22-28 | whatever handle of the executor a request uses, and however long ago it was given it, its swap lets the executor run |
| FiberExecutor.OnlyTheTarget | src/request_executors.cpp:185-198 | between two stretches of the executor only the fiber that it switched to runs |
| FiberExecutor.SwapIsACall | inc/fcontext.h:145-147 | to the executor every swap is a call: registers, control words, stack pointer and local variables are back, only the target has run, and the handle returned is the target's |
| FiberExecutor.YieldIsACall | src/request_executors.cpp:185-198 | a request resumed by the handle its swap returned, however many others ran in between, continues after its yield with everything as it left it, and with the executor's handle that it has had since its entry |
| Filler.StepKeepsInv | src/request_executors.cpp:326-401 | every scheduler, filler and device step keeps the protocol |
| Filler.FillerWatchesTheOutstandingRequest | src/request_executors.cpp:389-398 | whenever a filler runs, p_sig is the record of the one request that is submitted and not resumed |
| Filler.HandsBackWhenCompleted | inc/inline/probe_point.ipp:12-19 | control comes back only with that record completed, and there is at most one swap to a filler per request |
| Filler.FillersAreResumedProperly | src/request_executors.cpp:390-398 | no filler is entered twice or resumed before it was entered |
| Filler.FreshFillersAreNeverResumed | src/request_executors.cpp:341-348 | with a fresh filler per request the resuming branch is dead |
| Filler.ResumedAfterCompletion | src/request_executors.cpp:386-401 | requests are resumed in order after their own completion, and the loop ends with all of them resumed |
| FillerScheduler.AfterIsARun | src/request_executors.cpp:326-401 | every state of the program is a state of a run, so the protocol holds in it |
| FillerScheduler.Scheduler.StartRequest | src/request_executors.cpp:386-388 | the request is entered, submitted and has yielded |
| FillerScheduler.Scheduler.PrepareFiller | src/request_executors.cpp:341 | only the multiple-filler form forgets that a filler was started |
| FillerScheduler.Scheduler.EnterFiller | inc/inline/probe_point.ipp:21-24 | a first swap enters filler 0 of the single-filler form or the one of the request's own index, which had not been started, with the request's record as signal |
| FillerScheduler.Scheduler.ResumeFiller | inc/inline/probe_point.ipp:12-19 | a later swap resumes the filler that handed over last, which is suspended, with the outstanding record as its new signal |
| FillerScheduler.Scheduler.Fill | inc/inline/probe_point.ipp:12-19 | the probing filler comes back with its signal set, no later than in the first turn that completes its record, or is still probing when the device's turns are over and none has |
| FillerScheduler.Scheduler.FillUntilCompleted | src/request_executors.cpp:342-349 | the inner loop ends with the outstanding record completed, and does end if turns that complete every record are left |
| FillerScheduler.Scheduler.Execute | src/request_executors.cpp:326-401 | against any turns of the device the loop ends with all requests resumed, all records completed and no filler misused, or has used up the turns; it ends if any w consecutive turns complete every record and there are total * (w + 6) of them |
| ThreePhase.StepKeepsInv | inc/inline/three_phase_components.ipp:106-222 | every worker step and every completion, in any order, keeps each request's buffers at exactly its own progress |
| ThreePhase.PostProcessedMeansComposed | inc/inline/three_phase_components.ipp:106-222 | under any template, any order of completions and any interleaving, a post-processed request's output is the last function's on the accelerated function's output, which is that function's on the first one's output and reported size, and its input is unchanged |
| ThreePhase.UntouchedBeforeStart | src/three_phase_components.cpp:38-67 | the buffers of requests that have not been started are as allocated |
| ThreePhase.TemplatesAgree | inc/inline/three_phase_components.ipp:106-222 | finished runs of the three templates leave the same buffers |
| ThreePhaseTemplates.AfterIsARun | inc/inline/three_phase_components.ipp:106-222 | every state of the program is a state of a run |
| ThreePhaseTemplates.TurnDeliversSubmitted | inc/inline/three_phase_components.ipp:106-187 | a turn of the accelerator completes every submitted request it contains |
| ThreePhaseTemplates.IdleForAWhile | src/request_executors.cpp:25-36 | with fair turns a yielding executor that waits for its oldest request waits fewer than w turns and has some left |
| ThreePhaseTemplates.Process.GpcoreThreePhase | inc/inline/three_phase_components.ipp:193-222 | the on-core template takes exactly its steps of the interleaving |
| ThreePhaseTemplates.Process.BlockingThreePhase | inc/inline/three_phase_components.ipp:148-187 | the blocking template, with the accelerator completing at any moment after the submission, goes on only from a completed record and reaches the interleaving's state; fair turns let it go on |
| ThreePhaseTemplates.Process.YieldingThreePhase | inc/inline/three_phase_components.ipp:106-130 | the yielding template up to its swap back leaves the request submitted and the executor at its loop |
| ThreePhaseTemplates.Process.PostProcess | inc/inline/three_phase_components.ipp:135-136 | a resumed request is post-processed as the interleaving prescribes, and then holds the composition of its three functions |
| ThreePhaseTemplates.Process.AwaitCompletion | inc/inline/three_phase_components.ipp:173 | the wait ends only with the request's own record completed, and no later than in the first turn that completes it |
| ThreePhaseTemplates.Process.LookAtHead | src/request_executors.cpp:25-36 | the loop ends when all are resumed, else a completed oldest record is resumed, else the next request is started, if there is one |
| ThreePhaseTemplates.Process.Execute | src/request_executors.cpp:25-36 | under any template and any completions the executor's loop ends with every request's output being the three functions' one on the output of the other, or has used up the accelerator's turns; it ends if any w consecutive turns complete every record and there are n * (w + 6) of them |
| Chain.SwapKeepsInverse | src/payload_gen.cpp:34-37 | a swap of two elements keeps a list a permutation |
| Chain.ShufflePlaces | src/payload_gen.cpp:30-38 | position i gets the element at rand() % (i + 1), which gets the one at i in return, positions above i stay, and the rest is the shuffle from i - 1 on |
| Chain.ShuffleKeepsInverse | src/payload_gen.cpp:30-38 | for every outcome of rand() the shuffle yields a permutation |
| Chain.EveryOrderIsPossible | src/payload_gen.cpp:30-38 | every permutation is the outcome of some random numbers |
| Chain.RandomPermutation | src/payload_gen.cpp:27-39 | the in-place loop performs that shuffle, for empty and one-element arrays too: the last element is the one that was at rand() % n, and every round exchanges positions i and rand() % (i + 1) and nothing else |
| Chain.ShuffledLines | src/payload_gen.cpp:62-66 | the index array ends as the shuffled line numbers |
| Chain.LinkLines | src/payload_gen.cpp:68-71 | the stored pointers lead from each line in order to the next and from the last to the first |
| Chain.PointersOf | src/payload_gen.cpp:51-55 | word 8 * order[k] of a chain holds the start address plus 64 * order[k + 1], and that of the last line leads to order[0] |
| Chain.CreateRandomChainStartingAt | src/payload_gen.cpp:59-74 | fresh memory anywhere is a chain in the shuffled order for the given start address, pointer by pointer |
| Chain.CreateRandomChain | src/payload_gen.cpp:41-57 | the pointers form a single cycle through all size / 64 lines of the memory's own address range, in the shuffled order |
| Chain.RelocatedChain | three_phase.cpp:57-59 | once its bytes are copied to the start address, the relocated chain is a chain there |
| Chain.FollowGoesAround | src/pointer_chase.cpp:6-9 | n dereferences from any line lead n places around the cycle |
| Chain.BackAfterEveryRound | src/pointer_chase.cpp:6-9 | the walk from any line is back exactly after the multiples of the number of lines |
| Chain.ReachesEveryLine | src/pointer_chase.cpp:6-9 | every line is reached from every line within one round: the pointers form a single cycle |
| Chain.ChasePointers | src/pointer_chase.cpp:4-14 | every dereference stays inside the buffer, and the walk ends where it began exactly when count is not positive or a multiple of the number of lines |
| Chain.DebugChain | src/pointer_chase.cpp:16-28 | the loop terminates and counts exactly the lines of the cycle |
| Chain.CountFreshChain | src/pointer_chase.cpp:16-28 | for every outcome of rand() and every address, a fresh chain is counted as size / 64 pointers |
| Chain.CountCopiedChain | three_phase.cpp:57-59 | so is a chain made elsewhere for a buffer, once its bytes have been copied there |
| PostingList.MergeLength | inc/inline/posting_list.ipp:14-26 | the intersection is no longer than either input, so a result list as long as the shorter one suffices |
| PostingList.MergeIsIntersection | inc/inline/posting_list.ipp:14-26 | for sorted lists the two-cursor merge is the multiset intersection |
| PostingList.MergeIsSorted | inc/inline/posting_list.ipp:14-26 | and it is sorted |
| PostingList.NoNodeTwice | src/posting_list.cpp:29-44 | a list that ends has no node twice |
| PostingList.IntersectPostingLists | inc/inline/posting_list.ipp:9-27 | the merge overwrites the front of the result list; its tail, its links and both inputs stay; the list is overrun if and only if the merge is longer than it, and then holds the first documents of the merge |
| PostingList.BuildHostList | src/posting_list.cpp:29-44 | for every length a fresh list of the documents 0 to length - 1, or of length - 1 alone below one |
| PostingList.BuildLlcList | src/posting_list.cpp:5-27 | the copying builder makes a list of the same documents, although nodes are filled in through a staging node |
| PostingList.FreeList | src/posting_list.cpp:46-54 | every node is freed once, in list order, and none is read after it was freed |
| Timing.GenDiffArray | inc/timer_utils.h:18-21 | differences modulo 2^64, also when the arrays coincide |
| Timing.DoSumArray | inc/timer_utils.h:23-25 | samples 1 to iter - 1 are summed modulo 2^64, and the divisor is the full count |
| Timing.WrappedSpans | inc/timer_utils.h:18-25 | wrapping each difference before summing gives the true sum modulo 2^64 |
| Timing.AvgSamplesFromArrays | inc/timer_utils.h:29-32 | the macro yields the average of the true spans' sum modulo 2^64; its last division has no effect |
| Timing.PhaseSumModulo | src/request_executors.cpp:95-112 | the four phase accumulators exceed the end-to-end one by a multiple of 2^64 |
| Timing.PhasesAccountForTheWhole | src/request_executors.cpp:95-112 | the four averages sum to at most the end-to-end average and fall short by at most 3 if and only if the accumulators together stay below 2^64 |
| Timing.OrderedStampsSuffice | src/request_executors.cpp:95-112 | with ordered stamps whose true total fits a word the accumulators are the true sums, so the condition holds |
| Timing.ShortSamplesSuffice | src/request_executors.cpp:95-112 | with ordered stamps and samples below 2^33 cycles the condition holds, so the phases account for the whole |
| Timing.LongSamplesBreakTheBreakdown | src/request_executors.cpp:95-112 | ordered stamps for which the end-to-end average is 0 and the phases add up to about 2^64 / 3 |
| Timing.RequestBreakdown | src/request_executors.cpp:95-112 | the four calls over one scratch array return four averages related to the whole as above |
| TimedTemplates.InOrderIsAccountedFor | src/request_executors.cpp:95-112 | stamps taken in order, in short samples, have a breakdown within 3 cycles of the whole |
| TimedTemplates.TimedRun.TimedUntilSwap | inc/inline/three_phase_components.ipp:22-33 | up to its swap a timed request stores three consecutive readings of the counter as its first three stamps |
| TimedTemplates.TimedRun.TimedAfterOffload | inc/inline/three_phase_components.ipp:41-45 | after the offload it stores two more |
| TimedTemplates.TwoRequests | src/request_executors.cpp:101-112 | two requests, the second with 10 cycles of pre-processing and 100 of offload tax, report 5, 50, 0 and 0 under these names |
| TimedTemplates.LogIs | src/request_executors.cpp:133-144 | each turn of the loop resumes the oldest request if its poll finds it completed, and otherwise starts the next one, if there is one |
| TimedTemplates.StampsOfTurn | inc/inline/three_phase_components.ipp:22-45 | the turn that starts a request fills its first three stamps with consecutive readings, and the one that resumes it its last two |
| TimedTemplates.TimedRun.ReportBreakdown | src/request_executors.cpp:101-112 | each average is that of its own two stamps under its own name, and in order and short they account for the whole |
| TimedTemplates.TimedRun.ExecuteBlocking | src/request_executors.cpp:72-113 | request i is stamped with readings 5 * i to 5 * i + 4; pre-processing, offload tax, function and post-processing are reported as the averages between neighbouring stamps; for every counter that never steps back and short samples they account for the whole within 3 cycles |
| TimedTemplates.TimedRun.ExecuteYielding | src/request_executors.cpp:115-163 | the same for yielding requests, started and resumed as the polls prescribe, each stamped in its own turns; it finishes if enough polls find completed records |
| Timing.AvgFromArray | src/stats.cpp:5-11 | the wrapped sum of all samples over their number |
| Timing.AverageIsTheMean | src/stats.cpp:5-11 | this is the mean rounded down if and only if the true sum fits a word |
| Timing.WrappedSquare | src/stats.cpp:17 | squaring a wrapped difference gives the true square modulo 2^64 |
| Timing.SquaresAddUp | src/stats.cpp:15-18 | the sum of squared deviations is the sum of squares, less twice the centre times the sum, plus n times the square of the centre |
| Timing.NoVariance | src/stats.cpp:13-18 | samples that are all equal deviate by nothing, if their sum fits a word |
| Timing.VarianceFromArray | src/stats.cpp:13-18 | the accumulated deviations from the mean are the true sum of squares modulo 2^64, and equal samples have none |
| Sampling.SlotBound | src/request_executors.cpp:189-192 | the stamp index stays below total / interval + 1 |
| Sampling.CompletionsOfBoth | src/request_executors.cpp:185-192 | the completions of a run are the clocks of exactly the polls that found a completed record, in order |
| Sampling.ExecuteWithSampling | src/request_executors.cpp:167-203 | for any polls: once all requests have completed slot 0 holds the start and slot k the clock at completion k * interval, the cells reported are the differences of neighbouring slots modulo 2^64, and nothing else is written |
| Sampling.WindowsTelescope | src/request_executors.cpp:199-202 | the execution times sum to the last stamp minus the first modulo 2^64 |
| Sampling.OrderedWindowsAddUp | src/request_executors.cpp:199-202 | with ordered stamps they do so exactly |
| Sampling.WindowsOfARun | src/runners.cpp:372-373 | a run never reports fewer windows than asked for, and exactly as many if and only if total % samples < total / samples |
| Sampling.RunsTileExactly | src/runners.cpp:372-387 | for all totals, sample counts and iterations: no division by zero, every cell of the result array written exactly once and none outside, if and only if samples > 0 and total % samples < total / samples; with a positive interval the last run otherwise writes past the end |
| Sampling.SevenRequestsInFourSamples | src/runners.cpp:372-387 | a configuration that fails |
| Sampling.RunYieldingOfferedLoad | src/runners.cpp:372-387 | under the condition, slice i of the result array holds the execution times of run i |
| Sampling.CellOfSlice | src/runners.cpp:372-387 | cell k of slice i is the time in run i from completion k * interval, or the start, to completion (k + 1) * interval |

## Left out

- Furc.ExhaustionMovesAKey: gives a bit stream for every pair of sizes; that some key has such a stream is shown for 32 and 33 shards.
- Furc.GrowthIsSafeExactly: speaks about streams for the same reason.
- Furc.MinimalMovement: says nothing about how many keys move on average or how evenly they spread.
- OffloadDevice.DeadlinesAreKept: assumes that the clock plus the offload time has not reached 2^64; OffloadDevice.EarlyExactlyWhenWrapped shows that no less will do.
- OffloadProgress.FairRunsEnd: readings of the clock are unbounded numbers and only deadlines are computed modulo 2^64, so this, like everything said of the emulated accelerator, is about the program while its clock is below 2^64.
- ThreePhase.TemplatesAgree: speaks about runs that finish; the accelerator may never complete a descriptor.
- ThreePhaseTemplates.Process.Execute: ends only with fair turns, for the same reason.
- Fibers.Machine.JumpFcontext: memory is one cell per datum and addresses do not wrap; overlapping partial accesses do not occur in the code.
- FiberSystem.StepKeepsInv: a stack that was freed is used again as a whole; how the allocator divides memory is not modelled.
- PostingList.IntersectPostingLists: ends where the program would write through the null cursor, and requires that the result list shares no node with the inputs.
- Chain.CreateRandomChain: requires at least one line, and so does Chain.CreateRandomChainStartingAt; with a size below 64 the program indexes its empty array at -1.
- TimedTemplates.TimedRun.ExecuteYielding: what the polls find is an argument, and a poll of a request that has not been started finds it pending; the timed on-core template and the breakdowns of the other executors repeat the pattern.
- Timing.VarianceFromArray: stops before the floating-point square root.
- Sampling.RunYieldingOfferedLoad: is stated where Sampling.RunsTileExactly holds; the division by zero and the overrun beyond it are not executed in the model.
- Sampling.ExecuteWithSampling: what the polls of the completion records and the clock return is an argument; that requests complete in this way is the subject of the Offload files.
- One worker only: src/offload.cpp's mailbox has no protection against a second one.
- Memory is sequentially consistent; effects of weak ordering on plain fields such as `comp->status` are not modelled.
- `p_dst_buf` (src/offload.cpp:11) is written and never read by the device, so it is not modelled; nor are the counters kept for logging.
- The shutdown of the device thread (`keep_running`) and thread pinning.
- src/request_executors.cpp's best-case executor: the loop of the filler executors with an idle wait in place of the filler.
- `gen_compressible_buf`, `median_from_array`, and the dot products over posting lists: easy or floating point.
- src/context_fast.S and src/ontop_x86_64_sysv_elf_gas.S: nothing modelled here calls them.
- The probed copies of the hash in inc/filler_hash.h repeat src/ch3_hash.cpp.
- The gather and scatter kernels, hardware submission, compression and encryption libraries, generated protobuf code, command lines, logging and scripts.
