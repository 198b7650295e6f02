# A verified model of the coverage-guided fuzzer

The project models the fuzzer's own logic and proves what it is for. It has six parts.

- **Mixer and mutation engine** (`Words`, `Mixer`, `Decimal`, `Bytes`, `Inputs`, `Strategies`, `StrategyLaws`, `ScheduleLaws`,
  `Mutator`, `LongTexts`).
  The in-place strategies over the 1025-byte buffer are methods, each proved against a function on
  texts; the laws are proved of those functions, for any sequence of visited positions.
- **Input queue** (`QueueSchedule`, `InputQueue`). Two singly linked lists, with a value-level schedule for the fairness bounds.
- **Coverage** (`Coverage`, `CoverageMap`, `Guards`). The bitmap, the chained hash set, and the target's side of the shared buffer.
- **Runner pool and pipes** (`RunnerLists`, `RunnerPool`, `Framing`). The four arrays with their shift and filter
  loops, and the length-prefixed stream under short transfers and interruptions.
- **Dispatch protocol** (`Dispatch`, `DispatchSafety`, `DispatchLaws`, `Termination`). One fuzzer and any number of runners as a
  transition system: pipe contents, runner phases, pending signals and handler flags, the lists and the counters.
  Signals are delivered only while the fuzzer is suspended, and pending ones coalesce. Runners may die at any
  point and sends may fail.
- **The system** (`Campaign`, `Ownership`, `Placement`, `CampaignEnds`, `Spinning`, `Feedback`, `FeedbackLaws`,
  `FeedbackGap`, `FeedbackRace`,
  `WholeSystem`, `FuzzerSteps`). The protocol together with the queue and the ownership of inputs, together with the
  accumulating coverage buffers, and with both; `FuzzerSteps` holds the bodies of the
  fuzzer's inner loops on the real structures.

Machine words are numbers below 2^64 with explicit wrap-around; bytes are 8-bit vectors. A runner is its id, an input in the
system part is the number `make_input` gave it. `dafny verify dfyconfig.toml` checks the whole project.

## Assumptions

- Allocation succeeds, and the runners named as started have been launched.
- Seed lines have at most 1024 characters. `mutate` copies at most that many, but takes the length unclamped
  (`LongTexts` says exactly which entries of its schedule stay inside the buffer all the same).
- The target total plus the number of runners is below 2^31, so that the source's `int` counters hold their values.
- A live runner's pipes do not fail halfway: a failed send leaves no complete request behind.
- The alarm of a run does not expire between the target's exit and `alarm(0)`; such an alarm would end the next receive, which
  the model can only show as the death of the runner.
- A target does not outlive its runner.
- A target's modules have fewer than 4096 guards between them.
- The runners' shared coverage buffers are separate memory from the coverage map's own bitmap.

## Where code and documentation differ

The model follows the code.

- `Mutation.md` has strategies 9, 10 and 11 change bits and bytes in place; the result is cut at the first NUL they create.
  `StrategyLaws.FlippingKeepsLength` and `StrategyLaws.BumpingKeepsLength` say exactly when the length is kept, for every
  entry of the schedule that uses them; `StrategyLaws.FlippingCanEmpty` and `StrategyLaws.BumpingCanEmpty` give a text for
  each strategy that is emptied.
- `coverage_map.h` promises high priority for a branch that no prior execution has taken. The code is about the bitmap, which
  has the edges of valid results only, and about a buffer that is cleared only once. So an edge can be credited that a run of
  the same runner took before it crashed or timed out (`FeedbackGap.HighWithoutNewEdge`), and one that a crashed run of
  another runner took (`FeedbackRace.HighForKnownEdge`). Whichever edges a run takes, the promise holds exactly when the bitmap
  has the edges of all other runs (`Feedback.PromiseExactly`).
- `runner.h` has a runner with nothing to run return no active input; the code never clears the field.
  `DispatchSafety.ActiveInputExactly` says what it is in every run, `FeedbackGap.IdleRunnerKeepsInput` gives a run that ends with
  an idle runner whose field is set.
- `fuzzer.h` has the loop go on until the limit is reached or a terminating signal has been sent. From the first turn on the
  signals are blocked except in `sigsuspend`, and a loop with nothing active and nothing to send never gets there: with an
  empty seed file it turns for ever, unless a death or a request to stop came earlier (`Spinning.NoSeedsSpins`,
  `Spinning.NoSeedsExitExactly`). `Spinning.CanExitExactly` says when the loop can still be ended.

## Model

| member | source | states |
|---|---|---|
| `Mixer.UnhashHash` | fuzzer/src/global.c:8-13 | every 64-bit word comes back from its hash: undoing the three xor-shifts and multiplying by the inverses of the two odd constants inverts the mixer |
| `Mixer.HashUnhash` | fuzzer/src/global.c:8-13 | the converse round trip: every 64-bit word is the hash of the word computed for it |
| `Mixer.HashIsBijection` | fuzzer/src/global.c:8-13 | each hash value has exactly one preimage among the 64-bit words |
| `Mixer.HashOfUndone` | fuzzer/src/global.c:8-13 | wherever the first product is below 2^27 the hash is the second product xor-shifted by 31, with the two constants in their order |
| `Mixer.HashOfShifted` | fuzzer/src/global.c:8-13 | and where it is 2^27 the shift by 27 between the products shows |
| `Decimal.TextRoundTrip` | fuzzer/src/mutator.c:90-94 | the decimal text of a hash narrowed to a signed 32-bit integer reads back as that integer and fits the 32-byte buffer with its terminator |
| `Decimal.TextForm` | fuzzer/src/mutator.c:90-94 | that text is a minus sign exactly for negative numbers and then decimal digits without leading zeros, so there is only one |
| `Inputs.Input.constructor` | fuzzer/src/input.c:11-30 | a new input holds the buffer up to its first NUL and starts in mutation state 0 |
| `Inputs.Input.StateStep` | fuzzer/src/input.c:72-79 | returns the state before the increment; the state wraps as a 64-bit counter |
| `Mutator.Position` | fuzzer/src/mutator.c:9-22 | the loop computes the recursive H of Mutation.md, including the case n = 0 |
| `ScheduleLaws.HIterates` | fuzzer/src/mutator.c:9-22 | H is the end of every chain that starts at S and goes on by hashing and reducing modulo n, m times |
| `ScheduleLaws.PlacesAre` | fuzzer/src/mutator.c:159-160 | K is S / 37 + 1 narrowed to an int, unchanged for states below 2^31, and the loops have (K + 1) / 2 turns, none for a negative K |
| `Mutator.FillToLength` | fuzzer/src/mutator.c:24-39 | strategy 1 leaves a text of length min(2^K, 1024): the old text, of whatever length, cut or padded with 'a' |
| `Mutator.DuplicateText` | fuzzer/src/mutator.c:41-56 | strategy 2 leaves character i equal to the old character i mod N, up to 1024 or the size_t product N(K+1); no copy overlaps its source |
| `StrategyLaws.DuplicateClosedForm` | fuzzer/src/mutator.c:42-43 | for texts within the bound and K not negative that length is min(N(K+1), 1024) |
| `Mutator.LengthenText` | fuzzer/src/mutator.c:58-69 | strategy 3 keeps the text and appends up to L characters, each the old character at H |
| `StrategyLaws.LengthenReadsItself` | fuzzer/src/mutator.c:58-69 | reading the appended characters off the mutated text, as Mutation.md defines them, gives the same text, since every position lies in the old one |
| `Mutator.TruncateText` | fuzzer/src/mutator.c:71-75 | strategy 4 leaves the proper prefix of length H |
| `Mutator.InjectString` | fuzzer/src/mutator.c:77-88 | strategy 5 leaves what the successive clipped writes make of the text, and length N |
| `Mutator.InjectRandomNumber` | fuzzer/src/mutator.c:90-94 | strategy 6 is strategy 5 with the decimal text of the narrowed hash |
| `Mutator.InjectSubstring` | fuzzer/src/mutator.c:96-115 | strategy 7 writes the substring of the text as it was before any write, even where writes overlap it |
| `Mutator.InjectCharacter` | fuzzer/src/mutator.c:117-121 | strategy 8 writes one character at each of the p positions |
| `StrategyLaws.InjectionLaw` | fuzzer/src/mutator.c:77-121 | each character of the result comes from the last write whose clipped window covers it, at that write's offset, or else is the old character |
| `StrategyLaws.SomeWriterOrNone` | fuzzer/src/mutator.c:77-121 | for every character there is a last covering write or no covering write, so the injection law decides every character |
| `StrategyLaws.InjectNulFree` | fuzzer/src/mutator.c:77-121 | injecting a NUL-free text into a NUL-free text leaves no NUL |
| `Mutator.FlipBitRuns` | fuzzer/src/mutator.c:123-137 | strategy 9 leaves what flipping the p runs one after the other makes of the text; a run stops at the last bit |
| `StrategyLaws.FlipParity` | fuzzer/src/mutator.c:123-137 | a bit of the result differs from the original exactly when an odd number of the p runs contain it |
| `StrategyLaws.FlipTwice` | fuzzer/src/mutator.c:123-137 | flipping the same runs a second time restores the text |
| `Bytes.MaskIs` | fuzzer/src/mutator.c:134 | the mask of bit k of a byte is 2^k |
| `Mutator.BumpBytes` | fuzzer/src/mutator.c:139-149 | strategies 10 and 11 leave what the p successive increments or decrements make of the text |
| `StrategyLaws.BumpCounts` | fuzzer/src/mutator.c:139-149 | a byte moves by its number of hits modulo 256, so the order of the visits does not matter |
| `StrategyLaws.BumpBack` | fuzzer/src/mutator.c:139-149 | strategies 10 and 11 at the same positions undo each other, both ways round |
| `Mutator.Apply` | fuzzer/src/mutator.c:151-280 | whatever the schedule picks, every access stays inside the 1025-byte buffer and the buffer ends terminated at the new length; under strategies 1 and 2 also for a text longer than the buffer |
| `Mutator.Mutate` | fuzzer/src/mutator.c:151-283 | the mutant's text is the scheduled mutation of the text, with K narrowed to int, cut at the first NUL; only the state of the input changes, by one |
| `ScheduleLaws.LiteralEntries` | fuzzer/src/mutator.c:172-276 | for each of the 15 entries with a literal text or character: the last clipped write at H to reach a character decides it, with that entry's text, and the others are unchanged |
| `ScheduleLaws.SliceEntries` | fuzzer/src/mutator.c:169-276 | entries 0, 18, 30 and 35 do so with the 1, 2, 8 or 4 characters of the original text from the first position on, at the positions from the second on |
| `ScheduleLaws.NumberEntry` | fuzzer/src/mutator.c:238-240 | entry 23 does so with the decimal text of the hash of the state narrowed to an int |
| `ScheduleLaws.LengthenEntries` | fuzzer/src/mutator.c:175-273 | entries 2, 5, 9, 11, 15, 20, 26 and 34 keep the text and append 4, 7, 1, 8, 2, 3, 5 or 6 characters, as far as there is room, each the original one at H |
| `ScheduleLaws.RepeatEntry` | fuzzer/src/mutator.c:193-195 | entry 8 leaves min(N(K+1), 1024) characters, character i being the original one at i mod N; also for a K that narrowing makes negative |
| `ScheduleLaws.FillEntry` | fuzzer/src/mutator.c:220-222 | entry 17 leaves min(2^K, 1024) characters of the text followed by 'a' |
| `ScheduleLaws.CutEntry` | fuzzer/src/mutator.c:235-237 | entry 22 leaves the first H characters |
| `ScheduleLaws.FlipEntries` | fuzzer/src/mutator.c:187-279 | entries 6, 13, 31 and 36 leave, up to the first NUL, the text whose bits differ exactly where an odd number of the runs of 1, 4, 8 or 2 bits at H reach |
| `ScheduleLaws.BumpEntries` | fuzzer/src/mutator.c:190-255 | entry 28 moves each byte up, and entry 7 down, by its number of visits modulo 256, and cuts at the first NUL |
| `StrategyLaws.MutationCloses` | fuzzer/src/mutator.c:151-283 | from a NUL-free text of at most 1024 characters every state yields another; outside strategies 9 to 11 make_input cuts nothing off |
| `StrategyLaws.BumpingKeepsLength` | fuzzer/src/mutator.c:139-149 | strategies 10 and 11, at their entries 28 and 7, keep the length exactly when no byte is hit around to zero |
| `StrategyLaws.FlippingKeepsLength` | fuzzer/src/mutator.c:123-137 | strategy 9, at its entries 6, 13, 31 and 36, keeps the length exactly when every byte has a bit that was set and is in an even number of runs, or was not and is in an odd number |
| `StrategyLaws.BumpingCanEmpty` | fuzzer/src/mutator.c:190-255 | texts that do not keep their length: the single byte 255 in state 28 and the single byte 1 in state 7 mutate to the empty text |
| `StrategyLaws.FlippingCanEmpty` | fuzzer/src/mutator.c:187-189 | and so does, in state 6, the single byte whose one bit is the one visited |
| `LongTexts.ShortStaysInside` | fuzzer/src/mutator.c:24-149 | for lengths up to 1024 every entry reads and writes inside the 1025 bytes, in every state |
| `LongTexts.LongStaysInside` | fuzzer/src/mutator.c:24-280 | for longer ones the scheduled entry stays inside exactly when it fills or repeats, or does not lengthen and every stretch it visits ends in the buffer, unless cut at a text of 1025; given in the visited positions for each strategy |
| `LongTexts.LongLeaves` | fuzzer/src/mutator.c:58-69 | every longer text leaves the buffer in state 2, where four characters are appended |
| `QueueSchedule.RotatePermutes` | fuzzer/src/input_queue.c:162-178 | dequeuing keeps the multiset of the list it rotates |
| `QueueSchedule.LowFairness` | fuzzer/src/input_queue.c:142-181 | an input at position p of the low list is returned within 10(p+1) dequeues, whatever is enqueued meanwhile |
| `QueueSchedule.HighFairness` | fuzzer/src/input_queue.c:142-181 | an input at position p of the high list is returned within (p+1) + ceil((p+1)/9) dequeues, whatever is enqueued meanwhile |
| `QueueSchedule.NineToOne` | fuzzer/src/input_queue.c:142-181 | with both lists nonempty any 10k consecutive dequeues take exactly 9k from the high list and k from the low one |
| `InputQueue.List.Enqueue` | fuzzer/src/input_queue.c:23-41 | the linked list stays well formed and gains the input at its end |
| `InputQueue.List.Contains` | fuzzer/src/input_queue.c:46-62 | the traversal finds the text exactly when some queued input has it |
| `InputQueue.List.TakeAndRotate` | fuzzer/src/input_queue.c:162-178 | the head node is relinked behind the tail: the list is rotated by one and its head's input is returned |
| `InputQueue.InputQueue.constructor` | fuzzer/src/input_queue.c:67-83 | a new queue is well formed, empty, and at cycle index 0 |
| `InputQueue.InputQueue.IsDuplicate` | fuzzer/src/input_queue.c:43-65 | true exactly when either list has an input with that text |
| `InputQueue.InputQueue.EnqueueHigh` | fuzzer/src/input_queue.c:118-128 | refused exactly when the text is queued already; otherwise appended to the high list; texts stay pairwise distinct across the lists |
| `InputQueue.InputQueue.EnqueueLow` | fuzzer/src/input_queue.c:130-140 | the same for the low list |
| `InputQueue.InputQueue.Dequeue` | fuzzer/src/input_queue.c:142-181 | nine turns of ten take the front of the high list and the tenth that of the low one, or of the other list if that one is empty; the list is rotated and the cycle index goes on modulo 10; null and no change when both are empty |
| `Coverage.NewEdge` | fuzzer/src/coverage_map.c:61-67 | the bytewise test notices a change exactly when the data has an edge that the bitmap lacks |
| `Coverage.PriorityByEdges` | fuzzer/src/coverage_map.c:72-100 | comparing whole buffers in the hash set is comparing sets of edges |
| `Coverage.PrioritiesAre` | fuzzer/src/coverage_map.c:92-100 | high priority exactly for an edge outside the union of the history, low exactly for a new buffer inside it, none exactly for a buffer of the history |
| `Coverage.AllEdgesAre` | fuzzer/src/coverage_map.c:61-67 | the edges of a history are those of its buffers, and no others |
| `Coverage.HighIsBounded` | fuzzer/src/coverage_map.c:92-100 | over any history at most 4096 additions are of high priority |
| `CoverageMap.CoverageMap.constructor` | fuzzer/src/coverage_map.c:31-37 | a new map agrees with the empty history |
| `CoverageMap.CoverageMap.OrIn` | fuzzer/src/coverage_map.c:61-67 | the bitmap gains exactly the edges of the data, and the flag says whether one was new |
| `CoverageMap.CoverageMap.HashIndex` | fuzzer/src/coverage_map.c:22-29 | the FNV-1a loop over the buffer gives its bucket |
| `CoverageMap.FnvSteps` | fuzzer/src/coverage_map.c:22-29 | from the FNV offset each byte is xored in and then the product with the FNV prime taken, modulo 2^64 |
| `CoverageMap.CoverageMap.InChain` | fuzzer/src/coverage_map.c:72-80 | the walk finds the buffer exactly when the chain holds it |
| `CoverageMap.CoverageMap.Add` | fuzzer/src/coverage_map.c:54-101 | after any additions the bitmap is the union of all and each distinct buffer is once in its own chain; the priority is high exactly for a new edge, low exactly for a new buffer of known edges, none exactly for a known buffer |
| `Guards.Recorder.NumberGuards` | fuzzer/programs/coverage.c:17-43 | numbers the guards of a module consecutively from the static counter, or, in the cases the code rejects, changes nothing |
| `Guards.TraceGuard` | fuzzer/programs/coverage.c:45-50 | for a guard number with a bit in the buffer, the buffer gains exactly the edge of the guard, and nothing for guard 0 |
| `Guards.NumberingIsUnique` | fuzzer/programs/coverage.c:17-43 | over all accepted modules guard numbers are distinct and nonzero; they all have a bit in the map exactly when there are fewer than 4096 of them together |
| `Guards.NumberLeavesMap` | fuzzer/programs/coverage.c:23-42 | two accepted modules, of 4095 guards and of one, whose last guard has no bit in the map |
| `RunnerPool.RemoveRunner` | fuzzer/src/runner.c:459-469 | the in-place shift removes the first occurrence of the runner and moves the rest up, or changes nothing |
| `RunnerPool.WithoutAt` | fuzzer/src/runner.c:459-469 | removing a runner that stands behind others takes out that one and leaves what is before and behind it |
| `RunnerPool.MoveReadable` | fuzzer/src/runner.c:571-584 | the loop that removes while it iterates splits the array into its unreadable members, in order, and appends the readable ones, in order |
| `RunnerPool.RunnerPool.constructor` | fuzzer/src/runner.c:471-492 | pool and ready hold exactly the runners that started, by ascending id; active and done are empty |
| `RunnerPool.RunnerPool.SubmitInput` | fuzzer/src/runner.c:510-524 | the first ready runner leaves the ready list and, if the send succeeds, becomes the last active one; it is in no list otherwise |
| `RunnerPool.RunnerPool.CheckIfJobsDone` | fuzzer/src/runner.c:554-585 | exactly the active runners with a readable pipe move, in their order, to the end of done; no array overflows |
| `RunnerPool.RunnerPool.ProcessResult` | fuzzer/src/runner.c:587-601 | the first done runner leaves the done list and becomes the last ready one |
| `RunnerPool.RunnerPool.Reap` | fuzzer/src/runner.c:603-634 | exactly the exited runners leave all four arrays; the result is an error exactly when waitpid failed for some other runner |
| `RunnerLists.FiltersSplit` | fuzzer/src/runner.c:572-583 | the kept and the moved part of a list have together the members of the list, with multiplicity |
| `RunnerLists.FirstMembers` | fuzzer/src/runner.c:572-583 | the two parts have exactly the members inside, respectively outside, the set |
| `RunnerLists.FiltersKeepOrder` | fuzzer/src/runner.c:572-583 | two members of either part stand in the order they had |
| `RunnerLists.SubmittedValid` | fuzzer/src/runner.c:510-524 | submitting keeps the lists duplicate-free, disjoint and inside the pool; the pool stays covered if the send succeeds |
| `RunnerLists.CheckedValid` | fuzzer/src/runner.c:554-585 | the check step keeps the partition |
| `RunnerLists.ProcessedValid` | fuzzer/src/runner.c:587-601 | processing a result keeps the partition |
| `RunnerLists.ReapedValid` | fuzzer/src/runner.c:603-634 | reaping keeps the partition |
| `RunnerLists.ListsFit` | fuzzer/src/runner.c:459-601 | the three lists together are never longer than the pool, and as long as it when no send has failed |
| `DispatchSafety.StepKeeps` | fuzzer/src/fuzzer.c:88-163 | every step of the fuzzer or of a runner keeps the protocol invariant: list partition, one token per runner, signals on the way, loop control and job counts |
| `DispatchSafety.NoLostWakeup` | fuzzer/src/fuzzer.c:98-161 | in every reachable state, runner deaths included, a status of an active runner has its signal sent, pending or seen, or the fuzzer is about to look; it never sleeps on one unsignalled |
| `DispatchSafety.StatusBelongs` | fuzzer/src/fuzzer.c:103-131 | a status being handled is about that runner's active input, a missing status means the runner is dead, and a live runner then has both pipes empty and no target executing |
| `DispatchSafety.JobsAccounted` | fuzzer/src/fuzzer.c:84-163 | received <= sent <= target always; at the loop head done is empty and sent minus received is the active runners plus those reaped while active |
| `DispatchLaws.ShutdownExactly` | fuzzer/src/fuzzer.c:88-163 | a shutdown is on exactly if it was at the start, a stop signal was delivered or a reaping took every runner left; only then can the loop exit with results still wanted |
| `DispatchLaws.SignalsExactly` | fuzzer/src/fuzzer.c:89-101 | pending signals and flags are raised by kills and deaths, moved by wakes, cleared by the two tests at the loop head, and by nothing else |
| `DispatchLaws.CountsExactly` | fuzzer/src/fuzzer.c:103-155 | sent counts the sends that went through, received the results handled, and the pool has lost exactly the runners reaped |
| `DispatchLaws.LostExactly` | fuzzer/src/runner.c:603-634 | the lost jobs are the active runners that each reaping took |
| `DispatchLaws.ReadyInTurn` | fuzzer/src/runner.c:510-524 | along any run the sends go to the ready runners in their order, unless one of them is reaped before |
| `DispatchLaws.ReadyIsServed` | fuzzer/src/runner.c:510-601 | so the runner at position p of the ready list is the one chosen by the (p+1)-th send from then on |
| `DispatchLaws.DoneInTurn` | fuzzer/src/runner.c:587-601 | results are taken in the order of the done list |
| `DispatchLaws.StatusesConserved` | fuzzer/src/runner.c:252-288 | what the fuzzer has read from a runner, followed by what is on the way, is how its runs have ended: no status is lost, changed, doubled or overtaken |
| `DispatchLaws.JobsConserved` | fuzzer/src/runner.c:191-250 | the jobs a runner has begun, followed by those in its pipe, are those sent to it, in order |
| `DispatchSafety.LostJobNeverArrives` | fuzzer/src/fuzzer.c:84-163 | received never exceeds the target less the runners reaped while active: after one such loss the loop ends only by a shutdown |
| `DispatchSafety.ActiveInputExactly` | fuzzer/src/runner.c:191-210 | in every run a runner's active input is the last one sent to it successfully, and NULL exactly until the first; while the runner is active or done it is the job in its pipes or under way |
| `DispatchSafety.NeverStuck` | fuzzer/src/fuzzer.c:157-162 | until the loop exits some step other than a death, a failed send or a shutdown is possible: blocking always has something to wait for |
| `DispatchSafety.PoolStaysCovered` | fuzzer/src/runner.c:510-634 | along any run without a failed send every runner of the pool is in one of the lists |
| `Termination.DecideEnds` | fuzzer/src/fuzzer.c:157-162 | in an undisturbed run the loop never spins: at its end it exits with all jobs received or sleeps with a job outstanding |
| `Termination.Progress` | fuzzer/src/fuzzer.c:88-163 | in an undisturbed run every step of any process lowers a natural number |
| `Termination.MainLoopTerminates` | fuzzer/src/fuzzer.c:88-163 | with at least one runner, and no death or shutdown before or in the run, no failed send and no empty queue, every run under any scheduling has at most 120 steps a job plus 9, can go on until the loop exits, and exits with all jobs received |
| `Campaign.CampaignRuns` | fuzzer/src/fuzzer.c:88-163 | a run of the whole system is a run of the protocol |
| `Ownership.SeedsAreLoaded` | fuzzer/src/fuzzer.c:59-71 | each seed becomes an input in state 0; the first of each text goes to the high list in the order of the file, and the later ones are freed |
| `Ownership.StepKeepsCampaign` | fuzzer/src/fuzzer.c:103-155 | every step keeps the ownership invariant of queue, flight, free list and mutation states |
| `Ownership.OnePlace` | fuzzer/src/fuzzer.c:107-155 | in every run an input has at most one place: it is queued once, or in flight with one runner, and never both; nothing freed is in either place, and queued texts are pairwise distinct |
| `Placement.LeakedExactly` | fuzzer/src/runner.c:603-634 | in every run the inputs neither freed nor queued nor in flight are exactly those of runners reaped while active and those whose result came without a status |
| `Placement.DroppedIsGone` | fuzzer/src/runner.c:615-622 | reaping an active runner leaves its input, in flight until then, not freed, not queued and not in flight |
| `Placement.EveryInputPlaced` | fuzzer/src/fuzzer.c:103-155 | in every run without a runner's death, before or in it, each input made so far is in exactly one place: freed, queued or in flight |
| `Ownership.FreedOnce` | fuzzer/src/fuzzer.c:111-155 | no step frees an input freed before, and what is freed is neither queued nor in flight afterwards |
| `Ownership.StateCountsUses` | fuzzer/src/fuzzer.c:133-155 | a queued input's mutation state is the number of times it was dequeued, at most the sends made and failed, so the narrowing to int in mutate loses nothing |
| `Ownership.WhatIsSent` | fuzzer/src/fuzzer.c:139-146 | the first dequeue of an input sends a copy; the one after k earlier dequeues sends its mutant in state k |
| `Ownership.TextsStaySmall` | fuzzer/src/fuzzer.c:59-155 | from seeds of at most 1024 characters every text of every run keeps to that bound |
| `CampaignEnds.CampaignTerminates` | fuzzer/src/fuzzer.c:59-163 | with at least one seed and one runner, a run without deaths and shutdown, before or in it, and without failed sends ends after a bounded number of steps with every job received and no input in flight |
| `CampaignEnds.NothingLeftOver` | fuzzer/src/fuzzer.c:59-163 | when such a run has ended, every input is either freed or queued |
| `Spinning.SpinsForever` | fuzzer/src/fuzzer.c:88-163 | with nothing active, nothing to send and no flag set the loop only goes round, whatever happens, and no signal is delivered any more |
| `Spinning.NoSeedsSpins` | fuzzer/src/fuzzer.c:59-163 | without seeds that is so from the first turn, unless a death or a request to stop was seen before it: the loop neither ends nor sleeps |
| `Spinning.NoSeedsExitExactly` | fuzzer/src/fuzzer.c:44-163 | without seeds some continuation ends the loop exactly when nothing is asked for, or a request to stop or a death was seen before the signals were blocked |
| `Spinning.CanExitExactly` | fuzzer/src/fuzzer.c:157-162 | at the end of every turn some continuation ends the loop exactly when it has enough results, a shutdown request, a runner active or something to send |
| `Spinning.LostJobStalls` | fuzzer/src/fuzzer.c:88-163 | a run that has reaped a runner with a job and received all others with its sends used up can no longer end |
| `Feedback.HighExactly` | fuzzer/src/fuzzer.c:107-122 | a valid result is of high priority exactly when the run, or an earlier run of that runner since its last valid result, took an edge the bitmap lacks |
| `Feedback.NewEdgeIsHigh` | fuzzer/src/fuzzer.c:111-115 | a valid run that took an edge absent from the bitmap is always of high priority |
| `Feedback.HighWhenAllValid` | fuzzer/src/fuzzer.c:107-122 | if all earlier results of the runner were valid, the priority is high exactly when the run itself took a new edge |
| `FeedbackLaws.MapHolds` | fuzzer/src/coverage_map.c:54-101 | in every run the bitmap is the union of the buffers read for valid results, and the hash set is their set |
| `FeedbackLaws.PrioritiesExactly` | fuzzer/src/fuzzer.c:111-122 | in every run a valid result is of high priority exactly if its buffer has an edge none of those buffers has, of none exactly if it is one of them, and of low otherwise |
| `FeedbackLaws.RecordsAre` | fuzzer/programs/coverage.c:45-50 | a runner's buffer has every edge it ever took; the present run, the other runs and all runs of the other theorems are those of the events of the run |
| `FeedbackLaws.OwedIs` | fuzzer/src/runner.c:84 | the left-over edges are those of the runs of the runner handled since its last valid result |
| `Feedback.PromiseExactly` | fuzzer/src/fuzzer.c:107-122 | an edge no other run took always gives high priority; high priority means such an edge, whichever edges the run takes, exactly when the bitmap has every edge of every other run |
| `FeedbackGap.HighWithoutNewEdge` | fuzzer/src/runner.c:84 | a complete run of the protocol in which an input whose run took no edge is of high priority for the edge of an earlier crash, as the buffer is cleared only once |
| `FeedbackRace.HighForKnownEdge` | fuzzer/src/fuzzer.c:111-131 | a complete run with two runners in which a valid result is of high priority for an edge a run of the other runner took before it crashed, with nothing left over from its own runner |
| `FeedbackGap.IdleRunnerKeepsInput` | fuzzer/src/runner.c:139-145 | a complete run that ends with an idle runner whose active input is still its finished job |
| `Feedback.BitmapBounds` | fuzzer/src/fuzzer.c:111-122 | the bitmap has every edge of every run handled as valid and no edge that no run took |
| `Feedback.BufferIsStill` | fuzzer/src/fuzzer.c:107-112 | no target of the runner can write its buffer while the fuzzer reads it |
| `WholeSystem.SystemRuns` | fuzzer/src/fuzzer.c:88-163 | a run in which the priorities are those of the feedback is a run of the campaign and a run of the feedback, so the results on both hold in it |
| `WholeSystem.NewEdgeIsQueued` | fuzzer/src/fuzzer.c:107-116 | in every run of the whole system a valid run with an edge the bitmap lacks puts its input at the end of the high list, or frees it if its text is queued |
| `WholeSystem.ResultsAreDisposed` | fuzzer/src/fuzzer.c:107-131 | in every run: a missing status changes nothing; a crash, a timeout, a buffer read before for a valid result, or a queued text frees the input; otherwise it goes to the end of the high list if its buffer has an edge none of those has, else to the end of the low one |
| `WholeSystem.EveryEdgeIsKept` | fuzzer/src/fuzzer.c:107-155 | in every run each edge of the bitmap was brought by some handled valid result, and an input with the text tested there is in the queue |
| `WholeSystem.HighListIsBounded` | fuzzer/src/fuzzer.c:59-155 | in every run no input leaves the high list and at most as many as the seeds and the 4096 edges ever enter it |
| `Framing.WriteWrap` | fuzzer/src/runner.c:152-168 | whatever the short writes and interruptions, all of the buffer is written in order; on an error a proper prefix of it is |
| `Framing.ReadWrap` | fuzzer/src/runner.c:170-189 | whatever the short reads and interruptions, the next bytes of the stream are read in order, fewer only at its end |
| `Framing.SendInput` | fuzzer/src/runner.c:191-210 | appends exactly the frame of the text, or a proper prefix of it on an error |
| `Framing.ReceiveInput` | fuzzer/src/runner.c:233-249 | takes one header and the text it announces off the stream, with the source's treatment of short reads; a read that fails yields no input, never a wrong one |
| `Framing.HeaderReadsBack` | fuzzer/src/runner.c:196-202 | the eight bytes of a length read back as that length |
| `Framing.HeaderByte` | fuzzer/src/runner.c:196-202 | byte k of the header is the k-th lowest of the length |
| `Framing.FrameArrives` | fuzzer/src/runner.c:191-250 | a receive on a stream that begins with a frame yields its text and leaves the rest of the stream |
| `Framing.StreamArrives` | fuzzer/src/runner.c:191-250 | the frames of any sequence of NUL-free texts are received as that sequence |
| `Framing.Transfer` | fuzzer/src/runner.c:152-250 | sending and receiving any sequence of texts through the wrap loops delivers it unchanged for any pattern of interruptions and short transfers |
| `Framing.CutFrameNoticed` | fuzzer/src/runner.c:233-246 | which cut frames the receiver reports as errors, exactly; a cut inside the text is received as a shorter text |
| `FuzzerSteps.CopyOrMutate` | fuzzer/src/fuzzer.c:139-146 | a copy of an unused input of any length, a mutant of a used one, and in both cases one more use |
| `FuzzerSteps.NextToSend` | fuzzer/src/fuzzer.c:133-146 | on the linked lists: dequeues by the schedule and makes the copy or mutant; no other input's state changes |
| `FuzzerSteps.HandleResult` | fuzzer/src/fuzzer.c:107-130 | on the real map and lists: a valid result is added to the map and its input queued by priority, or freed when it has none or is a duplicate; crashes and timeouts only free it; a missing status does nothing |

## Left out

- `fork`, `execvp`, `mmap`, `shm_open`, `dup2`, descriptor cleanup, `runner_fini` and `runners_fini`: replaced by abstract pipes, signals and buffers.
- What a target does: it takes some edges and then exits, crashes or times out, as the environment chooses; how `runner_launch` reads that off the wait status is not modelled.
- The loops of `run_fuzzer` and `runner_launch` as Dafny loops: they interleave with other processes, so they are the steps of the transition system; the sequential code inside them is in `RunnerPool`, `InputQueue`, `CoverageMap`, `Mutator` and `FuzzerSteps`.
- Runner records: the arrays hold runner ids instead of pointers, so aliasing of the records is not captured; `active_input` is a field in `Dispatch`.
- Hash chains: a chain is an immutable list value, since its nodes are written once and only the head of a bucket changes.
- Allocation failure, null arguments other than the coverage data, and the paths that follow from them.
- The status packet as bytes: it is written and read whole.
- A target or grandchild that holds a dead runner's pipes open, except that end of file may be seen early or late.
- The event logger, command-line parsing, printing, sample programs and tests.
- The quality of the two hash functions as hashes.
- The order of the calls inside the reaping loop of `runners_reap`, in the protocol: a runner's death during that loop is one step before or after the whole loop; the guard on missed runners allows every outcome of the loop and some it does not have.
- Mutator.Mutate: a text over 1024 characters is left out except under strategies 1 and 2, and so is a state for which `K + 1` overflows an int: the code then leaves its buffer, exactly when `LongTexts.LongStaysInside` says so, may end without a terminator, or overflows. Neither arises from seeds within the bound (`Ownership.TextsStaySmall`, `Ownership.StateCountsUses`).
- Guards.TraceGuard: a guard number of 4096 or more, which the code writes past its 512 bytes; `Guards.NumberingIsUnique` says when there is none.
- FuzzerSteps.CopyOrMutate: a used input is left out where `Mutator.Mutate` leaves it out.
- FuzzerSteps.NextToSend: likewise, for the input at the front of the queue.
