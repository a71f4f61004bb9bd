# Verified models of a kernel-test harness

This project models the parts of a memory-management test harness that are state machines, protocols or
index arithmetic, and proves what they promise over every input, every run and every interleaving. Files,
pipes, signals, persistent memory, the kernel and reboots are explicit state and explicit steps.
`dafny verify dfyconfig.toml` checks everything.

| file | subject |
|---|---|
| `RecipeOrder.dfy` | the run order of a recipe list and the list left after a resume |
| `CrashScheduler.dfy` | the runner of one round as a machine with a reboot between any two disk writes |
| `RunTest.dfy` | the statements of `run_recipe` and of the runner, as a path of that machine |
| `RecipeTree.dfy`, `RecipeRuns.dfy` | `run_recipes`, the tree of directory subshells; which recipes run under which configs |
| `Retry.dfy` | the soft and hard retry loops |
| `Verdicts.dfy` | the classification of a testcase from what its runs wrote |
| `Rounds.dfy` | the rounds of a project over any sequence of interrupted invocations |
| `PmemList.dfy` | the persistent-memory list under arbitrary write-back and power failure |
| `Rendezvous.dfy` | the signal and pipe rendezvous, with a flag loop and with `pause()` |
| `MceSchedule.dfy`, `MceBroadcast.dfy` | the machine-check broadcast under every thread schedule |
| `IoRing.dfy` | the io_uring rings with 32-bit free-running indices |
| `ChunkLayout.dfy`, `Remap.dfy` | chunk numbering, tiling and addresses; remapping forward and back |
| `Zigzag.dfy` | the search for the nearest allocated page |
| `PageFlagFilter.dfy` | the compiler and the test of page flag filters |
| `ProcessTree.dfy`, `BlockCount.dfy` | process closure, the block counter |
| `Priority.dfy`, `PriorityText.dfy` | the two priority selectors, on lists of items and on the text of PRIORITY |
| `Arith.dfy`, `Wrappers.dfy` | division, remainders, powers of two, bit masks, `int` arithmetic; options |

Every lemma is marked `{:induction false}`: where induction is needed, the body that is written does it.

## What turned out to depend on a condition

Some promises do not hold on all inputs. The model keeps the code as it is, and for each there is a proof of
exactly when the promise holds.

- A testcase enters `do_soft_try` at most MAX_REBOOT + 1 times unless some recipe can be let through at one
  start and not at the next, and another one takes over `__current_testcase` in between
  (`CrashScheduler.RebootBoundIff`, with `CrashScheduler.Overrun` building the unbounded runs). This and
  `CrashScheduler.FinishedForever` hold for recipelists in any order.
- The runner never loses a recipe, over all runs with reboots, exactly if no recipe that may run is listed
  after one that is due after it (`CrashScheduler.NothingLostIff`); for the list alone, exactly if it is in
  run order (`RecipeOrder.ResumeLosesNothingIff`).
- A PASS stands for HARD_RETRY passes in a row exactly if HARD_RETRY is below 1, or SOFT_RETRY is at least 1 and
  HARD_RETRY is 1, no trial can end with a status other than 0, 1 and 2, or no trial can pass at all
  (`Retry.PassIsEarnedIff`). This contradicts the text of the repository's README.
- A testcase that a reboot made run more than once is classified by its last run exactly if the first run that
  reached its verdict line came to the same verdict (`Verdicts.LastRunDecidesIff`, `Verdicts.OlderVerdictStays`).
- The wait that prints and then calls `pause()` can be stuck for ever at every wait
  (`Rendezvous.PauseCanStick`), so it is safe exactly if no message is a wait (`Rendezvous.PauseSafeIff`).
- The address ranges of the chunks are disjoint exactly up to 2^20 chunks, because the products are of type
  `int` (`ChunkLayout.AddressesDisjointIff`).
- Remapping forward and back restores memory exactly if there is one backend with at most 128 chunks, or the
  number of chunks is a multiple of 256 and every call fails (`Remap.RoundTripRestoresIff`).
- The zigzag search finds a present page exactly if some present page has its mirror page in the range
  (`Zigzag.FindsIff`, `Zigzag.FarPageMissed`).
- A `~` list means "all set, all clear" exactly if no flag is given both ways and the positive flags are not all
  64 bits; `mask=bits` is an exact match exactly if bits is not all 64 bits or the mask is empty
  (`PageFlagFilter.NegatedListMeansAllIff`, `PageFlagFilter.EqualsMeansExactIff`, with the texts of
  `PageFlagFilter.BothWaysAccepted` and `PageFlagFilter.AllBitsNotExact`).
- The shell and the Ruby priority selector agree exactly if each number written with leading zeros is also
  named by an item without, and so is 0 if there is an empty item before the last one
  (`PriorityText.SelectorsAgreeIff`). On a recipe that writes its own priority with leading zeros they agree
  exactly if Ruby does not select it or PRIORITY has it in the same writing
  (`PriorityText.PaddedRecipeAgreesIff`).
- `collect_subprocesses` ends exactly if the process is not its own descendant (`ProcessTree.EndsIff`).
- The io_uring preparation does not look at the head: writing to a full ring replaces the oldest entry
  (`IoRing.PutKeepsOldestIff`).

## Model

| member | source | states |
|---|---|---|
| `CrashScheduler.RebootBoundIff` | test_core/run-test.sh:144-181 | over every run with reboots at arbitrary points, a recipe enters do_soft_try at most MAX_REBOOT + 1 times if and only if it never runs or is steady |
| `CrashScheduler.Overrun` | test_core/run-test.sh:144-181 | for a recipe that is not steady, a reachable state with any given number of do_soft_try calls |
| `CrashScheduler.FinishedForever` | test_core/setup_test_core.sh:136-165 | for any lists and any gates: once FINISHED, a recipe stays so and is never tried again, whatever happens later |
| `CrashScheduler.NothingLost` | test_core/run-test.sh:284-314 | in every reachable state a selected recipe is finished, was not let through, or is in the list of the next start, if no recipe that may run is listed after one due after it |
| `CrashScheduler.NothingLostIff` | test_core/run-test.sh:284-314 | that condition is exact: without it some reachable state has lost a recipe |
| `CrashScheduler.InversionLoses` | test_core/run-test.sh:299-304 | an inversion whose later recipe may run has a run that loses the earlier one |
| `CrashScheduler.StepKeepsAll` | test_core/run-test.sh:104-186 | every step keeps every recipe behind the runner or ahead of the resume point |
| `CrashScheduler.StepKeepsInv` | test_core/run-test.sh:104-186 | every write and every reboot keeps the machine's invariant |
| `CrashScheduler.BootKeepsInv` | test_core/run-test.sh:299-304 | so does a restart from the resume point |
| `CrashScheduler.AheadShrinks` | test_core/run-test.sh:299-304 | a recipe that a start leaves out is in no later start's list |
| `CrashScheduler.ReachableInv` | test_core/run-test.sh:104-186 | the invariant holds in every reachable state |
| `CrashScheduler.ExecKeepsBudget` | test_core/run-test.sh:149-160 | every run keeps the relation between the reboot counter and the calls so far, for a steady recipe |
| `CrashScheduler.NeverRuns` | test_core/setup_test_core.sh:347-378 | a recipe whose gate never opens is never tried |
| `RunTest.Runner.RunRecipe` | test_core/run-test.sh:104-186 | run_recipe, statement by statement, is a path of the machine, and leaves exactly the files that the verdict of the gate, the marker and the counter call for |
| `RunTest.Runner.Admit` | test_core/run-test.sh:147-183 | a recipe that is let through: counted, tried unless over the limit, finished, and the resume point |
| `RunTest.Runner.Restart` | test_core/run-test.sh:147-165 | the branch after a reboot: counter, limit, trials |
| `RunTest.Runner.Start` | test_core/run-test.sh:166-178 | the fresh branch: counter, marker and status in this order, then trials |
| `RunTest.Runner.MarkRunning` | test_core/run-test.sh:168-169 | the marker is written before the status |
| `RunTest.Runner.Finish` | test_core/run-test.sh:179-183 | FINISHED, then no current testcase, then the resume point |
| `RunTest.Runner.RunRound` | test_core/run-test.sh:316-337 | a start that is not interrupted is a path of the machine from being down to __finished; each recipe of its list that was not FINISHED before is FINISHED, SKIPPED or as it was, as its verdict says, and no other status changes; trials are started once for each recipe let through, except one resumed over its limit, and for no other; the resume point is the last recipe let through |
| `RunTest.Runner.Walk` | test_core/run-test.sh:188-268 | the same for the loop over the list |
| `RunTest.Runner.PassOver` | test_core/setup_test_core.sh:347-378 | a recipe that is not let through is marked SKIPPED or left as it is |
| `RunTest.RoundStep` | test_core/run-test.sh:104-186 | one more visit keeps what the round promises: statuses, reboot counters, started trials, marker and resume point |
| `RunTest.TrailIsReachable` | test_core/run-test.sh:104-186 | the state after each statement is reachable, so every guarantee of the machine holds there |
| `RecipeOrder.SortCorrect` | test_core/lib/recipe.rb:213-213 | the same recipes, a smaller priority number first and ids ascending within one priority |
| `RecipeOrder.RunListCorrect` | test_core/lib/recipe.rb:189-215 | the run list is sorted and holds exactly the listed recipes that pass the filters |
| `RecipeOrder.QueueMembers` | test_core/run-test.sh:299-314 | a start walks exactly the recipes listed after the finished one that pass the filters |
| `RecipeOrder.ResumeIsSuffix` | test_core/run-test.sh:299-304 | with a list in run order, a resume leaves exactly the recipes after the finished one |
| `RecipeOrder.DroppedIff` | test_core/run-test.sh:299-304 | resuming after a recipe drops exactly it and what is listed before it |
| `RecipeOrder.QueueClosed` | test_core/run-test.sh:299-304 | resuming after a recipe of a list never brings back one that the list does not have |
| `RecipeOrder.InversionDrops` | test_core/run-test.sh:299-304 | any inversion in the list is a recipe that some resume drops |
| `RecipeOrder.ResumeLosesNothingIff` | test_core/run-test.sh:299-304 | no resume drops a later recipe if and only if the list is in run order |
| `RecipeTree.RunRecipes` | test_core/run-test.sh:188-268 | the recursive procedure produces the events of the tree, where a config may turn out differently at every visit |
| `RecipeTree.Walk` | test_core/run-test.sh:209-262 | its loop over keepdir and linerecipe |
| `RecipeTree.Turn` | test_core/run-test.sh:212-254 | one turn keeps what is done and what is left equal to the whole |
| `RecipeTree.Flush` | test_core/run-test.sh:218-227 | the end of a group is one nested call |
| `RecipeTree.TreeIsFlatWalk` | test_core/run-test.sh:188-268 | the tree of subshells equals one flat walk that leaves and enters directories between consecutive recipes, whatever the configs do at each visit |
| `RecipeRuns.VisitRunsAllowed` | test_core/run-test.sh:188-268 | exactly the recipes run that had no failed config above them when their directories were last entered, in list order, each under exactly its ancestors' configs outer to inner; configs and clean-ups are well bracketed |
| `RecipeRuns.BodyRunsAllowed` | test_core/run-test.sh:206-268 | the same for the loop of a directory whose config passed |
| `RecipeRuns.StoppedLevels` | test_core/run-test.sh:212-254 | the directories the walk stands in at a recipe are its own, each with the outcome of the visit at the first recipe of its group |
| `RecipeRuns.ReplayFlat` | test_core/run-test.sh:264-267 | every config sourced on the walk is cleaned up, innermost first |
| `Retry.DoHardTry` | test_core/setup_test_core.sh:542-573 | the hard loop and its one-try shortcut give the end of one attempt |
| `Retry.DoSoftTry` | test_core/setup_test_core.sh:576-611 | the nested loops and both shortcuts equal one flat scan of trial statuses, also for retry counts below 1; the line written is PASS, FAIL or SKIP exactly as the last trial ended, and none for any other status |
| `Retry.ScanIsAttempts` | test_core/setup_test_core.sh:582-600 | the flat scan is a sequence of attempts |
| `Retry.RetryKeepsItsPromise` | README.md:182-187 | with documented statuses the scan stops at the first trial that settles the testcase: PASS for HARD passes in a row, FAIL for the SOFT-th failure, SKIP for a failed preparation, within SOFT * HARD trials |
| `Retry.ScanIsBounded` | test_core/setup_test_core.sh:542-611 | at most SOFT * HARD trials whatever their statuses |
| `Retry.PassIsEarnedIff` | README.md:184-187 | for all settings and over all trials with statuses from a given set: every PASS is HARD passes in a row if and only if HARD is below 1, or SOFT is at least 1 and HARD is 1, the set has no other status, or no pass |
| `Retry.PassWindow` | test_core/setup_test_core.sh:542-573 | in the last attempt of a PASS every trial passed or ended with another status |
| `Retry.KilledTrialInPass` | test_core/setup_test_core.sh:552-571 | a concrete PASS with one of two trials killed |
| `Rounds.FailLinesExact` | run.sh:131-131 | the FAIL lines are exactly the listed testcases that failed |
| `Rounds.FailLinesInOrder` | run.sh:131-131 | and they keep the order of the list |
| `Verdicts.TestcaseResult` | test_core/lib/test_summary.rb:63-77 | the early-exit loop: never run, skipped, the first verdict line whatever follows it, or a warning if the file has only other lines |
| `Verdicts.SomeRunDecides` | test_core/lib/test_summary.rb:68-75 | the first verdict in the file is that of the first run that reached its verdict line |
| `Verdicts.LastRunDecidesIff` | test_core/setup_test_core.sh:603-609 | a testcase is classified by its last run if and only if the first run to reach its verdict line came to the same verdict |
| `Verdicts.AgreeingRunsDecide` | test_core/setup_test_core.sh:603-609 | so it is if all runs that reached the line agree |
| `Verdicts.OlderVerdictStays` | test_core/run-test.sh:163-181 | a reboot after the verdict line and before FINISHED fixes the older verdict |
| `Rounds.FailedInAllEarlierRounds` | run.sh:112-156 | a testcase of round r is in the list of every earlier round and failed there |
| `Rounds.FinishedIsPrefix` | run.sh:112-117 | a round has a list only if all rounds before it are finished |
| `Rounds.NothingLeft` | run.sh:112-142 | in a finished project the next round has nothing to run |
| `Rounds.TurnKeeps` | run.sh:107-155 | a turn keeps the files valid, freezes finished rounds and starts the runner at most once, soundly |
| `Rounds.TurnConcludes` | run.sh:107-155 | the loop goes on only past a finished round and ends with the project finished unless cut short |
| `Rounds.TurnOfFinished` | run.sh:107-155 | in a finished project a turn runs nothing and changes no result |
| `Rounds.Project.Round` | run.sh:107-155 | one turn of the loop, statement by statement |
| `Rounds.Project.RunTest` | run.sh:93-156 | an invocation does exactly what its rounds do: it keeps the files valid, its runs are sound and ascending; the results of every run are what its round records, and each failure of a completed run is in the list of the next run, of the next round, unless that round is killed or there is none; with no round cut short and all runners complete it ends with check_project_finished true; in a finished project it runs nothing |
| `Rounds.RunsRecorded` | run.sh:146-153 | every run of an invocation leaves its results recorded for its round |
| `Rounds.FailuresReran` | run.sh:131-153 | a testcase that failed in a completed run is run again in the next round |
| `Rounds.InvocationKeeps` | run.sh:107-155 | the runs of an invocation start only after all earlier rounds are finished, in ascending rounds, on the recorded lists |
| `Rounds.InvocationFinishes` | run.sh:107-155 | an invocation in which no runner stops on its own is cut short by the environment or ends with the project finished |
| `Rounds.InvocationOfFinished` | run.sh:107-155 | in a finished project an invocation runs nothing and changes no result |
| `Rounds.Project.CheckProjectFinished` | run.sh:221-236 | the loop decides whether some finished round has no failures or the last round is finished |
| `PmemList.ConsistentSurvivesCrash` | lib/pmem/pmreorder_list.c:94-106 | for any inserts, write-back order and crash point the durable list is the one before or after the insert in flight, and the check terminates with 0 |
| `PmemList.InconsistentRejectedIff` | lib/pmem/pmreorder_list.c:112-124 | the check returns 1 on a crash image exactly while the durable head names a node without durable value, 0 otherwise |
| `PmemList.InconsistentHasBadImage` | lib/pmem/pmreorder_list.c:112-124 | every inconsistent insert has a crash image on which the check returns 1 |
| `PmemList.SameWithoutCrash` | lib/pmem/pmreorder_list.c:94-124 | without a crash the two routines leave the same memory |
| `PmemList.GoodStep` | lib/pmem/pmreorder_list.c:94-106 | every statement of the consistent insert keeps the invariant |
| `PmemList.GoodEvict` | lib/pmem/pmreorder_list.c:94-106 | so does an early write-back of any cell |
| `PmemList.BadStep` | lib/pmem/pmreorder_list.c:112-124 | every statement of the inconsistent insert keeps its weaker invariant |
| `PmemList.WrittenIsChain` | lib/pmem/pmreorder_list.c:94-106 | nodes in place make up exactly the inserted list, newest first |
| `PmemList.ChainChecks` | lib/pmem/pmreorder_list.c:40-59 | the check accepts every chain of set values |
| `PmemList.Root.ListInsertConsistent` | lib/pmem/pmreorder_list.c:94-106 | the stores and persists, in this order, and the new node at the head |
| `PmemList.Root.ListInsertInconsistent` | lib/pmem/pmreorder_list.c:112-124 | the same for the other order |
| `PmemList.Root.CheckConsistency` | lib/pmem/pmreorder_list.c:40-59 | the loop computes the verdict of the walk from the head |
| `Rendezvous.FlagSafety` | test_core/lib/include.h:252-278 | in every interleaving no signal is merged, at most one answer is outstanding, and the k-th wait ends only after the k-th signal |
| `Rendezvous.FlagTerminates` | test_core/lib/include.h:252-278 | every interleaving ends after the same number of steps with all waits ended, and stops nowhere before |
| `Rendezvous.FlagProgress` | test_core/lib/include.h:258-278 | unless everything is done, the program, the signal or the controller can move |
| `Rendezvous.FlagStepKeepsInv` | test_core/setup_test_core.sh:443-463 | every step of either side keeps the accounting of messages and signals |
| `Rendezvous.PauseStuckIff` | lib/hugetlb_1gb.c:190-193 | in a run that cannot continue, a message is left if and only if the answer came before pause() |
| `Rendezvous.PauseCanStick` | lib/hugetlb_1gb.c:190-193 | every wait can be the one that is stuck |
| `Rendezvous.PauseSafeIff` | lib/hugetlb_1gb.c:190-193 | no reachable state is stuck if and only if no message is a wait |
| `MceBroadcast.BroadcastWritesOnePerCpu` | lib/test_mce-srar.c:230-306 | under every schedule a finished broadcast has exactly one record for the target, for each held CPU and, unless broadcast is off, for each other CPU; direct writes precede threaded ones |
| `MceBroadcast.BroadcastProgress` | lib/test_mce-srar.c:213-306 | until done, the main thread or the thread it joins can move |
| `MceBroadcast.BroadcastTerminates` | lib/test_mce-srar.c:213-306 | every schedule ends after the same number of steps, with the broadcast done, and stops nowhere before |
| `MceBroadcast.TargetRecord` | lib/test_mce-srar.c:252-293 | the target's record is written by a thread, not in random context, with the broadcast flag whenever a record was written directly |
| `MceBroadcast.RecordNamesCpu` | lib/test_mce-srar.c:256-275 | each record names its CPU, and the direct ones are exactly those in random context where allowed |
| `MceBroadcast.SecondaryRecord` | lib/test_mce-srar.c:238-275 | the record of a CPU that only takes part: the UC bit alone of the status, RIPV exactly for an uncorrected error, MCIP as in the target and no other global bit, the exception flag, its own number |
| `MceBroadcast.HeldRecord` | lib/test_mce-srar.c:256-275 | a CPU with a held record gets that record, in process context if it was random and that is not allowed |
| `MceBroadcast.TargetKeepsRecord` | lib/test_mce-srar.c:252-293 | the target keeps its record but for the context and the broadcast flag |
| `MceBroadcast.CodeStepIsJobStep` | lib/test_mce-srar.c:230-306 | the bit-level code takes exactly the steps of the abstract job |
| `MceBroadcast.PlanReady` | lib/test_mce-srar.c:252-275 | changing the target's context on the way does not change what is decided for the others |
| `MceSchedule.StepKeepsInv` | lib/test_mce-srar.c:213-306 | every step of every thread keeps the invariant |
| `MceSchedule.LogExact` | lib/test_mce-srar.c:213-306 | each entry of the log is the one expected for its CPU, direct ones first |
| `MceSchedule.EveryCpuWritten` | lib/test_mce-srar.c:213-306 | once all threads have written, every planned CPU has its entry |
| `MceSchedule.DoneIsComplete` | lib/test_mce-srar.c:300-305 | a finished broadcast is complete |
| `MceBroadcast.Injector.CpuIdToIndex` | lib/test_mce-srar.c:170-179 | the first index of the CPU, or -1 if and only if it is not online |
| `MceBroadcast.Injector.InjectMce` | lib/test_mce-srar.c:308-347 | validation, exception flag, holding, switching broadcast off, and which setup is injected |
| `MceBroadcast.Injector.SetException` | lib/test_mce-srar.c:313-318 | unless raised as given, the exception bit is set exactly if the UC bit is, and nothing else changes |
| `IoRing.RingIsQueue` | lib/test-io_uring.c:145-171 | over any run, through any number of wrap-arounds, a ring that is never overfilled replies like an unbounded queue |
| `IoRing.FreshRingIsQueue` | lib/test-io_uring.c:145-171 | in particular from the state after setup |
| `IoRing.PutKeepsOldestIff` | lib/test-io_uring.c:145-171 | a prepare keeps the oldest pending entry if and only if tail - head was below the number of entries |
| `IoRing.SlotOf` | lib/test-io_uring.c:156-156 | the masked 32-bit index of the n-th entry is n modulo the ring size |
| `IoRing.SlotHolds` | lib/test-io_uring.c:207-207 | the slot of entry n holds it exactly until a whole ring more has been written |
| `IoRing.FillCounts` | lib/test-io_uring.c:198-206 | tail - head is the number of pending entries, and the indices are equal exactly if there are none |
| `IoRing.StepKeepsInv` | lib/test-io_uring.c:198-211 | each load and store of get_cqe, and each post of the kernel in between, keeps the invariant; -1 exactly if all posted completions were handed out |
| `IoRing.EveryCompletionOnce` | lib/test-io_uring.c:198-211 | in every interleaving the i-th pointer handed out is to the i-th completion, which stays there exactly until the kernel has posted a ring more |
| `IoRing.SubmissionRing.PrepSqe` | lib/test-io_uring.c:145-171 | one more entry prepared, through slot, index array and tail |
| `IoRing.SubmissionRing.Consume` | lib/test-io_uring.c:319-319 | the kernel gets the next prepared entry unless more than a ring has been prepared |
| `IoRing.CompletionRing.GetCqe` | lib/test-io_uring.c:198-211 | -1 if and only if empty, otherwise the slot of the next completion |
| `IoRing.CompletionRing.Post` | lib/test-io_uring.c:198-211 | the kernel's side: one more completion while there is room |
| `ChunkLayout.FindNextBackend` | lib/include.h:94-101 | the next set bit, none skipped |
| `ChunkLayout.GetNrMemTypes` | lib/include.h:108-114 | the number of enabled backends |
| `ChunkLayout.EnabledExact` | lib/include.h:103-106 | the iteration gives exactly the set bits, each once, ascending |
| `ChunkLayout.IndexInRange` | lib/include.h:459-459 | every chunk number is i + j * nr_chunk for some i and j |
| `ChunkLayout.IndexIsUnique` | lib/include.h:459-459 | and for no other pair |
| `ChunkLayout.DoMmap` | lib/include.h:452-469 | every chunk of the set is filled with its type, size, address and offset |
| `ChunkLayout.FillRow` | lib/include.h:458-466 | the inner loop fills the chunks of one backend |
| `ChunkLayout.ChunkDescribed` | lib/include.h:452-469 | chunk i + j * nr_chunk has the j-th enabled backend, the offset behind i whole chunks, a size that ends with the next chunk or the last page, and its place as address |
| `ChunkLayout.NrChunk` | lib/test_alloc_generic.c:36-36 | the least number of chunks that hold the pages |
| `ChunkLayout.OffsetsTile` | lib/include.h:198-203 | each chunk starts at the file offset where the one before ends, and the last ends with the last page |
| `ChunkLayout.PageInOneChunk` | lib/include.h:198-203 | every page lies in exactly one chunk |
| `ChunkLayout.AddressIsPlace` | lib/include.h:460-460 | the address of chunk k is k chunk sizes from the base if and only if k * CHUNKSIZE fits an int |
| `ChunkLayout.AddressesDisjointIff` | lib/include.h:460-460 | the address ranges are pairwise disjoint if and only if there are at most 2^20 chunks |
| `Remap.DoWorkMemory` | lib/include.h:473-492 | the loops, with the break on a failed call |
| `Remap.StressTurn` | lib/include.h:1075-1085 | a pass forward and a pass back |
| `Remap.WorkBackend` | lib/include.h:479-489 | the inner loop for one backend |
| `Remap.MremapChunk` | lib/include.h:1058-1073 | one call, forward or back: on success the pages of the chunk are at the destination, the source is free and all else is as before; it succeeds exactly if the offset is not 0 and the chunk is mapped, and a failed call changes nothing |
| `Remap.OffsetIsShift` | lib/include.h:1061-1061 | the int offset is a whole number of chunks, between -128 and 127 |
| `Remap.MoveFree` | lib/include.h:1058-1073 | a move of a clear shift succeeds and overwrites nothing |
| `Remap.ShiftPass` | lib/include.h:473-492 | such a pass moves all chunks and changes nothing else |
| `Remap.ShortShiftLoses` | lib/include.h:473-492 | a pass that is not clear loses a page for good |
| `Remap.FirstMoveHits` | lib/include.h:1058-1073 | the first move of a shift that is not clear unmaps a page of another chunk |
| `Remap.RoundTripRestoresIff` | lib/include.h:1075-1085 | forward and back restores every page if and only if the chunk count is a multiple of 256, or there is one backend with at most 128 chunks |
| `Zigzag.PickAddr` | lib/ras-tools/hornet.c:196-242 | the loop stops at the first probe that is out of range, unreadable or present; a page found is given by the address of that probe, in the range, and by its translation: page frame of its entry, same offset; a given address is probed alone |
| `Zigzag.ZigIsBijection` | lib/ras-tools/hornet.c:228-229 | the probes are at 0, +1, -1, +2, -2, ... pages, every distance at exactly one turn |
| `Zigzag.PagesDiffer` | lib/ras-tools/hornet.c:217-217 | no page is looked at twice |
| `Zigzag.RangeBoundsTurn` | lib/ras-tools/hornet.c:228-234 | turns times page size stay below the size of the range, so the search ends |
| `Zigzag.ShortRangeFits` | lib/ras-tools/hornet.c:229-229 | in a range of at most 2^31 bytes less a page pagesize * skip never overflows |
| `Zigzag.StartsInRange` | lib/ras-tools/hornet.c:185-194 | the random start lies in the range |
| `Zigzag.FoundIsNearest` | lib/ras-tools/hornet.c:211-241 | what is found is the nearest present page, the higher of two |
| `Zigzag.FindsIff` | lib/ras-tools/hornet.c:228-235 | the search succeeds if and only if some present page has its mirror page in the range and no unreadable page before it |
| `Zigzag.FarPageMissed` | lib/ras-tools/hornet.c:185-234 | from a start that randaddr can choose, a present page of the range is not found |
| `Zigzag.PhysicalTranslates` | lib/ras-tools/hornet.c:237-237 | the physical address has the page frame of the entry and the offset of the address |
| `PageFlagFilter.ParseFlagName` | lib/pfn.h:336-354 | abbreviations of compound, from its first letter on, mean bits 15 and 16; otherwise the first flag by bit number, then a number |
| `PageFlagFilter.FlagNameExact` | lib/pfn.h:346-353 | a name means the first flag it abbreviates and is read as a number only if there is none |
| `PageFlagFilter.ParseFlagNames` | lib/pfn.h:356-373 | the pointer loop collects the bits of the items |
| `PageFlagFilter.ItemsExact` | lib/pfn.h:361-372 | the items are exactly the stretches of text between commas up to the first equals sign, without a leading ~ if negated |
| `PageFlagFilter.CollectExact` | lib/pfn.h:356-373 | a bit is collected if and only if some item, negated ones only with all, means it |
| `PageFlagFilter.ParseBitsMask` | lib/pfn.h:375-397 | the four forms of a filter |
| `PageFlagFilter.PlainListMeansAny` | lib/pfn.h:391-394 | a plain list accepts the words with any of the flags |
| `PageFlagFilter.NegatedListMeansAllIff` | lib/pfn.h:388-390 | a list with ~ accepts exactly the words with all positive flags set and all negated ones clear, if and only if no flag is given both ways and the positive ones are not all 64, both a matter of the text |
| `PageFlagFilter.BothWaysAccepted` | lib/pfn.h:388-390 | a text with a flag given both ways, and a word that is accepted although it does not obey |
| `PageFlagFilter.EqualsMeansExactIff` | lib/pfn.h:381-387 | mask=bits is an exact match on the mask if and only if bits is not all bits or the mask is empty |
| `PageFlagFilter.AllBitsNotExact` | lib/pfn.h:381-387 | a text with all 64 bits on the right, and a word that is accepted although it is no exact match |
| `PageFlagFilter.Filters.AddText` | lib/pfn.h:277-397 | the first filter given decides alone which words get through; a second one, or one that does not parse, is refused |
| `PageFlagFilter.Filters.BitMaskOk` | lib/pfn.h:212-227 | a word passes if and only if every filter accepts it |
| `ProcessTree.CollectBelow` | test_core/lib/common.sh:48-57 | terminates and prints every descendant exactly once and nothing else |
| `ProcessTree.CollectSubprocesses` | test_core/lib/common.sh:48-57 | the recursion prints level after level until one is empty |
| `ProcessTree.ListChildren` | test_core/lib/common.sh:52-54 | the loop lists the children of all arguments |
| `ProcessTree.TwoLevels` | test_core/lib/common.sh:48-57 | a process on two levels makes the root its own descendant |
| `ProcessTree.EndsIff` | test_core/lib/common.sh:48-57 | the recursion ends if and only if the process is not its own descendant |
| `PriorityText.NormalizePriority` | test_core/lib/common.sh:12-25 | from the text: words between commas, ranges recognised, numbers listed, one sed pass |
| `PriorityText.PiecesExact` | test_core/lib/common.sh:15-15 | the pieces have no comma and joined by commas they are the text |
| `PriorityText.ShellFindsIff` | test_core/lib/common.sh:12-31 | on every text of proper pieces a priority is found exactly if it stands between commas or ends, as its number or within a range |
| `PriorityText.RubySelectsStanding` | test_core/lib/recipe.rb:166-174 | and then Ruby selects it too |
| `PriorityText.ReadAlike` | test_core/lib/common.sh:15-21 | shell and Ruby read a proper piece as the same number or range |
| `Priority.FoundIff` | test_core/lib/common.sh:27-31 | a field between commas is found exactly where it is a field |
| `Priority.SqueezeJoin` | test_core/lib/common.sh:24-24 | one pass over double commas changes no field that is not empty |
| `Priority.ExpandExact` | test_core/lib/recipe.rb:166-174 | the expanded list holds exactly the numbers some item names |
| `Priority.ShellExact` | test_core/lib/common.sh:27-31 | the search finds exactly the numbers that some item shows |
| `Priority.TextExact` | test_core/lib/common.sh:27-31 | the search finds a recipe's own writing of its priority exactly if some item has that text |
| `Priority.CanonicalListsAgree` | test_core/lib/common.sh:12-31 | without leading zeros the two selectors agree on every priority |
| `PriorityText.SelectorsAgreeIff` | test_core/lib/recipe.rb:166-174 | on every text of proper pieces the two selectors agree on every priority written without leading zeros if and only if each number that the text hides from the search is also named by an item without |
| `PriorityText.PaddedRecipeAgreesIff` | test_core/lib/common.sh:27-31 | on a recipe's priority written with leading zeros they agree if and only if Ruby does not select it or the text has it in the very same writing |
| `PriorityText.PaddedRecipeDisagrees` | test_core/lib/common.sh:27-31 | a text and a recipe on which they disagree |
| `Priority.ListsAgreeIff` | test_core/lib/recipe.rb:166-174 | the same on the list of items |
| `PriorityText.ZeroPaddedDisagrees` | test_core/lib/common.sh:27-31 | a text on which they disagree |
| `BlockCount.CountBlocks` | lib/check_hwpoison_limit.sh:26-34 | the one-pass counter is the number of blocks with a poisoned page |
| `BlockCount.BlocksExact` | lib/check_hwpoison_limit.sh:28-28 | these are exactly the aligned blocks containing a poisoned page |
| `BlockCount.LastIsHighest` | lib/check_hwpoison_limit.sh:29-32 | the last block seen is the highest, so a different one is new |

## Left out

- Crashes inside the write of one small file: every write of the result directory is taken to be atomic and durable, in program order.
- The settings AGAIN, SKIP_PASS, SKIP_FAIL and SKIP_WARN, and runs as another user than root; TEST_RUN_MODE is taken to be set, as it is for background runs.
- Recipelists with a repeated line, for which the resume point would be two line numbers.
- Recipe ids that contain `:` or act as regular expressions in `grep`, the leading slash of recipes at the top level, and reuse of process ids.
- The two machines of the scheduler and of the directory tree are separate: for the scheduler a failing config is one of the ways a recipe is not let through.
- The controller's time-outs, killed test programs and messages other than wait and information; `pprintf_wait_func` is the flag loop with work inside and is modelled as the flag loop.
- The fields of a machine-check record that the injector only copies are one payload field.
- The `sa_flags` and `sa_mask` of the wait handler, which the source leaves uninitialised, are not modelled.
- `MceBroadcast.Injector.InjectMce`: opening the device and the exit on a short write are not modelled.
- `IoRing.SubmissionRing.PrepSqe`: fields of an entry that the source does not write keep their old content there and are not part of the model; barriers are taken to give program order.
- `Remap.RoundTripRestoresIff`: with more than 2^20 chunks do_mmap gives up before any remap; places next to the chunks are taken to be free, and a failing mremap to change nothing.
- `ChunkLayout.AddressesDisjointIff`: the overflow of the int products, which C leaves undefined, is taken to wrap around. The single-page DEVMEM backend with its extra mappings is not modelled.
- `Zigzag.PickAddr`: searches in which pagesize * skip overflows an int, which C leaves undefined, are not modelled.
- `PageFlagFilter.ParseFlagName`: the number parser is a parameter, None standing for its fatal error.
- `PriorityText.NormalizePriority`: pieces that are neither empty, a number nor a range of two numbers, on which seq fails or to_i reads a part, are not modelled.
- `Retry.DoSoftTry`: what a trial does is a parameter, one status for each trial.
- `Rounds.Project.RunTest`: what the runner of a round leaves is a parameter; lists hold no duplicates and no `config` entries, which the summary would remove.
- The threshold arithmetic of `check_hwpoison_limit_in_buddy`, whose block is 2 << order pages, would only add an easy member.
- All real I/O and system calls, the test cases themselves, environment set-up, plotting, display and template expansion, and the copies of the injector code.
