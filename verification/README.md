# Verified models of the workflow benchmark's core algorithms

This project models the algorithmic and protocol cores of the skill-evolution harness
(`eval/workflow_bench`), of its MCP bridge (`eval/bridge`) and of the editor hooks' slot lock
(`gitnexus-claude-plugin/hooks`) in Dafny 4.11, and proves what they keep. `dafny verify
dfyconfig.toml` verifies every file.

| files | what they model |
|---|---|
| `Ordering`, `ReviewMatching`, `ReviewScoring`, `ReviewRanking`, `ReviewNumbers` | the matcher that pairs review findings with hidden labels, which of the maximum matchings it picks, and the score computed from the pairs |
| `OutageBreaker`, `PackedSweep`, `WaveSweep` | the two cell schedulers with their outage breaker, and the serial fold both refine |
| `OverlayTransaction`, `OverlaySafety`, `OverlayOutcome`, `OverlayTemporaries`, `OverlayRollback`, `OverlayVouching`, `OverlayReturn`, `OverlayReuse`, `OverlayInterrupts` | the transactional overlay application: a step system over one directory, with faults at every operation and other writers between any two |
| `Makespan`, `CostEstimate` | the list-scheduling and wave models of the cost estimator, and the averages it takes over them |
| `HookLock`, `HookLockRace`, `HookLockAlone` | the three-slot file lock, all interleavings of its processes, and what one process gets alone |
| `PromotionGate`, `PromotionMonotone`, `PromotionValidator` | the promotion gate, how its decision answers to changes in the results, and the validator that recomputes its decisions |
| `DigestFrames` | the length-prefixed byte streams behind overlay and oracle digests |
| `McpFraming` | the Content-Length framing (Language Server Protocol 3.17, "Base Protocol", "Header Part"), writer and reader |
| `ComparatorReuse` | which measured rows are carried from sweep to sweep, and for how long |
| `Optional`, `Octets` | a value that may be missing; bytes |

Code that loops over dictionaries, lists or a pipe is a method or a class here, proved equal to
a function (`Matcher.Augment` to `AugmentFrom`, `EvaluateCandidate` to `Gate`, the `Bridge`
methods to `FirstResponse`), and the theorems are about that function. Code whose point is what
happens between its operations, because threads, processes, faults or other writers interleave
with it, is a step system: `Enabled` and `Apply` give one step, `IsRun` a run, and the theorems
hold in every state of every run. Digests are injective, messages are byte strings, numbers are
exact, and rounding is half-to-even on exact numbers.

## What was found

* `apply_promoted_overlay` catches only `OSError` (classification after a raised exchange,
  promotion_apply.py:754-774) or `OSError` and `ValueError` (rollback inspections, 667-691 and
  838-865), while its cleanup runs after any exception (884-930). An interrupt at one of these
  inspections can therefore lose files: from every run at such an inspection there is a way to end
  with no recovery record in which exactly what is at a destination survives
  (`OverlayInterrupts.InterruptKeepsOnlyDestinations`; in a classification, under an exact
  condition, `ClassifyInterruptLosesExactly`). `UnrecordedExchange` is a run that reports "all
  replacements were rolled back" with the new file in place and the original nowhere. Until a
  cleanup that such an interrupt led to, nothing is ever lost (`OverlaySafety.NobodysBytesLost`).
  `OverlayOutcome.AllOrNothing` gives the exact condition under which a reported rollback is one.
  Without other writers it takes a second failure inside the handling of a first
  (`OverlayOutcome.OneFaultIsHandled`); with another writer one interrupt alone is enough to lose
  that writer's file (`OverlayInterrupts.OneInterruptLosesAnothersFile`).
* A normal return of `apply_promoted_overlay` vouches for every destination
  (`OverlayVouching.PublishedIsVouched`), but by reading its content and its identity one after the
  other (promotion_apply.py:803-812). That both held at once, in one state of the last pass, is
  sure exactly if the inode number of a staged candidate is not given out again in between
  (`OverlayReuse.SeenAtOnceExactly`).
* `hook-lock.js` bounds the hooks in flight by three exactly when no two processes are at one
  slot at once, no read of a slot fails and no file is used beyond the stale limit
  (`HookLockRace.ThreeInFlightExactly`); the code prevents none of the three, because inspecting a
  slot and unlinking it are separate operations, and so are the read and the unlink of a release.
  If any of them may happen, `HookLockRace.CrowdInFlight` runs any number of processes at once with
  nothing else going wrong. `HookLock.InFlightBound` is the bound that always holds, and those runs
  attain it.
* `sweep_packed_cells` may return untripped after an outside cancel, because the test at
  runner.py:1128-1130 is not reached when the cancel stops the producer while the folder waits for
  it. `PackedSweep.CancelIsReportedExactly` says in which states a cancel is still reported.
* More workers are sure not to lengthen the wave model exactly when they are a multiple of the
  fewer (`Makespan.MoreWorkersNeverLengthenWavesExactly`); the fed pool never gets longer.
* A lower cost is sure to keep a promotion exactly when no incumbent value is negative
  (`PromotionMonotone.LowerCostKeepsPromotionExactly`; the validator refuses such values).
* Resolving more runs can lose a promotion: it brings a task that neither arm resolved under the
  gate's stricter cap. `PromotionMonotone.ResolvingMoreKeepsPromotionExactly` says when it does.
* A frame with an empty body can be written but ends reading (`McpFraming.EmptyBodyStopsReading`).
  All answers are read exactly when no body up to the last of them is empty or malformed
  (`McpFraming.AllFramesRead`).
* A negative `--outage-streak` trips the serial fold on a clean row, but not the sweep on a reused
  one; the sweep is one serial fold, whatever is reused, exactly for the other limits
  (`WaveSweep.SweepIsOneSerialFoldExactly`).

## Model

| member | source | states |
|---|---|---|
| `ReviewMatching.FailedSearchCertificate` | eval/workflow_bench/review_scoring.py:227-236 | a search that fails leaves every owner as it was, and the set it saw is a closed neighbourhood |
| `ReviewMatching.SuccessfulSearchFlipsPath` | eval/workflow_bench/review_scoring.py:227-236 | a search that succeeds rewrites the owners along one augmenting path of targets it had not seen, although on the way one finding owns two labels |
| `ReviewMatching.FlipKeepsMatching` | eval/workflow_bench/review_scoring.py:227-236 | a success keeps a matching a matching, and every matched finding and label stays matched |
| `ReviewMatching.FlipKeepsDeadRegion` | eval/workflow_bench/review_scoring.py:227-238 | no later successful path enters the closed region that failed searches left behind |
| `ReviewMatching.MaximumCardinality` | eval/workflow_bench/review_scoring.py:217-240 | no matching of the same edges has more pairs than the search ends with, for every edge list |
| `ReviewMatching.AssignPairsIsMaximumMatching` | eval/workflow_bench/review_scoring.py:217-240 | the returned pairs are candidates, use each finding and each label at most once, and are as many as in any matching |
| `ReviewMatching.Matcher.constructor` | eval/workflow_bench/review_scoring.py:220-226 | the edges are the candidates, grouped by finding in candidate order, and nothing is owned |
| `ReviewMatching.Matcher.Augment` | eval/workflow_bench/review_scoring.py:227-236 | the recursive search on shared dictionaries computes what the search function says, including the seen set |
| `ReviewMatching.AssignPairs` | eval/workflow_bench/review_scoring.py:217-240 | the loop over all findings with a fresh seen set each returns the sorted owners of the functional search |
| `ReviewMatching.UnassignedIsBlocked` | eval/workflow_bench/review_scoring.py:238-240 | a finding without a label is one that no matching can add to the earlier findings that have one |
| `ReviewScoring.EdgesAreCompatiblePairs` | eval/workflow_bench/review_scoring.py:204-214 | the matcher's edges are exactly the index pairs with equal path and overlapping lines |
| `ReviewScoring.PairsAreMaximum` | eval/workflow_bench/review_scoring.py:243-269 | the scored pairs are compatible, distinct on both sides, and no matching of the findings with the labels has more |
| `ReviewScoring.ScoreIgnoresOrder` | eval/workflow_bench/review_scoring.py:248-269 | reordering findings, labels or both changes no number of the score |
| `ReviewScoring.ScoresInUnit` | eval/workflow_bench/review_scoring.py:271-298 | for every input, precision, recall, F1, their weighted forms and blocker recall are missing or in [0, 1]; without labels weighted recall and F1 are missing |
| `ReviewScoring.PerfectWeightedF1` | eval/workflow_bench/review_scoring.py:280-292 | with labels, weighted F1 lies in [0, 1] and is 1 exactly when nothing is missed, nothing is invented and no matched finding is below its label's severity |
| `ReviewScoring.ScoreReview` | eval/workflow_bench/review_scoring.py:243-307 | the nested candidate loop, sort, matching and sums give the score function's values |
| `ReviewRanking.CompatibleIsCommonLine` | eval/workflow_bench/review_scoring.py:204-210 | a finding and a label are compatible exactly when they are in one file and have a line in common |
| `ReviewRanking.LabelsInOrderOfAgreement` | eval/workflow_bench/review_scoring.py:255-265 | a finding tries its labels by category, severity, nearness of the first lines, then the narrower and the later first |
| `ReviewRanking.BestLabelIsScored` | eval/workflow_bench/review_scoring.py:255-266 | a finding that agrees best with a label no other finding is compatible with is scored with that label |
| `ReviewRanking.DifferentBestLabelsAreScored` | eval/workflow_bench/review_scoring.py:255-266 | if the findings' best labels are all different, exactly those pairs are scored |
| `ReviewRanking.EarlierFindingsFirst` | eval/workflow_bench/review_scoring.py:238-240 | a finding is left out only if no pairing has room for it beside the earlier ones that are paired |
| `ReviewNumbers.SeveritiesWeighInOrder` | eval/workflow_bench/review_scoring.py:22-23 | a heavier severity weighs more, and the blocking ones are those above medium |
| `ReviewNumbers.PrecisionAndRecall` | eval/workflow_bench/review_scoring.py:271-274 | precision is the share of the findings that are paired, recall that of the labels, each missing exactly when there are none |
| `ReviewNumbers.F1IsShareOfAll` | eval/workflow_bench/review_scoring.py:271-279 | with labels F1 is twice the pairs among all findings and labels, also where precision is missing; without labels it is missing |
| `ReviewNumbers.WeightedPrecisionAndRecall` | eval/workflow_bench/review_scoring.py:280-286 | the weighted forms are the shares of what was earned in what was earned or invented, and in what the labels weigh |
| `ReviewNumbers.WeightedF1IsShareOfWeight` | eval/workflow_bench/review_scoring.py:280-292 | with labels weighted F1 is twice the earned weight among earned, invented and labelled weight |
| `ReviewNumbers.FullBlockerRecall` | eval/workflow_bench/review_scoring.py:293-295 | blocker recall is missing exactly without blocking labels, and 1 exactly when a blocking finding is paired with each |
| `ReviewNumbers.VerdictIsRight` | eval/workflow_bench/review_scoring.py:304-307 | a verdict is right exactly when it approves a clean change, asks for changes where a label is blocking, and comments otherwise |
| `OutageBreaker.TripIsFinal` | eval/workflow_bench/runner.py:827-829 | once the serial fold trips, folding more cells changes nothing |
| `OutageBreaker.SerialLog` | eval/workflow_bench/runner.py:1108-1127 | the serial fold records ready cells in increasing order, each once, and exactly those up to the last recorded one, which is the cell it trips on if it trips |
| `OutageBreaker.TripsExactly` | eval/workflow_bench/runner.py:1108-1127 | the fold has tripped exactly when a ready cell has ended a run of as many consecutive systemic failures as the limit, the initial streak counting for a run from the first ready cell on; with limit 0 never |
| `OutageBreaker.TripsOnFirstRun` | eval/workflow_bench/runner.py:1108-1127 | and it trips on the first cell that does |
| `PackedSweep.EveryStateInv` | eval/workflow_bench/runner.py:967-1140 | what every interleaving of producer, workers, folder and an outside cancel keeps |
| `PackedSweep.PackedRefinesSerial` | eval/workflow_bench/runner.py:967-1140 | without outside cancel every run returns the streak, the tripped flag and the recorded cells of the serial fold |
| `PackedSweep.CancelledRunIsSerialPrefix` | eval/workflow_bench/runner.py:1128-1130 | with an outside cancel what is recorded is still a prefix of the serial fold, and a trip is still reported |
| `PackedSweep.OverrunWithinWindow` | eval/workflow_bench/runner.py:1042-1062 | no cell at or beyond the tripping cell plus the window ever starts; at most window - 1 cells overrun |
| `PackedSweep.RunsAreBounded` | eval/workflow_bench/runner.py:1042-1140 | every run has at most as many steps as the initial state has work |
| `PackedSweep.NeverStuck` | eval/workflow_bench/runner.py:1042-1127 | until the call returns, producer, a worker or the folder can move: the window and the waits never deadlock |
| `PackedSweep.PoolIsUsed` | eval/workflow_bench/runner.py:1042-1062 | before anything is folded, as many cells can be submitted as the window allows and as many of them run at once as there are workers |
| `PackedSweep.CancelIsReportedExactly` | eval/workflow_bench/runner.py:1073-1130 | a returned call reports tripped exactly when, in any state with the cancel flag set, it had tripped or its folder was still to test the flag |
| `PackedSweep.OutsideCancelCanReturnUntripped` | eval/workflow_bench/runner.py:1128-1130 | a run with an outside cancel that returns untripped with no cell run |
| `WaveSweep.SweepTaskCells` | eval/workflow_bench/runner.py:865-946 | waves return the serial fold's streak and trip, and record exactly the cells of all waves through the tripping one, in order |
| `WaveSweep.WaveOverrun` | eval/workflow_bench/runner.py:832-862 | a tripping wave ends at most workers - 1 cells after the tripping cell |
| `WaveSweep.SweepTasks` | eval/workflow_bench/runner.py:2538-2664 | task after task, each task's reused rows counting for the streak without tripping and then its paid cells in waves, up to a trip |
| `WaveSweep.SweepIsOneSerialFold` | eval/workflow_bench/runner.py:2648-2664 | with the rows that reuse admits, and a limit that is not negative or nothing reused, the sweep reaches the verdict of one serial fold over all rows, reused and paid |
| `WaveSweep.SweepIsOneSerialFoldExactly` | eval/workflow_bench/runner.py:2538-2664 | for every streak, it does so whatever is reused exactly when the limit is not negative |
| `WaveSweep.PackedAgreesWithWaves` | eval/workflow_bench/runner.py:967-1140 | packed and wave sweeps of the same cells, none reused, agree on streak and trip, whatever their worker counts |
| `OverlaySafety.EveryStateInv` | eval/workflow_bench/promotion_apply.py:693-930 | what every step of the transaction and every other writer's step keeps, whatever fails |
| `OverlaySafety.PublishStepKeepsInv` | eval/workflow_bench/promotion_apply.py:747-775 | an exchange that raises after landing leaves the candidate's inode away from its temporary name, which is what the classification tests |
| `OverlaySafety.ReadRollsOn` | eval/workflow_bench/promotion_apply.py:821-866 | every read inside the rollback breaks off, gives the record up, finds the staged candidate back under its temporary name, or moves on knowing what it read |
| `OverlaySafety.GoneKeepsSound` | eval/workflow_bench/promotion_apply.py:884-898 | the cleanup unlinks nothing but backups, candidates and files with the bound bytes and mode |
| `OverlaySafety.NobodysBytesLost` | eval/workflow_bench/promotion_apply.py:618-933 | at every moment a file another writer put at a destination is there or at its temporary name, unless it has the bound bytes and mode or its writer replaced it; except in a cleanup that an interrupt at an inspection inside a handler led to |
| `OverlayOutcome.EveryStateQuiet` | eval/workflow_bench/promotion_apply.py:693-930 | without other writers, where each item's two files are at every step, and what the flags say about it |
| `OverlayOutcome.AllOrNothing` | eval/workflow_bench/promotion_apply.py:820-930 | without other writers the call ends all new, all original, or with a reported incomplete rollback and every original on disk; a reported rollback is one exactly when every landed exchange was recorded |
| `OverlayOutcome.PublishedExactlyWhenNothingFails` | eval/workflow_bench/promotion_apply.py:818-933 | without other writers the call returns normally exactly when no operation failed, and then every destination is new |
| `OverlayOutcome.OneFaultIsHandled` | eval/workflow_bench/promotion_apply.py:754-775 | without other writers, a single failure, wherever it strikes, never escapes a handler |
| `OverlayRollback.RollbackSucceeds` | eval/workflow_bench/promotion_apply.py:820-880 | without other writers an incomplete rollback means that an operation of the rollback itself failed |
| `OverlayRollback.OneFaultIsUndone` | eval/workflow_bench/promotion_apply.py:618-933 | without other writers one failure ends in a reported rollback with every original in place, or, if an unlink of the cleanup failed, in that report with everything published |
| `OverlayRollback.RecordIsExact` | eval/workflow_bench/promotion_apply.py:754-776 | without other writers and a second fault, a rollback has on record exactly the exchanges that landed |
| `OverlayRollback.FaultsAreCounted` | eval/workflow_bench/promotion_apply.py:618-933 | a step counts as a fault exactly if its operation raises, whether or not it did its work before |
| `OverlayVouching.PublishedIsVouched` | eval/workflow_bench/promotion_apply.py:730-818 | whoever else writes, a normal return saw of every item: the bound bytes and mode at the destination before its exchange, the identity and content of the file the exchange displaced, and in the last pass the new bytes and mode, then the staged candidate's identity, with the displaced file under the temporary name |
| `OverlayVouching.NothingExchangedUnseen` | eval/workflow_bench/promotion_apply.py:730-740 | before the first exchange every destination was seen with its bound bytes and mode, after everything was staged |
| `OverlayReuse.SeenAtOnceExactly` | eval/workflow_bench/promotion_apply.py:803-812 | for all runs that return normally, new content and candidate inode were at each destination in one state of the last pass, exactly if inode numbers of staged candidates are not given out again |
| `OverlayReturn.RollbackIsVouched` | eval/workflow_bench/promotion_apply.py:821-866 | whoever else writes, a reported rollback saw every recorded candidate back under its temporary name, and after each exchange back the identity, and the content if it could be read, of what that brought to the destination |
| `OverlayTemporaries.IncompleteRollbackIsRecoverable` | eval/workflow_bench/promotion_apply.py:867-878 | whoever else writes, an incomplete rollback is reported only with the bound bytes and mode of every exchanged item in its backup |
| `OverlayTemporaries.PublishedLeavesNoTemporaries` | eval/workflow_bench/promotion_apply.py:884-933 | a call that returns normally leaves no temporary name behind |
| `OverlayTemporaries.NoRecordedTemporaryStays` | eval/workflow_bench/promotion_apply.py:884-898 | a call that ends without asking for recovery has removed every temporary it had recorded |
| `OverlayInterrupts.InterruptKeepsOnlyDestinations` | eval/workflow_bench/promotion_apply.py:838-898 | from any run at an inspection of the rollback, an interrupt followed by a clean cleanup leaves exactly what is at the destinations |
| `OverlayInterrupts.ClassifyInterruptKeepsOnlyDestinations` | eval/workflow_bench/promotion_apply.py:754-775 | the same from any run at the classification of a raised exchange, if nothing is recorded yet or the destination of a recorded exchange exists |
| `OverlayInterrupts.NothingToBreakOffKeepsFiles` | eval/workflow_bench/promotion_apply.py:820-878 | otherwise, once nobody else writes, every end after such an interrupt is an incomplete rollback with every file kept |
| `OverlayInterrupts.ClassifyInterruptLosesExactly` | eval/workflow_bench/promotion_apply.py:754-930 | so such an interrupt can lose everything but the destinations exactly under that condition |
| `OverlayInterrupts.OneInterruptLosesAnothersFile` | eval/workflow_bench/promotion_apply.py:776-898 | for every file with other bytes or mode that another writer puts at the destination just before the exchange, a run with one interrupt and no other fault that loses it without a recovery record |
| `OverlayInterrupts.UnrecordedExchange` | eval/workflow_bench/promotion_apply.py:754-775 | a run that reports a complete rollback with the new file published and the original gone |
| `Makespan.FedMakespan` | eval/workflow_bench/measure_evolution_cost.py:165-172 | the loop computes list scheduling with ties to the first worker |
| `Makespan.FedWithinWaves` | eval/workflow_bench/measure_evolution_cost.py:157-172 | for all durations and workers the fed schedule ends no later than the waves |
| `Makespan.MoreWorkersNeverLengthen` | eval/workflow_bench/measure_evolution_cost.py:165-172 | more workers never lengthen a fed schedule, for any durations |
| `CostEstimate.MoreWorkersNeverLengthenTask` | eval/tests/test_measure_evolution_cost.py:119-122 | nor the fed estimate of a task |
| `Makespan.MoreWorkersNeverLengthenWavesExactly` | eval/workflow_bench/measure_evolution_cost.py:157-162 | more workers never lengthen the waves, for all durations, exactly when they are a multiple of the fewer |
| `Makespan.FeedConservesWork` | eval/workflow_bench/measure_evolution_cost.py:165-172 | the loads add up to the durations |
| `Makespan.FedWithinTwiceBest` | eval/workflow_bench/measure_evolution_cost.py:165-172 | the fed schedule is within 2 - 1/workers of the largest load of any assignment of the same cells |
| `CostEstimate.TaskCells` | eval/workflow_bench/measure_evolution_cost.py:142-154 | the nested loops list each run's entries, one per arm, cycled from the offset |
| `CostEstimate.EveryEntryEquallyOften` | eval/workflow_bench/measure_evolution_cost.py:149-153 | over a whole number of wraps every entry of a sample is read exactly that often, for every run |
| `CostEstimate.RunAverages` | eval/workflow_bench/measure_evolution_cost.py:175-195 | so over whole wraps of every sample, what a run reads adds up to that many times the sum of the arms' means |
| `CostEstimate.OneWorkerExpectation` | eval/workflow_bench/measure_evolution_cost.py:175-195 | with one worker the expectation is runs times the sum of the arms' means, under both schedulers |
| `CostEstimate.WaveEstimateAtLeastFed` | eval/workflow_bench/measure_evolution_cost.py:175-195 | the averaged estimate of the waves is never below that of the fed pool |
| `CostEstimate.TaskCellAt` | eval/workflow_bench/measure_evolution_cost.py:142-154 | cell run times arms plus arm is that arm's sample at offset plus run, cycled |
| `CostEstimate.EnoughWorkersEstimate` | eval/workflow_bench/measure_evolution_cost.py:175-195 | with a worker for every cell both estimates are the average over the alignments of the largest entry read |
| `CostEstimate.FedEstimateBounds` | eval/workflow_bench/measure_evolution_cost.py:175-195 | for every number of workers the fed estimate is at least the mean work shared out and at least the average largest entry, and at most the shared work plus (1 - 1/workers) times that average |
| `HookLock.EveryStateInv` | gitnexus-claude-plugin/hooks/hook-lock.js:8-112 | what every interleaving of starts, deaths, acquisitions, releases and failures keeps |
| `HookLock.HoldersOwnDistinctSlots` | gitnexus-claude-plugin/hooks/hook-lock.js:22-41 | holders whose file nobody removed own different slots |
| `HookLock.InFlightBound` | gitnexus-claude-plugin/hooks/hook-lock.js:8-112 | holders never exceed three by more than the unlinks that took a file from a process counting on it |
| `HookLock.VerdictIsInformed` | gitnexus-claude-plugin/hooks/hook-lock.js:68-100 | in an orderly run a file judged dead, by its process id or by its age, is used by nobody |
| `HookLock.AtMostThreeInFlight` | gitnexus-claude-plugin/hooks/hook-lock.js:22-109 | if no two processes are between looking at a slot and unlinking it, no read of a slot fails and no file is used beyond the stale limit, no file is taken from its user and at most three hold |
| `HookLockRace.CrowdInFlight` | gitnexus-claude-plugin/hooks/hook-lock.js:43-106 | if overlap, failed reads of a slot or use beyond the stale limit may happen, then for every number a run with that many holders above three, as many unlinks of a file in use, and otherwise no failed operation, no death and, unless use beyond the limit is allowed, no time passing |
| `HookLockRace.ThreeInFlightExactly` | gitnexus-claude-plugin/hooks/hook-lock.js:8-112 | for every choice of the three that runs may contain, at most three hold in every state of every such run exactly when it is none of them |
| `HookLockAlone.AcquisitionOutcome` | gitnexus-claude-plugin/hooks/hook-lock.js:22-109 | a process that acquires alone ends holding the first slot that has no file, no valid owner, a dead owner or a stale file, with its own file in it and nothing else changed, exactly when there is one; otherwise nothing has changed |
| `HookLockAlone.AcquisitionEnds` | gitnexus-claude-plugin/hooks/hook-lock.js:22-109 | and every such acquisition ends |
| `HookLockAlone.AcquisitionIsBounded` | gitnexus-claude-plugin/hooks/hook-lock.js:22-109 | in every run, whatever others do and whatever fails, an acquisition is at most 48 operations |
| `HookLockAlone.SlotIsTriedTwice` | gitnexus-claude-plugin/hooks/hook-lock.js:24-106 | a slot is left only by holding it, after judging its file young and its owner alive, or after a second attempt |
| `HookLockAlone.ReleaseOutcome` | gitnexus-claude-plugin/hooks/hook-lock.js:28-39 | a release alone removes the slot's file exactly if it has the releaser's number in it |
| `PromotionGate.EvaluateCandidate` | eval/workflow_bench/evolution.py:819-1070 | over the results sorted by task name, the loop's flags are exactly "some row is thin" and "some row is worse", and the verdict follows from them |
| `PromotionGate.DecisionIgnoresOrder` | eval/workflow_bench/evolution.py:856 | the whole decision depends on the bag of results only |
| `PromotionMonotone.SortRealsSorts` | eval/workflow_bench/evolution.py:1023 | the sort behind the median sorts, and keeps every number |
| `PromotionMonotone.MedianMonotone` | eval/workflow_bench/evolution.py:1022-1023 | raising improvements never lowers the rounded median |
| `PromotionMonotone.LowerCostKeepsPromotion` | eval/workflow_bench/evolution.py:881-1057 | lowering the candidate's measured values on any tasks keeps a promotion, if no incumbent value is negative |
| `PromotionMonotone.NegativeIncumbentLosesPromotion` | eval/workflow_bench/evolution.py:881-885 | for every promotion with a negative incumbent value some lower candidate value loses it |
| `PromotionMonotone.LowerCostKeepsPromotionExactly` | eval/workflow_bench/evolution.py:881-1057 | lowering candidate values in any way is sure to keep a promotion if and only if no incumbent value is negative |
| `PromotionMonotone.ResolvingMoreKeepsPromotionExactly` | eval/workflow_bench/evolution.py:910-1057 | when the candidate resolves more runs, its promotion is kept exactly when every task this brings into the gate stays within the gate's cap and the margin or the median still suffices |
| `PromotionMonotone.ResolvingMoreInsideTheGate` | eval/workflow_bench/evolution.py:910-1057 | with no task coming into the gate it is always kept |
| `PromotionMonotone.ResolvingOneRunLosesPromotion` | eval/workflow_bench/evolution.py:910-991 | whenever a task outside the gate rose in cost beyond the gate's cap, resolving one run of it loses the promotion |
| `PromotionGate.PromotionMeans` | eval/workflow_bench/evolution.py:938-1057 | a promotion leaves out no task, pairs equally many valid runs, resolves no task less often, keeps every cap, gates at least half of the tasks and has a gain |
| `PromotionGate.PromotionIsReproduced` | eval/workflow_bench/evolution.py:921-937 | rerunning the gate on a promotion's own rows gives the same decision |
| `PromotionGate.InsufficientExactly` | eval/workflow_bench/evolution.py:849-1016 | evidence is insufficient exactly when no model is named, there are no results, a task is not measured comparably on both sides, or fewer than half of the tasks are gated |
| `PromotionGate.PromotesExactly` | eval/workflow_bench/evolution.py:894-1057 | with sufficient evidence the verdict is promote exactly when every row is sound and there is a gain, and a task is out of the gate exactly when neither arm resolved a run and no skill failed to load |
| `PromotionGate.ImprovementMeans` | eval/workflow_bench/evolution.py:881-885 | an improvement of p percent is a candidate value p percent below the incumbent's, up to a twentieth of a percent |
| `PromotionGate.MarginIsDifference` | eval/workflow_bench/evolution.py:1024-1031 | the margin is all runs the candidate resolved less all the incumbent resolved |
| `PromotionGate.MissingCountsMeanAllValid` | eval/workflow_bench/evolution.py:867-870 | counts left out of the results mean that all runs were valid and none excluded |
| `PromotionMonotone.MedianIsMiddle` | eval/workflow_bench/evolution.py:1023 | every sorted arrangement has the median in its middle: the middle one, or the mean of the middle two |
| `PromotionMonotone.MedianIsOfTheGate` | eval/workflow_bench/evolution.py:1022-1023 | the median is that of the gated tasks' improvements, in any order |
| `PromotionValidator.ValidArmCounts` | eval/workflow_bench/evolve.py:1301-1328 | an arm is valid exactly when valid and excluded runs make up its runs, what is resolved was resolved in valid ones and its metric is not negative; then its rate is in [0, 1] |
| `PromotionValidator.RequireGateEvidence` | eval/workflow_bench/evolve.py:1261-1348 | the checks, in order, accept exactly the acceptable decisions, and the refusals say why |
| `PromotionValidator.AcceptsExactlyTheGatesPromotions` | eval/workflow_bench/evolve.py:1261-1348 | accepted are exactly the promotions the gate gives on valid results for the selected tasks, rows in the order of their names |
| `PromotionValidator.AcceptedMeansPromotion` | eval/workflow_bench/evolve.py:1341-1348 | whatever produced an accepted decision, it has what a promotion promises, and its rows are in task order |
| `DigestFrames.BigEndianIsExact` | eval/workflow_bench/oracle_assets.py:66-71 | eight bytes give the length back, below 2^64 |
| `DigestFrames.HashFrames` | eval/workflow_bench/oracle_assets.py:66-71 | the updates feed the stream of all frames, or overflow |
| `DigestFrames.StreamIsUniquelyDecodable` | eval/workflow_bench/oracle_assets.py:66-71 | different frame lists give different streams |
| `DigestFrames.FingerprintPayload` | eval/workflow_bench/evolution.py:255-263 | four updates a file feed the stream of paths and contents |
| `DigestFrames.PayloadDigestIsExact` | eval/workflow_bench/evolution.py:255-263 | two payloads have one digest exactly when they are the same files in the same order |
| `DigestFrames.OracleDigestIsExact` | eval/workflow_bench/oracle_assets.py:207-223 | two oracles have one digest exactly when command and files agree, whatever the order of declaration |
| `McpFraming.Bridge.constructor` | eval/bridge/mcp_bridge.py:41-47 | nothing sent, no request yet |
| `McpFraming.Bridge.Send` | eval/bridge/mcp_bridge.py:203-211 | header and message go out as one frame |
| `McpFraming.Bridge.ReadContentLength` | eval/bridge/mcp_bridge.py:246-270 | before the deadline, one header is read byte by byte, no further than its end, and parsed |
| `McpFraming.Bridge.ReadBody` | eval/bridge/mcp_bridge.py:272-290 | however short the reads, exactly the asked bytes are put together, or the stream ended |
| `McpFraming.Bridge.ReadResponse` | eval/bridge/mcp_bridge.py:292-320 | before the deadline, the result and the remaining stream are those of the first message with an id |
| `McpFraming.Bridge.SendRequest` | eval/bridge/mcp_bridge.py:192-224 | one frame out, and a result only from the next answer, if it has this request's id and no error |
| `McpFraming.HeaderReads` | eval/bridge/mcp_bridge.py:206-270 | parsing the written header gives the length back: print and parse of the decimal included |
| `McpFraming.AnyCaseReads` | eval/bridge/mcp_bridge.py:262-269 | the header's name is read in any case |
| `McpFraming.HeaderEndsItself` | eval/bridge/mcp_bridge.py:251-258 | scanning stops at the end of the written header, whatever follows |
| `McpFraming.FramesRead` | eval/bridge/mcp_bridge.py:292-320 | notifications are skipped, the first message with an id is returned, and the stream stands at the next frame, whatever follows |
| `McpFraming.AllFramesRead` | eval/bridge/mcp_bridge.py:292-320 | reading again and again over a list of frames returns every message with an id, in order and nothing else, and stops at a frame boundary, exactly when no body up to the last of these messages is empty or malformed |
| `McpFraming.EmptyBodyStopsReading` | eval/bridge/mcp_bridge.py:300-306 | a frame with an empty body ends the reading without a result |
| `ComparatorReuse.Select` | eval/workflow_bench/comparator_reuse.py:219-246 | a key is kept exactly when some usable row has it and all usable rows for it share one identity |
| `ComparatorReuse.ReusedExactly` | eval/workflow_bench/comparator_reuse.py:219-246 | a run of a task under an arm is reused exactly when some usable row measured it and all that did agree in scores and time stamp, whatever rows of other runs say |
| `ComparatorReuse.SelectionIgnoresOrder` | eval/workflow_bench/comparator_reuse.py:219-246 | the kept keys and their identities do not depend on the order of the rows |
| `ComparatorReuse.ReuseNeverOutlivesMeasurement` | eval/workflow_bench/comparator_reuse.py:134-268 | over any chain of copies, a row is reused only while its first measurement is within the age limit |
| `ComparatorReuse.ReusableExactly` | eval/workflow_bench/comparator_reuse.py:128-268 | and it can be reused again exactly as long as that holds, whatever the copies' own stamps |
| `ComparatorReuse.CopyDisputesOriginal` | eval/workflow_bench/comparator_reuse.py:305-312 | a copy and its original, offered together, cost each other the cell |

## Left out

- `evaluate_review_candidate`, `mirror_targets`, `merge_configs`, `compute_metrics` and the other small helpers: they would only add easy members.
- Reasons, warnings and other texts of a promotion decision; the decision's rows, lists, median and verdict are modelled.
- Severity, category and grounding accuracy, finiteness and the final rounding of the review score.
- ReviewMatching.Matcher.Augment: Python's recursion limit is not modelled.
- Exceptions raised by a cell: both schedulers are modelled for cells that return a row.
- PackedSweep.PackedRefinesSerial: does not cover runs with an outside cancel, which by design report another flag; `CancelledRunIsSerialPrefix` and `CancelIsReportedExactly` cover those.
- The transaction, the packed scheduler and the slot lock are step systems over values, not classes: their subject is interleaving, and one object's methods could not be interrupted half way.
- Overlay: preparation, path validation and the recovery artifact's text (an operation that succeeds or fails here); hard links, changes of times without content by others, a second read within one read of an entry, and a writer that edits a displaced file under its temporary name through a descriptor it still holds.
- OverlaySafety.NobodysBytesLost: not for a cleanup that an interrupt at an inspection inside a handler led to, where the code does lose files; `OverlayInterrupts` says which, and has such a run.
- Makespan: floating-point sums, and the rest of the cost report.
- HookLock: creation of the lock directory, closing of descriptors, and a process that acquires twice at once.
- McpFraming: starting and stopping the server, JSON itself (two functions), UTF-8 decoding errors and non-ASCII blanks or digits in a header; the deadline is a number of clock readings, and `ReadResponse` says what it returns when those suffice.
- ComparatorReuse: the comparison of bound fields one by one (one function), and the copying of artifacts.
- SHA-256 itself: a digest stands for the stream it was fed.
