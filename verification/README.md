# RLinf verification models

Dafny models of the parts of RLinf whose correctness spans several functions or a whole run, with
proofs of what those parts promise. `dafny verify dfyconfig.toml` checks everything.

| component | modules | main results |
|---|---|---|
| k-way differencing partitioner | `KarmarkarKarp` (values), `KarmarkarKarpObjects` (mutable sets, states and heap), `KarmarkarKarpRuns` | exact coverage, load spread, no empty part, equal sizes, for every order of popping states; every correct priority queue gives the same run; the object code computes the value model |
| bin packer | `BestFitDecreasing` | valid packing, no two bins could share one, at most 3/2 of any packing's bins |
| micro-batch search | `DynamicBatching`, `DivisibilityWitness`, `OrderRestoration` | when the search succeeds (if and only if), what it returns, order restored afterwards, exactly when the count stays divisible |
| cross-rank redistribution | `RankBalance` | nothing lost, pads bounded, shares equal, whole chunks, loads balanced |
| checkpoint publish and resume | `Checkpoint`, `CheckpointRunner` | safety over every sequence of saves, failures, crashes and restarts; exactly when a job keeps its step limit |
| loss scaling | `Grouping`, `LossScales` | in-place reweighting conserves weight; only one order of levels is accepted |
| group down-sampling | `DownSampling`, `GroupChoice`, `RolloutFilter` | each group keeps nothing or exactly the target, re-chunking, quotas, parallel lists aligned |
| advantages | `Advantages`, `EmbodiedLayout` | backward loop against closed form, done cut-off, flat and chunked layouts |
| overlapped weight sync | `WeightSync` | every interleaving: versions, counters, exact staleness |
| waypoint expert | `Expert`, `ExpertSteps` | arbitrary positions: every step in numbers, phase order, bounded compensation, bounded and unbounded waits |
| masked statistics | `Statistics` | one-pass form refines two-pass form over any spread of the data |

`Arithmetic`, `Results` and `Sequences` hold what the models share: a stable sort over any order,
index permutations, loads, gathering by index, and a few facts about division.

Floating-point numbers are exact reals, integers are unbounded, and a collective operation is its
mathematical result over all ranks. Code that updates things in place is modelled by classes, arrays and
loops and proved against functions; the theorems are about those functions, so they hold of what the
imperative code computes. Raised exceptions are `Err` results; assertions of the original that the
proofs discharge are asserted in the models.

Three promises turned out not to hold of the code; the code is modelled as it is:

- `num_batches_divided_by` is documented to make the micro-batch count divisible, and a caller asserts
  it. The search raises the count by one at a time, so the count can end at a non-multiple.
  `DivisibilityWitness.DivisibilityLost` is a concrete case: five samples that fit two bins, but only with
  the two longest samples in one bin, which the partitioner never does. `DynamicBatching.DivisibleIff` says
  exactly when the promise holds: when the first count from the rounded start on that fits everywhere is a
  multiple. `DynamicBatching.DivisibleIffFirstRoundFits` is the test a caller can make before the search.
- The expert's header promises a bounded wait above the rack. The code leaves that phase only at the goal:
  `Expert.WaitAboveRackIff` says exactly, for all observations and every n, when the wait is at most n steps,
  and `Expert.NoBoundAboveRack` gives, for every n, positions that keep the expert there that long.
- `max_steps` is meant to limit the job. The loop compares it for equality after a step, so a finished job
  that auto-resumes with an epoch left trains past it. `CheckpointRunner.Runner.TrainAndSave` says exactly
  when a run stays within the limit, and `CheckpointRunner.FinishedJobTrainsOn` is a concrete job that does not.

## Model

| member | source | states |
|---|---|---|
| KarmarkarKarp.PartLessTotal | rlinf/utils/data_iter_utils.py:317-322 | the order on sets is total: two sets tie only when they have the same sum and the same items |
| KarmarkarKarp.PartLessTransitive | rlinf/utils/data_iter_utils.py:317-322 | that order is transitive, so sorting by it is meaningful |
| KarmarkarKarp.PartLessMeans | rlinf/utils/data_iter_utils.py:317-322 | that order spelled out: smaller sum, then fewer items, then the first position at which the items differ, by index |
| KarmarkarKarp.MergeSpread | rlinf/utils/data_iter_utils.py:343-350 | merging two states never widens the larger of the two spreads |
| KarmarkarKarp.FilledComeFirst | rlinf/utils/data_iter_utils.py:317-346 | in a sorted state the empty sets come last, even among zero-length samples |
| KarmarkarKarp.MergeUsed | rlinf/utils/data_iter_utils.py:343-346 | a merge keeps min(k, item count) sets non-empty and holds exactly the samples of both states |
| KarmarkarKarp.ReduceFine | rlinf/utils/data_iter_utils.py:390-397 | for any rule of popping states, the last state holds every sample of the heap once and keeps the sum, spread, fill and size invariants |
| KarmarkarKarp.StartFine | rlinf/utils/data_iter_utils.py:374-388 | every state pushed at the start satisfies those invariants |
| KarmarkarKarp.OrderFacts | rlinf/utils/data_iter_utils.py:374 | the sorted list of samples is ascending in length, equal lengths in ascending index, and names each sample once |
| KarmarkarKarp.PartitionTheorem | rlinf/utils/data_iter_utils.py:301-404 | for any popping rule: k parts, heaviest first, each index exactly once, loads within the bound of each other, exactly the first min(k, n) parts non-empty, n/k items a part in equal-size mode |
| KarmarkarKarp.LoadsAreClose | rlinf/utils/data_iter_utils.py:374-397 | from the lengths alone, for any popping rule: in equal-size mode no two loads differ by more than b when no k-chunk of the sorted lengths spans more than b; otherwise by no more than the longest length |
| KarmarkarKarp.EqualSizeBound | rlinf/utils/data_iter_utils.py:376-385 | the equal-size bound is at most longest minus shortest |
| KarmarkarKarp.LeastIndexIsLeast | rlinf/utils/data_iter_utils.py:352-358 | the state a pop takes is preceded by no other |
| KarmarkarKarp.WidestIsPopped | rlinf/utils/data_iter_utils.py:352-358 | the popped state has the widest gap between its first and last set, and among those the heaviest first set |
| KarmarkarKarp.NoTies | rlinf/utils/data_iter_utils.py:352-358 | on a heap that holds no sample twice, a state that holds some sample ties with no other state |
| KarmarkarKarpRuns.RoundTheorem | rlinf/utils/data_iter_utils.py:343-346 | one round of any correct queue: the two states no other precedes leave, and what is pushed pairs their sets crosswise, sums added and items of the first in front, heaviest first |
| KarmarkarKarpRuns.AnyQueueAgrees | rlinf/utils/data_iter_utils.py:352-397 | whichever correct priority queue pops the states, and in whatever order it keeps its heap, the whole run from the initial states ends in the same state |
| KarmarkarKarpRuns.TwoLongestApart | rlinf/utils/data_iter_utils.py:390-395 | outside equal-size mode, over the whole run: the two longest samples, when no other is as long, end in different parts |
| KarmarkarKarp.BalancedTheorem | rlinf/utils/data_iter_utils.py:407-444 | with at least k samples: k non-empty ascending parts, heaviest first, covering every sample once, loads within the bound; each part holds what the same part of the run holds |
| KarmarkarKarpObjects.PartSet.Add | rlinf/utils/data_iter_utils.py:308-310 | adding an item appends it and raises the sum by its length |
| KarmarkarKarpObjects.PartSet.Merge | rlinf/utils/data_iter_utils.py:312-315 | the loop appends the other set's items in order and adds up their lengths |
| KarmarkarKarpObjects.PartState.constructor | rlinf/utils/data_iter_utils.py:325-332 | a new state has k fresh distinct sets, one item in each of the first ones, sorted heaviest first |
| KarmarkarKarpObjects.PartState.Merge | rlinf/utils/data_iter_utils.py:343-346 | heaviest is joined with lightest in place and the same set objects are re-sorted |
| KarmarkarKarpObjects.Pop | rlinf/utils/data_iter_utils.py:391-392 | the least state leaves the heap, all other states stay and share no object with it |
| KarmarkarKarpObjects.Round | rlinf/utils/data_iter_utils.py:390-395 | one pass of the heap loop on objects is one step of the value model |
| KarmarkarKarpObjects.Partition | rlinf/utils/data_iter_utils.py:301-404 | the object code returns the parts of the value model's run |
| KarmarkarKarpObjects.CheckAndSort | rlinf/utils/data_iter_utils.py:429-439 | the library's assertions on the parts never fire and each part is sorted |
| KarmarkarKarpObjects.BalancedPartitions | rlinf/utils/data_iter_utils.py:407-444 | the public function returns the balanced partition of the value model |
| BestFitDecreasing.BestFitIsBest | rlinf/utils/data_iter_utils.py:467-476 | the chosen group fits the sample most tightly, the earliest on a tie; none is chosen only if none fits |
| BestFitDecreasing.FindBest | rlinf/utils/data_iter_utils.py:467-476 | the inner loop finds that group |
| BestFitDecreasing.PlaceIsTightest | rlinf/utils/data_iter_utils.py:462-483 | each sample goes to the tightest group that takes it, the earliest on a tie, and opens a new group only if none does; groups and capacities change by that sample alone |
| BestFitDecreasing.DecreasingLengths | rlinf/utils/data_iter_utils.py:459-460 | samples are taken longest first |
| BestFitDecreasing.OrderIsDecreasing | rlinf/utils/data_iter_utils.py:459-460 | equally long samples keep their order |
| BestFitDecreasing.PlaceKeepsCrowded | rlinf/utils/data_iter_utils.py:478-483 | a new group opens only for a sample that fits no group, so any two groups together exceed the cap |
| BestFitDecreasing.PackOrdered | rlinf/utils/data_iter_utils.py:462-483 | the outer loop computes the packing of the given order |
| BestFitDecreasing.Pack | rlinf/utils/data_iter_utils.py:447-502 | the packer fails exactly when a sample is over the cap, reporting the longest; otherwise it returns the groups of a best-fit run over the samples in decreasing order; the closing assertions never fire |
| BestFitDecreasing.PackingTheorem | rlinf/utils/data_iter_utils.py:485-500 | every sample in exactly one non-empty group, every group within the cap, no two groups could share a bin |
| BestFitDecreasing.TotalBound | rlinf/utils/data_iter_utils.py:466-483 | with B >= 2 groups, B * (cap + 1) is at most twice the total length |
| BestFitDecreasing.ThreeHalves | rlinf/utils/data_iter_utils.py:447-502 | twice the groups used is at most three times the bins of any feasible packing |
| DynamicBatching.RoundUpIsLeast | rlinf/utils/data_iter_utils.py:297-298 | the least multiple of b not below a |
| DynamicBatching.StartIsLeast | rlinf/utils/data_iter_utils.py:529-551 | the start is the least count that no rank's packing exceeds, that meets the minimum and that the divisor divides |
| DynamicBatching.RowsCover | rlinf/utils/data_iter_utils.py:556-560 | k non-empty micro-batches holding each row exactly once |
| DynamicBatching.SplitRank | rlinf/utils/data_iter_utils.py:562-588 | one rank's round is valid exactly when every micro-batch is within the cap, and then yields the rows of each part |
| DynamicBatching.TryCount | rlinf/utils/data_iter_utils.py:555-591 | a round is valid exactly when it is valid on every rank |
| DynamicBatching.Settle | rlinf/utils/data_iter_utils.py:553-593 | the loop ends with the least count that fits everywhere, or with the first count some rank cannot be cut into when none before it fits |
| DynamicBatching.Search | rlinf/utils/data_iter_utils.py:525-593 | the dictionary branch: the width check, then the search from the least count that is enough for the packings, the minimum and the divisor |
| DynamicBatching.SearchTheorem | rlinf/utils/data_iter_utils.py:553-593 | a successful search: on every rank each row in exactly one micro-batch, every micro-batch within the cap, token loads within the longest sample of each other; every smaller count from the start on leaves some micro-batch over the cap |
| DynamicBatching.SingletonsFit | rlinf/utils/data_iter_utils.py:574-588 | with as many parts as samples every part is one sample, so all fit if each sample does |
| DynamicBatching.SearchSucceedsIff | rlinf/utils/data_iter_utils.py:553-593 | with n samples on every rank: success if and only if the start is at most n and no sample alone is over the cap; the count is then at most n |
| DynamicBatching.StartWithinSamples | rlinf/utils/data_iter_utils.py:535-551 | without a minimum or rounding the start is between 1 and n |
| DivisibilityWitness.DivisibilityLost | rlinf/utils/data_iter_utils.py:520-593 | five samples, tokens equal to prompt plus response, whose start of 2 bins is already divisible by 2 and whose search ends at 3 |
| DynamicBatching.DivisibleIff | rlinf/utils/data_iter_utils.py:548-593 | for every successful search: the count is divisible if and only if some multiple is the first count from the start on that fits on every rank |
| DynamicBatching.DivisibleIffFirstRoundFits | rlinf/utils/data_iter_utils.py:548-593 | with n samples on every rank, a rounded start and fewer than divisor samples beyond it: the count is divisible if and only if the first round fits |
| OrderRestoration.GetReverseIdx | rlinf/utils/data_iter_utils.py:703-718 | what the copy overwritten in place holds, for any map: the last index pointing at a position, else the old entry |
| OrderRestoration.ReverseInverts | rlinf/utils/data_iter_utils.py:703-718 | for a permutation the result is a two-sided inverse |
| OrderRestoration.RestoresOrder | rlinf/workers/megatron_worker.py:552-565 | gathering by the map and then by its reverse returns the batch |
| OrderRestoration.ProcessInMicroBatches | rlinf/workers/megatron_worker.py:552-565 | a model applied to each row, micro-batch by micro-batch, with the outputs concatenated and restored, gives the outputs in the order of the batch |
| RankBalance.PadFits | rlinf/utils/distributed.py:633-638 | fewer pads than one round, and the padded total is a whole number of rounds |
| RankBalance.MergeColumns | rlinf/utils/distributed.py:640-646 | the loop over the keys builds, for every column, all ranks' cells and then the pads |
| RankBalance.MergedRows | rlinf/utils/distributed.py:640-646 | the merged batch's rows are all ranks' rows followed by copies of the pad row, column-wise concatenation notwithstanding |
| RankBalance.RowPosition | rlinf/utils/distributed.py:619-646 | the gathered rows stand rank by rank, each rank's in its own order |
| RankBalance.LengthsCountTokens | rlinf/utils/distributed.py:648-652 | what is balanced is prompt plus response length of each merged row |
| RankBalance.ShareRowsGather | rlinf/utils/distributed.py:660-665 | the ranks' shares in order are the merged rows gathered part after part |
| RankBalance.Redistribute | rlinf/utils/distributed.py:584-667 | the whole run: every merged row in exactly one share, whole rows in merged order, equal row counts, token loads heaviest first over the ranks and no further apart than the widest run of dp rows in order of their token counts |
| RankBalance.PadsTheorem | rlinf/utils/distributed.py:628-638 | padding is below dp_size * chunk and the padded batch splits evenly over a positive number of ranks |
| RankBalance.SharesAreEqual | rlinf/utils/distributed.py:655-665 | every rank gets the same number of rows, a multiple of the chunk |
| RankBalance.SharesAreBalanced | rlinf/utils/distributed.py:648-660 | no two ranks' token totals differ by more than longest minus shortest |
| RankBalance.SharesCover | rlinf/utils/distributed.py:616-665 | the shares of all ranks are exactly the gathered rows and the pads, each once |
| Checkpoint.StepRoundTrip | rlinf/utils/checkpoint.py:33-40 | printing a step and parsing the folder path gives the step back |
| Checkpoint.ParseThenPrint | rlinf/utils/checkpoint.py:33-40 | a parsed folder prints back to its own name exactly when its digits have no leading zero |
| Checkpoint.FolderNameIsInjective | rlinf/runners/reasoning_runner.py:381-385 | different steps never share a folder |
| Checkpoint.CheckpointSteps | rlinf/runners/reasoning_runner.py:303-308 | the scan collects the step of every folder with the prefix and nothing else, or stops at one that does not parse |
| Checkpoint.AutoResume | rlinf/runners/reasoning_runner.py:292-323 | for any listing order: an error exactly when some prefixed folder does not parse, otherwise the newest complete step, none only if none is complete |
| Checkpoint.MalformedMeans | rlinf/runners/reasoning_runner.py:303-308 | the scan fails on exactly the folders with the prefix that is not followed by digits only |
| Checkpoint.NewestHasAllPieces | rlinf/runners/reasoning_runner.py:365-379 | the newest complete step is the newest one whose folder has an actor, a critic if one is trained, and a data.pt |
| Checkpoint.ActionKeeps | rlinf/runners/reasoning_runner.py:380-410 | every step of a save, failure, crash, restart or training step keeps the protocol invariant |
| Checkpoint.CompleteIsSound | rlinf/runners/reasoning_runner.py:365-410 | over every run: a folder the scan accepts has its actor, critic and data whole and from one and the same save |
| Checkpoint.SavesAreAhead | rlinf/runners/reasoning_runner.py:380-410 | over every run: the folder being written is newer than every complete one and has no data.pt yet |
| Checkpoint.CompleteIsFrozen | rlinf/runners/reasoning_runner.py:573-586 | over every run: a complete checkpoint is never written to again |
| Checkpoint.ResumeIsLastPublished | rlinf/runners/reasoning_runner.py:310-323 | over every run: the newest complete folder is the one published last |
| Checkpoint.RestartTheorem | rlinf/runners/reasoning_runner.py:292-326 | from an empty disk, after any run, a restart resumes exactly the last published step and loads whole pieces of one save |
| Checkpoint.RunsAddNoMalformed | rlinf/runners/reasoning_runner.py:303-308 | no run of the program makes a later scan fail |
| CheckpointRunner.Runner.StateIsSafe | rlinf/runners/reasoning_runner.py:365-410 | every reachable state of the runner object satisfies the protocol theorems |
| CheckpointRunner.Runner.InitWorkers | rlinf/runners/reasoning_runner.py:292-326 | the resume directory is the newest complete folder, the step parsed from it is its step, otherwise step 0 |
| CheckpointRunner.Runner.TrainStep | rlinf/runners/reasoning_runner.py:573 | the step grows by one before anything is saved |
| CheckpointRunner.Runner.SaveData | rlinf/runners/reasoning_runner.py:395-410 | the data is published whole by the rename, or not at all and the temporary file is removed |
| CheckpointRunner.Runner.SaveCheckpoint | rlinf/runners/reasoning_runner.py:380-410 | a save succeeds exactly when no error strikes one of its writes, and then leaves whole pieces of this attempt; otherwise the folder stays incomplete; other folders are untouched |
| CheckpointRunner.Runner.TrainAndSave | rlinf/runners/reasoning_runner.py:449-600 | the loop over epochs and batches, with saving on: every multiple of the interval that is passed is complete at the end, also when a later save fails; no folder of a step that is not due is touched; the loop ends at the first step at the limit or out of time, at a failed save or with the last batch, and a last step at the limit or out of time is the newest complete checkpoint; it stays within the limit if and only if it starts below it or no epoch is left |
| CheckpointRunner.Runner.RunJob | rlinf/runners/reasoning_runner.py:292-326 | resuming and training together: a job stays within its limit if and only if the newest complete step is below it or no epoch is left |
| CheckpointRunner.FinishedJobTrainsOn | rlinf/runners/reasoning_runner.py:576-600 | a job limited to 5 steps, with step 5 complete and half of its epoch left, resumes at 5 and ends beyond it |
| Grouping.GroupBy | rlinf/algorithms/loss_scales.py:87-90 | the dictionary loop yields each key once in order of appearance with its indices in order |
| Grouping.GroupSumsAddUp | rlinf/algorithms/loss_scales.py:87-99 | every index lies in exactly one group, so the group sums add up to the whole |
| LossScales.OnlyThisOrder | rlinf/algorithms/loss_scales.py:38-43 | from a fresh context exactly the prefixes of group, agent, turn pass the order checks |
| LossScales.GroupScale | rlinf/algorithms/loss_scales.py:22-51 | every advantage is multiplied by the batch's sequences times the world size over the global batch size, or nothing changes |
| LossScales.AgentScale | rlinf/algorithms/loss_scales.py:55-109 | the nested loops multiply every weight once, in place, by 1/agents/turns of its own trajectory and agent; refused out of order without any change |
| LossScales.TurnScale | rlinf/algorithms/loss_scales.py:113-182 | every weight is multiplied once by turns * tokens / agent tokens; fails exactly when an agent has no tokens, leaving each weight untouched or finished |
| LossScales.AgentLevelConserves | rlinf/algorithms/loss_scales.py:59-64 | from ones, each agent of a trajectory sums to 1/A and the trajectory to 1 |
| LossScales.TurnLevelKeepsAgentSum | rlinf/algorithms/loss_scales.py:119-131 | from weights equal within each agent, the turn level leaves every agent's sum unchanged |
| LossScales.TurnLevelKeepsTrajectorySum | rlinf/algorithms/loss_scales.py:119-131 | and every trajectory's sum |
| LossScales.BothLevels | rlinf/algorithms/loss_scales.py:126-131 | from ones, after both levels a turn weighs (1/A) * its tokens / its agent's tokens, agents sum to 1/A, trajectories to 1 |
| LossScales.BatchTotal | rlinf/algorithms/loss_scales.py:55-109 | when every trajectory sums to 1 the batch sums to the number of trajectories |
| DownSampling.GroupMembers | rlinf/utils/down_sampling.py:24-25 | the indices with a given uid are a contiguous chunk, listed once |
| DownSampling.RoundIsNearest | rlinf/utils/down_sampling.py:127-128 | rounding is to the nearest integer, ties to the even one |
| DownSampling.ChoiceSize | rlinf/utils/down_sampling.py:98-145 | whatever the minimums, a group gives nothing or exactly the target, distinct samples of its own |
| DownSampling.GroupContributes | rlinf/utils/down_sampling.py:98-163 | a group contributes nothing when rejected or too small and exactly the target otherwise, namely its choice |
| DownSampling.RejectionKeepsWholeGroups | rlinf/utils/down_sampling.py:34-43 | without a target whole groups are kept or dropped |
| DownSampling.RechunkTheorem | rlinf/utils/down_sampling.py:200-203 | cutting the kept samples by the new group size gives back the surviving original groups, whole and in order |
| DownSampling.RoundedSharesSum | rlinf/utils/down_sampling.py:127-128 | the two rounded shares add up to the target unless it is odd and the share an exact half, and then miss by one |
| DownSampling.QuotaTheorem | rlinf/utils/down_sampling.py:111-142 | without minimums: the fallback is used exactly for an odd target with a half share strictly inside; otherwise the kept counts are the rounded shares and the rewarded ones are the lowest-penalty prefix |
| DownSampling.FallbackKeepsLowest | rlinf/utils/down_sampling.py:140-144 | in the fallback the kept samples have the lowest penalties of the whole group |
| DownSampling.MinimumsHonoured | rlinf/utils/down_sampling.py:130-138 | when the quotas decide and what the two minimums ask of the group fits the target, each kind keeps at least its configured minimum, or all it has |
| GroupChoice.ChoiceTheorem | rlinf/utils/down_sampling.py:98-145 | for every group and every minimums: the quotas are the rounded shares raised to the minimums, the later one winning; they are taken off the rewarded samples by penalty and index and off the others in group order, or the whole group is ranked by penalty, rewarded first, then index |
| RolloutFilter.RejectEqualReward | rlinf/utils/down_sampling.py:27-43 | exactly the groups whose rewards are all close to the first are cleared |
| RolloutFilter.RejectedIff | rlinf/utils/down_sampling.py:38-43 | a group is rejected exactly when no reward of it differs from its first one by more than 1e-8 plus 1e-5 of its size |
| RolloutFilter.WeightedGroupChoice | rlinf/utils/down_sampling.py:77-147 | the mask marks exactly the chosen samples; fails exactly when no penalty is switched on and some group is larger than the target |
| RolloutFilter.Penalties | rlinf/utils/down_sampling.py:109-111 | the penalty for each pair of switches: the sum, either score alone, or zero |
| RolloutFilter.LargestGroup | rlinf/utils/down_sampling.py:98-110 | a penalty is needed exactly when both the batch and the group size exceed the target |
| RolloutFilter.ApplyMask | rlinf/utils/down_sampling.py:165-166 | the list comprehension keeps the masked entries in order |
| RolloutFilter.DownSampleBatch | rlinf/utils/down_sampling.py:149-204 | every list is gathered by the same ascending indices, exactly those of the samples whose group's rewards differ, where asked for, and that are picked in their group; the group size becomes the target, the sample count is not updated; fails exactly without texts, rewards or a needed penalty, and then nothing changes |
| Advantages.GaeAdvantagesAndReturns | rlinf/algorithms/advantages.py:52-79 | the backward loop's outputs at every step: with a critic the return is the advantage plus the value, without one both are the return and both factors are forced to one |
| Advantages.AdvantagesInClosedForm | rlinf/algorithms/advantages.py:52-79 | the loop's outputs in closed form: the discounted temporal differences to the end of the episode, or the plain reward sum without a critic |
| Advantages.LambdaOneReturns | rlinf/algorithms/advantages.py:61-79 | the loop's returns with lambda one: discounted rewards to the end of the episode and the value there unless it is done |
| Advantages.CriticFreeIsZeroValues | rlinf/algorithms/advantages.py:56-65 | the critic-free return is the estimate for zero values and both factors one |
| Advantages.ReturnIsEpisodeSum | rlinf/algorithms/advantages.py:61-77 | the critic-free return is the plain sum of rewards up to the end of the episode |
| Advantages.GaeClosedForm | rlinf/algorithms/advantages.py:61-77 | the advantage is the sum of (gamma*lambda)^l times the temporal difference at t+l, cut at the first done |
| Advantages.LambdaOneTelescopes | rlinf/algorithms/advantages.py:61-79 | with lambda one the inner values cancel: discounted rewards plus at most one bootstrap value |
| Advantages.DoneCutsOff | rlinf/algorithms/advantages.py:61-77 | data after a done, of any length, does not change earlier advantages |
| Advantages.CalculateScore | rlinf/algorithms/utils.py:134-143 | the score loop computes the critic-free return at step 0 |
| Advantages.ScoreIsFirstReturn | rlinf/algorithms/utils.py:134-143 | score and backward loop both give the return at step 0 for every reward and done pattern |
| Advantages.EveryTokenGetsTheReward | rlinf/algorithms/utils.py:192-197 | on the reasoning layout the critic-free return is the sequence reward at every position |
| Advantages.ReasoningReturn | rlinf/algorithms/utils.py:222-252 | on that layout with padded values and lambda one, the return is the discounted reward alone |
| EmbodiedLayout.FlattenAt | rlinf/algorithms/utils.py:101-105 | flat step c * size + p is position p of chunk c |
| EmbodiedLayout.UnflattenFlatten | rlinf/algorithms/utils.py:167-172 | unflattening a flattened tensor gives it back |
| EmbodiedLayout.FlattenUnflatten | rlinf/algorithms/utils.py:167-172 | and flattening an unflattened one too |
| EmbodiedLayout.SlicesAlign | rlinf/algorithms/utils.py:107-119 | at flat step (c, p): the done flag after it is entry (c+1, p), its value is entry (c, p), the bootstrap value is entry 0 of the extra chunk |
| EmbodiedLayout.DoneEntry | rlinf/algorithms/utils.py:89-172 | through the whole path, an entry whose following flag is set comes out as its reward minus its value |
| EmbodiedLayout.EntryClosedForm | rlinf/algorithms/utils.py:89-172 | through the whole path, every entry comes out as the discounted sum of the temporal differences of its batch row, through positions and then chunks, up to the first following done or the last step |
| EmbodiedLayout.ChunkLevelAligns | rlinf/algorithms/utils.py:79-87 | at chunk level a flat step's reward is its chunk's sum and its flag whether the next chunk holds a done |
| WeightSync.ActionKeeps | rlinf/runners/async_weight_sync_mixin.py:57-108 | every action keeps the invariant, no version goes back, and a landing always brings newer weights |
| WeightSync.EveryRun | rlinf/runners/async_weight_sync_mixin.py:57-108 | over every interleaving: requests = issued + coalesced, at most one transfer unretired, the rollout's version never decreases and never exceeds the actor's |
| WeightSync.ExactStaleness | rlinf/runners/async_weight_sync_mixin.py:81-104 | the lag of the rollout worker, exactly, from the coalesced requests and the transfer in flight |
| WeightSync.WaitingSettles | rlinf/runners/async_weight_sync_mixin.py:88-108 | a blocking update makes the versions equal; a drain leaves nothing pending and every transfer retired |
| WeightSync.AsyncRunner.CleanupPending | rlinf/runners/async_weight_sync_mixin.py:57-79 | retires the transfer when it has landed or waits for it; otherwise changes nothing |
| WeightSync.AsyncRunner.UpdateRolloutWeights | rlinf/runners/async_weight_sync_mixin.py:81-104 | a background request issues a transfer of the current weights unless the last one is unfinished on either side, and is then only counted; a blocking one leaves both sides equal; either is one protocol action |
| WeightSync.AsyncRunner.RunLoop | rlinf/runners/async_ppo_embodied_runner.py:106-273 | for every landing schedule: one request a step, nothing in flight at the end, lag equal to the requests coalesced since the last issue, none in blocking mode; if every transfer lands in time nothing is coalesced and the rollout ends with the newest weights, if none does all but the first are coalesced |
| Expert.ServoIsSafe | scripts/libero_expert.py:60-64 | a command stays within the clip and never points away from the goal in any coordinate |
| Expert.CompensationStaysBounded | scripts/libero_expert.py:143-178 | for all positions: at most four adjustments and every coordinate within comp_max |
| Expert.PhasesNeverGoBack | scripts/libero_expert.py:129-160 | the recorded phases never go back and never skip one |
| Expert.EarlyPhasesAreBounded | scripts/libero_expert.py:162-183 | at most 8 * state_timeout steps up to the lift, four if the timeout is not positive |
| Expert.TimedPhaseIsBounded | scripts/libero_expert.py:153-160 | the descent and the release last at most their configured steps, at least one |
| Expert.AboveRackLeavesOnlyAtGoal | scripts/libero_expert.py:143-152 | one step above the rack leaves the phase if and only if the goal is reached |
| Expert.WaitAboveRackIff | scripts/libero_expert.py:143-152 | for all observations: the wait above the rack is at most n steps if and only if at one of the first n + 1 observations the arm is at the compensated goal of that moment or the episode has ended |
| Expert.NoBoundAboveRack | scripts/libero_expert.py:10-11 | for every n there are positions from the start of an episode that keep the expert above the rack for n steps |
| Expert.WineRackExpert.Rollout | scripts/libero_expert.py:70-205 | the episode method, with its fields updated in place, records exactly the frames of the controller model |
| ExpertSteps.StepTheorem | scripts/libero_expert.py:91-185 | one step in numbers: goal point and gripper of each phase, the distance or timer that ends it, when and by how much the compensation is adjusted, the limited command, and when the step gives up |
| ExpertSteps.EpisodeTheorem | scripts/libero_expert.py:88-205 | every episode is a sequence of such steps, up to the one that completes the task, one that gives up, or the step limit |
| ExpertSteps.RolloutInSteps | scripts/libero_expert.py:70-205 | the episode method returns the frames of such a sequence from the starting state |
| Statistics.StatsOfAnySplit | rlinf/utils/distributed.py:953-965 | counts, sums and squared sums added over ranks are those of the whole data, for any spread |
| Statistics.MaskedIsIndexed | rlinf/utils/distributed.py:988-1003 | multiplying by the mask sums the same values as indexing with it |
| Statistics.OnePassRefinesTwoPass | rlinf/utils/distributed.py:968-1007 | with at least one valid value the one-pass mean and variance are the two-pass ones and the clamp at zero changes nothing |
| Statistics.MeanAndVariance | rlinf/utils/distributed.py:968-1007 | both forms give the sum of the valid values over their number and the mean squared distance from it |
| Statistics.NothingValid | rlinf/utils/distributed.py:968-976 | with no valid value the one-pass form gives zeros where the two-pass form divides by zero |

## Left out

- The list branch of `get_iterator_dynamic` (rlinf/utils/data_iter_utils.py:594-670), which indexes a list with string keys, and `same_micro_num_in_dp=False`: every model run synchronises the counts.
- The binary heap inside `heapq`: the heap is a sequence from which the least state is taken; `KarmarkarKarpRuns.AnyQueueAgrees` shows that every priority queue that pops a least state ends in the same partition.
- KarmarkarKarpObjects.Partition: the item groups of the start are computed before the states are pushed, where the code builds each group and pushes it at once.
- RankBalance.Redistribute: a tensor row is one integer cell for each column, the pad row is the same on every rank, and a configured partitioner other than the balanced one is not modelled; dtype and trailing-shape checks are not part of the model.
- Path normalisation, and digits other than 0-9, in `parse_global_step_from_checkpoint_path`: the model starts from a normalised path.
- Checkpoint.CompleteIsSound: one directory serves as save root and scan root, the critic setting is fixed, `resume_dir` is "auto", nobody else writes into the root, and a data.pt that is a directory does not occur.
- Which pieces of a distributed actor save exist at a crash: a piece is absent, partly written or whole; making the data sub-folder is part of the first write of the temporary file.
- CheckpointRunner.Runner.TrainAndSave: the number of batches the restored dataloader yields in its first pass is a parameter, at least one and at most an epoch; validation and its interval are not part of the model.
- Loss-scale rows: LossScales holds one weight for each turn, the common value of the row at the turn's valid tokens.
- Expert and reward-text regular expressions: the penalty scores of `_calc_penalty_weights` are inputs of `RolloutFilter.DownSampleBatch`, and float rounding inside `round` of a quotient is not modelled.
- Normalisation of advantages and returns, and GRPO, REINFORCE++ and OPD advantages: pointwise algebra over means and deviations, or reward placement that the source flips along the batch axis.
- Advantages.GaeAdvantagesAndReturns: one batch column, since every operation of the recurrence acts on each column by itself; EmbodiedLayout carries the batch dimension.
- WeightSync.AsyncRunner.RunLoop: the environment acts before and after each training step; a transfer carries the actor's version of the moment it is issued; rollout and environment traffic, metrics, profiling and checkpoints are not part of the model.
- The simulator, gripper contact and recorded sensor data of the expert: positions are arbitrary inputs and a frame holds the phase and the command.
- The reciprocal square root of the normalisation in `Statistics`: mean and variance are compared, the division is not.
- Torch, Ray, NCCL, file I/O, configuration, registries, logging and HTTP code.
