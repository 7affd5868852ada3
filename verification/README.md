# neural-c: determinism, recovery and gradients

neural-c is a small training framework written in C. It promises deterministic
results: the same weights whatever the thread count, the interruption point or
the crash. This project models the parts that carry the promise and proves it.

| component | modules |
|---|---|
| The promise as a whole | Determinism |
| Worker pool and ordered reduction | Executor, ExecutorSafety, ExecutorTheorems, Plans, Accumulator, Compensated |
| Training, checkpoints and crashes | Layers, Schedule, OptimizerStep, OptimizerLaws, Training, EarlyStopping, Project, Signals, Recovery, Campaigns, Trajectories, Refusals, Finalization |
| Stratified split | Quota, Split |
| Seeded shuffle | Words, Random, Shuffle |
| Backpropagation | Grids, Calculus, Dense, Activations, Losses, StableForms, Backprop, Kernels |
| Hashing, encodings and text formats | Words32, Sha256, Sha256Constants, Sha256Functions, Encoding, Digest, Provenance, Persistence, PersistenceStreams, TextLines, Formatting, CheckpointFiles, Csv |

How the components are modelled:

- The worker pool is a transition system of one coordinator and any number of
  workers. The mutex, both condition variables, wait sets and spurious wake-ups
  are explicit, and a schedule is any sequence of enabled moves. Gradients and
  their compensated sum are uninterpreted: the theorems are about order.
- A training run is a state of model, optimizer moments, control state and
  early-stopping selection. A disk is two optional files that are replaced and
  removed atomically; a crash leaves any one of the states a command passes
  through. Models and updates are uninterpreted, so equality of models means
  equality of every parameter.
- The optimizer step runs over uninterpreted floating-point operations with a
  "finite" test. It owns five buffers that are exchanged by reference.
- Backpropagation is over real numbers. The forward pass is lifted to dual
  numbers, so a directional derivative is computed by the differentiation rules
  along the code's own branches; exp, log and tanh are known only by the laws of
  their derivatives and by exp being positive, and in StableForms by exp turning
  sums into products and log undoing it.
- Machine integers are unbounded integers with the 64-bit and 32-bit wrap-around
  written out; size_t has 64 bits.
- Hash inputs are byte streams, and text files are characters that a reader splits
  into lines of tokens. Real numbers in a file are assumed to be printed without
  blanks and to parse back to what was printed.

Classes with `modifies` clauses follow the C structures that are updated in
place. Each method is tied to a function of the old state, and the lemmas are
about these functions.

## Main results

- `Determinism.TrainingIsDeterministic`, `Determinism.PoolsAndCutsLeaveNoTrace`:
  training over any worker pools, cut anywhere and resumed on any others, leaves
  the files that the same commands, uncut, leave on one thread. They compose the
  next three.
- `ExecutorTheorems.BatchRefinesSequentialFold`, `ThreadCountIsIrrelevant`,
  `NeverStuck`, `EveryRunIsBounded`: every interleaving refines the sequential fold,
  without deadlock or lost wake-up.
- `Training.ResumeEquivalence`: a bisimulation, with its exact condition;
  `CheckpointFiles.ResumeThroughFile`: the same through the characters of the file.
- `Campaigns.ResumeRecovers`, `Campaigns.CrashesLeaveNoTrace`,
  `Recovery.ResumeIsAcceptedIff`: crash safety without early stopping;
  `Trajectories.CampaignIsTracked`, `Trajectories.InstalledIsBestOfTrajectory`,
  `Campaigns.FinalizedEpochsNeverFall`: crash safety in every mode.
- `Signals.SavedEpochs`, `Signals.InterruptionCostsNothing`: which epochs leave a
  checkpoint, and that a signal costs nothing once training is resumed;
  `Finalization.RefinementIsRefusedIff`, `Finalization.StuckIff`.
- `EarlyStopping.InstalledIsTheSelection`, `EarlyStopping.TrainingStopsByHistory`,
  `Schedule.PlateauState`.
- `OptimizerStep.Optimizer.StepOnce`, with `OptimizerLaws.DescentLowersTheLoss`,
  `MomentumIsDiscountedSum`, `AdamIsAverages` and `ConstantGradientStep`.
- `Backprop.ReverseIsAdjoint`, refined by `Kernels.Workspace.SampleGradient`; the stable
  forms are the textbook ones (`StableForms.CategoricalIsCrossEntropy`).
- `Split.CreateSplit`, `Quota.AllocateStratified`, `Random.DrawIsFirstAccepted`,
  `Shuffle.FisherYatesIsOneToOneOnto`, `Shuffle.EpochOrderIs`.
- `Sha256.HashChunks`, `Digest.TrainingStreamIsDecodable`,
  `Provenance.EqualStreamsTrainAlike`, `TextLines.EarlyTextRoundTrip`,
  `Formatting.FormattingIsIrrelevant`, `Persistence.NoTextLoadsAsBoth`,
  `Csv.ParseEncoded`.

## Where the code and its documentation differ

docs/training-resume.md:167-169 and 199-203 promise that an interrupted
finalization can be recovered. The code, which the model follows, makes these
exceptions (the first one also follows from lines 71-78 of the same document,
which cannot tell a converged run from a refinement baseline):

- Without early stopping, resume refuses final weights below the configured
  epochs (src/train_project.c:889-896), and a checkpoint that a convergence stop
  overtook (src/train_project.c:935-943). `Recovery.ResumeIsAcceptedIff` has the
  exact condition and `Refusals.ConvergedWeightsCanBlockResume` an input.
- With early stopping, resume refuses a checkpoint older than the weights
  (src/train_project.c:843-850): `Refusals.EarlyLeftoverIsRefusedIff`,
  `Refusals.EarlyCutIsRefusedIff`, `Refusals.EarlyLeftoverCanBeRefused`.
- Resuming a checkpoint whose stale count already reached patience trains on
  (src/train_project.c:362-364), even when its weights were already finalized: the
  condition of `Training.ResumeEquivalence`, and `Refusals.AcceptedLeftover`.
- Early stopping on exactly the target epoch yields metadata that the saver
  rejects (src/train_project.c:213-215, src/persistence.c:1595-1596):
  `EarlyStopping.InstalledIsTheSelection`,
  `EarlyStopping.StoppingOnTheTargetIsRefused`; the next resume installs the
  same selection (`EarlyStopping.RefusalHealsOnResume`).

docs/training-resume.md:104-105 lets refinements be repeated from the latest count.
The code refuses that, and from then on every command, after a refinement of a
converged run that reaches its target below the configured epochs: it is saved in
format version 1 (src/train_project.c:65-67), which the guard of the next refinement
takes for an incomplete run (src/train_project.c:1111-1118).
`Finalization.RefinementIsRefusedIff` and `Finalization.StuckIff` have the exact
condition, `Finalization.RefinementCanEndStuck` a campaign.

## Model

| member | source | states |
|---|---|---|
| Random.MixIsBijective | src/batch.c:24-29 | The 64-bit mixer has a two-sided inverse, so it is a bijection on words |
| Random.DistanceReaches | src/random.c:12-24 | From every generator state every word is reached by stepping, in a number of steps given in closed form |
| Random.AdvanceInjective | src/random.c:12-24 | Two step counts below 2^64 lead to the same state only if they are equal: the orbit repeats nothing |
| Random.FullPeriod | src/random.c:12-24 | After exactly 2^64 steps the generator is back where it started |
| Random.DistanceUnique | src/random.c:12-24 | The step count to a state is the only one in 1..2^64 |
| Random.DistanceFalls | src/random.c:12-24 | Every step that misses a state brings it exactly one step closer: the measure of the rejection loop |
| Random.RejectedMoves | src/batch.c:41-50 | A rejected draw strictly shortens the way to a state whose draw is accepted for every bound |
| Random.DrawIsFirstAccepted | src/batch.c:41-50 | For every state and positive bound the rejection loop ends, and the result is the first accepted word of the stream, reduced, with the generator left right behind it |
| Random.NeuralRandom.constructor | src/random.c:5-10 | The seed becomes the whole state |
| Random.NeuralRandom.NextUint64 | src/random.c:12-24 | One call advances the state by the odd increment and returns the mixed new state |
| Random.NeuralRandom.Bounded | src/batch.c:41-50 | The loop terminates, stays below the bound and leaves value and state of the first accepted draw |
| Random.RejectionIsUnbiased | src/batch.c:41-50 | Each residue below the bound is hit by exactly floor(2^64 / bound) accepted words |
| Random.PlainRemainderCount | src/data_import.c:729-741 | How many words the plain remainder of the importer sends to each residue |
| Random.PlainRemainderUnbiasedIff | src/data_import.c:729-741 | The importer's plain remainder is unbiased if and only if the bound divides 2^64 |
| Random.EpochSeedsDistinct | src/batch.c:31-39 | For a fixed seed two epochs get the same generator state if and only if they are the same epoch |
| Random.TrainingSeedsDistinct | src/batch.c:31-39 | In a fixed epoch two seeds get the same generator state if and only if they are equal |
| Random.EpochSeedIsOutput | src/batch.c:31-39 | The seed of epoch e is output e + 1 of the generator started at the training seed xor the domain constant, also where the epoch counter wraps |
| Shuffle.FisherYatesPermutes | src/batch.c:101-124 | Whatever the draws, the loop permutes its array |
| Shuffle.DrawsAreDetermined | src/batch.c:101-124 | On distinct elements the draw sequence can be read back from the permutation |
| Shuffle.EveryPermutationIsReached | src/batch.c:101-124 | Every permutation, repeated elements included, is the result of bounded draws that are computed from it |
| Shuffle.FisherYatesIsOneToOneOnto | src/batch.c:101-124 | Bounded draw sequences correspond one to one to the permutations |
| Shuffle.FisherYatesTrace | src/batch.c:112-124 | The loop as a list of states: step k exchanges position n - 1 - k with its draw and nothing else |
| Shuffle.EpochDrawsAre | src/batch.c:112-124 | Draw k is the first accepted output for the bound n - k, reduced, and each starts from the state that the one before left |
| Shuffle.EpochOrderIsPermutation | src/batch.c:88-126 | The order of every epoch, shuffled or not, lists each sample index exactly once |
| Shuffle.EpochOrderIs | src/batch.c:88-126 | Without shuffling the order is 0, 1, 2 and so on; with it, it is the end of those exchanges under those draws of the generator started at the seed of the epoch |
| Shuffle.SampleOrder.constructor | src/batch.c:52-78 | A new order has the requested count and an index array of its own |
| Shuffle.SampleOrder.Prepare | src/batch.c:88-126 | A flag other than 0 and 1 is refused and changes nothing; with 0 index i is i; with 1 the array is the end of the descending exchanges whose draw k is the first accepted output for the bound n - k of the generator started at the epoch's seed |
| Shuffle.ShuffleInPlace | src/batch.c:112-124 | The in-place swaps compute the descending Fisher-Yates permutation of the generator's draws |
| Plans.CeilDivCovers | src/parallel.c:45-72 | The piece count is the least that covers: piece i starts inside the range exactly when i is below it |
| Plans.WavesTileTheRange | src/parallel.c:45-95 | Waves exist exactly below the wave count, never exceed the workers, and tile the range without gap or overlap |
| Plans.BatchesTileTheDataset | src/batch.c:162-201 | Batches exist exactly below the batch count and tile 0..samples without gap or overlap |
| Plans.BatchesAreFull | src/batch.c:162-201 | Every batch but the last has exactly the configured size; zero and more than there is mean one batch of everything |
| Plans.WavesAreFull | src/parallel.c:45-95 | Every wave but the last uses all workers |
| Accumulator.AddExtends | src/batch.c:260-282 | Adding the next position extends the sequential fold, and fails only where the fold itself is not finite |
| Accumulator.FinalizeIsMean | src/batch.c:284-304 | Finalizing is refused before the range is complete, and then yields the mean of the sequential fold or fails with it |
| Accumulator.FoldFailurePersists | src/batch.c:260-282 | A fold that failed on a prefix fails on every extension |
| Accumulator.BatchAccumulator.ResetRange | src/batch.c:239-258 | An empty range is refused and changes nothing; otherwise all counters, flags and sums start over |
| Accumulator.BatchAccumulator.AddSample | src/batch.c:260-282 | The fields become exactly those of the specification, or stay unchanged when it refuses |
| Accumulator.BatchAccumulator.FinalizeBatch | src/batch.c:284-304 | Likewise for the final mean; a failure leaves every field as it was |
| Compensated.Accumulate | src/gradient.c:341-420 | Accepts exactly when every entry of sum, compensation and result is finite; then both arrays hold the compensated sums, otherwise both are untouched |
| Compensated.Finish | src/gradient.c:422-490 | Accepts exactly when every entry finishes finite; then each is its compensated mean, otherwise the array is untouched |
| Compensated.ExactFold | src/compensated_sum.c:6-37 | Without rounding, the compensated fold is the plain total and its compensation stays zero |
| Compensated.ExactMean | src/gradient.c:422-490 | Without rounding, the finished entry times the count is the total |
| Compensated.CorrectionIsExact | src/compensated_sum.c:6-37 | Where fast two-sum is exact for a dominating first operand, the correction is exactly what rounding took from the sum, whichever operand is larger |
| ExecutorSafety.InitialInv | src/executor.c:192-296 | The pool right after creation satisfies the protocol invariant |
| ExecutorSafety.AssignsTask | src/executor.c:322-339 | While a wave is dealt out the order lookup of the next position always succeeds: its failure branch is dead |
| ExecutorSafety.WaveVerdict | src/executor.c:357-383 | After the wait, the first failed slot is the earliest failing position of the wave and all before it succeeded; without one the whole wave succeeded |
| ExecutorSafety.AddsToFold | src/executor.c:384-396 | Adding a slot in order keeps accumulator and sequential fold equal, or shows that the fold is not finite |
| ExecutorSafety.WaveIsFolded | src/executor.c:384-462 | Once a wave's slots are added the call goes to the next wave or to the final mean with the fold of everything so far |
| ExecutorSafety.MoveKeepsInv | src/executor.c:90-462 | Every step of coordinator and workers, spurious wake-ups and new calls included, keeps the invariant |
| ExecutorSafety.RunKeepsInv | src/executor.c:90-462 | So does every finite schedule |
| ExecutorTheorems.PendingCountsTheBusy | src/executor.c:304-398 | Under every schedule the pending counter is the number of assigned or computing workers, and outside a wave it is zero with all workers idle |
| ExecutorTheorems.NoWakeUpIsLost | src/executor.c:90-137 | A coordinator waits only while some busy worker is awake, and a sleeping worker has neither work nor a stop request that no broadcast is still to announce |
| ExecutorTheorems.SlotsAreNeverShared | src/executor.c:304-398 | No worker computes in a slot that the coordinator writes or reads |
| ExecutorTheorems.BatchRefinesSequentialFold | src/executor.c:400-462 | For every worker count and interleaving a finished call returns exactly the mean of the sequential fold over the logical range, or fails exactly when that fold does; a bad range is refused exactly when it is bad, and the lookup failure never occurs |
| ExecutorTheorems.ReportedFailureIsTheEarliest | src/executor.c:357-383 | A reported sample failure is the earliest failing logical position |
| ExecutorTheorems.SampleAgainstSum | src/executor.c:357-396 | Where one pool reports a failing sample and another an earlier sum, the first deals out both positions in one wave and the second does not |
| ExecutorTheorems.ScheduleIsIrrelevant | src/executor.c:400-462 | The verdict, gradient or error and its position, is a function of the call and the pool size: no interleaving changes it |
| ExecutorTheorems.ThreadCountIsIrrelevant | src/executor.c:400-462 | Two pools of any sizes under any schedules give the same verdict, gradient or error, but for the one case of SampleAgainstSum, in which both fail |
| ExecutorTheorems.NeverStuck | src/executor.c:90-190 | No reachable state is a deadlock: unless the pool is between calls or stopped, a regular step is enabled without any spurious wake-up |
| ExecutorTheorems.EveryRunIsBounded | src/executor.c:90-462 | Regular steps are bounded by a rank of the state plus two per spurious wake-up, so calls and shutdown end under every schedule |
| Quota.MultiplyDivide | src/data_import.c:748-783 | The bit-by-bit loop stays inside one machine word and returns quotient and remainder with multiplicand * multiplier = quotient * divisor + remainder, remainder below the divisor |
| Quota.QuotasFit | src/data_import.c:805-821 | The capped quotas of any prefix of groups never exceed the target, so the overflow error cannot occur |
| Quota.ComputeQuotas | src/data_import.c:805-821 | Quota and remainder of every group, their sum within the target, and no overflow |
| Quota.SelectGroup | src/data_import.c:823-838 | The scan finds no group exactly when none is open, and otherwise the open one that goes before every other (largest remainder, then fewest rows so far, then lowest index) |
| Quota.HasCapacity | src/data_import.c:843-850 | Capacity is found exactly when some group is below its limit |
| Quota.ServeKeepsRound | src/data_import.c:825-861 | Serving the preferred open group keeps the round-robin invariant |
| Quota.ClearKeepsRound | src/data_import.c:839-858 | When no group is open, clearing the flags opens the next round with the invariant intact |
| Quota.RoomMeansUsed | src/data_import.c:839-858 | Spare capacity without an open group means that some flag is set: the outer loop's measure falls when the flags are cleared |
| Quota.RoundIsFair | src/data_import.c:822-862 | The invariant of a round implies fairness: no group has more than one extra beyond a group with room, and equal extras went by remainder |
| Quota.FairIsLargestRemainder | src/data_import.c:785-869 | Fairness in the numbers of the request: each group gets floor(size * target / total), capped by its room, and at most one round more than a group with room, in the order of remainder, rows so far and index |
| Quota.AllocateStratified | src/data_import.c:785-869 | Terminates; never reports overflow; fails exactly when the capacities do not reach the target; otherwise fills the target exactly, within capacity and by largest remainders |
| Split.ShuffleIndices | src/data_import.c:729-741 | The importer's shuffle is a Fisher-Yates permutation by plain remainders |
| Split.PlainDrawsAre | src/data_import.c:729-741 | Draw k is output k + 1 of the generator modulo n - k |
| Split.ClassesCoverRows | src/data_import.c:920-924 | The class sizes add up to the number of rows |
| Split.CountClasses | src/data_import.c:920-924 | The counting loop gives every class the number of its rows |
| Split.ShuffledLabels | src/data_import.c:966-972 | Cutting any permutation of a class at the two counts gives exactly those numbers of test and validation rows and trains on the rest |
| Split.MembersAscend | src/data_import.c:955-965 | The rows of a class are collected in ascending order |
| Split.GroupOrderIs | src/data_import.c:955-965 | A class is cut in the order of its ascending rows after the exchanges of those draws |
| Split.AssignGroup | src/data_import.c:955-973 | One class gets exactly its test and validation counts, and no other class changes |
| Split.ChosenIsBySeed | src/data_import.c:950-973 | Which rows of each class go to test and validation, with the shuffle spelled out: its generator state is the seed advanced by the draws of the classes before |
| Split.LabelsByClass | src/data_import.c:978-986 | The rows of one label number the sum over the classes |
| Split.CountLabels | src/data_import.c:978-986 | The closing count gives the size of each of the three subsets |
| Split.AllocateBoth | src/data_import.c:933-948 | After the feasibility check both allocations succeed, fill their targets fairly and leave every class a training row |
| Split.SplitRows | src/data_import.c:933-996 | Both targets are met exactly, each class has the allocated counts and a training row, the subsets partition the rows, and the inconsistent-split error cannot occur |
| Split.CreateSplit | src/data_import.c:871-1004 | For every dataset and valid ratios: a split cannot be represented exactly if 0 < n * ratio < 1 for one of them; each other refusal occurs exactly under its condition and the late errors never; an accepted split has floor(n * ratio) rows of each kind, spread by largest remainders, and the rows are those that the seed chooses |
| Schedule.EpochControl.constructor | src/optimizer.c:153-199 | A new optimizer starts with the initial control state of its settings |
| Schedule.EpochControl.ObserveEpoch | src/optimizer.c:306-417 | An observation commits the specified control state; one that fails changes no field |
| Schedule.CompletedCounts | src/optimizer.c:306-417 | The epoch counter is the length of the history and never passes the word limit |
| Schedule.ConstantRate | src/optimizer.c:306-417 | The constant policy never touches rate, transition or plateau fields |
| Schedule.ExponentialRate | src/optimizer.c:306-417 | After n epochs the rate is initial * decay^n |
| Schedule.StepRate | src/optimizer.c:306-417 | After n epochs the rate is initial * decay^(n / step) and the next transition is step * (n / step + 1) or the largest counter; the very last countable epoch decays once too often unless the step divides it |
| Schedule.StepRateIsExactIff | src/optimizer.c:346-354 | The rate is initial * decay^(n / step) if and only if n is below the largest counter or the step divides it |
| Schedule.PlateauState | src/optimizer.c:306-417 | Functions of the objectives alone: best is the last improvement, stale is what exceeds the full patiences since, the rate is initial * decay^d where d adds up stretch / patience over the stretches between improvements, and the next transition is one past the last drop |
| Schedule.LastImprovementIs | src/optimizer.c:361-366 | The last improvement spelled out: it beat everything before it by more than the margin, and nothing later did |
| Schedule.PlateauBestFalls | src/optimizer.c:306-417 | The plateau best never rises |
| Schedule.ConvergenceState | src/optimizer.c:306-417 | Best and stale count of the no-improvement rule are functions of the history: the last improvement and the epochs since |
| Schedule.ReasonFollowsHistory | src/optimizer.c:306-417 | The stop reason set by the last observation is the one that the history specification names |
| Schedule.StatelessControl | src/optimizer.c:252-261 | Where no checkpoint state is required the rate stays initial, no reason is ever set, and only counter exhaustion fails |
| Schedule.NextIsRefusedIff | src/optimizer.c:306-417 | After an accepted history an epoch is refused if and only if the counter is at its end or the objective exceeds a positive divergence threshold: rates never vanish and no other counter overflows |
| Schedule.HistoryIsAcceptedIff | src/optimizer.c:306-417 | The same for a whole history |
| OptimizerStep.Model.SetLayerParameters | src/model.c:258-297 | Accepts exactly matching sizes and finite values; then one layer is replaced, otherwise nothing changes |
| OptimizerStep.Model.Commit | src/gradient.c:1038-1052 | The commit pass over validated parameters cannot fail midway |
| OptimizerStep.Model.ApplyGradient | src/gradient.c:968-1058 | All layers move by rate times direction, or nothing changes |
| OptimizerStep.AdamCandidates | src/optimizer.c:626-689 | Succeeds exactly when every moment and update of every layer is finite; then all three hold the Adam recurrence |
| OptimizerStep.ProposeAdam | src/optimizer.c:626-689 | Candidate moments, powers and update depend on gradient and state only, not on the timestep |
| OptimizerStep.Optimizer.constructor | src/optimizer.c:153-199 | Zero moments, timestep zero, both powers one, five buffers of the model's shape that share nothing |
| OptimizerStep.Optimizer.MomentumStep | src/optimizer.c:587-624 | Model and momentum follow the recurrence together, or model and state are unchanged; the buffers are only exchanged |
| OptimizerStep.Optimizer.SwapAdam | src/optimizer.c:755-763 | The swap installs exactly the proposed moments and powers and counts one step |
| OptimizerStep.Optimizer.AdamStep | src/optimizer.c:626-768 | The same all-or-nothing statement for Adam |
| OptimizerStep.Optimizer.StepOnce | src/optimizer.c:691-768 | For all three optimizers: success means new parameters, moments, powers and timestep are those of the specification; failure means none of them moved |
| OptimizerStep.GradientDescentIsStateless | src/optimizer.c:252-261 | Gradient descent yields the same parameters from any two optimizer states and changes neither |
| OptimizerLaws.DescentGoesDownhill | src/gradient.c:968-1058 | Without rounding, a step of gradient descent has the inner product -rate * (g, g) with the gradient g |
| OptimizerLaws.DescentLowersTheLoss | src/gradient.c:968-1058 | So along that step the derivative of the loss of the sample whose gradient it was is -rate * (g, g) |
| OptimizerLaws.DescendedAt | src/gradient.c:1013-1036 | Every parameter moves by minus the rate times its direction |
| OptimizerLaws.MomentumAt | src/optimizer.c:587-624 | Momentum in one place: the state is discounted and takes the gradient, and the parameter moves against it |
| OptimizerLaws.AdamAt | src/optimizer.c:626-689 | Adam in one place: both averages, both powers, and the update as the corrected average over the root of the corrected square plus epsilon |
| OptimizerLaws.MomentumIsDiscountedSum | src/optimizer.c:587-624 | From zero, after any gradient history, momentum is the sum of coefficient^(n-i) * g_i |
| OptimizerLaws.AdamIsAverages | src/optimizer.c:626-689 | From zero, the moments are (1 - beta) times the discounted sums of gradients and squares, and the powers are beta^n |
| OptimizerLaws.CorrectedAverages | src/optimizer.c:626-689 | On a constant gradient the corrected moments are the gradient and its square |
| OptimizerLaws.ConstantGradientStep | src/optimizer.c:626-768 | There Adam moves a parameter by rate * g / (abs(g) + epsilon), against the sign of the gradient |
| Training.Trainer.RunBatches | src/training.c:249-330 | The batch loop computes the epoch's fold of updates at one rate, or fails |
| Training.UpdatesAreTrace | src/training.c:249-330 | The updates of an epoch end where a list of states leads whose step i is batch i: every batch once, in order, at one rate |
| Training.Trainer.Watch | src/train_project.c:173-257 | The early-stopping observer replaces its snapshot exactly on an improvement beyond the margin, and otherwise counts a stale epoch |
| Training.Trainer.RunEpoch | src/training.c:249-349 | One epoch: batches, objective, observation, watch |
| Training.Trainer.TrainRange | src/training.c:102-412 | The whole loop ends in the run and the completion reason of the specification |
| Training.RunAtIsOnTheWay | src/training.c:245-398 | The state after k epochs lies k epochs further, and training on from it is the run itself |
| Training.UpdatesKeepMoments | src/training.c:249-330 | An epoch of gradient descent leaves the optimizer moments as they were |
| Training.RestoredIsSimilar | src/persistence.c:1350-1452 | What a checkpoint restores cannot be told apart from what was saved, also where it drops the optimizer state |
| Training.NextEpochSimilar | src/training.c:249-349 | Runs that cannot be told apart take equal epochs: one step of the bisimulation |
| Training.LoopSimilar | src/training.c:245-398 | They end with the same model, epoch count and reason |
| Training.ResumeEquivalence | src/train_project.c:362-380 | For every epoch at which the run stands, saving, loading and training on gives the outcome of the unbroken run if and only if the saved state is not one whose stale count already reached patience |
| Determinism.AnyPoolsAnyCuts | src/train_project.c:713-1009 | Without early stopping, a campaign with each command on pools of its own leaves a checkpoint for a target that it asked for; resumed undisturbed on yet other pools, it finalizes one thread's training to the targets of the campaign or fails exactly where that fails; only convergence controls can make resume refuse |
| Determinism.PoolsAndCutsLeaveNoTrace | src/train_project.c:557-1206 | What it completes are the files that the campaign's own finalizing commands, each run once to its end, make of an empty project on one thread |
| Determinism.BatchIsPiece | src/training.c:265-300 | The call for a batch holds the order of its epoch, begins where the batch before ended, and position p asks for the gradient of the sample that the order names there |
| Determinism.EpochVisitsInOrder | src/training.c:249-300 | The batches of an epoch visit, one after another, exactly the order that seed and epoch draw: every sample once |
| Determinism.ServedBatch | src/training.c:274-282 | What a pool of any size delivers for a batch, after any history of moves, is the sequential mean over that batch of that epoch's order |
| Determinism.TrainingIsDeterministic | src/training.c:102-412 | Whatever the thread counts and interleavings, training ends in the same run for the same reason as on one thread, or fails on all |
| Determinism.ResumeOnOtherPools | src/train_project.c:362-380 | A checkpoint written on one set of pools and resumed on another completes the unbroken run if and only if its stale count is below patience |
| Determinism.ExecuteAgrees | src/train_project.c:557-1206 | Commands whose updates agree give the same result and the same sequence of disk states |
| Determinism.CampaignIsDeterministic | src/train_project.c:557-1206 | Any campaign of commands and crashes, each on pools of its own, leaves the files that one thread would leave |
| Determinism.CallCanFinish | src/executor.c:400-462 | A call that has begun can be run to its end |
| Determinism.HonestPoolsExist | src/executor.c:192-296 | For every thread count there are pools that serve every batch of every run |
| EarlyStopping.ControlIsHistory | src/training.c:345-396 | The control state of a run that began fresh is a function of its objective history |
| EarlyStopping.ObjectivesAre | src/training.c:332-349 | The objective of each epoch is that of the model it ended with |
| EarlyStopping.EpochTrains | src/training.c:249-349 | Epoch k applies batches 0, 1, 2 and so on to the model of epoch k - 1, at the rate that the first k - 1 objectives leave |
| EarlyStopping.StopReasonIsVerdict | src/training.c:345-396 | The stop reason after k epochs is the one the history of k objectives names |
| EarlyStopping.TrainingStopsByHistory | src/training.c:345-396 | Training stops at the first epoch at which the history says so, not earlier and not later; each completion reason is given by its own condition on the objectives, and the target epoch takes precedence |
| EarlyStopping.SelectionIsHistory | src/train_project.c:173-257 | The kept snapshot is that of the last improving epoch, the stale count the epochs since, and no observed loss beats it by more than the margin |
| EarlyStopping.BestEpochIsInRange | src/train_project.c:173-257 | The recorded best epoch is positive and not after the current one, as the saver demands |
| EarlyStopping.InstalledIsTheSelection | src/train_project.c:407-446 | A finished early-stopping run installs the parameters of its recorded best epoch, and it is refused exactly when it stopped early on its target epoch or the best model's objective is not finite |
| EarlyStopping.RefusalHealsOnResume | src/train_project.c:362-364 | A run refused on its target epoch is installed with the same selection when it is resumed from its last state |
| EarlyStopping.StoppingOnTheTargetIsRefused | src/train_project.c:213-215 | A concrete run that stops early on its target epoch and is not installed |
| Project.Directory.WriteWeights | src/train_project.c:53-81 | One atomic replacement of the final weights |
| Project.Directory.WriteCheckpoint | src/project_checkpoint.c:43-97 | One atomic replacement of the checkpoint |
| Project.Directory.RemoveCheckpoint | src/train_project.c:671-679 | One atomic removal |
| Project.Directory.Reboot | src/train_project.c:598-681 | A crash leaves one of the states that the two files passed through |
| Project.Directory.ObservedEpoch | src/project_checkpoint.c:43-97 | An epoch trains, then saves exactly when a signal, exhausted patience or the interval asks for it; a failed epoch writes nothing |
| Project.Directory.TrainLoop | src/training.c:215-398 | Every file state of an observed range and its end are those of the specification |
| Project.Directory.TrainObserved | src/train_project.c:460-474 | The same with the entry checks of the range |
| Project.Directory.Install | src/train_project.c:668-681 | Weights are installed before the checkpoint is removed, with exactly one intermediate state; a failed run writes nothing |
| Project.Directory.TrainAndInstall | src/train_project.c:322-458 | Range and finalization together pass through the specified states |
| Project.Directory.Fresh | src/train_project.c:557-696 | Result and every intermediate disk state of a fresh run |
| Project.Directory.Additional | src/train_project.c:1026-1206 | The same for additional training, guards included |
| Project.Directory.ResumeTraining | src/train_project.c:713-1009 | The same for resume, with its three outcomes: refuse, drop the checkpoint, train on |
| Recovery.ResumedTrail | src/train_project.c:765-992 | A loop resumed from a recorded state writes only checkpoints that the uninterrupted run would write, and ends like it |
| Recovery.RangeTrail | src/train_project.c:765-992 | The same for the whole range, wherever it was resumed |
| Recovery.RangeIsSafe | src/train_project.c:598-681 | Every disk state that a range passes through is recoverable, and completion installs the uninterrupted run's weights |
| Recovery.LeftoverFacts | src/train_project.c:889-943 | How the epochs, targets and models of a leftover checkpoint and the weights it led to are related |
| Recovery.FinishedRun | src/training.c:345-396 | Where a finished run stands: past its start, within its target, on the target exactly when the reason says so |
| Recovery.ResumeIsAcceptedIff | src/train_project.c:832-943 | On every recoverable disk with a checkpoint the guards accept if and only if there are no final weights, or these reach the configured epochs and either complete the checkpoint's target or are not ahead of the checkpoint |
| Recovery.FinalizedEpochs | src/train_project.c:1078-1191 | Each finalization completes more epochs than the one before, within its target |
| Recovery.FreshIsSafe | src/train_project.c:557-696 | A fresh run cut anywhere leaves a recoverable disk |
| Recovery.AdditionalIsSafe | src/train_project.c:1026-1206 | So does additional training |
| Recovery.ResumeIsSafe | src/train_project.c:713-1009 | So does resume |
| Recovery.CommandIsSafe | src/train_project.c:557-1206 | So does any command, and the history of finalized targets is kept or extended by one |
| Recovery.ConvergedLeftover | src/train_project.c:889-992 | Resuming the accepted leftover of a converged run writes back identical weights and removes the checkpoint |
| Project.LastSave | src/project_checkpoint.c:43-97 | The last checkpoint of a finished range is the saved state of its last epoch exactly when that epoch asked for a save, and older otherwise |
| Project.TrailEndsLikeLoop | src/training.c:245-398 | An observed range that no signal ends has the outcome of the bare loop |
| Signals.RangeSaves | src/project_checkpoint.c:43-97 | A range saves exactly what its epochs call for, in order, up to the epoch at which it ends, and how it ends there |
| Signals.CalledIff | src/train_project.c:215-236 | Of the epochs trained exactly those are saved that a signal follows, that are multiples of a nonzero interval, or that exhaust the patience |
| Signals.SavedEpochs | src/training.c:215-398 | Both for whole ranges |
| Signals.SignalIsSaved | src/project_checkpoint.c:57-97 | A range that a signal ends leaves as its last checkpoint the state of the very epoch after which the signal was pending |
| Signals.InterruptionCostsNothing | src/train_project.c:557-1206 | A command that a signal interrupts keeps the weights and that checkpoint; resumed undisturbed it finalizes what the command would have finalized without the signal, unless that epoch exhausted the patience or the final weights are below the configured epochs |
| Campaigns.CampaignIsSafe | src/train_project.c:557-1206 | Without early stopping, any sequence of commands, each cut between any two atomic file operations, ends on a recoverable disk whose finalized history was only extended |
| Campaigns.SurvivorOwes | src/train_project.c:557-1206 | One command cut anywhere leaves the targets that were owed, or those that were finalized, or one more that this very command asked for on finalized weights |
| Campaigns.CampaignIsTold | src/train_project.c:557-1206 | The history of whatever a campaign leaves, the run in progress included, is the campaign's own: each target was asked for by one of its commands, in order, when the files held exactly the targets before |
| Campaigns.RecoverableIsResumed | src/train_project.c:765-992 | On any recoverable disk an accepted resume that no signal ends completes exactly if training to the owed targets succeeds, and then the files are the weights of those targets and no checkpoint |
| Campaigns.AlwaysAccepted | src/train_project.c:832-943 | Without convergence controls the guards accept every recoverable disk with a checkpoint |
| Campaigns.ResumeRecovers | src/train_project.c:713-1009 | Whatever a campaign left with a checkpoint: the checkpoint's target ends a history that the campaign asked for, and resume, where accepted and undisturbed, installs exactly the weights of that history or fails exactly where uninterrupted training to it fails; without convergence controls it is always accepted |
| Campaigns.CommandFinalizes | src/train_project.c:557-1206 | An accepted command that is neither cut nor signalled installs the weights of the target it asked for and leaves no checkpoint |
| Campaigns.CampaignUndisturbed | src/train_project.c:557-1206 | The finalizing commands of a campaign, in their order and each run once to its end without a signal, give the weights of its history |
| Campaigns.CrashesLeaveNoTrace | src/train_project.c:557-1206 | When an undisturbed resume completes, the files equal those that the campaign's own finalizing commands, run without a crash or a signal, make of an empty project |
| Campaigns.UninterruptedHistory | src/train_project.c:557-1206 | Every lineage is produced by a fresh run and then one additional run per further target, each of them unsignalled and cut after its last operation |
| Campaigns.FinalizedEpochsNeverFall | src/train_project.c:557-1206 | From any files whatever, in every mode, no sequence of cut commands takes finalized weights away or lowers their epoch count |
| Refusals.ConvergedWeightsCanBlockResume | src/train_project.c:889-896 | A concrete converged run, cut between its two last operations, whose resume is refused |
| Refusals.EarlyLeftoverIsRefusedIff | src/train_project.c:832-851 | With early stopping, for any files and any range: the leftover of a crash before the removal is refused if and only if the range trained and its last epoch was not one to save |
| Refusals.EarlyCutIsRefusedIff | src/train_project.c:832-851 | The same for fresh, additional and resumed training |
| Refusals.AcceptedLeftover | src/train_project.c:362-446 | What resuming an accepted leftover does: at the target or after convergence it installs the same model again; after exhausted patience it trains on and replaces the weights by those of more epochs, with the old selection or a later one |
| Refusals.AcceptedCut | src/train_project.c:362-446 | The same for the three commands |
| Refusals.LoopKeepsOrBeats | src/train_project.c:194-209 | Training on keeps the selected model or replaces it by a later one that beats it by more than the margin |
| Finalization.FixedWeights | src/train_project.c:53-81 | Without early stopping a finished run installs its last model and epoch, and format version 1 exactly if it reached its target |
| Finalization.EarlyWeights | src/train_project.c:407-446 | With early stopping it installs the selected model and epoch in version 2, or nothing under the exact condition |
| Finalization.RefinementStart | src/train_project.c:1115-1176 | A refinement starts at the final weights and their epoch count with fresh optimizer state, and early stopping defends their selected epoch |
| Finalization.UnimprovedRefinement | src/train_project.c:343-358 | A refinement that never improves on its baseline installs the same model and selected epoch |
| Finalization.RefinementIsRefusedIff | src/train_project.c:1078-1122 | On every recoverable disk: refused without epochs, weights or room, with a checkpoint, and after a refinement that reached its target below the configured epochs; accepted in every other case |
| Finalization.StuckIff | src/train_project.c:1111-1118 | Weights without a checkpoint refuse every further command if and only if their counter is at its end or their last refinement fell short of the configured epochs |
| Finalization.RefinementCanEndStuck | src/train_project.c:1111-1118 | A concrete campaign that ends there: a run that converges early, refined by one epoch |
| Refusals.EarlyLeftoverCanBeRefused | src/train_project.c:843-850 | A concrete early-stopping run whose cut leaves a checkpoint that resume refuses |
| Trajectories.TrailOnTrack | src/training.c:245-398 | Whatever a range saves and wherever it ends lies on the trajectory of epochs from its base |
| Trajectories.RangeIsTracked | src/train_project.c:322-458 | Every disk state of a range keeps the finalizations, or adds one end of that range |
| Trajectories.CommandIsTracked | src/train_project.c:557-1206 | One command cut anywhere changes the finalizations only by a mark for the target that it asks for or that the checkpoint carries; resuming a leftover replaces the last mark |
| Trajectories.CampaignIsTracked | src/train_project.c:557-1206 | In every mode, early stopping and convergence included, all disks between the commands of a campaign stay on the trajectories that start at finalized weights, each evolving from the one before |
| Trajectories.BestIsOnPath | src/train_project.c:173-257 | On a trajectory the kept snapshot is the model of the epoch that it records, and no epoch so far beats its loss by more than the margin |
| Trajectories.InstalledIsBestOfTrajectory | src/train_project.c:407-446 | With early stopping, whatever was crashed and resumed: the installed model is the best snapshot of the trajectory that led to the installed epoch |
| CheckpointFiles.SteppedKeepsUsable | src/optimizer.c:691-768 | An optimizer step keeps shapes, the parts that a file does not hold, and the Adam powers between zero and one |
| CheckpointFiles.SteppedPowers | src/optimizer.c:732-763 | Without rounding, the Adam powers are beta to the timestep |
| CheckpointFiles.RunAtIsStorable | src/training.c:245-398 | Every state that training with real optimizer steps reaches can be stored |
| CheckpointFiles.ReachableStateIsRestorable | src/optimizer.c:443-535 | Every reachable optimizer state passes the restore validators, fits its slot and is read back as it was; the Adam powers follow from the steps |
| CheckpointFiles.ReloadIsIdentity | src/persistence.c:1267-1870 | The characters of a checkpoint, in both formats, give back exactly the saved state |
| CheckpointFiles.ResumeThroughFile | src/train_project.c:362-380 | Resume equivalence through the text of the file, in both modes and with its exact condition |
| TextLines.SplitLine | src/persistence.c:574-603 | The token loop finds what the grammar finds: blanks, comments, NUL and the limit of four tokens |
| TextLines.LineReader.GetLine | src/persistence.c:549-567 | One line is read up to and including its newline |
| TextLines.LineReader.NextLine | src/persistence.c:549-608 | The reader returns the next line that has tokens, refuses long lines and too many tokens, and skips the rest |
| TextLines.TextRoundTrip | src/persistence.c:549-608 | The reader finds exactly the lines of a written text |
| Formatting.FormattingIsIrrelevant | src/persistence.c:549-608 | Whatever blanks, comments, empty lines and line endings a file has, the reader finds the lines of tokens that it says |
| Formatting.NextStyled | src/persistence.c:549-608 | One such line: skipped when it has no tokens, found otherwise |
| TextLines.CheckpointTextRoundTrip | src/persistence.c:307-354 | Every saved checkpoint consists of clean lines, and its characters load as what was saved, or are refused exactly by the restore validators |
| TextLines.EarlyTextRoundTrip | src/persistence.c:356-436 | The same for early-stopping checkpoints |
| TextLines.WeightsTextRoundTrip | src/persistence.c:307-354 | The same for final weights |
| Provenance.EqualStreamsSetAlike | src/digest.c:216-299 | Configurations with equal training streams have optimizer settings that differ only in fields that are switched off |
| Provenance.ObserveAlike | src/optimizer.c:306-417 | Such settings observe every epoch alike |
| Provenance.EqualStreamsTrainAlike | src/digest.c:216-299 | Equal streams train alike from any model: the same failure, or the same model, moments, epochs, rate, selection and reason |
| Sha256.ZeroCount | src/sha256.c:144-171 | The number of zero bytes is below 64 and brings the message to 56 modulo 64, as section 5.1.1 of FIPS 180-4 asks |
| Sha256.PaddedBlocks | src/sha256.c:144-171 | The padded message is a whole number of blocks |
| Sha256.AbsorbedPrefix | src/sha256.c:122-142 | Blocks already absorbed do not depend on what follows |
| Sha256Constants.InitialHash | src/sha256.c:110-117 | The initial words are the first 32 fractional bits of the square roots of the first eight primes |
| Sha256Constants.Rows | src/sha256.c:5-28 | The 64 round constants are four rows of sixteen |
| Sha256Constants.Roots0To7 | src/sha256.c:5-28 | Constants 0 to 7 are the first 32 fractional bits of the cube roots of primes 1 to 8 |
| Sha256Constants.Roots8To15 | src/sha256.c:5-28 | Constants 8 to 15 are the first 32 fractional bits of the cube roots of primes 9 to 16 |
| Sha256Constants.Roots16To23 | src/sha256.c:5-28 | Constants 16 to 23 are the first 32 fractional bits of the cube roots of primes 17 to 24 |
| Sha256Constants.Roots24To31 | src/sha256.c:5-28 | Constants 24 to 31 are the first 32 fractional bits of the cube roots of primes 25 to 32 |
| Sha256Constants.Roots32To39 | src/sha256.c:5-28 | Constants 32 to 39 are the first 32 fractional bits of the cube roots of primes 33 to 40 |
| Sha256Constants.Roots40To47 | src/sha256.c:5-28 | Constants 40 to 47 are the first 32 fractional bits of the cube roots of primes 41 to 48 |
| Sha256Constants.Roots48To55 | src/sha256.c:5-28 | Constants 48 to 55 are the first 32 fractional bits of the cube roots of primes 49 to 56 |
| Sha256Constants.Roots56To63 | src/sha256.c:5-28 | Constants 56 to 63 are the first 32 fractional bits of the cube roots of primes 57 to 64 |
| Sha256Functions.ChChooses | src/sha256.c:70-97 | Ch takes each bit from its second or third argument as the first says |
| Sha256Functions.MajIsMajority | src/sha256.c:70-97 | Maj takes the bit that at least two arguments have |
| Sha256Functions.RotrBit | src/sha256.c:31-34 | A rotation moves every bit by its distance, modulo 32 |
| Sha256Functions.BigSigmas | src/sha256.c:70-97 | Each bit is the parity of three bits of the argument, at the distances of section 4.1.2 of FIPS 180-4 |
| Sha256Functions.SmallSigmas | src/sha256.c:59-68 | The same with a shift in place of the third rotation |
| Sha256Functions.LoadIsBigEndian | src/sha256.c:36-42 | The first byte of a word is the most significant one |
| Sha256.BigEndianRoundTrip | src/sha256.c:144-171 | The eight length bytes determine the length |
| Sha256.BigEndianByShifts | src/sha256.c:144-171 | Byte i is the word shifted by 8 * (count - 1 - i), as the loops extract it |
| Sha256.EncodeWord | src/sha256.c:156-159 | The shifting loop writes the big-endian bytes |
| Sha256.PadIsInjective | src/sha256.c:144-171 | Below 2^61 bytes no two messages have the same padding |
| Sha256.Appended | src/sha256.c:122-142 | Filling the buffer with a chunk, with compression when it is full, keeps the context equal to what has been fed |
| Sha256.Context.constructor | src/sha256.c:108-120 | A new context has been fed nothing |
| Sha256.Context.Expand | src/sha256.c:56-68 | The message schedule of section 6.2.2 of FIPS 180-4 |
| Sha256.Context.RunRounds | src/sha256.c:70-97 | The 64 rounds |
| Sha256.Context.Transform | src/sha256.c:43-106 | One block is compressed into the state as section 6.2.2 of FIPS 180-4 says |
| Sha256.Context.Take | src/sha256.c:129-140 | One chunk that fits is fed; the buffer stays below a full block |
| Sha256.Context.Update | src/sha256.c:122-142 | Any chunk is fed: the context stands for the concatenation, with fewer than 64 buffered bytes |
| Sha256.Context.PadOut | src/sha256.c:146-160 | After padding the buffer is empty and the state has absorbed the padded message of section 5.1.1 of FIPS 180-4 |
| Sha256.Context.WriteDigest | src/sha256.c:162-169 | The eight words leave in big-endian order |
| Sha256.Context.Final | src/sha256.c:144-171 | The digest is that of everything fed, and the context is cleared |
| Sha256.HashChunks | src/sha256.c:108-171 | For any chunking, init, update and final give the one-shot digest of the joined message |
| Encoding.NumberIsDelimited | src/digest.c:54-69 | A 64-bit number in front of any continuation can be read back, and the continuations agree |
| Encoding.CountedIsDelimited | src/digest.c:71-77 | The same for a counted text |
| Encoding.NumbersDetermine | src/digest.c:54-85 | Number lists of one length are determined by their bytes |
| Encoding.AbsentSection | src/digest.c:223-296 | A present section is never mistaken for the sections that follow an absent one |
| Encoding.SectionsDetermine | src/digest.c:223-296 | A list of optional tagged sections is determined by its bytes, although nothing marks absence |
| Encoding.HexIsInjective | src/digest.c:20-31 | Different digests have different hexadecimal texts |
| Digest.TagsAreDistinct | src/digest.c:223-296 | The eight optional sections carry different tags |
| Digest.TrainingStreamIsDecodable | src/digest.c:216-299 | Two configurations have equal training streams if and only if, field by field, they are equal wherever the training loop can see the difference |
| Digest.ModelStreamIsDecodable | src/digest.c:127-177 | Valid models with equal streams are equal: sizes, activations and parameters |
| Digest.DatasetStreamIsDecodable | src/digest.c:179-214 | Valid datasets with equal streams are equal, shape and every value |
| Digest.DomainsAreSeparate | src/digest.c:127-299 | No model, dataset and training stream are ever equal to one another |
| Digest.LayerIsDelimited | src/digest.c:139-173 | One layer can be read back in front of any continuation |
| Digest.AllCounted | src/digest.c:150-172 | The parameters written in canonical order are all that a valid layer has, so the non-canonical error cannot occur |
| Digest.UpdateNumber | src/digest.c:54-64 | Feeds the eight big-endian bytes |
| Digest.UpdateText | src/digest.c:71-77 | Feeds length and bytes |
| Digest.UpdateLayer | src/digest.c:139-173 | The loops over known parameters feed exactly the layer's bytes |
| Digest.ToHex | src/digest.c:20-31 | The nibble loop writes the hexadecimal text |
| Digest.DigestDataset | src/digest.c:179-214 | The text is the hash of the dataset stream |
| Digest.DigestModel | src/digest.c:127-177 | The text is the hash of the model stream, and an invalid model is refused |
| Digest.DigestTraining | src/digest.c:216-299 | The text is the hash of the training stream, with the validation digest exactly when early stopping is on |
| Persistence.DecimalRoundTrip | src/parse.c:22-56 | Decimal texts of numbers parse back to the number |
| Persistence.NamesRoundTrip | src/optimizer.c:36-101 | Optimizer, schedule and completion names parse back |
| Persistence.LayersRoundTrip | src/persistence.c:1009-1070 | A written payload of any shape parses back, and the reader stops right behind it |
| Persistence.BuffersRoundTrip | src/persistence.c:1127-1265 | Momentum and Adam buffers parse back |
| Persistence.StateRoundTrip | src/persistence.c:1127-1265 | The whole optimizer state parses back |
| Persistence.HeaderRoundTrip | src/persistence.c:724-755 | The common header parses back for every version |
| Persistence.BoundaryRoundTrip | src/persistence.c:757-891 | The checkpoint metadata parses back for every version |
| Persistence.CheckpointRoundTrip | src/persistence.c:1267-1471 | A written checkpoint loads as itself, and is refused exactly when its optimizer state fails the restore validators |
| Persistence.EarlyRoundTrip | src/persistence.c:1681-1870 | The same for early-stopping checkpoints with their two models |
| Persistence.NoTextLoadsAsBoth | src/persistence.c:1267-1870 | No file whatever is accepted by both checkpoint loaders |
| Persistence.FormatsAreNotConfused | src/persistence.c:1267-1870 | What one saver writes the other loader refuses |
| Persistence.WeightsRoundTrip | src/persistence.c:1487-1501 | Written final weights of both versions load as themselves |
| PersistenceStreams.Reader.Values | src/persistence.c:974-1007 | The value loop reads what the grammar reads, at the same place |
| PersistenceStreams.Reader.Layers | src/persistence.c:1009-1070 | So does the payload reader |
| PersistenceStreams.Reader.ScheduleLines | src/persistence.c:1150-1199 | So does the schedule part |
| PersistenceStreams.Reader.ConvergenceLines | src/persistence.c:1200-1238 | So does the convergence part |
| PersistenceStreams.Reader.StateLines | src/persistence.c:1127-1265 | So does the reader of the optimizer state |
| PersistenceStreams.Reader.HeaderLines | src/persistence.c:724-755 | So does the header reader |
| PersistenceStreams.Reader.BoundaryLines | src/persistence.c:757-891 | So does the metadata reader |
| PersistenceStreams.ReadCheckpointFile | src/persistence.c:1267-1471 | The cursor-based loader accepts what the grammar accepts, with the same result |
| PersistenceStreams.ReadEarlyFile | src/persistence.c:1681-1870 | The same for early-stopping checkpoints |
| PersistenceStreams.ReadWeightsFile | src/persistence.c:1267-1471 | The same for final weights |
| PersistenceStreams.Stream.PutLayers | src/persistence.c:128-169 | The writing loops append exactly the payload |
| PersistenceStreams.Stream.PutState | src/persistence.c:226-305 | And exactly the optimizer state |
| PersistenceStreams.WriteCheckpointFile | src/persistence.c:307-354 | The lines written are those of the round trip |
| PersistenceStreams.WriteEarlyFile | src/persistence.c:356-436 | The same for early-stopping checkpoints |
| PersistenceStreams.WriteWeightsFile | src/persistence.c:307-354 | The same for final weights |
| Dense.NeuronTangent | src/dense.c:17-64 | The accumulation of a neuron in dual numbers carries its directional derivative |
| Dense.DenseAdjoint | src/dense.c:94-133 | Weight, bias and input gradients are the adjoint of the linearised layer |
| Activations.ScalarTangent | src/activation.c:311-346 | The derivative used in the backward pass is that of the forward branch, for every scalar activation |
| Activations.ProbabilityFacts | src/activation.c:348-399 | The shifted exponentials have a positive sum, so softmax never divides by zero and its outputs add up to one |
| Activations.SoftmaxTangent | src/activation.c:348-399 | The directional derivative of softmax; the shift by the maximum cancels |
| Activations.ApplyValues | src/activation.c:348-399 | The lifted forward pass has the values of the plain one |
| Activations.ActivationAdjoint | src/activation.c:401-496 | The backward pass is the adjoint of the linearised activation, the softmax vector case included |
| Losses.BinaryTangent | src/loss.c:235-301 | The derivative of the logit form of binary cross-entropy is sigmoid minus target, in both branches |
| Losses.CategoricalTangent | src/loss.c:235-301 | The derivative of the log-sum-exp form is softmax minus target |
| Losses.MseAdjoint | src/loss.c:190-233 | The squared-error gradient is the derivative of the evaluated loss |
| Losses.FusedAdjoint | src/loss.c:303-336 | The fused gradient is the derivative of the loss with respect to the pre-activations, through the output activation |
| Losses.FusedIsComposed | src/loss.c:208-231 | For probabilities strictly between 0 and 1, loss gradient followed by activation backward equals the fused gradient |
| Losses.SlopesExistIff | src/loss.c:190-233 | The unfused gradient exists if and only if no divisor vanishes |
| StableForms.SigmoidIsLogistic | src/activation.c:311-346 | By the laws of exp and log both branches compute 1 / (1 + exp(-x)), strictly between 0 and 1 |
| StableForms.ReluIsMaximum | src/activation.c:311-346 | The rectifier is the larger of zero and its argument |
| StableForms.SoftmaxIsNormalized | src/activation.c:348-399 | The shift by the maximum cancels: an output is exp(z_i) over the sum of all exp(z_j), and no exponent that is evaluated is positive |
| StableForms.BinaryTermIsCrossEntropy | src/loss.c:235-301 | The logit form is -(t log p + (1 - t) log(1 - p)) of the probability p, on both branches |
| StableForms.CategoricalIsCrossEntropy | src/loss.c:235-301 | The log-sum-exp form is minus the logarithm of the probability of the selected class |
| Backprop.ReverseIsAdjoint | src/backprop.c:33-133 | For any depth, shapes and activations the derivative of the loss along any direction in parameters and inputs is its inner product with the computed gradients |
| Backprop.GradientIsDirectionalDerivative | src/backprop.c:33-133 | With the inputs held still: the inner product with the parameter gradients |
| Backprop.GradientsFit | src/backprop.c:33-133 | The gradients have the shapes of the layers |
| Backprop.LastLayer | src/backprop.c:47-75 | The output layer takes the fused or the composed gradient, and either is the derivative of the loss |
| Kernels.DenseForward | src/dense.c:17-64 | The nested loops compute the layer; mismatched sizes are refused and nothing is written |
| Kernels.DenseBackward | src/dense.c:66-135 | The loops over caller-owned arrays compute the three gradients |
| Kernels.ActivationForward | src/activation.c:348-399 | The loops compute every activation, refusing mismatched sizes |
| Kernels.ActivationBackward | src/activation.c:401-496 | The loops compute every backward pass, refusing mismatched sizes |
| Kernels.EvaluateLoss | src/loss.c:235-301 | The summing loops compute the loss from logits |
| Kernels.LossBackward | src/loss.c:190-233 | The loss gradient, refused exactly where a divisor vanishes |
| Kernels.FusedBackward | src/loss.c:303-336 | The fused gradient |
| Kernels.Workspace.Forward | src/model.c:444-507 | The workspace holds pre-activations and activations of every layer |
| Kernels.Workspace.BackwardLayers | src/backprop.c:77-133 | The descending loop over the stored buffers computes the recursive reverse pass |
| Kernels.Workspace.SampleGradient | src/backprop.c:7-135 | Refuses exactly unsuitable outputs or targets; otherwise returns the loss and the gradients of the adjoint theorem |
| Csv.RowUndoesEncode | src/data_import.c:432-529 | Parsing the quoted encoding of any non-empty list of fields gives the list back, empty and trailing empty fields included (section 2 of RFC 4180) |
| Csv.EncodeIsInjective | src/data_import.c:432-529 | Different rows have different encodings |
| Csv.QuoteFreeRowIsSplit | src/data_import.c:432-529 | A row without quotes is split at its commas |
| Csv.FieldAt | src/data_import.c:432-529 | The text at each recorded start in the packed buffer is the field |
| Csv.TakeQuoted | src/data_import.c:465-487 | The quoted loop never writes past its read position, keeps the unread text and unescapes as the grammar does |
| Csv.TakePlain | src/data_import.c:488-497 | The same for the unquoted loop, with its error on a stray quote |
| Csv.TakeCell | src/data_import.c:464-525 | One field is packed behind the earlier ones, and the rest of the line is still unread |
| Csv.ParseLine | src/data_import.c:432-529 | The in-place parser accepts exactly the rows of the grammar and leaves their fields packed at the returned starts |
| Csv.ParseEncoded | src/data_import.c:432-529 | On an encoded row it returns starts whose texts are the original fields |

## Left out

- Campaigns.CampaignIsSafe: stated with early stopping off, because with it on the files need not be those of an unbroken run (`Refusals.AcceptedLeftover`); what holds in every mode is `Trajectories.CampaignIsTracked`.
- Campaigns.ResumeRecovers: says nothing about a resume that is refused, which only convergence controls can cause; `Recovery.ResumeIsAcceptedIff` has the condition and `Refusals.ConvergedWeightsCanBlockResume` an input.
- Random.MixIsBijective: also holds for other odd factors and large enough shifts; the reference outputs in tests/test_model.c:31-37 are single computations, which the claims for all states do not include.
- TextLines.CheckpointTextRoundTrip: the digits of a real number are not modelled; its text is assumed to have no blanks and to parse back exactly (17 significant digits).
- CheckpointFiles.ResumeThroughFile: for runs whose learning rate, best values and losses are numbers that the program's floating-point type holds, since the model computes these over the reals.
- Rounding, NaN and infinity: reals in Schedule and Backprop, uninterpreted operations elsewhere; a learning rate that underflows to zero is not modelled.
- The clamp of probabilities in the loss values that are computed without logits, which training does not use.
- Kinks of activations: the derivative there is the one of the branch that the code takes.
- Failures of malloc and of the pthread calls, with the executor's "broken" state, and the creation of threads.
- Determinism.TrainingIsDeterministic: composes pool, reduction, batches, sample order, epoch loop, files and crashes; the gradient of a sample, regularization, clipping and the optimizer step enter as functions of their arguments (the optimizer and backpropagation theorems are about such functions), and the objective and the validation loss as functions of the model.
- The model's layers in OptimizerStep and the buffers of the Kernels workspace are sequences held by objects, not one C array per layer; the dense, activation and loss kernels do work on arrays.
- The staging arrays of the loaders, the growth of the importer's row arrays and of its field list.
- Model creation, weight initialization and its random state (checkpoints carry the number through), gradient clipping and regularization terms.
- Locale, file descriptors, fsync, temporary files and file locks: only atomic replacement and removal on an abstract disk.
- Command line, project and schema loading, paths and error texts; an error is a case of a result.
- Evaluation, preprocessing, prediction, the gradient check, tensor helpers and input documents: easier claims than those above.
- SHA-256 collision resistance: the claims end at the byte stream.
- The digests inside the metadata are compared, not recomputed, in the persistence model; that data and configuration stay the same during a campaign is part of its statement.
