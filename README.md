# markovmate: the MCMC task-ordering engine, modelled in Dafny

markovmate orders a user's tasks with a Metropolis search. This project models that engine:

- **Objective evaluator** (`objective.dfy`). It gives a score to an ordering of tasks: the sum of the durations, plus 1000 for each dependency not yet met when its task runs, plus 5 for each change of category between neighbours, plus 10 for each rise in priority between neighbours.
- **Proposal moves** (`proposal.dfy`). There are three moves: an adjacent swap, a swap of two positions, and a remove-and-reinsert.
- **Chain initialisers** (`proposal.dfy`):
  - a Fisher-Yates shuffle;
  - a greedy builder. It takes the best ready task each time: highest priority first, then shortest duration. When no task is ready, it falls back to appending the remaining tasks.
- **Single-chain loop** (`engine.dfy`). It keeps a current sequence, a current score, an accepted-move count and sample buffers that fill from the burn-in on. It stops early when a convergence threshold is set, the iteration is past burnIn + 50, and the last 50 recorded scores span less than that threshold.
- **Multi-chain driver and diagnostic** (`engine.dfy`): the driver, plus the guard branches of the Gelman-Rubin diagnostic.
- **Top-k extractor** (`solutions.dfy`).
- **Web worker** (`worker.dfy`). It repeats the evaluator and the chain loop, adds progress messages and a guarded early stop, and puts a message handler in front.

Each stateful source routine is modelled by a `method` with the source's loops, proved against a specification function:

- `CalculateObjective` against `Evaluate`;
- `InitializeRandomSequence` against `Shuffle`;
- `InitializeGreedySequence` against `Greedy`;
- `RunIterations` against `RunFrom`;
- `KeepUnique` against `TopFrom`;
- `OnMessage` against `Posted`.

The three moves mutate an `array` in place. The lemmas then prove what the source promises about the specification functions:

- sequences stay permutations;
- every score is the objective of its sequence;
- samples and scores stay paired;
- the extractor's output is sorted, has distinct keys, is bounded and holds the best occurrence of each key;
- the worker agrees with the library.

All randomness is given as explicit draws:

- a `Draw` holds the strategy value and the index values of one proposal;
- a `seq<nat>` holds the indices of the Fisher-Yates steps;
- a `Step` holds the draws of one iteration, including the accept decision.

A temperature or convergence threshold of `0.0` stands for an absent (falsy) value. The source reads `MCMCConfig` and `MCMCChainState` from `lib/types.ts`, but that file does not declare them. The model takes their fields from the way the engine uses them.

## Model

| member | source | states |
|---|---|---|
| Tasks.Ids | lib/mcmc/engine.ts:175 | the id list of a sequence, position by position, as the extractor's key is built from it |
| Objective.CalculateObjective | lib/mcmc/objective.ts:7-64 | the evaluator's loop computes the total duration, the dependency penalty and the transition penalty of the whole sequence, and reports a score equal to their sum and at least the estimated time, which is non-negative |
| Objective.Inefficiency | lib/mcmc/objective.ts:35-51 | sequences of at most one task have no transition penalty; otherwise the penalty is at most 15 per neighbouring pair |
| Objective.IsValidSequence | lib/mcmc/objective.ts:69-84 | the check, with its early return, answers true exactly when every dependency is the id of a strictly earlier task |
| Objective.EmptySequenceScoresZero | lib/mcmc/objective.ts:7-63 | the empty sequence has score, estimated time and both penalties 0 |
| Objective.TotalTimeRemove | lib/mcmc/objective.ts:16-18 | taking one task out lowers the total time by exactly its duration |
| Objective.TotalTimePermutationInvariant | lib/mcmc/objective.ts:16-18 | every permutation of the same tasks has the same estimated time |
| Objective.MissingCountZero | lib/mcmc/objective.ts:21-27 | a task adds no dependency penalty exactly when all its dependencies are done |
| Objective.ValidIffNoViolations | lib/mcmc/objective.ts:69-84 | a sequence passes the validity check exactly when the evaluator reports no dependency violation (both directions) |
| Objective.SelfDependencyViolates | lib/mcmc/objective.ts:19-31 | a task listing its own id is penalised at least 1000, because it is marked completed only after its own check |
| Objective.DependencyOrderPenalty | lib/mcmc/objective.ts:19-54 | with A free and B depending on A, same category and priority, [B, A] scores exactly 1000 more than [A, B]; their dependency penalties are 1000 and 0 |
| Proposal.Swapped | lib/mcmc/proposal.ts:40 | the two positions are exchanged, every other position is unchanged, and the multiset is kept |
| Proposal.RemovePermutes | lib/mcmc/proposal.ts:69 | the element taken out by the first splice, together with what remains, is the original multiset |
| Proposal.MovedRemove | lib/mcmc/proposal.ts:62-71 | the moved task ends at index `to`; taking it out again gives the sequence with it taken out at `from`, so the other tasks keep their relative order |
| Proposal.MovedPermutes | lib/mcmc/proposal.ts:62-71 | a move loses and adds nothing |
| Proposal.Propose | lib/mcmc/proposal.ts:7-30 | every candidate, whatever the strategy, has the same length and multiset as the current sequence |
| Proposal.SwapAdjacentTasks | lib/mcmc/proposal.ts:35-41 | the array becomes its old contents with index and index+1 exchanged; arrays shorter than two are unchanged |
| Proposal.SwapRandomTasks | lib/mcmc/proposal.ts:46-57 | the array becomes its old contents with i and j exchanged, for i different from j |
| Proposal.MoveTaskToRandomPosition | lib/mcmc/proposal.ts:62-71 | the array becomes the move of its old contents; nothing changes when from equals to |
| Proposal.ProposeNewSequence | lib/mcmc/proposal.ts:7-30 | the proposal works on a fresh copy, returns the candidate of its draws, and returns a permutation of the input; the input, a value, cannot change |
| Proposal.ShortSequenceUnchanged | lib/mcmc/proposal.ts:11-13 | a sequence shorter than two comes back unchanged, whatever the draws |
| Proposal.ShuffleSteps | lib/mcmc/proposal.ts:81-84 | the shuffle steps from i-1 down to 1, each swapping with an index in [0, k], keep the length and the multiset |
| Proposal.ShuffleStep | lib/mcmc/proposal.ts:81-84 | (proof step) the descending loop takes step i first, then the steps below it |
| Proposal.Exchange | lib/mcmc/proposal.ts:83 | the array becomes its old contents with positions i and j exchanged (they may coincide) |
| Proposal.InitializeRandomSequence | lib/mcmc/proposal.ts:77-87 | the loop of in-place swaps on a copy computes the shuffle of its draws and returns a permutation of the tasks |
| Proposal.Available | lib/mcmc/proposal.ts:103-108 | the filter keeps exactly the remaining tasks whose dependencies are all completed, and keeps the whole list when all are ready |
| Proposal.SortsBefore | lib/mcmc/proposal.ts:118-122 | a sorts strictly before b exactly when the comparator returns a negative value: higher priority first, then shorter duration |
| Proposal.SortsBeforeOrder | lib/mcmc/proposal.ts:118-122 | the comparator is a strict weak order: irreflexive, transitive and asymmetric, with a tie exactly when it returns 0 |
| Proposal.BestIndex | lib/mcmc/proposal.ts:118-125 | the first element after the stable sort: nothing sorts strictly before it, and every earlier element sorts strictly after it |
| Proposal.RemoveFirst | lib/mcmc/proposal.ts:127 | deleting the placed task from `remaining` removes exactly one occurrence of it |
| Proposal.InitializeGreedySequence | lib/mcmc/proposal.ts:93-132 | the builder's loop, including the fallback `break`, computes the greedy order and returns a permutation of the tasks |
| Proposal.GreedyFallback | lib/mcmc/proposal.ts:110-115 | (proof step) with nothing available, the remaining tasks are appended in their order |
| Proposal.GreedyPlacesBest | lib/mcmc/proposal.ts:103-128 | when some task is available, the builder places a ready task that no available task sorts before, then continues with its id completed |
| Proposal.GreedyAdvance | lib/mcmc/proposal.ts:124-128 | (proof step) one iteration pushes the chosen task after those placed so far |
| Proposal.GreedyPermutation | lib/mcmc/proposal.ts:101-131 | the builder returns every task exactly once, also through the cycle fallback |
| Proposal.ValidAfterCons | lib/mcmc/proposal.ts:103-108 | a ready task placed in front of a sequence that is valid once the task is done gives a valid sequence |
| Proposal.GreedyValidWithoutFallback | lib/mcmc/proposal.ts:103-128 | when the fallback is never taken, every placed task has all its dependencies among the ids placed before it |
| Proposal.PlacedValid | lib/mcmc/proposal.ts:101-128 | whether or not the fallback is taken, every task placed one by one before it has all its dependencies among the ids placed before it; these tasks open the greedy order, and are all of it when there is no fallback |
| Proposal.GreedyValid | lib/mcmc/proposal.ts:93-132 | when the fallback is never taken, the greedy sequence passes the validity check |
| Proposal.GreedyFirstHasTopPriority | lib/mcmc/proposal.ts:117-125 | with no dependencies at all, the first task has the highest priority of all tasks |
| Proposal.MutualDependencyFallsBack | lib/mcmc/proposal.ts:110-115 | two tasks that depend on each other both come back, in input order |
| Engine.Temperature | lib/mcmc/engine.ts:36 | the temperature used is never 0: a truthy configured temperature is used unchanged, and a falsy one becomes 1.0 |
| Engine.AcceptanceRule | lib/mcmc/engine.ts:36-43 | `SurelyAccepted`: with a positive temperature the acceptance probability is 1 exactly when the proposal scores no worse, with a negative one exactly when it scores no better; `Accepted`: a sure acceptance always accepts, and otherwise the draw decides |
| Engine.MaxOf | lib/mcmc/engine.ts:72 | an element of the window that no element exceeds |
| Engine.MinOf | lib/mcmc/engine.ts:72 | an element of the window that no element is below |
| Engine.Recent | lib/mcmc/engine.ts:71 | `slice(-50)`: the last min(50, n) scores |
| Engine.SpreadIsMaxMinusMin | lib/mcmc/engine.ts:71-73 | for a non-empty window, max - min is below the threshold exactly when any two scores differ by less than it |
| Engine.StopsIffSpread | lib/mcmc/engine.ts:69-76 | `EngineStops`: the loop breaks exactly when a threshold is set, the iteration is past burnIn + 50, and any two of the last 50 recorded scores differ by less than the threshold (an empty window stops, as max - min is then -Infinity) |
| Engine.Advance | lib/mcmc/engine.ts:30-55 | one iteration keeps the length of the current sequence |
| Engine.RunFrom | lib/mcmc/engine.ts:28-77 | the loop keeps the length of the current sequence |
| Engine.RunFromStep | lib/mcmc/engine.ts:28-77 | (proof step) an iteration either stops the loop after its update or continues with the next iteration |
| Engine.RunFromDone | lib/mcmc/engine.ts:28 | (proof step) with the budget spent, the state is the result |
| Engine.Initial | lib/mcmc/engine.ts:16-18 | chain 0 starts from the greedy order and every other chain from the shuffle; both are permutations of the tasks |
| Engine.AdvanceAcceptOrReject | lib/mcmc/engine.ts:43-55 | an accepted proposal becomes current with its score and is counted; a rejection changes neither; a sample and its score are recorded exactly from the burn-in on |
| Engine.NonWorseningAccepted | lib/mcmc/engine.ts:36-49 | with a positive temperature, a proposal that scores no worse than the current one is accepted whatever the draw |
| Engine.AdvanceKeepsInvariant | lib/mcmc/engine.ts:30-55 | one iteration keeps the current sequence and every sample a permutation of the tasks, each score the objective of its sequence, and samples paired with scores |
| Engine.RunKeepsInvariant | lib/mcmc/engine.ts:28-77 | the whole loop keeps these facts, including after an early stop |
| Engine.EngineEndBounds | lib/mcmc/engine.ts:28-72 | the loop's end is within its budget; it ends before the budget only with a threshold set and past iteration burnIn + 50; without a threshold it runs the whole budget |
| Engine.EngineEndStep | lib/mcmc/engine.ts:30-72 | (proof step) one iteration either stops the loop, ending it after that iteration, or leaves the end to the rest of the loop |
| Engine.SamplesToEnd | lib/mcmc/engine.ts:28-72 | for every configuration, the loop records one sample and one score for each iteration it runs at or past the burn-in, the iteration that stops it included, and no others |
| Engine.SampleCount | lib/mcmc/engine.ts:28-55 | a run that does not stop early (its end is the budget), in particular every run without a threshold, records one sample and one score for every iteration from the burn-in on |
| Engine.AcceptedMovesBound | lib/mcmc/engine.ts:45-49 | at most one move is accepted per iteration |
| Engine.NoEarlyStopWithinWindow | lib/mcmc/engine.ts:69 | while no iteration lies past burnIn + 50, a threshold changes nothing |
| Engine.RateOf | lib/mcmc/engine.ts:79 | the rate is NaN exactly when iterations is 0, and otherwise the number that times iterations gives acceptedMoves |
| Engine.RateBounds | lib/mcmc/engine.ts:79 | acceptedMoves / iterations lies in [0, 1] when it is a number |
| Engine.ChainFacts | lib/mcmc/engine.ts:8-90 | every returned chain state holds permutations of the tasks, scores equal to the objectives of their sequences and paired samples; it carries its chain id and the configured iterations (also after an early stop) and a rate in [0, 1]; the rate is NaN exactly when iterations is 0; the samples and scores number the iterations run at or past the burn-in, and with no early stop (in particular without a threshold) and 0 <= burnIn <= iterations there are iterations - burnIn of them |
| Engine.Iterate | lib/mcmc/engine.ts:30-55 | one pass of the loop body is one `Advance` step |
| Engine.RunIterations | lib/mcmc/engine.ts:28-77 | the loop, with its early-stop `break`, ends in the state `RunFrom` describes |
| Engine.InitializeChain | lib/mcmc/engine.ts:16-21 | the start sequence and its objective score |
| Engine.RunMCMCChain | lib/mcmc/engine.ts:8-90 | returns the chain state of its draws, with every score the objective of its sequence, the chain id, the configured iterations and a rate in [0, 1] |
| Engine.RunMultipleMCMCChains | lib/mcmc/engine.ts:95-108 | returns numChains states (none for numChains <= 0) with chain ids 0 .. numChains-1 in order, each the chain of its draws and each satisfying the chain invariant |
| Engine.GelmanRubin | lib/mcmc/engine.ts:114-124 | 1.0 for fewer than two chains; Infinity when there are two or more chains and the first has no scores; the numeric estimate exactly when neither guard applies |
| Solutions.ChainSolutions | lib/mcmc/engine.ts:158-164 | sample idx of a chain becomes the triple (sample, scores[idx], chainId) |
| Solutions.FlattenHas | lib/mcmc/engine.ts:157-165 | every sampled triple is collected |
| Solutions.FlattenSource | lib/mcmc/engine.ts:157-165 | every collected triple is the triple of some sample |
| Solutions.FlattenMembers | lib/mcmc/engine.ts:157-165 | the collected list holds exactly the sampled triples |
| Solutions.InsertPermutes | lib/mcmc/engine.ts:168 | the sort's insertion step loses and adds nothing |
| Solutions.InsertSorted | lib/mcmc/engine.ts:168 | the insertion step keeps the order sorted |
| Solutions.SortByScore | lib/mcmc/engine.ts:168 | the sort returns a permutation in ascending score order |
| Solutions.SortKeepsSorted | lib/mcmc/engine.ts:168 | an input already in score order is returned unchanged |
| Solutions.InsertWithScore | lib/mcmc/engine.ts:168 | the insertion step puts an element after every element of its score |
| Solutions.SortStable | lib/mcmc/engine.ts:168 | the sort is stable: for every score, the solutions with that score come out in their input order |
| Solutions.Join | lib/mcmc/engine.ts:175 | the joined string holds as many separators as the parts hold, plus one for each of the n - 1 gaps between n parts; the join of no parts is empty |
| Solutions.Key | lib/mcmc/engine.ts:175 | the key of the empty sequence is empty; with comma-free ids, the key of n tasks has exactly n - 1 commas |
| Solutions.JoinInjective | lib/mcmc/engine.ts:175 | for id lists of equal length without commas, the joined key determines the list |
| Solutions.CommaCollision | lib/mcmc/engine.ts:175 | ids containing commas can give two different id lists the same key |
| Solutions.TopFrom | lib/mcmc/engine.ts:174-184 | the dedup loop keeps at most as many solutions as it reads (the lemmas below state the rest) |
| Solutions.TopFromEmpty | lib/mcmc/engine.ts:174-184 | the loop keeps nothing exactly when every key of its input was already seen |
| Solutions.TopFromMembers | lib/mcmc/engine.ts:174-184 | the dedup loop keeps only elements of its input |
| Solutions.TopFromSorted | lib/mcmc/engine.ts:174-184 | the dedup loop keeps the input's order, so its output is sorted when the input is |
| Solutions.TopFromKeys | lib/mcmc/engine.ts:174-184 | the kept keys are new and pairwise distinct |
| Solutions.TopFromBound | lib/mcmc/engine.ts:177-182 | the bound is checked after the push, so at most max(k - taken, 1) solutions are kept |
| Solutions.TopFromComplete | lib/mcmc/engine.ts:174-184 | unless the bound stopped the loop, every key of the input is among the seen or kept keys |
| Solutions.TopFromBest | lib/mcmc/engine.ts:168-184 | on a sorted input, every kept solution scores no more than any solution with the same key |
| Solutions.TopFromFirst | lib/mcmc/engine.ts:174-184 | every kept solution is the first element of the input with its key: no earlier element has the same key |
| Solutions.TopMembers | lib/mcmc/engine.ts:153-187 | every returned solution is a sampled triple |
| Solutions.TopOrder | lib/mcmc/engine.ts:153-187 | the result is in ascending score order, with pairwise-distinct keys and id sequences |
| Solutions.TopBest | lib/mcmc/engine.ts:168-184 | each returned solution is a best-scoring occurrence of its key |
| Solutions.TopSize | lib/mcmc/engine.ts:177-182 | at most max(k, 1) solutions; exactly one when k <= 0 and there is a sample; fewer only when every sampled key is represented |
| Solutions.TopFacts | lib/mcmc/engine.ts:153-187 | all of the extractor's guarantees together |
| Solutions.TopFirst | lib/mcmc/engine.ts:153-187 | every returned solution is the first of its key in the sorted list, and that list keeps every score's solutions in the order the chains were collected; this decides which of two equal-score solutions is returned, and under which chainId a repeated sequence is reported |
| Solutions.SampledTwiceReturnedOnce | lib/mcmc/engine.ts:172-183 | a sequence sampled by several chains, or several times, is returned at most once: two positions of the result with the same sequence are the same position |
| Solutions.TopFromSkip | lib/mcmc/engine.ts:176-177 | (proof step) an iteration of the dedup loop skips a seen key |
| Solutions.TopFromKeep | lib/mcmc/engine.ts:176-182 | (proof step) an iteration with a new key pushes the solution, and the loop stops when k are kept |
| Solutions.CollectSolutions | lib/mcmc/engine.ts:154-165 | the nested forEach loops collect every sample of every chain, chain by chain |
| Solutions.KeepUnique | lib/mcmc/engine.ts:171-186 | the dedup loop, with its `break`, returns what the dedup specification keeps |
| Solutions.ExtractTopSolutions | lib/mcmc/engine.ts:153-187 | collect, sort and dedup give the extractor's result, with k defaulting to 5 |
| Worker.CalculateObjective | public/mcmc-worker.js:9-47 | the worker's evaluator returns the library's score and estimated time for every sequence |
| Worker.StopsAgree | public/mcmc-worker.js:194-202 | past burnIn + 50 the window is never empty, so the worker's guarded stop test equals the engine's |
| Worker.WorkerStopsGuarded | public/mcmc-worker.js:194-202 | `WorkerStops`: the worker stops only when the engine would; the two tests differ only on an empty window, and never stop with no scores |
| Worker.WorkerAgrees | public/mcmc-worker.js:144-216 | given the same draws, the worker's loop ends in the engine's state |
| Worker.IterationsOfAppend | public/mcmc-worker.js:182-191 | the progress iterations of two message lists concatenate |
| Worker.ProgressAtIterations | public/mcmc-worker.js:183 | (proof step) an iteration posts progress exactly when it is a multiple of 10 |
| Worker.ProgressAtShape | public/mcmc-worker.js:182-191 | `ProgressAt`: a multiple of 10 posts one message, any other iteration none; the message is a progress message of its chain, iteration and score, whose rate times (iter + 1) is acceptedMoves |
| Worker.ProgressPrefix | public/mcmc-worker.js:159-203 | the posted iterations are the first of the multiples of 10 in [0, iterations) |
| Worker.ProgressComplete | public/mcmc-worker.js:159-203 | without a threshold, every multiple of 10 in [0, iterations) is posted, in order |
| Worker.EndBounds | public/mcmc-worker.js:159-203 | the loop's end is within its budget; it ends before the budget only with a threshold set and past iteration burnIn + 50; without a threshold it runs the whole budget |
| Worker.ProgressExact | public/mcmc-worker.js:182-203 | the posted iterations are exactly the multiples of 10 among the iterations the loop runs, the one that breaks the loop included, in order, for every configuration |
| Worker.ExactStops | public/mcmc-worker.js:182-203 | (proof step) the iteration that breaks the loop posts exactly the multiple of 10 it may be |
| Worker.ExactContinues | public/mcmc-worker.js:182-203 | (proof step) an iteration that does not break posts its multiple of 10 in front of what the rest of the loop posts |
| Worker.EndStep | public/mcmc-worker.js:193-203 | (proof step) one iteration of the loop either breaks, ending the loop after it, or leaves the end to the rest of the loop |
| Worker.ProgressCadence | public/mcmc-worker.js:182-203 | progress is posted exactly on the multiples of 10 among the iterations the loop runs (up to `EndOf`), for every configuration; these are a prefix of the multiples of 10 in [0, iterations), all of them without a threshold |
| Worker.RateInUnit | public/mcmc-worker.js:189 | acceptedMoves / (iter + 1) lies in [0, 1] |
| Worker.ProgressRates | public/mcmc-worker.js:182-191 | the loop posts only progress messages of its own chain, each with a rate in [0, 1] |
| Worker.WorkerStep | public/mcmc-worker.js:159-203 | (proof step) one iteration posts its progress and then stops or continues |
| Worker.Iterate | public/mcmc-worker.js:160-180 | the worker's loop body, with the temperature read before the loop, is the engine's `Advance` step |
| Worker.PostProgress | public/mcmc-worker.js:182-191 | appends the progress message of a multiple of 10, with rate acceptedMoves / (iter + 1) |
| Worker.Converged | public/mcmc-worker.js:194-202 | the guarded stop test |
| Worker.RunIterations | public/mcmc-worker.js:156-203 | the worker's loop ends in the state and with the messages `WorkerRunFrom` describes |
| Worker.RunMCMCChain | public/mcmc-worker.js:144-216 | the worker returns the engine's chain state for the same draws, and the progress messages of its loop |
| Worker.Throws | public/mcmc-worker.js:225-236 | an absent configuration always makes the run throw; with a configuration, present tasks or chain 0 never do |
| Worker.OnMessage | public/mcmc-worker.js:221-238 | the handler posts what `Posted` describes |
| Worker.PostedShape | public/mcmc-worker.js:221-238 | a 'start' message yields progress messages of its chain, then exactly one 'complete' carrying the engine's chain state, or exactly one 'error', the error exactly when the run throws; any other message yields nothing |

## Left out

- Random draws: `Math.random` and its distributions are not modelled. This covers the 0.5 / 0.3 / 0.2 strategy weights, uniform indices and the uniform shuffle. The draws are parameters, and `DrawFits`, `ShuffleFits` and `StepsFit` bound them to the ranges that `Math.floor(Math.random() * n)` produces. No probabilistic claim is made.
- Proposal.SwapRandomTasks: the retry loop `while (j === i && len > 1)` is replaced by the precondition that i and j differ when the array has two or more elements. The loop's termination is a matter of probability.
- The acceptance rule: `Math.exp` and floating-point division are not modelled. The model uses the exact fact that min(1, exp(-(d)/t)) equals 1 exactly when d * t <= 0. In that case the draw is always below it. Otherwise the `accept` boolean draw decides. The free draw over-approximates the source: in doubles `Math.exp` returns 0 once d/t exceeds about 745, for example a new dependency violation (d >= 1000) at temperature 1.0, and `Math.random() < 0` is then always false. The model still lets such a draw accept. Every property proved holds for all draws, so it holds for the source's as well.
- Engine.NonWorseningAccepted: requires a positive temperature. A negative configured temperature is truthy and is used as it is, and then a strictly better proposal is not certain to be accepted.
- The Gelman-Rubin estimate: the numeric body of `calculateGelmanRubin` (lib/mcmc/engine.ts:126-147) is floating-point variance and `Math.sqrt`. It is returned as the opaque `Estimated`. Only the two guard branches are modelled.
- Engine.GelmanRubin: states only that each guard returns its value, not that 1.0 and Infinity come only from the guards. `Estimated` also stands for the estimate's own special values. Infinity comes back when every chain's scores are constant but the chain means differ (W = 0 < V). NaN comes back when there is one sample per chain (0 / 0 in the variance) or when W = V = 0. Exactly 1.0 comes back when V equals W.
- Progress transport:
  - `onProgress` in lib/mcmc/engine.ts:57-66 is not modelled; it is an optional callback with no effect on the returned state;
  - `self.postMessage` in the worker is modelled as an appended list of messages;
  - thread scheduling is left out.
- Error texts: the text of a caught error (`error.message`) is not modelled. Only the fact that an 'error' message is posted is.
- Run-time faults: the handler models the two faults its inputs can cause:
  - an absent `config`;
  - an absent `tasks` on a chain other than 0 (the shuffle spreads `undefined`).

  An absent `tasks` on chain 0 reaches `new Set(undefined)`, which is empty, and is modelled as the empty list. Other faults need non-task data or a non-numeric `chainId` and are left out.
- Numbers: numbers are JavaScript doubles in the source. Durations are modelled as `nat`, scores as `int`, and `iterations`, `burnIn`, `numChains` and the extractor's `k` as `int`, so negative counts are modelled (for example, `numChains <= 0` gives no chains). Negative durations are left out, and so are fractional, NaN or infinite durations and counts. So is the float rounding of very large sums, since the model's integers are unbounded.
- Solutions.Paired: samples and scores of every chain must have equal length. Every chain the engine returns satisfies this (`Engine.ChainFacts`). A hand-made state with unpaired arrays would give `undefined` scores, which are not modelled.
- Proposal.InitializeGreedySequence: requires distinct ids, and so does every runner that calls it. `new Set(tasks)` works on object identity. With distinct ids no object occurs twice, and the set's order is the input order. An input holding the same task object twice is not covered.
- The dedup key: the key is modelled literally as the ids joined by ','. `Solutions.JoinInjective` proves that it identifies the id list when no id contains a comma. `Solutions.CommaCollision` exhibits two different lists with the same key when ids do contain commas.
- The worker's proposal helpers and initialisers (public/mcmc-worker.js:52-139) are the library's definitions line for line. The worker's runner therefore calls the `Proposal` methods rather than a second copy of them.
- Option defaults: `k = 5` in the extractor is the `DefaultCount` default parameter. Chain ids in the handler are integers; an absent `chainId` is not modelled.
