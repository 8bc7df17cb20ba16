# Game-balance calibrator and decision log, in Dafny

This project models three parts of a narrative business game.

1. The **game-balance calibrator** (`probability_scoring_updated.py`). It
   simulates players who collect scores on knowledge components (KCs)
   chapter by chapter. A genetic algorithm then searches, for each game
   metric, for a win threshold ("goal") and one weight per KC. The aim is
   that the share of simulated players whose weighted score reaches the goal
   is close to 0 %, 65 % and 85 % after chapters 1, 2 and 3.
2. The **decision log page** (`app/dashboard/log/page.tsx`). It turns the KC
   impacts of one choice into per-metric changes (`calculateMetricChange`),
   groups KC→metric effect rows and the player's history records, toggles a
   scenario card, and counts the locked cards.
3. The **decision progress bar** (`components/DecisionProgressBar.tsx`). It
   gives each step the status completed, current or upcoming.

Files and modules:

- `scoring_config.dfy` (`ScoringConfig`): the KC→metrics table, `ALL_KCS`,
  and the weight and goal ranges.
- `journey_simulator.dfy` (`JourneySimulator`): payloads, the payload pool,
  and the per-player running KC totals snapshotted once per chapter.
- `individuals.dfy` (`Individuals`): candidates as the class `Individual`
  and their value `Genome`; random creation, crossover, and in-place
  mutation.
- `fitness.dfy` (`FitnessEvaluator`): chapter scores, win shares, and the
  weighted squared error.
- `genetic_search.dfy` (`GeneticSearch`): the stable ranking by error,
  elitism, breeding from the better half, and tracking of the best
  candidate ever seen.
- `metric_change.dfy` (`MetricChange`) and `key_sort.dfy` (`KeySort`):
  `calculateMetricChange`, including its stable sort by `METRIC_SORT_ORDER`.
- `log_page.dfy` (`LogPage`): the `kcIdToMetricIds` grouping, the history
  grouping, `toggleScenario`, and the locked cards.
- `decision_progress_bar.dfy` (`DecisionProgressBar`): step statuses.
- `folds.dfy` (`Wrappers`, `Folds`, `Tallies`): sums, first-appearance order,
  and insertion-ordered running totals. This is the shape of a Python
  `defaultdict(float)` or a JavaScript `Map` that a loop adds into.

Numbers are Dafny `real`s. Every random draw is an argument:

- `random.random()` is a unit draw in [0, 1).
- `random.uniform(a, b)` is `a + (b - a) * u` for a unit draw `u`.
- `random.sample` and `random.choice` become the indices they pick.
- `random.choices` becomes the count it picks.
- `np.random.triangular` becomes the (already rounded) score it returns.

Each operator is therefore deterministic in its draws. The functions on
values (`Genome`, `Tally`, sequences) are the specifications. The methods
that follow the source's loops and in-place updates are proved equal to
them.

## Model

| member | source | states |
|---|---|---|
| ScoringConfig.AllKcsComplete | probability_scoring_updated.py:9-18 | `ALL_KCS` lists every one of the fifteen KCs of the table, each exactly once |
| ScoringConfig.WeightRange | probability_scoring_updated.py:24-30 | the weight range of every metric is a well-formed interval (min ≤ max) |
| ScoringConfig.GoalRange | probability_scoring_updated.py:31-37 | the goal range of every metric is a well-formed interval (min ≤ max) |
| ScoringConfig.KcsForSpec | probability_scoring_updated.py:97 | `kcs_for_metric` lists each KC at most once, and a KC is listed exactly when its metric list names the metric |
| ScoringConfig.KcSetForSpec | probability_scoring_updated.py:97 | the weight-key set of a metric holds a KC exactly when the KC's metric list names that metric |
| JourneySimulator.GeneratePayload | probability_scoring_updated.py:41-58 | a payload has 1, 2 or 3 items on pairwise distinct KCs of `ALL_KCS`, each score in [-1, 1], item i naming the i-th sampled KC |
| JourneySimulator.GeneratePool | probability_scoring_updated.py:69 | the pool holds one valid payload per draw |
| JourneySimulator.PrecomputeJourneys | probability_scoring_updated.py:60-86 | one journey per player, each with exactly `num_chapters` snapshots; snapshot c of player p is the running total after chapters 0..c |
| JourneySimulator.SimulatePlayer | probability_scoring_updated.py:73-83 | one snapshot per chapter, each equal to the totals of every item drawn up to that chapter; an appended snapshot is never changed by later accumulation |
| JourneySimulator.PlayChapter | probability_scoring_updated.py:78-81 | a chapter adds the items of the picked payloads, in order, to the running totals |
| JourneySimulator.SnapshotContents | probability_scoring_updated.py:73-82 | snapshot c holds exactly the KCs some payload of chapters 0..c touched, each with the sum of all the scores it received |
| JourneySimulator.SnapshotStep | probability_scoring_updated.py:77-82 | snapshot c + 1 is snapshot c plus chapter c + 1's items, so no KC seen by chapter c disappears later |
| Individuals.Uniform | probability_scoring_updated.py:94 | `random.uniform(a, b)` lies in [a, b] |
| Individuals.Clamp | probability_scoring_updated.py:170 | `max(lo, min(x, hi))` lies in [lo, hi] and leaves an in-range x unchanged |
| Individuals.RandomWeightsSpec | probability_scoring_updated.py:99-102 | the drawn weights have exactly the listed KCs as keys, each value in the weight range |
| Individuals.RandomGenomeValid | probability_scoring_updated.py:90-104 | a new individual for m has weight keys exactly {kc \| m in its metric list}, its goal in `GOAL_RANGES[m]` and every weight in `WEIGHT_RANGES[m]` |
| Individuals.Individual.Random | probability_scoring_updated.py:90-104 | building an individual draws the goal, then one weight per KC of the metric in table order |
| Individuals.Individual.DrawWeights | probability_scoring_updated.py:101-102 | the weight loop assigns one uniform draw per KC, in order |
| Individuals.CrossoverGenes | probability_scoring_updated.py:148-161 | parents with the same key set give a child with that key set |
| Individuals.CrossoverValid | probability_scoring_updated.py:153-159 | two in-bounds parents give an in-bounds child with the same key set; crossover is symmetric in its parents |
| Individuals.Individual.Crossover | probability_scoring_updated.py:148-161 | a new object whose goal and weights are the parents' means |
| Individuals.MutateGene | probability_scoring_updated.py:166-170 | a gene whose roll is below the rate ends clamped into its range; any other gene is unchanged; an in-range gene stays in range |
| Individuals.MutateGenes | probability_scoring_updated.py:163-180 | mutation never adds or removes weight keys |
| Individuals.MutateValid | probability_scoring_updated.py:163-180 | whatever the draws, a mutated in-bounds candidate is still in bounds with the same keys |
| Individuals.Individual.Mutate | probability_scoring_updated.py:163-180 | mutation updates this same object in place, to the genome `MutateGenes` gives for its old genome |
| FitnessEvaluator.ScoreSnapshot | probability_scoring_updated.py:124-128 | the inner loop adds score × weight for each snapshot KC that has a weight |
| FitnessEvaluator.NoWeightsScoreZero | probability_scoring_updated.py:124-128 | with an empty weights map the metric score is 0 |
| FitnessEvaluator.ScoreOfItems | probability_scoring_updated.py:121-128 | the score of accumulated totals is the sum, over every item received, of score × weight |
| FitnessEvaluator.ScoreOrderIndependent | probability_scoring_updated.py:121-128 | a chapter's score does not depend on the order the items came in |
| FitnessEvaluator.SnapshotScore | probability_scoring_updated.py:121-128 | the score of simulated snapshot c is the weighted sum of every item drawn in chapters 0..c |
| FitnessEvaluator.ScoreTable | probability_scoring_updated.py:119-128 | one row of three chapter scores per player |
| FitnessEvaluator.CountWins | probability_scoring_updated.py:131-135 | the wins of a chapter are the players whose score is ≥ the goal |
| FitnessEvaluator.WinsCount | probability_scoring_updated.py:131-135 | the win count is the number of true entries of the `has_won_by_chapter` column |
| FitnessEvaluator.WinsAntitone | probability_scoring_updated.py:131 | raising the goal never increases the number of winners |
| FitnessEvaluator.WinsAll | probability_scoring_updated.py:131-135 | when every score reaches the goal, every player wins |
| FitnessEvaluator.WinsNone | probability_scoring_updated.py:131-135 | when every score stays below the goal, nobody wins |
| FitnessEvaluator.WinFraction | probability_scoring_updated.py:137 | a chapter's win share lies in [0, 1] |
| FitnessEvaluator.WinPct | probability_scoring_updated.py:131-137 | the shares form a vector of exactly three entries, each in [0, 1], each chapter computed on its own |
| FitnessEvaluator.AllAtGoalWin | probability_scoring_updated.py:131-137 | players whose score equals the goal in every chapter give shares [1, 1, 1] (≥ counts as a win) |
| FitnessEvaluator.NoWeightsNoWins | probability_scoring_updated.py:124-137 | an empty weights map and a positive goal give shares [0, 0, 0] |
| FitnessEvaluator.ErrorZeroIff | probability_scoring_updated.py:140-144 | the error (5·w1)² + (w2 − 0.65)² + (w3 − 0.85)² is ≥ 0, and it is 0 exactly when the shares are [0, 0.65, 0.85] |
| FitnessEvaluator.ErrorBound | probability_scoring_updated.py:140-144 | for shares in [0, 1] the error is at most 26.145 |
| FitnessEvaluator.FitnessRange | probability_scoring_updated.py:106-146 | every fitness error lies in [0, 26.145] and is 0 exactly on target |
| FitnessEvaluator.SimulatedJourneysScorable | probability_scoring_updated.py:240-245 | the journeys the simulator returns, with at least three chapters, meet what the fitness and the search require of their input |
| FitnessEvaluator.CalculateFitness | probability_scoring_updated.py:106-146 | `calculate_fitness` returns the error and win shares that `FitnessOf` specifies |
| GeneticSearch.RankedSpec | probability_scoring_updated.py:204 | the ranking is a permutation of the positions, sorted by error, with ties in their original order (stable `sorted`) |
| GeneticSearch.RankedFirstIsLeast | probability_scoring_updated.py:204-209 | the head of the ranking has the least error of the population |
| GeneticSearch.RankedPrefixBest | probability_scoring_updated.py:215-219 | every candidate in the top t of the ranking has an error no larger than any candidate outside it |
| GeneticSearch.ChildOf | probability_scoring_updated.py:224-225 | crossover and then mutation of two valid parents give a valid child |
| GeneticSearch.NextGenomes | probability_scoring_updated.py:212-228 | the next population has exactly `POPULATION_SIZE` members, all valid for the metric |
| GeneticSearch.NextGenomesSpec | probability_scoring_updated.py:214-226 | its first `ELITISM_COUNT` members are the best-ranked candidates unchanged; each later member is the child of two distinct parents from the top `POPULATION_SIZE // 2` |
| GeneticSearch.Elitism | probability_scoring_updated.py:214-216 | the next population opens with `ELITISM_COUNT` members of the current one, in increasing order of error, none with a larger error than any current member not carried over |
| GeneticSearch.BestNeverWorsens | probability_scoring_updated.py:214-216 | the first member of the next population has an error no larger than any member of the current one |
| GeneticSearch.SelectionFromTop | probability_scoring_updated.py:215-223 | elites and both parents of every child have errors no larger than any candidate outside the parent pool |
| GeneticSearch.InitialGenomesValid | probability_scoring_updated.py:195 | the initial population has `POPULATION_SIZE` members, all valid for the metric |
| GeneticSearch.CreatePopulation | probability_scoring_updated.py:195 | one new individual per draw, each holding the genome its draw gives |
| GeneticSearch.EvaluatePopulation | probability_scoring_updated.py:202 | one error per individual, in population order |
| GeneticSearch.Breed | probability_scoring_updated.py:224-225 | a new child whose genome is the mutated crossover of its parents; the parents are not modified |
| GeneticSearch.BreedChildren | probability_scoring_updated.py:222-226 | the breeding loop adds one new child per draw, from the parent-pool positions the draw names |
| GeneticSearch.NextGeneration | probability_scoring_updated.py:212-228 | the elites are the same objects as the top-ranked individuals (no object is modified), and every other member is new |
| GeneticSearch.BestGenerationSpec | probability_scoring_updated.py:206-209 | the kept generation has the least error of all generations and a strictly smaller error than every earlier one (ties keep the earliest) |
| GeneticSearch.BestGenerationStep | probability_scoring_updated.py:207-209 | a new generation replaces the kept best only when its least error is strictly smaller |
| GeneticSearch.KeepsBest | probability_scoring_updated.py:197-209 | the best error kept is ≤ the error of every candidate ever evaluated, and it is the error of the kept leader |
| GeneticSearch.Generation | probability_scoring_updated.py:202-228 | one loop pass reports the head of the ranking and its error, and breeds the next population with the elites carried by reference |
| GeneticSearch.Evolve | probability_scoring_updated.py:200-228 | the generation loop runs `GENERATIONS` times and keeps the leader of the generation `BestGeneration` picks |
| GeneticSearch.RunGeneticAlgorithm | probability_scoring_updated.py:182-233 | returns the best individual ever evaluated, with its error and shares recomputed; that error is the least over the whole run |
| MetricChange.SumKcScores | app/dashboard/log/page.tsx:79-82 | `totalKcScores` is the tally of the impact scores per KC identifier, in first-appearance order |
| MetricChange.AddMetricChanges | app/dashboard/log/page.tsx:89-104 | the inner loop adds one change per named metric id of the KC, and skips ids without a name |
| MetricChange.AddKcChanges | app/dashboard/log/page.tsx:84-104 | a KC with no id (or id 0) or no metric list adds nothing |
| MetricChange.SumMetricChanges | app/dashboard/log/page.tsx:83-105 | `cumulativeChanges` is the tally of every KC's metric changes, taken in `totalKcScores` order |
| MetricChange.Summarize | app/dashboard/log/page.tsx:108-111 | one summary line per accumulated metric, in accumulation order |
| MetricChange.CalculateMetricChange | app/dashboard/log/page.tsx:76-117 | `calculateMetricChange` returns what `MetricChangeOf` specifies |
| MetricChange.RawMetricChangeAdditive | app/dashboard/log/page.tsx:92-102 | the per-metric conversion is additive in the KC score and maps 0 to 0, so summing per KC first loses nothing |
| MetricChange.MetricChangeLines | app/dashboard/log/page.tsx:83-111 | the lines are, up to order, exactly one line per distinct metric that received a contribution (as a multiset, so two metrics that display alike still give two lines); each line has the display name, icon and unit, and the rounded sum of every contribution to that metric |
| MetricChange.TallyLines | app/dashboard/log/page.tsx:104-111 | before the sort, the summary lists the line of each contributed metric once, in order of its first contribution |
| MetricChange.MetricChangeOrderIndependent | app/dashboard/log/page.tsx:79-111 | reordering the impacts changes neither the per-metric totals nor the multiset of summary lines |
| MetricChange.SilentImpactIgnored | app/dashboard/log/page.tsx:85-88 | an impact on a KC with no id, id 0, or no metric list leaves the summary unchanged |
| MetricChange.NoImpactsNoChange | app/dashboard/log/page.tsx:76-117 | no impacts give an empty summary |
| MetricChange.Round2Close | app/dashboard/log/page.tsx:110 | the rounded change is within 0.005 of the exact change |
| MetricChange.Round2Hundredths | app/dashboard/log/page.tsx:110 | rounding keeps a value that already has two decimals |
| MetricChange.IndexOf | app/dashboard/log/page.tsx:113-114 | `indexOf` gives the first position of the name, or −1 exactly when the name is not listed |
| MetricChange.SortSummarySpec | app/dashboard/log/page.tsx:112-116 | the sort orders the lines by `METRIC_SORT_ORDER` position (unlisted names, at −1, first), keeps lines with equal positions in their order, and neither loses nor adds a line |
| Tallies.TallyOfSpec | app/dashboard/log/page.tsx:80-82 | a running-total map lists each key once, in first-appearance order, with the sum of that key's amounts |
| Tallies.TallyPermutation | app/dashboard/log/page.tsx:80-82 | reordering the inputs leaves the totals and the set of keys unchanged |
| LogPage.GroupEffects | app/dashboard/log/page.tsx:65-71 | `kcIdToMetricIds` has a key for exactly the KC ids with effect rows, each mapped to its rows' metric ids in row order |
| LogPage.MetricIdsSpec | app/dashboard/log/page.tsx:65-71 | a KC's list holds exactly the metric ids of the effect rows for that KC |
| LogPage.GroupHistory | app/dashboard/log/page.tsx:277-283 | the grouping loop followed by `Array.from(scenariosMap.values())` gives `History` |
| LogPage.ScenarioNumbersSpec | app/dashboard/log/page.tsx:279 | the kept scenario numbers are those of records whose scenario and decision numbers are both present and non-zero |
| LogPage.DecisionsInSpec | app/dashboard/log/page.tsx:279-281 | a scenario's decisions are exactly the kept records with its number, none of them numbered 0 |
| LogPage.HistoryScenarios | app/dashboard/log/page.tsx:277-283 | each kept scenario number appears exactly once, and every listed scenario has at least one decision |
| LogPage.HistoryKeepsEveryDecision | app/dashboard/log/page.tsx:277-283 | the scenarios together hold exactly one decision per kept record |
| LogPage.Toggle | app/dashboard/log/page.tsx:259-261 | `toggleScenario(n)` flips whether n is expanded and leaves every other card as it was |
| LogPage.ToggleTwice | app/dashboard/log/page.tsx:259-261 | toggling the same card twice restores the original set |
| LogPage.LockedCards | app/dashboard/log/page.tsx:318-319 | 3 − played locked cards while the goal is open and fewer than 3 scenarios are played, and none otherwise |
| LogPage.LockedCardsSpec | app/dashboard/log/page.tsx:318-319 | the locked cards are numbered played + 1 .. 3, increasing, each once |
| DecisionProgressBar.Statuses | components/DecisionProgressBar.tsx:44-61 | one status per step |
| DecisionProgressBar.StatusesSpec | components/DecisionProgressBar.tsx:48-54 | a step is completed iff index < currentStep − 1, current iff index = currentStep − 1, and upcoming otherwise |
| DecisionProgressBar.StatusesMonotone | components/DecisionProgressBar.tsx:48-54 | completed steps come before the current one, which comes before the upcoming ones |
| DecisionProgressBar.StatusCounts | components/DecisionProgressBar.tsx:44-55 | exactly one step is current iff 1 ≤ currentStep ≤ number of steps; min(max(currentStep − 1, 0), number of steps) are completed; the rest are upcoming |
| DecisionProgressBar.DefaultBar | components/DecisionProgressBar.tsx:30-40 | with the default props (current step 1; Decision 1..3 and MCQ), step 0 is current and the others are upcoming |

## Left out

- Random sampling (`random.choices`, `random.sample`, `random.choice`, `np.random.triangular`, `random.uniform`, `random.random`): the draws are arguments constrained only by what each source guarantees. Distribution claims cannot be stated, such as the 0.4 / 0.5 / 0.1 count weights, the mode 0.6, or the 10 % mutation chance.
- `round(score, 2)` in payload generation: the model takes the score already rounded, as a real in [-1, 1].
- Floating point: every number is an exact real. Rounding error, `inf` and `NaN` are not modelled. The initial `float('inf')` best error is modelled as "no best yet".
- Progress bars, printing, and the `__main__` report and driver over all metrics: these are presentation only.
- FitnessEvaluator.CalculateFitness: requires at least one player; with none, numpy divides by zero and returns NaN shares.
- FitnessEvaluator.CalculateFitness: requires journeys of at least three chapters; with fewer, the source raises an IndexError.
- Individuals.CrossoverGenes: requires parents with the same key set. With different key sets the source raises a KeyError. Candidates of one metric always share their key set.
- GeneticSearch.ValidChildDraw: the two parent positions are distinct and below `POPULATION_SIZE // 2` (50). This is what `random.sample` guarantees; with the fixed constants the pool is never too small for it.
- Individuals.Individual.Mutate: visits the weight keys in an arbitrary order rather than dictionary order. The result is the same, because each key has its own draws.
- `calculateMetricChange` on `null` inputs (`if (!kcImpacts || !definitions) return []`): the model's inputs are never null.
- MetricChange.Round2: models `parseFloat(x.toFixed(2))` as exact rounding half away from zero. `toFixed` on binary doubles can differ at exact halves.
- Display names, icons and units are looked up in fixed tables. JavaScript's object-prototype keys (a metric named `constructor`, say) are not modelled.
- The Supabase queries of `getCalculationDefinitions` and `fetchLogData`, React state and effects, and all JSX: these are I/O and UI. The lookup maps are inputs; only the `kcIdToMetricIds` loop is modelled.
- DecisionProgressBar.StepStatus: `currentStep` is an integer here. The TypeScript `number` could be fractional, in which case no step is current.
- The API routes, the zod schemas, the other pages, and the widgets' display clamps are not part of this model.
