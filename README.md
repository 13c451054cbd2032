# Job scheduling: genetic algorithm and evaluator, modelled in Dafny

This project models the core of a small job-scheduling solver.
- **Problem.** A problem is a list of jobs and a list of resources.
- **Jobs.** Each job has an id, a processing time and at most one job it depends on.
- **Resources.** Each resource has an id and a capacity, the total processing time it may take.
- **Schedules.** A schedule assigns every job, in order, to a resource.

The model covers four parts of the source.
- **The records.** `Job` and `Resource`, their constructors, and the strings they print as.
- **The genetic algorithm.** Random schedules, the validity check, the makespan, fitness, one-point crossover, mutation, the choice of the fittest fifth as parents, and the generation loop of `evolve`, which keeps the best schedule seen.
- **The evaluator.** It prints a schedule as a timeline, reads the total time span back from that text, and gives a verdict per run: 0 when backtracking wins, 1 when the genetic algorithm wins, 2 for a tie.
- **Python built-ins.** The few the code relies on: `str(int)`, `int(str)`, `str.split`, `in` on strings, and `max`.

Files (one module each):

| file | module | models |
|---|---|---|
| `builtins.dfy` | `Builtins` | `Option`, `Result`, `str`/`int` on integers, `split`, `in`, `max` |
| `models.dfy` | `Models` | `Job`, `Resource`, their constructors, `__str__` and `__repr__` |
| `schedules.dfy` | `Schedules` | problems, assignments, schedules, dependency chains |
| `genetic_fitness.dfy` | `GeneticFitness` | `is_valid_schedule`, `get_job_end_time`, `calculate_makespan`, `fitness` |
| `genetic_search.dfy` | `GeneticSearch` | random schedules, crossover, mutation, parent selection, class `GeneticAlgorithm` |
| `evaluator.dfy` | `Evaluator` | `get_schedule_representation`, `extract_total_time_span`, the verdicts, class `SchedulerEvaluator` |

The modelling choices follow the source's own form.
- **Loops become methods.** Most loops in the source are a `method` proved against a specification function:
  - `IsValidSchedule` against `ValidSchedule`, and `CalculateMakespan` against `Makespan`;
  - `GenerateRandomSchedule` against `IsRandomSchedule`, and the offspring loop `BreedOffspring` against `Offspring`;
  - `GetScheduleRepresentation` against `Representation`, and `EvaluatePerformance` against `Classify`.
- **Two loops are specified by the state they leave.**
  - `InitializePopulation` appends one random schedule per draw vector.
  - `Evolve` returns, as ghost results, the population its loop starts from (`initial`), every population the loop produces and the best schedule after each generation. `initial` is the old population followed by one random schedule per draw vector. The first population is bred from `initial` and each later one from the one before, by `NextPopulation` with that generation's draws. Each best is the one before updated by `NewBest`, so it is the best held before the loop or a member of a population produced so far.
- **One loop is a recursive function.** The search loop inside `get_job_end_time` (algorithms/genetic_algorithm.py:68-73) is `FirstWithId`. `get_job_end_time` itself recurses along dependencies, so it is the recursive function `GetJobEndTime`.
- **Objects with mutable state become classes.** `GeneticAlgorithm` and `SchedulerEvaluator` are classes whose methods update their fields.
- **Pure code becomes functions.** Crossover, mutation, sorting and the read-back of text are functions.
- **Randomness becomes parameters.** Every `random` call is a value the caller passes in.
  - `random.choice` becomes a resource index per job.
  - `random.randint` becomes a cut point or a job index.
  - `random.sample(parents, 2)` becomes two distinct parent indices.
  - The two `random.random() < p` tests become optional crossover and mutation draws in a `PairDraw`.

The model shows several behaviours of the code as written.
- **The makespan double-counts a dependency.** `calculate_makespan` asks `get_job_end_time` for a dependency's end. That function recomputes the end from the resource's *current* occupancy, so a dependency already walked on the same resource is counted twice.
  - `MakespanDoubleCounts`: J1 (3) then J2 (1, after J1) on one resource has makespan 7.
  - `SpanDisagreesWithMakespan`: the evaluator times the same schedule at 4.
- **The evaluator's capacity rule is stricter.** It compares the resource's current *end time* with the capacity, not its accumulated load. With non-negative processing times it therefore rejects every schedule the genetic validity check rejects for capacity (`EvaluatorCheckIsStricter`), and some that check accepts (`EvaluatorRejectsWhatFitnessAccepts`).
- **A dead clause in the evaluator.** Its second rejection clause, a dependency ending after the job's start, can never hold, because the start is taken as at least that end.
- **The validity check only looks for presence.** `is_valid_schedule` only checks that a job's dependency appears somewhere in the schedule, before or after the job.
- **The population is filled twice.** `run_algorithms` calls `initialize_population` and then `evolve`, which calls it again. The population is never cleared, so a default run starts `evolve` with 100 schedules, and selection keeps the 10 fittest of them.
- **The `Job` constructor checks nothing.** The repository's tests expect `Job(1, 0, None)`, `Job(1, -1, None)` and `Job(1, 5, 1)` to raise `ValueError` (test_scheduling.py:37-48). The code stores the arguments unchecked, and the model follows the code.

## Model

| member | source | states |
|---|---|---|
| Models.NewJob | models/job.py:2-5 | the job holds exactly the given id, processing time and dependency, which defaults to none; nothing is rejected |
| Models.JobToString | models/job.py:7-8 | the text starts with `Job ` and ends with the closing parenthesis |
| Models.JobToStringRoundTrip | models/job.py:7-8 | the `__str__` text of a job determines the job: parsing it back gives the same id, processing time and dependency |
| Models.NewResource | models/resource.py:10-25 | construction succeeds exactly when the capacity is positive and then stores both arguments; otherwise it raises with the capacity message |
| Models.ResourceToString | models/resource.py:27-29 | the text starts with `Resource ` and ends with the closing parenthesis |
| Models.ResourceToStringRoundTrip | models/resource.py:27-29 | the `__str__` text of a resource determines its id and capacity |
| Models.ResourceRepr | models/resource.py:31-33 | the text starts with `Resource(resource_id=` and ends with the closing parenthesis |
| Models.ResourceReprRoundTrip | models/resource.py:31-33 | the `__repr__` text of a resource determines its id and capacity |
| Builtins.IntToString | utils/scheduler_evaluator.py:54-55 | `str(n)` is non-empty and made of decimal digits, with at most a leading minus sign |
| Builtins.ParseInt | utils/scheduler_evaluator.py:70 | `int(s)` yields a number only when the text holds a digit, and a negative number only when it holds a minus sign |
| Builtins.ParseIntToString | utils/scheduler_evaluator.py:70 | `int(str(n)) == n` for every integer, so the end times printed by the evaluator read back unchanged |
| Builtins.Contains | utils/scheduler_evaluator.py:70 | `sub in s` holds exactly when `sub` occurs in `s` at some position |
| Builtins.Split | utils/scheduler_evaluator.py:67 | `s.split(sep)` always yields at least one piece |
| Builtins.SplitAbsent | utils/scheduler_evaluator.py:67 | text without the separator splits into the one piece that is the whole text |
| Builtins.SplitAfter | utils/scheduler_evaluator.py:67 | text whose first occurrence of the separator follows `pre` splits into `pre`, then the pieces of what follows the separator |
| Builtins.MaxOf | utils/scheduler_evaluator.py:76 | `max` of a non-empty list is an element of the list and no smaller than any element |
| Schedules.SelfChainNeverEnds | algorithms/genetic_algorithm.py:67-73 | a job that depends on itself sends the end-time recursion round forever: no recursion bound suffices |
| Schedules.SelfDependencyIsCyclic | algorithms/genetic_algorithm.py:67-73 | a job list with a self-dependent job is not acyclic, so the makespan is undefined for it |
| GeneticSearch.GeneticAlgorithm.constructor | algorithms/genetic_algorithm.py:4-11 | stores the problem, population size 50 and 100 generations by default, an empty population and no best schedule |
| GeneticSearch.GenerateRandomSchedule | algorithms/genetic_algorithm.py:18-26 | the schedule keeps the problem's jobs in order and gives job k the resource drawn for it |
| GeneticSearch.RandomScheduleConforms | algorithms/genetic_algorithm.py:18-26 | a random schedule uses exactly the problem's jobs and only its resources |
| GeneticSearch.ConformingScheduleIsReachable | algorithms/genetic_algorithm.py:18-26 | conversely, every such schedule is produced by some sequence of draws |
| GeneticSearch.GeneticAlgorithm.InitializePopulation | algorithms/genetic_algorithm.py:13-16 | appends one random schedule per draw vector, population-size many, after the existing members |
| GeneticFitness.IsScheduled | algorithms/genetic_algorithm.py:43-47 | the inner search is true exactly when some assignment carries the job id |
| GeneticFitness.IsValidSchedule | algorithms/genetic_algorithm.py:35-53 | true exactly when every job fits the capacity left by the jobs before it on its resource and every dependency appears in the schedule |
| GeneticFitness.LoneDependentJobIsInvalid | algorithms/genetic_algorithm.py:42-49 | a schedule whose only job depends on an absent job is invalid |
| Schedules.FirstWithId | algorithms/genetic_algorithm.py:68-73 | the position of the first job with the id, or none exactly when no job has it |
| GeneticFitness.GetJobEndTime | algorithms/genetic_algorithm.py:67-73 | 0 for a job not in the schedule; otherwise at least the job's resource occupancy plus its processing time, and at least the work along its dependency chain |
| GeneticFitness.MaxOccupancyIsMax | algorithms/genetic_algorithm.py:65 | `max(resource_occupancy.values())` is one resource's occupancy and no smaller than any other |
| GeneticFitness.CalculateMakespan | algorithms/genetic_algorithm.py:55-65 | the walk returns the largest occupancy over the problem's resources after every assignment has been timed |
| GeneticFitness.OccupancyNeverDecreases | algorithms/genetic_algorithm.py:58-63 | with non-negative processing times, no resource's occupancy falls along the walk |
| GeneticFitness.OccupancyCoversLoad | algorithms/genetic_algorithm.py:58-63 | after k steps each resource's occupancy is at least the processing time assigned to it so far |
| GeneticFitness.MakespanBounds | algorithms/genetic_algorithm.py:55-65 | the makespan is at least every resource's total load, and not negative for non-negative processing times |
| GeneticFitness.MakespanDoubleCounts | algorithms/genetic_algorithm.py:59-72 | J1 (3) then J2 (1, after J1) on one resource yields makespan 7, not 4: the dependency is counted twice |
| GeneticFitness.ScheduleFitness | algorithms/genetic_algorithm.py:28-33 | infinite exactly when the schedule is invalid; otherwise the makespan |
| GeneticFitness.EvaluateFitness | algorithms/genetic_algorithm.py:28-33 | the method computes that fitness |
| GeneticFitness.FitnessRanksValidFirst | algorithms/genetic_algorithm.py:28-33 | a valid schedule is strictly fitter than any invalid one, and its fitness bounds every resource's load |
| GeneticFitness.FitnessLeIsTotalPreorder | algorithms/genetic_algorithm.py:122 | comparing fitnesses, infinity included, is reflexive, total and transitive |
| GeneticSearch.Crossover | algorithms/genetic_algorithm.py:75-82 | for parents of equal length, child 1 takes parent 1 before the cut and parent 2 from it, and child 2 the reverse; both keep the parents' length |
| GeneticSearch.CrossoverSwaps | algorithms/genetic_algorithm.py:80-81 | at every position, the two children hold exactly the parents' two assignments |
| GeneticSearch.CrossoverConforms | algorithms/genetic_algorithm.py:75-82 | children of conforming parents conform to the problem |
| GeneticSearch.Mutate | algorithms/genetic_algorithm.py:84-89 | the drawn position gets the drawn resource; its job and every other position are unchanged |
| GeneticSearch.MutateConforms | algorithms/genetic_algorithm.py:84-89 | mutating a conforming schedule keeps it conforming |
| GeneticSearch.Insert | algorithms/genetic_algorithm.py:92 | inserting into the sorted list adds exactly that entry |
| GeneticSearch.SortByKeySorted | algorithms/genetic_algorithm.py:92 | the sort orders entries by fitness |
| GeneticSearch.SortedPopulation | algorithms/genetic_algorithm.py:92 | the sorted population has the population's length |
| GeneticSearch.SortedPopulationPairs | algorithms/genetic_algorithm.py:92 | each entry of the sorted population is a member paired with its own fitness |
| GeneticSearch.SortedPopulationUndecorates | algorithms/genetic_algorithm.py:92 | dropping the fitnesses from the sorted population gives the population back, up to order |
| GeneticSearch.SortedPopulationIsPermutation | algorithms/genetic_algorithm.py:92 | the sorted population is a permutation of the members with their fitnesses, in fitness order |
| GeneticSearch.ParentCount | algorithms/genetic_algorithm.py:93 | the slice keeps a fifth of the population size, or every member when there are fewer |
| GeneticSearch.SelectParents | algorithms/genetic_algorithm.py:91-93 | that many parents, each a member of the population |
| GeneticSearch.ParentsAreASelection | algorithms/genetic_algorithm.py:91-93 | the parents are a sub-multiset of the population: no member is chosen more often than it occurs |
| GeneticSearch.ParentsAreTheFittest | algorithms/genetic_algorithm.py:91-93 | the parents and the rest of the sorted population together are exactly the population, as multisets, and every parent is at least as fit as every member left out |
| GeneticSearch.FirstParentIsFittest | algorithms/genetic_algorithm.py:91-93 | the first parent is at least as fit as every member |
| GeneticSearch.PairsNeeded | algorithms/genetic_algorithm.py:102-116 | the loop runs until at least the wanted number of children exist, overshooting by at most one |
| GeneticSearch.MaybeMutate | algorithms/genetic_algorithm.py:110-114 | an optional mutation keeps a schedule conforming |
| GeneticSearch.Breed | algorithms/genetic_algorithm.py:103-116 | two children bred from conforming parents conform |
| GeneticSearch.Offspring | algorithms/genetic_algorithm.py:102-116 | two children per pair of draws, all conforming |
| GeneticSearch.BreedOffspring | algorithms/genetic_algorithm.py:100-116 | the loop produces exactly the offspring of the draws |
| GeneticSearch.NextPopulation | algorithms/genetic_algorithm.py:99-118 | the new population is back to at least the population size, and every member conforms |
| GeneticSearch.NextPopulationKeepsParents | algorithms/genetic_algorithm.py:118 | the new population starts with the selected parents |
| GeneticSearch.NextPopulationParts | algorithms/genetic_algorithm.py:99-118 | the new population is the selected parents, all conforming, followed by the offspring bred from them |
| GeneticSearch.GeneticAlgorithm.Reproduce | algorithms/genetic_algorithm.py:99-118 | the population becomes that new population; the best schedule is untouched |
| GeneticSearch.FirstMinIndex | algorithms/genetic_algorithm.py:120 | `min` with a key picks the first member whose fitness is least: no later one is fitter, every earlier one is strictly less fit |
| GeneticSearch.AtMostTheMinimum | algorithms/genetic_algorithm.py:120 | a schedule at least as fit as that minimum is at least as fit as every member |
| GeneticSearch.FirstFittest | algorithms/genetic_algorithm.py:120 | `min` returns a member of the population, which conforms |
| GeneticSearch.NewBest | algorithms/genetic_algorithm.py:120-123 | the updated best schedule conforms |
| GeneticSearch.NewBestIsFittest | algorithms/genetic_algorithm.py:120-123 | the new best is the old one or the population's first fittest member; it is at least as fit as every member and as the old best, and differs from the old best only when strictly fitter |
| GeneticSearch.GeneticAlgorithm.RecordBest | algorithms/genetic_algorithm.py:120-123 | the best schedule becomes the old one or the population's first fittest member, as `NewBest` gives it; its fitness never gets worse, strictly improves when it is replaced, and bounds the whole population |
| GeneticSearch.GeneticAlgorithm.Generation | algorithms/genetic_algorithm.py:98-123 | a round replaces the population by the next population bred from it with the round's draws, back to at least the population size. The best becomes the old one or the new population's first fittest member, as `NewBest` gives it. It never gets worse, strictly improves when replaced, and ends at least as fit as every member |
| GeneticSearch.HistoryStep | algorithms/genetic_algorithm.py:98-123 | one more generation extends the record: the new population is bred from the last one (from the initial population for the first generation), and the new best is the last best updated by `NewBest` |
| GeneticSearch.RecordStep | algorithms/genetic_algorithm.py:98-123 | that extension, and the new best stays at least as fit as every schedule of every population so far |
| GeneticSearch.GeneticAlgorithm.RecordedGeneration | algorithms/genetic_algorithm.py:98-123 | a generation run with the record extended by its population and its best schedule |
| GeneticSearch.GeneticAlgorithm.RunGenerations | algorithms/genetic_algorithm.py:98-123 | the loop runs every generation, and the record then holds one population and one best per generation, the last best at least as fit as every schedule recorded |
| GeneticSearch.BestStep | algorithms/genetic_algorithm.py:122-123 | the best after a generation is at least as fit as the best before it |
| GeneticSearch.BestsImprove | algorithms/genetic_algorithm.py:122-123 | across the record, each best is at least as fit as the one before |
| GeneticSearch.BestsNeverWorsen | algorithms/genetic_algorithm.py:98-123 | a later best is at least as fit as any earlier one |
| GeneticSearch.BestBeatsPopulation | algorithms/genetic_algorithm.py:98-123 | the best after generation `g` is at least as fit as every schedule of every population up to `g` |
| GeneticSearch.BestOrigin | algorithms/genetic_algorithm.py:120-123 | each recorded best is the one before it (the starting best for the first) or a member of its own generation's population |
| GeneticSearch.BestWasSeen | algorithms/genetic_algorithm.py:98-123 | each recorded best is the best held before the loop or a member of a population produced at or before its generation |
| GeneticSearch.LastBestWasSeen | algorithms/genetic_algorithm.py:120-126 | the returned best is the best held before the loop or a member of some population produced |
| GeneticSearch.GeneticAlgorithm.Evolve | algorithms/genetic_algorithm.py:95-126 | `initial` is the old population followed by one random schedule per draw vector. The first recorded population is bred from `initial` with the first generation's draws, and each later one from the one before with its own. Each recorded best is the one before (the old best at first) updated by `NewBest`, so the best never gets worse and each is the old best or a schedule of a population produced by then. The returned best is the last one: it conforms, and is at least as fit as every schedule of every population produced |
| Evaluator.SchedulerEvaluator.constructor | utils/scheduler_evaluator.py:6-10 | stores the problem and starts with empty result lists |
| Evaluator.SchedulerEvaluator.RunAlgorithms | utils/scheduler_evaluator.py:12-30 | appends the backtracking schedule and the best schedule of a default genetic run, which exists and conforms, keeping the two lists in step |
| Evaluator.NextLine | utils/scheduler_evaluator.py:43-45 | a job starts when both its resource and its dependency are free: at the later of the two, and it ends one processing time later |
| Evaluator.LineBody | utils/scheduler_evaluator.py:53-56 | splitting a printed line at `End Time: ` gives the text before the label and the end time's digits, so the line's end time reads back |
| Evaluator.LineBodyMentionsEndTime | utils/scheduler_evaluator.py:53-56 | every printed line passes the `"End Time" in line` filter |
| Evaluator.Render | utils/scheduler_evaluator.py:53-56 | the text is empty exactly when there are no lines, and otherwise ends with a newline |
| Evaluator.Representation | utils/scheduler_evaluator.py:53-64 | the text is the failure message exactly when the evaluator's capacity check rejects the schedule |
| Evaluator.Timeline | utils/scheduler_evaluator.py:39-59 | one line per assignment, in order |
| Evaluator.GetScheduleRepresentation | utils/scheduler_evaluator.py:32-64 | the walk returns the timeline's text when every assignment passes the capacity check, and the failure message otherwise |
| Evaluator.LastEndIsLatest | utils/scheduler_evaluator.py:58 | with non-negative processing times, a resource's table entry is no earlier than the end of any line on that resource so far |
| Evaluator.NoOverlapOnAResource | utils/scheduler_evaluator.py:44-58 | with non-negative processing times, two lines on the same resource never overlap: a later one starts after an earlier one ends |
| Evaluator.LastFinishIsTheJobsEnd | utils/scheduler_evaluator.py:59 | with distinct job ids, a job's table entry is its own line's end |
| Evaluator.StartsAfterDependency | utils/scheduler_evaluator.py:43-45 | with distinct job ids, a job whose dependency was walked earlier starts no earlier than the dependency ends |
| Evaluator.LastEndCoversLoad | utils/scheduler_evaluator.py:44-58 | with non-negative processing times, a resource's end time is at least the processing time placed on it so far |
| Evaluator.EvaluatorCheckIsStricter | utils/scheduler_evaluator.py:48 | with non-negative processing times, every schedule the evaluator accepts also passes the genetic capacity check |
| Evaluator.EvaluatorRejectsWhatFitnessAccepts | utils/scheduler_evaluator.py:48 | a concrete valid schedule that the evaluator nevertheless rejects |
| Evaluator.EndTimes | utils/scheduler_evaluator.py:70 | the comprehension yields at most one end time per line |
| Evaluator.ExtractTotalTimeSpan | utils/scheduler_evaluator.py:66-77 | a span is returned only when some line contains "End Time" |
| Evaluator.EndTimesComeFromLines | utils/scheduler_evaluator.py:70-77 | a non-empty list of end times comes from some line that contains "End Time" |
| Evaluator.SplitRender | utils/scheduler_evaluator.py:67 | splitting the rendered text on newlines gives the line texts and one empty string |
| Evaluator.ExtractRendered | utils/scheduler_evaluator.py:66-77 | reading a rendered timeline back gives its latest end time |
| Evaluator.ExtractWithoutSchedule | utils/scheduler_evaluator.py:61-77 | both the empty text and the failure message read back as no valid schedule |
| Evaluator.SpanOfRepresentation | utils/scheduler_evaluator.py:95-100 | reading a schedule's representation back gives its span: the latest end time when the evaluator accepts it, no valid schedule otherwise |
| Evaluator.SpanDisagreesWithMakespan | utils/scheduler_evaluator.py:44-45 | the double-counting example spans 4 here against a makespan of 7 |
| Evaluator.TimeSpanOf | utils/scheduler_evaluator.py:95-100 | rendering and reading back gives the schedule's span, which exists exactly when the evaluator accepts a non-empty schedule |
| Evaluator.CompareSpans | utils/scheduler_evaluator.py:102-111 | 0 exactly when backtracking's span is better, 1 exactly when the genetic one is, 2 exactly when neither is |
| Evaluator.CompareSpansIsAntisymmetric | utils/scheduler_evaluator.py:102-111 | swapping the two spans swaps verdicts 0 and 1 and keeps ties |
| Evaluator.Classify | utils/scheduler_evaluator.py:87-111 | a missing schedule loses to a present one, two missing ones tie, two present ones are compared by span |
| Evaluator.ClassifyIsAntisymmetric | utils/scheduler_evaluator.py:87-111 | swapping a run's two schedules swaps verdicts 0 and 1 and keeps a tie a tie |
| Evaluator.RejectedScheduleNeverWins | utils/scheduler_evaluator.py:102-105 | a genetic schedule that fails the evaluator's check never wins |
| Evaluator.ClassifyRun | utils/scheduler_evaluator.py:87-111 | the verdict computed for one run is that classification. Rendering is required only when both schedules exist, as only then does the source render them |
| Evaluator.SchedulerEvaluator.EvaluatePerformance | utils/scheduler_evaluator.py:79-121 | one verdict per recorded run, each the classification of that run's two schedules. Rendering is required only for runs where both schedules exist |

## Left out

- Randomness: `random.choice`, `random.randint`, `random.sample` and `random.random` are values passed in by the caller. The probabilities `crossover_prob` and `mutation_prob` only decide whether a `PairDraw` carries a cut or a mutation.
- The backtracking solver (`algorithms/backtracking_algorithm.py`) is not part of this model. `RunAlgorithms` takes its schedule as a parameter.
- Timing: `time.time()`, the durations recorded by `run_algorithms`, and the average times returned by `evaluate_performance` are floating-point clock readings, so they are left out.
- Printing: `display_schedule` only prints, so it is left out.
- The GUI, `main.py`, `utils/random_generator.py`, `models/job_model.py` and `tempCodeRunnerFile.py` are not part of this model. `models/job_scheduling_problem.py` appears only as the `Problem` record, a list of jobs and a list of resources.
- Builtins.ParseInt: Python's `int()` also accepts underscores between digits and non-ASCII digits. It also strips every Unicode whitespace character, where the model strips only space, tab, newline, carriage return, vertical tab and form feed. The evaluator never prints any of these, so they are not modelled.
- GeneticFitness.GetJobEndTime: the recursion carries a bound `n` and requires the dependency chain to end within it. With a cyclic chain, Python raises `RecursionError`, and the model excludes such problems by precondition.
- GeneticFitness.CalculateMakespan: requires a problem with at least one resource and acyclic chains. Python raises `ValueError` for `max` of no values and `RecursionError` for a cycle.
- GeneticFitness.IsValidSchedule: requires every assigned resource to be one of the problem's. Python may return `False` at a failed check (algorithms/genetic_algorithm.py:39-40, 48-49) before it reaches an unknown resource's lookup, so the model says nothing about such schedules. Every caller in the model passes schedules that conform to the problem.
- GeneticSearch.Mutate: requires a non-empty schedule. For an empty one, Python's `randint(0, -1)` raises `ValueError`.
- GeneticSearch.ParentCount: `int(population_size * 0.2)` is modelled as `population_size / 5`. The two agree for every size whose product is exact in floating point, which covers all realistic sizes.
- GeneticSearch.SortedPopulationIsPermutation: states the order and the permutation, not the stability of Python's `sorted`. `Insert` places an entry after equal keys, as Python's stable sort does, but stability is not proved.
- GeneticSearch.GeneticAlgorithm.Evolve: requires at least one generation and a population size of at least 10. With no generations Python passes `None` to `display_schedule`, which raises `TypeError`. With fewer than 10, `random.sample(parents, 2)` raises `ValueError`, or `min` of an empty population does. It also requires acyclic dependency chains, as every fitness evaluation does. Python can still finish on a cyclic problem when every schedule it evaluates fails the capacity check, because `fitness` then returns infinity before `calculate_makespan` recurses; the model does not cover that run.
- GeneticSearch.SelectParents: its own contract gives the count and membership only. That the parents are a selection from the population, and the fittest part of it, is proved in `ParentsAreASelection` and `ParentsAreTheFittest`. Keeping the function's contract small keeps the generation proofs, which unfold it, cheap.
- Evaluator.GetScheduleRepresentation: requires every table lookup the walk reaches to find its key (`Renderable`). Python raises `KeyError` for an unknown resource or an unknown dependency.
- Evaluator.SchedulerEvaluator.EvaluatePerformance: requires at least one recorded run, because the average times divide by the number of runs and Python raises `ZeroDivisionError` otherwise. The returned list of verdicts is modelled; the averages are not.
- Evaluator.SchedulerEvaluator.RunAlgorithms: the genetic run is specified by its outcome (a conforming best schedule). The fitness ordering of that schedule is proved in `Evolve`, not repeated here.
