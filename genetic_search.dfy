/** The search half of the genetic algorithm (algorithms/genetic_algorithm.py):
    random schedules, crossover, mutation, parent selection and the generation
    loop. Every random draw of the source is a parameter here: a resource index
    per job for `random.choice`, a `PairDraw` per pair of offspring. */
module GeneticSearch {
  import opened Builtins
  import opened Models
  import opened Schedules
  import opened GeneticFitness

  // ---------------------------------------------------------------------------
  // `generate_random_schedule`

  /** One resource index per job of the problem, as `random.choice` would draw them. */
  predicate ChoicesFit(p: Problem, choices: seq<nat>)
  {
    |choices| == |p.jobs| && forall i :: 0 <= i < |choices| ==> choices[i] < |p.resources|
  }

  /** `s` pairs the problem's jobs, in order, with the chosen resources. */
  predicate IsRandomSchedule(p: Problem, choices: seq<nat>, s: Schedule)
    requires ChoicesFit(p, choices)
  {
    |s| == |p.jobs| && forall i :: 0 <= i < |s| ==> s[i] == Assignment(p.jobs[i], p.resources[choices[i]])
  }

  /** `generate_random_schedule`: one pass over the jobs, appending each with its resource. */
  method GenerateRandomSchedule(p: Problem, choices: seq<nat>) returns (s: Schedule)
    requires ChoicesFit(p, choices)
    ensures IsRandomSchedule(p, choices, s)
  {
    s := [];
    var i := 0;
    while i < |p.jobs|
      invariant 0 <= i <= |p.jobs| && |s| == i
      invariant forall k :: 0 <= k < i ==> s[k] == Assignment(p.jobs[k], p.resources[choices[k]])
    {
      s := s + [Assignment(p.jobs[i], p.resources[choices[i]])];
      i := i + 1;
    }
  }

  /** Every random schedule has the shape the rest of the algorithm relies on. */
  lemma RandomScheduleConforms(p: Problem, choices: seq<nat>, s: Schedule)
    requires ChoicesFit(p, choices) && IsRandomSchedule(p, choices, s)
    ensures Conforms(p, s)
  {
    assert JobsOf(s) == p.jobs;
  }

  /** Position of resource `r` in `rs`. */
  function PositionOf(rs: seq<Resource>, r: Resource): (i: nat)
    requires r in rs
    ensures i < |rs| && rs[i] == r
  {
    if rs[0] == r then 0 else PositionOf(rs[1..], r) + 1
  }

  /** Conversely, every schedule of that shape is one the generator can draw. */
  lemma ConformingScheduleIsReachable(p: Problem, s: Schedule)
    requires Conforms(p, s)
    ensures exists choices :: ChoicesFit(p, choices) && IsRandomSchedule(p, choices, s)
  {
    var choices := seq(|s|, i requires 0 <= i < |s| => PositionOf(p.resources, s[i].resource));
    assert forall i :: 0 <= i < |s| ==> s[i].job == JobsOf(s)[i];
    assert ChoicesFit(p, choices) && IsRandomSchedule(p, choices, s);
  }

  // ---------------------------------------------------------------------------
  // `crossover` and `mutate`

  /** Python's `s[:n]`: clamped to the length. */
  function Take(s: Schedule, n: nat): (r: Schedule)
    ensures |r| == if n <= |s| then n else |s|
    ensures forall i :: 0 <= i < |r| ==> r[i] == s[i]
  {
    if n <= |s| then s[..n] else s
  }

  /** Python's `s[n:]`: empty when `n` is past the end. */
  function Drop(s: Schedule, n: nat): (r: Schedule)
    ensures |r| == if n <= |s| then |s| - n else 0
    ensures forall i :: 0 <= i < |r| ==> r[i] == s[n + i]
  {
    if n <= |s| then s[n..] else []
  }

  /** The crossover point `random.randint(1, len(parent1) - 1)` can draw, or 1 for
      a parent of at most one assignment. */
  predicate CutFits(length: nat, cut: nat)
  {
    if length > 1 then 1 <= cut <= length - 1 else cut == 1
  }

  /** `crossover`: one-point crossover of two parents at `cut`. On parents of equal
      length, each position of a child comes from the first parent before the cut
      and from the other parent from the cut on. */
  function Crossover(parent1: Schedule, parent2: Schedule, cut: nat): (children: (Schedule, Schedule))
    requires CutFits(|parent1|, cut)
    ensures |parent1| == |parent2| ==>
      && |children.0| == |parent1| && |children.1| == |parent1|
      && (forall i :: 0 <= i < |parent1| ==> children.0[i] == if i < cut then parent1[i] else parent2[i])
      && (forall i :: 0 <= i < |parent1| ==> children.1[i] == if i < cut then parent2[i] else parent1[i])
  {
    (Take(parent1, cut) + Drop(parent2, cut), Take(parent2, cut) + Drop(parent1, cut))
  }

  /** Crossover only swaps assignments position by position: at every position the
      two children hold the two parents' assignments. */
  lemma CrossoverSwaps(parent1: Schedule, parent2: Schedule, cut: nat, i: nat)
    requires CutFits(|parent1|, cut) && |parent1| == |parent2| && i < |parent1|
    ensures var children := Crossover(parent1, parent2, cut);
      multiset{children.0[i], children.1[i]} == multiset{parent1[i], parent2[i]}
  {
  }

  /** Two conforming parents have conforming children. */
  lemma CrossoverConforms(p: Problem, parent1: Schedule, parent2: Schedule, cut: nat)
    requires Conforms(p, parent1) && Conforms(p, parent2) && CutFits(|parent1|, cut)
    ensures Conforms(p, Crossover(parent1, parent2, cut).0)
    ensures Conforms(p, Crossover(parent1, parent2, cut).1)
  {
    var children := Crossover(parent1, parent2, cut);
    assert forall i :: 0 <= i < |parent1| ==> parent1[i].job == p.jobs[i] == parent2[i].job;
    assert JobsOf(children.0) == p.jobs;
    assert JobsOf(children.1) == p.jobs;
  }

  /** `mutate`: a copy of the schedule with the job at `jobIndex` moved to resource
      `resourceIndex` of the problem. */
  function Mutate(p: Problem, s: Schedule, jobIndex: nat, resourceIndex: nat): (r: Schedule)
    requires jobIndex < |s| && resourceIndex < |p.resources|
    ensures |r| == |s| && JobsOf(r) == JobsOf(s)
    ensures r[jobIndex].resource == p.resources[resourceIndex]
    ensures forall i :: 0 <= i < |s| && i != jobIndex ==> r[i] == s[i]
  {
    s[jobIndex := Assignment(s[jobIndex].job, p.resources[resourceIndex])]
  }

  lemma MutateConforms(p: Problem, s: Schedule, jobIndex: nat, resourceIndex: nat)
    requires Conforms(p, s) && jobIndex < |s| && resourceIndex < |p.resources|
    ensures Conforms(p, Mutate(p, s, jobIndex, resourceIndex))
  {
  }

  // ---------------------------------------------------------------------------
  // `select_parents`: `sorted(population, key=fitness)[:int(population_size * 0.2)]`

  /** A schedule decorated with its fitness, the sort key. */
  datatype Ranked = Ranked(key: Fitness, schedule: Schedule)

  predicate SortedByKey(rs: seq<Ranked>)
  {
    forall i, j :: 0 <= i < j < |rs| ==> FitnessLe(rs[i].key, rs[j].key)
  }

  /** Inserts `x` after every element whose key is not greater than its own, which
      keeps equal keys in arrival order. */
  function Insert(x: Ranked, rs: seq<Ranked>): (r: seq<Ranked>)
    ensures multiset(r) == multiset(rs) + multiset{x}
  {
    if |rs| == 0 then [x]
    else if FitnessLt(x.key, rs[0].key) then [x] + rs
    else
      assert rs == [rs[0]] + rs[1..];
      [rs[0]] + Insert(x, rs[1..])
  }

  /** Python's `sorted` by key: insertion sort, stable. */
  function SortByKey(rs: seq<Ranked>): (r: seq<Ranked>)
    ensures multiset(r) == multiset(rs)
  {
    if |rs| == 0 then []
    else
      assert rs == rs[..|rs| - 1] + [rs[|rs| - 1]];
      Insert(rs[|rs| - 1], SortByKey(rs[..|rs| - 1]))
  }

  lemma {:induction false} InsertSorted(x: Ranked, rs: seq<Ranked>)
    requires SortedByKey(rs)
    ensures SortedByKey(Insert(x, rs))
  {
    if |rs| > 0 && !FitnessLt(x.key, rs[0].key) {
      var tail := Insert(x, rs[1..]);
      InsertSorted(x, rs[1..]);
      forall y | y in tail ensures FitnessLe(rs[0].key, y.key) {
        assert y in multiset(tail);
        if y != x {
          assert y in multiset(rs[1..]);
        }
      }
    }
  }

  lemma {:induction false} SortByKeySorted(rs: seq<Ranked>)
    ensures SortedByKey(SortByKey(rs))
  {
    if |rs| > 0 {
      SortByKeySorted(rs[..|rs| - 1]);
      InsertSorted(rs[|rs| - 1], SortByKey(rs[..|rs| - 1]));
    }
  }

  /** The population decorated with each member's fitness. */
  function Ranks(p: Problem, population: seq<Schedule>): (rs: seq<Ranked>)
    requires forall i :: 0 <= i < |population| ==> ScheduleOk(p, population[i])
    ensures |rs| == |population|
  {
    if |population| == 0 then []
    else
      var last := population[|population| - 1];
      Ranks(p, population[..|population| - 1]) + [Ranked(ScheduleFitness(p, last), last)]
  }

  /** Entry `i` of the ranks is member `i` paired with its own fitness. */
  lemma {:induction false} RanksPairEachMember(p: Problem, population: seq<Schedule>)
    requires forall i :: 0 <= i < |population| ==> ScheduleOk(p, population[i])
    ensures forall i :: 0 <= i < |population| ==>
      Ranks(p, population)[i] == Ranked(ScheduleFitness(p, population[i]), population[i])
  {
    if |population| > 0 {
      var init := population[..|population| - 1];
      assert forall i :: 0 <= i < |init| ==> init[i] == population[i];
      RanksPairEachMember(p, init);
    }
  }

  function Undecorate(rs: seq<Ranked>): (s: seq<Schedule>)
    ensures |s| == |rs| && forall i :: 0 <= i < |rs| ==> s[i] == rs[i].schedule
  {
    seq(|rs|, i requires 0 <= i < |rs| => rs[i].schedule)
  }

  lemma UndecorateAppend(a: seq<Ranked>, b: seq<Ranked>)
    ensures Undecorate(a + b) == Undecorate(a) + Undecorate(b)
  {
  }

  lemma {:induction false} UndecorateInsert(x: Ranked, rs: seq<Ranked>)
    ensures multiset(Undecorate(Insert(x, rs))) == multiset(Undecorate(rs)) + multiset{x.schedule}
  {
    if |rs| == 0 {
      assert Undecorate([x]) == [x.schedule];
    } else if FitnessLt(x.key, rs[0].key) {
      UndecorateAppend([x], rs);
      assert Undecorate([x]) == [x.schedule];
    } else {
      UndecorateInsert(x, rs[1..]);
      assert rs == [rs[0]] + rs[1..];
      UndecorateAppend([rs[0]], Insert(x, rs[1..]));
      UndecorateAppend([rs[0]], rs[1..]);
      assert Undecorate([rs[0]]) == [rs[0].schedule];
    }
  }

  lemma UndecorateLast(rs: seq<Ranked>)
    requires |rs| > 0
    ensures multiset(Undecorate(rs)) == multiset(Undecorate(rs[..|rs| - 1])) + multiset{rs[|rs| - 1].schedule}
  {
    assert Undecorate(rs) == Undecorate(rs[..|rs| - 1]) + [rs[|rs| - 1].schedule];
  }

  lemma {:induction false} UndecorateSortByKey(rs: seq<Ranked>)
    ensures multiset(Undecorate(SortByKey(rs))) == multiset(Undecorate(rs))
  {
    if |rs| > 0 {
      var init, last := rs[..|rs| - 1], rs[|rs| - 1];
      var sortedInit := SortByKey(init);
      assert SortByKey(rs) == Insert(last, sortedInit);
      UndecorateSortByKey(init);
      UndecorateInsert(last, sortedInit);
      UndecorateLast(rs);
    }
  }

  /** `int(population_size * 0.2)` taken from a list of `available` members. */
  function ParentCount(populationSize: nat, available: nat): (n: nat)
    ensures n <= available && n <= populationSize / 5
    ensures n == populationSize / 5 || n == available
  {
    if populationSize / 5 <= available then populationSize / 5 else available
  }

  /** The population sorted by fitness; each entry is a member with its own fitness. */
  function SortedPopulation(p: Problem, population: seq<Schedule>): (sorted: seq<Ranked>)
    requires forall i :: 0 <= i < |population| ==> ScheduleOk(p, population[i])
    ensures |sorted| == |population|
  {
    var ranks := Ranks(p, population);
    var sorted := SortByKey(ranks);
    assert |sorted| == |population| by { assert |multiset(sorted)| == |multiset(ranks)|; }
    sorted
  }

  /** Each entry of the sorted population is a member paired with its own fitness. */
  lemma SortedPopulationPairs(p: Problem, population: seq<Schedule>)
    requires forall i :: 0 <= i < |population| ==> ScheduleOk(p, population[i])
    ensures forall r :: r in SortedPopulation(p, population) ==>
      r.schedule in population && r.key == ScheduleFitness(p, r.schedule)
  {
    var ranks := Ranks(p, population);
    RanksPairEachMember(p, population);
    assert forall r :: r in SortedPopulation(p, population) ==> r in multiset(ranks);
  }

  /** `select_parents`. */
  function SelectParents(p: Problem, populationSize: nat, population: seq<Schedule>): (parents: seq<Schedule>)
    requires ProblemOk(p) && AllConform(p, population)
    ensures |parents| == ParentCount(populationSize, |population|)
    ensures forall i :: 0 <= i < |parents| ==> parents[i] in population
  {
    ConformingPopulationOk(p, population);
    SortedPopulationPairs(p, population);
    var sorted := SortedPopulation(p, population);
    var parents := Undecorate(sorted[..ParentCount(populationSize, |population|)]);
    assert forall i :: 0 <= i < |parents| ==> parents[i] == sorted[i].schedule && sorted[i] in sorted;
    parents
  }

  /** The parents are a selection from the population: no member is chosen more
      often than it occurs. */
  lemma ParentsAreASelection(p: Problem, populationSize: nat, population: seq<Schedule>)
    requires ProblemOk(p) && AllConform(p, population)
    ensures multiset(SelectParents(p, populationSize, population)) <= multiset(population)
  {
    ConformingPopulationOk(p, population);
    SortedPopulationUndecorates(p, population);
    var sorted := SortedPopulation(p, population);
    UndecorateSplit(sorted, ParentCount(populationSize, |population|));
  }

  /** Cutting a ranked list in two splits its schedules between the two parts. */
  lemma UndecorateSplit(rs: seq<Ranked>, k: nat)
    requires k <= |rs|
    ensures multiset(Undecorate(rs[..k])) + multiset(Undecorate(rs[k..])) == multiset(Undecorate(rs))
    ensures multiset(Undecorate(rs[..k])) <= multiset(Undecorate(rs))
  {
    assert rs == rs[..k] + rs[k..];
    UndecorateAppend(rs[..k], rs[k..]);
  }

  /** Stripping the fitness from the sorted population gives back the population,
      up to order. */
  lemma SortedPopulationUndecorates(p: Problem, population: seq<Schedule>)
    requires forall i :: 0 <= i < |population| ==> ScheduleOk(p, population[i])
    ensures multiset(Undecorate(SortedPopulation(p, population))) == multiset(population)
  {
    UndecorateSortByKey(Ranks(p, population));
    RanksPairEachMember(p, population);
    assert Undecorate(Ranks(p, population)) == population;
  }

  /** The sorted population is the population, each member paired with its own
      fitness, in order of fitness. */
  lemma SortedPopulationIsPermutation(p: Problem, population: seq<Schedule>)
    requires forall i :: 0 <= i < |population| ==> ScheduleOk(p, population[i])
    ensures multiset(SortedPopulation(p, population)) == multiset(Ranks(p, population))
    ensures SortedByKey(SortedPopulation(p, population))
  {
    SortByKeySorted(Ranks(p, population));
  }

  /** The parents and the members left out of the selection (the rest of the
      sorted population) are together the population, and no parent is less
      fit than any member left out. */
  lemma ParentsAreTheFittest(p: Problem, populationSize: nat, population: seq<Schedule>)
    requires ProblemOk(p) && AllConform(p, population)
    ensures (ConformingPopulationOk(p, population);
      var parents := SelectParents(p, populationSize, population);
      var sorted := SortedPopulation(p, population);
      multiset(parents) + multiset(Undecorate(sorted[|parents|..])) == multiset(population))
    ensures (ConformingPopulationOk(p, population); SortedPopulationPairs(p, population);
      var parents := SelectParents(p, populationSize, population);
      var sorted := SortedPopulation(p, population);
      forall i, j :: 0 <= i < |parents| <= j < |sorted| ==>
            FitnessLe(ScheduleFitness(p, parents[i]), ScheduleFitness(p, sorted[j].schedule)))
  {
    ConformingPopulationOk(p, population);
    var sorted := SortedPopulation(p, population);
    SortedPopulationIsPermutation(p, population);
    SortedPopulationUndecorates(p, population);
    SortedPopulationPairs(p, population);
    var parents := SelectParents(p, populationSize, population);
    assert parents == Undecorate(sorted[..|parents|]);
    UndecorateSplit(sorted, |parents|);
    forall i, j | 0 <= i < |parents| <= j < |sorted|
      ensures FitnessLe(ScheduleFitness(p, parents[i]), ScheduleFitness(p, sorted[j].schedule))
    {
      assert sorted[i] in sorted && sorted[j] in sorted;
    }
  }

  /** The first parent is at least as fit as every member of the population. */
  lemma FirstParentIsFittest(p: Problem, populationSize: nat, population: seq<Schedule>)
    requires ProblemOk(p) && AllConform(p, population)
    requires ParentCount(populationSize, |population|) > 0
    ensures (ConformingPopulationOk(p, population);
      var parents := SelectParents(p, populationSize, population);
      forall k :: 0 <= k < |population| ==>
        FitnessLe(ScheduleFitness(p, parents[0]), ScheduleFitness(p, population[k])))
  {
    ConformingPopulationOk(p, population);
    var sorted := SortedPopulation(p, population);
    SortedPopulationIsPermutation(p, population);
    SortedPopulationPairs(p, population);
    var ranks := Ranks(p, population);
    RanksPairEachMember(p, population);
    var parents := SelectParents(p, populationSize, population);
    assert sorted[0] in sorted;
    forall k | 0 <= k < |population|
      ensures FitnessLe(ScheduleFitness(p, parents[0]), ScheduleFitness(p, population[k]))
    {
      assert ranks[k] in multiset(sorted);
      var j :| 0 <= j < |sorted| && sorted[j] == ranks[k];
      if j > 0 {
        assert FitnessLe(sorted[0].key, sorted[j].key);
      }
    }
  }

  // ---------------------------------------------------------------------------
  // `min(population, key=fitness)`

  function Fitnesses(p: Problem, population: seq<Schedule>): (fs: seq<Fitness>)
    requires forall i :: 0 <= i < |population| ==> ScheduleOk(p, population[i])
    ensures |fs| == |population|
  {
    if |population| == 0 then []
    else Fitnesses(p, population[..|population| - 1]) + [ScheduleFitness(p, population[|population| - 1])]
  }

  /** Entry `i` of the fitnesses is the fitness of member `i`. */
  lemma {:induction false} FitnessesOfEachMember(p: Problem, population: seq<Schedule>)
    requires forall i :: 0 <= i < |population| ==> ScheduleOk(p, population[i])
    ensures forall i :: 0 <= i < |population| ==> Fitnesses(p, population)[i] == ScheduleFitness(p, population[i])
  {
    if |population| > 0 {
      var init := population[..|population| - 1];
      assert forall i :: 0 <= i < |init| ==> init[i] == population[i];
      FitnessesOfEachMember(p, init);
    }
  }

  /** Index of the first least key, as `min` with a key function returns it. */
  function FirstMinIndex(keys: seq<Fitness>): (m: nat)
    requires |keys| > 0
    ensures m < |keys|
    ensures forall k :: 0 <= k < |keys| ==> FitnessLe(keys[m], keys[k])
    ensures forall k :: 0 <= k < m ==> FitnessLt(keys[m], keys[k])
  {
    if |keys| == 1 then 0
    else
      var m := FirstMinIndex(keys[..|keys| - 1]);
      assert forall k :: 0 <= k < |keys| - 1 ==> keys[..|keys| - 1][k] == keys[k];
      if FitnessLt(keys[|keys| - 1], keys[m]) then |keys| - 1 else m
  }

  /** A schedule at least as fit as the population's first minimum is at least as
      fit as every member. */
  lemma AtMostTheMinimum(p: Problem, population: seq<Schedule>, b: Schedule)
    requires |population| > 0 && forall i :: 0 <= i < |population| ==> ScheduleOk(p, population[i])
    requires ScheduleOk(p, b)
    requires var fitnesses := Fitnesses(p, population);
      FitnessLe(ScheduleFitness(p, b), fitnesses[FirstMinIndex(fitnesses)])
    ensures forall i :: 0 <= i < |population| ==>
      FitnessLe(ScheduleFitness(p, b), ScheduleFitness(p, population[i]))
  {
    var fitnesses := Fitnesses(p, population);
    var m := FirstMinIndex(fitnesses);
    FitnessesOfEachMember(p, population);
    forall i | 0 <= i < |population| ensures FitnessLe(ScheduleFitness(p, b), ScheduleFitness(p, population[i])) {
      FitnessLeIsTotalPreorder(ScheduleFitness(p, b), fitnesses[m], fitnesses[i]);
    }
  }

  // ---------------------------------------------------------------------------
  // Offspring

  /** The draws `mutate` makes: the position to change and the new resource's index. */
  datatype Mutation = Mutation(jobIndex: nat, resourceIndex: nat)

  /** Every random draw behind one pair of offspring: the two distinct parent
      positions of `random.sample(parents, 2)`, the crossover point when
      `random.random() < crossover_prob` (None otherwise), and a mutation of each
      child when its `random.random() < mutation_prob`. */
  datatype PairDraw = PairDraw(
    first: nat, second: nat, cut: Option<nat>, mutateFirst: Option<Mutation>, mutateSecond: Option<Mutation>)

  predicate MutationFits(p: Problem, m: Option<Mutation>)
  {
    m.Some? ==> m.value.jobIndex < |p.jobs| && m.value.resourceIndex < |p.resources|
  }

  /** A draw the source can make with `parentCount` parents for this problem. */
  predicate DrawFits(p: Problem, parentCount: nat, d: PairDraw)
  {
    && d.first < parentCount && d.second < parentCount && d.first != d.second
    && (d.cut.Some? ==> CutFits(|p.jobs|, d.cut.value))
    && MutationFits(p, d.mutateFirst) && MutationFits(p, d.mutateSecond)
  }

  /** Rounds of the offspring loop: pairs are added while fewer than `wanted`
      children exist. */
  function PairsNeeded(wanted: int): (n: nat)
    ensures wanted <= 0 ==> n == 0
    ensures wanted > 0 ==> wanted <= 2 * n <= wanted + 1
  {
    if wanted <= 0 then 0 else (wanted + 1) / 2
  }

  predicate DrawsFit(p: Problem, parentCount: nat, wanted: int, draws: seq<PairDraw>)
  {
    |draws| == PairsNeeded(wanted) && forall k :: 0 <= k < |draws| ==> DrawFits(p, parentCount, draws[k])
  }

  function MaybeMutate(p: Problem, s: Schedule, m: Option<Mutation>): (r: Schedule)
    requires Conforms(p, s) && MutationFits(p, m)
    ensures Conforms(p, r)
  {
    if m.None? then s
    else
      MutateConforms(p, s, m.value.jobIndex, m.value.resourceIndex);
      Mutate(p, s, m.value.jobIndex, m.value.resourceIndex)
  }

  /** One round of the offspring loop: two parents, optional crossover, optional
      mutation of each child. */
  function Breed(p: Problem, parents: seq<Schedule>, d: PairDraw): (children: (Schedule, Schedule))
    requires AllConform(p, parents)
    requires DrawFits(p, |parents|, d)
    ensures Conforms(p, children.0) && Conforms(p, children.1)
  {
    var parent1, parent2 := parents[d.first], parents[d.second];
    var crossed :=
      if d.cut.None? then (parent1, parent2)
      else (CrossoverConforms(p, parent1, parent2, d.cut.value); Crossover(parent1, parent2, d.cut.value));
    (MaybeMutate(p, crossed.0, d.mutateFirst), MaybeMutate(p, crossed.1, d.mutateSecond))
  }

  /** The offspring list after the given rounds. */
  function Offspring(p: Problem, parents: seq<Schedule>, draws: seq<PairDraw>): (offspring: seq<Schedule>)
    requires AllConform(p, parents)
    requires forall k :: 0 <= k < |draws| ==> DrawFits(p, |parents|, draws[k])
    ensures |offspring| == 2 * |draws|
    ensures AllConform(p, offspring)
  {
    if |draws| == 0 then []
    else
      var children := Breed(p, parents, draws[|draws| - 1]);
      Offspring(p, parents, draws[..|draws| - 1]) + [children.0, children.1]
  }

  /** The next population is the selected parents followed by their offspring. */
  lemma NextPopulationParts(p: Problem, populationSize: nat, population: seq<Schedule>, draws: seq<PairDraw>)
    requires ProblemOk(p) && AllConform(p, population)
    requires DrawsFit(p, ParentCount(populationSize, |population|),
      populationSize - ParentCount(populationSize, |population|), draws)
    ensures var parents := SelectParents(p, populationSize, population);
      && AllConform(p, parents)
      && NextPopulation(p, populationSize, population, draws) == parents + Offspring(p, parents, draws)
  {
    var parents := SelectParents(p, populationSize, population);
    assert AllConform(p, parents);
  }

  lemma AppendConforms(p: Problem, a: seq<Schedule>, b: seq<Schedule>)
    requires AllConform(p, a)
    requires AllConform(p, b)
    ensures AllConform(p, a + b)
  {
  }

  /** The population after one round of `evolve`: the selected parents, then
      their offspring; back to at least the population size, every member still
      drawn from the problem's jobs and resources. */
  function NextPopulation(p: Problem, populationSize: nat, population: seq<Schedule>, draws: seq<PairDraw>)
    : (next: seq<Schedule>)
    requires ProblemOk(p) && AllConform(p, population)
    requires DrawsFit(p, ParentCount(populationSize, |population|),
      populationSize - ParentCount(populationSize, |population|), draws)
    ensures |next| >= populationSize
    ensures AllConform(p, next)
  {
    var parents := SelectParents(p, populationSize, population);
    assert AllConform(p, parents);
    var offspring := Offspring(p, parents, draws);
    AppendConforms(p, parents, offspring);
    parents + offspring
  }

  /** The selected parents survive into the next population, in front. */
  lemma NextPopulationKeepsParents(p: Problem, populationSize: nat, population: seq<Schedule>, draws: seq<PairDraw>)
    requires ProblemOk(p) && AllConform(p, population)
    requires DrawsFit(p, ParentCount(populationSize, |population|),
      populationSize - ParentCount(populationSize, |population|), draws)
    ensures var parents, next := SelectParents(p, populationSize, population), NextPopulation(p, populationSize, population, draws);
      |parents| <= |next| && next[..|parents|] == parents
  {
    var parents := SelectParents(p, populationSize, population);
    var offspring := Offspring(p, parents, draws);
    assert NextPopulation(p, populationSize, population, draws) == parents + offspring;
    assert (parents + offspring)[..|parents|] == parents;
  }

  /** The offspring loop of `evolve`: pairs of children until at least `wanted` exist. */
  method BreedOffspring(p: Problem, parents: seq<Schedule>, wanted: int, draws: seq<PairDraw>)
    returns (offspring: seq<Schedule>)
    requires AllConform(p, parents)
    requires DrawsFit(p, |parents|, wanted, draws)
    ensures offspring == Offspring(p, parents, draws)
  {
    offspring := [];
    var k := 0;
    while |offspring| < wanted
      invariant 0 <= k <= |draws| && |offspring| == 2 * k
      invariant offspring == Offspring(p, parents, draws[..k])
    {
      var children := Breed(p, parents, draws[k]);
      assert draws[..k + 1][..k] == draws[..k];
      offspring := offspring + [children.0, children.1];
      k := k + 1;
    }
    assert draws[..k] == draws;
  }

  // ---------------------------------------------------------------------------
  // The algorithm object

  /** What the algorithm needs of an instance: a resource to draw and to take the
      makespan over, and dependency chains that end. */
  predicate ProblemOk(p: Problem)
  {
    |p.resources| > 0 && Acyclic(p.jobs)
  }

  lemma ConformingScheduleOk(p: Problem, s: Schedule)
    requires ProblemOk(p) && Conforms(p, s)
    ensures ScheduleOk(p, s)
  {
    ConformsUsesProblemResources(p, s);
  }

  /** Every schedule in `schedules` has the shape the algorithm produces. */
  predicate AllConform(p: Problem, schedules: seq<Schedule>)
  {
    forall i {:trigger Conforms(p, schedules[i])} :: 0 <= i < |schedules| ==> Conforms(p, schedules[i])
  }

  lemma ConformingPopulationOk(p: Problem, population: seq<Schedule>)
    requires ProblemOk(p) && AllConform(p, population)
    ensures forall i :: 0 <= i < |population| ==> ScheduleOk(p, population[i])
  {
    forall i | 0 <= i < |population| ensures ScheduleOk(p, population[i]) {
      ConformingScheduleOk(p, population[i]);
    }
  }

  /** The fitness of a schedule drawn from a well-formed problem. */
  function FitnessOf(p: Problem, s: Schedule): (f: Fitness)
    requires ProblemOk(p) && Conforms(p, s)
    ensures (ConformingScheduleOk(p, s); f == ScheduleFitness(p, s))
  {
    ConformingScheduleOk(p, s);
    ScheduleFitness(p, s)
  }

  predicate PopulationsConform(p: Problem, populations: seq<seq<Schedule>>)
  {
    forall g, i {:trigger Conforms(p, populations[g][i])} ::
      0 <= g < |populations| && 0 <= i < |populations[g]| ==> Conforms(p, populations[g][i])
  }

  /** `b` is at least as fit as every member of every population in `populations`. */
  predicate FitterThanAll(p: Problem, b: Schedule, populations: seq<seq<Schedule>>)
    requires ProblemOk(p) && Conforms(p, b) && PopulationsConform(p, populations)
  {
    forall g, i {:trigger FitnessOf(p, populations[g][i])} :: 0 <= g < |populations| && 0 <= i < |populations[g]| ==>
      FitnessLe(FitnessOf(p, b), FitnessOf(p, populations[g][i]))
  }

  /** `min(population, key=self.fitness)`: the population's first fittest member. */
  function FirstFittest(p: Problem, population: seq<Schedule>): (s: Schedule)
    requires ProblemOk(p) && |population| > 0 && AllConform(p, population)
    ensures s in population && Conforms(p, s)
  {
    ConformingPopulationOk(p, population);
    population[FirstMinIndex(Fitnesses(p, population))]
  }

  /** `evolve`'s update of the best schedule after a generation: the
      population's first fittest member replaces `previous` when there is none
      yet or when it is strictly fitter. */
  function NewBest(p: Problem, previous: Option<Schedule>, population: seq<Schedule>): (best: Schedule)
    requires ProblemOk(p) && |population| > 0 && AllConform(p, population)
    requires previous.Some? ==> Conforms(p, previous.value)
    ensures Conforms(p, best)
  {
    var current := FirstFittest(p, population);
    if previous.None? || FitnessLt(FitnessOf(p, current), FitnessOf(p, previous.value)) then current
    else previous.value
  }

  /** The new best is the old one or the population's first fittest member. It
      is at least as fit as every member of the population and as the old best,
      and it differs from the old best only when it is strictly fitter. */
  lemma NewBestIsFittest(p: Problem, previous: Option<Schedule>, population: seq<Schedule>)
    requires ProblemOk(p) && |population| > 0 && AllConform(p, population)
    requires previous.Some? ==> Conforms(p, previous.value)
    ensures var best := NewBest(p, previous, population);
      Some(best) == previous || best == FirstFittest(p, population)
    ensures forall i :: 0 <= i < |population| ==>
      FitnessLe(FitnessOf(p, NewBest(p, previous, population)), FitnessOf(p, population[i]))
    ensures previous.Some? ==>
      var best, before := NewBest(p, previous, population), previous.value;
      FitnessLe(FitnessOf(p, best), FitnessOf(p, before)) && (best != before ==> FitnessLt(FitnessOf(p, best), FitnessOf(p, before)))
  {
    ConformingPopulationOk(p, population);
    var fitnesses := Fitnesses(p, population);
    var m := FirstMinIndex(fitnesses);
    FitnessesOfEachMember(p, population);
    var best := NewBest(p, previous, population);
    ConformingScheduleOk(p, best);
    ConformingScheduleOk(p, population[m]);
    if previous.Some? {
      ConformingScheduleOk(p, previous.value);
      FitnessLeIsTotalPreorder(FitnessOf(p, population[m]), FitnessOf(p, previous.value), FitnessOf(p, previous.value));
    }
    assert FitnessLe(ScheduleFitness(p, best), fitnesses[m]);
    AtMostTheMinimum(p, population, best);
  }

  /** `after` is the population one generation makes of `before` with `draws`. */
  predicate NextOf(p: Problem, populationSize: nat, before: seq<Schedule>, draws: seq<PairDraw>, after: seq<Schedule>)
    requires ProblemOk(p)
  {
    && AllConform(p, before)
    && DrawsFit(p, ParentCount(populationSize, |before|), populationSize - ParentCount(populationSize, |before|), draws)
    && after == NextPopulation(p, populationSize, before, draws)
  }

  /** Each population in `history` after the first is bred from the one before
      it with the draws of its generation. */
  ghost predicate Bred(p: Problem, populationSize: nat, draws: seq<seq<PairDraw>>, history: seq<seq<Schedule>>)
    requires ProblemOk(p)
  {
    forall g, h {:trigger NextOf(p, populationSize, history[g], draws[h], history[h])} ::
      0 <= g < h < |history| && h == g + 1 && h < |draws| ==> NextOf(p, populationSize, history[g], draws[h], history[h])
  }

  /** Each best in `bests` is the one before it (`start` for the first) updated
      with the population of its generation. */
  ghost predicate BestsRecorded(p: Problem, populationSize: nat, start: Option<Schedule>,
    history: seq<seq<Schedule>>, bests: seq<Schedule>)
    requires ProblemOk(p) && populationSize > 0 && |history| == |bests|
    requires start.Some? ==> Conforms(p, start.value)
    requires PopulationsConform(p, history) && forall g :: 0 <= g < |history| ==> |history[g]| >= populationSize
    requires AllConform(p, bests)
  {
    && (|history| > 0 ==> bests[0] == NewBest(p, start, history[0]))
    && forall g, h {:trigger NewBest(p, Some(bests[g]), history[h])} ::
         0 <= g < h < |history| && h == g + 1 ==> bests[h] == NewBest(p, Some(bests[g]), history[h])
  }

  /** The record of `evolve`'s generation loop so far, from the population
      `initial` and the best schedule `start` it began with: `history[g]` is the
      population after generation `g` and `bests[g]` the best schedule then.
      The first population is bred from `initial`, each later one from the one
      before it, and each best is the one before updated by `NewBest`; so the
      best never gets worse, and the latest best is at least as fit as every
      schedule of every population produced. */
  ghost predicate EvolveHistory(p: Problem, populationSize: nat, draws: seq<seq<PairDraw>>,
    initial: seq<Schedule>, start: Option<Schedule>, history: seq<seq<Schedule>>, bests: seq<Schedule>)
    requires ProblemOk(p)
  {
    && populationSize > 0
    && |history| == |bests| <= |draws|
    && (start.Some? ==> Conforms(p, start.value))
    && PopulationsConform(p, history)
    && (forall g :: 0 <= g < |history| ==> |history[g]| >= populationSize)
    && AllConform(p, bests)
    && (forall g {:trigger NextOf(p, populationSize, initial, draws[g], history[g])} ::
          0 == g < |history| ==> NextOf(p, populationSize, initial, draws[g], history[g]))
    && Bred(p, populationSize, draws, history)
    && BestsRecorded(p, populationSize, start, history, bests)
  }

  /** The last best is `start` or a schedule of one of the populations. */
  lemma LastBestWasSeen(p: Problem, populationSize: nat, start: Option<Schedule>,
    history: seq<seq<Schedule>>, bests: seq<Schedule>)
    requires ProblemOk(p) && BestsHistory(p, populationSize, start, history, bests) && |bests| > 0
    ensures Some(bests[|bests| - 1]) == start ||
      exists g, i :: 0 <= g < |history| && 0 <= i < |history[g]| && bests[|bests| - 1] == history[g][i]
  {
    var last := |bests| - 1;
    BestWasSeen(p, populationSize, start, history, bests, last);
    if Some(bests[last]) != start {
      var h, i :| 0 <= h <= last && 0 <= i < |history[h]| && bests[last] == history[h][i];
      assert 0 <= h < |history| && 0 <= i < |history[h]| && bests[last] == history[h][i];
    }
  }

  /** The full record implies its best-tracking part. */
  lemma HistoryHasBests(p: Problem, populationSize: nat, draws: seq<seq<PairDraw>>,
    initial: seq<Schedule>, start: Option<Schedule>, history: seq<seq<Schedule>>, bests: seq<Schedule>)
    requires ProblemOk(p) && EvolveHistory(p, populationSize, draws, initial, start, history, bests)
    ensures BestsHistory(p, populationSize, start, history, bests)
  {
  }

  /** The record without its breeding part: one best per population, every
      population of at least `populationSize` conforming schedules, and each
      best the one before (`start` for the first) updated by `NewBest`. */
  ghost predicate BestsHistory(p: Problem, populationSize: nat, start: Option<Schedule>,
    history: seq<seq<Schedule>>, bests: seq<Schedule>)
    requires ProblemOk(p)
  {
    && populationSize > 0
    && |history| == |bests|
    && (start.Some? ==> Conforms(p, start.value))
    && PopulationsConform(p, history)
    && (forall g :: 0 <= g < |history| ==> |history[g]| >= populationSize)
    && AllConform(p, bests)
    && BestsRecorded(p, populationSize, start, history, bests)
  }

  /** From one generation to the next the recorded best never gets worse. */
  lemma BestStep(p: Problem, populationSize: nat, start: Option<Schedule>, history: seq<seq<Schedule>>,
    bests: seq<Schedule>, h: nat)
    requires ProblemOk(p) && BestsHistory(p, populationSize, start, history, bests)
    requires 0 < h < |bests|
    ensures FitnessLe(FitnessOf(p, bests[h]), FitnessOf(p, bests[h - 1]))
  {
    assert bests[h] == NewBest(p, Some(bests[h - 1]), history[h]);
    NewBestIsFittest(p, Some(bests[h - 1]), history[h]);
  }

  /** A sequence of fitness values that never gets worse from one entry to
      the next never gets worse from any entry to a later one. */
  lemma {:induction false} FitnessesNeverWorsen(fs: seq<Fitness>, g: nat, h: nat)
    requires forall k :: 0 < k < |fs| ==> FitnessLe(fs[k], fs[k - 1])
    requires g <= h < |fs|
    ensures FitnessLe(fs[h], fs[g])
    decreases h
  {
    if g == h {
      FitnessLeIsTotalPreorder(fs[g], fs[g], fs[g]);
    } else {
      FitnessesNeverWorsen(fs, g, h - 1);
      FitnessLeIsTotalPreorder(fs[h], fs[h - 1], fs[g]);
    }
  }

  /** Schedules whose fitness never gets worse from one to the next never get
      worse from one to any later one. */
  lemma ChainNeverWorsens(p: Problem, bests: seq<Schedule>, g: nat, h: nat)
    requires ProblemOk(p) && AllConform(p, bests)
    requires forall j, k :: 0 <= j < k < |bests| && k == j + 1 ==>
      FitnessLe(FitnessOf(p, bests[k]), FitnessOf(p, bests[j]))
    requires g <= h < |bests|
    ensures FitnessLe(FitnessOf(p, bests[h]), FitnessOf(p, bests[g]))
  {
    var fs := seq(|bests|, k requires 0 <= k < |bests| => FitnessOf(p, bests[k]));
    forall k | 0 < k < |fs| ensures FitnessLe(fs[k], fs[k - 1]) {
      assert FitnessLe(FitnessOf(p, bests[k]), FitnessOf(p, bests[k - 1]));
    }
    FitnessesNeverWorsen(fs, g, h);
  }

  /** The best never gets worse from one generation to the next. */
  lemma BestsImprove(p: Problem, populationSize: nat, start: Option<Schedule>, history: seq<seq<Schedule>>,
    bests: seq<Schedule>)
    requires ProblemOk(p) && BestsHistory(p, populationSize, start, history, bests)
    ensures forall j, k :: 0 <= j < k < |bests| && k == j + 1 ==>
      FitnessLe(FitnessOf(p, bests[k]), FitnessOf(p, bests[j]))
  {
    forall j, k | 0 <= j < k < |bests| && k == j + 1
      ensures FitnessLe(FitnessOf(p, bests[k]), FitnessOf(p, bests[j]))
    {
      BestStep(p, populationSize, start, history, bests, k);
    }
  }

  /** The best never gets worse from one generation to a later one. */
  lemma BestsNeverWorsen(p: Problem, populationSize: nat, start: Option<Schedule>, history: seq<seq<Schedule>>, bests: seq<Schedule>, g: nat, h: nat)
    requires ProblemOk(p) && BestsHistory(p, populationSize, start, history, bests)
    requires g <= h < |bests|
    ensures FitnessLe(FitnessOf(p, bests[h]), FitnessOf(p, bests[g]))
  {
    BestsImprove(p, populationSize, start, history, bests);
    ChainNeverWorsens(p, bests, g, h);
  }

  /** The best after generation `g` is at least as fit as every schedule of
      the population of any generation `h` up to `g`. */
  lemma BestBeatsPopulation(p: Problem, populationSize: nat, start: Option<Schedule>,
    history: seq<seq<Schedule>>, bests: seq<Schedule>, h: nat, g: nat)
    requires ProblemOk(p) && BestsHistory(p, populationSize, start, history, bests)
    requires h <= g < |bests|
    ensures forall i :: 0 <= i < |history[h]| ==>
      FitnessLe(FitnessOf(p, bests[g]), FitnessOf(p, history[h][i]))
  {
    BestsNeverWorsen(p, populationSize, start, history, bests, h, g);
    var previous := if h == 0 then start else Some(bests[h - 1]);
    assert bests[h] == NewBest(p, previous, history[h]);
    NewBestIsFittest(p, previous, history[h]);
    forall i | 0 <= i < |history[h]| ensures FitnessLe(FitnessOf(p, bests[g]), FitnessOf(p, history[h][i])) {
      FitnessLeIsTotalPreorder(FitnessOf(p, bests[g]), FitnessOf(p, bests[h]), FitnessOf(p, history[h][i]));
    }
  }

  /** Each recorded best is the one before it (`start` for the first) or a
      member of its own generation's population. */
  lemma BestOrigin(p: Problem, populationSize: nat, start: Option<Schedule>, history: seq<seq<Schedule>>, bests: seq<Schedule>, g: nat)
    requires ProblemOk(p) && BestsHistory(p, populationSize, start, history, bests) && g < |bests|
    ensures (if g == 0 then Some(bests[g]) == start else bests[g] == bests[g - 1]) || bests[g] in history[g]
  {
    var previous := if g == 0 then start else Some(bests[g - 1]);
    if g == 0 {
      assert bests[g] == NewBest(p, start, history[g]);
    } else {
      assert bests[g] == NewBest(p, Some(bests[g - 1]), history[g]);
    }
    NewBestIsFittest(p, previous, history[g]);
  }

  /** A chain whose every entry repeats the one before it (`start` for the
      first) or comes from its own population reaches back to `start` or to a
      member of a population at or before it. */
  lemma {:induction false} OriginsReachBack(start: Option<Schedule>, history: seq<seq<Schedule>>, bests: seq<Schedule>, g: nat)
    requires |history| == |bests| && g < |bests|
    requires Some(bests[0]) == start || bests[0] in history[0]
    requires forall j, k :: 0 <= j < k < |bests| && k == j + 1 ==> bests[k] == bests[j] || bests[k] in history[k]
    ensures Some(bests[g]) == start ||
      exists h, i :: 0 <= h <= g && 0 <= i < |history[h]| && bests[g] == history[h][i]
    decreases g
  {
    if bests[g] in history[g] {
      var i :| 0 <= i < |history[g]| && history[g][i] == bests[g];
      assert 0 <= g <= g && 0 <= i < |history[g]| && bests[g] == history[g][i];
    } else if g > 0 {
      assert bests[g] == bests[g - 1];
      OriginsReachBack(start, history, bests, g - 1);
      if Some(bests[g]) != start {
        var h, i :| 0 <= h <= g - 1 && 0 <= i < |history[h]| && bests[g - 1] == history[h][i];
        assert 0 <= h <= g && 0 <= i < |history[h]| && bests[g] == history[h][i];
      }
    }
  }

  /** Every recorded best is the best held before the loop or a member of a
      population produced at or before its generation. */
  lemma BestWasSeen(p: Problem, populationSize: nat, start: Option<Schedule>, history: seq<seq<Schedule>>, bests: seq<Schedule>, g: nat)
    requires ProblemOk(p) && BestsHistory(p, populationSize, start, history, bests) && g < |bests|
    ensures Some(bests[g]) == start ||
      exists h, i :: 0 <= h <= g && 0 <= i < |history[h]| && bests[g] == history[h][i]
  {
    BestOrigin(p, populationSize, start, history, bests, 0);
    forall j, k | 0 <= j < k < |bests| && k == j + 1 ensures bests[k] == bests[j] || bests[k] in history[k] {
      BestOrigin(p, populationSize, start, history, bests, k);
    }
    OriginsReachBack(start, history, bests, g);
  }

  lemma ConformingAppend(p: Problem, history: seq<seq<Schedule>>, population: seq<Schedule>)
    requires PopulationsConform(p, history)
    requires AllConform(p, population)
    ensures PopulationsConform(p, history + [population])
  {
    var history' := history + [population];
    forall g, i | 0 <= g < |history'| && 0 <= i < |history'[g]| ensures Conforms(p, history'[g][i]) {
      if g < |history| { assert history'[g] == history[g]; }
    }
  }

  /** Appending a conforming population of at least `populationSize` schedules
      and a conforming best keeps every recorded schedule conforming and every
      recorded population that large. */
  lemma ShapeAppend(p: Problem, populationSize: nat, history: seq<seq<Schedule>>, bests: seq<Schedule>,
    population: seq<Schedule>, best: Schedule)
    requires PopulationsConform(p, history) && forall g :: 0 <= g < |history| ==> |history[g]| >= populationSize
    requires AllConform(p, bests)
    requires |population| >= populationSize && AllConform(p, population)
    requires Conforms(p, best)
    ensures PopulationsConform(p, history + [population])
    ensures forall g :: 0 <= g < |history + [population]| ==> |(history + [population])[g]| >= populationSize
    ensures AllConform(p, bests + [best])
  {
    ConformingAppend(p, history, population);
    forall g | 0 <= g < |history + [population]| ensures |(history + [population])[g]| >= populationSize {
      AppendAt(history, population, g);
    }
    forall g | 0 <= g < |bests + [best]| ensures Conforms(p, (bests + [best])[g]) {
      AppendAt(bests, best, g);
    }
  }

  lemma ChainAppend(p: Problem, populationSize: nat, draws: seq<seq<PairDraw>>,
    history: seq<seq<Schedule>>, before: seq<Schedule>, population: seq<Schedule>)
    requires ProblemOk(p) && |history| < |draws| && Bred(p, populationSize, draws, history)
    requires |history| > 0 ==> before == history[|history| - 1]
    requires NextOf(p, populationSize, before, draws[|history|], population)
    ensures Bred(p, populationSize, draws, history + [population])
  {
    var history' := history + [population];
    forall g, h | 0 <= g < h < |history'| && h == g + 1 && h < |draws|
      ensures NextOf(p, populationSize, history'[g], draws[h], history'[h])
    {
      AppendAt(history, population, g);
      AppendAt(history, population, h);
      if h < |history| {
        NextOfSame(p, populationSize, history[g], draws[h], history[h], history'[g], history'[h]);
      } else {
        var n := |history|;
        assert h == n && g == n - 1;
        assert history'[g] == history[n - 1];
        assert before == history[n - 1];
        assert history'[h] == population;
        NextOfSame(p, populationSize, before, draws[n], population, history'[g], history'[h]);
      }
    }
  }

  lemma NextOfSame(p: Problem, populationSize: nat, before: seq<Schedule>, draws: seq<PairDraw>, after: seq<Schedule>,
    before': seq<Schedule>, after': seq<Schedule>)
    requires ProblemOk(p) && NextOf(p, populationSize, before, draws, after) && before' == before && after' == after
    ensures NextOf(p, populationSize, before', draws, after')
  {
  }

  lemma AppendAt<T>(s: seq<T>, x: T, k: nat)
    requires k <= |s|
    ensures (s + [x])[k] == if k < |s| then s[k] else x
  {
  }

  /** A best at least as fit as the previous best (when there are earlier
      populations) and as every member of a new population is at least as fit
      as every schedule of every population, the new one included. */
  lemma FitterStep(p: Problem, history: seq<seq<Schedule>>, previous: Schedule, population: seq<Schedule>,
    best: Schedule)
    requires ProblemOk(p) && Conforms(p, previous) && Conforms(p, best) && PopulationsConform(p, history)
    requires AllConform(p, population)
    requires |history| > 0 ==> FitterThanAll(p, previous, history) && FitnessLe(FitnessOf(p, best), FitnessOf(p, previous))
    requires forall i :: 0 <= i < |population| ==> FitnessLe(FitnessOf(p, best), FitnessOf(p, population[i]))
    ensures (ConformingAppend(p, history, population); FitterThanAll(p, best, history + [population]))
  {
    ConformingAppend(p, history, population);
    var history' := history + [population];
    forall g, i | 0 <= g < |history'| && 0 <= i < |history'[g]|
      ensures FitnessLe(FitnessOf(p, best), FitnessOf(p, history'[g][i]))
    {
      if g < |history| {
        assert history'[g] == history[g];
        FitnessLeIsTotalPreorder(FitnessOf(p, best), FitnessOf(p, previous), FitnessOf(p, history[g][i]));
      } else {
        assert history'[g] == population;
      }
    }
  }

  /** `HistoryStep` together with the fact that the new best is at least as
      fit as every schedule recorded so far, the new population included. */
  lemma RecordStep(p: Problem, populationSize: nat, draws: seq<seq<PairDraw>>,
    initial: seq<Schedule>, start: Option<Schedule>, history: seq<seq<Schedule>>, bests: seq<Schedule>,
    before: seq<Schedule>, previous: Option<Schedule>, population: seq<Schedule>,
    history': seq<seq<Schedule>>, bests': seq<Schedule>)
    requires ProblemOk(p) && EvolveHistory(p, populationSize, draws, initial, start, history, bests)
    requires |history| < |draws|
    requires |history| == 0 ==> before == initial && previous == start
    requires |history| > 0 ==> before == history[|history| - 1] && previous == Some(bests[|bests| - 1])
    requires |history| > 0 ==> FitterThanAll(p, bests[|bests| - 1], history)
    requires previous.Some? ==> Conforms(p, previous.value)
    requires NextOf(p, populationSize, before, draws[|history|], population)
    requires |population| > 0 && AllConform(p, population)
    requires history' == history + [population] && bests' == bests + [NewBest(p, previous, population)]
    ensures EvolveHistory(p, populationSize, draws, initial, start, history', bests')
    ensures FitterThanAll(p, bests'[|bests'| - 1], history')
  {
    HistoryStep(p, populationSize, draws, initial, start, history, bests, before, previous, population);
    NewBestIsFittest(p, previous, population);
    var best := NewBest(p, previous, population);
    var last := if |history| > 0 then bests[|bests| - 1] else best;
    FitterStep(p, history, last, population, best);
  }

  /** Appending a population and its `NewBest` keeps each best the one before
      updated with its generation's population. */
  lemma RecordedAppend(p: Problem, populationSize: nat, start: Option<Schedule>,
    history: seq<seq<Schedule>>, bests: seq<Schedule>, previous: Option<Schedule>, population: seq<Schedule>,
    best: Schedule, history': seq<seq<Schedule>>, bests': seq<Schedule>)
    requires ProblemOk(p) && populationSize > 0 && |history| == |bests|
    requires start.Some? ==> Conforms(p, start.value)
    requires PopulationsConform(p, history) && forall g :: 0 <= g < |history| ==> |history[g]| >= populationSize
    requires AllConform(p, bests)
    requires BestsRecorded(p, populationSize, start, history, bests)
    requires |population| >= populationSize && AllConform(p, population)
    requires |history| == 0 ==> previous == start
    requires |history| > 0 ==> previous == Some(bests[|bests| - 1])
    requires best == NewBest(p, previous, population)
    requires history' == history + [population] && bests' == bests + [best]
    requires PopulationsConform(p, history') && forall g :: 0 <= g < |history'| ==> |history'[g]| >= populationSize
    requires AllConform(p, bests')
    ensures BestsRecorded(p, populationSize, start, history', bests')
  {
    forall g, h | 0 <= g < h < |history'| && h == g + 1
      ensures bests'[h] == NewBest(p, Some(bests'[g]), history'[h])
    {
      AppendAt(history, population, h);
      AppendAt(bests, best, g);
      AppendAt(bests, best, h);
      if h < |history| {
        assert bests[h] == NewBest(p, Some(bests[g]), history[h]);
      } else {
        assert previous == Some(bests'[g]) && history'[h] == population && bests'[h] == best;
      }
    }
    if |history| == 0 {
      assert history'[0] == population && bests'[0] == best;
    } else {
      assert history'[0] == history[0] && bests'[0] == bests[0];
    }
  }

  /** One more generation extends the record: its population is bred from the
      last one (from `initial` for the first generation), and its best is the
      last best (`start` at first) updated with the new population. */
  lemma HistoryStep(p: Problem, populationSize: nat, draws: seq<seq<PairDraw>>,
    initial: seq<Schedule>, start: Option<Schedule>, history: seq<seq<Schedule>>, bests: seq<Schedule>,
    before: seq<Schedule>, previous: Option<Schedule>, population: seq<Schedule>)
    requires ProblemOk(p) && EvolveHistory(p, populationSize, draws, initial, start, history, bests)
    requires |history| < |draws|
    requires |history| == 0 ==> before == initial && previous == start
    requires |history| > 0 ==> before == history[|history| - 1] && previous == Some(bests[|bests| - 1])
    requires NextOf(p, populationSize, before, draws[|history|], population)
    ensures |population| > 0 && AllConform(p, population)
    ensures previous.Some? ==> Conforms(p, previous.value)
    ensures EvolveHistory(p, populationSize, draws, initial, start,
      history + [population], bests + [NewBest(p, previous, population)])
  {
    assert AllConform(p, population);
    var best := NewBest(p, previous, population);
    var history', bests' := history + [population], bests + [best];
    ShapeAppend(p, populationSize, history, bests, population, best);
    ChainAppend(p, populationSize, draws, history, before, population);
    RecordedAppend(p, populationSize, start, history, bests, previous, population, best, history', bests');
    if |bests| > 0 {
      assert history'[0] == history[0];
    } else {
      assert history' == [population];
      NextOfSame(p, populationSize, initial, draws[0], population, initial, history'[0]);
    }
    assert bests'[|bests|] == best;
  }

  class GeneticAlgorithm {
    const problem: Problem
    const populationSize: nat
    const generations: nat
    var population: seq<Schedule>
    var bestSchedule: Option<Schedule>

    predicate Valid()
      reads this
    {
      && ProblemOk(problem)
      && AllConform(problem, population)
      && (bestSchedule.Some? ==> Conforms(problem, bestSchedule.value))
    }

    /** The best schedule is at least as fit as every member of the population. */
    predicate BestIsFittest()
      reads this
      requires Valid()
    {
      && bestSchedule.Some?
      && forall i {:trigger FitnessOf(problem, population[i])} :: 0 <= i < |population| ==>
            FitnessLe(FitnessOf(problem, bestSchedule.value), FitnessOf(problem, population[i]))
    }

    constructor (problem: Problem, populationSize: nat := 50, generations: nat := 100)
      ensures this.problem == problem
      ensures this.populationSize == populationSize && this.generations == generations
      ensures population == [] && bestSchedule == None
    {
      this.problem := problem;
      this.populationSize := populationSize;
      this.generations := generations;
      population := [];
      bestSchedule := None;
    }

    /** `initialize_population`: appends `population_size` random schedules to
        whatever the population already holds. */
    method InitializePopulation(choices: seq<seq<nat>>)
      requires Valid()
      requires |choices| == populationSize && forall k :: 0 <= k < |choices| ==> ChoicesFit(problem, choices[k])
      modifies this
      ensures Valid() && bestSchedule == old(bestSchedule)
      ensures |population| == |old(population)| + populationSize
      ensures population[..|old(population)|] == old(population)
      ensures forall k :: 0 <= k < populationSize ==>
        IsRandomSchedule(problem, choices[k], population[|old(population)| + k])
    {
      var k := 0;
      while k < populationSize
        invariant 0 <= k <= populationSize
        invariant Valid() && bestSchedule == old(bestSchedule)
        invariant |population| == |old(population)| + k
        invariant population[..|old(population)|] == old(population)
        invariant forall j :: 0 <= j < k ==> IsRandomSchedule(problem, choices[j], population[|old(population)| + j])
      {
        var schedule := GenerateRandomSchedule(problem, choices[k]);
        RandomScheduleConforms(problem, choices[k], schedule);
        population := population + [schedule];
        k := k + 1;
      }
    }

    /** The population half of one round of `evolve`'s generation loop: keep the
        fittest fifth as parents and breed offspring until the population is back
        to its size. */
    method Reproduce(draws: seq<PairDraw>)
      requires Valid() && populationSize > 0
      requires DrawsFit(problem, ParentCount(populationSize, |population|),
        populationSize - ParentCount(populationSize, |population|), draws)
      modifies this
      ensures Valid() && bestSchedule == old(bestSchedule)
      ensures population == NextPopulation(problem, populationSize, old(population), draws)
      ensures |population| >= populationSize
    {
      var parents := SelectParents(problem, populationSize, population);
      NextPopulationParts(problem, populationSize, population, draws);
      var offspring := BreedOffspring(problem, parents, populationSize - |parents|, draws);
      population := parents + offspring;
    }

    /** The other half: the population's first fittest member becomes the best
        schedule when there is none yet or when it is strictly fitter. */
    method RecordBest()
      requires Valid() && |population| > 0
      modifies this
      ensures Valid() && BestIsFittest() && population == old(population)
      ensures bestSchedule == old(bestSchedule) || bestSchedule == Some(FirstFittest(problem, population))
      ensures old(bestSchedule).Some? ==>
        var before, after := FitnessOf(problem, old(bestSchedule).value), FitnessOf(problem, bestSchedule.value);
        FitnessLe(after, before) && (bestSchedule != old(bestSchedule) ==> FitnessLt(after, before))
      ensures bestSchedule == Some(NewBest(problem, old(bestSchedule), population))
    {
      var current := FirstFittest(problem, population);
      ConformingScheduleOk(problem, current);
      var currentFitness := EvaluateFitness(problem, current);
      if bestSchedule.None? {
        bestSchedule := Some(current);
      } else {
        ConformingScheduleOk(problem, bestSchedule.value);
        var bestFitness := EvaluateFitness(problem, bestSchedule.value);
        if FitnessLt(currentFitness, bestFitness) {
          bestSchedule := Some(current);
        }
      }
      assert bestSchedule == Some(NewBest(problem, old(bestSchedule), population));
      NewBestIsFittest(problem, old(bestSchedule), population);
    }

    /** One round of `evolve`'s generation loop: the population becomes the next
        generation, and the best schedule is updated with it by `NewBest`, so it
        never gets worse. */
    method Generation(draws: seq<PairDraw>)
      requires Valid() && populationSize > 0
      requires DrawsFit(problem, ParentCount(populationSize, |population|),
        populationSize - ParentCount(populationSize, |population|), draws)
      modifies this
      ensures Valid() && BestIsFittest() && |population| >= populationSize
      ensures population == NextPopulation(problem, populationSize, old(population), draws)
      ensures NextOf(problem, populationSize, old(population), draws, population)
      ensures bestSchedule == old(bestSchedule) || bestSchedule == Some(FirstFittest(problem, population))
      ensures old(bestSchedule).Some? ==>
        var before, after := FitnessOf(problem, old(bestSchedule).value), FitnessOf(problem, bestSchedule.value);
        FitnessLe(after, before) && (bestSchedule != old(bestSchedule) ==> FitnessLt(after, before))
      ensures bestSchedule == Some(NewBest(problem, old(bestSchedule), population))
    {
      Reproduce(draws);
      RecordBest();
    }

    /** Generation `|history|` of the loop, with the record extended by the
        population it produced and the best schedule after it. */
    method RecordedGeneration(draws: seq<seq<PairDraw>>, g: nat, ghost initial: seq<Schedule>, ghost start: Option<Schedule>,
      ghost history: seq<seq<Schedule>>, ghost bests: seq<Schedule>)
      returns (ghost history': seq<seq<Schedule>>, ghost bests': seq<Schedule>)
      requires Valid() && populationSize >= 10 && |population| >= populationSize && g == |history| < |draws|
      requires DrawsFit(problem, populationSize / 5, populationSize - populationSize / 5, draws[g])
      requires EvolveHistory(problem, populationSize, draws, initial, start, history, bests)
      requires |history| == 0 ==> population == initial && bestSchedule == start
      requires |history| > 0 ==> history[|history| - 1] == population && bestSchedule == Some(bests[|bests| - 1])
      requires |history| > 0 ==> FitterThanAll(problem, bests[|bests| - 1], history)
      modifies this
      ensures Valid() && BestIsFittest() && |population| >= populationSize
      ensures EvolveHistory(problem, populationSize, draws, initial, start, history', bests')
      ensures |history'| == |history| + 1
      ensures history'[|history'| - 1] == population && bestSchedule == Some(bests'[|bests'| - 1])
      ensures FitterThanAll(problem, bests'[|bests'| - 1], history')
    {
      Generation(draws[g]);
      history', bests' := history + [population], bests + [bestSchedule.value];
      RecordStep(problem, populationSize, draws, initial, start, history, bests,
        old(population), old(bestSchedule), population, history', bests');
    }

    /** `evolve`'s generation loop, from the current population `initial` and
        best schedule `start`; `history` and `bests` record, per generation,
        the population produced and the best schedule after it. */
    method RunGenerations(draws: seq<seq<PairDraw>>, ghost initial: seq<Schedule>, ghost start: Option<Schedule>)
      returns (ghost history: seq<seq<Schedule>>, ghost bests: seq<Schedule>)
      requires Valid() && populationSize >= 10 && |population| >= populationSize && generations > 0
      requires population == initial && bestSchedule == start
      requires |draws| == generations
      requires forall g :: 0 <= g < |draws| ==>
        DrawsFit(problem, populationSize / 5, populationSize - populationSize / 5, draws[g])
      modifies this
      ensures Valid() && BestIsFittest() && bestSchedule.Some? && |population| >= populationSize
      ensures EvolveHistory(problem, populationSize, draws, initial, start, history, bests)
      ensures |history| == generations && history[|history| - 1] == population && bests[|bests| - 1] == bestSchedule.value
      ensures FitterThanAll(problem, bests[|bests| - 1], history)
    {
      history, bests := RecordedGeneration(draws, 0, initial, start, [], []);
      var g := 1;
      while g < generations
        invariant 1 <= g <= generations && |history| == g
        invariant Valid() && BestIsFittest() && |population| >= populationSize
        invariant EvolveHistory(problem, populationSize, draws, initial, start, history, bests)
        invariant history[|history| - 1] == population && bestSchedule == Some(bests[|bests| - 1])
        invariant FitterThanAll(problem, bests[|bests| - 1], history)
      {
        history, bests := RecordedGeneration(draws, g, initial, start, history, bests);
        g := g + 1;
      }
    }

    /** `evolve`: fill the population, run every generation, return the best
        schedule found. `initial` is the population the loop starts from;
        `history` and `bests` record, per generation, the population produced
        and the best schedule after it. */
    method Evolve(choices: seq<seq<nat>>, draws: seq<seq<PairDraw>>)
      returns (best: Schedule, ghost initial: seq<Schedule>, ghost history: seq<seq<Schedule>>, ghost bests: seq<Schedule>)
      requires Valid() && populationSize >= 10 && generations > 0
      requires |choices| == populationSize && forall k :: 0 <= k < |choices| ==> ChoicesFit(problem, choices[k])
      requires |draws| == generations
      requires forall g :: 0 <= g < |draws| ==>
        DrawsFit(problem, populationSize / 5, populationSize - populationSize / 5, draws[g])
      modifies this
      ensures Valid() && BestIsFittest() && bestSchedule == Some(best) && |population| >= populationSize
      ensures Conforms(problem, best)
      ensures |initial| == |old(population)| + populationSize && initial[..|old(population)|] == old(population)
      ensures forall k :: 0 <= k < populationSize ==>
        IsRandomSchedule(problem, choices[k], initial[|old(population)| + k])
      ensures EvolveHistory(problem, populationSize, draws, initial, old(bestSchedule), history, bests)
      ensures |history| == generations && history[|history| - 1] == population && bests[|bests| - 1] == best
      ensures FitterThanAll(problem, best, history)
      ensures Some(best) == old(bestSchedule) ||
        exists g, i :: 0 <= g < |history| && 0 <= i < |history[g]| && best == history[g][i]
      ensures forall g :: 0 <= g < |bests| ==>
        Some(bests[g]) == old(bestSchedule) || exists h, i :: 0 <= h <= g && 0 <= i < |history[h]| && bests[g] == history[h][i]
    {
      InitializePopulation(choices);
      initial := population;
      history, bests := RunGenerations(draws, initial, bestSchedule);
      best := bestSchedule.value;
      HistoryHasBests(problem, populationSize, draws, initial, old(bestSchedule), history, bests);
      LastBestWasSeen(problem, populationSize, old(bestSchedule), history, bests);
      forall g | 0 <= g < |bests|
        ensures Some(bests[g]) == old(bestSchedule) ||
          exists h, i :: 0 <= h <= g && 0 <= i < |history[h]| && bests[g] == history[h][i]
      {
        BestWasSeen(problem, populationSize, old(bestSchedule), history, bests, g);
      }
    }
  }
}
