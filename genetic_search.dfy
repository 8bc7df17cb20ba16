/**
 * run_genetic_algorithm_for_metric: a population of candidates is evaluated,
 * ranked by error (Python's stable `sorted`), its five best carried over
 * unchanged, and the rest of the next population bred from the better half
 * by crossover and mutation. The best candidate ever evaluated is kept.
 *
 * The search is stated twice: on genome values (NextGenomes, Evaluate),
 * which is what the properties are proved about, and on the individuals the
 * source manipulates, whose methods are proved to follow the values.
 */
module GeneticSearch {
  import opened Wrappers
  import opened Folds
  import opened ScoringConfig
  import opened JourneySimulator
  import opened Individuals
  import opened FitnessEvaluator

  const PopulationSize: nat := 100
  const Generations: nat := 50
  const MutationRate: real := 0.1
  const MutationStrength: real := 0.2
  /** The best individuals carried over unchanged. */
  const ElitismCount: nat := 5
  /** Parents are chosen among the better half. */
  const ParentPoolSize: nat := PopulationSize / 2
  /** The children bred per generation. */
  const ChildCount: nat := PopulationSize - ElitismCount

  // ---------------------------------------------------------------------------
  // Ranking: `sorted(zip(errors, population), key=lambda x: x[0])`

  /** Position x ranks before y: a smaller error, or an equal error and an earlier position. */
  predicate Before(x: nat, y: nat, e: seq<real>)
    requires x < |e| && y < |e|
  {
    e[x] < e[y] || (e[x] == e[y] && x < y)
  }

  predicate IndicesOf(s: seq<nat>, n: nat)
  {
    forall a :: 0 <= a < |s| ==> s[a] < n
  }

  predicate RankedBy(s: seq<nat>, e: seq<real>)
    requires IndicesOf(s, |e|)
  {
    forall a, b :: 0 <= a < b < |s| ==> Before(s[a], s[b], e)
  }

  /** The positions 0 .. n - 1. */
  function Indices(n: nat): (s: seq<nat>)
    ensures |s| == n
    ensures forall i :: 0 <= i < n ==> s[i] == i
  {
    seq(n, i requires 0 <= i < n => i)
  }

  /** Inserts position i after every ranked position whose error is at most e[i]. */
  function Insert(i: nat, s: seq<nat>, e: seq<real>): (r: seq<nat>)
    requires i < |e| && IndicesOf(s, |e|)
    ensures IndicesOf(r, |e|)
    ensures |r| == |s| + 1
  {
    if |s| == 0 then [i]
    else if e[s[0]] <= e[i] then
      assert s == [s[0]] + s[1..];
      [s[0]] + Insert(i, s[1..], e)
    else [i] + s
  }

  /** Inserting a position adds exactly that position. */
  lemma {:induction false} InsertMultiset(i: nat, s: seq<nat>, e: seq<real>)
    requires i < |e| && IndicesOf(s, |e|)
    ensures multiset(Insert(i, s, e)) == multiset(s) + multiset{i}
  {
    if |s| > 0 {
      assert s == [s[0]] + s[1..];
      if e[s[0]] <= e[i] {
        InsertMultiset(i, s[1..], e);
      }
    }
  }

  /** The first n positions, ranked: a stable sort by error. */
  function Rank(e: seq<real>, n: nat): (r: seq<nat>)
    requires n <= |e|
    ensures IndicesOf(r, |e|)
    ensures |r| == n
  {
    if n == 0 then [] else Insert(n - 1, Rank(e, n - 1), e)
  }

  function Ranked(e: seq<real>): (r: seq<nat>)
    ensures IndicesOf(r, |e|)
    ensures |r| == |e|
  {
    Rank(e, |e|)
  }

  lemma {:induction false} InsertRanked(i: nat, s: seq<nat>, e: seq<real>)
    requires i < |e| && IndicesOf(s, |e|)
    requires RankedBy(s, e)
    requires forall a :: 0 <= a < |s| ==> s[a] < i
    ensures RankedBy(Insert(i, s, e), e)
  {
    if |s| > 0 {
      var r := Insert(i, s, e);
      if e[s[0]] <= e[i] {
        var tail := s[1..];
        InsertRanked(i, tail, e);
        HeadBeforeInsert(i, s, e);
        var r' := Insert(i, tail, e);
        assert r == [s[0]] + r';
        forall a, b | 0 <= a < b < |r| ensures Before(r[a], r[b], e) {
          if a == 0 {
            assert r[b] == r'[b - 1];
          } else {
            assert r[a] == r'[a - 1] && r[b] == r'[b - 1];
          }
        }
      } else {
        InsertAtFrontRanked(i, s, e);
      }
    }
  }

  /** When i goes after the head of s, the head comes before everything inserted behind it. */
  lemma {:induction false} HeadBeforeInsert(i: nat, s: seq<nat>, e: seq<real>)
    requires i < |e| && IndicesOf(s, |e|) && |s| > 0
    requires RankedBy(s, e) && e[s[0]] <= e[i]
    requires forall a :: 0 <= a < |s| ==> s[a] < i
    ensures forall b :: 0 <= b < |s| ==> Before(s[0], Insert(i, s[1..], e)[b], e)
  {
    var tail := s[1..];
    var r' := Insert(i, tail, e);
    InsertMultiset(i, tail, e);
    forall b | 0 <= b < |r'| ensures Before(s[0], r'[b], e) {
      assert r'[b] in multiset(tail) + multiset{i};
      if r'[b] != i {
        assert r'[b] in tail;
        var c :| 0 <= c < |tail| && tail[c] == r'[b];
        assert s[c + 1] == r'[b];
      }
    }
  }

  /** When i goes in front of s, the result stays ranked. */
  lemma {:induction false} InsertAtFrontRanked(i: nat, s: seq<nat>, e: seq<real>)
    requires i < |e| && IndicesOf(s, |e|) && |s| > 0
    requires RankedBy(s, e) && e[i] < e[s[0]]
    ensures RankedBy(Insert(i, s, e), e)
  {
    var r := Insert(i, s, e);
    assert r == [i] + s;
    forall a, b | 0 <= a < b < |r| ensures Before(r[a], r[b], e) {
      if a == 0 {
        assert r[b] == s[b - 1];
        if b > 1 {
          assert Before(s[0], s[b - 1], e);
        }
      } else {
        assert r[a] == s[a - 1] && r[b] == s[b - 1];
      }
    }
  }

  /** The first n positions are ranked, each exactly once. */
  lemma {:induction false} RankPermutation(e: seq<real>, n: nat)
    requires n <= |e|
    ensures multiset(Rank(e, n)) == multiset(Indices(n))
  {
    if n > 0 {
      RankPermutation(e, n - 1);
      InsertMultiset(n - 1, Rank(e, n - 1), e);
      IndicesSnoc(n - 1);
    }
  }

  lemma IndicesSnoc(n: nat)
    ensures multiset(Indices(n + 1)) == multiset(Indices(n)) + multiset{n}
  {
    assert Indices(n + 1) == Indices(n) + [n];
  }

  lemma {:induction false} RankOrdered(e: seq<real>, n: nat)
    requires n <= |e|
    ensures RankedBy(Rank(e, n), e)
  {
    if n > 0 {
      RankOrdered(e, n - 1);
      RankBelow(e, n - 1);
      InsertRanked(n - 1, Rank(e, n - 1), e);
    }
  }

  /** The first n positions' ranking only holds positions below n. */
  lemma {:induction false} RankBelow(e: seq<real>, n: nat)
    requires n <= |e|
    ensures forall a :: 0 <= a < n ==> Rank(e, n)[a] < n
  {
    if n > 0 {
      RankBelow(e, n - 1);
      var s, r := Rank(e, n - 1), Rank(e, n);
      var last: nat := n - 1;
      InsertMultiset(last, s, e);
      forall a | 0 <= a < n ensures r[a] < n {
        assert r[a] in multiset(s) + multiset{last};
        if r[a] != last {
          assert r[a] in s;
        }
      }
    }
  }

  /**
   * What `sorted` promises: the ranking is a permutation of the positions,
   * ordered by error, and positions with equal errors keep their order.
   */
  lemma RankedSpec(e: seq<real>)
    ensures multiset(Ranked(e)) == multiset(Indices(|e|))
    ensures forall a, b :: 0 <= a < b < |e| ==> e[Ranked(e)[a]] <= e[Ranked(e)[b]]
    ensures forall a, b :: 0 <= a < b < |e| && e[Ranked(e)[a]] == e[Ranked(e)[b]] ==> Ranked(e)[a] < Ranked(e)[b]
  {
    RankOrdered(e, |e|);
    RankPermutation(e, |e|);
    var r := Ranked(e);
    forall a, b | 0 <= a < b < |e| ensures e[r[a]] <= e[r[b]] {
      assert Before(r[a], r[b], e);
    }
  }

  /** Every position appears in the ranking. */
  lemma RankedCovers(e: seq<real>, j: nat) returns (b: nat)
    requires j < |e|
    ensures b < |e| && Ranked(e)[b] == j
  {
    RankedSpec(e);
    assert Indices(|e|)[j] == j;
    assert j in multiset(Indices(|e|));
    assert j in multiset(Ranked(e));
    b :| 0 <= b < |e| && Ranked(e)[b] == j;
  }

  /** Every one of the first t ranked positions has an error no larger than any position ranked after them. */
  lemma RankedPrefixBest(e: seq<real>, t: nat)
    requires t <= |e|
    ensures forall a, j :: 0 <= a < t && 0 <= j < |e| && j !in Ranked(e)[..t] ==> e[Ranked(e)[a]] <= e[j]
  {
    RankedSpec(e);
    var r := Ranked(e);
    forall a, j | 0 <= a < t && 0 <= j < |e| && j !in r[..t]
      ensures e[r[a]] <= e[j]
    {
      var b := RankedCovers(e, j);
    }
  }

  /** The first ranked position has the least error of all. */
  lemma RankedFirstIsLeast(e: seq<real>)
    requires |e| > 0
    ensures forall j :: 0 <= j < |e| ==> e[Ranked(e)[0]] <= e[j]
  {
    RankedSpec(e);
    forall j | 0 <= j < |e| ensures e[Ranked(e)[0]] <= e[j] {
      var b := RankedCovers(e, j);
    }
  }

  // ---------------------------------------------------------------------------
  // One generation, on genome values

  /**
   * The draws behind one child: the two parents `random.sample` picks from
   * the better half (positions in the ranking), and the mutation's draws.
   */
  datatype ChildDraw = ChildDraw(first: nat, second: nat, mutation: MutationDraw)

  predicate ValidChildDraw(d: ChildDraw, m: Metric)
  {
    && d.first < ParentPoolSize && d.second < ParentPoolSize && d.first != d.second
    && ValidMutationDraw(d.mutation, KcSetFor(m))
  }

  predicate ValidChildDraws(draws: seq<ChildDraw>, m: Metric)
  {
    |draws| == ChildCount && forall k :: 0 <= k < |draws| ==> ValidChildDraw(draws[k], m)
  }

  predicate ValidPopulation(pop: seq<Genome>, m: Metric)
  {
    |pop| == PopulationSize && forall i {:trigger ValidFor(pop[i], m)} :: 0 <= i < |pop| ==> ValidFor(pop[i], m)
  }

  /** `mutate(crossover(p1, p2), ...)`: a child is valid whenever its parents are. */
  function ChildOf(p1: Genome, p2: Genome, m: Metric, d: MutationDraw): (child: Genome)
    requires ValidFor(p1, m) && ValidFor(p2, m)
    requires ValidMutationDraw(d, KcSetFor(m))
    ensures ValidFor(child, m)
  {
    CrossoverValid(p1, p2, m);
    MutateValid(CrossoverGenes(p1, p2), m, MutationRate, MutationStrength, d);
    MutateGenes(CrossoverGenes(p1, p2), m, MutationRate, MutationStrength, d)
  }

  /** The k-th bred child of a generation ranked by `ranked`. */
  function BredChild(pop: seq<Genome>, ranked: seq<nat>, m: Metric, d: ChildDraw): (child: Genome)
    requires ValidPopulation(pop, m) && |ranked| == |pop| && IndicesOf(ranked, |pop|)
    requires ValidChildDraw(d, m)
    ensures ValidFor(child, m)
  {
    ChildOf(pop[ranked[d.first]], pop[ranked[d.second]], m, d.mutation)
  }

  /** The next population: the elites in rank order, then the bred children in draw order. */
  function NextGenomes(pop: seq<Genome>, errors: seq<real>, m: Metric, draws: seq<ChildDraw>): (next: seq<Genome>)
    requires ValidPopulation(pop, m) && |errors| == |pop|
    requires ValidChildDraws(draws, m)
    ensures ValidPopulation(next, m)
  {
    var ranked := Ranked(errors);
    seq(ElitismCount, i requires 0 <= i < ElitismCount => pop[ranked[i]])
      + seq(ChildCount, k requires 0 <= k < ChildCount => BredChild(pop, ranked, m, draws[k]))
  }

  /** The elites lead the next population in rank order; the children follow in draw order. */
  lemma NextGenomesSpec(pop: seq<Genome>, errors: seq<real>, m: Metric, draws: seq<ChildDraw>)
    requires ValidPopulation(pop, m) && |errors| == |pop|
    requires ValidChildDraws(draws, m)
    ensures forall i :: 0 <= i < ElitismCount ==> NextGenomes(pop, errors, m, draws)[i] == pop[Ranked(errors)[i]]
    ensures forall k :: 0 <= k < ChildCount ==>
      NextGenomes(pop, errors, m, draws)[ElitismCount + k] == BredChild(pop, Ranked(errors), m, draws[k])
  {
  }

  /**
   * The error calculate_fitness gives each candidate against the given
   * players. The search below is stated for any error function, and the
   * run is tied to this one.
   */
  function ErrorOf(journeys: seq<Journey>): Genome -> real
    requires |journeys| > 0
    requires forall p :: 0 <= p < |journeys| ==> |journeys[p]| >= Chapters
  {
    g => FitnessOf(g, journeys).error
  }

  /** `[calculate_fitness(ind, ...)[0] for ind in population]`, for the error function errorOf. */
  function Evaluate(pop: seq<Genome>, errorOf: Genome -> real): (errors: seq<real>)
    ensures |errors| == |pop|
  {
    seq(|pop|, i requires 0 <= i < |pop| => errorOf(pop[i]))
  }

  /**
   * Elitism: the next population opens with ELITISM_COUNT members of the
   * current one, in increasing order of error, and none of them has a larger
   * error than any current member that was not carried over.
   */
  lemma Elitism(pop: seq<Genome>, m: Metric, errorOf: Genome -> real, draws: seq<ChildDraw>)
    requires ValidPopulation(pop, m) && ValidChildDraws(draws, m)
    ensures forall i :: 0 <= i < ElitismCount ==> NextGenomes(pop, Evaluate(pop, errorOf), m, draws)[i] in pop
    ensures forall i, k :: 0 <= i < k < ElitismCount ==>
      errorOf(NextGenomes(pop, Evaluate(pop, errorOf), m, draws)[i])
        <= errorOf(NextGenomes(pop, Evaluate(pop, errorOf), m, draws)[k])
    ensures forall i, j :: 0 <= i < ElitismCount && 0 <= j < |pop| && j !in Ranked(Evaluate(pop, errorOf))[..ElitismCount] ==>
      errorOf(NextGenomes(pop, Evaluate(pop, errorOf), m, draws)[i]) <= errorOf(pop[j])
  {
    var errors := Evaluate(pop, errorOf);
    var next := NextGenomes(pop, errors, m, draws);
    var r := Ranked(errors);
    NextGenomesSpec(pop, errors, m, draws);
    RankedSpec(errors);
    RankedPrefixBest(errors, ElitismCount);
    forall i | 0 <= i < ElitismCount
      ensures next[i] == pop[r[i]] && errorOf(next[i]) == errors[r[i]]
    {
    }
    forall i, j | 0 <= i < ElitismCount && 0 <= j < |pop| && j !in r[..ElitismCount]
      ensures errorOf(next[i]) <= errorOf(pop[j])
    {
      assert errors[j] == errorOf(pop[j]);
    }
  }

  /**
   * Elitism: the best candidate of a generation is the first of the next one,
   * so the best error never gets worse from one generation to the next.
   */
  lemma BestNeverWorsens(pop: seq<Genome>, m: Metric, errorOf: Genome -> real, draws: seq<ChildDraw>)
    requires ValidPopulation(pop, m) && ValidChildDraws(draws, m)
    ensures forall j :: 0 <= j < |pop| ==>
      errorOf(NextGenomes(pop, Evaluate(pop, errorOf), m, draws)[0]) <= errorOf(pop[j])
  {
    var errors := Evaluate(pop, errorOf);
    RankedFirstIsLeast(errors);
    NextGenomesSpec(pop, errors, m, draws);
    var r := Ranked(errors);
    assert NextGenomes(pop, errors, m, draws)[0] == pop[r[0]];
    assert errors[r[0]] == errorOf(pop[r[0]]);
    forall j | 0 <= j < |pop| ensures errorOf(pop[r[0]]) <= errorOf(pop[j]) {
      assert errors[j] == errorOf(pop[j]);
    }
  }

  /**
   * Selection: the elites and both parents of every child come from the
   * top of the ranking, so their errors are no larger than those of any
   * candidate ranked below the parent pool.
   */
  lemma SelectionFromTop(errors: seq<real>, draws: seq<ChildDraw>, m: Metric, j: nat)
    requires |errors| == PopulationSize && ValidChildDraws(draws, m)
    requires j < |errors| && j !in Ranked(errors)[..ParentPoolSize]
    ensures forall i :: 0 <= i < ElitismCount ==> errors[Ranked(errors)[i]] <= errors[j]
    ensures forall k :: 0 <= k < ChildCount ==>
      errors[Ranked(errors)[draws[k].first]] <= errors[j] && errors[Ranked(errors)[draws[k].second]] <= errors[j]
  {
    RankedPrefixBest(errors, ParentPoolSize);
  }

  /** The first population: one random individual per draw. */
  function InitialGenomes(m: Metric, initial: seq<GenomeDraw>): (pop: seq<Genome>)
    requires forall i :: 0 <= i < |initial| ==> ValidGenomeDraw(initial[i], m)
    ensures |pop| == |initial|
    ensures forall i :: 0 <= i < |initial| ==> pop[i] == RandomGenome(m, initial[i])
  {
    seq(|initial|, i requires 0 <= i < |initial| => RandomGenome(m, initial[i]))
  }

  /** The first population is valid: every random candidate is. */
  lemma InitialGenomesValid(m: Metric, initial: seq<GenomeDraw>)
    requires |initial| == PopulationSize
    requires forall i :: 0 <= i < |initial| ==> ValidGenomeDraw(initial[i], m)
    ensures ValidPopulation(InitialGenomes(m, initial), m)
  {
    forall i | 0 <= i < |initial| ensures ValidFor(InitialGenomes(m, initial)[i], m) {
      RandomGenomeValid(m, initial[i]);
    }
  }

  // ---------------------------------------------------------------------------
  // The same, on individuals

  /** The individuals of pop carry the genomes gs, position by position. */
  ghost predicate Carries(pop: seq<Individual>, gs: seq<Genome>)
    reads pop
  {
    |pop| == |gs| && forall i :: 0 <= i < |pop| ==> pop[i].Genes() == gs[i]
  }

  /** `[create_random_individual(m) for _ in range(POPULATION_SIZE)]`. */
  method CreatePopulation(m: Metric, initial: seq<GenomeDraw>) returns (population: seq<Individual>)
    requires forall i :: 0 <= i < |initial| ==> ValidGenomeDraw(initial[i], m)
    ensures Carries(population, InitialGenomes(m, initial))
    ensures forall i :: 0 <= i < |population| ==> fresh(population[i])
  {
    ghost var expected := InitialGenomes(m, initial);
    population := [];
    for i := 0 to |initial|
      invariant |population| == i
      invariant forall j :: 0 <= j < i ==> fresh(population[j])
      invariant forall j :: 0 <= j < i ==> population[j].Genes() == expected[j]
    {
      var ind := new Individual.Random(m, initial[i]);
      population := population + [ind];
      assert population[i].Genes() == expected[i];
    }
  }

  /**
   * errorOf gives every candidate the error calculate_fitness computes
   * against journeys. (Stated so that only a mention of FitnessOf brings
   * the definition of the fitness into a proof.)
   */
  ghost predicate MeasuresFitness(errorOf: Genome -> real, journeys: seq<Journey>)
    requires |journeys| > 0 && ScorableJourneys(journeys)
  {
    forall g {:trigger FitnessOf(g, journeys)} :: errorOf(g) == FitnessOf(g, journeys).error
  }

  lemma ErrorOfMeasuresFitness(journeys: seq<Journey>)
    requires |journeys| > 0 && ScorableJourneys(journeys)
    ensures MeasuresFitness(ErrorOf(journeys), journeys)
  {
  }

  /** `[calculate_fitness(ind, ...)[0] for ind in population]`. */
  method EvaluatePopulation(population: seq<Individual>, journeys: seq<Journey>,
                            ghost errorOf: Genome -> real, ghost pop: seq<Genome>)
    returns (errors: seq<real>)
    requires |journeys| > 0 && ScorableJourneys(journeys) && MeasuresFitness(errorOf, journeys)
    requires Carries(population, pop)
    ensures errors == Evaluate(pop, errorOf)
  {
    errors := [];
    for i := 0 to |population|
      invariant |errors| == i
      invariant forall j :: 0 <= j < i ==> errors[j] == errorOf(pop[j])
    {
      var error, _ := CalculateFitness(population[i].Genes(), journeys);
      errors := errors + [error];
    }
  }

  /** `child = crossover(parent1, parent2); child = mutate(child, ...)`. */
  method Breed(parent1: Individual, parent2: Individual, m: Metric, d: MutationDraw) returns (child: Individual)
    requires ValidFor(parent1.Genes(), m) && ValidFor(parent2.Genes(), m)
    requires ValidMutationDraw(d, KcSetFor(m))
    ensures fresh(child)
    ensures child.Genes() == ChildOf(parent1.Genes(), parent2.Genes(), m, d)
  {
    child := Individual.Crossover(parent1, parent2);
    CrossoverValid(parent1.Genes(), parent2.Genes(), m);
    child.Mutate(m, MutationRate, MutationStrength, d);
  }

  /**
   * The breeding loop: one child per draw, both parents taken from the
   * parent pool at the positions the draw names.
   */
  method BreedChildren(parents: seq<Individual>, m: Metric, draws: seq<ChildDraw>, ghost pool: seq<Genome>)
    returns (children: seq<Individual>)
    requires Carries(parents, pool) && |pool| == ParentPoolSize
    requires forall i :: 0 <= i < |pool| ==> ValidFor(pool[i], m)
    requires ValidChildDraws(draws, m)
    ensures |children| == |draws|
    ensures forall k :: 0 <= k < |children| ==> fresh(children[k])
    ensures forall k :: 0 <= k < |children| ==>
      children[k].Genes() == ChildOf(pool[draws[k].first], pool[draws[k].second], m, draws[k].mutation)
  {
    children := [];
    for k := 0 to |draws|
      invariant |children| == k
      invariant forall j :: 0 <= j < k ==> fresh(children[j])
      invariant BredFrom(children, pool, m, draws)
    {
      var d := draws[k];
      var parent1, parent2 := parents[d.first], parents[d.second];
      assert parent1.Genes() == pool[d.first] && parent2.Genes() == pool[d.second];
      var child := Breed(parent1, parent2, m, d.mutation);
      BredFromSnoc(children, child, pool, m, draws);
      children := children + [child];
    }
  }

  /** Child j of `children` is the mutated crossover of the parents draw j names. */
  ghost predicate BredFrom(children: seq<Individual>, pool: seq<Genome>, m: Metric, draws: seq<ChildDraw>)
    requires |pool| == ParentPoolSize && forall i :: 0 <= i < |pool| ==> ValidFor(pool[i], m)
    requires ValidChildDraws(draws, m)
    reads children
  {
    && |children| <= |draws|
    && forall j :: 0 <= j < |children| ==>
      children[j].Genes() == ChildOf(pool[draws[j].first], pool[draws[j].second], m, draws[j].mutation)
  }

  lemma BredFromSnoc(children: seq<Individual>, child: Individual, pool: seq<Genome>, m: Metric, draws: seq<ChildDraw>)
    requires |pool| == ParentPoolSize && forall i :: 0 <= i < |pool| ==> ValidFor(pool[i], m)
    requires ValidChildDraws(draws, m)
    requires BredFrom(children, pool, m, draws) && |children| < |draws|
    requires child.Genes() == ChildOf(pool[draws[|children|].first], pool[draws[|children|].second], m, draws[|children|].mutation)
    ensures BredFrom(children + [child], pool, m, draws)
  {
  }

  /**
   * One round of selection and breeding. Nothing that exists beforehand is
   * modified: the elites are the same objects, and every child is new.
   */
  method NextGeneration(population: seq<Individual>, errors: seq<real>, m: Metric, draws: seq<ChildDraw>,
                        ghost pop: seq<Genome>)
    returns (next: seq<Individual>)
    requires Carries(population, pop) && ValidPopulation(pop, m) && |errors| == |pop|
    requires ValidChildDraws(draws, m)
    ensures Carries(next, NextGenomes(pop, errors, m, draws))
    ensures forall i :: 0 <= i < ElitismCount ==> next[i] == population[Ranked(errors)[i]]
    ensures forall i :: ElitismCount <= i < |next| ==> fresh(next[i])
  {
    var ranked := Ranked(errors);
    var elites := seq(ElitismCount, i requires 0 <= i < ElitismCount => population[ranked[i]]);
    var parents := seq(ParentPoolSize, i requires 0 <= i < ParentPoolSize => population[ranked[i]]);
    ghost var pool := seq(ParentPoolSize, i requires 0 <= i < ParentPoolSize => pop[ranked[i]]);
    ghost var eliteGenes := seq(ElitismCount, i requires 0 <= i < ElitismCount => pop[ranked[i]]);
    ghost var childGenes := seq(ChildCount, k requires 0 <= k < ChildCount => BredChild(pop, ranked, m, draws[k]));
    assert NextGenomes(pop, errors, m, draws) == eliteGenes + childGenes;
    assert Carries(elites, eliteGenes) by {
      forall i | 0 <= i < ElitismCount ensures elites[i].Genes() == eliteGenes[i] {
        assert population[ranked[i]].Genes() == pop[ranked[i]];
      }
    }
    var children := BreedChildren(parents, m, draws, pool);
    assert Carries(children, childGenes);
    CarriesConcat(elites, eliteGenes, children, childGenes);
    next := elites + children;
  }

  /** Populations that carry two genome lists, one after the other, carry the two lists joined. */
  lemma CarriesConcat(a: seq<Individual>, ga: seq<Genome>, b: seq<Individual>, gb: seq<Genome>)
    requires Carries(a, ga) && Carries(b, gb)
    ensures Carries(a + b, ga + gb)
  {
    forall i | 0 <= i < |a + b| ensures (a + b)[i].Genes() == (ga + gb)[i] {
      if i >= |a| {
        assert (a + b)[i] == b[i - |a|];
      }
    }
  }

  /** What a run needs: a valid draw per first candidate and valid breeding draws per generation. */
  predicate ValidRunInputs(m: Metric, initial: seq<GenomeDraw>, draws: seq<seq<ChildDraw>>)
  {
    && |initial| == PopulationSize
    && (forall i :: 0 <= i < |initial| ==> ValidGenomeDraw(initial[i], m))
    && |draws| == Generations
    && (forall g :: 0 <= g < |draws| ==> ValidChildDraws(draws[g], m))
  }

  /**
   * The population a run evaluates after the generations h: the initial
   * one, or the one bred from the last generation of h.
   */
  function NextPopulation(h: seq<seq<Genome>>, m: Metric, errorOf: Genome -> real,
                          initial: seq<GenomeDraw>, draws: seq<seq<ChildDraw>>): (pop: seq<Genome>)
    requires ValidRunInputs(m, initial, draws) && |h| <= Generations
    requires |h| > 0 ==> ValidPopulation(h[|h| - 1], m)
    ensures ValidPopulation(pop, m)
  {
    if |h| == 0 then
      InitialGenomesValid(m, initial);
      InitialGenomes(m, initial)
    else
      var last := h[|h| - 1];
      NextGenomes(last, Evaluate(last, errorOf), m, draws[|h| - 1])
  }

  /**
   * h is the sequence of populations a run evaluates, generation by
   * generation: the initial population first, then each bred from the one
   * before by elitism, crossover and mutation.
   */
  ghost predicate IsRun(h: seq<seq<Genome>>, m: Metric, errorOf: Genome -> real,
                        initial: seq<GenomeDraw>, draws: seq<seq<ChildDraw>>)
    requires ValidRunInputs(m, initial, draws)
    ensures IsRun(h, m, errorOf, initial, draws) && |h| > 0 ==> ValidPopulation(h[|h| - 1], m)
    decreases |h|
  {
    if |h| == 0 then true
    else
      var previous := h[..|h| - 1];
      && |h| <= Generations
      && IsRun(previous, m, errorOf, initial, draws)
      && h[|h| - 1] == NextPopulation(previous, m, errorOf, initial, draws)
  }

  /** Evaluating the next population extends a run by one generation. */
  lemma RunExtend(h: seq<seq<Genome>>, m: Metric, errorOf: Genome -> real,
                  initial: seq<GenomeDraw>, draws: seq<seq<ChildDraw>>)
    requires ValidRunInputs(m, initial, draws)
    requires IsRun(h, m, errorOf, initial, draws) && |h| < Generations
    ensures IsRun(h + [NextPopulation(h, m, errorOf, initial, draws)], m, errorOf, initial, draws)
  {
    assert (h + [NextPopulation(h, m, errorOf, initial, draws)])[..|h|] == h;
  }

  // ---------------------------------------------------------------------------
  // Keeping the best

  /** The least error of a generation: the one at the head of its ranking. */
  function Least(errors: seq<real>): real
    requires |errors| > 0
  {
    errors[Ranked(errors)[0]]
  }

  /**
   * The generation whose leader the run keeps, given each generation's
   * least error: the first generation, then any later one whose least
   * error is strictly below the best kept so far.
   */
  function BestGeneration(leasts: seq<real>): (b: nat)
    requires |leasts| > 0
    ensures b < |leasts|
  {
    if |leasts| == 1 then 0
    else
      var n := |leasts| - 1;
      var b := BestGeneration(leasts[..n]);
      if leasts[n] < leasts[b] then n else b
  }

  /** One more generation: it takes over exactly when its least error is strictly below the kept one. */
  lemma BestGenerationStep(leasts: seq<real>, least: real)
    requires |leasts| > 0
    ensures BestGeneration(leasts + [least]) ==
      if least < leasts[BestGeneration(leasts)] then |leasts| else BestGeneration(leasts)
  {
    assert (leasts + [least])[..|leasts|] == leasts;
  }

  /**
   * The kept generation is the first one to reach the least error: its
   * error is at most every generation's, and strictly below every earlier one's.
   */
  lemma {:induction false} BestGenerationSpec(leasts: seq<real>)
    requires |leasts| > 0
    ensures forall g :: 0 <= g < |leasts| ==> leasts[BestGeneration(leasts)] <= leasts[g]
    ensures forall g :: 0 <= g < BestGeneration(leasts) ==> leasts[BestGeneration(leasts)] < leasts[g]
  {
    if |leasts| > 1 {
      var n := |leasts| - 1;
      var prefix := leasts[..n];
      BestGenerationSpec(prefix);
      var pb := BestGeneration(prefix);
      assert prefix[pb] == leasts[pb];
      forall g | 0 <= g < n
        ensures leasts[g] == prefix[g]
      {
      }
    }
  }

  predicate NonEmptyGenerations(h: seq<seq<Genome>>)
  {
    forall g :: 0 <= g < |h| ==> |h[g]| > 0
  }

  /** The least error of each generation of h, in order. */
  function Leasts(h: seq<seq<Genome>>, errorOf: Genome -> real): (leasts: seq<real>)
    requires NonEmptyGenerations(h)
    ensures |leasts| == |h|
  {
    seq(|h|, g requires 0 <= g < |h| => Least(Evaluate(h[g], errorOf)))
  }

  /** One more generation adds its least error at the end. */
  lemma LeastsExtend(h: seq<seq<Genome>>, pop: seq<Genome>, errorOf: Genome -> real)
    requires NonEmptyGenerations(h) && |pop| > 0
    ensures NonEmptyGenerations(h + [pop])
    ensures Leasts(h + [pop], errorOf) == Leasts(h, errorOf) + [Least(Evaluate(pop, errorOf))]
  {
    var h' := h + [pop];
    assert forall g :: 0 <= g < |h| ==> h'[g] == h[g];
  }

  /** The candidate at the head of generation g's ranking. */
  function Leader(h: seq<seq<Genome>>, errorOf: Genome -> real, g: nat): Genome
    requires g < |h| && |h[g]| > 0
  {
    h[g][Ranked(Evaluate(h[g], errorOf))[0]]
  }

  /**
   * The run keeps the best individual it evaluated: the kept error is at
   * most that of every candidate of every generation, and strictly below
   * that of every candidate of the generations before the kept one.
   */
  lemma KeepsBest(h: seq<seq<Genome>>, errorOf: Genome -> real)
    requires |h| > 0 && NonEmptyGenerations(h)
    ensures var leasts := Leasts(h, errorOf);
      var b := BestGeneration(leasts);
      && (forall g, i :: 0 <= g < |h| && 0 <= i < |h[g]| ==> leasts[b] <= errorOf(h[g][i]))
      && (forall g, i :: 0 <= g < b && 0 <= i < |h[g]| ==> leasts[b] < errorOf(h[g][i]))
      && leasts[b] == errorOf(Leader(h, errorOf, b))
  {
    var leasts := Leasts(h, errorOf);
    BestGenerationSpec(leasts);
    var b := BestGeneration(leasts);
    forall g, i | 0 <= g < |h| && 0 <= i < |h[g]|
      ensures leasts[g] <= errorOf(h[g][i])
    {
      var errors := Evaluate(h[g], errorOf);
      RankedFirstIsLeast(errors);
      assert leasts[g] == errors[Ranked(errors)[0]];
      assert errors[i] == errorOf(h[g][i]);
    }
    var errors := Evaluate(h[b], errorOf);
    assert leasts[b] == errors[Ranked(errors)[0]];
  }

  /**
   * run_genetic_algorithm_for_metric: the ghost outputs are the generations
   * the run evaluated and their least errors. It returns the leader of the
   * generation BestGeneration picks, with its error and win shares recomputed.
   */
  method RunGeneticAlgorithm(m: Metric, journeys: seq<Journey>, initial: seq<GenomeDraw>, draws: seq<seq<ChildDraw>>)
    returns (best: Individual, bestError: real, bestWinPct: seq<real>,
             ghost history: seq<seq<Genome>>, ghost leasts: seq<real>)
    requires ValidRunInputs(m, initial, draws) && |journeys| > 0 && ScorableJourneys(journeys)
    ensures IsRun(history, m, ErrorOf(journeys), initial, draws) && |history| == Generations
    ensures NonEmptyGenerations(history) && leasts == Leasts(history, ErrorOf(journeys))
    ensures best.Genes() == Leader(history, ErrorOf(journeys), BestGeneration(leasts))
    ensures Fitness(bestError, bestWinPct) == FitnessOf(best.Genes(), journeys)
    ensures bestError == leasts[BestGeneration(leasts)]
    ensures forall g, i :: 0 <= g < |history| && 0 <= i < |history[g]| ==> bestError <= ErrorOf(journeys)(history[g][i])
    ensures forall g, i :: 0 <= g < BestGeneration(leasts) && 0 <= i < |history[g]| ==>
      bestError < ErrorOf(journeys)(history[g][i])
  {
    ErrorOfMeasuresFitness(journeys);
    var population := CreatePopulation(m, initial);
    best, history, leasts := Evolve(population, m, journeys, initial, draws, ErrorOf(journeys));
    ghost var genes := best.Genes();
    bestError, bestWinPct := CalculateFitness(best.Genes(), journeys);
    assert best.Genes() == genes;
    KeepsBest(history, ErrorOf(journeys));
  }

  /** After gen generations: the run so far and its least errors. */
  ghost predicate RunSoFar(gen: nat, history: seq<seq<Genome>>, leasts: seq<real>,
                           m: Metric, errorOf: Genome -> real, initial: seq<GenomeDraw>, draws: seq<seq<ChildDraw>>)
    requires ValidRunInputs(m, initial, draws)
  {
    && gen <= Generations && |history| == gen
    && IsRun(history, m, errorOf, initial, draws) && NonEmptyGenerations(history)
    && leasts == Leasts(history, errorOf)
  }

  /**
   * After gen generations: no best yet at the start, and afterwards the
   * leader of the generation BestGeneration picks, with its least error.
   */
  ghost predicate KeptSoFar(gen: nat, history: seq<seq<Genome>>, leasts: seq<real>,
                            best: Individual?, bestError: Option<real>, errorOf: Genome -> real)
    requires NonEmptyGenerations(history) && |history| == gen && leasts == Leasts(history, errorOf)
    reads best
  {
    && (gen == 0 <==> bestError.None?)
    && (gen > 0 ==> best != null && bestError == Some(leasts[BestGeneration(leasts)]))
    && (gen > 0 ==> best.Genes() == Leader(history, errorOf, BestGeneration(leasts)))
  }

  /**
   * The state of the generation loop after gen generations: the population
   * about to be evaluated, the generations evaluated so far with their
   * least errors, and the best individual kept with its error.
   */
  ghost predicate Evolving(gen: nat, population: seq<Individual>, history: seq<seq<Genome>>, leasts: seq<real>,
                           best: Individual?, bestError: Option<real>,
                           m: Metric, errorOf: Genome -> real, initial: seq<GenomeDraw>, draws: seq<seq<ChildDraw>>)
    requires ValidRunInputs(m, initial, draws)
    reads population, best
  {
    && RunSoFar(gen, history, leasts, m, errorOf, initial, draws)
    && Carries(population, NextPopulation(history, m, errorOf, initial, draws))
    && KeptSoFar(gen, history, leasts, best, bestError, errorOf)
  }

  /**
   * The generation loop of run_genetic_algorithm_for_metric: evaluate,
   * keep the leader when it beats the best so far, breed the next population.
   */
  method Evolve(population: seq<Individual>, m: Metric, journeys: seq<Journey>,
                initial: seq<GenomeDraw>, draws: seq<seq<ChildDraw>>, ghost errorOf: Genome -> real)
    returns (best: Individual, ghost history: seq<seq<Genome>>, ghost leasts: seq<real>)
    requires ValidRunInputs(m, initial, draws) && |journeys| > 0 && ScorableJourneys(journeys)
    requires MeasuresFitness(errorOf, journeys)
    requires Carries(population, InitialGenomes(m, initial))
    ensures IsRun(history, m, errorOf, initial, draws) && |history| == Generations
    ensures NonEmptyGenerations(history) && leasts == Leasts(history, errorOf)
    ensures best.Genes() == Leader(history, errorOf, BestGeneration(leasts))
  {
    history := [];
    var population := population;
    var bestOverall: Individual? := null;
    var bestOverallFitness: Option<real> := None;
    leasts := [];
    for gen := 0 to Generations
      invariant Evolving(gen, population, history, leasts, bestOverall, bestOverallFitness, m, errorOf, initial, draws)
    {
      population, history, leasts, bestOverall, bestOverallFitness :=
        Advance(gen, population, history, leasts, bestOverall, bestOverallFitness, m, journeys, errorOf, initial, draws);
    }
    best := bestOverall;
  }

  /** One pass of the generation loop. */
  method Advance(gen: nat, population: seq<Individual>, ghost history: seq<seq<Genome>>, ghost leasts: seq<real>,
                 best: Individual?, bestError: Option<real>,
                 m: Metric, journeys: seq<Journey>, ghost errorOf: Genome -> real,
                 initial: seq<GenomeDraw>, draws: seq<seq<ChildDraw>>)
    returns (population': seq<Individual>, ghost history': seq<seq<Genome>>, ghost leasts': seq<real>,
             best': Individual?, bestError': Option<real>)
    requires ValidRunInputs(m, initial, draws) && |journeys| > 0 && ScorableJourneys(journeys)
    requires MeasuresFitness(errorOf, journeys) && gen < Generations
    requires Evolving(gen, population, history, leasts, best, bestError, m, errorOf, initial, draws)
    ensures Evolving(gen + 1, population', history', leasts', best', bestError', m, errorOf, initial, draws)
  {
    ghost var current := NextPopulation(history, m, errorOf, initial, draws);
    assert RunSoFar(gen, history, leasts, m, errorOf, initial, draws);
    assert Carries(population, current);
    assert KeptSoFar(gen, history, leasts, best, bestError, errorOf);
    var next, leader, least := Generation(population, m, journeys, draws[gen], errorOf, current);
    assert KeptSoFar(gen, history, leasts, best, bestError, errorOf);
    if bestError.None? || least < bestError.value {
      best', bestError' := leader, Some(least);
    } else {
      best', bestError' := best, bestError;
    }
    history' := history + [current];
    leasts' := leasts + [least];
    RunAdvance(gen, history, leasts, current, least, m, errorOf, initial, draws);
    KeptAdvance(gen, history, leasts, current, least, leader, best, bestError, best', bestError', errorOf);
    population' := next;
  }

  /**
   * The body of the generation loop: evaluate every individual, rank them,
   * report the leader and its error, and breed the next population.
   */
  method Generation(population: seq<Individual>, m: Metric, journeys: seq<Journey>, draws: seq<ChildDraw>,
                    ghost errorOf: Genome -> real, ghost pop: seq<Genome>)
    returns (next: seq<Individual>, leader: Individual, least: real)
    requires |journeys| > 0 && ScorableJourneys(journeys) && MeasuresFitness(errorOf, journeys)
    requires Carries(population, pop) && ValidPopulation(pop, m) && ValidChildDraws(draws, m)
    ensures least == Least(Evaluate(pop, errorOf)) && least == errorOf(leader.Genes())
    ensures leader == population[Ranked(Evaluate(pop, errorOf))[0]]
    ensures Carries(next, NextGenomes(pop, Evaluate(pop, errorOf), m, draws))
    ensures forall i :: 0 <= i < ElitismCount ==> next[i] == population[Ranked(Evaluate(pop, errorOf))[i]]
    ensures forall i :: ElitismCount <= i < |next| ==> fresh(next[i])
  {
    var errors := EvaluatePopulation(population, journeys, errorOf, pop);
    var ranked := Ranked(errors);
    least := errors[ranked[0]];
    leader := population[ranked[0]];
    next := NextGeneration(population, errors, m, draws, pop);
  }

  /** One more generation extends the run and its least errors. */
  lemma RunAdvance(gen: nat, history: seq<seq<Genome>>, leasts: seq<real>, current: seq<Genome>, least: real,
                   m: Metric, errorOf: Genome -> real, initial: seq<GenomeDraw>, draws: seq<seq<ChildDraw>>)
    requires ValidRunInputs(m, initial, draws) && gen < Generations
    requires RunSoFar(gen, history, leasts, m, errorOf, initial, draws)
    requires current == NextPopulation(history, m, errorOf, initial, draws)
    requires least == Least(Evaluate(current, errorOf))
    ensures RunSoFar(gen + 1, history + [current], leasts + [least], m, errorOf, initial, draws)
    ensures NextPopulation(history + [current], m, errorOf, initial, draws)
      == NextGenomes(current, Evaluate(current, errorOf), m, draws[gen])
  {
    RunExtend(history, m, errorOf, initial, draws);
    LeastsExtend(history, current, errorOf);
  }

  /**
   * One more generation: the kept leader is the new generation's leader when
   * there was none or its least error is strictly below the kept one, and
   * the earlier kept leader otherwise.
   */
  lemma KeptAdvance(gen: nat, history: seq<seq<Genome>>, leasts: seq<real>, current: seq<Genome>, least: real,
                    leader: Individual, best: Individual?, bestError: Option<real>,
                    best': Individual?, bestError': Option<real>, errorOf: Genome -> real)
    requires NonEmptyGenerations(history) && |history| == gen && leasts == Leasts(history, errorOf)
    requires KeptSoFar(gen, history, leasts, best, bestError, errorOf)
    requires |current| > 0 && least == Least(Evaluate(current, errorOf))
    requires leader.Genes() == current[Ranked(Evaluate(current, errorOf))[0]]
    requires if bestError.None? || least < bestError.value then best' == leader && bestError' == Some(least)
             else best' == best && bestError' == bestError
    ensures NonEmptyGenerations(history + [current]) && Leasts(history + [current], errorOf) == leasts + [least]
    ensures KeptSoFar(gen + 1, history + [current], leasts + [least], best', bestError', errorOf)
  {
    LeastsExtend(history, current, errorOf);
    LeaderExtend(history, current, errorOf);
    if gen > 0 {
      BestGenerationStep(leasts, least);
    }
  }

  /** Extending the generations keeps every earlier leader and adds the new one. */
  lemma LeaderExtend(h: seq<seq<Genome>>, pop: seq<Genome>, errorOf: Genome -> real)
    requires NonEmptyGenerations(h) && |pop| > 0
    ensures forall g :: 0 <= g < |h| ==> Leader(h + [pop], errorOf, g) == Leader(h, errorOf, g)
    ensures Leader(h + [pop], errorOf, |h|) == pop[Ranked(Evaluate(pop, errorOf))[0]]
  {
    assert forall g :: 0 <= g < |h| ==> (h + [pop])[g] == h[g];
  }
}
