/**
 * Candidates of the genetic search ("individuals"): a goal threshold and one
 * weight per KC relevant to the metric, with the three operators that make
 * them: random creation, crossover and mutation. Every random number is an
 * argument: `random.random()` is a unit draw in [0, 1), and
 * `random.uniform(a, b)` is `a + (b - a) * u` for a unit draw u, as Python
 * computes it.
 */
module Individuals {
  import opened Folds
  import opened ScoringConfig

  /** The value of an individual: `{'goal': g, 'weights': {kc: w, ...}}`. */
  datatype Genome = Genome(goal: real, weights: map<Kc, real>)

  /**
   * The invariant every candidate for metric m keeps: its weight keys are
   * exactly the KCs that influence m, and every gene lies in its range.
   */
  predicate ValidFor(g: Genome, m: Metric)
  {
    && g.weights.Keys == KcSetFor(m)
    && InRange(g.goal, GoalRange(m))
    && forall kc :: kc in g.weights ==> InRange(g.weights[kc], WeightRange(m))
  }

  predicate IsUnitDraw(u: real)
  {
    0.0 <= u < 1.0
  }

  /** random.uniform(a, b) for the unit draw u. */
  function Uniform(a: real, b: real, u: real): (x: real)
    requires a <= b && IsUnitDraw(u)
    ensures a <= x <= b
  {
    var width := b - a;
    ScaledBelow(width, u);
    var step := width * u;
    assert 0.0 <= step <= width;
    a + step
  }

  /** A non-negative width scaled by a unit draw stays within the width. */
  lemma ScaledBelow(w: real, u: real)
    requires 0.0 <= w && IsUnitDraw(u)
    ensures 0.0 <= w * u <= w
  {
    assert w * (1.0 - u) >= 0.0;
  }

  /** `max(lo, min(x, hi))`. */
  function Clamp(x: real, r: Range): (y: real)
    requires r.lo <= r.hi
    ensures InRange(y, r)
    ensures InRange(x, r) ==> y == x
  {
    if r.lo > (if x < r.hi then x else r.hi) then r.lo
    else if x < r.hi then x else r.hi
  }

  // ---------------------------------------------------------------------------
  // create_random_individual

  /** The draws for one new individual: the goal's, then one per KC of KcsFor(m). */
  datatype GenomeDraw = GenomeDraw(goal: real, weights: seq<real>)

  predicate ValidGenomeDraw(d: GenomeDraw, m: Metric)
  {
    && IsUnitDraw(d.goal)
    && |d.weights| == |KcsFor(m)|
    && forall i :: 0 <= i < |d.weights| ==> IsUnitDraw(d.weights[i])
  }

  /** The weights assigned to the first |draws| KCs of kcs, one uniform draw each. */
  function RandomWeights(kcs: seq<Kc>, draws: seq<real>, r: Range): map<Kc, real>
    requires |draws| == |kcs| && r.lo <= r.hi
    requires forall i :: 0 <= i < |draws| ==> IsUnitDraw(draws[i])
  {
    if |kcs| == 0 then map[]
    else
      var n := |kcs| - 1;
      RandomWeights(kcs[..n], draws[..n], r)[kcs[n] := Uniform(r.lo, r.hi, draws[n])]
  }

  /** The individual create_random_individual(m) builds from the draws d. */
  function RandomGenome(m: Metric, d: GenomeDraw): Genome
    requires ValidGenomeDraw(d, m)
  {
    var gr, wr := GoalRange(m), WeightRange(m);
    Genome(Uniform(gr.lo, gr.hi, d.goal), RandomWeights(KcsFor(m), d.weights, wr))
  }

  /** Random weights cover exactly the listed KCs, each within range. */
  lemma {:induction false} RandomWeightsSpec(kcs: seq<Kc>, draws: seq<real>, r: Range)
    requires |draws| == |kcs| && r.lo <= r.hi
    requires forall i :: 0 <= i < |draws| ==> IsUnitDraw(draws[i])
    ensures forall kc :: kc in RandomWeights(kcs, draws, r) <==> kc in kcs
    ensures forall kc :: kc in RandomWeights(kcs, draws, r) ==> InRange(RandomWeights(kcs, draws, r)[kc], r)
  {
    if |kcs| > 0 {
      var n := |kcs| - 1;
      RandomWeightsSpec(kcs[..n], draws[..n], r);
      assert kcs == kcs[..n] + [kcs[n]];
    }
  }

  /** A freshly created individual for m is valid for m: exact keys, genes in range. */
  lemma RandomGenomeValid(m: Metric, d: GenomeDraw)
    requires ValidGenomeDraw(d, m)
    ensures ValidFor(RandomGenome(m, d), m)
  {
    RandomWeightsSpec(KcsFor(m), d.weights, WeightRange(m));
  }

  // ---------------------------------------------------------------------------
  // crossover

  /**
   * crossover(p1, p2): the child's goal and each of its weights are the
   * means of the parents'. The source indexes both parents with every key of
   * either, so parents must share their key set (otherwise a KeyError).
   */
  function CrossoverGenes(p1: Genome, p2: Genome): (child: Genome)
    requires p1.weights.Keys == p2.weights.Keys
    ensures child.weights.Keys == p1.weights.Keys
  {
    Genome((p1.goal + p2.goal) / 2.0,
           map kc | kc in p1.weights.Keys + p2.weights.Keys :: (p1.weights[kc] + p2.weights[kc]) / 2.0)
  }

  /** The mean of two values of a range lies in that range. */
  lemma MeanInRange(x: real, y: real, r: Range)
    requires InRange(x, r) && InRange(y, r)
    ensures InRange((x + y) / 2.0, r)
  {
  }

  /** Crossover keeps a candidate valid: two valid parents give a valid child. */
  lemma CrossoverValid(p1: Genome, p2: Genome, m: Metric)
    requires ValidFor(p1, m) && ValidFor(p2, m)
    ensures ValidFor(CrossoverGenes(p1, p2), m)
    ensures CrossoverGenes(p1, p2) == CrossoverGenes(p2, p1)
  {
    var child := CrossoverGenes(p1, p2);
    MeanInRange(p1.goal, p2.goal, GoalRange(m));
    forall kc | kc in child.weights
      ensures InRange(child.weights[kc], WeightRange(m))
    {
      MeanInRange(p1.weights[kc], p2.weights[kc], WeightRange(m));
    }
  }

  // ---------------------------------------------------------------------------
  // mutate

  /**
   * The draws for one mutation: the goal's roll and tweak, then for each
   * weight key its roll and tweak (a tweak is only used when its roll wins).
   */
  datatype MutationDraw = MutationDraw(goalRoll: real, goalTweak: real,
                                       weightRolls: map<Kc, real>, weightTweaks: map<Kc, real>)

  predicate ValidMutationDraw(d: MutationDraw, keys: set<Kc>)
  {
    && IsUnitDraw(d.goalRoll) && IsUnitDraw(d.goalTweak)
    && keys <= d.weightRolls.Keys && keys <= d.weightTweaks.Keys
    && (forall kc :: kc in keys ==> IsUnitDraw(d.weightRolls[kc]) && IsUnitDraw(d.weightTweaks[kc]))
  }

  /** `random.uniform(-strength, strength) * (hi - lo)`: the step a mutating gene takes. */
  function Tweak(r: Range, strength: real, tweak: real): real
    requires 0.0 <= strength && IsUnitDraw(tweak)
  {
    Uniform(-strength, strength, tweak) * (r.hi - r.lo)
  }

  /**
   * One gene's mutation: with probability `rate` (the roll is below it) add
   * `uniform(-strength, strength) * (hi - lo)` and clamp back into [lo, hi];
   * otherwise leave the gene alone.
   */
  function MutateGene(x: real, r: Range, rate: real, strength: real, roll: real, tweak: real): (y: real)
    requires r.lo <= r.hi && 0.0 <= strength && IsUnitDraw(tweak)
    ensures roll < rate ==> InRange(y, r)
    ensures roll >= rate ==> y == x
    ensures InRange(x, r) ==> InRange(y, r)
  {
    if roll < rate then Clamp(x + Tweak(r, strength, tweak), r) else x
  }

  /** mutate(individual, m, rate, strength) as a function of the old genome. */
  function MutateGenes(g: Genome, m: Metric, rate: real, strength: real, d: MutationDraw): (r: Genome)
    requires 0.0 <= strength && ValidMutationDraw(d, g.weights.Keys)
    ensures r.weights.Keys == g.weights.Keys
  {
    var gr, wr := GoalRange(m), WeightRange(m);
    Genome(MutateGene(g.goal, gr, rate, strength, d.goalRoll, d.goalTweak),
           map kc | kc in g.weights :: MutatedWeight(g.weights, wr, rate, strength, d, kc))
  }

  /** The mutated value of weight kc. */
  function MutatedWeight(weights: map<Kc, real>, wr: Range, rate: real, strength: real, d: MutationDraw, kc: Kc): real
    requires wr.lo <= wr.hi && 0.0 <= strength && ValidMutationDraw(d, weights.Keys) && kc in weights
  {
    MutateGene(weights[kc], wr, rate, strength, d.weightRolls[kc], d.weightTweaks[kc])
  }

  /**
   * Mutation keeps a candidate valid, whatever the draws: the keys do not
   * change, and a gene that mutates is clamped into its range.
   */
  lemma MutateValid(g: Genome, m: Metric, rate: real, strength: real, d: MutationDraw)
    requires 0.0 <= strength && ValidMutationDraw(d, g.weights.Keys)
    requires ValidFor(g, m)
    ensures ValidFor(MutateGenes(g, m, rate, strength, d), m)
  {
  }

  /** An individual, updated in place by mutation. */
  class Individual {
    var goal: real
    var weights: map<Kc, real>

    function Genes(): Genome
      reads this
    {
      Genome(goal, weights)
    }

    constructor Of(g: Genome)
      ensures Genes() == g
    {
      goal := g.goal;
      weights := g.weights;
    }

    /** create_random_individual(m): the goal, then one weight per KC of m in table order. */
    constructor Random(m: Metric, d: GenomeDraw)
      requires ValidGenomeDraw(d, m)
      ensures Genes() == RandomGenome(m, d)
    {
      var gr := GoalRange(m);
      goal := Uniform(gr.lo, gr.hi, d.goal);
      var w := DrawWeights(KcsFor(m), d.weights, WeightRange(m));
      weights := w;
    }

    /** The loop of create_random_individual: one uniform weight per KC, in order. */
    static method DrawWeights(kcs: seq<Kc>, draws: seq<real>, r: Range) returns (w: map<Kc, real>)
      requires |draws| == |kcs| && r.lo <= r.hi
      requires forall i :: 0 <= i < |draws| ==> IsUnitDraw(draws[i])
      ensures w == RandomWeights(kcs, draws, r)
    {
      w := map[];
      for i := 0 to |kcs|
        invariant w == RandomWeights(kcs[..i], draws[..i], r)
      {
        assert kcs[..i + 1][..i] == kcs[..i];
        assert draws[..i + 1][..i] == draws[..i];
        w := w[kcs[i] := Uniform(r.lo, r.hi, draws[i])];
      }
      assert kcs[..|kcs|] == kcs && draws[..|draws|] == draws;
    }

    /** crossover(parent1, parent2): a new individual holding the parents' means. */
    static method Crossover(parent1: Individual, parent2: Individual) returns (child: Individual)
      requires parent1.weights.Keys == parent2.weights.Keys
      ensures fresh(child)
      ensures child.Genes() == CrossoverGenes(parent1.Genes(), parent2.Genes())
    {
      child := new Individual.Of(CrossoverGenes(parent1.Genes(), parent2.Genes()));
    }

    /**
     * mutate(individual, m, rate, strength): tweaks the goal, then each
     * weight in turn, in place; the same object is kept (and returned by
     * the source).
     */
    method Mutate(m: Metric, rate: real, strength: real, d: MutationDraw)
      requires 0.0 <= strength && ValidMutationDraw(d, weights.Keys)
      modifies this
      ensures Genes() == MutateGenes(old(Genes()), m, rate, strength, d)
    {
      var gr, wr := GoalRange(m), WeightRange(m);
      ghost var goal0 := goal;
      if d.goalRoll < rate {
        var tweak := Tweak(gr, strength, d.goalTweak);
        goal := goal + tweak;
        goal := Clamp(goal, gr);
      }
      assert goal == MutateGene(goal0, gr, rate, strength, d.goalRoll, d.goalTweak);
      ghost var original := weights;
      var w := weights;
      var pending := w.Keys;
      while pending != {}
        invariant pending <= original.Keys
        invariant w.Keys == original.Keys
        invariant forall kc :: kc in w ==>
          w[kc] == if kc in pending then original[kc] else MutatedWeight(original, wr, rate, strength, d, kc)
        decreases pending
      {
        var kc :| kc in pending;
        if d.weightRolls[kc] < rate {
          var tweak := Tweak(wr, strength, d.weightTweaks[kc]);
          w := w[kc := w[kc] + tweak];
          w := w[kc := Clamp(w[kc], wr)];
        }
        assert w[kc] == MutatedWeight(original, wr, rate, strength, d, kc);
        pending := pending - {kc};
      }
      weights := w;
      assert weights == MutateGenes(old(Genes()), m, rate, strength, d).weights;
    }
  }
}
