/**
 * The static configuration of the game-balance calibrator: the knowledge
 * components (KCs), the metrics they influence, and the designer's search
 * ranges for each metric's weights and goal.
 */
module ScoringConfig {
  import opened Folds

  /** The fifteen knowledge components of the KC-to-metrics table. */
  datatype Kc =
    | KC2 | KC3 | KC4 | KC5 | KC6 | KC7 | KC10 | KC11 | KC11a
    | KC13 | KC14 | KC16 | KC18 | KC19 | KC20

  datatype Metric = Revenue | CustomerSatisfaction | Reputation | EthicalDecisionMaking | RiskTaking

  /** The metrics a KC influences, in the table's order. */
  function KcMetrics(kc: Kc): seq<Metric>
  {
    match kc
    case KC2 => [Revenue, Reputation]
    case KC3 => [CustomerSatisfaction, Revenue]
    case KC4 => [Revenue]
    case KC5 => [Reputation, CustomerSatisfaction]
    case KC6 => [Revenue]
    case KC7 => [Revenue, CustomerSatisfaction, Reputation]
    case KC10 => [CustomerSatisfaction, Revenue, Reputation]
    case KC11 => [Reputation, CustomerSatisfaction, Revenue]
    case KC11a => [Reputation, CustomerSatisfaction, Revenue]
    case KC13 => [Reputation, EthicalDecisionMaking, CustomerSatisfaction]
    case KC14 => [Revenue, RiskTaking]
    case KC16 => [RiskTaking, Revenue, EthicalDecisionMaking]
    case KC18 => [EthicalDecisionMaking, Reputation, CustomerSatisfaction]
    case KC19 => [Revenue, RiskTaking, CustomerSatisfaction]
    case KC20 => [Reputation, Revenue, CustomerSatisfaction]
  }

  /** ALL_KCS: the table's keys in declaration order. */
  const AllKcs: seq<Kc> := [KC2, KC3, KC4, KC5, KC6, KC7, KC10, KC11, KC11a, KC13, KC14, KC16, KC18, KC19, KC20]

  const Metrics: seq<Metric> := [Revenue, CustomerSatisfaction, Reputation, EthicalDecisionMaking, RiskTaking]

  /** ALL_KCS lists every KC exactly once. */
  lemma AllKcsComplete()
    ensures Distinct(AllKcs)
    ensures forall kc: Kc :: kc in AllKcs
  {
    forall kc: Kc ensures kc in AllKcs {
      match kc
      case KC2 => assert AllKcs[0] == kc;
      case KC3 => assert AllKcs[1] == kc;
      case KC4 => assert AllKcs[2] == kc;
      case KC5 => assert AllKcs[3] == kc;
      case KC6 => assert AllKcs[4] == kc;
      case KC7 => assert AllKcs[5] == kc;
      case KC10 => assert AllKcs[6] == kc;
      case KC11 => assert AllKcs[7] == kc;
      case KC11a => assert AllKcs[8] == kc;
      case KC13 => assert AllKcs[9] == kc;
      case KC14 => assert AllKcs[10] == kc;
      case KC16 => assert AllKcs[11] == kc;
      case KC18 => assert AllKcs[12] == kc;
      case KC19 => assert AllKcs[13] == kc;
      case KC20 => assert AllKcs[14] == kc;
    }
  }

  /** A closed interval [lo, hi] of reals. */
  datatype Range = Range(lo: real, hi: real)

  predicate InRange(x: real, r: Range)
  {
    r.lo <= x <= r.hi
  }

  /** WEIGHT_RANGES. */
  function WeightRange(m: Metric): (r: Range)
    ensures r.lo <= r.hi
  {
    match m
    case Revenue => Range(100.0, 1500.0)
    case CustomerSatisfaction => Range(10.0, 100.0)
    case Reputation => Range(0.5, 10.0)
    case EthicalDecisionMaking => Range(1.0, 20.0)
    case RiskTaking => Range(1.0, 20.0)
  }

  /** GOAL_RANGES. */
  function GoalRange(m: Metric): (r: Range)
    ensures r.lo <= r.hi
  {
    match m
    case Revenue => Range(2000.0, 15000.0)
    case CustomerSatisfaction => Range(50.0, 600.0)
    case Reputation => Range(5.0, 100.0)
    case EthicalDecisionMaking => Range(5.0, 60.0)
    case RiskTaking => Range(5.0, 60.0)
  }

  /** The KCs whose metric list names m, in table order (`kcs_for_metric`). */
  function KcsFor(m: Metric): seq<Kc>
  {
    FilterKcs(AllKcs, m)
  }

  /** The KCs of kcs whose metric list names m, in the order of kcs. */
  function FilterKcs(kcs: seq<Kc>, m: Metric): seq<Kc>
  {
    if |kcs| == 0 then []
    else
      var prefix := FilterKcs(kcs[..|kcs| - 1], m);
      var last := kcs[|kcs| - 1];
      if m in KcMetrics(last) then prefix + [last] else prefix
  }

  /** Filtering keeps exactly the KCs that influence m, and keeps them distinct. */
  lemma {:induction false} FilterKcsSpec(kcs: seq<Kc>, m: Metric)
    ensures forall kc :: kc in FilterKcs(kcs, m) <==> kc in kcs && m in KcMetrics(kc)
    ensures Distinct(kcs) ==> Distinct(FilterKcs(kcs, m))
  {
    if |kcs| > 0 {
      var init := kcs[..|kcs| - 1];
      FilterKcsSpec(init, m);
      assert kcs == init + [kcs[|kcs| - 1]];
      if Distinct(kcs) {
        assert Distinct(init) by {
          forall i, j | 0 <= i < j < |init| ensures init[i] != init[j] {
            assert init[i] == kcs[i] && init[j] == kcs[j];
          }
        }
      }
    }
  }

  /** kcs_for_metric lists, once each, exactly the KCs whose metric list names m. */
  lemma KcsForSpec(m: Metric)
    ensures Distinct(KcsFor(m))
    ensures forall kc :: kc in KcsFor(m) <==> m in KcMetrics(kc)
  {
    AllKcsComplete();
    FilterKcsSpec(AllKcs, m);
  }

  /** The weight keys every candidate for m must have. */
  function KcSetFor(m: Metric): set<Kc>
  {
    set kc | kc in KcsFor(m)
  }

  /** A candidate for m has a weight for a KC exactly when the KC influences m. */
  lemma KcSetForSpec(m: Metric)
    ensures forall kc :: kc in KcSetFor(m) <==> m in KcMetrics(kc)
  {
    KcsForSpec(m);
  }
}
