/**
 * The data handling of the decision log page: the grouping of KC-to-metric
 * effect rows into one metric-id list per KC, the grouping of the player's
 * historical decision records into scenarios, the expand/collapse toggle of
 * a scenario card, and the count of locked scenario cards.
 */
module LogPage {
  import opened Wrappers
  import opened Folds
  import opened MetricChange

  // ---------------------------------------------------------------------------
  // The kcIdToMetricIds grouping

  /** One `kc_metric_effects` row. */
  datatype Effect = Effect(kcId: int, metricId: int)

  /** The metric ids of the rows for kcId, in row order. */
  function MetricIdsOf(effects: seq<Effect>, kcId: int): seq<int>
  {
    if |effects| == 0 then []
    else
      var last := effects[|effects| - 1];
      MetricIdsOf(effects[..|effects| - 1], kcId) + if last.kcId == kcId then [last.metricId] else []
  }

  /** The KC ids that have at least one row. */
  function KcIdsOf(effects: seq<Effect>): set<int>
  {
    set i | 0 <= i < |effects| :: effects[i].kcId
  }

  /** The loop that builds `kcIdToMetricIds`: a list per KC id, each row pushed onto its KC's list. */
  method GroupEffects(effects: seq<Effect>) returns (kcIdToMetricIds: map<int, seq<int>>)
    ensures kcIdToMetricIds.Keys == KcIdsOf(effects)
    ensures forall kcId :: kcId in kcIdToMetricIds ==> kcIdToMetricIds[kcId] == MetricIdsOf(effects, kcId)
  {
    kcIdToMetricIds := map[];
    for i := 0 to |effects|
      invariant kcIdToMetricIds.Keys == KcIdsOf(effects[..i])
      invariant forall kcId :: kcId in kcIdToMetricIds ==> kcIdToMetricIds[kcId] == MetricIdsOf(effects[..i], kcId)
    {
      var effect := effects[i];
      assert effects[..i + 1][..i] == effects[..i];
      assert KcIdsOf(effects[..i + 1]) == KcIdsOf(effects[..i]) + {effect.kcId} by {
        assert effects[..i + 1][i] == effect;
      }
      if effect.kcId !in kcIdToMetricIds {
        MetricIdsAbsent(effects[..i], effect.kcId);
        kcIdToMetricIds := kcIdToMetricIds[effect.kcId := []];
      }
      kcIdToMetricIds := kcIdToMetricIds[effect.kcId := kcIdToMetricIds[effect.kcId] + [effect.metricId]];
    }
    assert effects[..|effects|] == effects;
  }

  /** A KC id without rows has an empty list. */
  lemma {:induction false} MetricIdsAbsent(effects: seq<Effect>, kcId: int)
    requires kcId !in KcIdsOf(effects)
    ensures MetricIdsOf(effects, kcId) == []
  {
    if |effects| > 0 {
      var init := effects[..|effects| - 1];
      assert KcIdsOf(init) <= KcIdsOf(effects) by {
        forall k | k in KcIdsOf(init) ensures k in KcIdsOf(effects) {
          var i :| 0 <= i < |init| && init[i].kcId == k;
          assert effects[i] == init[i];
        }
      }
      assert effects[|effects| - 1].kcId in KcIdsOf(effects);
      MetricIdsAbsent(init, kcId);
    }
  }

  /** A KC's list holds exactly the metric ids of the rows for that KC. */
  lemma {:induction false} MetricIdsSpec(effects: seq<Effect>, kcId: int)
    ensures forall metricId :: metricId in MetricIdsOf(effects, kcId) <==> Effect(kcId, metricId) in effects
    ensures |MetricIdsOf(effects, kcId)| <= |effects|
  {
    if |effects| > 0 {
      var init := effects[..|effects| - 1];
      MetricIdsSpec(init, kcId);
      assert effects == init + [effects[|effects| - 1]];
    }
  }

  // ---------------------------------------------------------------------------
  // The scenariosMap grouping

  /** One `historical_learning_analytics` row; the numbers may be null. */
  datatype HistoricalRecord = HistoricalRecord(
    scenarioAttemptNumber: Option<int>,
    decisionNumber: Option<int>,
    chosenOptionText: Option<string>,
    kcImpactsOfChoice: Option<seq<KcImpact>>)

  datatype DecisionLog = DecisionLog(decisionNumber: int, chosenOptionText: Option<string>, kcImpactsOfChoice: Option<seq<KcImpact>>)

  datatype ScenarioLog = ScenarioLog(scenarioAttemptNumber: int, decisions: seq<DecisionLog>)

  /** A record is kept when both its scenario and its decision number are truthy: present and not 0. */
  predicate Kept(r: HistoricalRecord)
  {
    r.scenarioAttemptNumber.Some? && r.scenarioAttemptNumber.value != 0
    && r.decisionNumber.Some? && r.decisionNumber.value != 0
  }

  function DecisionOf(r: HistoricalRecord): DecisionLog
    requires Kept(r)
  {
    DecisionLog(r.decisionNumber.value, r.chosenOptionText, r.kcImpactsOfChoice)
  }

  /** The scenario number of every kept record, in record order. */
  function ScenarioNumbers(records: seq<HistoricalRecord>): seq<int>
  {
    if |records| == 0 then []
    else
      var last := records[|records| - 1];
      ScenarioNumbers(records[..|records| - 1]) + if Kept(last) then [last.scenarioAttemptNumber.value] else []
  }

  /** The decisions of the kept records of scenario n, in record order. */
  function DecisionsIn(records: seq<HistoricalRecord>, n: int): seq<DecisionLog>
  {
    if |records| == 0 then []
    else
      var last := records[|records| - 1];
      DecisionsIn(records[..|records| - 1], n)
        + if Kept(last) && last.scenarioAttemptNumber.value == n then [DecisionOf(last)] else []
  }

  function ScenarioOf(records: seq<HistoricalRecord>): int -> ScenarioLog
  {
    n => ScenarioLog(n, DecisionsIn(records, n))
  }

  /** `Array.from(scenariosMap.values())`: one scenario per number, in order of first appearance. */
  function History(records: seq<HistoricalRecord>): seq<ScenarioLog>
  {
    MapSeq(FirstAppearance(ScenarioNumbers(records)), ScenarioOf(records))
  }

  /**
   * The loop invariant of the grouping: `order` is the insertion order of
   * `scenariosMap`, and each scenario holds the decisions of its kept records.
   */
  ghost predicate Grouped(records: seq<HistoricalRecord>, order: seq<int>, scenariosMap: map<int, seq<DecisionLog>>)
  {
    && order == FirstAppearance(ScenarioNumbers(records))
    && (forall n :: n in scenariosMap <==> n in order)
    && (forall n :: n in scenariosMap ==> scenariosMap[n] == DecisionsIn(records, n))
  }

  /** The insertion order after one more record: a kept record's scenario joins it when new. */
  lemma OrderSnoc(records: seq<HistoricalRecord>, record: HistoricalRecord, order: seq<int>, order': seq<int>)
    requires order == FirstAppearance(ScenarioNumbers(records))
    requires !Kept(record) ==> order' == order
    requires Kept(record) ==>
      var n := record.scenarioAttemptNumber.value;
      order' == if n in order then order else order + [n]
    ensures order' == FirstAppearance(ScenarioNumbers(records + [record]))
  {
    ScenarioNumbersSnoc(records, record);
    if Kept(record) {
      var n := record.scenarioAttemptNumber.value;
      FirstAppearanceSnoc(ScenarioNumbers(records), n);
      FirstAppearanceHas(ScenarioNumbers(records), n);
    } else {
      assert ScenarioNumbers(records + [record]) == ScenarioNumbers(records);
    }
  }

  /** One more record adds its decision to the list of its scenario, created empty when new. */
  lemma DecisionListsSnoc(records: seq<HistoricalRecord>, record: HistoricalRecord,
                          scenariosMap: map<int, seq<DecisionLog>>, scenariosMap': map<int, seq<DecisionLog>>)
    requires forall n :: n in scenariosMap ==> scenariosMap[n] == DecisionsIn(records, n)
    requires !Kept(record) ==> scenariosMap' == scenariosMap
    requires Kept(record) ==>
      var n := record.scenarioAttemptNumber.value;
      var created := if n in scenariosMap then scenariosMap else scenariosMap[n := []];
      && (n !in scenariosMap ==> n !in ScenarioNumbers(records))
      && scenariosMap' == created[n := created[n] + [DecisionOf(record)]]
    ensures forall n :: n in scenariosMap' ==> scenariosMap'[n] == DecisionsIn(records + [record], n)
  {
    if Kept(record) {
      var n := record.scenarioAttemptNumber.value;
      if n !in scenariosMap {
        DecisionsAbsent(records, n);
      }
    }
    forall n' | n' in scenariosMap' ensures scenariosMap'[n'] == DecisionsIn(records + [record], n') {
      DecisionsInSnoc(records, record, n');
    }
  }

  /** The loop body for one more record keeps the grouping invariant. */
  lemma GroupedSnoc(records: seq<HistoricalRecord>, record: HistoricalRecord,
                    order: seq<int>, scenariosMap: map<int, seq<DecisionLog>>,
                    order': seq<int>, scenariosMap': map<int, seq<DecisionLog>>)
    requires Grouped(records, order, scenariosMap)
    requires !Kept(record) ==> order' == order && scenariosMap' == scenariosMap
    requires Kept(record) ==>
      var n := record.scenarioAttemptNumber.value;
      var created := if n in scenariosMap then scenariosMap else scenariosMap[n := []];
      && order' == (if n in scenariosMap then order else order + [n])
      && scenariosMap' == created[n := created[n] + [DecisionOf(record)]]
    ensures Grouped(records + [record], order', scenariosMap')
  {
    OrderSnoc(records, record, order, order');
    if Kept(record) {
      FirstAppearanceHas(ScenarioNumbers(records), record.scenarioAttemptNumber.value);
    }
    DecisionListsSnoc(records, record, scenariosMap, scenariosMap');
    assert forall n :: n in scenariosMap' <==> n in order';
  }

  /** The grouping loop of fetchLogData, then `Array.from(scenariosMap.values())`. */
  method GroupHistory(records: seq<HistoricalRecord>) returns (scenarios: seq<ScenarioLog>)
    ensures scenarios == History(records)
  {
    var order: seq<int> := [];
    var scenariosMap: map<int, seq<DecisionLog>> := map[];
    for i := 0 to |records|
      invariant Grouped(records[..i], order, scenariosMap)
    {
      var record := records[i];
      assert records[..i + 1] == records[..i] + [record];
      ghost var order0, scenariosMap0 := order, scenariosMap;
      if Kept(record) {
        var n := record.scenarioAttemptNumber.value;
        if n !in scenariosMap {
          order := order + [n];
          scenariosMap := scenariosMap[n := []];
        }
        scenariosMap := scenariosMap[n := scenariosMap[n] + [DecisionOf(record)]];
      }
      GroupedSnoc(records[..i], record, order0, scenariosMap0, order, scenariosMap);
    }
    assert records[..|records|] == records;
    GroupedHistory(records, order, scenariosMap);
    scenarios := Values(order, scenariosMap);
  }

  /** `Array.from(scenariosMap.values())`, the map's scenarios in insertion order. */
  function Values(order: seq<int>, scenariosMap: map<int, seq<DecisionLog>>): (scenarios: seq<ScenarioLog>)
    requires forall j :: 0 <= j < |order| ==> order[j] in scenariosMap
    ensures |scenarios| == |order|
  {
    seq(|order|, j requires 0 <= j < |order| => ScenarioLog(order[j], scenariosMap[order[j]]))
  }

  /** After the last record, the map's values are exactly the history. */
  lemma GroupedHistory(records: seq<HistoricalRecord>, order: seq<int>, scenariosMap: map<int, seq<DecisionLog>>)
    requires Grouped(records, order, scenariosMap)
    ensures forall j :: 0 <= j < |order| ==> order[j] in scenariosMap
    ensures Values(order, scenariosMap) == History(records)
  {
    assert forall n :: n in scenariosMap <==> n in order;
    forall j | 0 <= j < |order| ensures order[j] in scenariosMap {
      assert order[j] in order;
    }
    var scenarios := Values(order, scenariosMap);
    forall j | 0 <= j < |order| ensures scenarios[j] == ScenarioOf(records)(order[j]) {
      assert order[j] in order;
    }
  }

  /** One more record adds its scenario number when it is kept. */
  lemma ScenarioNumbersSnoc(records: seq<HistoricalRecord>, r: HistoricalRecord)
    ensures ScenarioNumbers(records + [r]) ==
      ScenarioNumbers(records) + if Kept(r) then [r.scenarioAttemptNumber.value] else []
  {
    assert (records + [r])[..|records|] == records;
  }

  /** One more record adds its decision to its scenario when it is kept. */
  lemma DecisionsInSnoc(records: seq<HistoricalRecord>, r: HistoricalRecord, n: int)
    ensures DecisionsIn(records + [r], n) ==
      DecisionsIn(records, n) + if Kept(r) && r.scenarioAttemptNumber.value == n then [DecisionOf(r)] else []
  {
    assert (records + [r])[..|records|] == records;
  }

  /** A scenario number no kept record has has no decisions. */
  lemma {:induction false} DecisionsAbsent(records: seq<HistoricalRecord>, n: int)
    requires n !in ScenarioNumbers(records)
    ensures DecisionsIn(records, n) == []
  {
    if |records| > 0 {
      DecisionsAbsent(records[..|records| - 1], n);
    }
  }

  /** A scenario number some kept record has has at least one decision. */
  lemma {:induction false} DecisionsPresent(records: seq<HistoricalRecord>, n: int)
    requires n in ScenarioNumbers(records)
    ensures |DecisionsIn(records, n)| > 0
  {
    var init := records[..|records| - 1];
    if n in ScenarioNumbers(init) {
      DecisionsPresent(init, n);
    }
  }

  /** ScenarioNumbers lists exactly the scenario numbers of the kept records, none of them 0. */
  lemma {:induction false} ScenarioNumbersSpec(records: seq<HistoricalRecord>)
    ensures forall n :: n in ScenarioNumbers(records) <==>
      exists j :: 0 <= j < |records| && Kept(records[j]) && records[j].scenarioAttemptNumber.value == n
    ensures 0 !in ScenarioNumbers(records)
  {
    if |records| > 0 {
      var init := records[..|records| - 1];
      ScenarioNumbersSpec(init);
      assert records == init + [records[|records| - 1]];
    }
  }

  /** A scenario's decisions are exactly those of the kept records with its number, all of them numbered. */
  lemma {:induction false} DecisionsInSpec(records: seq<HistoricalRecord>, n: int)
    ensures forall d :: d in DecisionsIn(records, n) <==>
      exists j :: 0 <= j < |records| && Kept(records[j]) && records[j].scenarioAttemptNumber.value == n
        && d == DecisionOf(records[j])
    ensures forall d :: d in DecisionsIn(records, n) ==> d.decisionNumber != 0
  {
    if |records| > 0 {
      var init := records[..|records| - 1];
      DecisionsInSpec(init, n);
      assert records == init + [records[|records| - 1]];
    }
  }

  /**
   * The history lists each kept scenario number once, never 0, and every
   * listed scenario has at least one decision.
   */
  lemma HistoryScenarios(records: seq<HistoricalRecord>)
    ensures forall i, j :: 0 <= i < j < |History(records)| ==>
      History(records)[i].scenarioAttemptNumber != History(records)[j].scenarioAttemptNumber
    ensures forall i :: 0 <= i < |History(records)| ==>
      History(records)[i].scenarioAttemptNumber in ScenarioNumbers(records) && |History(records)[i].decisions| > 0
    ensures forall n :: n in ScenarioNumbers(records) ==>
      exists i :: 0 <= i < |History(records)| && History(records)[i].scenarioAttemptNumber == n
  {
    var order := FirstAppearance(ScenarioNumbers(records));
    var h := History(records);
    forall i | 0 <= i < |h|
      ensures h[i].scenarioAttemptNumber in ScenarioNumbers(records) && |h[i].decisions| > 0
    {
      DecisionsPresent(records, order[i]);
    }
    forall n | n in ScenarioNumbers(records)
      ensures exists i :: 0 <= i < |h| && h[i].scenarioAttemptNumber == n
    {
      var k :| 0 <= k < |ScenarioNumbers(records)| && ScenarioNumbers(records)[k] == n;
      var i :| 0 <= i < |order| && order[i] == n;
      assert h[i].scenarioAttemptNumber == n;
    }
  }

  /** The number of decisions over a list of scenarios. */
  function TotalDecisions(scenarios: seq<ScenarioLog>): nat
  {
    if |scenarios| == 0 then 0
    else TotalDecisions(scenarios[..|scenarios| - 1]) + |scenarios[|scenarios| - 1].decisions|
  }

  /** The number of decisions of the scenarios numbered in order. */
  function DecisionCount(order: seq<int>, records: seq<HistoricalRecord>): nat
  {
    if |order| == 0 then 0
    else DecisionCount(order[..|order| - 1], records) + |DecisionsIn(records, order[|order| - 1])|
  }

  /** The history loses no kept record and duplicates none: it holds one decision per kept record. */
  lemma HistoryKeepsEveryDecision(records: seq<HistoricalRecord>)
    ensures TotalDecisions(History(records)) == |ScenarioNumbers(records)|
  {
    var order := FirstAppearance(ScenarioNumbers(records));
    TotalIsCount(order, records);
    KeptCount(records);
  }

  lemma {:induction false} TotalIsCount(order: seq<int>, records: seq<HistoricalRecord>)
    ensures TotalDecisions(MapSeq(order, ScenarioOf(records))) == DecisionCount(order, records)
  {
    if |order| > 0 {
      var init := order[..|order| - 1];
      TotalIsCount(init, records);
      assert MapSeq(order, ScenarioOf(records))[..|init|] == MapSeq(init, ScenarioOf(records));
    }
  }

  lemma {:induction false} KeptCount(records: seq<HistoricalRecord>)
    ensures DecisionCount(FirstAppearance(ScenarioNumbers(records)), records) == |ScenarioNumbers(records)|
  {
    if |records| > 0 {
      var init, r := records[..|records| - 1], records[|records| - 1];
      assert records == init + [r];
      KeptCount(init);
      KeptCountStep(init, r);
    }
  }

  /** One more record keeps the count of decisions equal to the count of kept records. */
  lemma KeptCountStep(init: seq<HistoricalRecord>, r: HistoricalRecord)
    requires DecisionCount(FirstAppearance(ScenarioNumbers(init)), init) == |ScenarioNumbers(init)|
    ensures DecisionCount(FirstAppearance(ScenarioNumbers(init + [r])), init + [r]) == |ScenarioNumbers(init + [r])|
  {
    var records := init + [r];
    var numbers := ScenarioNumbers(init);
    var order := FirstAppearance(numbers);
    CountStep(order, init, r);
    ScenarioNumbersSnoc(init, r);
    if !Kept(r) {
      assert ScenarioNumbers(records) == numbers;
      assert DecisionCount(order, records) == DecisionCount(order, init);
    } else {
      var n := r.scenarioAttemptNumber.value;
      assert ScenarioNumbers(records) == numbers + [n];
      FirstAppearanceSnoc(numbers, n);
      DistinctMultiplicity(order, n);
      if n in numbers {
        FirstAppearanceHas(numbers, n);
        assert FirstAppearance(numbers + [n]) == order;
        assert DecisionCount(order, records) == DecisionCount(order, init) + 1;
      } else {
        assert FirstAppearance(numbers + [n]) == order + [n];
        assert DecisionCount(order, records) == DecisionCount(order, init);
        NewScenarioCount(init, r, order);
      }
    }
  }

  /** A record opening a new scenario adds that scenario, holding its one decision, to the count. */
  lemma NewScenarioCount(init: seq<HistoricalRecord>, r: HistoricalRecord, order: seq<int>)
    requires Kept(r) && r.scenarioAttemptNumber.value !in ScenarioNumbers(init)
    ensures DecisionCount(order + [r.scenarioAttemptNumber.value], init + [r])
      == DecisionCount(order, init + [r]) + 1
  {
    var n := r.scenarioAttemptNumber.value;
    DecisionsAbsent(init, n);
    DecisionCountSnoc(order, n, init + [r]);
    DecisionsInSnoc(init, r, n);
  }

  lemma DecisionCountSnoc(order: seq<int>, n: int, records: seq<HistoricalRecord>)
    ensures DecisionCount(order + [n], records) == DecisionCount(order, records) + |DecisionsIn(records, n)|
  {
    assert (order + [n])[..|order|] == order;
  }

  /** One more record adds one decision to the count of every occurrence of its scenario in order. */
  lemma {:induction false} CountStep(order: seq<int>, records: seq<HistoricalRecord>, r: HistoricalRecord)
    ensures DecisionCount(order, records + [r]) ==
      DecisionCount(order, records) + if Kept(r) then multiset(order)[r.scenarioAttemptNumber.value] else 0
  {
    assert (records + [r])[..|records|] == records;
    if |order| > 0 {
      var init := order[..|order| - 1];
      CountStep(init, records, r);
      assert order == init + [order[|order| - 1]];
    }
  }

  // ---------------------------------------------------------------------------
  // toggleScenario and the locked cards

  /** toggleScenario: a copy of the expanded set with n's membership flipped. */
  function Toggle(expanded: set<int>, n: int): (r: set<int>)
    ensures n in r <==> n !in expanded
    ensures forall m :: m != n ==> (m in r <==> m in expanded)
  {
    if n in expanded then expanded - {n} else expanded + {n}
  }

  /** Toggling the same card twice restores the expanded set. */
  lemma ToggleTwice(expanded: set<int>, n: int)
    ensures Toggle(Toggle(expanded, n), n) == expanded
  {
  }

  /**
   * The numbers of the locked cards shown after the played scenarios:
   * `Array.from({ length: 3 - played })`, card `index` numbered `played + index + 1`.
   */
  function LockedCards(isGoalCompleted: bool, playedScenariosCount: nat): (cards: seq<int>)
    ensures |cards| == if !isGoalCompleted && playedScenariosCount < 3 then 3 - playedScenariosCount else 0
  {
    if !isGoalCompleted && playedScenariosCount < 3
    then seq(3 - playedScenariosCount, index requires 0 <= index < 3 - playedScenariosCount => playedScenariosCount + index + 1)
    else []
  }

  /**
   * Until the goal is completed, the locked cards are the scenarios not yet
   * played, numbered upwards to 3, each once; afterwards there are none.
   */
  lemma LockedCardsSpec(isGoalCompleted: bool, playedScenariosCount: nat)
    ensures forall n :: n in LockedCards(isGoalCompleted, playedScenariosCount) <==>
      !isGoalCompleted && playedScenariosCount < n <= 3
    ensures Distinct(LockedCards(isGoalCompleted, playedScenariosCount))
    ensures forall i, j :: 0 <= i < j < |LockedCards(isGoalCompleted, playedScenariosCount)| ==>
      LockedCards(isGoalCompleted, playedScenariosCount)[i] < LockedCards(isGoalCompleted, playedScenariosCount)[j]
  {
    var cards := LockedCards(isGoalCompleted, playedScenariosCount);
    forall n | !isGoalCompleted && playedScenariosCount < n <= 3
      ensures n in cards
    {
      assert cards[n - playedScenariosCount - 1] == n;
    }
  }

  /** Goal reached or three scenarios played: no locked card is shown. */
  lemma NoLockedCards(isGoalCompleted: bool, playedScenariosCount: nat)
    requires isGoalCompleted || playedScenariosCount >= 3
    ensures LockedCards(isGoalCompleted, playedScenariosCount) == []
  {
  }
}
