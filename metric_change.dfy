/**
 * The log page's summary of one decision (`calculateMetricChange`): the
 * scores a choice gave to knowledge components (KCs) are summed per KC,
 * each KC total is turned into changes of the metrics the KC affects, the
 * changes are summed per metric, renamed for display, rounded to two
 * decimals, and ordered by the page's fixed metric order.
 */
module MetricChange {
  import opened Wrappers
  import opened Folds
  import opened Tallies
  import opened KeySort

  /** One entry of a choice's `kc_impacts_of_choice`. */
  datatype KcImpact = KcImpact(kcIdentifier: string, score: real)

  /**
   * The lookup tables fetched from the database: KC identifier to KC id,
   * KC id to the ids of the metrics it affects, metric id to metric name.
   */
  datatype Definitions = Definitions(
    kcIdentifierToId: map<string, int>,
    kcIdToMetricIds: map<int, seq<int>>,
    metricIdToName: map<int, string>)

  /** One line of the summary. */
  datatype MetricChangeDisplay = MetricChangeDisplay(name: string, change: real, icon: string, unit: string)

  /** METRIC_SORT_ORDER: the display order of the summary. */
  const MetricSortOrder: seq<string> := [
    "Ethical-Decision Making", "Risk-Taking Ability", "Creative Thinking", "Aspiration Index",
    "Monetary Growth", "Customer Satisfaction", "Reputation"]

  /** The units table: every known metric has the empty unit. */
  const MetricUnits: map<string, string> := map[
    "Revenue" := "", "Customer Satisfaction" := "", "Reputation" := "", "Ethical Decision Making" := "",
    "Risk-Taking" := "", "Creative Thinking" := "", "Aspiration Index" := ""]

  const DefaultIcon: string := "/assets/metric_icons/revenue_icon.svg"

  // ---------------------------------------------------------------------------
  // Lookups (a missing key, the id 0 and the empty name all count as absent)

  /** `kcIdentifierToId.get(kcIdentifier)`, when it is truthy. */
  function KcId(defs: Definitions, kcIdentifier: string): Option<int>
  {
    if kcIdentifier in defs.kcIdentifierToId && defs.kcIdentifierToId[kcIdentifier] != 0
    then Some(defs.kcIdentifierToId[kcIdentifier]) else None
  }

  /** `metricIdToName.get(metricId)`, when it is truthy. */
  function MetricName(defs: Definitions, metricId: int): Option<string>
  {
    if metricId in defs.metricIdToName && defs.metricIdToName[metricId] != ""
    then Some(defs.metricIdToName[metricId]) else None
  }

  /** The switch of calculateMetricChange: the change a KC total makes to the named metric. */
  function RawMetricChange(name: string, totalScore: real): real
  {
    if name == "Revenue" then totalScore * 5750.0
    else if name == "Customer Satisfaction" then totalScore * 6.5
    else if name == "Reputation" then totalScore * 0.28
    else if name == "Ethical Decision Making" || name == "Risk-Taking"
         || name == "Creative Thinking" || name == "Aspiration Index" then totalScore * 9.5
    else totalScore * 2.0
  }

  /**
   * The conversion is linear: converting a KC's summed score gives the sum of
   * converting its scores one by one, so summing per KC first loses nothing.
   */
  lemma RawMetricChangeAdditive(name: string, a: real, b: real)
    ensures RawMetricChange(name, a + b) == RawMetricChange(name, a) + RawMetricChange(name, b)
    ensures RawMetricChange(name, 0.0) == 0.0
  {
  }

  /** `DISPLAY_NAME_MAP[metricName] || metricName`. */
  function DisplayName(name: string): string
  {
    if name == "Revenue" then "Monetary Growth"
    else if name == "Ethical Decision Making" then "Ethical-Decision Making"
    else if name == "Risk-Taking" then "Risk-Taking Ability"
    else name
  }

  /** `METRIC_ICON_MAP[metricName] || <the revenue icon>`. */
  function Icon(name: string): string
  {
    if name == "Revenue" then "/assets/metric_icons/revenue_icon.svg"
    else if name == "Customer Satisfaction" then "/assets/metric_icons/customer_satisfaction_icon.svg"
    else if name == "Reputation" then "/assets/metric_icons/qar_icon.svg"
    else if name == "Ethical Decision Making" then "/assets/metric_icons/edm_icon.svg"
    else if name == "Risk-Taking" then "/assets/metric_icons/rt_icon.svg"
    else if name == "Creative Thinking" then "/assets/Log/creative_thinking.png"
    else if name == "Aspiration Index" then "/assets/Log/aspiration_index.png"
    else DefaultIcon
  }

  /** `metricUnits[metricName] || ''`. */
  function Unit(name: string): string
  {
    if name in MetricUnits then MetricUnits[name] else ""
  }

  // ---------------------------------------------------------------------------
  // Rounding: `parseFloat(x.toFixed(2))`, on exact reals

  /** Rounds a non-negative number to the nearest hundredth, halves upwards. */
  function RoundUp2(x: real): real
    requires x >= 0.0
  {
    (x * 100.0 + 0.5).Floor as real / 100.0
  }

  /** toFixed(2) rounds the magnitude, halves away from zero, and keeps the sign. */
  function Round2(x: real): real
  {
    if x >= 0.0 then RoundUp2(x) else -RoundUp2(-x)
  }

  /** The rounded value is within half a hundredth of the value. */
  lemma Round2Close(x: real)
    ensures -0.005 <= Round2(x) - x <= 0.005
  {
    var y := if x >= 0.0 then x else -x;
    var n := (y * 100.0 + 0.5).Floor;
    assert n as real <= y * 100.0 + 0.5 < n as real + 1.0;
  }

  /** Rounding keeps a number that already has two decimals. */
  lemma Round2Hundredths(n: int)
    ensures Round2(n as real / 100.0) == n as real / 100.0
  {
    var x := n as real / 100.0;
    if n >= 0 {
      assert x * 100.0 == n as real;
      FloorHalf(n);
    } else {
      assert -x * 100.0 == (-n) as real;
      FloorHalf(-n);
    }
  }

  lemma FloorHalf(n: int)
    ensures (n as real + 0.5).Floor == n
  {
  }

  // ---------------------------------------------------------------------------
  // The summary, as functions

  function ImpactEntry(impact: KcImpact): Entry<string>
  {
    Entry(impact.kcIdentifier, impact.score)
  }

  /** `totalKcScores`: the scores summed per KC identifier, in order of first appearance. */
  function KcTotals(impacts: seq<KcImpact>): Tally<string>
  {
    TallyOf(MapSeq(impacts, ImpactEntry))
  }

  /** The changes one KC total makes through the given metric ids: one per named metric, in list order. */
  function MetricContributions(defs: Definitions, metricIds: seq<int>, total: real): seq<Entry<string>>
  {
    if |metricIds| == 0 then []
    else MetricContributions(defs, metricIds[..|metricIds| - 1], total) + MetricContribution(defs, metricIds[|metricIds| - 1], total)
  }

  /** The change one KC total makes through one metric id: none when the id has no name. */
  function MetricContribution(defs: Definitions, metricId: int, total: real): seq<Entry<string>>
  {
    match MetricName(defs, metricId)
    case None => []
    case Some(name) => [Entry(name, RawMetricChange(name, total))]
  }

  /** The changes one KC total makes: none for an unknown KC or one without a metric list. */
  function KcContributions(defs: Definitions, kcIdentifier: string, total: real): seq<Entry<string>>
  {
    match KcId(defs, kcIdentifier)
    case None => []
    case Some(kcId) =>
      if kcId in defs.kcIdToMetricIds then MetricContributions(defs, defs.kcIdToMetricIds[kcId], total) else []
  }

  /** The contribution function for the KC totals `totals`. */
  function ContributionsOf(defs: Definitions, totals: map<string, real>): string -> seq<Entry<string>>
  {
    kc => KcContributions(defs, kc, if kc in totals then totals[kc] else 0.0)
  }

  /** Every metric change, KC by KC in the order of the KC totals. */
  function Contributions(defs: Definitions, impacts: seq<KcImpact>): seq<Entry<string>>
  {
    var t := KcTotals(impacts);
    FlatMap(t.order, ContributionsOf(defs, t.totals))
  }

  /** `cumulativeChanges`: the changes summed per metric name, in order of first appearance. */
  function Changes(defs: Definitions, impacts: seq<KcImpact>): Tally<string>
  {
    TallyOf(Contributions(defs, impacts))
  }

  /** The summary line of one metric and its summed change. */
  function Display(name: string, total: real): MetricChangeDisplay
  {
    MetricChangeDisplay(DisplayName(name), Round2(total), Icon(name), Unit(name))
  }

  function DisplayOf(totals: map<string, real>): string -> MetricChangeDisplay
  {
    name => Display(name, if name in totals then totals[name] else 0.0)
  }

  /** The line a metric gets from the changes c: its display data and the sum of its changes. */
  function LineOf(c: seq<Entry<string>>): string -> MetricChangeDisplay
  {
    name => Display(name, Sum(c, AmountFor(name)))
  }

  /** `METRIC_SORT_ORDER.indexOf(name)`: its position, or -1 when it is not listed. */
  function IndexOf(s: seq<string>, x: string): (r: int)
    ensures -1 <= r < |s|
    ensures r == -1 <==> x !in s
    ensures r >= 0 ==> s[r] == x && x !in s[..r]
  {
    if |s| == 0 then -1
    else if s[0] == x then 0
    else
      var r := IndexOf(s[1..], x);
      assert r >= 0 ==> s[..r + 1] == [s[0]] + s[1..][..r];
      assert s == [s[0]] + s[1..];
      if r == -1 then -1 else r + 1
  }

  function SortIndex(d: MetricChangeDisplay): int
  {
    IndexOf(MetricSortOrder, d.name)
  }

  /** `summary.sort((a, b) => indexA - indexB)`: the stable sort by position in METRIC_SORT_ORDER. */
  function SortSummary(summary: seq<MetricChangeDisplay>): seq<MetricChangeDisplay>
  {
    SortByKey(summary, SortIndex, -1, |MetricSortOrder| - 1)
  }

  /** The summary lines before the sort, in order of first appearance of their metric. */
  function Summary(impacts: seq<KcImpact>, defs: Definitions): seq<MetricChangeDisplay>
  {
    var changes := Changes(defs, impacts);
    MapSeq(changes.order, DisplayOf(changes.totals))
  }

  /** What calculateMetricChange returns. */
  function MetricChangeOf(impacts: seq<KcImpact>, defs: Definitions): seq<MetricChangeDisplay>
  {
    SortSummary(Summary(impacts, defs))
  }

  // ---------------------------------------------------------------------------
  // What the summary means

  /** A KC that the tables give no metrics: its identifier is unknown, its id is 0, or its id has no effects. */
  predicate Silent(defs: Definitions, kcIdentifier: string)
  {
    KcId(defs, kcIdentifier).None? || KcId(defs, kcIdentifier).value !in defs.kcIdToMetricIds
  }

  /**
   * The sort orders the lines by their position in METRIC_SORT_ORDER (unlisted
   * names first), keeps the lines with the same position in their original
   * order, and loses or adds no line.
   */
  lemma SortSummarySpec(lines: seq<MetricChangeDisplay>)
    ensures forall i, j :: 0 <= i < j < |SortSummary(lines)| ==>
      SortIndex(SortSummary(lines)[i]) <= SortIndex(SortSummary(lines)[j])
    ensures forall k :: -1 <= k < |MetricSortOrder| ==> Bucket(SortSummary(lines), SortIndex, k) == Bucket(lines, SortIndex, k)
    ensures multiset(SortSummary(lines)) == multiset(lines)
  {
    SortByKeySorted(lines, SortIndex, -1, |MetricSortOrder| - 1);
    forall k | -1 <= k < |MetricSortOrder|
      ensures Bucket(SortSummary(lines), SortIndex, k) == Bucket(lines, SortIndex, k)
    {
      SortByKeyStable(lines, SortIndex, -1, |MetricSortOrder| - 1, k);
    }
    SortByKeyPermutation(lines, SortIndex, -1, |MetricSortOrder| - 1);
  }

  /**
   * The summary has one line per metric that some KC of the impacts changes:
   * its display name, its icon and unit, and the rounded sum of every change
   * the KC totals make to it.
   */
  lemma MetricChangeLines(impacts: seq<KcImpact>, defs: Definitions)
    ensures multiset(MetricChangeOf(impacts, defs))
      == multiset(MapSeq(FirstAppearance(Keys(Contributions(defs, impacts))), LineOf(Contributions(defs, impacts))))
    ensures |MetricChangeOf(impacts, defs)| == |FirstAppearance(Keys(Contributions(defs, impacts)))|
    ensures forall d :: d in MetricChangeOf(impacts, defs) <==>
      exists name :: name in Keys(Contributions(defs, impacts)) &&
        d == Display(name, Sum(Contributions(defs, impacts), AmountFor(name)))
  {
    var lines := Summary(impacts, defs);
    LinesOf(Contributions(defs, impacts));
    TallyLines(Contributions(defs, impacts));
    SortSummarySpec(lines);
    forall d ensures d in MetricChangeOf(impacts, defs) <==> d in lines {
      assert d in multiset(MetricChangeOf(impacts, defs)) <==> d in multiset(lines);
    }
    assert |MetricChangeOf(impacts, defs)| == |multiset(lines)|;
  }

  /** The lines of the tally of the changes c: one per metric, with the sum of its changes. */
  lemma LinesOf(c: seq<Entry<string>>)
    ensures |MapSeq(TallyOf(c).order, DisplayOf(TallyOf(c).totals))| == |FirstAppearance(Keys(c))|
    ensures forall d :: d in MapSeq(TallyOf(c).order, DisplayOf(TallyOf(c).totals)) <==>
      exists name :: name in Keys(c) && d == Display(name, Sum(c, AmountFor(name)))
  {
    var t := TallyOf(c);
    var lines := MapSeq(t.order, DisplayOf(t.totals));
    TallyOfSpec(c);
    forall d | d in lines
      ensures exists name :: name in Keys(c) && d == Display(name, Sum(c, AmountFor(name)))
    {
      var i :| 0 <= i < |lines| && lines[i] == d;
      assert t.order[i] in t.totals;
    }
    forall name | name in Keys(c)
      ensures Display(name, Sum(c, AmountFor(name))) in lines
    {
      var i :| 0 <= i < |t.order| && t.order[i] == name;
      assert lines[i] == Display(name, Sum(c, AmountFor(name)));
    }
  }

  /** The lines of the tally of the changes c are the lines of its metrics, in order of first appearance. */
  lemma {:induction false} TallyLines(c: seq<Entry<string>>)
    ensures MapSeq(TallyOf(c).order, DisplayOf(TallyOf(c).totals)) == MapSeq(FirstAppearance(Keys(c)), LineOf(c))
  {
    var t := TallyOf(c);
    var lines := MapSeq(t.order, DisplayOf(t.totals));
    TallyOfSpec(c);
    forall i | 0 <= i < |lines|
      ensures lines[i] == LineOf(c)(t.order[i])
    {
      FirstAppearanceHas(Keys(c), t.order[i]);
    }
  }

  /**
   * The order of the impacts does not matter: reordering them changes
   * neither the per-metric totals nor the set of summary lines.
   */
  lemma MetricChangeOrderIndependent(a: seq<KcImpact>, b: seq<KcImpact>, defs: Definitions)
    requires multiset(a) == multiset(b)
    ensures Changes(defs, a).totals == Changes(defs, b).totals
    ensures multiset(MetricChangeOf(a, defs)) == multiset(MetricChangeOf(b, defs))
  {
    MapSeqPermutation(a, b, ImpactEntry);
    TallyPermutation(MapSeq(a, ImpactEntry), MapSeq(b, ImpactEntry));
    var ta, tb := KcTotals(a), KcTotals(b);
    FlatMapPermutation(ta.order, tb.order, ContributionsOf(defs, ta.totals));
    TallyPermutation(Contributions(defs, a), Contributions(defs, b));
    var ca, cb := Changes(defs, a), Changes(defs, b);
    MapSeqPermutation(ca.order, cb.order, DisplayOf(ca.totals));
    SortSummarySpec(Summary(a, defs));
    SortSummarySpec(Summary(b, defs));
  }

  /** An impact on a KC that affects no metric leaves the summary exactly as it was. */
  lemma {:induction false} SilentImpactIgnored(impacts: seq<KcImpact>, impact: KcImpact, defs: Definitions)
    requires Silent(defs, impact.kcIdentifier)
    ensures MetricChangeOf(impacts + [impact], defs) == MetricChangeOf(impacts, defs)
  {
    var entries := MapSeq(impacts, ImpactEntry);
    MapSeqConcat(impacts, [impact], ImpactEntry);
    assert MapSeq(impacts + [impact], ImpactEntry) == entries + [ImpactEntry(impact)];
    assert (entries + [ImpactEntry(impact)])[..|entries|] == entries;
    var t, t' := KcTotals(impacts), KcTotals(impacts + [impact]);
    assert t' == Add(t, impact.kcIdentifier, impact.score);
    var f, f' := ContributionsOf(defs, t.totals), ContributionsOf(defs, t'.totals);
    FlatMapPointwise(t.order, f', f);
    if impact.kcIdentifier !in t.totals {
      assert t'.order == t.order + [impact.kcIdentifier];
      assert t'.order[..|t.order|] == t.order;
      assert f'(impact.kcIdentifier) == [];
    }
    assert Contributions(defs, impacts + [impact]) == Contributions(defs, impacts);
  }

  /** No impacts, no summary. */
  lemma NoImpactsNoChange(defs: Definitions)
    ensures MetricChangeOf([], defs) == []
  {
    assert MapSeq([], ImpactEntry) == [];
    SortByKeyEmpty(Summary([], defs), SortIndex, -1, |MetricSortOrder| - 1);
  }

  // ---------------------------------------------------------------------------
  // calculateMetricChange, step by step

  /** The first loop: `totalKcScores`. */
  method SumKcScores(kcImpacts: seq<KcImpact>) returns (totalKcScores: Tally<string>)
    ensures totalKcScores == KcTotals(kcImpacts)
  {
    totalKcScores := Tally([], map[]);
    for i := 0 to |kcImpacts|
      invariant totalKcScores == TallyOf(MapSeq(kcImpacts[..i], ImpactEntry))
    {
      assert MapSeq(kcImpacts[..i + 1], ImpactEntry)[..i] == MapSeq(kcImpacts[..i], ImpactEntry);
      totalKcScores := Add(totalKcScores, kcImpacts[i].kcIdentifier, kcImpacts[i].score);
    }
    assert kcImpacts[..|kcImpacts|] == kcImpacts;
  }

  /** One pass of the second loop: the changes one KC total makes, added to `cumulativeChanges`. */
  method AddKcChanges(cumulativeChanges: Tally<string>, defs: Definitions, kcIdentifier: string, totalScore: real)
    returns (next: Tally<string>)
    ensures next == AddAll(cumulativeChanges, KcContributions(defs, kcIdentifier, totalScore))
  {
    next := cumulativeChanges;
    if !(kcIdentifier in defs.kcIdentifierToId && defs.kcIdentifierToId[kcIdentifier] != 0) {
      return;
    }
    var kcId := defs.kcIdentifierToId[kcIdentifier];
    if kcId !in defs.kcIdToMetricIds {
      return;
    }
    next := AddMetricChanges(cumulativeChanges, defs, defs.kcIdToMetricIds[kcId], totalScore);
  }

  /** The innermost loop: the changes one KC total makes through its metric ids. */
  method AddMetricChanges(cumulativeChanges: Tally<string>, defs: Definitions, affectedMetricIds: seq<int>, totalScore: real)
    returns (next: Tally<string>)
    ensures next == AddAll(cumulativeChanges, MetricContributions(defs, affectedMetricIds, totalScore))
  {
    next := cumulativeChanges;
    for t := 0 to |affectedMetricIds|
      invariant next == AddAll(cumulativeChanges, MetricContributions(defs, affectedMetricIds[..t], totalScore))
    {
      MetricChangeStep(cumulativeChanges, defs, affectedMetricIds, t, totalScore);
      var metricId := affectedMetricIds[t];
      if metricId in defs.metricIdToName && defs.metricIdToName[metricId] != "" {
        var metricName := defs.metricIdToName[metricId];
        var rawMetricChange := RawMetricChange(metricName, totalScore);
        next := Add(next, metricName, rawMetricChange);
      }
    }
    assert affectedMetricIds[..|affectedMetricIds|] == affectedMetricIds;
  }

  /** One pass of the innermost loop adds the change through one more metric id, if that id is named. */
  lemma MetricChangeStep(c: Tally<string>, defs: Definitions, ids: seq<int>, t: nat, total: real)
    requires t < |ids|
    ensures MetricName(defs, ids[t]).None? ==>
      AddAll(c, MetricContributions(defs, ids[..t + 1], total)) == AddAll(c, MetricContributions(defs, ids[..t], total))
    ensures MetricName(defs, ids[t]).Some? ==>
      var name := MetricName(defs, ids[t]).value;
      AddAll(c, MetricContributions(defs, ids[..t + 1], total)) ==
        Add(AddAll(c, MetricContributions(defs, ids[..t], total)), name, RawMetricChange(name, total))
  {
    assert ids[..t + 1][..t] == ids[..t];
    var one := MetricContribution(defs, ids[t], total);
    AddAllConcat(c, MetricContributions(defs, ids[..t], total), one);
    if |one| == 1 {
      assert one[..0] == [];
    }
  }

  /** The second loop: `cumulativeChanges`, over the KC totals in their order. */
  method SumMetricChanges(totalKcScores: Tally<string>, defs: Definitions) returns (cumulativeChanges: Tally<string>)
    requires forall i :: 0 <= i < |totalKcScores.order| ==> totalKcScores.order[i] in totalKcScores.totals
    ensures cumulativeChanges == TallyOf(FlatMap(totalKcScores.order, ContributionsOf(defs, totalKcScores.totals)))
  {
    ghost var f := ContributionsOf(defs, totalKcScores.totals);
    cumulativeChanges := Tally([], map[]);
    for j := 0 to |totalKcScores.order|
      invariant cumulativeChanges == TallyOf(FlatMap(totalKcScores.order[..j], f))
    {
      var kcIdentifier := totalKcScores.order[j];
      var totalScore := totalKcScores.totals[kcIdentifier];
      assert totalKcScores.order[..j + 1][..j] == totalKcScores.order[..j];
      AddAllConcat(Tally([], map[]), FlatMap(totalKcScores.order[..j], f), f(kcIdentifier));
      cumulativeChanges := AddKcChanges(cumulativeChanges, defs, kcIdentifier, totalScore);
    }
    assert totalKcScores.order[..|totalKcScores.order|] == totalKcScores.order;
  }

  /** The third loop: one summary line per metric, in the order of `cumulativeChanges`. */
  method Summarize(cumulativeChanges: Tally<string>) returns (summary: seq<MetricChangeDisplay>)
    requires forall i :: 0 <= i < |cumulativeChanges.order| ==> cumulativeChanges.order[i] in cumulativeChanges.totals
    ensures summary == MapSeq(cumulativeChanges.order, DisplayOf(cumulativeChanges.totals))
  {
    summary := [];
    for k := 0 to |cumulativeChanges.order|
      invariant summary == MapSeq(cumulativeChanges.order[..k], DisplayOf(cumulativeChanges.totals))
    {
      var metricName := cumulativeChanges.order[k];
      assert cumulativeChanges.order[..k + 1] == cumulativeChanges.order[..k] + [metricName];
      MapSeqConcat(cumulativeChanges.order[..k], [metricName], DisplayOf(cumulativeChanges.totals));
      summary := summary + [Display(metricName, cumulativeChanges.totals[metricName])];
    }
    assert cumulativeChanges.order[..|cumulativeChanges.order|] == cumulativeChanges.order;
  }

  /** calculateMetricChange: the three loops, then the sort by METRIC_SORT_ORDER. */
  method CalculateMetricChange(kcImpacts: seq<KcImpact>, defs: Definitions) returns (summary: seq<MetricChangeDisplay>)
    ensures summary == MetricChangeOf(kcImpacts, defs)
  {
    var totalKcScores := SumKcScores(kcImpacts);
    TallyOfSpec(MapSeq(kcImpacts, ImpactEntry));
    var cumulativeChanges := SumMetricChanges(totalKcScores, defs);
    TallyOfSpec(Contributions(defs, kcImpacts));
    var lines := Summarize(cumulativeChanges);
    summary := SortSummary(lines);
  }
}
