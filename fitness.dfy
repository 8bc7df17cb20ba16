/**
 * calculate_fitness: how far a candidate's win percentages per chapter are
 * from the designer's targets. A player's metric score for a chapter is the
 * weighted sum of that chapter's cumulative KC totals; the player has "won"
 * by that chapter when the score reaches the candidate's goal.
 */
module FitnessEvaluator {
  import opened Folds
  import opened Tallies
  import opened ScoringConfig
  import opened JourneySimulator
  import opened Individuals

  /** The chapters the fitness looks at: the first three of every journey. */
  const Chapters: nat := 3

  /** Target share of winners after chapters 1, 2 and 3. */
  const TargetWinPct: seq<real> := [0.0, 0.65, 0.85]

  /** `score * weights[kc]` for a KC the candidate weighs, and nothing for any other. */
  function Term(totals: map<Kc, real>, weights: map<Kc, real>): Kc -> real
  {
    kc => if kc in totals && kc in weights then Product(totals[kc], weights[kc]) else 0.0
  }

  /** The metric score of one snapshot: its KCs visited in dictionary order. */
  function MetricScore(snap: Snapshot, weights: map<Kc, real>): real
  {
    Sum(snap.order, Term(snap.totals, weights))
  }

  /** What one payload item is worth to the metric: its score times its KC's weight. */
  function ItemValue(weights: map<Kc, real>): Item -> real
  {
    (e: Item) => if e.key in weights then Product(e.amount, weights[e.key]) else 0.0
  }

  /** Two functions that agree on the elements of s have the same sum over s. */
  lemma {:induction false} SumAgree<T>(s: seq<T>, f: T -> real, g: T -> real)
    requires forall i :: 0 <= i < |s| ==> f(s[i]) == g(s[i])
    ensures Sum(s, f) == Sum(s, g)
  {
    if |s| > 0 {
      SumAgree(s[..|s| - 1], f, g);
    }
  }

  /** Adding `amount` to k's total raises the score by `amount * weights[k]`. */
  lemma ScoreAdd(t: Snapshot, k: Kc, amount: real, weights: map<Kc, real>)
    requires ValidTally(t)
    ensures MetricScore(Add(t, k, amount), weights) == MetricScore(t, weights) + ItemValue(weights)(Entry(k, amount))
  {
    if k in t.totals {
      assert k in t.order;
      ScoreAddPresent(t, k, amount, weights);
    } else {
      ScoreAddAbsent(t, k, amount, weights);
    }
  }

  lemma {:induction false} ScoreAddPresent(t: Snapshot, k: Kc, amount: real, weights: map<Kc, real>)
    requires Distinct(t.order) && k in t.order && k in t.totals
    ensures MetricScore(Add(t, k, amount), weights) == MetricScore(t, weights) + ItemValue(weights)(Entry(k, amount))
  {
    var totals' := t.totals[k := t.totals[k] + amount];
    assert Add(t, k, amount) == Tally(t.order, totals');
    var f, f' := Term(t.totals, weights), Term(totals', weights);
    var s := t.order;
    var j :| 0 <= j < |s| && s[j] == k;
    forall i | 0 <= i < |s| && i != j ensures f(s[i]) == f'(s[i]) {
      assert s[i] != s[j];
    }
    SumChangeOne(s, j, f, f');
    if k in weights {
      Distribute(t.totals[k], amount, weights[k]);
    }
  }

  /** Changing the term of one position changes the sum by exactly the difference. */
  lemma {:induction false} SumChangeOne<T>(s: seq<T>, j: nat, f: T -> real, g: T -> real)
    requires j < |s|
    requires forall i :: 0 <= i < |s| && i != j ==> f(s[i]) == g(s[i])
    ensures Sum(s, g) == Sum(s, f) + (g(s[j]) - f(s[j]))
  {
    var rest := s[..j] + s[j + 1..];
    SumRemove(s, j, f);
    SumRemove(s, j, g);
    forall i | 0 <= i < |rest| ensures f(rest[i]) == g(rest[i]) {
      if i < j {
        assert rest[i] == s[i];
      } else {
        assert rest[i] == s[i + 1];
      }
    }
    SumAgree(rest, f, g);
  }

  lemma Distribute(x: real, a: real, w: real)
    ensures Product(x + a, w) == Product(x, w) + Product(a, w)
  {
  }

  lemma {:induction false} ScoreAddAbsent(t: Snapshot, k: Kc, amount: real, weights: map<Kc, real>)
    requires ValidTally(t) && k !in t.totals
    ensures MetricScore(Add(t, k, amount), weights) == MetricScore(t, weights) + ItemValue(weights)(Entry(k, amount))
  {
    var totals' := t.totals[k := 0.0 + amount];
    var s := t.order;
    assert Add(t, k, amount) == Tally(s + [k], totals');
    assert (s + [k])[..|s|] == s;
    var f, f' := Term(t.totals, weights), Term(totals', weights);
    forall i | 0 <= i < |s| ensures f(s[i]) == f'(s[i]) {
      assert s[i] in t.totals;
    }
    SumAgree(s, f, f');
  }

  /**
   * Accumulating first and weighting afterwards is the same as weighting every
   * item: the score of a tally of items is the sum of the items' values.
   */
  lemma {:induction false} ScoreOfItems(items: seq<Item>, weights: map<Kc, real>)
    ensures MetricScore(TallyOf(items), weights) == Sum(items, ItemValue(weights))
  {
    if |items| > 0 {
      var prefix := items[..|items| - 1];
      var last := items[|items| - 1];
      ScoreOfItems(prefix, weights);
      TallyOfSpec(prefix);
      ScoreAdd(TallyOf(prefix), last.key, last.amount, weights);
    }
  }

  /**
   * A chapter's score depends only on which payload items a player received
   * by then, not on the order they came in.
   */
  lemma ScoreOrderIndependent(a: seq<Item>, b: seq<Item>, weights: map<Kc, real>)
    requires multiset(a) == multiset(b)
    ensures MetricScore(TallyOf(a), weights) == MetricScore(TallyOf(b), weights)
  {
    ScoreOfItems(a, weights);
    ScoreOfItems(b, weights);
    SumPermutation(a, b, ItemValue(weights));
  }

  /** The score of a simulated snapshot: every item received up to chapter c, weighted. */
  lemma SnapshotScore(pool: seq<Payload>, chapters: seq<seq<nat>>, c: nat, weights: map<Kc, real>)
    requires c < |chapters|
    requires forall c :: 0 <= c < |chapters| ==> PicksInPool(chapters[c], |pool|)
    ensures MetricScore(SnapshotAt(pool, chapters, c), weights) == Sum(JourneyItems(pool, chapters[..c + 1]), ItemValue(weights))
  {
    ScoreOfItems(JourneyItems(pool, chapters[..c + 1]), weights);
  }

  /** A candidate without weights (a metric no KC affects) scores 0 on every snapshot. */
  lemma {:induction false} NoWeightsScoreZero(kcs: seq<Kc>, totals: map<Kc, real>)
    ensures Sum(kcs, Term(totals, map[])) == 0.0
  {
    if |kcs| > 0 {
      NoWeightsScoreZero(kcs[..|kcs| - 1], totals);
    }
  }

  /** Every journey has at least three chapters, and each of those is a consistent tally. */
  ghost predicate ScorableJourneys(journeys: seq<Journey>)
  {
    forall p :: 0 <= p < |journeys| ==>
      |journeys[p]| >= Chapters && forall c :: 0 <= c < Chapters ==> ValidTally(journeys[p][c])
  }

  /**
   * The journeys precompute_player_kc_journeys returns can be scored: with at
   * least three chapters per player, every snapshot the fitness reads is a
   * consistent tally of the items drawn so far.
   */
  lemma SimulatedJourneysScorable(numPlayers: nat, numChapters: nat, decisionsPerChapter: nat,
                                  poolDraws: seq<PayloadDraw>, picks: seq<seq<seq<nat>>>, journeys: seq<Journey>)
    requires ValidSimulationDraws(numPlayers, numChapters, decisionsPerChapter, poolDraws, picks)
    requires numChapters >= Chapters
    requires |journeys| == numPlayers
    requires forall p :: 0 <= p < numPlayers ==> |journeys[p]| == numChapters
    requires forall p, c :: 0 <= p < numPlayers && 0 <= c < numChapters ==>
      journeys[p][c] == SnapshotAt(GeneratePool(poolDraws), picks[p], c)
    ensures ScorableJourneys(journeys)
  {
    var pool := GeneratePool(poolDraws);
    forall p, c | 0 <= p < |journeys| && 0 <= c < Chapters
      ensures ValidTally(journeys[p][c])
    {
      TallyOfSpec(JourneyItems(pool, picks[p][..c + 1]));
    }
  }

  /** How many players reach the goal by chapter c: one column of `has_won_by_chapter`, summed. */
  function Wins(journeys: seq<Journey>, c: nat, weights: map<Kc, real>, goal: real): (n: nat)
    requires forall p :: 0 <= p < |journeys| ==> c < |journeys[p]|
    ensures n <= |journeys|
  {
    if |journeys| == 0 then 0
    else
      var last := journeys[|journeys| - 1];
      Wins(journeys[..|journeys| - 1], c, weights, goal) + if WonBy(last, c, weights, goal) then 1 else 0
  }

  /** Raising the goal never makes more players win. */
  lemma {:induction false} WinsAntitone(journeys: seq<Journey>, c: nat, weights: map<Kc, real>, low: real, high: real)
    requires forall p :: 0 <= p < |journeys| ==> c < |journeys[p]|
    requires low <= high
    ensures Wins(journeys, c, weights, high) <= Wins(journeys, c, weights, low)
  {
    if |journeys| > 0 {
      WinsAntitone(journeys[..|journeys| - 1], c, weights, low, high);
    }
  }

  /** When every player's chapter-c score reaches the goal (a score equal to it included), all of them win. */
  lemma {:induction false} WinsAll(journeys: seq<Journey>, c: nat, weights: map<Kc, real>, goal: real)
    requires forall p :: 0 <= p < |journeys| ==> c < |journeys[p]|
    requires forall p :: 0 <= p < |journeys| ==> MetricScore(journeys[p][c], weights) >= goal
    ensures Wins(journeys, c, weights, goal) == |journeys|
  {
    if |journeys| > 0 {
      WinsAll(journeys[..|journeys| - 1], c, weights, goal);
    }
  }

  /** When every player's chapter-c score stays below the goal, nobody wins. */
  lemma {:induction false} WinsNone(journeys: seq<Journey>, c: nat, weights: map<Kc, real>, goal: real)
    requires forall p :: 0 <= p < |journeys| ==> c < |journeys[p]|
    requires forall p :: 0 <= p < |journeys| ==> MetricScore(journeys[p][c], weights) < goal
    ensures Wins(journeys, c, weights, goal) == 0
  {
    if |journeys| > 0 {
      WinsNone(journeys[..|journeys| - 1], c, weights, goal);
    }
  }

  /** Player with this journey has reached the goal by chapter c. */
  predicate WonBy(journey: Journey, c: nat, weights: map<Kc, real>, goal: real)
    requires c < |journey|
  {
    MetricScore(journey[c], weights) >= goal
  }

  /** `has_won_by_chapter[:, c]`: for every player, whether the goal is reached by chapter c. */
  function WonFlags(journeys: seq<Journey>, c: nat, weights: map<Kc, real>, goal: real): (flags: seq<bool>)
    requires forall p :: 0 <= p < |journeys| ==> c < |journeys[p]|
    ensures |flags| == |journeys|
    ensures forall p :: 0 <= p < |journeys| ==> flags[p] == WonBy(journeys[p], c, weights, goal)
  {
    seq(|journeys|, p requires 0 <= p < |journeys| => WonBy(journeys[p], c, weights, goal))
  }

  /** Wins counts exactly the players whose chapter-c score reaches the goal. */
  lemma {:induction false} WinsCount(journeys: seq<Journey>, c: nat, weights: map<Kc, real>, goal: real)
    requires forall p :: 0 <= p < |journeys| ==> c < |journeys[p]|
    ensures Wins(journeys, c, weights, goal) == CountTrue(WonFlags(journeys, c, weights, goal))
    ensures Wins(journeys, c, weights, goal) == |TrueAt(WonFlags(journeys, c, weights, goal))|
  {
    var flags := WonFlags(journeys, c, weights, goal);
    if |journeys| > 0 {
      var prefix := journeys[..|journeys| - 1];
      WinsCount(prefix, c, weights, goal);
      assert WonFlags(prefix, c, weights, goal) == flags[..|flags| - 1];
    }
    CountTrueCard(flags);
  }

  /** The share of players that win by chapter c. */
  function WinFraction(journeys: seq<Journey>, c: nat, weights: map<Kc, real>, goal: real): (f: real)
    requires |journeys| > 0
    requires forall p :: 0 <= p < |journeys| ==> c < |journeys[p]|
    ensures 0.0 <= f <= 1.0
  {
    var wins := Wins(journeys, c, weights, goal);
    FractionBounds(wins, |journeys|);
    wins as real / |journeys| as real
  }

  lemma FractionBounds(k: nat, n: nat)
    requires 0 < n && k <= n
    ensures 0.0 <= k as real / n as real <= 1.0
  {
    var q := k as real / n as real;
    assert q * n as real == k as real;
  }

  /** a · b, kept as a function so that products are compared as whole terms. */
  function Product(a: real, b: real): real
  {
    a * b
  }

  /** `x ** 2`. */
  function Square(x: real): real
  {
    Product(x, x)
  }

  lemma ProductPositive(a: real, b: real)
    requires a > 0.0 && b > 0.0
    ensures Product(a, b) > 0.0
  {
  }

  lemma ProductMonotone(a: real, b: real, c: real)
    requires 0.0 <= a <= b && 0.0 <= c
    ensures Product(a, c) <= Product(b, c)
  {
  }

  /** A square is never negative, and is zero only for zero. */
  lemma SquareSign(x: real)
    ensures Square(x) >= 0.0
    ensures Square(x) == 0.0 <==> x == 0.0
  {
    if x > 0.0 {
      ProductPositive(x, x);
    } else if x < 0.0 {
      ProductPositive(-x, -x);
      assert Product(x, x) == Product(-x, -x);
    }
  }

  /** A value within [-m, m] has a square of at most m². */
  lemma SquareBound(d: real, m: real)
    requires 0.0 <= m && -m <= d <= m
    ensures Square(d) <= Square(m)
  {
    var a := if d < 0.0 then -d else d;
    assert Square(d) == Product(a, a);
    ProductMonotone(a, m, a);
    ProductMonotone(a, m, m);
    assert Product(m, a) == Product(a, m);
  }

  /** The sum of squared errors, the first chapter's deviation counted five times over. */
  function Error(pct: seq<real>): real
    requires |pct| == Chapters
  {
    Square((pct[0] - TargetWinPct[0]) * 5.0) + Square(pct[1] - TargetWinPct[1]) + Square(pct[2] - TargetWinPct[2])
  }

  /** The error is never negative and is zero exactly when every target is hit. */
  lemma ErrorZeroIff(pct: seq<real>)
    requires |pct| == Chapters
    ensures Error(pct) >= 0.0
    ensures Error(pct) == 0.0 <==> pct == TargetWinPct
  {
    SquareSign((pct[0] - TargetWinPct[0]) * 5.0);
    SquareSign(pct[1] - TargetWinPct[1]);
    SquareSign(pct[2] - TargetWinPct[2]);
    if Error(pct) == 0.0 {
      assert pct == [pct[0], pct[1], pct[2]];
    }
  }
  /**
   * With shares in [0, 1], the worst possible error is 26.145: everyone
   * winning in chapter 1 (25), nobody in chapter 2 (0.4225) and nobody in
   * chapter 3 (0.7225).
   */
  lemma ErrorBound(pct: seq<real>)
    requires |pct| == Chapters
    requires forall i :: 0 <= i < Chapters ==> 0.0 <= pct[i] <= 1.0
    ensures Error(pct) <= 26.145
  {
    SquareBound((pct[0] - TargetWinPct[0]) * 5.0, 5.0);
    SquareBound(pct[1] - TargetWinPct[1], 0.65);
    SquareBound(pct[2] - TargetWinPct[2], 0.85);
    assert Square(5.0) == 25.0;
    assert Square(0.65) == 0.4225;
    assert Square(0.85) == 0.7225;
  }

  /** The score of each of a journey's first three chapters. */
  function ChapterScores(journey: Journey, weights: map<Kc, real>): (row: seq<real>)
    requires |journey| >= Chapters
    ensures |row| == Chapters
  {
    [MetricScore(journey[0], weights), MetricScore(journey[1], weights), MetricScore(journey[2], weights)]
  }

  /** The win share per chapter of a candidate over all players. */
  function WinPct(g: Genome, journeys: seq<Journey>): (pct: seq<real>)
    requires |journeys| > 0
    requires forall p :: 0 <= p < |journeys| ==> |journeys[p]| >= Chapters
    ensures |pct| == Chapters
    ensures forall i :: 0 <= i < Chapters ==> 0.0 <= pct[i] <= 1.0
  {
    [WinFraction(journeys, 0, g.weights, g.goal),
     WinFraction(journeys, 1, g.weights, g.goal),
     WinFraction(journeys, 2, g.weights, g.goal)]
  }

  /** What calculate_fitness returns: the error and the win shares behind it. */
  datatype Fitness = Fitness(error: real, winPct: seq<real>)

  function FitnessOf(g: Genome, journeys: seq<Journey>): Fitness
    requires |journeys| > 0
    requires forall p :: 0 <= p < |journeys| ==> |journeys[p]| >= Chapters
  {
    var pct := WinPct(g, journeys);
    Fitness(Error(pct), pct)
  }

  /**
   * Players whose score in each of the three chapters is exactly the goal
   * all count as winners: the win shares are [1, 1, 1].
   */
  lemma AllAtGoalWin(g: Genome, journeys: seq<Journey>)
    requires |journeys| > 0
    requires forall p :: 0 <= p < |journeys| ==> |journeys[p]| >= Chapters
    requires forall p, c :: 0 <= p < |journeys| && 0 <= c < Chapters ==> MetricScore(journeys[p][c], g.weights) == g.goal
    ensures WinPct(g, journeys) == [1.0, 1.0, 1.0]
  {
    var n := |journeys| as real;
    assert n / n == 1.0;
    WinsAll(journeys, 0, g.weights, g.goal);
    WinsAll(journeys, 1, g.weights, g.goal);
    WinsAll(journeys, 2, g.weights, g.goal);
  }

  /** With no weights every score is 0, so a positive goal is never reached: the win shares are [0, 0, 0]. */
  lemma NoWeightsNoWins(goal: real, journeys: seq<Journey>)
    requires |journeys| > 0 && goal > 0.0
    requires forall p :: 0 <= p < |journeys| ==> |journeys[p]| >= Chapters
    ensures WinPct(Genome(goal, map[]), journeys) == [0.0, 0.0, 0.0]
  {
    forall p, c | 0 <= p < |journeys| && 0 <= c < Chapters
      ensures MetricScore(journeys[p][c], map[]) < goal
    {
      NoWeightsScoreZero(journeys[p][c].order, journeys[p][c].totals);
    }
    WinsNone(journeys, 0, map[], goal);
    WinsNone(journeys, 1, map[], goal);
    WinsNone(journeys, 2, map[], goal);
  }

  /** Every fitness is a valid error over valid shares: in [0, 26.145], zero exactly on target. */
  lemma FitnessRange(g: Genome, journeys: seq<Journey>)
    requires |journeys| > 0
    requires forall p :: 0 <= p < |journeys| ==> |journeys[p]| >= Chapters
    ensures 0.0 <= FitnessOf(g, journeys).error <= 26.145
    ensures FitnessOf(g, journeys).error == 0.0 <==> FitnessOf(g, journeys).winPct == TargetWinPct
  {
    ErrorZeroIff(WinPct(g, journeys));
    ErrorBound(WinPct(g, journeys));
  }

  /**
   * calculate_fitness(individual, metric, journeys): the score table, one row
   * per player and one column per chapter, then the winners of every column,
   * their shares and the error.
   */
  method CalculateFitness(g: Genome, journeys: seq<Journey>) returns (error: real, winPct: seq<real>)
    requires |journeys| > 0
    requires ScorableJourneys(journeys)
    ensures Fitness(error, winPct) == FitnessOf(g, journeys)
  {
    var scores := ScoreTable(journeys, g.weights);
    var wins1 := CountWins(journeys, scores, 0, g.weights, g.goal);
    var wins2 := CountWins(journeys, scores, 1, g.weights, g.goal);
    var wins3 := CountWins(journeys, scores, 2, g.weights, g.goal);
    var n := |journeys| as real;
    winPct := [wins1 as real / n, wins2 as real / n, wins3 as real / n];
    assert winPct == WinPct(g, journeys);
    error := Error(winPct);
  }

  /** `final_scores_per_chapter`: one row of chapter scores per player. */
  method ScoreTable(journeys: seq<Journey>, weights: map<Kc, real>) returns (scores: seq<seq<real>>)
    requires ScorableJourneys(journeys)
    ensures |scores| == |journeys|
    ensures forall p :: 0 <= p < |journeys| ==> scores[p] == ChapterScores(journeys[p], weights)
  {
    scores := [];
    for i := 0 to |journeys|
      invariant |scores| == i
      invariant forall q :: 0 <= q < i ==> scores[q] == ChapterScores(journeys[q], weights)
    {
      var row: seq<real> := [];
      for c := 0 to Chapters
        invariant |row| == c
        invariant forall d :: 0 <= d < c ==> row[d] == MetricScore(journeys[i][d], weights)
      {
        var s := ScoreSnapshot(journeys[i][c], weights);
        row := row + [s];
      }
      scores := scores + [row];
    }
  }

  /** `np.sum(has_won_by_chapter[:, c])`: the players whose chapter-c score reaches the goal. */
  method CountWins(journeys: seq<Journey>, scores: seq<seq<real>>, c: nat, weights: map<Kc, real>, goal: real)
    returns (wins: nat)
    requires c < Chapters
    requires forall p :: 0 <= p < |journeys| ==> |journeys[p]| >= Chapters
    requires |scores| == |journeys|
    requires forall p :: 0 <= p < |journeys| ==> scores[p] == ChapterScores(journeys[p], weights)
    ensures wins == Wins(journeys, c, weights, goal)
  {
    wins := 0;
    for i := 0 to |journeys|
      invariant wins == Wins(journeys[..i], c, weights, goal)
    {
      assert journeys[..i + 1][..i] == journeys[..i];
      assert journeys[..i + 1][i] == journeys[i];
      assert scores[i][c] == MetricScore(journeys[i][c], weights);
      if scores[i][c] >= goal {
        wins := wins + 1;
      }
    }
    assert journeys[..|journeys|] == journeys;
  }

  /** The inner loop over `chapter_kc_totals.items()`. */
  method ScoreSnapshot(snap: Snapshot, weights: map<Kc, real>) returns (score: real)
    requires ValidTally(snap)
    ensures score == MetricScore(snap, weights)
  {
    score := 0.0;
    for j := 0 to |snap.order|
      invariant score == Sum(snap.order[..j], Term(snap.totals, weights))
    {
      assert snap.order[..j + 1][..j] == snap.order[..j];
      var kc := snap.order[j];
      if kc in weights {
        score := score + snap.totals[kc] * weights[kc];
      }
    }
    assert snap.order[..|snap.order|] == snap.order;
  }
}
