/**
 * The journey simulator: a pool of decision payloads, then for every player
 * a running per-KC total that is snapshotted at the end of each chapter.
 * The random draws of the source (how many KCs a payload touches, which
 * ones, their scores, which payload a decision picks) are arguments here.
 */
module JourneySimulator {
  import opened Folds
  import opened Tallies
  import opened ScoringConfig

  /** One `{"score": s, "kc_identifier": kc}` item of a payload. */
  type Item = Entry<Kc>

  /** The effect of one simulated decision. */
  type Payload = seq<Item>

  /** A chapter's cumulative KC totals (a copy of the running dictionary). */
  type Snapshot = Tally<Kc>

  /** One snapshot per chapter. */
  type Journey = seq<Snapshot>

  /** Number of payloads generated up front. */
  const PoolSize: nat := 500

  /** A payload touches 1 to 3 distinct KCs with scores in [-1, 1]. */
  predicate ValidPayload(p: Payload)
  {
    && 1 <= |p| <= 3
    && (forall i, j :: 0 <= i < j < |p| ==> p[i].key != p[j].key)
    && (forall i :: 0 <= i < |p| ==> -1.0 <= p[i].amount <= 1.0)
  }

  /**
   * The draws behind one payload: the count chosen by `random.choices`, the
   * indices into ALL_KCS chosen by `random.sample`, and one score per KC
   * from the triangular distribution on [-1, 1], already rounded.
   */
  datatype PayloadDraw = PayloadDraw(count: nat, sample: seq<nat>, scores: seq<real>)

  /** What the random sources guarantee about their results. */
  predicate ValidPayloadDraw(d: PayloadDraw)
  {
    && 1 <= d.count <= 3
    && |d.sample| == d.count
    && |d.scores| == d.count
    && Distinct(d.sample)
    && (forall i :: 0 <= i < |d.sample| ==> d.sample[i] < |AllKcs|)
    && (forall i :: 0 <= i < |d.scores| ==> -1.0 <= d.scores[i] <= 1.0)
  }

  /** generate_simulated_payload: one item per sampled KC, in sample order. */
  function GeneratePayload(d: PayloadDraw): (p: Payload)
    requires ValidPayloadDraw(d)
    ensures ValidPayload(p)
    ensures |p| == d.count
    ensures forall i :: 0 <= i < |p| ==> p[i].key == AllKcs[d.sample[i]]
  {
    AllKcsComplete();
    seq(d.count, i requires 0 <= i < d.count => Entry(AllKcs[d.sample[i]], d.scores[i]))
  }

  /** The payload pool: one payload per draw. */
  function GeneratePool(draws: seq<PayloadDraw>): (pool: seq<Payload>)
    requires forall i :: 0 <= i < |draws| ==> ValidPayloadDraw(draws[i])
    ensures |pool| == |draws|
    ensures forall i :: 0 <= i < |pool| ==> ValidPayload(pool[i])
  {
    seq(|draws|, i requires 0 <= i < |draws| => GeneratePayload(draws[i]))
  }

  /** The picks of one chapter all name payloads of the pool. */
  predicate PicksInPool(picks: seq<nat>, poolSize: nat)
  {
    forall i :: 0 <= i < |picks| ==> picks[i] < poolSize
  }

  /** The items of the payloads picked, in order. */
  function DrawnItems(pool: seq<Payload>, picks: seq<nat>): seq<Item>
    requires PicksInPool(picks, |pool|)
  {
    if |picks| == 0 then [] else DrawnItems(pool, picks[..|picks| - 1]) + pool[picks[|picks| - 1]]
  }

  /** The items a player receives over the given chapters, in order. */
  function JourneyItems(pool: seq<Payload>, chapters: seq<seq<nat>>): seq<Item>
    requires forall c :: 0 <= c < |chapters| ==> PicksInPool(chapters[c], |pool|)
  {
    if |chapters| == 0 then []
    else JourneyItems(pool, chapters[..|chapters| - 1]) + DrawnItems(pool, chapters[|chapters| - 1])
  }

  /** The snapshot after chapter c: every item of chapters 0..c accumulated. */
  function SnapshotAt(pool: seq<Payload>, chapters: seq<seq<nat>>, c: nat): Snapshot
    requires c < |chapters|
    requires forall c :: 0 <= c < |chapters| ==> PicksInPool(chapters[c], |pool|)
  {
    TallyOf(JourneyItems(pool, chapters[..c + 1]))
  }

  /**
   * What a snapshot holds: exactly the KCs some payload of chapters 0..c
   * touched, each with the sum of all scores it received in those chapters.
   */
  lemma SnapshotContents(pool: seq<Payload>, chapters: seq<seq<nat>>, c: nat, kc: Kc)
    requires c < |chapters|
    requires forall c :: 0 <= c < |chapters| ==> PicksInPool(chapters[c], |pool|)
    ensures kc in SnapshotAt(pool, chapters, c).totals <==> kc in Keys(JourneyItems(pool, chapters[..c + 1]))
    ensures kc in SnapshotAt(pool, chapters, c).totals ==>
      SnapshotAt(pool, chapters, c).totals[kc] == Sum(JourneyItems(pool, chapters[..c + 1]), AmountFor(kc))
  {
    TallyOfSpec(JourneyItems(pool, chapters[..c + 1]));
  }

  /**
   * The running total carries over: the snapshot after chapter c + 1 is the
   * snapshot after chapter c with chapter c + 1's items added, so a KC seen
   * by chapter c is still present afterwards.
   */
  lemma {:induction false} SnapshotStep(pool: seq<Payload>, chapters: seq<seq<nat>>, c: nat)
    requires c + 1 < |chapters|
    requires forall c :: 0 <= c < |chapters| ==> PicksInPool(chapters[c], |pool|)
    ensures SnapshotAt(pool, chapters, c + 1) == AddAll(SnapshotAt(pool, chapters, c), DrawnItems(pool, chapters[c + 1]))
    ensures SnapshotAt(pool, chapters, c).totals.Keys <= SnapshotAt(pool, chapters, c + 1).totals.Keys
  {
    assert chapters[..c + 2][..c + 1] == chapters[..c + 1];
    assert chapters[..c + 2][c + 1] == chapters[c + 1];
    AddAllConcat(Tally([], map[]), JourneyItems(pool, chapters[..c + 1]), DrawnItems(pool, chapters[c + 1]));
    AddAllKeepsKeys(SnapshotAt(pool, chapters, c), DrawnItems(pool, chapters[c + 1]));
  }

  /** Payload draws, one per pool entry, and for each player, chapter and decision the pool index picked. */
  predicate ValidSimulationDraws(numPlayers: nat, numChapters: nat, decisionsPerChapter: nat,
                                 poolDraws: seq<PayloadDraw>, picks: seq<seq<seq<nat>>>)
  {
    && |poolDraws| == PoolSize
    && (forall i :: 0 <= i < |poolDraws| ==> ValidPayloadDraw(poolDraws[i]))
    && |picks| == numPlayers
    && (forall p :: 0 <= p < |picks| ==> |picks[p]| == numChapters)
    && (forall p, c :: 0 <= p < |picks| && 0 <= c < |picks[p]| ==>
          |picks[p][c]| == decisionsPerChapter && PicksInPool(picks[p][c], PoolSize))
  }

  /**
   * precompute_player_kc_journeys: one journey per player, one snapshot per
   * chapter, each snapshot being the running totals at the end of that chapter.
   */
  method PrecomputeJourneys(numPlayers: nat, numChapters: nat, decisionsPerChapter: nat,
                            poolDraws: seq<PayloadDraw>, picks: seq<seq<seq<nat>>>)
    returns (journeys: seq<Journey>)
    requires ValidSimulationDraws(numPlayers, numChapters, decisionsPerChapter, poolDraws, picks)
    ensures |journeys| == numPlayers
    ensures forall p :: 0 <= p < numPlayers ==> |journeys[p]| == numChapters
    ensures forall p, c :: 0 <= p < numPlayers && 0 <= c < numChapters ==>
      journeys[p][c] == SnapshotAt(GeneratePool(poolDraws), picks[p], c)
  {
    var pool := GeneratePool(poolDraws);
    journeys := [];
    var p := 0;
    while p < numPlayers
      invariant 0 <= p <= numPlayers
      invariant |journeys| == p
      invariant forall q :: 0 <= q < p ==> |journeys[q]| == numChapters
      invariant forall q, c :: 0 <= q < p && 0 <= c < numChapters ==> journeys[q][c] == SnapshotAt(pool, picks[q], c)
    {
      var byChapter := SimulatePlayer(pool, picks[p]);
      journeys := journeys + [byChapter];
      p := p + 1;
    }
  }

  /** One player's journey: the running totals, copied at the end of every chapter. */
  method SimulatePlayer(pool: seq<Payload>, chapters: seq<seq<nat>>) returns (byChapter: Journey)
    requires forall c :: 0 <= c < |chapters| ==> PicksInPool(chapters[c], |pool|)
    ensures |byChapter| == |chapters|
    ensures forall c :: 0 <= c < |chapters| ==> byChapter[c] == SnapshotAt(pool, chapters, c)
  {
    var cumulative: Snapshot := Tally([], map[]);
    byChapter := [];
    var c := 0;
    while c < |chapters|
      invariant 0 <= c <= |chapters|
      invariant |byChapter| == c
      invariant cumulative == TallyOf(JourneyItems(pool, chapters[..c]))
      invariant forall c' :: 0 <= c' < c ==> byChapter[c'] == SnapshotAt(pool, chapters, c')
    {
      cumulative := PlayChapter(pool, cumulative, chapters[c]);
      ghost var played := chapters[..c + 1];
      assert played[..c] == chapters[..c] && played[c] == chapters[c];
      assert JourneyItems(pool, played) == JourneyItems(pool, chapters[..c]) + DrawnItems(pool, chapters[c]);
      AddAllConcat(Tally([], map[]), JourneyItems(pool, chapters[..c]), DrawnItems(pool, chapters[c]));
      assert cumulative == SnapshotAt(pool, chapters, c);
      byChapter := byChapter + [cumulative];
      c := c + 1;
    }
  }

  /** The decisions of one chapter: each adds the items of the payload it picked. */
  method PlayChapter(pool: seq<Payload>, cumulative: Snapshot, picks: seq<nat>) returns (after: Snapshot)
    requires PicksInPool(picks, |pool|)
    ensures after == AddAll(cumulative, DrawnItems(pool, picks))
  {
    after := cumulative;
    var d := 0;
    while d < |picks|
      invariant 0 <= d <= |picks|
      invariant after == AddAll(cumulative, DrawnItems(pool, picks[..d]))
    {
      var payload := pool[picks[d]];
      ghost var before := after;
      var i := 0;
      while i < |payload|
        invariant 0 <= i <= |payload|
        invariant after == AddAll(before, payload[..i])
      {
        assert payload[..i + 1][..i] == payload[..i];
        after := Add(after, payload[i].key, payload[i].amount);
        i := i + 1;
      }
      assert payload[..i] == payload;
      assert picks[..d + 1][..d] == picks[..d];
      AddAllConcat(cumulative, DrawnItems(pool, picks[..d]), payload);
      d := d + 1;
    }
    assert picks[..d] == picks;
  }
}
