/** What each ranking signal promises: which way it moves, and between which bounds. */
module SignalLaws {
  import opened Vectors
  import opened Wrappers
  import opened Contract
  import opened Interests
  import opened Scoring

  // ------------------------------------------------------------------ semantic

  /** A multi-interest user is not averaged down: the value is at least every top interest's
      weighted cosine, and it is one of those or the cosine of a bridge. */
  lemma SemanticIsBest(state: State, v: Vec, k: nat)
    requires SemanticEvidence(state, Some(v)).Some? && k < |InterestScores(state.interests, v)|
    ensures var value := SemanticEvidence(state, Some(v)).value.value;
            && Clamp01(InterestScores(state.interests, v)[k]) <= value
            && ((exists j :: 0 <= j < |InterestScores(state.interests, v)|
                             && value == Clamp01(InterestScores(state.interests, v)[j]))
                || (exists j :: 0 <= j < |state.bridges| && value == Clamp01(BridgeScores(state.bridges, v)[j])))
  {
    var scores := InterestScores(state.interests, v);
    var best := FirstMax(scores);
    assert scores[k] <= scores[best];
  }

  /** Connecting two topics with a bridge never lowers an item's semantic value. */
  lemma BridgesNeverLower(state: State, v: Option<Vec>)
    ensures var without := SemanticEvidence(state.(bridges := []), v);
            var with := SemanticEvidence(state, v);
            && (with.Some? <==> without.Some?)
            && (with.Some? ==> without.value.value <= with.value.value)
  {
  }

  // ------------------------------------------------------------------ explicit feedback

  lemma {:induction false} RatedAppend(rows: seq<HistoryRow>, row: HistoryRow, id: int, v: Vec, sign: int)
    ensures RatedSimilarities(rows + [row], id, v, sign)
         == RatedSimilarities(rows, id, v, sign)
            + if Keeps(row, id) && RatingSign(row) == sign then [Similarity(row, v)] else []
  {
    if rows == [] {
      assert rows + [row] == [row];
    } else {
      RatedAppend(rows[1..], row, id, v, sign);
      assert (rows + [row])[1..] == rows[1..] + [row];
    }
  }

  lemma GreatestAppend(xs: seq<real>, x: real)
    requires xs != []
    ensures Greatest(xs) <= Greatest(xs + [x]) && x <= Greatest(xs + [x])
  {
    var longer := xs + [x];
    assert longer[FirstMax(xs)] == xs[FirstMax(xs)] && longer[|xs|] == x;
  }

  /** The feature in terms of the similarities to what was rated up and down. */
  function FeedbackValue(up: seq<real>, down: seq<real>, shallow: bool): real {
    var e := FeedbackOf(up, down, shallow);
    if e.Some? then e.value.value else NEUTRAL
  }

  lemma GreatestOne(x: real)
    ensures Greatest([x]) == x
  {
  }

  lemma MoreLiked(up: seq<real>, down: seq<real>, x: real, shallow: bool)
    requires x >= 0.0
    ensures FeedbackValue(up + [x], down, shallow) < FeedbackValue(up, down, shallow)
       ==> shallow && up == [] && down == [] && x < 0.2
    ensures shallow && up == [] && down == [] && x < 0.2
       ==> FeedbackValue(up + [x], down, shallow) < FeedbackValue(up, down, shallow)
  {
    if up == [] {
      assert up + [x] == [x];
      GreatestOne(x);
    } else {
      GreatestAppend(up, x);
    }
  }

  lemma MoreDisliked(up: seq<real>, down: seq<real>, x: real, shallow: bool)
    requires x >= 0.0
    ensures FeedbackValue(up, down + [x], shallow) <= FeedbackValue(up, down, shallow)
  {
    if down == [] {
      assert down + [x] == [x];
      GreatestOne(x);
    } else {
      GreatestAppend(down, x);
    }
  }

  lemma {:induction false} VectorRowsAppend(history: seq<HistoryRow>, row: HistoryRow, dim: nat)
    ensures VectorRows(history + [row], dim) == VectorRows(history, dim) + VectorRows([row], dim)
  {
    if history == [] {
      assert history + [row] == [row];
    } else {
      VectorRowsAppend(history[1..], row, dim);
      assert (history + [row])[1..] == history[1..] + [row];
    }
  }

  /** The item has an id and a vector to compare with. */
  predicate Comparable(item: Candidate, dim: nat) {
    item.id.Some? && UsableVector(item, dim).Some?
  }

  /** A rating of this row counts for the item: another article, with a vector of its dimension. */
  predicate Counts(row: HistoryRow, item: Candidate, dim: nat) {
    Comparable(item, dim) && Keeps(row, item.id.value) && row.vector.Some? && |row.vector.value| == dim
  }

  function SimilaritiesTo(history: seq<HistoryRow>, item: Candidate, dim: nat, sign: int): seq<real>
    requires Comparable(item, dim)
  {
    RatedSimilarities(VectorRows(history, dim), item.id.value, UsableVector(item, dim).value, sign)
  }

  lemma FeatureIsValue(m: Maths, state: State, cands: seq<Candidate>, item: Candidate)
    requires Laws(m)
    ensures Feature(m, state, cands, item, ExplicitFeedback)
         == if Comparable(item, Dim(cands))
            then FeedbackValue(SimilaritiesTo(state.history, item, Dim(cands), 1),
                               SimilaritiesTo(state.history, item, Dim(cands), -1), Shallow(state.history, item))
            else NEUTRAL
  {
  }

  lemma SimilaritiesAppend(history: seq<HistoryRow>, row: HistoryRow, item: Candidate, dim: nat, sign: int)
    requires Comparable(item, dim)
    ensures SimilaritiesTo(history + [row], item, dim, sign) == SimilaritiesTo(history, item, dim, sign)
              + if Counts(row, item, dim) && RatingSign(row) == sign
                then [Similarity(row, UsableVector(item, dim).value)] else []
  {
    VectorRowsAppend(history, row, dim);
    assert [row][1..] == [];
    var rows := VectorRows(history, dim);
    if row.vector.Some? && |row.vector.value| == dim {
      assert VectorRows([row], dim) == [row];
      RatedAppend(rows, row, item.id.value, UsableVector(item, dim).value, sign);
    } else {
      assert VectorRows([row], dim) == [] && rows + [] == rows;
    }
  }

  /** No other article has been rated. */
  predicate NothingRated(history: seq<HistoryRow>, item: Candidate, dim: nat)
    requires Comparable(item, dim)
  {
    forall k :: 0 <= k < |history| && Counts(history[k], item, dim) ==> RatingSign(history[k]) == 0
  }

  lemma {:induction false} NothingRatedExactly(history: seq<HistoryRow>, item: Candidate, dim: nat)
    requires Comparable(item, dim)
    ensures NothingRated(history, item, dim)
       <==> SimilaritiesTo(history, item, dim, 1) == [] && SimilaritiesTo(history, item, dim, -1) == []
  {
    if history != [] {
      NothingRatedExactly(history[1..], item, dim);
      var rated := Counts(history[0], item, dim) && RatingSign(history[0]) != 0;
      assert NothingRated(history, item, dim) <==> !rated && NothingRated(history[1..], item, dim);
    }
  }

  /** The first rating of another article, on an item that is marked down as shallow anyway, and unlike it. */
  predicate FirstRatingUnlike(history: seq<HistoryRow>, row: HistoryRow, item: Candidate, dim: nat) {
    && Counts(row, item, dim) && Shallow(history, item) && NothingRated(history, item, dim)
    && Similarity(row, UsableVector(item, dim).value) < 0.2
  }

  lemma TooBasicAppend(history: seq<HistoryRow>, row: HistoryRow)
    ensures TooBasicSeen(history + [row])
       <==> TooBasicSeen(history) || (RatingSign(row) < 0 && row.reason == Some("too_basic"))
  {
    var longer := history + [row];
    if TooBasicSeen(history) {
      var k :| 0 <= k < |history| && RatingSign(history[k]) < 0 && history[k].reason == Some("too_basic");
      assert longer[k] == history[k];
    }
    assert longer[|history|] == row;
  }

  /** One more article rated up lowers explicit_feedback exactly when it is the first rating that counts,
      the item is shallow with "too_basic" reasons about, and the similarity is below 0.2: the signal
      then stops being neutral, and 0.1 is taken off. */
  lemma RatedUpLowersExactly(m: Maths, state: State, cands: seq<Candidate>, item: Candidate, row: HistoryRow)
    requires Laws(m) && RatingSign(row) == 1
    ensures var after := state.(history := state.history + [row]);
            Feature(m, after, cands, item, ExplicitFeedback) < Feature(m, state, cands, item, ExplicitFeedback)
            <==> FirstRatingUnlike(state.history, row, item, Dim(cands))
  {
    var dim := Dim(cands);
    FeatureIsValue(m, state, cands, item);
    FeatureIsValue(m, state.(history := state.history + [row]), cands, item);
    TooBasicAppend(state.history, row);
    if Comparable(item, dim) {
      SimilaritiesAppend(state.history, row, item, dim, 1);
      SimilaritiesAppend(state.history, row, item, dim, -1);
      NothingRatedExactly(state.history, item, dim);
      var up, down := SimilaritiesTo(state.history, item, dim, 1), SimilaritiesTo(state.history, item, dim, -1);
      assert up + [] == up && down + [] == down;
      if Counts(row, item, dim) {
        MoreLiked(up, down, Similarity(row, UsableVector(item, dim).value), Shallow(state.history, item));
      }
    }
  }

  /** One more article rated down never raises it. */
  lemma RatedDownNeverRaises(m: Maths, state: State, cands: seq<Candidate>, item: Candidate, row: HistoryRow)
    requires Laws(m) && RatingSign(row) == -1
    ensures var after := state.(history := state.history + [row]);
            Feature(m, after, cands, item, ExplicitFeedback) <= Feature(m, state, cands, item, ExplicitFeedback)
  {
    var dim := Dim(cands);
    FeatureIsValue(m, state, cands, item);
    FeatureIsValue(m, state.(history := state.history + [row]), cands, item);
    TooBasicAppend(state.history, row);
    if Comparable(item, dim) {
      SimilaritiesAppend(state.history, row, item, dim, 1);
      SimilaritiesAppend(state.history, row, item, dim, -1);
      var up, down := SimilaritiesTo(state.history, item, dim, 1), SimilaritiesTo(state.history, item, dim, -1);
      assert up + [] == up && down + [] == down;
      if Counts(row, item, dim) {
        MoreDisliked(up, down, Similarity(row, UsableVector(item, dim).value), Shallow(state.history + [row], item));
      }
    }
  }

  const PlainItem := Candidate(
    Some(1), Some([1.0, 0.0]), 500, 3, false, false, Some(0.3), None, None, false, None, None)

  function PlainRow(id: int, vector: Option<Vec>, rating: int, reason: Option<string>): HistoryRow {
    HistoryRow(id, vector, 500, None, Some(rating), reason, false, false, false, Some(0), 0)
  }

  /** An item of depth 0.3 and a "too_basic" article without a vector: rating an unlike article up takes
      explicit_feedback from neutral to 0.4. */
  lemma RatedUpLowers(m: Maths, state: State)
    requires Laws(m) && state.history == [PlainRow(2, None, -1, Some("too_basic"))]
    ensures var after := state.(history := state.history + [PlainRow(3, Some([0.0, 1.0]), 1, None)]);
            && Feature(m, state, [PlainItem], PlainItem, ExplicitFeedback) == NEUTRAL
            && Feature(m, after, [PlainItem], PlainItem, ExplicitFeedback) == 0.4
  {
    var row := PlainRow(3, Some([0.0, 1.0]), 1, None);
    var after := state.(history := state.history + [row]);
    FeatureIsValue(m, state, [PlainItem], PlainItem);
    FeatureIsValue(m, after, [PlainItem], PlainItem);
    TooBasicAppend([], state.history[0]);
    assert [] + [state.history[0]] == state.history;
    TooBasicAppend(state.history, row);
    NothingRatedExactly(state.history, PlainItem, 2);
    SimilaritiesAppend(state.history, row, PlainItem, 2, 1);
    SimilaritiesAppend(state.history, row, PlainItem, 2, -1);
    assert Dot([0.0, 1.0], [1.0, 0.0]) == 0.0;
    GreatestOne(0.0);
  }

  // ------------------------------------------------------------------ source trust

  /** The outcomes s : f are at least as good as the prior a : b. */
  predicate AtLeastAsGood(a: real, b: real, s: real, f: real) {
    s * b >= a * f
  }

  lemma ShareOrder(p: real, q: real, x: real, y: real)
    requires p >= 0.0 && q >= 0.0 && x >= 0.0 && y >= 0.0 && p + q > 0.0 && x + y > 0.0
    ensures Share(p, q) <= Share(x, y) <==> p * y <= x * q
  {
    Quotients(p, p + q, x, x + y);
    assert p * (x + y) == p * x + p * y && x * (p + q) == x * p + x * q;
  }

  lemma Quotients(p: real, q: real, x: real, y: real)
    requires q > 0.0 && y > 0.0
    ensures p / q <= x / y <==> p * y <= x * q
  {
    QuotientTimes(p, q, y);
    QuotientTimes(x, y, q);
    assert q * y == y * q && q * y > 0.0;
    Ordered(p / q, x / y, q * y);
  }

  lemma QuotientTimes(p: real, q: real, y: real)
    requires q > 0.0
    ensures (p / q) * (q * y) == p * y
  {
    assert (p / q) * q == p;
    assert (p / q) * (q * y) == ((p / q) * q) * y;
  }

  lemma Ordered(u: real, w: real, f: real)
    requires f > 0.0
    ensures u <= w <==> u * f <= w * f
  {
  }

  /** More weight on the outcomes moves the posterior from the prior a : b towards s : f. */
  lemma PosteriorMoves(a: real, b: real, s: real, f: real, d: real, e: real)
    requires a >= 0.0 && b >= 0.0 && a + b > 0.0 && s >= 0.0 && f >= 0.0 && 0.0 <= d <= e
    ensures AtLeastAsGood(a, b, s, f) ==> Posterior(a, b, s, f, d) <= Posterior(a, b, s, f, e)
    ensures AtLeastAsGood(s, f, a, b) ==> Posterior(a, b, s, f, e) <= Posterior(a, b, s, f, d)
  {
    NonNegative(s, d);
    NonNegative(f, d);
    NonNegative(s, e);
    NonNegative(f, e);
    CrossTerms(a, b, s, f, d, e);
    ShareOrder(a + s * d, b + f * d, a + s * e, b + f * e);
    ShareOrder(a + s * e, b + f * e, a + s * d, b + f * d);
  }

  lemma CrossTerms(a: real, b: real, s: real, f: real, d: real, e: real)
    requires d <= e
    ensures AtLeastAsGood(a, b, s, f) ==> (a + s * d) * (b + f * e) <= (a + s * e) * (b + f * d)
    ensures AtLeastAsGood(s, f, a, b) ==> (a + s * e) * (b + f * d) <= (a + s * d) * (b + f * e)
  {
    Expand(a, s * e, b, f * d);
    Expand(a, s * d, b, f * e);
    Products(a, b, s, f, d, e);
    SignOfProduct(e - d, s * b - a * f);
  }

  lemma SignOfProduct(x: real, y: real)
    requires x >= 0.0
    ensures y >= 0.0 ==> x * y >= 0.0
    ensures y <= 0.0 ==> x * y <= 0.0
  {
  }

  lemma Expand(a: real, x: real, b: real, y: real)
    ensures (a + x) * (b + y) == a * b + a * y + x * b + x * y
  {
  }

  lemma Products(a: real, b: real, s: real, n: real, d: real, e: real)
    ensures (a * (n * d) + (s * e) * b + (s * e) * (n * d)) - (a * (n * e) + (s * d) * b + (s * d) * (n * e))
         == (e - d) * (s * b - a * n)
  {
    assert (s * e) * (n * d) == (s * d) * (n * e);
    assert a * (n * d) == (a * n) * d && a * (n * e) == (a * n) * e;
    assert (s * e) * b == (s * b) * e && (s * d) * b == (s * b) * d;
  }

  ghost predicate Fades(m: Maths) {
    forall x, y :: x <= y ==> m.half(y) <= m.half(x)
  }

  /** Trust lies between the prior and the rate of successes, and the older the last outcome
      the closer it is to the prior. */
  lemma TrustFadesToPrior(m: Maths, s: nat, f: nat, a: real, b: real, young: real, older: real)
    requires Laws(m) && Fades(m) && a >= 0.0 && b >= 0.0 && a + b > 0.0 && s + f > 0 && young <= older
    ensures AtLeastAsGood(a, b, s as real, f as real) ==>
              Share(a, b) <= BetaMean(m, s, f, a, b, older)
                          <= BetaMean(m, s, f, a, b, young) <= Share(s as real, f as real)
    ensures AtLeastAsGood(s as real, f as real, a, b) ==>
              Share(s as real, f as real) <= BetaMean(m, s, f, a, b, young)
                                          <= BetaMean(m, s, f, a, b, older) <= Share(a, b)
  {
    OlderDecay(m, young, older);
    PosteriorFades(a, b, s as real, f as real, Decay(m, older), Decay(m, young));
  }

  lemma PosteriorFades(a: real, b: real, s: real, f: real, d: real, e: real)
    requires a >= 0.0 && b >= 0.0 && a + b > 0.0 && s >= 0.0 && f >= 0.0 && s + f > 0.0 && 0.0 <= d <= e
    ensures AtLeastAsGood(a, b, s, f) ==>
              Share(a, b) <= Clamp01(Posterior(a, b, s, f, d)) <= Clamp01(Posterior(a, b, s, f, e)) <= Share(s, f)
    ensures AtLeastAsGood(s, f, a, b) ==>
              Share(s, f) <= Clamp01(Posterior(a, b, s, f, e)) <= Clamp01(Posterior(a, b, s, f, d)) <= Share(a, b)
  {
    PosteriorBetween(a, b, s, f, d);
    PosteriorBetween(a, b, s, f, e);
    PosteriorMoves(a, b, s, f, d, e);
  }

  lemma OlderDecay(m: Maths, young: real, older: real)
    requires Laws(m) && Fades(m) && young <= older
    ensures Decay(m, older) <= Decay(m, young)
  {
    assert Max(young, 0.0) / 90.0 <= Max(older, 0.0) / 90.0;
  }

  lemma ShareBounds(p: real, q: real)
    requires p >= 0.0 && q >= 0.0 && p + q > 0.0
    ensures 0.0 <= Share(p, q) <= 1.0
  {
    Quotients(0.0, 1.0, p, p + q);
    Quotients(p, p + q, 1.0, 1.0);
  }

  lemma PosteriorBetween(a: real, b: real, s: real, f: real, d: real)
    requires a >= 0.0 && b >= 0.0 && a + b > 0.0 && s >= 0.0 && f >= 0.0 && s + f > 0.0 && d >= 0.0
    ensures 0.0 <= Posterior(a, b, s, f, d) <= 1.0
    ensures AtLeastAsGood(a, b, s, f) ==> Share(a, b) <= Posterior(a, b, s, f, d) <= Share(s, f)
    ensures AtLeastAsGood(s, f, a, b) ==> Share(s, f) <= Posterior(a, b, s, f, d) <= Share(a, b)
  {
    NonNegative(s, d);
    NonNegative(f, d);
    var p, q := a + s * d, b + f * d;
    ShareBounds(p, q);
    ShareOrder(a, b, p, q);
    ShareOrder(p, q, a, b);
    ShareOrder(p, q, s, f);
    ShareOrder(s, f, p, q);
    Mediant(a, b, s, f, d);
  }

  lemma Mediant(a: real, b: real, s: real, f: real, d: real)
    requires d >= 0.0
    ensures AtLeastAsGood(a, b, s, f) ==> a * (b + f * d) <= (a + s * d) * b && (a + s * d) * f <= s * (b + f * d)
    ensures AtLeastAsGood(s, f, a, b) ==> (a + s * d) * b <= a * (b + f * d) && s * (b + f * d) <= (a + s * d) * f
  {
    SignOfProduct(d, s * b - a * f);
    assert (s * d) * b == d * (s * b) && a * (f * d) == d * (a * f);
    assert (s * d) * f == s * (f * d);
    assert d * (s * b - a * f) == d * (s * b) - d * (a * f);
  }

  // ------------------------------------------------------------------ suggestion

  lemma {:induction false} SuggestedAppend(history: seq<HistoryRow>, row: HistoryRow, finished: bool)
    ensures CountSuggested(history + [row], finished) == CountSuggested(history, finished)
              + if row.wasSuggested && row.openedAt.Some? && (finished ==> IsSuccess(row)) then 1 else 0
  {
    if history == [] {
      assert history + [row] == [row];
    } else {
      SuggestedAppend(history[1..], row, finished);
      assert (history + [row])[1..] == history[1..] + [row];
    }
  }

  lemma {:induction false} FinishedAmongSuggested(history: seq<HistoryRow>)
    ensures CountSuggested(history, true) <= CountSuggested(history, false)
  {
    if history != [] {
      FinishedAmongSuggested(history[1..]);
    }
  }

  lemma RateMoves(g: nat, n: nat)
    requires g <= n
    ensures 0.0 < (2.0 + g as real) / (3.0 + n as real) < 1.0
    ensures (2.0 + g as real) / (3.0 + n as real) < (3.0 + g as real) / (4.0 + n as real)
    ensures (2.0 + g as real) / (4.0 + n as real) < (2.0 + g as real) / (3.0 + n as real)
  {
    var x, y := 2.0 + g as real, 3.0 + n as real;
    Quotients(x + 1.0, y + 1.0, x, y);
    Quotients(x, y, x, y + 1.0);
    Quotients(x, y, 0.0, 1.0);
    Quotients(1.0, 1.0, x, y);
    assert (x + 1.0) * y > x * (y + 1.0);
    assert x * (y + 1.0) > x * y;
  }

  /** The suggestion value is never clamped; an opened discovery that was finished, saved or
      rated up raises it, any other opened discovery lowers it, and other rows leave it. */
  lemma SuggestionLearns(state: State, row: HistoryRow, item: Candidate)
    requires item.fromDiscovery
    ensures var before := SuggestionEvidence(state, item).value.value;
            var after := SuggestionEvidence(state.(history := state.history + [row]), item).value.value;
            && 0.0 < before < 1.0
            && (row.wasSuggested && row.openedAt.Some? && IsSuccess(row) ==> before < after)
            && (row.wasSuggested && row.openedAt.Some? && !IsSuccess(row) ==> after < before)
            && (!row.wasSuggested || row.openedAt.None? ==> after == before)
  {
    var g, n := CountSuggested(state.history, true), CountSuggested(state.history, false);
    FinishedAmongSuggested(state.history);
    FinishedAmongSuggested(state.history + [row]);
    SuggestedAppend(state.history, row, true);
    SuggestedAppend(state.history, row, false);
    RateMoves(g, n);
    RateMoves(CountSuggested(state.history + [row], true), CountSuggested(state.history + [row], false));
  }

  // ------------------------------------------------------------------ novelty and quality

  /** Novelty is full exactly when the distance to the nearest recent reading is the target. */
  lemma NoveltyPeaksAtTarget(near: seq<real>, target: real)
    requires |near| >= 3 && target > 0.0
    ensures NoveltyOf(near, target).value.value == 1.0 <==> 1.0 - Greatest(near) == target
  {
    var off := Abs(1.0 - Greatest(near) - target);
    assert Ratio(off, target) * target == off;
    if off > 0.0 {
      PositiveRatio(off, target);
    }
  }

  lemma PositiveRatio(x: real, y: real)
    requires x > 0.0 && y > 0.0
    ensures Ratio(x, y) > 0.0
  {
  }

  /** b is at least as long, as well cited, as deep and as original as a. */
  predicate AtLeastAsRich(a: Candidate, b: Candidate) {
    && a.words <= b.words && (a.hasCitations ==> b.hasCitations) && (a.isOriginal ==> b.isOriginal)
    && DepthOrHalf(a) <= DepthOrHalf(b)
  }

  function QualityOf(history: seq<HistoryRow>, item: Candidate): real {
    Quality(item, BucketMean(history, LengthBucket(item.words)))
  }

  ghost predicate ProperCompletions(history: seq<HistoryRow>) {
    forall k :: 0 <= k < |history| && history[k].completion.Some? ==> 0.0 <= history[k].completion.value <= 1.0
  }

  /** Whatever the reader has read, and whatever completions are stored, b scores no lower than a. */
  ghost predicate NeverLower(a: Candidate, b: Candidate) {
    forall history :: QualityOf(history, a) <= QualityOf(history, b)
  }

  /** The same for readers all of whose completions lie in [0, 1]. */
  ghost predicate NeverLowerProper(a: Candidate, b: Candidate) {
    forall history :: ProperCompletions(history) ==> QualityOf(history, a) <= QualityOf(history, b)
  }

  lemma RicherRaw(a: Candidate, b: Candidate)
    requires AtLeastAsRich(a, b)
    ensures RawQuality(a) <= RawQuality(b)
  {
  }

  lemma {:induction false} CompletionSum(history: seq<HistoryRow>, bucket: int)
    requires ProperCompletions(history)
    ensures 0.0 <= Sum(BucketCompletions(history, bucket)) <= |BucketCompletions(history, bucket)| as real
  {
    if history != [] {
      CompletionSum(history[1..], bucket);
    }
  }

  lemma RatioInUnit(x: real, y: real)
    requires 0.0 <= x <= y && y > 0.0
    ensures 0.0 <= Ratio(x, y) <= 1.0
  {
    Quotients(0.0, 1.0, x, y);
    Quotients(x, y, 1.0, 1.0);
  }

  lemma BucketMeanInUnit(history: seq<HistoryRow>, bucket: int)
    requires ProperCompletions(history) && BucketMean(history, bucket).Some?
    ensures 0.0 <= BucketMean(history, bucket).value <= 1.0
  {
    CompletionSum(history, bucket);
    RatioInUnit(Sum(BucketCompletions(history, bucket)), |BucketCompletions(history, bucket)| as real);
  }

  function ReadTo(words: int, completion: real): HistoryRow {
    HistoryRow(0, None, words, Some(completion), None, None, false, false, false, Some(0), 0)
  }

  /** A reader who reads what is as long as a to x, and drops at once what is as long as b. */
  function Finicky(a: Candidate, b: Candidate, x: real): seq<HistoryRow> {
    [ReadTo(a.words, x), ReadTo(a.words, x), ReadTo(a.words, x),
     ReadTo(b.words, 0.0), ReadTo(b.words, 0.0), ReadTo(b.words, 0.0)]
  }

  lemma BucketStep(row: HistoryRow, rest: seq<HistoryRow>, bucket: int)
    requires row.completion.Some? && row.openedAt.Some?
    ensures BucketCompletions([row] + rest, bucket)
         == (if LengthBucket(row.words) == bucket then [row.completion.value] else []) + BucketCompletions(rest, bucket)
  {
    assert ([row] + rest)[1..] == rest;
  }

  lemma {:induction false} ThreeRows(row: HistoryRow, rest: seq<HistoryRow>, bucket: int)
    requires row.completion.Some? && row.openedAt.Some?
    ensures BucketCompletions([row, row, row] + rest, bucket)
         == (if LengthBucket(row.words) == bucket
             then [row.completion.value, row.completion.value, row.completion.value] else [])
            + BucketCompletions(rest, bucket)
  {
    BucketStep(row, rest, bucket);
    BucketStep(row, [row] + rest, bucket);
    BucketStep(row, [row] + ([row] + rest), bucket);
    assert [row, row, row] + rest == [row] + ([row] + ([row] + rest));
  }

  lemma FinickyCompletions(a: Candidate, b: Candidate, x: real, bucket: int)
    requires LengthBucket(a.words) != LengthBucket(b.words)
    ensures bucket == LengthBucket(a.words) ==> BucketCompletions(Finicky(a, b, x), bucket) == [x, x, x]
    ensures bucket == LengthBucket(b.words) ==> BucketCompletions(Finicky(a, b, x), bucket) == [0.0, 0.0, 0.0]
  {
    var p, q := ReadTo(a.words, x), ReadTo(b.words, 0.0);
    ThreeRows(p, [q, q, q], bucket);
    ThreeRows(q, [], bucket);
    assert Finicky(a, b, x) == [p, p, p] + [q, q, q] && [q, q, q] == [q, q, q] + [];
  }

  lemma SumOfThree(x: real)
    ensures Ratio(Sum([x, x, x]), |[x, x, x]| as real) == x
  {
    var s := [x, x, x];
    assert [x][1..] == [] && [x, x][1..] == [x] && s[1..] == [x, x];
    assert Sum([x]) == x;
    assert Sum([x, x]) == x + Sum([x]);
    assert Sum(s) == x + Sum([x, x]);
    assert Ratio(3.0 * x, 3.0) == x;
  }

  lemma FinickyQualities(a: Candidate, b: Candidate, x: real)
    requires LengthBucket(a.words) != LengthBucket(b.words)
    ensures QualityOf(Finicky(a, b, x), a) == Clamp01(0.7 * RawQuality(a) + 0.3 * x)
    ensures QualityOf(Finicky(a, b, x), b) == 0.7 * RawQuality(b)
  {
    FinickyCompletions(a, b, x, LengthBucket(a.words));
    FinickyCompletions(a, b, x, LengthBucket(b.words));
    SumOfThree(x);
    SumOfThree(0.0);
  }

  lemma SameBucketOrdered(a: Candidate, b: Candidate, history: seq<HistoryRow>)
    requires AtLeastAsRich(a, b) && LengthBucket(a.words) == LengthBucket(b.words)
    ensures QualityOf(history, a) <= QualityOf(history, b)
  {
    RicherRaw(a, b);
  }

  /** A richer piece never scores lower than a poorer one, for any reader, exactly when both fall in one
      length bucket: completions are stored as they are posted, and can outweigh everything else. */
  lemma RicherScoresHigherExactly(a: Candidate, b: Candidate)
    requires AtLeastAsRich(a, b)
    ensures NeverLower(a, b) <==> LengthBucket(a.words) == LengthBucket(b.words)
  {
    if LengthBucket(a.words) == LengthBucket(b.words) {
      forall history ensures QualityOf(history, a) <= QualityOf(history, b) {
        SameBucketOrdered(a, b, history);
      }
    } else {
      FinickyQualities(a, b, 4.0);
      assert !(QualityOf(Finicky(a, b, 4.0), a) <= QualityOf(Finicky(a, b, 4.0), b));
    }
  }

  /** For readers with completions in [0, 1], also when the richer piece is so much better by itself that
      no bucket can make up for it. */
  lemma RicherForProperReaders(a: Candidate, b: Candidate)
    requires AtLeastAsRich(a, b)
    ensures NeverLowerProper(a, b)
       <==> LengthBucket(a.words) == LengthBucket(b.words) || 0.7 * RawQuality(a) + 0.3 <= 0.7 * RawQuality(b)
  {
    var k, l := LengthBucket(a.words), LengthBucket(b.words);
    RicherRaw(a, b);
    if k == l || 0.7 * RawQuality(a) + 0.3 <= 0.7 * RawQuality(b) {
      forall history | ProperCompletions(history) ensures QualityOf(history, a) <= QualityOf(history, b) {
        if BucketMean(history, k).Some? { BucketMeanInUnit(history, k); }
        if BucketMean(history, l).Some? { BucketMeanInUnit(history, l); }
      }
    } else {
      FinickyQualities(a, b, 1.0);
      assert ProperCompletions(Finicky(a, b, 1.0));
    }
  }

  /** One more word can cost a piece 0.3: 399 and 400 words fall in different buckets. */
  lemma OneWordMore(item: Candidate)
    ensures var a, b := item.(words := 399), item.(words := 400);
            && RawQuality(a) == RawQuality(b) && AtLeastAsRich(a, b) && ProperCompletions(Finicky(a, b, 1.0))
            && QualityOf(Finicky(a, b, 1.0), b) == QualityOf(Finicky(a, b, 1.0), a) - 0.3
  {
    FinickyQualities(item.(words := 399), item.(words := 400), 1.0);
  }
}
