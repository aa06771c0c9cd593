/** What each ranking signal reports, for every state and candidate, said from the stored rows and in plain
    numbers: the reference the scoring functions are checked against. */
module SignalValues {
  import opened Vectors
  import opened Wrappers
  import opened StableSort
  import opened Contract
  import opened Interests
  import opened Scoring
  import opened SignalLaws
  import opened LeaveOneOut
  import opened NeighbourTies

  function CountIf<T>(s: seq<T>, p: T -> bool): nat {
    if s == [] then 0 else (if p(s[0]) then 1 else 0) + CountIf(s[1..], p)
  }

  /** The cosine of a row's vector with v, negative ones counted as 0; rows have vectors as long as v. */
  function Alike(u: Vec, v: Vec): real
    requires |u| == |v|
  {
    var c := Dot(u, v);
    if c < 0.0 then 0.0 else if c > 1.0 then 1.0 else c
  }

  predicate Fits(row: HistoryRow, v: Vec) {
    row.vector.Some? && |row.vector.value| == |v| && |v| > 0
  }

  // ------------------------------------------------------------------ which vectors can be compared

  lemma {:induction false} FirstVector(cands: seq<Candidate>, j: nat)
    requires j < |cands| && cands[j].vector.Some? && forall i :: 0 <= i < j ==> cands[i].vector.None?
    ensures Dim(cands) == |cands[j].vector.value|
  {
    if j > 0 {
      FirstVector(cands[1..], j - 1);
    }
  }

  lemma {:induction false} SomeVector(cands: seq<Candidate>) returns (j: nat)
    requires Dim(cands) > 0
    ensures j < |cands| && cands[j].vector.Some? && Dim(cands) == |cands[j].vector.value|
    ensures forall i :: 0 <= i < j ==> cands[i].vector.None?
  {
    if cands[0].vector.Some? {
      j := 0;
    } else {
      var k := SomeVector(cands[1..]);
      j := k + 1;
      forall i | 0 <= i < j ensures cands[i].vector.None? {
        assert i > 0 ==> cands[i] == cands[1..][i - 1];
      }
    }
  }

  /** cands[j] is the first candidate with a vector, and item's vector is as long. */
  predicate AsLongAsFirst(cands: seq<Candidate>, item: Candidate, j: nat) {
    && j < |cands| && cands[j].vector.Some? && (forall i :: 0 <= i < j ==> cands[i].vector.None?)
    && item.vector.Some? && |item.vector.value| == |cands[j].vector.value| > 0
  }

  /** A candidate's vector is used exactly when it is as long as the first vector among the candidates. */
  lemma UsableExactly(cands: seq<Candidate>, item: Candidate)
    ensures UsableVector(item, Dim(cands)).Some? <==> exists j: nat :: AsLongAsFirst(cands, item, j)
    ensures UsableVector(item, Dim(cands)).Some? ==> UsableVector(item, Dim(cands)) == item.vector
  {
    if UsableVector(item, Dim(cands)).Some? {
      var j := SomeVector(cands);
      assert AsLongAsFirst(cands, item, j);
    }
    if j: nat :| AsLongAsFirst(cands, item, j) {
      FirstVector(cands, j);
    }
  }

  /** v is the item's vector, in use. */
  predicate Has(cands: seq<Candidate>, item: Candidate, v: Vec) {
    UsableVector(item, Dim(cands)) == Some(v)
  }

  lemma HasLength(cands: seq<Candidate>, item: Candidate, v: Vec)
    requires Has(cands, item, v)
    ensures |v| == Dim(cands) > 0
  {
  }

  /** The note of a signal, if it has evidence and a note. */
  function NoteOf(m: Maths, state: State, cands: seq<Candidate>, item: Candidate, s: Signal): Option<Phrase>
    requires Laws(m)
  {
    var e := EvidenceFor(m, state, cands, item, s);
    if e.Some? then e.value.note else None
  }

  // ------------------------------------------------------------------ semantic

  /** The product that contributions and votes are built on. */
  lemma WeightedIs(x: real, y: real)
    ensures Weighted(x, y) == x * y == Weighted(y, x)
  {
  }

  /** What interest k of the first three is worth to v: cosine times importance. */
  function Worth(interests: seq<Interest>, v: Vec, k: nat): real
    requires k < |interests| && |interests[k].vector| == |v|
  {
    Weighted(Alike(interests[k].vector, v), interests[k].importance)
  }

  /** The greatest importance among the first three. */
  ghost predicate IsMost(interests: seq<Interest>, most: real) {
    && (exists k :: 0 <= k < 3 && k < |interests| && interests[k].importance == most)
    && forall k :: 0 <= k < 3 && k < |interests| ==> interests[k].importance <= most
  }

  lemma {:induction false} ImportancesAre(top: seq<Interest>)
    ensures |Importances(top)| == |top| && forall k :: 0 <= k < |top| ==> Importances(top)[k] == top[k].importance
  {
    if top != [] {
      ImportancesAre(top[1..]);
    }
  }

  ghost predicate GoodInterests(interests: seq<Interest>, v: Vec, most: real) {
    && interests != [] && IsMost(interests, most) && most >= 0.00000001
    && forall k :: 0 <= k < |interests| ==> |interests[k].vector| == |v| && interests[k].importance >= 0.0
  }

  lemma ShareIs(cos: real, importance: real, most: real)
    requires 0.0 <= cos <= 1.0 && 0.0 <= importance <= most && most > 0.0
    ensures var x := Weighted(cos, Ratio(importance, most));
            0.0 <= x <= 1.0 && Weighted(x, most) == Weighted(cos, importance)
  {
    var share := Ratio(importance, most);
    RatioTimes(importance, most);
    RatioInUnit(importance, most);
    ProductInUnit(cos, share);
    assert (cos * share) * most == cos * (share * most);
  }

  lemma ProductInUnit(x: real, y: real)
    requires 0.0 <= x <= 1.0 && 0.0 <= y <= 1.0
    ensures 0.0 <= x * y <= 1.0
  {
    NonNegative(x, y);
    ProductOrder(x, y, 1.0);
    assert x * y <= x * 1.0 == x;
  }

  lemma MostIs(interests: seq<Interest>, most: real)
    requires interests != [] && IsMost(interests, most)
    ensures Greatest(Importances(Top(interests))) == most
  {
    var top := Top(interests);
    ImportancesAre(top);
    assert forall l :: 0 <= l < |top| ==> top[l] == interests[l];
    var k :| 0 <= k < 3 && k < |interests| && interests[k].importance == most;
    assert Importances(top)[k] == most;
  }

  lemma ScoreIs(interests: seq<Interest>, v: Vec, most: real, k: nat) returns (x: real, cos: real, importance: real)
    requires GoodInterests(interests, v, most) && k < 3 && k < |interests|
    ensures |InterestScores(interests, v)| == |Top(interests)| && k < |Top(interests)|
    ensures x == InterestScores(interests, v)[k]
    ensures cos == Alike(interests[k].vector, v) && importance == interests[k].importance
    ensures x == Weighted(cos, Ratio(importance, most))
  {
    MostIs(interests, most);
    x, cos, importance := InterestScores(interests, v)[k], Alike(interests[k].vector, v), interests[k].importance;
  }

  /** x is the best of the first three interests: x times most is the greatest worth. */
  ghost predicate IsBestInterest(interests: seq<Interest>, v: Vec, most: real, x: real)
    requires GoodInterests(interests, v, most)
  {
    && (forall k: nat :: k < 3 && k < |interests| ==> Worth(interests, v, k) <= Weighted(x, most))
    && exists k: nat :: k < 3 && k < |interests| && Worth(interests, v, k) == Weighted(x, most)
  }

  /** y is the greatest cosine with a bridge. */
  ghost predicate IsBestBridge(bridges: seq<Bridge>, v: Vec, y: real) {
    && bridges != [] && (forall k :: 0 <= k < |bridges| ==> |bridges[k].vector| == |v|)
    && (forall k :: 0 <= k < |bridges| ==> Alike(bridges[k].vector, v) <= y)
    && exists k :: 0 <= k < |bridges| && Alike(bridges[k].vector, v) == y
  }

  lemma ScoreMeans(interests: seq<Interest>, v: Vec, most: real, k: nat) returns (x: real)
    requires GoodInterests(interests, v, most) && k < 3 && k < |interests|
    ensures |InterestScores(interests, v)| == |Top(interests)| && k < |Top(interests)|
    ensures x == InterestScores(interests, v)[k]
    ensures 0.0 <= x <= 1.0 && Weighted(x, most) == Weighted(Alike(interests[k].vector, v), interests[k].importance)
  {
    var cos, importance;
    x, cos, importance := ScoreIs(interests, v, most, k);
    ShareIs(cos, importance, most);
  }

  lemma ScaledBy(x: real, y: real, most: real)
    requires x <= y && most >= 0.0
    ensures Weighted(x, most) <= Weighted(y, most)
  {
  }

  lemma NoneWorthMore(interests: seq<Interest>, v: Vec, most: real, x: real, k: nat)
    requires GoodInterests(interests, v, most) && k < 3 && k < |interests|
    requires forall l :: 0 <= l < |InterestScores(interests, v)| ==> InterestScores(interests, v)[l] <= x
    ensures Worth(interests, v, k) <= Weighted(x, most)
  {
    var y := ScoreMeans(interests, v, most, k);
    ScaledBy(y, x, most);
  }

  lemma WorthReached(interests: seq<Interest>, v: Vec, most: real, x: real, k: nat)
    requires GoodInterests(interests, v, most) && k < 3 && k < |interests|
    requires k < |InterestScores(interests, v)| && x == InterestScores(interests, v)[k]
    ensures 0.0 <= x <= 1.0 && Worth(interests, v, k) == Weighted(x, most)
  {
    var y := ScoreMeans(interests, v, most, k);
  }

  lemma ScoreCount(interests: seq<Interest>, v: Vec)
    requires interests != []
    ensures |InterestScores(interests, v)| <= 3 && |InterestScores(interests, v)| <= |interests|
  {
  }

  lemma BestInterest(interests: seq<Interest>, v: Vec, most: real) returns (x: real)
    requires GoodInterests(interests, v, most)
    ensures var scores := InterestScores(interests, v); x == scores[FirstMax(scores)]
    ensures 0.0 <= x <= 1.0 && IsBestInterest(interests, v, most, x)
  {
    var scores := InterestScores(interests, v);
    var best := FirstMax(scores);
    x := scores[best];
    ScoreCount(interests, v);
    WorthReached(interests, v, most, x, best);
    forall k: nat | k < 3 && k < |interests| ensures Worth(interests, v, k) <= Weighted(x, most) {
      NoneWorthMore(interests, v, most, x, k);
    }
  }

  /** semantic: without a winning bridge, the best of the three top interests, each weighed by its share of the
      greatest importance; with a bridge more than 0.02 better, that bridge's cosine. Absent without a vector
      or without interests. */
  lemma SemanticIs(m: Maths, state: State, cands: seq<Candidate>, item: Candidate, v: Vec, most: real)
    requires Laws(m) && Has(cands, item, v) && GoodInterests(state.interests, v, most)
    requires state.bridges != [] ==> exists y :: IsBestBridge(state.bridges, v, y)
    ensures Semantic in Evidenced(m, state, cands, item)
    ensures exists x :: IsBestInterest(state.interests, v, most, x)
              && (state.bridges == [] ==> Feature(m, state, cands, item, Semantic) == x)
              && (forall y :: IsBestBridge(state.bridges, v, y) ==>
                    Feature(m, state, cands, item, Semantic) == if y > x + 0.02 then y else x)
  {
    var x := BestInterest(state.interests, v, most);
    var scores := InterestScores(state.interests, v);
    forall y | IsBestBridge(state.bridges, v, y)
      ensures Feature(m, state, cands, item, Semantic) == if y > x + 0.02 then y else x
    {
      var found := BridgeScores(state.bridges, v);
      forall k | 0 <= k < |found| ensures found[k] == Alike(state.bridges[k].vector, v) {
      }
      assert found[FirstMax(found)] == y;
    }
  }

  /** Interest k is the first of the three that are worth most to v. */
  ghost predicate IsFirstBest(interests: seq<Interest>, v: Vec, most: real, k: nat)
    requires GoodInterests(interests, v, most)
  {
    && k < 3 && k < |interests|
    && forall l: nat :: l < 3 && l < |interests| ==>
         Worth(interests, v, l) <= Worth(interests, v, k) && (l < k ==> Worth(interests, v, l) < Worth(interests, v, k))
  }

  /** Bridge k is the first with the greatest cosine. */
  ghost predicate IsFirstBridge(bridges: seq<Bridge>, v: Vec, k: nat) {
    && k < |bridges| && (forall l :: 0 <= l < |bridges| ==> |bridges[l].vector| == |v|)
    && forall l :: 0 <= l < |bridges| ==>
         && Alike(bridges[l].vector, v) <= Alike(bridges[k].vector, v)
         && (l < k ==> Alike(bridges[l].vector, v) < Alike(bridges[k].vector, v))
  }

  lemma ScaledStrictly(x: real, y: real, most: real)
    requires x < y && most > 0.0
    ensures Weighted(x, most) < Weighted(y, most)
  {
  }

  lemma FirstMaxIsBest(interests: seq<Interest>, v: Vec, most: real)
    requires GoodInterests(interests, v, most)
    ensures IsFirstBest(interests, v, most, FirstMax(InterestScores(interests, v)))
  {
    var scores := InterestScores(interests, v);
    var k := FirstMax(scores);
    ScoreCount(interests, v);
    var x := ScoreMeans(interests, v, most, k);
    forall l: nat | l < 3 && l < |interests|
      ensures Worth(interests, v, l) <= Worth(interests, v, k)
      ensures l < k ==> Worth(interests, v, l) < Worth(interests, v, k)
    {
      var y := ScoreMeans(interests, v, most, l);
      ScaledBy(y, x, most);
      if l < k { ScaledStrictly(y, x, most); }
    }
  }

  function LabelNote(interests: seq<Interest>, k: nat): Option<Phrase>
    requires k < |interests|
  {
    if interests[k].caption == "" then None else Some(MatchesInterest(interests[k].caption))
  }

  /** The note of semantic: the two interests that the winning bridge connects, else the label of the best
      interest, when it has one. */
  lemma SemanticNoteIs(m: Maths, state: State, cands: seq<Candidate>, item: Candidate, v: Vec, most: real)
    returns (x: real, k: nat)
    requires Laws(m) && Has(cands, item, v) && GoodInterests(state.interests, v, most)
    requires forall l :: 0 <= l < |state.bridges| ==> |state.bridges[l].vector| == |v|
    ensures IsBestInterest(state.interests, v, most, x) && IsFirstBest(state.interests, v, most, k)
    ensures state.bridges == [] ==>
              NoteOf(m, state, cands, item, Semantic) == LabelNote(state.interests, k)
    ensures forall b: nat :: IsFirstBridge(state.bridges, v, b) ==>
              NoteOf(m, state, cands, item, Semantic)
              == if Alike(state.bridges[b].vector, v) > x + 0.02
                 then Some(ConnectsInterests(state.bridges[b].a, state.bridges[b].b))
                 else LabelNote(state.interests, k)
  {
    x := BestInterest(state.interests, v, most);
    FirstMaxIsBest(state.interests, v, most);
    k := FirstMax(InterestScores(state.interests, v));
    ScoreCount(state.interests, v);
    var found := BridgeScores(state.bridges, v);
    forall b: nat | IsFirstBridge(state.bridges, v, b) ensures found != [] && FirstMax(found) == b {
      assert forall l :: 0 <= l < |found| ==> found[l] == Alike(state.bridges[l].vector, v);
    }
  }

  lemma SemanticAbsent(m: Maths, state: State, cands: seq<Candidate>, item: Candidate)
    requires Laws(m) && (UsableVector(item, Dim(cands)).None? || state.interests == [])
    ensures Semantic !in Evidenced(m, state, cands, item) && Feature(m, state, cands, item, Semantic) == 0.5
  {
  }

  // ------------------------------------------------------------------ reading depth

  /** A row of another article, with a completion and a vector as long as v. */
  predicate Votes15(row: HistoryRow, id: int, v: Vec) {
    row.contentId != id && row.completion.Some? && Fits(row, v)
  }

  /** Similarity and completion of the rows that vote, those with a positive cosine. */
  function Ballot(history: seq<HistoryRow>, id: int, v: Vec): seq<Vote> {
    if history == [] then []
    else if Votes15(history[0], id, v) && Dot(history[0].vector.value, v) > 0.0
    then [Vote(Alike(history[0].vector.value, v), history[0].completion.value)] + Ballot(history[1..], id, v)
    else Ballot(history[1..], id, v)
  }

  lemma {:induction false} BallotIs(history: seq<HistoryRow>, id: int, v: Vec)
    requires |v| > 0
    ensures Positive(Votes(VectorRows(history, |v|), id, v)) == Ballot(history, id, v)
    ensures CountUnmasked(VectorRows(history, |v|), id) == CountIf(history, (r: HistoryRow) => Votes15(r, id, v))
  {
    if history != [] {
      BallotIs(history[1..], id, v);
      var rows, rest := VectorRows(history, |v|), VectorRows(history[1..], |v|);
      if Fits(history[0], v) {
        assert rows[0] == history[0] && rows[1..] == rest;
        assert Votes(rows, id, v)[1..] == Votes(rest, id, v);
      }
    }
  }

  /** The (at most) 15 nearest of the votes, ties in any order. */
  ghost predicate Nearest15(ballot: seq<Vote>, near: seq<Vote>) {
    exists rest ::
      && multiset(near + rest) == multiset(ballot) && |near| <= 15 && (rest != [] ==> |near| == 15)
      && forall x, y :: x in near && y in rest ==> x.s >= y.s
  }

  lemma CutIsNearest(p: seq<Vote>, ballot: seq<Vote>)
    requires multiset(p) == multiset(ballot) && Descending(ByVote, p)
    ensures Nearest15(ballot, Cut(p, KNN))
  {
    var near := Cut(p, KNN);
    var rest := p[|near|..];
    assert near + rest == p;
    forall x, y | x in near && y in rest ensures x.s >= y.s {
      var i :| 0 <= i < |near| && near[i] == x;
      var j :| 0 <= j < |rest| && rest[j] == y;
      assert ByVote(p[i]) >= ByVote(p[|near| + j]);
    }
  }

  lemma NeighboursAre(votes: seq<Vote>)
    ensures Nearest15(Positive(votes), Neighbours(votes)) && AllPositive(Neighbours(votes))
  {
    SortedArranged(votes);
    var order := SortDesc(ByVote, votes);
    NearestOfPositive(order);
    PositivePermuted(order, votes);
    PositiveDescends(order);
    CutIsNearest(Positive(order), Positive(votes));
    NearestPositive(order);
  }

  function SumS(near: seq<Vote>): real {
    if near == [] then 0.0 else near[0].s + SumS(near[1..])
  }

  function SumSC(near: seq<Vote>): real {
    if near == [] then 0.0 else near[0].s * near[0].completion + SumSC(near[1..])
  }

  lemma {:induction false} SumsAre(near: seq<Vote>)
    ensures SumS(near) == TotalWeight(near) && SumSC(near) == WeightedCompletion(near)
  {
    if near != [] {
      SumsAre(near[1..]);
    }
  }

  /** The value from the nearest votes: their weighted mean, damped by 1e-8, and drawn to 0.5 by two votes. */
  ghost predicate IsDepth(near: seq<Vote>, mean: real, x: real) {
    && IsDampedMean(SumS(near), SumSC(near), mean)
    && exists raw :: IsDrawn(SumS(near), mean, raw) && x == Clamp01(raw)
  }

  predicate IsDampedMean(w: real, c: real, mean: real) {
    mean * (w + 0.00000001) == c
  }

  predicate IsDrawn(w: real, mean: real, raw: real) {
    raw * (w + 2.0) == w * mean + 2.0 * 0.5
  }

  lemma DampedIs(w: real, c: real)
    requires w > 0.0
    ensures var mean := Ratio(c, w + DAMPING); IsDampedMean(w, c, mean) && IsDrawn(w, mean, Shrunken(w, mean))
  {
    RatioTimes(c, w + DAMPING);
    ShrunkenLine(w, Ratio(c, w + DAMPING));
  }

  lemma DepthFrom(near: seq<Vote>)
    requires near != [] && AllPositive(near)
    ensures TotalWeight(near) > 0.0 && DepthOf(near).Some?
    ensures IsDepth(near, DampedMean(near), DepthOf(near).value.value)
    ensures DepthOf(near).value.note == Some(FinishSimilar(Round(DampedMean(near) * 100.0)))
  {
    WeightPositive(near);
    SumsAre(near);
    DampedIs(TotalWeight(near), WeightedCompletion(near));
  }

  /** reading_depth is said from these nearest votes. */
  ghost predicate DepthSaid(m: Maths, state: State, cands: seq<Candidate>, item: Candidate, near: seq<Vote>)
    requires Laws(m)
  {
    && near != []
    && exists mean :: IsDepth(near, mean, Feature(m, state, cands, item, ReadingDepth))
         && NoteOf(m, state, cands, item, ReadingDepth) == Some(FinishSimilar(Round(mean * 100.0)))
  }

  /** reading_depth: the damped weighted mean completion of the 15 most similar other articles, drawn towards
      0.5; absent with fewer than three readings to compare, or with none that is similar at all. */
  lemma ReadingDepthIs(m: Maths, state: State, cands: seq<Candidate>, item: Candidate, v: Vec)
    requires Laws(m) && Has(cands, item, v) && item.id.Some?
    ensures var id := item.id.value;
            var enough := CountIf(state.history, (r: HistoryRow) => Votes15(r, id, v)) >= 3;
            if enough && Ballot(state.history, id, v) != []
            then exists near :: Nearest15(Ballot(state.history, id, v), near) && DepthSaid(m, state, cands, item, near)
            else && ReadingDepth !in Evidenced(m, state, cands, item)
                 && Feature(m, state, cands, item, ReadingDepth) == 0.5
  {
    var id := item.id.value;
    HasLength(cands, item, v);
    BallotIs(state.history, id, v);
    var votes := Votes(VectorRows(state.history, |v|), id, v);
    NeighboursAre(votes);
    NearNotEmpty(Ballot(state.history, id, v), Neighbours(votes));
    EnoughRows(VectorRows(state.history, |v|), id);
    DepthOfVotes(m, state, cands, item, v, Neighbours(votes));
  }

  lemma {:induction false} EnoughRows(rows: seq<HistoryRow>, id: int)
    ensures CountUnmasked(rows, id) > 0 ==> rows != []
  {
  }

  lemma DepthOfVotes(m: Maths, state: State, cands: seq<Candidate>, item: Candidate, v: Vec, near: seq<Vote>)
    requires Laws(m) && Has(cands, item, v) && item.id.Some? && AllPositive(near)
    requires near == Neighbours(Votes(VectorRows(state.history, |v|), item.id.value, v))
    ensures if CountUnmasked(VectorRows(state.history, |v|), item.id.value) >= 3 && near != []
            then DepthSaid(m, state, cands, item, near)
            else && ReadingDepth !in Evidenced(m, state, cands, item)
                 && Feature(m, state, cands, item, ReadingDepth) == 0.5
  {
    var rows := VectorRows(state.history, |v|);
    HasLength(cands, item, v);
    EnoughRows(rows, item.id.value);
    if CountUnmasked(rows, item.id.value) >= 3 && near != [] {
      DepthFrom(near);
      assert EvidenceFor(m, state, cands, item, ReadingDepth) == DepthOf(near);
      assert IsDepth(near, DampedMean(near), Feature(m, state, cands, item, ReadingDepth));
    }
  }

  lemma NearNotEmpty(ballot: seq<Vote>, near: seq<Vote>)
    requires Nearest15(ballot, near)
    ensures near == [] <==> ballot == []
  {
    var rest :| multiset(near + rest) == multiset(ballot) && (rest != [] ==> |near| == 15);
    assert |multiset(near + rest)| == |multiset(ballot)|;
    assert |near + rest| == |ballot|;
  }

  lemma ReadingDepthAbsent(m: Maths, state: State, cands: seq<Candidate>, item: Candidate)
    requires Laws(m) && (item.id.None? || UsableVector(item, Dim(cands)).None?)
    ensures ReadingDepth !in Evidenced(m, state, cands, item) && Feature(m, state, cands, item, ReadingDepth) == 0.5
  {
  }

  // ------------------------------------------------------------------ suggestion

  predicate OpenedSuggestion(r: HistoryRow) {
    r.wasSuggested && r.openedAt.Some?
  }

  /** Rated up, saved, or read to 0.6. */
  predicate Succeeded(r: HistoryRow) {
    (r.rating.Some? && r.rating.value > 0) || r.saved || (r.completion.Some? && r.completion.value >= 0.6)
  }

  predicate SucceededSuggestion(r: HistoryRow) {
    OpenedSuggestion(r) && Succeeded(r)
  }

  lemma {:induction false} SuggestedAre(history: seq<HistoryRow>)
    ensures CountSuggested(history, false) == CountIf(history, OpenedSuggestion)
    ensures CountSuggested(history, true) == CountIf(history, SucceededSuggestion)
  {
    if history != [] {
      SuggestedAre(history[1..]);
    }
  }

  /** Two successes of three imagined, plus those recorded. */
  predicate IsRate(x: real, good: nat, all: nat) {
    x * (3.0 + all as real) == 2.0 + good as real
  }

  /** suggestion: the rate of successes among opened discoveries; only for discoveries. */
  lemma SuggestionIs(m: Maths, state: State, cands: seq<Candidate>, item: Candidate)
    requires Laws(m) && item.fromDiscovery
    ensures Suggestion in Evidenced(m, state, cands, item)
    ensures IsRate(Feature(m, state, cands, item, Suggestion), CountIf(state.history, SucceededSuggestion),
                   CountIf(state.history, OpenedSuggestion))
    ensures NoteOf(m, state, cands, item, Suggestion)
         == if CountIf(state.history, SucceededSuggestion) > 0 then Some(LikeFinishedDiscoveries) else None
  {
    SuggestedAre(state.history);
    FinishedAmongSuggested(state.history);
    SuggestionSaid(state, item);
  }

  lemma SuggestionAbsent(m: Maths, state: State, cands: seq<Candidate>, item: Candidate)
    requires Laws(m) && !item.fromDiscovery
    ensures Suggestion !in Evidenced(m, state, cands, item) && Feature(m, state, cands, item, Suggestion) == 0.5
  {
  }

  lemma SuggestionSaid(state: State, item: Candidate)
    requires CountSuggested(state.history, true) <= CountSuggested(state.history, false)
    ensures var good, all := CountSuggested(state.history, true), CountSuggested(state.history, false);
            var e := SuggestionEvidence(state, item);
            if item.fromDiscovery
            then && e.Some? && IsRate(e.value.value, good, all)
                 && e.value.note == (if good > 0 then Some(LikeFinishedDiscoveries) else None)
            else e == None
  {
    SuggestionValue(CountSuggested(state.history, true), CountSuggested(state.history, false));
  }

  lemma SuggestionValue(good: nat, all: nat)
    requires good <= all
    ensures IsRate(Clamp01((2.0 + good as real) / (3.0 + all as real)), good, all)
  {
    RateMoves(good, all);
    QuotientIs(2.0 + good as real, 3.0 + all as real);
  }

  lemma QuotientIs(x: real, y: real)
    requires y > 0.0
    ensures (x / y) * y == x
  {
  }

  // ------------------------------------------------------------------ explicit feedback

  /** A row of another article rated in this direction, with a vector as long as v. */
  predicate Rated(r: HistoryRow, id: int, v: Vec, sign: int) {
    && r.contentId != id && Fits(r, v) && r.rating.Some?
    && (if sign > 0 then r.rating.value > 0 else r.rating.value < 0)
  }

  /** p is the greatest similarity to a row rated so, 0 when there is none. */
  ghost predicate IsClosest(history: seq<HistoryRow>, id: int, v: Vec, sign: int, p: real) {
    && (forall r :: r in history && Rated(r, id, v, sign) ==> Alike(r.vector.value, v) <= p)
    && ((exists r :: r in history && Rated(r, id, v, sign) && Alike(r.vector.value, v) == p)
        || (p == 0.0 && forall r :: r in history ==> !Rated(r, id, v, sign)))
  }

  lemma {:induction false} RatedAre(history: seq<HistoryRow>, id: int, v: Vec, sign: int)
    requires |v| > 0 && (sign == 1 || sign == -1)
    ensures var sims := RatedSimilarities(VectorRows(history, |v|), id, v, sign);
            && (forall x :: x in sims <==>
                  exists r :: r in history && Rated(r, id, v, sign) && Alike(r.vector.value, v) == x)
            && (sims == [] <==> forall r :: r in history ==> !Rated(r, id, v, sign))
  {
    if history != [] {
      RatedAre(history[1..], id, v, sign);
      var r := history[0];
      var rest := RatedSimilarities(VectorRows(history[1..], |v|), id, v, sign);
      var sims := RatedSimilarities(VectorRows(history, |v|), id, v, sign);
      if Fits(r, v) {
        assert VectorRows(history, |v|)[1..] == VectorRows(history[1..], |v|);
      }
      assert sims == if Rated(r, id, v, sign) then [Alike(r.vector.value, v)] + rest else rest;
      assert forall q :: q in history <==> q == r || q in history[1..];
    }
  }

  lemma ClosestIs(history: seq<HistoryRow>, id: int, v: Vec, sign: int) returns (p: real)
    requires |v| > 0 && (sign == 1 || sign == -1)
    ensures p == GreatestOr0(RatedSimilarities(VectorRows(history, |v|), id, v, sign))
    ensures IsClosest(history, id, v, sign, p) && 0.0 <= p <= 1.0
  {
    var sims := RatedSimilarities(VectorRows(history, |v|), id, v, sign);
    RatedAre(history, id, v, sign);
    SimilaritiesInUnit(VectorRows(history, |v|), id, v, sign);
    p := GreatestOr0(sims);
    forall r | r in history && Rated(r, id, v, sign) ensures Alike(r.vector.value, v) <= p {
      assert Alike(r.vector.value, v) in sims;
    }
    if sims != [] {
      assert p in sims;
    }
  }

  predicate SaidTooBasic(r: HistoryRow) {
    r.rating.Some? && r.rating.value < 0 && r.reason == Some("too_basic")
  }

  predicate NothingToCompare(history: seq<HistoryRow>, id: int, v: Vec) {
    forall r :: r in history ==> !Rated(r, id, v, 1) && !Rated(r, id, v, -1)
  }

  /** The item is below depth 0.4, and something was rated down as too basic. */
  ghost predicate TakesOff(history: seq<HistoryRow>, item: Candidate) {
    (exists r :: r in history && SaidTooBasic(r)) && item.contentDepth.Some? && item.contentDepth.value < 0.4
  }

  /** The evidence from the closest article rated up, p, and down, n. */
  predicate FeedbackSays(e: Option<Evidence>, p: real, n: real, off: bool) {
    && e.Some? && e.value.value == Clamp01(0.5 + 0.5 * p - 0.5 * n - if off then 0.1 else 0.0)
    && e.value.note == if p >= n && p > 0.5 then Some(SimilarToRatedUp) else None
  }

  /** explicit_feedback: half the closest article rated up, less half the closest rated down, from 0.5; 0.1 less
      for an item below depth 0.4 once anything was called too basic. */
  lemma FeedbackIs(m: Maths, state: State, cands: seq<Candidate>, item: Candidate, v: Vec) returns (p: real, n: real)
    requires Laws(m) && Has(cands, item, v) && item.id.Some? && !NothingToCompare(state.history, item.id.value, v)
    ensures IsClosest(state.history, item.id.value, v, 1, p) && IsClosest(state.history, item.id.value, v, -1, n)
    ensures FeedbackSays(EvidenceFor(m, state, cands, item, ExplicitFeedback), p, n, TakesOff(state.history, item))
  {
    var id := item.id.value;
    HasLength(cands, item, v);
    RatedAre(state.history, id, v, 1);
    RatedAre(state.history, id, v, -1);
    p := ClosestIs(state.history, id, v, 1);
    n := ClosestIs(state.history, id, v, -1);
    TooBasicIs(state.history);
    FeedbackSaid(SimilaritiesTo(state.history, item, |v|, 1), SimilaritiesTo(state.history, item, |v|, -1),
                 Shallow(state.history, item));
    LeaveOneOut.FeedbackIs(m, state, cands, item);
  }

  /** It is absent with no ratings to compare. */
  lemma FeedbackAbsent(m: Maths, state: State, cands: seq<Candidate>, item: Candidate)
    requires Laws(m)
    requires item.id.Some? ==> forall v :: Has(cands, item, v) ==> NothingToCompare(state.history, item.id.value, v)
    ensures ExplicitFeedback !in Evidenced(m, state, cands, item)
    ensures Feature(m, state, cands, item, ExplicitFeedback) == 0.5
  {
    LeaveOneOut.FeedbackIs(m, state, cands, item);
    if item.id.Some? && UsableVector(item, Dim(cands)).Some? {
      var v := UsableVector(item, Dim(cands)).value;
      assert Has(cands, item, v);
      RatedAre(state.history, item.id.value, v, 1);
      RatedAre(state.history, item.id.value, v, -1);
    }
  }

  lemma FeedbackSaid(up: seq<real>, down: seq<real>, shallow: bool)
    ensures if up == [] && down == [] then FeedbackOf(up, down, shallow) == None
            else FeedbackSays(FeedbackOf(up, down, shallow), GreatestOr0(up), GreatestOr0(down), shallow)
  {
  }

  lemma TooBasicIs(history: seq<HistoryRow>)
    ensures TooBasicSeen(history) <==> exists r :: r in history && SaidTooBasic(r)
  {
    if r :| r in history && SaidTooBasic(r) {
      var k :| 0 <= k < |history| && history[k] == r;
      assert RatingSign(history[k]) < 0;
    }
    if TooBasicSeen(history) {
      var k :| 0 <= k < |history| && RatingSign(history[k]) < 0 && history[k].reason == Some("too_basic");
      assert history[k] in history && SaidTooBasic(history[k]);
    }
  }
}
