/** Scored candidates: bounds, faithfulness of the breakdown, order and crowding. */
module Ranking {
  import opened Vectors
  import opened Wrappers
  import opened StableSort
  import opened Contract
  import opened Interests
  import opened Scoring
  import opened Explain

  datatype Scored = Scored(
    item: Candidate, prs: real, features: map<Signal, real>, noData: set<Signal>,
    contributions: map<Signal, real>, text: Explanation)

  const ByPrs: Scored -> real := (s: Scored) => s.prs

  function NotesOf(m: Maths, state: State, cands: seq<Candidate>, item: Candidate): (notes: map<Signal, Phrase>)
    requires Laws(m)
    ensures NotesMatch(notes)
  {
    map s: Signal | EvidenceFor(m, state, cands, item, s).Some?
                 && EvidenceFor(m, state, cands, item, s).value.note.Some?
                 :: EvidenceFor(m, state, cands, item, s).value.note.value
  }

  function KeyOf(c: map<Signal, real>): Signal -> real
    requires AllSignals(c)
  {
    (s: Signal) => if s in c then c[s] else 0.0
  }

  /** What score_candidates reports about one candidate. */
  ghost predicate IsScore(m: Maths, state: State, cands: seq<Candidate>, r: Scored)
    requires Laws(m)
  {
    var f := Features(m, state, cands, r.item);
    var have := Evidenced(m, state, cands, r.item);
    && r.features == f
    && r.contributions == Contributions(state.weights, f)
    && r.prs == Clamp01(Total(r.contributions))
    && (forall s: Signal :: s in r.noData <==> s !in have)
    && (r.text.ColdStart? <==> forall s :: s in have ==> !Learned(s))
    && (r.text.Because? ==>
          NamesStrongest(r.text.parts, have, NotesOf(m, state, cands, r.item), KeyOf(r.contributions)))
  }

  lemma SignalsComplete(s: Signal)
    ensures s in SIGNALS
  {
    assert SIGNALS[0] == Semantic && SIGNALS[1] == ReadingDepth && SIGNALS[2] == Suggestion;
    assert SIGNALS[3] == ExplicitFeedback && SIGNALS[4] == SourceTrust && SIGNALS[5] == ContentQuality;
    assert SIGNALS[6] == TemporalContext && SIGNALS[7] == Novelty;
  }

  /** The iteration order of a set: every member once, in any order. */
  ghost predicate Listing(listing: set<Signal> -> seq<Signal>) {
    forall h :: Distinct(listing(h)) && Members(listing(h)) == h
  }

  /** The signals of a seen prefix are filled in, the others still hold their defaults. */
  ghost predicate Filled(m: Maths, state: State, cands: seq<Candidate>, item: Candidate, seen: seq<Signal>,
                         f: map<Signal, real>, have: set<Signal>, notes: map<Signal, Phrase>)
    requires Laws(m)
  {
    forall s: Signal ::
      && s in f
      && f[s] == (if s in seen then Feature(m, state, cands, item, s) else NEUTRAL)
      && (s in have <==> s in seen && EvidenceFor(m, state, cands, item, s).Some?)
      && (s in notes <==> s in seen && s in NotesOf(m, state, cands, item))
      && (s in notes ==> notes[s] == NotesOf(m, state, cands, item)[s])
  }

  lemma FilledNext(m: Maths, state: State, cands: seq<Candidate>, item: Candidate, seen: seq<Signal>,
                   f: map<Signal, real>, have: set<Signal>, notes: map<Signal, Phrase>, signal: Signal)
    requires Laws(m) && Filled(m, state, cands, item, seen, f, have, notes)
    ensures var e := EvidenceFor(m, state, cands, item, signal);
            Filled(m, state, cands, item, seen + [signal],
                   if e.Some? then f[signal := e.value.value] else f,
                   if e.Some? then have + {signal} else have,
                   if e.Some? && e.value.note.Some? then notes[signal := e.value.note.value] else notes)
  {
  }

  lemma FilledAll(m: Maths, state: State, cands: seq<Candidate>, item: Candidate,
                  f: map<Signal, real>, have: set<Signal>, notes: map<Signal, Phrase>)
    requires Laws(m) && Filled(m, state, cands, item, SIGNALS, f, have, notes)
    ensures f == Features(m, state, cands, item) && have == Evidenced(m, state, cands, item)
    ensures notes == NotesOf(m, state, cands, item)
  {
    forall s: Signal ensures s in SIGNALS { SignalsComplete(s); }
    assert forall s: Signal :: s in have <==> s in Evidenced(m, state, cands, item);
    assert forall s: Signal :: f[s] == Features(m, state, cands, item)[s];
  }

  method FillSignals(m: Maths, state: State, cands: seq<Candidate>, item: Candidate)
    returns (f: map<Signal, real>, have: set<Signal>, notes: map<Signal, Phrase>)
    requires Laws(m)
    ensures f == Features(m, state, cands, item) && have == Evidenced(m, state, cands, item)
    ensures notes == NotesOf(m, state, cands, item)
  {
    forall s: Signal ensures s in SIGNALS { SignalsComplete(s); }
    f := map s: Signal | s in SIGNALS :: NEUTRAL;
    have := {};
    notes := map[];
    for k := 0 to |SIGNALS|
      invariant Filled(m, state, cands, item, SIGNALS[..k], f, have, notes)
    {
      var signal := SIGNALS[k];
      assert SIGNALS[..k + 1] == SIGNALS[..k] + [signal];
      FilledNext(m, state, cands, item, SIGNALS[..k], f, have, notes, signal);
      var e := EvidenceFor(m, state, cands, item, signal);
      if e.Some? {
        f := f[signal := e.value.value];
        have := have + {signal};
        if e.value.note.Some? {
          notes := notes[signal := e.value.note.value];
        }
      }
    }
    assert SIGNALS[..|SIGNALS|] == SIGNALS;
    FilledAll(m, state, cands, item, f, have, notes);
  }

  method ScoreOne(m: Maths, state: State, cands: seq<Candidate>, item: Candidate, listing: set<Signal> -> seq<Signal>)
    returns (r: Scored)
    requires Laws(m) && Listing(listing)
    ensures r.item == item && IsScore(m, state, cands, r)
  {
    var f, have, notes := FillSignals(m, state, cands, item);
    var contributions := Contributions(state.weights, f);
    var order := listing(have);
    assert Distinct(order) && Members(order) == have;
    assert ContentQuality in have && TemporalContext in have;
    var text := Explaining(KeyOf(contributions), order, notes);
    var noData := set s: Signal | s !in have;
    r := Scored(item, Clamp01(Total(contributions)), f, noData, contributions, text);
  }

  ghost predicate IsScoreOf(m: Maths, state: State, cands: seq<Candidate>, item: Candidate, r: Scored)
    requires Laws(m)
  {
    r.item == item && IsScore(m, state, cands, r)
  }

  /** The first k candidates have been scored, in order. */
  ghost predicate ScoredUpTo(m: Maths, state: State, cands: seq<Candidate>, results: seq<Scored>, k: nat)
    requires Laws(m)
  {
    && |results| == k <= |cands|
    && (k > 0 ==> && IsScoreOf(m, state, cands, cands[k - 1], results[k - 1])
                  && ScoredUpTo(m, state, cands, results[..k - 1], k - 1))
  }

  lemma ScoredNext(m: Maths, state: State, cands: seq<Candidate>, results: seq<Scored>, k: nat, r: Scored)
    requires Laws(m) && k < |cands| && ScoredUpTo(m, state, cands, results, k)
    requires IsScoreOf(m, state, cands, cands[k], r)
    ensures ScoredUpTo(m, state, cands, results + [r], k + 1)
  {
    assert (results + [r])[..k] == results;
  }

  /** So result i is the score of candidate i. */
  lemma {:induction false} ScoredEach(m: Maths, state: State, cands: seq<Candidate>, results: seq<Scored>, k: nat,
                                      i: nat)
    requires Laws(m) && ScoredUpTo(m, state, cands, results, k) && i < k
    ensures results[i].item == cands[i] && IsScore(m, state, cands, results[i])
  {
    if i < k - 1 {
      ScoredEach(m, state, cands, results[..k - 1], k - 1, i);
    }
  }

  method ScoreCandidates(m: Maths, state: State, cands: seq<Candidate>, listing: set<Signal> -> seq<Signal>)
    returns (results: seq<Scored>)
    requires Laws(m) && Listing(listing)
    ensures ScoredUpTo(m, state, cands, results, |cands|)
  {
    results := [];
    for idx := 0 to |cands|
      invariant ScoredUpTo(m, state, cands, results, idx)
    {
      var r := ScoreOne(m, state, cands, cands[idx], listing);
      ScoredNext(m, state, cands, results, idx, r);
      results := results + [r];
    }
  }

  method RankCandidates(m: Maths, state: State, cands: seq<Candidate>, listing: set<Signal> -> seq<Signal>)
    returns (ranked: seq<Scored>, ghost scored: seq<Scored>)
    requires Laws(m) && Listing(listing)
    ensures ScoredUpTo(m, state, cands, scored, |cands|)
    ensures ranked == SortDesc(ByPrs, scored)
    ensures multiset(ranked) == multiset(scored)
    ensures forall i, j :: 0 <= i < j < |ranked| ==> ranked[i].prs >= ranked[j].prs
  {
    ranked := ScoreCandidates(m, state, cands, listing);
    scored := ranked;
    ranked := SortDesc(ByPrs, ranked);
    SortSorts(ByPrs, scored);
  }

  // ------------------------------------------------------------------ faithful scores

  lemma WeightedBetween(w: real, x: real)
    requires w >= 0.0 && 0.0 <= x <= 1.0
    ensures 0.0 <= Weighted(w, x) <= w
  {
  }

  function WeightSum(weights: Signal -> real): real {
    weights(Semantic) + weights(ReadingDepth) + weights(Suggestion) + weights(ExplicitFeedback)
      + weights(SourceTrust) + weights(ContentQuality) + weights(TemporalContext) + weights(Novelty)
  }

  /** Every feature lies in [0, 1], and a signal without data is exactly neutral. */
  lemma FeaturesInRange(m: Maths, state: State, cands: seq<Candidate>, item: Candidate)
    requires Laws(m)
    ensures forall s: Signal :: 0.0 <= Features(m, state, cands, item)[s] <= 1.0
    ensures forall s: Signal :: s !in Evidenced(m, state, cands, item) ==> Features(m, state, cands, item)[s] == NEUTRAL
    ensures {ContentQuality, TemporalContext} <= Evidenced(m, state, cands, item)
  {
    forall s: Signal ensures 0.0 <= Feature(m, state, cands, item, s) <= 1.0 {
      assert SoundIfAny(s, EvidenceFor(m, state, cands, item, s));
    }
  }

  /** With weights of at most 1 in all, the score is exactly the sum of the contributions. */
  lemma FaithfulBreakdown(m: Maths, state: State, cands: seq<Candidate>, item: Candidate)
    requires Laws(m) && (forall s: Signal :: state.weights(s) >= 0.0) && WeightSum(state.weights) <= 1.0
    ensures Prs(m, state, cands, item) == Total(Contributions(state.weights, Features(m, state, cands, item)))
  {
    var f := Features(m, state, cands, item);
    var c := Contributions(state.weights, f);
    FeaturesInRange(m, state, cands, item);
    forall s: Signal ensures 0.0 <= c[s] <= state.weights(s) {
      WeightedBetween(state.weights(s), f[s]);
    }
  }

  // ------------------------------------------------------------------ crowding

  /** All vectors have the one embedding dimension. */
  ghost predicate OneDimension(cands: seq<Candidate>, dim: nat) {
    dim > 0 && forall c :: c in cands && c.vector.Some? ==> |c.vector.value| == dim
  }

  lemma {:induction false} DimOf(cands: seq<Candidate>, dim: nat, item: Candidate)
    requires OneDimension(cands, dim)
    ensures Dim(cands) == 0 || Dim(cands) == dim
    ensures item in cands && item.vector.Some? ==> Dim(cands) == dim
  {
    if cands != [] {
      assert cands[0] in cands;
      if cands[0].vector.None? {
        assert OneDimension(cands[1..], dim);
        DimOf(cands[1..], dim, item);
      }
    }
  }

  /** The item's vector can be compared against one list of candidates exactly when it can against the other;
      only the first vector of a list decides that. */
  predicate AsUsable(cands: seq<Candidate>, others: seq<Candidate>, item: Candidate) {
    UsableVector(item, Dim(cands)) == UsableVector(item, Dim(others))
  }

  /** So it is with one embedding dimension throughout. */
  lemma OneDimensionAsUsable(cands: seq<Candidate>, others: seq<Candidate>, dim: nat, item: Candidate)
    requires OneDimension(cands, dim) && OneDimension(others, dim) && item in cands && item in others
    ensures AsUsable(cands, others, item)
  {
    DimOf(cands, dim, item);
    DimOf(others, dim, item);
  }

  /** Only the same-event count looks at the other candidates. */
  lemma OthersMatterOnlyForEvents(m: Maths, state: State, cands: seq<Candidate>, others: seq<Candidate>,
                                  item: Candidate, s: Signal)
    requires Laws(m) && s != TemporalContext && AsUsable(cands, others, item)
    ensures EvidenceFor(m, state, cands, item, s) == EvidenceFor(m, state, others, item, s)
  {
  }

  lemma {:induction false} CountSameEventConcat(a: seq<Candidate>, b: seq<Candidate>, dim: nat, v: Vec)
    ensures CountSameEvent(a + b, dim, v) == CountSameEvent(a, dim, v) + CountSameEvent(b, dim, v)
  {
    if a == [] {
      assert a + b == b;
    } else {
      CountSameEventConcat(a[1..], b, dim, v);
      assert (a + b)[1..] == a[1..] + b;
    }
  }

  function Inserted(cands: seq<Candidate>, p: nat, x: Candidate): seq<Candidate>
    requires p <= |cands|
  {
    cands[..p] + [x] + cands[p..]
  }

  lemma EventCountGrows(state: State, cands: seq<Candidate>, p: nat, x: Candidate, item: Candidate)
    requires p <= |cands| && AsUsable(cands, Inserted(cands, p, x), item)
    ensures var more := Inserted(cands, p, x);
            SameEventCount(state, cands, VectorRows(state.history, Dim(cands)), UsableVector(item, Dim(cands)))
            <= SameEventCount(state, more, VectorRows(state.history, Dim(more)), UsableVector(item, Dim(more)))
  {
    if UsableVector(item, Dim(cands)).Some? {
      var v, dim := item.vector.value, Dim(cands);
      CountSameEventConcat(cands[..p], cands[p..], dim, v);
      CountSameEventConcat(cands[..p] + [x], cands[p..], dim, v);
      CountSameEventConcat(cands[..p], [x], dim, v);
      assert cands == cands[..p] + cands[p..];
    }
  }

  /** Adding a candidate anywhere changes no other signal of an item and never raises its score, as long as
      the item's vector stays as usable as it was. */
  lemma CrowdingNeverRaises(m: Maths, state: State, cands: seq<Candidate>, p: nat, x: Candidate, item: Candidate)
    requires Laws(m) && state.weights(TemporalContext) >= 0.0
    requires p <= |cands| && AsUsable(cands, Inserted(cands, p, x), item)
    ensures var more := Inserted(cands, p, x);
            && Prs(m, state, more, item) <= Prs(m, state, cands, item)
            && forall s: Signal :: s != TemporalContext ==>
                 EvidenceFor(m, state, more, item, s) == EvidenceFor(m, state, cands, item, s)
  {
    var more := Inserted(cands, p, x);
    EventCountGrows(state, cands, p, x, item);
    forall s: Signal | s != TemporalContext
      ensures EvidenceFor(m, state, more, item, s) == EvidenceFor(m, state, cands, item, s)
    {
      OthersMatterOnlyForEvents(m, state, cands, more, item, s);
    }
    var few := SameEventCount(state, cands, VectorRows(state.history, Dim(cands)), UsableVector(item, Dim(cands)));
    var many := SameEventCount(state, more, VectorRows(state.history, Dim(more)), UsableVector(item, Dim(more)));
    TemporalAntitone(m, PublishedAt(state, item), state.now, few, many, state.prefersFresh);
    var f, g := Features(m, state, cands, item), Features(m, state, more, item);
    assert f[TemporalContext] == TemporalEvidence(m, state, item, few).value;
    assert g[TemporalContext] == TemporalEvidence(m, state, item, many).value;
    LowerTotal(state.weights, f, g);
  }

  lemma LowerTotal(weights: Signal -> real, f: map<Signal, real>, g: map<Signal, real>)
    requires AllSignals(f) && AllSignals(g) && weights(TemporalContext) >= 0.0
    requires g[TemporalContext] <= f[TemporalContext]
    requires forall s: Signal :: s != TemporalContext ==> g[s] == f[s]
    ensures Clamp01(Total(Contributions(weights, g))) <= Clamp01(Total(Contributions(weights, f)))
  {
    WeightedMonotone(weights(TemporalContext), g[TemporalContext], f[TemporalContext]);
    var c, d := Contributions(weights, f), Contributions(weights, g);
    assert forall s: Signal :: s != TemporalContext ==> c[s] == d[s];
  }

  lemma WeightedMonotone(w: real, x: real, y: real)
    requires w >= 0.0 && x <= y
    ensures Weighted(w, x) <= Weighted(w, y)
  {
  }

  // ------------------------------------------------------------------ order of the candidates

  lemma {:induction false} CountSameEventPermuted(a: seq<Candidate>, b: seq<Candidate>, dim: nat, v: Vec)
    requires multiset(a) == multiset(b)
    ensures CountSameEvent(a, dim, v) == CountSameEvent(b, dim, v)
    decreases |a|
  {
    if a == [] {
      assert |multiset(b)| == 0;
    } else {
      var front, back := TakeOut(b, a[0]);
      MultisetOfTail(a);
      CountSameEventPermuted(a[1..], front + back, dim, v);
      CountSameEventConcat(front, back, dim, v);
      CountSameEventConcat(front, [a[0]] + back, dim, v);
    }
  }

  /** Permuting the candidates only permutes the results: each item keeps all its evidence, as long as its
      vector stays as usable as it was. */
  lemma OrderDoesNotMatter(m: Maths, state: State, cands: seq<Candidate>, shuffled: seq<Candidate>, item: Candidate)
    requires Laws(m) && multiset(cands) == multiset(shuffled) && AsUsable(cands, shuffled, item)
    ensures forall s: Signal :: EvidenceFor(m, state, cands, item, s) == EvidenceFor(m, state, shuffled, item, s)
    ensures Prs(m, state, cands, item) == Prs(m, state, shuffled, item)
  {
    if UsableVector(item, Dim(cands)).Some? {
      CountSameEventPermuted(cands, shuffled, Dim(cands), item.vector.value);
    }
    forall s: Signal ensures EvidenceFor(m, state, cands, item, s) == EvidenceFor(m, state, shuffled, item, s) {
      if s != TemporalContext {
        OthersMatterOnlyForEvents(m, state, cands, shuffled, item, s);
      }
    }
    assert Features(m, state, cands, item) == Features(m, state, shuffled, item);
  }

  // ------------------------------------------------------------------ mixed dimensions

  /** A reader with one interest and weight on nothing else. */
  function OneInterest(u: Vec): State {
    State(s => if s == Semantic then 1.0 else 0.0, [], [Interest(u, 1.0, "")], [], map[], map[], map[], false, 0.0, 0)
  }

  lemma OneInterestScores(u: Vec, v: Vec)
    requires |u| == |v|
    ensures InterestScores(OneInterest(u).interests, v) == [Clip(Dot(u, v), 0.0, 1.0)]
  {
    var interests := OneInterest(u).interests;
    assert interests[1..] == [];
    assert Importances(interests) == [1.0] && Greatest([1.0]) == 1.0;
    assert Ratio(1.0, 1.0) == 1.0;
    var x := Clip(Dot(u, v), 0.0, 1.0);
    assert Weighted(x, 1.0) == x;
    assert InterestScore(interests[0], v, 1.0) == x;
  }

  lemma OneInterestPrs(m: Maths, u: Vec, cands: seq<Candidate>, item: Candidate)
    requires Laws(m) && item.vector.Some? && |u| == |item.vector.value|
    ensures Prs(m, OneInterest(u), cands, item)
         == if UsableVector(item, Dim(cands)).Some? then Clip(Dot(u, item.vector.value), 0.0, 1.0) else NEUTRAL
  {
    var state := OneInterest(u);
    OneInterestScores(u, item.vector.value);
    var f := Features(m, state, cands, item);
    var c := Contributions(state.weights, f);
    forall s: Signal ensures c[s] == if s == Semantic then f[s] else 0.0 {
      assert Weighted(1.0, f[s]) == f[s] && Weighted(0.0, f[s]) == 0.0;
    }
    assert Total(c) == f[Semantic];
  }

  /** The vector v itself, or the one opposite to it. */
  lemma Opposite(v: Vec) returns (u: Vec)
    requires Unit(v)
    ensures |u| == |v| && Clip(Dot(u, v), 0.0, 1.0) == 0.0 && Clip(Dot(v, v), 0.0, 1.0) == 1.0
  {
    u := Scale(-1.0, v);
    DotScale(-1.0, v, v);
  }

  /** When the usability of an item's vector changes, some reader sees its score rise. */
  lemma DimensionShows(m: Maths, cands: seq<Candidate>, others: seq<Candidate>, item: Candidate) returns (state: State)
    requires Laws(m) && !AsUsable(cands, others, item) && (item.vector.Some? ==> Unit(item.vector.value))
    ensures state.weights(TemporalContext) >= 0.0 && Prs(m, state, cands, item) < Prs(m, state, others, item)
  {
    var v := item.vector.value;
    var u := Opposite(v);
    if UsableVector(item, Dim(others)).Some? {
      u := v;
    }
    state := OneInterest(u);
    OneInterestPrs(m, u, cands, item);
    OneInterestPrs(m, u, others, item);
  }

  ghost predicate NeverRaised(m: Maths, cands: seq<Candidate>, more: seq<Candidate>, item: Candidate)
    requires Laws(m)
  {
    forall state: State :: state.weights(TemporalContext) >= 0.0 ==>
      Prs(m, state, more, item) <= Prs(m, state, cands, item)
  }

  /** Adding a candidate raises no reader's score of an item exactly when it leaves the item's vector usable
      if it was, and unusable if it was not: a first vector of another dimension does neither. */
  lemma CrowdingExactly(m: Maths, cands: seq<Candidate>, p: nat, x: Candidate, item: Candidate)
    requires Laws(m) && p <= |cands| && (item.vector.Some? ==> Unit(item.vector.value))
    ensures NeverRaised(m, cands, Inserted(cands, p, x), item) <==> AsUsable(cands, Inserted(cands, p, x), item)
  {
    var more := Inserted(cands, p, x);
    if AsUsable(cands, more, item) {
      forall state: State | state.weights(TemporalContext) >= 0.0
        ensures Prs(m, state, more, item) <= Prs(m, state, cands, item)
      {
        CrowdingNeverRaises(m, state, cands, p, x, item);
      }
    } else {
      var state := DimensionShows(m, cands, more, item);
      assert !(Prs(m, state, more, item) <= Prs(m, state, cands, item));
    }
  }

  ghost predicate SameForAll(m: Maths, cands: seq<Candidate>, shuffled: seq<Candidate>, item: Candidate)
    requires Laws(m)
  {
    forall state: State :: Prs(m, state, cands, item) == Prs(m, state, shuffled, item)
  }

  /** The order of the candidates matters to no reader exactly under the same condition. */
  lemma OrderExactly(m: Maths, cands: seq<Candidate>, shuffled: seq<Candidate>, item: Candidate)
    requires Laws(m) && multiset(cands) == multiset(shuffled) && (item.vector.Some? ==> Unit(item.vector.value))
    ensures SameForAll(m, cands, shuffled, item) <==> AsUsable(cands, shuffled, item)
  {
    if AsUsable(cands, shuffled, item) {
      forall state: State ensures Prs(m, state, cands, item) == Prs(m, state, shuffled, item) {
        OrderDoesNotMatter(m, state, cands, shuffled, item);
      }
    } else {
      var state := DimensionShows(m, cands, shuffled, item);
      assert Prs(m, state, cands, item) != Prs(m, state, shuffled, item);
    }
  }
}
