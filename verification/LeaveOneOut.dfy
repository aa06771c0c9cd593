/** An item's own history rows do not leak into its reading_depth and novelty. */
module LeaveOneOut {
  import opened Vectors
  import opened Wrappers
  import opened StableSort
  import opened Contract
  import opened Interests
  import opened Scoring
  import opened SignalLaws

  /** The history without the rows of one item. */
  function Others(rows: seq<HistoryRow>, id: int): seq<HistoryRow> {
    if rows == [] then []
    else if Keeps(rows[0], id) then [rows[0]] + Others(rows[1..], id)
    else Others(rows[1..], id)
  }

  lemma {:induction false} OthersCommute(history: seq<HistoryRow>, id: int, dim: nat)
    ensures Others(VectorRows(history, dim), id) == VectorRows(Others(history, id), dim)
  {
    if history != [] {
      OthersCommute(history[1..], id, dim);
    }
  }

  // ------------------------------------------------------------------ the kNN vote

  function Unmasked(votes: seq<Vote>): seq<Vote> {
    if votes == [] then []
    else if votes[0].s >= 0.0 then [votes[0]] + Unmasked(votes[1..])
    else Unmasked(votes[1..])
  }

  ghost predicate AllMasked(votes: seq<Vote>) {
    forall k :: 0 <= k < |votes| ==> votes[k].s == -1.0
  }

  ghost predicate Cast(votes: seq<Vote>) {
    forall k :: 0 <= k < |votes| ==> votes[k].s == -1.0 || votes[k].s >= 0.0
  }

  lemma {:induction false} InsertUnmasked(x: Vote, s: seq<Vote>, masked: seq<Vote>)
    requires x.s >= 0.0 && AllMasked(masked)
    ensures InsertDesc(ByVote, x, s + masked) == InsertDesc(ByVote, x, s) + masked
  {
    if s == [] {
      assert s + masked == masked;
      assert [x] + masked == InsertDesc(ByVote, x, masked);
    } else if s[0].s <= x.s {
      assert [x] + (s + masked) == ([x] + s) + masked;
    } else {
      InsertUnmasked(x, s[1..], masked);
      assert (s + masked)[1..] == s[1..] + masked;
      assert [s[0]] + (InsertDesc(ByVote, x, s[1..]) + masked) == ([s[0]] + InsertDesc(ByVote, x, s[1..])) + masked;
    }
  }

  /** A smaller element goes behind everything larger. */
  lemma {:induction false} InsertBehind(x: Vote, s: seq<Vote>, rest: seq<Vote>)
    requires forall k :: 0 <= k < |s| ==> s[k].s > x.s
    ensures InsertDesc(ByVote, x, s + rest) == s + InsertDesc(ByVote, x, rest)
  {
    if s == [] {
      assert s + rest == rest;
    } else {
      InsertBehind(x, s[1..], rest);
      assert (s + rest)[1..] == s[1..] + rest;
      assert s == [s[0]] + s[1..];
    }
  }

  lemma InsertMasked(x: Vote, s: seq<Vote>, masked: seq<Vote>)
    requires x.s == -1.0 && AllMasked(masked) && forall k :: 0 <= k < |s| ==> s[k].s >= 0.0
    ensures InsertDesc(ByVote, x, s + masked) == s + ([x] + masked)
  {
    InsertBehind(x, s, masked);
  }

  lemma {:induction false} UnmaskedOnly(votes: seq<Vote>)
    ensures forall k :: 0 <= k < |Unmasked(votes)| ==> Unmasked(votes)[k].s >= 0.0
  {
    if votes != [] {
      UnmaskedOnly(votes[1..]);
    }
  }

  lemma SortedUnmasked(votes: seq<Vote>)
    ensures forall k :: 0 <= k < |SortDesc(ByVote, Unmasked(votes))| ==> SortDesc(ByVote, Unmasked(votes))[k].s >= 0.0
  {
    UnmaskedOnly(votes);
    var sorted := SortDesc(ByVote, Unmasked(votes));
    SortSorts(ByVote, Unmasked(votes));
    forall k | 0 <= k < |sorted| ensures sorted[k].s >= 0.0 {
      assert sorted[k] in multiset(sorted);
      assert sorted[k] in Unmasked(votes);
    }
  }

  /** Masked rows sort behind all others. */
  lemma {:induction false} MaskedSortLast(votes: seq<Vote>) returns (masked: seq<Vote>)
    requires Cast(votes)
    ensures AllMasked(masked) && SortDesc(ByVote, votes) == SortDesc(ByVote, Unmasked(votes)) + masked
  {
    if votes == [] {
      masked := [];
    } else {
      var later := MaskedSortLast(votes[1..]);
      var sorted := SortDesc(ByVote, Unmasked(votes[1..]));
      if votes[0].s >= 0.0 {
        InsertUnmasked(votes[0], sorted, later);
        masked := later;
      } else {
        SortedUnmasked(votes[1..]);
        InsertMasked(votes[0], sorted, later);
        masked := [votes[0]] + later;
      }
    }
  }

  lemma {:induction false} PositiveIgnores(s: seq<Vote>, masked: seq<Vote>)
    requires AllMasked(masked)
    ensures Positive(s + masked) == Positive(s)
    decreases |s| + |masked|
  {
    if s != [] {
      PositiveIgnores(s[1..], masked);
      assert (s + masked)[1..] == s[1..] + masked;
    } else if masked != [] {
      PositiveIgnores(s, masked[1..]);
      assert s + masked == masked && s + masked[1..] == masked[1..];
    }
  }

  /** The neighbours are those of the unmasked rows alone, also at the cut of 15. */
  lemma NeighboursOfUnmasked(votes: seq<Vote>)
    requires Cast(votes)
    ensures Neighbours(votes) == Neighbours(Unmasked(votes))
  {
    var masked := MaskedSortLast(votes);
    var sorted := SortDesc(ByVote, Unmasked(votes));
    if |sorted| >= KNN {
      assert Cut(sorted + masked, KNN) == Cut(sorted, KNN);
    } else {
      var rest := KNN - |sorted|;
      assert Cut(sorted + masked, KNN) == sorted + Cut(masked, rest);
      PositiveIgnores(sorted, Cut(masked, rest));
    }
  }

  lemma {:induction false} VotesCast(rows: seq<HistoryRow>, id: int, v: Vec)
    ensures Cast(Votes(rows, id, v))
  {
    if rows != [] {
      VotesCast(rows[1..], id, v);
    }
  }

  lemma {:induction false} VotesOfOthers(rows: seq<HistoryRow>, id: int, v: Vec)
    ensures Unmasked(Votes(rows, id, v)) == Unmasked(Votes(Others(rows, id), id, v))
    ensures CountUnmasked(rows, id) == CountUnmasked(Others(rows, id), id)
  {
    if rows != [] {
      VotesOfOthers(rows[1..], id, v);
      assert Votes(rows, id, v)[1..] == Votes(rows[1..], id, v);
      if Keeps(rows[0], id) {
        var kept := Others(rows, id);
        assert kept[1..] == Others(rows[1..], id);
        assert Votes(kept, id, v)[1..] == Votes(Others(rows[1..], id), id, v);
      }
    }
  }

  lemma DepthOfOthers(rows: seq<HistoryRow>, id: int, v: Vec)
    ensures ReadingDepthEvidence(rows, Some(id), Some(v)) == ReadingDepthEvidence(Others(rows, id), Some(id), Some(v))
  {
    VotesOfOthers(rows, id, v);
    VotesCast(rows, id, v);
    VotesCast(Others(rows, id), id, v);
    NeighboursOfUnmasked(Votes(rows, id, v));
    NeighboursOfUnmasked(Votes(Others(rows, id), id, v));
  }

  lemma {:induction false} RecentOfOthers(rows: seq<HistoryRow>, id: int, v: Vec, cut: int)
    ensures RecentSimilarities(rows, id, v, cut) == RecentSimilarities(Others(rows, id), id, v, cut)
  {
    if rows != [] {
      RecentOfOthers(rows[1..], id, v, cut);
    }
  }

  lemma NoveltyOfOthers(state: State, rows: seq<HistoryRow>, id: int, v: Vec)
    ensures NoveltyEvidence(state, rows, Some(id), Some(v))
         == NoveltyEvidence(state, Others(rows, id), Some(id), Some(v))
  {
    RecentOfOthers(rows, id, v, state.now - NOVELTY_WINDOW);
  }

  lemma SameVectorRows(history: seq<HistoryRow>, edited: seq<HistoryRow>, id: int, dim: nat)
    requires Others(history, id) == Others(edited, id)
    ensures Others(VectorRows(history, dim), id) == Others(VectorRows(edited, dim), id)
  {
    OthersCommute(history, id, dim);
    OthersCommute(edited, id, dim);
  }

  lemma DepthUnchanged(rows: seq<HistoryRow>, edited: seq<HistoryRow>, id: Option<int>, v: Option<Vec>)
    requires id.Some? ==> Others(rows, id.value) == Others(edited, id.value)
    ensures ReadingDepthEvidence(rows, id, v) == ReadingDepthEvidence(edited, id, v)
  {
    if id.Some? && v.Some? {
      DepthOfOthers(rows, id.value, v.value);
      DepthOfOthers(edited, id.value, v.value);
    }
  }

  lemma NoveltyUnchanged(state: State, after: State, rows: seq<HistoryRow>, edited: seq<HistoryRow>,
                         id: Option<int>, v: Option<Vec>)
    requires id.Some? ==> Others(rows, id.value) == Others(edited, id.value)
    requires after.now == state.now && after.noveltyTarget == state.noveltyTarget
    ensures NoveltyEvidence(state, rows, id, v) == NoveltyEvidence(after, edited, id, v)
  {
    if id.Some? && v.Some? {
      NoveltyOfOthers(state, rows, id.value, v.value);
      NoveltyOfOthers(state, edited, id.value, v.value);
    }
  }

  /** Editing, adding or removing an item's own rows changes neither its reading_depth nor its novelty. */
  lemma OwnRowsDoNotLeak(m: Maths, state: State, edited: seq<HistoryRow>, cands: seq<Candidate>, item: Candidate)
    requires Laws(m)
    requires item.id.Some? ==> Others(state.history, item.id.value) == Others(edited, item.id.value)
    ensures var after := state.(history := edited);
            && EvidenceFor(m, state, cands, item, ReadingDepth) == EvidenceFor(m, after, cands, item, ReadingDepth)
            && EvidenceFor(m, state, cands, item, Novelty) == EvidenceFor(m, after, cands, item, Novelty)
  {
    var dim := Dim(cands);
    var rows, rows' := VectorRows(state.history, dim), VectorRows(edited, dim);
    if item.id.Some? {
      SameVectorRows(state.history, edited, item.id.value, dim);
    }
    DepthUnchanged(rows, rows', item.id, UsableVector(item, dim));
    NoveltyUnchanged(state, state.(history := edited), rows, rows', item.id, UsableVector(item, dim));
  }

  // ------------------------------------------------------------------ where own rows do count

  function Own(rows: seq<HistoryRow>, id: int): seq<HistoryRow> {
    if rows == [] then []
    else if Keeps(rows[0], id) then Own(rows[1..], id)
    else [rows[0]] + Own(rows[1..], id)
  }

  lemma {:induction false} OwnRowsAreEvents(rows: seq<HistoryRow>, id: int, cut: int, v: Vec)
    ensures CountRecentEvents(rows, cut, v)
         == CountRecentEvents(Others(rows, id), cut, v) + CountRecentEvents(Own(rows, id), cut, v)
  {
    if rows != [] {
      OwnRowsAreEvents(rows[1..], id, cut, v);
    }
  }

  /** The item's own rows that count as the same event. */
  function OwnEvents(state: State, item: Candidate, dim: nat): nat
    requires Comparable(item, dim)
  {
    CountRecentEvents(Own(VectorRows(state.history, dim), item.id.value), state.now - RECENT_EVENT,
                      UsableVector(item, dim).value)
  }

  lemma {:induction false} CandidateCountsItself(cands: seq<Candidate>, dim: nat, item: Candidate, v: Vec)
    requires item in cands && UsableVector(item, dim) == Some(v) && Unit(v)
    ensures CountSameEvent(cands, dim, v) >= 1
  {
    if cands[0] != item {
      CandidateCountsItself(cands[1..], dim, item, v);
    }
  }

  /** After an edit of an item's own rows its same-event count has moved by what its own events have. */
  lemma EventCountMoves(state: State, edited: seq<HistoryRow>, cands: seq<Candidate>, item: Candidate)
    requires item in cands && Comparable(item, Dim(cands)) && Unit(item.vector.value)
    requires Others(state.history, item.id.value) == Others(edited, item.id.value)
    ensures var dim, after := Dim(cands), state.(history := edited);
            var v := UsableVector(item, dim);
            && SameEventCount(state, cands, VectorRows(state.history, dim), v) >= 1
            && SameEventCount(after, cands, VectorRows(edited, dim), v) >= 1
            && SameEventCount(after, cands, VectorRows(edited, dim), v)
               - SameEventCount(state, cands, VectorRows(state.history, dim), v)
               == OwnEvents(after, item, dim) - OwnEvents(state, item, dim)
  {
    var dim, id, v := Dim(cands), item.id.value, item.vector.value;
    CandidateCountsItself(cands, dim, item, v);
    SameVectorRows(state.history, edited, id, dim);
    OwnRowsAreEvents(VectorRows(state.history, dim), id, state.now - RECENT_EVENT, v);
    OwnRowsAreEvents(VectorRows(edited, dim), id, state.now - RECENT_EVENT, v);
  }

  /** temporal_context does not leave one out: an edit of an item's own rows shows in it exactly when it
      changes the number of own rows opened in the last 72 hours with a similarity of 0.85 or more. */
  lemma OwnEventsShow(m: Maths, state: State, edited: seq<HistoryRow>, cands: seq<Candidate>, item: Candidate)
    requires Laws(m) && item in cands && Comparable(item, Dim(cands)) && Unit(item.vector.value)
    requires Others(state.history, item.id.value) == Others(edited, item.id.value)
    ensures EvidenceFor(m, state, cands, item, TemporalContext)
            == EvidenceFor(m, state.(history := edited), cands, item, TemporalContext)
       <==> OwnEvents(state, item, Dim(cands)) == OwnEvents(state.(history := edited), item, Dim(cands))
  {
    var dim, after := Dim(cands), state.(history := edited);
    EventCountMoves(state, edited, cands, item);
    var few := SameEventCount(state, cands, VectorRows(state.history, dim), UsableVector(item, dim));
    var many := SameEventCount(after, cands, VectorRows(edited, dim), UsableVector(item, dim));
    CountsShow(m, PublishedAt(state, item), state.now, few, many, state.prefersFresh);
    assert EvidenceFor(m, state, cands, item, TemporalContext).value == TemporalEvidence(m, state, item, few);
    assert EvidenceFor(m, after, cands, item, TemporalContext).value == TemporalEvidence(m, after, item, many);
  }

  /** An own row that counts as the same event. */
  predicate IsOwnEvent(row: HistoryRow, state: State, item: Candidate, dim: nat)
    requires Comparable(item, dim)
  {
    && !Keeps(row, item.id.value) && row.vector.Some? && |row.vector.value| == dim
    && Cosine(row, UsableVector(item, dim).value) >= SAME_EVENT_COSINE && ReadRecently(row, state.now - RECENT_EVENT)
  }

  lemma {:induction false} NoOwnEvents(state: State, history: seq<HistoryRow>, item: Candidate, dim: nat)
    requires Comparable(item, dim)
    ensures OwnEvents(state.(history := history), item, dim) == 0
       <==> forall k :: 0 <= k < |history| ==> !IsOwnEvent(history[k], state, item, dim)
  {
    if history != [] {
      NoOwnEvents(state, history[1..], item, dim);
      assert OwnEvents(state.(history := history), item, dim)
          == OwnEvents(state.(history := history[1..]), item, dim)
             + if IsOwnEvent(history[0], state, item, dim) then 1 else 0;
    }
  }

  lemma {:induction false} OthersTwice(rows: seq<HistoryRow>, id: int)
    ensures Others(Others(rows, id), id) == Others(rows, id)
    ensures forall k :: 0 <= k < |Others(rows, id)| ==> Keeps(Others(rows, id)[k], id)
  {
    if rows != [] {
      OthersTwice(rows[1..], id);
    }
  }

  /** So temporal_context is what it would be without the item's own rows exactly when none of them is a
      recent reading of the same event (or the item has no vector to compare). */
  lemma TemporalLeavesOneOutExactly(m: Maths, state: State, cands: seq<Candidate>, item: Candidate)
    requires Laws(m) && item in cands && item.id.Some? && (item.vector.Some? ==> Unit(item.vector.value))
    ensures EvidenceFor(m, state, cands, item, TemporalContext)
            == EvidenceFor(m, state.(history := Others(state.history, item.id.value)), cands, item, TemporalContext)
       <==> || !Comparable(item, Dim(cands))
            || forall k :: 0 <= k < |state.history| ==> !IsOwnEvent(state.history[k], state, item, Dim(cands))
  {
    if Comparable(item, Dim(cands)) {
      var others := Others(state.history, item.id.value);
      OthersTwice(state.history, item.id.value);
      OwnEventsShow(m, state, others, cands, item);
      NoOwnEvents(state, state.history, item, Dim(cands));
      NoOwnEvents(state, others, item, Dim(cands));
      assert state.(history := state.history) == state;
    }
  }

  /** An article read just now halves its own temporal score. */
  lemma OwnReadingCrowds(m: Maths, state: State)
    requires Laws(m) && state.history == [PlainRow(1, Some([1.0, 0.0]), 1, None)] && state.now == 0
    ensures var with := EvidenceFor(m, state, [PlainItem], PlainItem, TemporalContext).value;
            var without := EvidenceFor(m, state.(history := []), [PlainItem], PlainItem, TemporalContext).value;
            0.0 < with.value && 2.0 * with.value == without.value
  {
    var v := [1.0, 0.0];
    assert Dot(v, v) == 1.0;
    assert state.history[1..] == [] && [PlainItem][1..] == [];
    assert CountSameEvent([PlainItem], 2, v) == 1;
    assert VectorRows(state.history, 2) == state.history;
    assert CountRecentEvents(state.history, state.now - RECENT_EVENT, v) == 1;
    var freshness := Freshness(m, PublishedAt(state, PlainItem), state.now, state.prefersFresh);
    FreshnessPositive(m, PublishedAt(state, PlainItem), state.now, state.prefersFresh);
    ShareOfOne(freshness, 1);
    ShareOfOne(freshness, 2);
  }

  lemma {:induction false} RatedOfOthers(rows: seq<HistoryRow>, id: int, v: Vec, sign: int)
    ensures RatedSimilarities(rows, id, v, sign) == RatedSimilarities(Others(rows, id), id, v, sign)
  {
    if rows != [] {
      RatedOfOthers(rows[1..], id, v, sign);
    }
  }

  lemma SameSimilarities(history: seq<HistoryRow>, edited: seq<HistoryRow>, item: Candidate, dim: nat, sign: int)
    requires Comparable(item, dim) && Others(history, item.id.value) == Others(edited, item.id.value)
    ensures SimilaritiesTo(history, item, dim, sign) == SimilaritiesTo(edited, item, dim, sign)
  {
    SameVectorRows(history, edited, item.id.value, dim);
    RatedOfOthers(VectorRows(history, dim), item.id.value, UsableVector(item, dim).value, sign);
    RatedOfOthers(VectorRows(edited, dim), item.id.value, UsableVector(item, dim).value, sign);
  }

  function GreatestOr0(xs: seq<real>): real {
    if xs == [] then 0.0 else Greatest(xs)
  }

  /** The down ratings alone already take the value to 0. */
  predicate Outvoted(up: seq<real>, down: seq<real>) {
    GreatestOr0(down) - GreatestOr0(up) >= 1.0
  }

  lemma {:induction false} SimilaritiesInUnit(rows: seq<HistoryRow>, id: int, v: Vec, sign: int)
    ensures forall k :: 0 <= k < |RatedSimilarities(rows, id, v, sign)| ==>
              0.0 <= RatedSimilarities(rows, id, v, sign)[k] <= 1.0
    ensures 0.0 <= GreatestOr0(RatedSimilarities(rows, id, v, sign)) <= 1.0
  {
    if rows != [] {
      SimilaritiesInUnit(rows[1..], id, v, sign);
    }
  }

  /** Whether 0.1 comes off shows exactly when something is rated and the value is not 0 anyway. */
  lemma ShallowShows(up: seq<real>, down: seq<real>, x: bool, y: bool)
    requires GreatestOr0(up) <= 1.0 && GreatestOr0(down) >= 0.0
    ensures FeedbackOf(up, down, x) == FeedbackOf(up, down, y)
       <==> x == y || (up == [] && down == []) || Outvoted(up, down)
  {
  }

  lemma FeedbackIs(m: Maths, state: State, cands: seq<Candidate>, item: Candidate)
    requires Laws(m)
    ensures EvidenceFor(m, state, cands, item, ExplicitFeedback)
         == if Comparable(item, Dim(cands))
            then FeedbackOf(SimilaritiesTo(state.history, item, Dim(cands), 1),
                            SimilaritiesTo(state.history, item, Dim(cands), -1), Shallow(state.history, item))
            else None
  {
  }

  /** The other articles' ratings decide the value whatever the item's depth. */
  predicate FeedbackDecided(history: seq<HistoryRow>, item: Candidate, dim: nat)
    requires Comparable(item, dim)
  {
    || NothingRated(history, item, dim)
    || Outvoted(SimilaritiesTo(history, item, dim, 1), SimilaritiesTo(history, item, dim, -1))
  }

  /** explicit_feedback leaves one out but for the "too_basic" reasons, which are read from the item's own
      rows as well: an edit of own rows shows exactly when it changes whether such a reason was ever given,
      the item is below depth 0.4, and the ratings of other articles do not decide the value alone. */
  lemma FeedbackLeavesOneOutExactly(m: Maths, state: State, edited: seq<HistoryRow>, cands: seq<Candidate>,
                                    item: Candidate)
    requires Laws(m)
    requires item.id.Some? ==> Others(state.history, item.id.value) == Others(edited, item.id.value)
    ensures EvidenceFor(m, state, cands, item, ExplicitFeedback)
            == EvidenceFor(m, state.(history := edited), cands, item, ExplicitFeedback)
       <==> || Shallow(state.history, item) == Shallow(edited, item)
            || !Comparable(item, Dim(cands)) || FeedbackDecided(state.history, item, Dim(cands))
  {
    var dim := Dim(cands);
    FeedbackIs(m, state, cands, item);
    FeedbackIs(m, state.(history := edited), cands, item);
    if Comparable(item, dim) {
      SameSimilarities(state.history, edited, item, dim, 1);
      SameSimilarities(state.history, edited, item, dim, -1);
      NothingRatedExactly(state.history, item, dim);
      SimilaritiesInUnit(VectorRows(state.history, dim), item.id.value, UsableVector(item, dim).value, 1);
      SimilaritiesInUnit(VectorRows(state.history, dim), item.id.value, UsableVector(item, dim).value, -1);
      ShallowShows(SimilaritiesTo(state.history, item, dim, 1), SimilaritiesTo(state.history, item, dim, -1),
                   Shallow(state.history, item), Shallow(edited, item));
    }
  }

  /** Calling an article itself too basic lowers its own explicit_feedback. */
  lemma OwnReasonShows(m: Maths, state: State)
    requires Laws(m)
    requires state.history == [PlainRow(3, Some([1.0, 0.0]), 1, None), PlainRow(1, None, -1, Some("too_basic"))]
    ensures EvidenceFor(m, state, [PlainItem], PlainItem, ExplicitFeedback)
         != EvidenceFor(m, state.(history := Others(state.history, 1)), [PlainItem], PlainItem, ExplicitFeedback)
  {
    var rated, own := PlainRow(3, Some([1.0, 0.0]), 1, None), PlainRow(1, None, -1, Some("too_basic"));
    assert state.history[1..] == [own] && [own][1..] == [] && [rated][1..] == [];
    assert Others([own], 1) == [];
    var others := [rated];
    assert Others(state.history, 1) == others && Others(others, 1) == others;
    FeedbackLeavesOneOutExactly(m, state, others, [PlainItem], PlainItem);
    assert state.history[1] == own;
    assert TooBasicSeen(state.history) && !TooBasicSeen(others);
    assert Counts(state.history[0], PlainItem, 2);
    OneRatedUp(state.history, rated, own);
  }

  lemma OneRatedUp(history: seq<HistoryRow>, rated: HistoryRow, own: HistoryRow)
    requires rated == PlainRow(3, Some([1.0, 0.0]), 1, None) && own.vector.None? && history == [rated, own]
    ensures SimilaritiesTo(history, PlainItem, 2, -1) == []
  {
    assert history[1..] == [own] && [own][1..] == [] && [rated][1..] == [];
    assert VectorRows([own], 2) == [];
    assert VectorRows(history, 2) == [rated];
    assert RatingSign(rated) == 1 && Keeps(rated, 1);
    assert RatedSimilarities([rated], 1, [1.0, 0.0], -1) == RatedSimilarities([rated][1..], 1, [1.0, 0.0], -1);
  }

  // ------------------------------------------------------------------ shrinkage

  predicate Between(x: real, a: real, b: real) {
    a <= x <= b || b <= x <= a
  }

  /** The value is a convex combination of the damped mean and NEUTRAL. */
  lemma ShrunkenLine(w: real, mean: real)
    requires w > 0.0
    ensures Shrunken(w, mean) * (w + 2.0) == w * mean + 1.0
  {
    var share := w / (w + 2.0);
    assert share * (w + 2.0) == w;
    assert (share * mean) * (w + 2.0) == w * mean by { Regroup(share, mean, w + 2.0, w); }
  }

  lemma Regroup(a: real, b: real, c: real, ac: real)
    requires a * c == ac
    ensures (a * b) * c == ac * b
  {
  }

  lemma CancelFactor(x: real, y: real, f: real)
    requires f > 0.0
    ensures x * f <= y * f <==> x <= y
  {
  }

  /** What the vote reports before clamping, from the weight w and the damped mean. */
  lemma ShrunkenBetween(w: real, mean: real)
    requires w > 0.0
    ensures Between(Shrunken(w, mean), mean, NEUTRAL)
  {
    ShrunkenLine(w, mean);
    var x := Shrunken(w, mean);
    CancelFactor(x, mean, w + 2.0);
    CancelFactor(mean, x, w + 2.0);
    CancelFactor(x, NEUTRAL, w + 2.0);
    CancelFactor(NEUTRAL, x, w + 2.0);
    assert mean * (w + 2.0) == w * mean + 2.0 * mean;
    if mean <= NEUTRAL {
      assert w * mean <= w * NEUTRAL by { CancelFactor(mean, NEUTRAL, w); }
    } else {
      assert w * NEUTRAL <= w * mean by { CancelFactor(NEUTRAL, mean, w); }
    }
  }

  ghost predicate AllPositive(votes: seq<Vote>) {
    forall k :: 0 <= k < |votes| ==> votes[k].s > 0.0
  }

  lemma {:induction false} WeightPositive(votes: seq<Vote>)
    requires AllPositive(votes)
    ensures TotalWeight(votes) >= 0.0 && (votes != [] ==> TotalWeight(votes) > 0.0)
  {
    if votes != [] {
      WeightPositive(votes[1..]);
    }
  }

  /** The neighbours' true weighted mean completion. */
  function TrueMean(votes: seq<Vote>): real
    requires TotalWeight(votes) > 0.0
  {
    Ratio(WeightedCompletion(votes), TotalWeight(votes))
  }

  lemma RatioTimes(x: real, y: real)
    requires y > 0.0
    ensures Ratio(x, y) * y == x
  {
  }

  /** Damping pulls the mean towards zero. */
  lemma DampedNearer(w: real, c: real, mean: real, damped: real)
    requires w > 0.0 && mean * w == c && damped * (w + DAMPING) == c
    ensures 0.0 <= damped <= mean || mean <= damped <= 0.0
  {
    CancelFactor(0.0, mean, w);
    CancelFactor(mean, 0.0, w);
    CancelFactor(damped, mean, w + DAMPING);
    CancelFactor(mean, damped, w + DAMPING);
    CancelFactor(0.0, damped, w + DAMPING);
    CancelFactor(damped, 0.0, w + DAMPING);
    assert mean * (w + DAMPING) == c + mean * DAMPING;
  }

  /** When the damping does not show: the true mean is below one half by at least half of what the
      damping takes, or the damped mean is still one half or more. */
  predicate DampingUnseen(mean: real, damped: real) {
    2.0 * mean + DAMPING * damped <= 1.0 || damped >= 0.5
  }

  /** Where the mean lies from x, for x * (w + 2) == w * damped + 1. */
  lemma MeanSide(w: real, c: real, mean: real, damped: real, x: real)
    requires w > 0.0 && mean * w == c && damped * (w + DAMPING) == c && x * (w + 2.0) == w * damped + 1.0
    ensures mean <= x <==> 2.0 * mean + DAMPING * damped <= 1.0
  {
    CancelFactor(mean, x, w + 2.0);
    assert mean * (w + 2.0) == c + 2.0 * mean;
    assert w * damped == c - DAMPING * damped;
  }

  lemma NeutralSide(w: real, damped: real, x: real)
    requires w > 0.0 && x * (w + 2.0) == w * damped + 1.0
    ensures NEUTRAL <= x <==> damped >= 0.5
  {
    CancelFactor(NEUTRAL, x, w + 2.0);
    CancelFactor(NEUTRAL, damped, w);
    assert w * damped == damped * w;
  }

  /** Whatever completions are stored, reading_depth lies between NEUTRAL and the damped mean; it lies
      between NEUTRAL and the neighbours' true mean exactly when DampingUnseen. */
  lemma DepthBetween(near: seq<Vote>)
    requires near != [] && AllPositive(near)
    ensures TotalWeight(near) > 0.0 && DepthOf(near).Some?
    ensures Between(DepthOf(near).value.value, DampedMean(near), NEUTRAL)
    ensures Between(DepthOf(near).value.value, TrueMean(near), NEUTRAL)
       <==> DampingUnseen(TrueMean(near), DampedMean(near))
  {
    WeightPositive(near);
    BetweenBoth(TotalWeight(near), WeightedCompletion(near));
  }

  lemma BetweenBoth(w: real, c: real)
    requires w > 0.0
    ensures var mean, damped := Ratio(c, w), Ratio(c, w + DAMPING);
            var x := Clamp01(Shrunken(w, damped));
            && Between(x, damped, NEUTRAL)
            && (Between(x, mean, NEUTRAL) <==> DampingUnseen(mean, damped))
  {
    var mean, damped := Ratio(c, w), Ratio(c, w + DAMPING);
    RatioTimes(c, w);
    RatioTimes(c, w + DAMPING);
    DampedNearer(w, c, mean, damped);
    ShrunkenBetween(w, damped);
    ShrunkenLine(w, damped);
    MeanSide(w, c, mean, damped, Shrunken(w, damped));
    NeutralSide(w, damped, Shrunken(w, damped));
  }

  lemma {:induction false} PositiveMembers(votes: seq<Vote>)
    ensures AllPositive(Positive(votes))
  {
    if votes != [] {
      PositiveMembers(votes[1..]);
    }
  }

  /** The same for the signal itself, over any history. */
  lemma ReadingDepthBetween(rows: seq<HistoryRow>, id: int, v: Vec)
    requires ReadingDepthEvidence(rows, Some(id), Some(v)).Some?
    ensures var near := Neighbours(Votes(rows, id, v));
            var depth := ReadingDepthEvidence(rows, Some(id), Some(v)).value.value;
            && near != [] && TotalWeight(near) > 0.0
            && Between(depth, DampedMean(near), NEUTRAL)
            && (Between(depth, TrueMean(near), NEUTRAL)
                <==> DampingUnseen(TrueMean(near), DampedMean(near)))
  {
    PositiveMembers(Cut(SortDesc(ByVote, Votes(rows, id, v)), KNN));
    DepthBetween(Neighbours(Votes(rows, id, v)));
  }

  /** Three equally similar neighbours, each read exactly half way, give less than NEUTRAL. */
  lemma DampingSeen()
    ensures var near := [Vote(1.0, 0.5), Vote(1.0, 0.5), Vote(1.0, 0.5)];
            && AllPositive(near) && TotalWeight(near) == 3.0 && TrueMean(near) == NEUTRAL
            && DepthOf(near).Some? && DepthOf(near).value.value < NEUTRAL
  {
    var x := Vote(1.0, 0.5);
    var near := [x, x, x];
    VoteSums(x, []);
    VoteSums(x, [x]);
    VoteSums(x, [x, x]);
    assert [x] + [] == [x] && [x] + [x] == [x, x] && [x] + [x, x] == near;
    DepthBetween(near);
  }

  lemma VoteSums(x: Vote, rest: seq<Vote>)
    requires x == Vote(1.0, 0.5)
    ensures TotalWeight([x] + rest) == 1.0 + TotalWeight(rest)
    ensures WeightedCompletion([x] + rest) == 0.5 + WeightedCompletion(rest)
  {
    assert ([x] + rest)[1..] == rest;
  }
}
