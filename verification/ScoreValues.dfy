/** The remaining signals and the score itself in plain numbers: source trust, quality, time, novelty, and the
    weighted sum with its explanation. */
module ScoreValues {
  import opened Vectors
  import opened Wrappers
  import opened StableSort
  import opened Contract
  import opened Interests
  import opened Scoring
  import opened SignalLaws
  import opened LeaveOneOut
  import opened SignalValues
  import opened Explain
  import opened Ranking

  // ------------------------------------------------------------------ source trust

  /** The key of an item's feed: its source's, else that of its feed id. */
  function FeedKey(state: State, item: Candidate): Option<string> {
    if item.sourceId.Some? && item.sourceId.value in state.sourceFeedKey
    then Some(state.sourceFeedKey[item.sourceId.value])
    else if item.feedId.Some? && item.feedId.value in state.feedIdKey then Some(state.feedIdKey[item.feedId.value])
    else None
  }

  /** f is the feed the item came from. */
  predicate FromThat(state: State, item: Candidate, f: FeedState) {
    var key := FeedKey(state, item);
    key.Some? && key.value != "" && key.value in state.feeds && state.feeds[key.value] == f
  }

  predicate HasFeed(state: State, item: Candidate) {
    var key := FeedKey(state, item);
    key.Some? && key.value != "" && key.value in state.feeds
  }

  /** Whole days since the last outcome, 0 when there is none. */
  function DaysSince(state: State, f: FeedState): int {
    if f.lastOutcomeAt.Some? then (state.now - f.lastOutcomeAt.value) / 86_400_000_000 else 0
  }

  /** What is left of the outcomes' weight: half every 90 days. */
  function Fading(m: Maths, state: State, f: FeedState): real {
    var days := DaysSince(state, f);
    m.half((if days < 0 then 0.0 else days as real) / 90.0)
  }

  /** The trust weight, kept in [0, 1]. */
  function PriorOf(f: FeedState): real {
    if f.trustWeight < 0.0 then 0.0 else if f.trustWeight > 1.0 then 1.0 else f.trustWeight
  }

  /** source_trust is absent without a feed, and for a feed without outcomes whose trust weight says nothing. */
  lemma TrustAbsent(m: Maths, state: State, cands: seq<Candidate>, item: Candidate)
    requires Laws(m)
    ensures SourceTrust !in Evidenced(m, state, cands, item)
       <==> || !HasFeed(state, item)
            || exists f :: FromThat(state, item, f) && f.successes == f.failures == 0 && 0.44 <= f.trustWeight <= 0.56
    ensures SourceTrust !in Evidenced(m, state, cands, item) ==> Feature(m, state, cands, item, SourceTrust) == 0.5
  {
    if HasFeed(state, item) {
      var f := state.feeds[FeedKey(state, item).value];
      assert FromThat(state, item, f);
      assert FeedOf(state, item) == Some(f);
      assert Abs(f.trustWeight - 0.5) <= 0.06 <==> 0.44 <= f.trustWeight <= 0.56;
    }
  }

  /** The share of successes among four imagined readings at p and the recorded s and n, each worth d. */
  predicate IsTrust(x: real, p: real, s: real, n: real, d: real) {
    0.0 <= x <= 1.0 && x * (4.0 + (s + n) * d) == 4.0 * p + s * d
  }

  lemma PosteriorIs(p: real, s: real, n: real, d: real)
    requires 0.0 <= p <= 1.0 && s >= 0.0 && n >= 0.0 && d > 0.0
    ensures IsTrust(Posterior(4.0 * p, 4.0 * (1.0 - p), s, n, d), p, s, n, d)
  {
    var a, b := 4.0 * p + s * d, 4.0 * (1.0 - p) + n * d;
    NonNegative(s, d);
    NonNegative(n, d);
    ShareBounds(a, b);
    assert (s + n) * d == s * d + n * d;
    QuotientIs(a, a + b);
  }

  /** source_trust, exactly: four imagined readings at the trust weight, and the outcomes, half of them gone
      every 90 days since the last one. */
  lemma TrustIs(m: Maths, state: State, cands: seq<Candidate>, item: Candidate, f: FeedState)
    requires Laws(m) && FromThat(state, item, f) && SourceTrust in Evidenced(m, state, cands, item)
    ensures var x, d := Feature(m, state, cands, item, SourceTrust), Fading(m, state, f);
            IsTrust(x, PriorOf(f), f.successes as real, f.failures as real, d)
  {
    assert FeedOf(state, item) == Some(f);
    PosteriorIs(PriorOf(f), f.successes as real, f.failures as real, Fading(m, state, f));
  }

  lemma TrustValue(m: Maths, state: State, cands: seq<Candidate>, item: Candidate, f: FeedState)
    requires Laws(m) && FromThat(state, item, f) && f.successes + f.failures > 0
    ensures SourceTrust in Evidenced(m, state, cands, item)
    ensures Feature(m, state, cands, item, SourceTrust) == TrustOf(m, state, f)
  {
    assert FeedOf(state, item) == Some(f);
  }

  function TrustOf(m: Maths, state: State, f: FeedState): real
    requires Laws(m)
  {
    BetaMean(m, f.successes, f.failures, 4.0 * PriorOf(f), 4.0 * (1.0 - PriorOf(f)), DaysSince(state, f) as real)
  }

  /** p <= x <= q or q <= x <= p. */
  predicate Amid(x: real, p: real, q: real) {
    p <= x <= q || q <= x <= p
  }

  lemma PriorShare(p: real)
    requires 0.0 <= p <= 1.0
    ensures Share(4.0 * p, 4.0 * (1.0 - p)) == p
  {
  }

  /** With outcomes, source_trust lies between the trust weight and the rate of successes. */
  lemma TrustBetween(m: Maths, state: State, cands: seq<Candidate>, item: Candidate, f: FeedState)
    requires Laws(m) && FromThat(state, item, f) && f.successes + f.failures > 0
    ensures var rate := f.successes as real / (f.successes + f.failures) as real;
            Amid(Feature(m, state, cands, item, SourceTrust), PriorOf(f), rate)
  {
    var p, s, n := PriorOf(f), f.successes as real, f.failures as real;
    TrustValue(m, state, cands, item, f);
    PriorShare(p);
    PosteriorBetween(4.0 * p, 4.0 * (1.0 - p), s, n, Fading(m, state, f));
    assert AtLeastAsGood(4.0 * p, 4.0 * (1.0 - p), s, n) || AtLeastAsGood(s, n, 4.0 * p, 4.0 * (1.0 - p));
  }

  /** The item's feed, edited. */
  function WithFeed(state: State, item: Candidate, f: FeedState): State
    requires FeedKey(state, item).Some?
  {
    state.(feeds := state.feeds[FeedKey(state, item).value := f])
  }

  lemma MoreSuccess(a: real, b: real, s: real, n: real, d: real)
    requires a >= 0.0 && b >= 0.0 && a + b > 0.0 && s >= 0.0 && n >= 0.0 && d > 0.0
    ensures Posterior(a, b, s, n, d) <= Posterior(a, b, s + 1.0, n, d)
    ensures Posterior(a, b, s, n + 1.0, d) <= Posterior(a, b, s, n, d)
  {
    NonNegative(s, d);
    NonNegative(n, d);
    var p, q := a + s * d, b + n * d;
    assert (s + 1.0) * d == s * d + d && (n + 1.0) * d == n * d + d;
    ShareOrder(p, q, p + d, q);
    ShareOrder(p, q + d, p, q);
    NonNegative(d, q);
    NonNegative(p, d);
    assert (p + d) * q == p * q + d * q && p * (q + d) == p * q + p * d;
  }

  /** One more success never lowers source_trust, and one more failure never raises it. */
  lemma OutcomesMoveTrust(m: Maths, state: State, cands: seq<Candidate>, item: Candidate, f: FeedState)
    requires Laws(m) && FromThat(state, item, f) && f.successes + f.failures > 0
    ensures Feature(m, state, cands, item, SourceTrust)
         <= Feature(m, WithFeed(state, item, f.(successes := f.successes + 1)), cands, item, SourceTrust)
    ensures Feature(m, WithFeed(state, item, f.(failures := f.failures + 1)), cands, item, SourceTrust)
         <= Feature(m, state, cands, item, SourceTrust)
  {
    var up, down := f.(successes := f.successes + 1), f.(failures := f.failures + 1);
    TrustValue(m, state, cands, item, f);
    TrustValue(m, WithFeed(state, item, up), cands, item, up);
    TrustValue(m, WithFeed(state, item, down), cands, item, down);
    SameClock(m, state, item, up);
    SameClock(m, state, item, down);
    OutcomesMove(m, state, f);
  }

  lemma OutcomesMove(m: Maths, state: State, f: FeedState)
    requires Laws(m)
    ensures TrustOf(m, state, f) <= TrustOf(m, state, f.(successes := f.successes + 1))
    ensures TrustOf(m, state, f.(failures := f.failures + 1)) <= TrustOf(m, state, f)
  {
    var p := PriorOf(f);
    MoreSuccess(4.0 * p, 4.0 * (1.0 - p), f.successes as real, f.failures as real, Fading(m, state, f));
  }

  lemma SameClock(m: Maths, state: State, item: Candidate, f: FeedState)
    requires Laws(m) && FeedKey(state, item).Some?
    ensures TrustOf(m, WithFeed(state, item, f), f) == TrustOf(m, state, f)
  {
  }

  /** The longer ago the last outcome, the nearer source_trust is to the trust weight. */
  lemma TrustFades(m: Maths, state: State, cands: seq<Candidate>, item: Candidate, f: FeedState, g: FeedState)
    requires Laws(m) && Fades(m) && FromThat(state, item, f) && f.successes + f.failures > 0
    requires f.lastOutcomeAt.Some? && g.lastOutcomeAt.Some? && g.lastOutcomeAt.value <= f.lastOutcomeAt.value
    requires g == f.(lastOutcomeAt := g.lastOutcomeAt)
    ensures Amid(Feature(m, WithFeed(state, item, g), cands, item, SourceTrust), PriorOf(f),
                 Feature(m, state, cands, item, SourceTrust))
  {
    TrustValue(m, state, cands, item, f);
    TrustValue(m, WithFeed(state, item, g), cands, item, g);
    var p, s, n := PriorOf(f), f.successes, f.failures;
    PriorShare(p);
    OlderFeed(state, f, g);
    TrustFadesToPrior(m, s, n, 4.0 * p, 4.0 * (1.0 - p), DaysSince(state, f) as real, DaysSince(state, g) as real);
    assert || AtLeastAsGood(4.0 * p, 4.0 * (1.0 - p), s as real, n as real)
           || AtLeastAsGood(s as real, n as real, 4.0 * p, 4.0 * (1.0 - p));
  }

  lemma OlderFeed(state: State, f: FeedState, g: FeedState)
    requires f.lastOutcomeAt.Some? && g.lastOutcomeAt.Some? && g.lastOutcomeAt.value <= f.lastOutcomeAt.value
    ensures DaysSince(state, f) <= DaysSince(state, g)
  {
    Floors(state.now - f.lastOutcomeAt.value, state.now - g.lastOutcomeAt.value);
  }

  lemma Floors(x: int, y: int)
    requires x <= y
    ensures x / 86_400_000_000 <= y / 86_400_000_000
  {
  }

  /** What the note says: the feed's name, and from three outcomes on how many of a hundred were finished. */
  lemma TrustNote(m: Maths, state: State, cands: seq<Candidate>, item: Candidate, f: FeedState)
    requires Laws(m) && FromThat(state, item, f) && SourceTrust in Evidenced(m, state, cands, item)
    ensures NoteOf(m, state, cands, item, SourceTrust)
         == if f.successes + f.failures >= 3
            then Some(FromFeedFinished(f.name, Round(f.successes as real / (f.successes + f.failures) as real * 100.0)))
            else Some(FromFeed(f.name))
  {
    assert FeedOf(state, item) == Some(f);
  }

  // ------------------------------------------------------------------ content quality

  /** Short below 200 words, long from 2000 on. */
  function LengthPart(words: int): real {
    if words < 200 then 0.09 else if words < 2000 then 0.315 else 0.3825
  }

  /** Quality before completions: the parts for length, sources, depth and originality, kept in [0, 1]. */
  lemma RawQualityIs(item: Candidate)
    ensures var depth := if item.contentDepth.Some? then item.contentDepth.value else 0.5;
            RawQuality(item) == Clamp01(LengthPart(item.words) + (if item.hasCitations then 0.12 else 0.04)
                                        + depth / 4.0 + if item.isOriginal then 0.1 else 0.0)
  {
  }

  /** A completed and opened row of the same length class: below 400 words, below 1500, or longer. */
  predicate SameClass(x: int, y: int) {
    (x < 400 <==> y < 400) && (x < 1500 <==> y < 1500)
  }

  predicate CountsFor(r: HistoryRow, words: int) {
    r.completion.Some? && r.openedAt.Some? && SameClass(r.words, words)
  }

  function SumCompletions(history: seq<HistoryRow>, words: int): real {
    if history == [] then 0.0
    else
      (if CountsFor(history[0], words) then history[0].completion.value else 0.0) + SumCompletions(history[1..], words)
  }

  lemma {:induction false} BucketIs(history: seq<HistoryRow>, words: int)
    ensures |BucketCompletions(history, LengthBucket(words))|
         == CountIf(history, (r: HistoryRow) => CountsFor(r, words))
    ensures Sum(BucketCompletions(history, LengthBucket(words))) == SumCompletions(history, words)
  {
    if history != [] {
      BucketIs(history[1..], words);
      var rest := BucketCompletions(history[1..], LengthBucket(words));
      var all := BucketCompletions(history, LengthBucket(words));
      assert all == if CountsFor(history[0], words) then [history[0].completion.value] + rest else rest;
    }
  }

  predicate IsMean(mean: real, n: nat, total: real) {
    mean * n as real == total
  }

  /** content_quality: always there; from three readings of the length class on, three tenths of it is their
      mean completion. */
  lemma QualityIs(m: Maths, state: State, cands: seq<Candidate>, item: Candidate)
    requires Laws(m)
    ensures ContentQuality in Evidenced(m, state, cands, item)
    ensures var n := CountIf(state.history, (r: HistoryRow) => CountsFor(r, item.words));
            if n >= 3
            then exists mean :: IsMean(mean, n, SumCompletions(state.history, item.words))
                   && Feature(m, state, cands, item, ContentQuality) == Clamp01(0.7 * RawQuality(item) + 0.3 * mean)
            else Feature(m, state, cands, item, ContentQuality) == RawQuality(item)
    ensures NoteOf(m, state, cands, item, ContentQuality)
         == if item.readingMinutes >= 8 then Some(InDepthRead(item.readingMinutes)) else None
  {
    BucketIs(state.history, item.words);
    var completions := BucketCompletions(state.history, LengthBucket(item.words));
    if |completions| >= 3 {
      RatioTimes(Sum(completions), |completions| as real);
      var mean := Ratio(Sum(completions), |completions| as real);
      assert IsMean(mean, |completions|, SumCompletions(state.history, item.words));
      assert BucketMean(state.history, LengthBucket(item.words)) == Some(mean);
    }
  }

  // ------------------------------------------------------------------ temporal context

  /** When an item counts as published: its date, else when it was fetched, else now. */
  function Dated(state: State, item: Candidate): int {
    if item.publishedAt.Some? then item.publishedAt.value
    else if item.fetchedAt.Some? then item.fetchedAt.value
    else state.now
  }

  /** Another or the same candidate on one event with v: cosine 0.85 or more. */
  predicate SameStory(c: Candidate, v: Vec) {
    c.vector.Some? && |c.vector.value| == |v| && Dot(c.vector.value, v) >= 0.85
  }

  /** A reading of that event in the last 72 hours. */
  predicate ReadStory(r: HistoryRow, v: Vec, now: int) {
    Fits(r, v) && r.openedAt.Some? && r.openedAt.value >= now - 259_200_000_000 && Dot(r.vector.value, v) >= 0.85
  }

  lemma {:induction false} StoriesAre(cands: seq<Candidate>, v: Vec)
    requires |v| > 0
    ensures CountSameEvent(cands, |v|, v) == CountIf(cands, (c: Candidate) => SameStory(c, v))
  {
    if cands != [] {
      StoriesAre(cands[1..], v);
    }
  }

  lemma {:induction false} ReadingsAre(history: seq<HistoryRow>, v: Vec, now: int)
    requires |v| > 0
    ensures CountRecentEvents(VectorRows(history, |v|), now - RECENT_EVENT, v)
         == CountIf(history, (r: HistoryRow) => ReadStory(r, v, now))
  {
    if history != [] {
      ReadingsAre(history[1..], v, now);
      if Fits(history[0], v) {
        assert VectorRows(history, |v|)[1..] == VectorRows(history[1..], |v|);
      }
    }
  }

  /** How many items are on an item's event: candidates, itself included, and readings of the last 72 hours. */
  lemma EventCountIs(state: State, cands: seq<Candidate>, item: Candidate, v: Vec)
    requires Has(cands, item, v)
    ensures OnEvent(state, cands, item)
         == CountIf(cands, (c: Candidate) => SameStory(c, v))
            + CountIf(state.history, (r: HistoryRow) => ReadStory(r, v, state.now))
  {
    HasLength(cands, item, v);
    StoriesAre(cands, v);
    ReadingsAre(state.history, v, state.now);
  }

  /** Hours since publication, 0 for the future. */
  function HoursOld(published: int, now: int): real {
    if published >= now then 0.0 else (now - published) as real / 3_600_000_000.0
  }

  /** The weight of an age in days: highest at 28, nothing at 56, and 0.2 before 14 and after 56. */
  function Middle(days: real): real {
    if days < 14.0 || days > 56.0 then 0.2 else if days <= 28.0 then days / 28.0 else 2.0 - days / 28.0
  }

  function AtMostOne(x: real): real {
    if x > 1.0 then 1.0 else x
  }

  /** The blend of long, middle and short memory. */
  function Blend(m: Maths, hours: real, prefersFresh: bool): real {
    var short := AtMostOne(m.exp(0.0 - hours / 72.0));
    0.4 * AtMostOne(m.half(hours / 24.0 / 120.0)) + 0.3 * Middle(hours / 24.0)
      + 0.3 * if prefersFresh then short else 1.0 - 0.55 * short
  }

  lemma HoursAre(published: int, now: int)
    ensures AgeHours(published, now) == HoursOld(published, now) && HoursOld(published, now) >= 0.0
  {
  }

  lemma BlendIs(m: Maths, published: int, now: int, prefersFresh: bool)
    requires Laws(m)
    ensures Freshness(m, published, now, prefersFresh) == Blend(m, HoursOld(published, now), prefersFresh)
  {
    HoursAre(published, now);
    var hours := HoursOld(published, now);
    MiddleIs(hours / 24.0);
  }

  lemma MiddleIs(days: real)
    requires days >= 0.0
    ensures MediumTermWeight(days) == Middle(days)
  {
    assert (days - 28.0) / 28.0 == days / 28.0 - 1.0;
  }

  /** The number of items on an item's event. */
  function OnEvent(state: State, cands: seq<Candidate>, item: Candidate): int {
    SameEventCount(state, cands, VectorRows(state.history, Dim(cands)), UsableVector(item, Dim(cands)))
  }

  /** x is the k-th part of the whole, all of it for at most one. */
  predicate Part(x: real, k: int, whole: real) {
    (k <= 1 ==> x == whole) && (k >= 1 ==> x * k as real == whole)
  }

  lemma CrowdedIs(whole: real, k: int)
    requires 0.0 < whole <= 1.0
    ensures Part(Crowded(whole, k), k, whole)
  {
    if k >= 1 {
      ShareOfOne(whole, k);
    }
    if k <= 1 {
      assert whole * 1.0 == whole;
    }
  }

  lemma SharedBlend(m: Maths, published: int, now: int, k: int, prefersFresh: bool)
    requires Laws(m)
    ensures Part(TemporalScore(m, published, now, k, prefersFresh), k, Blend(m, HoursOld(published, now), prefersFresh))
  {
    BlendIs(m, published, now, prefersFresh);
    FreshnessPositive(m, published, now, prefersFresh);
    CrowdedIs(Freshness(m, published, now, prefersFresh), k);
  }

  lemma TemporalSaid(m: Maths, state: State, item: Candidate, k: int)
    requires Laws(m)
    ensures var hours, e := HoursOld(Dated(state, item), state.now), TemporalEvidence(m, state, item, k);
            && Part(e.value, k, Blend(m, hours, state.prefersFresh))
            && e.note == if hours <= 24.0 then Some(PublishedLastDay) else None
  {
    SharedBlend(m, Dated(state, item), state.now, k, state.prefersFresh);
    HoursAre(Dated(state, item), state.now);
    assert PublishedAt(state, item) == Dated(state, item);
  }

  /** temporal_context: always there; the blend of ages, shared among the items on the event. */
  lemma TemporalIs(m: Maths, state: State, cands: seq<Candidate>, item: Candidate)
    requires Laws(m)
    ensures TemporalContext in Evidenced(m, state, cands, item)
    ensures Part(Feature(m, state, cands, item, TemporalContext), OnEvent(state, cands, item),
                 Blend(m, HoursOld(Dated(state, item), state.now), state.prefersFresh))
    ensures NoteOf(m, state, cands, item, TemporalContext)
         == if HoursOld(Dated(state, item), state.now) <= 24.0 then Some(PublishedLastDay) else None
  {
    TemporalSaid(m, state, item, OnEvent(state, cands, item));
  }

  /** An item without a usable vector stands alone. */
  lemma AloneWithoutVector(state: State, cands: seq<Candidate>, item: Candidate)
    requires UsableVector(item, Dim(cands)).None?
    ensures OnEvent(state, cands, item) == 1
  {
  }

  // ------------------------------------------------------------------ novelty

  /** Another article opened in the last 30 days, with a vector as long as v. */
  predicate Recent(r: HistoryRow, id: int, v: Vec, now: int) {
    r.contentId != id && Fits(r, v) && r.openedAt.Some? && r.openedAt.value >= now - 2_592_000_000_000
  }

  lemma {:induction false} RecentAre(history: seq<HistoryRow>, id: int, v: Vec, now: int)
    requires |v| > 0
    ensures var sims := RecentSimilarities(VectorRows(history, |v|), id, v, now - NOVELTY_WINDOW);
            && |sims| == CountIf(history, (r: HistoryRow) => Recent(r, id, v, now))
            && (forall x :: x in sims <==>
                  exists r :: r in history && Recent(r, id, v, now) && Alike(r.vector.value, v) == x)
  {
    if history != [] {
      RecentAre(history[1..], id, v, now);
      var r := history[0];
      var rest := RecentSimilarities(VectorRows(history[1..], |v|), id, v, now - NOVELTY_WINDOW);
      var sims := RecentSimilarities(VectorRows(history, |v|), id, v, now - NOVELTY_WINDOW);
      if Fits(r, v) {
        assert VectorRows(history, |v|)[1..] == VectorRows(history[1..], |v|);
      }
      assert sims == if Recent(r, id, v, now) then [Alike(r.vector.value, v)] + rest else rest;
      assert forall q :: q in history <==> q == r || q in history[1..];
    }
  }

  /** g is the greatest similarity to a recent reading. */
  ghost predicate IsNearest(history: seq<HistoryRow>, id: int, v: Vec, now: int, g: real) {
    && (forall r :: r in history && Recent(r, id, v, now) ==> Alike(r.vector.value, v) <= g)
    && exists r :: r in history && Recent(r, id, v, now) && Alike(r.vector.value, v) == g
  }

  /** The target distance, 0.35 when none is set. */
  function TargetOf(state: State): real {
    if state.noveltyTarget == 0.0 then 0.35 else state.noveltyTarget
  }

  /** novelty: one less the relative miss of the target distance, not below 0; absent with fewer than three
      recent readings to compare. */
  lemma NoveltyIs(m: Maths, state: State, cands: seq<Candidate>, item: Candidate, v: Vec)
    requires Laws(m) && Has(cands, item, v) && item.id.Some? && state.noveltyTarget >= 0.0
    ensures var id, t := item.id.value, TargetOf(state);
            var x := Feature(m, state, cands, item, Novelty);
            if CountIf(state.history, (r: HistoryRow) => Recent(r, id, v, state.now)) >= 3
            then exists g ::
                   IsNearest(state.history, id, v, state.now, g) && Novelty in Evidenced(m, state, cands, item)
                   && NoveltyFrom(1.0 - g, t, x)
                   && NoteOf(m, state, cands, item, Novelty) == if 1.0 - g >= t then Some(FreshAngle) else None
            else x == 0.5 && Novelty !in Evidenced(m, state, cands, item)
  {
    var id := item.id.value;
    HasLength(cands, item, v);
    RecentAre(state.history, id, v, state.now);
    var sims := RecentSimilarities(VectorRows(state.history, |v|), id, v, state.now - NOVELTY_WINDOW);
    NoveltyEvidenceIs(state, VectorRows(state.history, |v|), id, v);
    NoveltySaid(sims, TargetOf(state));
    if |sims| >= 3 {
      NearestIs(state, id, v, sims);
    }
  }

  /** The evidence from the recent similarities. */
  lemma NoveltySaid(sims: seq<real>, t: real)
    requires t > 0.0
    ensures var e := NoveltyOf(sims, t);
            if |sims| >= 3
            then && e.Some? && NoveltyFrom(1.0 - Greatest(sims), t, e.value.value)
                 && e.value.note == if 1.0 - Greatest(sims) >= t then Some(FreshAngle) else None
            else e == None
  {
    if |sims| >= 3 {
      NoveltyValue(Greatest(sims), t);
    }
  }

  lemma NoveltyEvidenceIs(state: State, rows: seq<HistoryRow>, id: int, v: Vec)
    requires state.noveltyTarget >= 0.0
    ensures NoveltyEvidence(state, rows, Some(id), Some(v))
         == NoveltyOf(RecentSimilarities(rows, id, v, state.now - NOVELTY_WINDOW), TargetOf(state))
  {
  }

  lemma NearestIs(state: State, id: int, v: Vec, sims: seq<real>)
    requires sims != []
    requires forall x :: x in sims <==>
               exists r :: r in state.history && Recent(r, id, v, state.now) && Alike(r.vector.value, v) == x
    ensures IsNearest(state.history, id, v, state.now, Greatest(sims))
  {
    var g := Greatest(sims);
    assert g in sims;
    forall r | r in state.history && Recent(r, id, v, state.now) ensures Alike(r.vector.value, v) <= g {
      assert Alike(r.vector.value, v) in sims;
    }
  }

  /** x is 1 less |distance - t| / t, or 0 when that is negative. */
  predicate NoveltyFrom(distance: real, t: real, x: real) {
    var miss := if distance >= t then distance - t else t - distance;
    if miss <= t then x * t == t - miss else x == 0.0
  }

  lemma NoveltyValue(g: real, t: real)
    requires t > 0.0
    ensures NoveltyFrom(1.0 - g, t, Clamp01(1.0 - Ratio(Abs(1.0 - g - t), t)))
  {
    var miss := Abs(1.0 - g - t);
    var r := Ratio(miss, t);
    RatioTimes(miss, t);
    ShareOfTarget(r, t, miss);
    if miss <= t {
      assert Clamp01(1.0 - r) == 1.0 - r;
    } else {
      assert Clamp01(1.0 - r) == 0.0;
    }
  }

  lemma ShareOfTarget(r: real, t: real, miss: real)
    requires r * t == miss && t > 0.0 && miss >= 0.0
    ensures (1.0 - r) * t == t - miss
    ensures r >= 0.0 && (r <= 1.0 <==> miss <= t)
  {
    CancelFactor(r, 1.0, t);
    CancelFactor(1.0, r, t);
    CancelFactor(0.0, r, t);
  }

  // ------------------------------------------------------------------ the score and its words

  /** The score: each signal's feature times its weight, added up and kept in [0, 1]. */
  lemma PrsIs(m: Maths, state: State, cands: seq<Candidate>, item: Candidate, r: Scored)
    requires Laws(m) && IsScore(m, state, cands, r) && r.item == item
    ensures forall s: Signal :: r.features[s] == Feature(m, state, cands, item, s)
    ensures forall s: Signal :: r.contributions[s] == state.weights(s) * Feature(m, state, cands, item, s)
    ensures var c := r.contributions;
            r.prs == Clamp01(c[Semantic] + c[ReadingDepth] + c[Suggestion] + c[ExplicitFeedback]
                             + c[SourceTrust] + c[ContentQuality] + c[TemporalContext] + c[Novelty])
    ensures forall s: Signal :: s in r.noData <==> s !in Evidenced(m, state, cands, item)
  {
    forall s: Signal ensures r.contributions[s] == state.weights(s) * Feature(m, state, cands, item, s) {
      WeightedIs(state.weights(s), Feature(m, state, cands, item, s));
    }
  }

  /** The words of a signal: its note when it has one, else its stock phrase. */
  function WordsOf(m: Maths, state: State, cands: seq<Candidate>, item: Candidate, s: Signal): Option<Phrase>
    requires Laws(m)
  {
    var note := NoteOf(m, state, cands, item, s);
    if note.Some? then note
    else
      match s
      case ReadingDepth => Some(UsuallyFinish)
      case Suggestion => Some(DiscoveryPick)
      case SourceTrust => Some(FromSourceYouRead)
      case ContentQuality => Some(SubstantialRead)
      case TemporalContext => Some(Timely)
      case _ => None
  }

  lemma WordsAre(m: Maths, state: State, cands: seq<Candidate>, item: Candidate, s: Signal)
    requires Laws(m)
    ensures PhraseFor(s, NotesOf(m, state, cands, item)) == WordsOf(m, state, cands, item, s)
  {
  }

  /** first and second are the evidenced signals with words that contribute most. */
  ghost predicate TopTwo(m: Maths, state: State, cands: seq<Candidate>, r: Scored, first: Signal, second: Signal)
    requires Laws(m)
  {
    var item, have := r.item, Evidenced(m, state, cands, r.item);
    && first != second && first in have && second in have
    && first in r.contributions && second in r.contributions
    && WordsOf(m, state, cands, item, first).Some? && WordsOf(m, state, cands, item, second).Some?
    && r.contributions[first] >= r.contributions[second]
    && forall s: Signal ::
         s in have && s != first && WordsOf(m, state, cands, item, s).Some? && s in r.contributions ==>
         r.contributions[second] >= r.contributions[s]
  }

  /** The explanation: the cold-start text exactly when only quality and time have evidence; else the words of the
      two evidenced signals that contribute most, the greater first, a signal's own note before its stock phrase. */
  lemma ExplanationIs(m: Maths, state: State, cands: seq<Candidate>, r: Scored)
    requires Laws(m) && IsScore(m, state, cands, r)
    ensures r.text == ColdStart <==> Evidenced(m, state, cands, r.item) <= {ContentQuality, TemporalContext}
    ensures r.text.Because? ==> Explained(m, state, cands, r)
  {
    ColdStartIs(m, state, cands, r);
    if r.text.Because? {
      BecauseIs(m, state, cands, r);
    }
  }

  lemma ColdStartIs(m: Maths, state: State, cands: seq<Candidate>, r: Scored)
    requires Laws(m) && IsScore(m, state, cands, r)
    ensures r.text == ColdStart <==> Evidenced(m, state, cands, r.item) <= {ContentQuality, TemporalContext}
  {
    OnlyQualityAndTime(Evidenced(m, state, cands, r.item));
  }

  lemma OnlyQualityAndTime(have: set<Signal>)
    ensures (forall s :: s in have ==> !Learned(s)) <==> have <= {ContentQuality, TemporalContext}
  {
  }

  ghost predicate Explained(m: Maths, state: State, cands: seq<Candidate>, r: Scored)
    requires Laws(m) && r.text.Because?
  {
    exists first, second :: TopTwo(m, state, cands, r, first, second)
      && Some(r.text.parts) == Both(WordsOf(m, state, cands, r.item, first), WordsOf(m, state, cands, r.item, second))
  }

  function Both(x: Option<Phrase>, y: Option<Phrase>): Option<seq<Phrase>> {
    if x.Some? && y.Some? then Some([x.value, y.value]) else None
  }

  lemma AllWordsAre(m: Maths, state: State, cands: seq<Candidate>, item: Candidate)
    requires Laws(m)
    ensures forall s: Signal :: PhraseFor(s, NotesOf(m, state, cands, item)) == WordsOf(m, state, cands, item, s)
  {
    forall s: Signal ensures PhraseFor(s, NotesOf(m, state, cands, item)) == WordsOf(m, state, cands, item, s) {
      WordsAre(m, state, cands, item, s);
    }
  }

  /** s is a strongest signal with words, of those in have. */
  ghost predicate TopOf(m: Maths, state: State, cands: seq<Candidate>, r: Scored, s: Signal, have: set<Signal>)
    requires Laws(m)
  {
    && s in have && s in r.contributions && WordsOf(m, state, cands, r.item, s).Some?
    && forall t: Signal :: t in have && WordsOf(m, state, cands, r.item, t).Some? && t in r.contributions ==>
         r.contributions[s] >= r.contributions[t]
  }

  lemma StrongestIsTopOf(m: Maths, state: State, cands: seq<Candidate>, r: Scored, s: Signal, have: set<Signal>)
    requires Laws(m) && AllSignals(r.contributions)
    requires Strongest(s, have, NotesOf(m, state, cands, r.item), KeyOf(r.contributions))
    ensures TopOf(m, state, cands, r, s, have)
  {
    var notes, key := NotesOf(m, state, cands, r.item), KeyOf(r.contributions);
    AllWordsAre(m, state, cands, r.item);
    forall t: Signal | t in have && WordsOf(m, state, cands, r.item, t).Some? && t in r.contributions
      ensures r.contributions[s] >= r.contributions[t]
    {
      assert PhraseFor(t, notes).Some? && key(s) >= key(t);
    }
  }

  lemma StrongestIsTop(m: Maths, state: State, cands: seq<Candidate>, r: Scored, first: Signal, second: Signal)
    requires Laws(m) && first != second
    requires TopOf(m, state, cands, r, first, Evidenced(m, state, cands, r.item))
    requires TopOf(m, state, cands, r, second, Evidenced(m, state, cands, r.item) - {first})
    ensures TopTwo(m, state, cands, r, first, second)
  {
  }

  lemma BecauseIs(m: Maths, state: State, cands: seq<Candidate>, r: Scored)
    requires Laws(m) && IsScore(m, state, cands, r) && r.text.Because?
    ensures Explained(m, state, cands, r)
  {
    var have, notes := Evidenced(m, state, cands, r.item), NotesOf(m, state, cands, r.item);
    var key := KeyOf(r.contributions);
    var first, second :| first != second && Strongest(first, have, notes, key)
      && Strongest(second, have - {first}, notes, key)
      && r.text.parts == [PhraseFor(first, notes).value, PhraseFor(second, notes).value];
    StrongestIsTopOf(m, state, cands, r, first, have);
    StrongestIsTopOf(m, state, cands, r, second, have - {first});
    StrongestIsTop(m, state, cands, r, first, second);
    WordsAre(m, state, cands, r.item, first);
    WordsAre(m, state, cands, r.item, second);
  }

  /** round(): the nearest whole number, the even one half way. */
  lemma RoundIs(x: real)
    ensures -0.5 <= x - Round(x) as real <= 0.5
    ensures x - Round(x) as real == 0.5 || x - Round(x) as real == -0.5 ==> Round(x) % 2 == 0
  {
    var below := x.Floor;
    assert below as real <= x < below as real + 1.0;
    assert (below + 1) as real == below as real + 1.0;
  }
}
