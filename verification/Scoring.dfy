/** score_candidates: eight signals per candidate, their weighted sum, and the evidence
    each signal had. Explain.dfy turns the evidence into words. */
module Scoring {
  import opened Vectors
  import opened Wrappers
  import opened StableSort
  import opened Contract
  import opened Interests

  const KNN := 15
  const SAME_EVENT_COSINE := 0.85
  const NOVELTY_WINDOW := 30 * DAY
  const RECENT_EVENT := 72 * HOUR

  datatype Signal =
    | Semantic | ReadingDepth | Suggestion | ExplicitFeedback
    | SourceTrust | ContentQuality | TemporalContext | Novelty

  const SIGNALS: seq<Signal> :=
    [Semantic, ReadingDepth, Suggestion, ExplicitFeedback, SourceTrust, ContentQuality, TemporalContext, Novelty]

  datatype HistoryRow = HistoryRow(
    contentId: int, vector: Option<Vec>, words: int, completion: Option<real>, rating: Option<int>,
    reason: Option<string>, saved: bool, skipped: bool, wasSuggested: bool, openedAt: Option<int>, createdAt: int)

  datatype Bridge = Bridge(vector: Vec, a: string, b: string)

  datatype FeedState = FeedState(
    name: string, trustWeight: real, successes: nat, failures: nat, lastOutcomeAt: Option<int>)

  datatype State = State(
    weights: Signal -> real, history: seq<HistoryRow>, interests: seq<Interest>, bridges: seq<Bridge>,
    feeds: map<string, FeedState>, sourceFeedKey: map<int, string>, feedIdKey: map<int, string>,
    prefersFresh: bool, noveltyTarget: real, now: int)

  /** A candidate; vector is its normalised embedding when it has a usable one. */
  datatype Candidate = Candidate(
    id: Option<int>, vector: Option<Vec>, words: int, readingMinutes: int, hasCitations: bool,
    isOriginal: bool, contentDepth: Option<real>, publishedAt: Option<int>, fetchedAt: Option<int>,
    fromDiscovery: bool, sourceId: Option<int>, feedId: Option<int>)

  /** The words a signal may contribute to an explanation. */
  datatype Phrase =
    | ConnectsInterests(a: string, b: string) | MatchesInterest(caption: string)
    | FinishSimilar(percent: int) | UsuallyFinish
    | LikeFinishedDiscoveries | DiscoveryPick
    | SimilarToRatedUp
    | FromFeedFinished(name: string, percent: int) | FromFeed(name: string) | FromSourceYouRead
    | InDepthRead(minutes: int) | SubstantialRead
    | PublishedLastDay | Timely
    | FreshAngle

  /** What a signal says about one candidate, and the note that goes with it. */
  datatype Evidence = Evidence(value: real, note: Option<Phrase>)

  /** Each signal speaks in its own words, so no two signals say the same. */
  predicate OwnWords(s: Signal, p: Phrase) {
    match s
    case Semantic => p.ConnectsInterests? || p.MatchesInterest?
    case ReadingDepth => p.FinishSimilar? || p.UsuallyFinish?
    case Suggestion => p.LikeFinishedDiscoveries? || p.DiscoveryPick?
    case ExplicitFeedback => p.SimilarToRatedUp?
    case SourceTrust => p.FromFeedFinished? || p.FromFeed? || p.FromSourceYouRead?
    case ContentQuality => p.InDepthRead? || p.SubstantialRead?
    case TemporalContext => p.PublishedLastDay? || p.Timely?
    case Novelty => p.FreshAngle?
  }

  /** Evidence is a value in [0, 1] and, maybe, a note in the signal's own words. */
  predicate Sound(s: Signal, e: Evidence) {
    0.0 <= e.value <= 1.0 && (e.note.Some? ==> OwnWords(s, e.note.value))
  }

  predicate SoundIfAny(s: Signal, e: Option<Evidence>) {
    e.Some? ==> Sound(s, e.value)
  }

  // ------------------------------------------------------------------ vectors at hand

  /** The length of the first candidate vector; 0 when there is none. */
  function Dim(cands: seq<Candidate>): nat {
    if cands == [] then 0
    else if cands[0].vector.Some? then |cands[0].vector.value|
    else Dim(cands[1..])
  }

  function UsableVector(c: Candidate, dim: nat): Option<Vec> {
    if c.vector.Some? && dim > 0 && |c.vector.value| == dim then c.vector else None
  }

  /** History rows with a vector of the candidates' dimension. */
  function VectorRows(history: seq<HistoryRow>, dim: nat): seq<HistoryRow> {
    if history == [] then []
    else if history[0].vector.Some? && dim > 0 && |history[0].vector.value| == dim
    then [history[0]] + VectorRows(history[1..], dim)
    else VectorRows(history[1..], dim)
  }

  function Cosine(row: HistoryRow, v: Vec): real {
    if row.vector.Some? && |row.vector.value| == |v| then Dot(row.vector.value, v) else 0.0
  }

  function Similarity(row: HistoryRow, v: Vec): real {
    Clip(Cosine(row, v), 0.0, 1.0)
  }

  // ------------------------------------------------------------------ semantic

  function DotOr0(u: Vec, v: Vec): real {
    if |u| == |v| then Dot(u, v) else 0.0
  }

  function Ratio(x: real, y: real): real
    requires y != 0.0
  {
    x / y
  }

  function Weighted(w: real, x: real): real {
    w * x
  }

  function Top(interests: seq<Interest>): seq<Interest> {
    if |interests| < 3 then interests else interests[..3]
  }

  function Importances(top: seq<Interest>): seq<real> {
    if top == [] then [] else [top[0].importance] + Importances(top[1..])
  }

  /** The cosine, weighted by the interest's importance relative to the most important one's. */
  function InterestScore(it: Interest, v: Vec, most: real): real
    requires most != 0.0
  {
    Weighted(Clip(DotOr0(it.vector, v), 0.0, 1.0), Ratio(it.importance, most))
  }

  function InterestScores(interests: seq<Interest>, v: Vec): (scores: seq<real>)
    requires interests != []
    ensures scores != []
  {
    var top := Top(interests);
    var most := Max(Greatest(Importances(top)), 0.00000001);
    seq(|top|, k requires 0 <= k < |top| => InterestScore(top[k], v, most))
  }

  function BridgeScores(bridges: seq<Bridge>, v: Vec): seq<real> {
    seq(|bridges|, k requires 0 <= k < |bridges| => Clip(DotOr0(bridges[k].vector, v), 0.0, 1.0))
  }

  /** The bridge that beats the best interest by more than 0.02, if any. */
  function WinningBridge(state: State, v: Vec, score: real): Option<nat> {
    if state.bridges == [] || |state.bridges[0].vector| != |v| then None
    else
      var scores := BridgeScores(state.bridges, v);
      if scores[FirstMax(scores)] > score + 0.02 then Some(FirstMax(scores)) else None
  }

  function SemanticEvidence(state: State, v: Option<Vec>): (e: Option<Evidence>)
    ensures SoundIfAny(Semantic, e)
  {
    if v.None? || state.interests == [] || |state.interests[0].vector| != |v.value| then None
    else
      var scores := InterestScores(state.interests, v.value);
      var best := FirstMax(scores);
      var bridge := WinningBridge(state, v.value, scores[best]);
      if bridge.Some? then
        Some(Evidence(Clamp01(BridgeScores(state.bridges, v.value)[bridge.value]),
                      Some(ConnectsInterests(state.bridges[bridge.value].a, state.bridges[bridge.value].b))))
      else
        var caption := state.interests[best].caption;
        Some(Evidence(Clamp01(scores[best]), if caption == "" then None else Some(MatchesInterest(caption))))
  }

  // ------------------------------------------------------------------ reading depth

  /** One history row as seen by the kNN vote: s == -1 when the row is masked out. */
  datatype Vote = Vote(s: real, completion: real)

  predicate Keeps(row: HistoryRow, id: int) {
    row.contentId != id
  }

  function VoteOf(row: HistoryRow, id: int, v: Vec): Vote {
    if Keeps(row, id) && row.completion.Some? then Vote(Similarity(row, v), row.completion.value) else Vote(-1.0, 0.0)
  }

  function Votes(rows: seq<HistoryRow>, id: int, v: Vec): (votes: seq<Vote>)
    ensures |votes| == |rows|
  {
    if rows == [] then [] else [VoteOf(rows[0], id, v)] + Votes(rows[1..], id, v)
  }

  const ByVote: Vote -> real := (vote: Vote) => vote.s

  function Cut(s: seq<Vote>, k: nat): seq<Vote> {
    if |s| <= k then s else s[..k]
  }

  function Positive(s: seq<Vote>): seq<Vote> {
    if s == [] then [] else if s[0].s > 0.0 then [s[0]] + Positive(s[1..]) else Positive(s[1..])
  }

  /** argsort(-s)[:15], then only s > 0. */
  function Neighbours(votes: seq<Vote>): seq<Vote> {
    Positive(Cut(SortDesc(ByVote, votes), KNN))
  }

  function CountUnmasked(rows: seq<HistoryRow>, id: int): nat {
    if rows == [] then 0
    else (if Keeps(rows[0], id) && rows[0].completion.Some? then 1 else 0) + CountUnmasked(rows[1..], id)
  }

  function TotalWeight(votes: seq<Vote>): real {
    if votes == [] then 0.0 else votes[0].s + TotalWeight(votes[1..])
  }

  function WeightedCompletion(votes: seq<Vote>): real {
    if votes == [] then 0.0 else Weighted(votes[0].s, votes[0].completion) + WeightedCompletion(votes[1..])
  }

  const DAMPING := 0.00000001

  function DampedMean(votes: seq<Vote>): real
    requires TotalWeight(votes) + DAMPING != 0.0
  {
    Ratio(WeightedCompletion(votes), TotalWeight(votes) + DAMPING)
  }

  /** shrink * mean + (1 - shrink) * NEUTRAL, with shrink = w / (w + 2). */
  function Shrunken(w: real, mean: real): real
    requires w + 2.0 != 0.0
  {
    (w / (w + 2.0)) * mean + (1.0 - w / (w + 2.0)) * NEUTRAL
  }

  lemma {:induction false} PositiveWeight(votes: seq<Vote>)
    ensures TotalWeight(Positive(votes)) >= 0.0
    ensures Positive(votes) != [] ==> TotalWeight(Positive(votes)) > 0.0
  {
    if votes != [] {
      PositiveWeight(votes[1..]);
    }
  }

  function DepthOf(near: seq<Vote>): (e: Option<Evidence>)
    requires TotalWeight(near) >= 0.0
    ensures SoundIfAny(ReadingDepth, e)
  {
    if near == [] then None
    else
      var mean := DampedMean(near);
      Some(Evidence(Clamp01(Shrunken(TotalWeight(near), mean)), Some(FinishSimilar(Round(mean * 100.0)))))
  }

  function ReadingDepthEvidence(rows: seq<HistoryRow>, id: Option<int>, v: Option<Vec>): (e: Option<Evidence>)
    ensures SoundIfAny(ReadingDepth, e)
  {
    if rows == [] || id.None? || v.None? || CountUnmasked(rows, id.value) < 3 then None
    else
      var votes := Votes(rows, id.value, v.value);
      PositiveWeight(Cut(SortDesc(ByVote, votes), KNN));
      DepthOf(Neighbours(votes))
  }

  // ------------------------------------------------------------------ suggestion

  function IsSuccess(row: HistoryRow): bool {
    || (row.rating.Some? && row.rating.value > 0)
    || row.saved
    || (row.completion.Some? && row.completion.value >= 0.6)
  }

  function CountSuggested(history: seq<HistoryRow>, finished: bool): nat {
    if history == [] then 0
    else
      var hit := history[0].wasSuggested && history[0].openedAt.Some? && (finished ==> IsSuccess(history[0]));
      (if hit then 1 else 0) + CountSuggested(history[1..], finished)
  }

  function SuggestionEvidence(state: State, item: Candidate): (e: Option<Evidence>)
    ensures SoundIfAny(Suggestion, e)
  {
    if !item.fromDiscovery then None
    else
      var good, all := CountSuggested(state.history, true), CountSuggested(state.history, false);
      Some(Evidence(Clamp01((2.0 + good as real) / (3.0 + all as real)),
                    if good > 0 then Some(LikeFinishedDiscoveries) else None))
  }

  // ------------------------------------------------------------------ explicit feedback

  function RatingSign(row: HistoryRow): int {
    if row.rating.None? || row.rating.value == 0 then 0 else if row.rating.value > 0 then 1 else -1
  }

  /** Similarities of the kept rows with the given rating sign. */
  function RatedSimilarities(rows: seq<HistoryRow>, id: int, v: Vec, sign: int): seq<real> {
    if rows == [] then []
    else if Keeps(rows[0], id) && RatingSign(rows[0]) == sign
    then [Similarity(rows[0], v)] + RatedSimilarities(rows[1..], id, v, sign)
    else RatedSimilarities(rows[1..], id, v, sign)
  }

  predicate TooBasicSeen(history: seq<HistoryRow>) {
    exists k :: 0 <= k < |history| && RatingSign(history[k]) < 0 && history[k].reason == Some("too_basic")
  }

  /** A shallow item, and something was rated down as too basic. */
  predicate Shallow(history: seq<HistoryRow>, item: Candidate) {
    TooBasicSeen(history) && item.contentDepth.Some? && item.contentDepth.value < 0.4
  }

  function FeedbackEvidence(state: State, rows: seq<HistoryRow>, item: Candidate, v: Option<Vec>): (e: Option<Evidence>)
    ensures SoundIfAny(ExplicitFeedback, e)
  {
    if rows == [] || item.id.None? || v.None? then None
    else
      FeedbackOf(RatedSimilarities(rows, item.id.value, v.value, 1),
                 RatedSimilarities(rows, item.id.value, v.value, -1), Shallow(state.history, item))
  }

  /** From the similarities to what was rated up and down. */
  function FeedbackOf(up: seq<real>, down: seq<real>, shallow: bool): (e: Option<Evidence>)
    ensures SoundIfAny(ExplicitFeedback, e)
  {
    if up == [] && down == [] then None
    else
      var p := if up == [] then 0.0 else Greatest(up);
      var n := if down == [] then 0.0 else Greatest(down);
      var value := 0.5 + 0.5 * p - 0.5 * n - (if shallow then 0.1 else 0.0);
      Some(Evidence(Clamp01(value), if p >= n && p > 0.5 then Some(SimilarToRatedUp) else None))
  }

  // ------------------------------------------------------------------ source trust

  function FeedOf(state: State, item: Candidate): Option<FeedState> {
    var bySource := if item.sourceId.Some? && item.sourceId.value in state.sourceFeedKey
                    then Some(state.sourceFeedKey[item.sourceId.value]) else None;
    var key := if bySource.None? && item.feedId.Some? && item.feedId.value in state.feedIdKey
               then Some(state.feedIdKey[item.feedId.value]) else bySource;
    if key.Some? && key.value != "" && key.value in state.feeds then Some(state.feeds[key.value]) else None
  }

  function TrustEvidence(m: Maths, state: State, item: Candidate): (e: Option<Evidence>)
    requires Laws(m)
    ensures SoundIfAny(SourceTrust, e)
  {
    var feed := FeedOf(state, item);
    if feed.None? then None
    else
      var f := feed.value;
      var outcomes := f.successes + f.failures;
      if outcomes == 0 && Abs(f.trustWeight - 0.5) <= 0.06 then None
      else
        var ageDays := if f.lastOutcomeAt.Some? then ((state.now - f.lastOutcomeAt.value) / DAY) as real else 0.0;
        var prior := Clamp01(f.trustWeight);
        var note := if outcomes >= 3
                    then FromFeedFinished(f.name, Round(f.successes as real / outcomes as real * 100.0))
                    else FromFeed(f.name);
        Some(Evidence(BetaMean(m, f.successes, f.failures, 4.0 * prior, 4.0 * (1.0 - prior), ageDays), Some(note)))
  }

  // ------------------------------------------------------------------ content quality

  function BucketCompletions(history: seq<HistoryRow>, bucket: int): seq<real> {
    if history == [] then []
    else if history[0].completion.Some? && history[0].openedAt.Some? && LengthBucket(history[0].words) == bucket
    then [history[0].completion.value] + BucketCompletions(history[1..], bucket)
    else BucketCompletions(history[1..], bucket)
  }

  function Sum(xs: seq<real>): real {
    if xs == [] then 0.0 else xs[0] + Sum(xs[1..])
  }

  /** A missing depth counts as 0.5. */
  function DepthOrHalf(item: Candidate): real {
    if item.contentDepth.Some? then item.contentDepth.value else 0.5
  }

  /** Quality before the reader's completions of that length come in. */
  function RawQuality(item: Candidate): (r: real)
    ensures 0.0 <= r <= 1.0
  {
    var length := if item.words < 200 then 0.2 else if item.words < 2000 then 0.7 else 0.85;
    var density := if item.hasCitations then 0.6 else 0.2;
    var original := if item.isOriginal then 0.1 else 0.0;
    Clamp01(0.45 * length + 0.2 * density + 0.25 * DepthOrHalf(item) + original)
  }

  function Quality(item: Candidate, bucketCompletion: Option<real>): (r: real)
    ensures 0.0 <= r <= 1.0
  {
    if bucketCompletion.None? then RawQuality(item)
    else Clamp01(0.7 * RawQuality(item) + 0.3 * bucketCompletion.value)
  }

  /** The mean completion of a length bucket, from three readings on. */
  function BucketMean(history: seq<HistoryRow>, bucket: int): Option<real> {
    var completions := BucketCompletions(history, bucket);
    if |completions| >= 3 then Some(Ratio(Sum(completions), |completions| as real)) else None
  }

  function QualityEvidence(state: State, item: Candidate): (e: Evidence)
    ensures Sound(ContentQuality, e)
  {
    Evidence(Quality(item, BucketMean(state.history, LengthBucket(item.words))),
             if item.readingMinutes >= 8 then Some(InDepthRead(item.readingMinutes)) else None)
  }

  // ------------------------------------------------------------------ temporal context

  function PublishedAt(state: State, item: Candidate): int {
    if item.publishedAt.Some? then item.publishedAt.value
    else if item.fetchedAt.Some? then item.fetchedAt.value
    else state.now
  }

  predicate SameEvent(c: Candidate, dim: nat, v: Vec) {
    UsableVector(c, dim).Some? && DotOr0(UsableVector(c, dim).value, v) >= SAME_EVENT_COSINE
  }

  function CountSameEvent(cands: seq<Candidate>, dim: nat, v: Vec): nat {
    if cands == [] then 0 else (if SameEvent(cands[0], dim, v) then 1 else 0) + CountSameEvent(cands[1..], dim, v)
  }

  function CountRecentEvents(rows: seq<HistoryRow>, cut: int, v: Vec): nat {
    if rows == [] then 0
    else
      var hit := Cosine(rows[0], v) >= SAME_EVENT_COSINE && ReadRecently(rows[0], cut);
      (if hit then 1 else 0) + CountRecentEvents(rows[1..], cut, v)
  }

  /** Items on the same event: the other candidates plus what was opened in 72 hours. */
  function SameEventCount(state: State, cands: seq<Candidate>, rows: seq<HistoryRow>, v: Option<Vec>): int {
    if v.None? then 1
    else CountSameEvent(cands, Dim(cands), v.value) + CountRecentEvents(rows, state.now - RECENT_EVENT, v.value)
  }

  function TemporalEvidence(m: Maths, state: State, item: Candidate, sameEvent: int): (e: Evidence)
    ensures Sound(TemporalContext, e)
  {
    var published := PublishedAt(state, item);
    Evidence(TemporalScore(m, published, state.now, sameEvent, state.prefersFresh),
             if AgeHours(published, state.now) <= 24.0 then Some(PublishedLastDay) else None)
  }

  // ------------------------------------------------------------------ novelty

  predicate ReadRecently(row: HistoryRow, cut: int) {
    row.openedAt.Some? && row.openedAt.value >= cut
  }

  function RecentSimilarities(rows: seq<HistoryRow>, id: int, v: Vec, cut: int): seq<real> {
    if rows == [] then []
    else if Keeps(rows[0], id) && ReadRecently(rows[0], cut)
    then [Similarity(rows[0], v)] + RecentSimilarities(rows[1..], id, v, cut)
    else RecentSimilarities(rows[1..], id, v, cut)
  }

  function NoveltyEvidence(state: State, rows: seq<HistoryRow>, id: Option<int>, v: Option<Vec>): (e: Option<Evidence>)
    ensures SoundIfAny(Novelty, e)
  {
    if rows == [] || id.None? || v.None? then None
    else
      var target := if state.noveltyTarget == 0.0 then 0.35 else state.noveltyTarget;
      NoveltyOf(RecentSimilarities(rows, id.value, v.value, state.now - NOVELTY_WINDOW), target)
  }

  function NoveltyOf(near: seq<real>, target: real): (e: Option<Evidence>)
    requires target != 0.0
    ensures SoundIfAny(Novelty, e)
  {
    if |near| < 3 then None
    else
      var novelty := 1.0 - Greatest(near);
      Some(Evidence(Clamp01(1.0 - Ratio(Abs(novelty - target), target)),
                    if novelty >= target then Some(FreshAngle) else None))
  }

  // ------------------------------------------------------------------ one candidate

  function EvidenceFor(m: Maths, state: State, cands: seq<Candidate>, item: Candidate,
                       signal: Signal): (e: Option<Evidence>)
    requires Laws(m)
    ensures SoundIfAny(signal, e)
  {
    var dim := Dim(cands);
    var rows := VectorRows(state.history, dim);
    var v := UsableVector(item, dim);
    match signal
    case Semantic => SemanticEvidence(state, v)
    case ReadingDepth => ReadingDepthEvidence(rows, item.id, v)
    case Suggestion => SuggestionEvidence(state, item)
    case ExplicitFeedback => FeedbackEvidence(state, rows, item, v)
    case SourceTrust => TrustEvidence(m, state, item)
    case ContentQuality => Some(QualityEvidence(state, item))
    case TemporalContext => Some(TemporalEvidence(m, state, item, SameEventCount(state, cands, rows, v)))
    case Novelty => NoveltyEvidence(state, rows, item.id, v)
  }

  function Feature(m: Maths, state: State, cands: seq<Candidate>, item: Candidate, signal: Signal): real
    requires Laws(m)
  {
    var e := EvidenceFor(m, state, cands, item, signal);
    if e.Some? then e.value.value else NEUTRAL
  }

  predicate AllSignals(f: map<Signal, real>) {
    forall s: Signal :: s in f
  }

  /** The features of a candidate, NEUTRAL where a signal has no data. */
  function Features(m: Maths, state: State, cands: seq<Candidate>, item: Candidate): (f: map<Signal, real>)
    requires Laws(m)
    ensures AllSignals(f)
  {
    map s: Signal :: Feature(m, state, cands, item, s)
  }

  /** The signals that had something to go on. */
  function Evidenced(m: Maths, state: State, cands: seq<Candidate>, item: Candidate): set<Signal>
    requires Laws(m)
  {
    set s: Signal | EvidenceFor(m, state, cands, item, s).Some?
  }

  function Contributions(weights: Signal -> real, f: map<Signal, real>): (c: map<Signal, real>)
    requires AllSignals(f)
    ensures AllSignals(c)
  {
    map s: Signal :: Weighted(weights(s), f[s])
  }

  function Total(c: map<Signal, real>): real
    requires AllSignals(c)
  {
    c[Semantic] + c[ReadingDepth] + c[Suggestion] + c[ExplicitFeedback]
      + c[SourceTrust] + c[ContentQuality] + c[TemporalContext] + c[Novelty]
  }

  function Prs(m: Maths, state: State, cands: seq<Candidate>, item: Candidate): real
    requires Laws(m)
  {
    Clamp01(Total(Contributions(state.weights, Features(m, state, cands, item))))
  }
}
