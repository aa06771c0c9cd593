# Weirling: a verified model of the ranking engine and its protocols

This project models the parts of Weirling (a reading digest with a learned, explained ranking) whose
correctness does not follow from reading one function, and proves what they promise. To verify it:
`dafny verify dfyconfig.toml`.

**The ranking engine.**

- `Vectors.dfy`, `Linkage.dfy`: average linkage from first principles. Clusters are joined closest pair first,
  and the distance of two clusters is the mean over all pairs of members. Runs, dendrogram, partition and cohesion
  are proved here.
- `Clustering.dfy`: the in-place Lance-Williams loop on a distance matrix with sizes, members and an active mask.
  It is proved to compute exactly the run of `Linkage.dfy`; the matrix holds the exact averages at every iteration.
- `StableSort.dfy`, `Interests.dfy`: the 80 most important vectors are clustered, and each cluster becomes its medoid,
  found by one dot product per member, with the summed importance.
- `Contract.dfy`, `Scoring.dfy`: the arithmetic and the eight signals. `SignalLaws.dfy` says which way each moves;
  `SignalValues.dfy` and `ScoreValues.dfy` say in plain numbers, from the stored rows, what every signal, the score and
  the explanation are.
- `Explain.dfy`, `Ranking.dfy`, `LeaveOneOut.dfy`, `NeighbourTies.dfy`: the explanation, the scored list, crowding, order
  independence, what of an item's own history can reach its score, and what the order of tied neighbours changes.

**Counters and protocols.** `Quotas.dfy` steps concurrent quota calls (takes, newsletters, batches of summaries) one
Redis operation at a time, each key built before its operation is on its way; `QuotaCaps.dfy` says exactly which daily
caps hold and reaches the bounds of the others. `Migrate.dfy` interleaves N replicas with every kind of failure. `RateLimit.dfy` holds the
fixed-window limiter and the hourly signup cap. `Alerts.dfy` is the alert task over whole runs.

**State that agrees with a simple specification.** `EmbeddingCache.dfy`, `SharedFeeds.dfy` (migration 0025 and its
preview), `ContentLookup.dfy` (private and public rows), `Interactions.dfy`, `InteractionHistory.dfy` and
`ReasonEffects.dfy` (both writers of an interaction row, what a row and its events are by the operations alone, and the
weights a reason changes) and `Push.dfy` (base64url and the Web Push record).

## Reading the model

Floats are reals, so rounding and NaN do not occur. Times are whole microseconds, milliseconds or seconds, as each file
says. `sqrt`, `exp` and `0.5 ** x` are functions passed in with the laws that are needed; so are the cryptographic
primitives, the cache key and the encoder. A database table is a sequence or a map of rows, a Redis hash or counter a
map. Where the code leaves an order open (iteration over a Python set, the row kept by `DISTINCT ON` among equals) the
model leaves it open too: it takes the order as a parameter, or states only what every order satisfies. The
neighbours of `reading_depth` are first taken with equal similarities in row order; NumPy does not fix that order, and
`NeighbourTies.dfy` covers every order.

Every method is proved against a specification function or predicate named in its `ensures`, and the theorems are
lemmas about that specification.

## What the proofs found

- The fixed window admits at most `2 * max_requests - 1` calls in any interval of one window length, not
  `2 * max_requests`, because the call that opens a window is always admitted and lies outside any interval that
  reaches the next window. The bound is reached for every limit (`RateLimit.BoundIsReached`).
- `reading_depth` does not always lie between the neutral value and the neighbours' mean: the divisor
  `w.sum() + 1e-8` pulls the mean towards 0. It lies between neutral and the damped mean, and between neutral and the
  true mean exactly when the damped mean is at least 0.5, or the true mean is below 0.5 by at least half of `1e-8` times
  the damped mean (`LeaveOneOut.DepthBetween`); three neighbours read exactly half way miss both
  (`LeaveOneOut.DampingSeen`).
- The item's own rows are left out of `reading_depth` and `novelty`, but they reach two other signals.
  `temporal_context` leaves one out exactly when no own row is a reading of the same event in the last 72 hours
  (`LeaveOneOut.TemporalLeavesOneOutExactly`; one such reading halves the score, `LeaveOneOut.OwnReadingCrowds`).
  `explicit_feedback` shows an own "too_basic" reason exactly when it is the only such reason, the item is below depth
  0.4 and the other ratings do not decide the value (`LeaveOneOut.FeedbackLeavesOneOutExactly`, `LeaveOneOut.OwnReasonShows`).
- Rating an article up can lower another item's `explicit_feedback`: exactly when it is the first rating that counts, the
  item is shallow with a "too_basic" reason about, and the two are less than 0.2 alike (`SignalLaws.RatedUpLowersExactly`).
- A longer, richer piece can score lower on `content_quality`, because the length picks the bucket of past completions:
  one word can cost 0.3 (`SignalLaws.OneWordMore`). It never does exactly when both pieces are in one length bucket
  (`SignalLaws.RicherScoresHigherExactly`): completions are stored as posted, without a range. For readers with completions
  in [0, 1] a large enough lead in raw quality is also safe (`SignalLaws.RicherForProperReaders`).
- The mean behind `reading_depth` depends on how the sort leaves ties exactly when neighbours tied across the cut at 15
  have different completions (`NeighbourTies.TiesMatterExactly`).
- Crowding is monotone, and the order of the candidates irrelevant, exactly as long as the item's vector stays as usable
  as it was: the first vector of a list decides which dimension counts (`Ranking.CrowdingExactly`, `Ranking.OrderExactly`).
- `medium_term_weight` is described as a triangular peak around 28 days, but it falls to 0 at 56 days and is 0.2 after
  that (`Contract.MediumTermDip`).
- `newsletter_allowed` gives a newsletter back on the counter of the day on which it gives it back. Across midnight the
  old day keeps the charge and the new day gains one, so a day can grant as many too many as give-backs strayed onto it;
  that bound is reached for every number of strays (`QuotaCaps.StraysReachBound`).
- Summaries are not taken but checked first and recorded later. A day's summaries exceed the allowance by at most the
  others on their way when a batch is admitted, plus what crossed over from another day (`Quotas.SummariesWithinCrowd`);
  the first is reached within one day for every crowd (`QuotaCaps.CrowdReachesBound`). Batches one at a time within a day
  keep the cap (`Quotas.OneDaySummaries`).
- So a daily cap holds in every run, across midnight too, exactly for a paused account, or for a quota that is taken and
  is not the newsletter count of an account limited in volume as well (`QuotaCaps.CapHoldsExactly`).
- The migration lock lives on one connection and the upgrade runs on another. No two replicas upgrade at once exactly
  unless the lock's session can end under a running upgrade (`Migrate.OneUpgraderExactly`); even then every migration is
  applied once and in order, because a commit from a revision that has moved on fails.
- Exit code 0 can be relied on exactly when `AUTO_MIGRATE` is on (`Migrate.ZeroMeansHeadExactly`).
- The hourly signup cap counts stored accounts, whose creation time is that of their transaction's start. In any stretch
  of an hour less the delay between start and check a domain gets at most `cap - 1` plus the number of signups between
  check and store; that bound is reached. Over a full hour the cap itself holds exactly when signups come one at a time
  and are checked in the instant they begin (`SignupCap.HourCapExactly`); with checks that come later an hour can hold
  twice the cap (`SignupCap.LateChecksDouble`).
- `re_read_count` is commented as counting only articles completed before, but the stored completion has already been
  overwritten when it is compared: a first complete reading counts (`Interactions.FirstReadingCountedAsReread`);
  `Interactions.RereadsCounted` says exactly when an update counts, and `Interactions.GenuineExactly` that what is
  counted follows a complete reading exactly when there has been one anyway.
- The first time kept for an alert is called its first-seen time, but it is that of the first notification that got
  through. It is the first-seen time exactly when the very first notification of the streak gets through
  (`Alerts.FirstSeenExactly`).
- `docs/signals.md` says the stored score can differ from the sum of the contributions because of the clamp. With
  non-negative weights of at most 1 in all it cannot (`Ranking.FaithfulBreakdown`).

## Model

| member | source | states |
|---|---|---|
| Clustering.AverageLinkage | backend/weirling_rank/ranker.py:69-100 | the in-place clustering returns exactly the clusters of the naive algorithm: repeatedly join the pair with the least mean distance (first in row-major order), stop above the threshold; it terminates for all inputs |
| Clustering.MergeUntil | backend/weirling_rank/ranker.py:83-99 | the while loop keeps the matrix, sizes, members and mask in step with the clusters and ends with all surviving pairs further apart than the threshold |
| Clustering.ArgMin | backend/weirling_rank/ranker.py:84-88 | the masked argmin is the least entry, and every entry before it in row-major order is strictly greater |
| Clustering.RowMajor | backend/weirling_rank/ranker.py:85-86 | the order of positions used there is that of their places in the flattened matrix |
| Clustering.ClosestPair | backend/weirling_rank/ranker.py:84-88 | a finite minimum names the closest pair of live clusters with i < j, so the index swap never fires; a minimum above t separates all clusters by more than t |
| Clustering.MergeRows | backend/weirling_rank/ranker.py:91-96 | one Lance-Williams update leaves in every cell the exact mean distance of the joined clusters, and infinity on the diagonal and in merged rows |
| Clustering.Merging | backend/weirling_rank/ranker.py:91-99 | one whole merge keeps matrix, sizes, members and mask exact, and one cluster fewer is active |
| Clustering.MergedEntryExact | backend/weirling_rank/ranker.py:91 | the size-weighted blend of two rows equals the mean over all pairs with the joined cluster |
| Linkage.MeanOfMerge | backend/weirling_rank/ranker.py:91 | the mean distance from A ∪ B to C is the size-weighted mean of the distances from A and from B |
| Linkage.JoinKeepsDistance | backend/weirling_rank/ranker.py:83-97 | after joining the closest pair no two clusters are closer than that pair was |
| Linkage.HeightsAscend | backend/weirling_rank/ranker.py:83-97 | merge heights never decrease along a run |
| Linkage.ClusteringUnique | backend/weirling_rank/ranker.py:69-100 | the clusters at a threshold are determined, ties included, so equality with the naive algorithm pins down the result |
| Linkage.LowerThresholdRefines | backend/weirling_rank/ranker.py:87-100 | for t <= u the run at t is a prefix of the run at u, the extra merges have heights in (t, u], and every cluster at t lies inside one at u |
| Linkage.CutPartitions | backend/weirling_rank/ranker.py:81-100 | the returned clusters are a partition of 0..n-1, each keyed by its least member |
| Linkage.CutCohesive | backend/weirling_rank/ranker.py:87-98 | inside every returned cluster the mean distance over all pairs is at most the threshold |
| Linkage.CutSeparated | backend/weirling_rank/ranker.py:87-88 | two returned clusters are further apart, on average, than the threshold |
| Linkage.CohesiveMean | backend/weirling_rank/ranker.py:87-98 | the telescoped excess over the threshold is at most zero exactly when the mean distance is at most the threshold |
| Vectors.UnitDotBound | backend/weirling_rank/ranker.py:78 | the cosine of unit vectors lies in [-1, 1], so the clip changes nothing |
| Interests.DotWithSum | backend/weirling_rank/ranker.py:117-119 | one dot product with the vector sum gives the total cosine distance to a whole group |
| Interests.CentroidNorm | backend/weirling_rank/ranker.py:114-115 | the centroid of m unit vectors with mean distance at most t has squared norm at least 1 - t(m-1)/m |
| Interests.CentroidNotZero | backend/weirling_rank/ranker.py:115-116 | at the built-in threshold the squared norm exceeds 0.55, so the vanishing-centroid branch is never taken |
| Interests.CosineOrder | backend/weirling_rank/ranker.py:117-119 | a larger cosine to the normalised centroid means a smaller total distance to the cluster, and conversely |
| Interests.FastMedoid | backend/weirling_rank/ranker.py:117-120 | the argmax of cosines to the centroid is the first member of least total distance: the O(m) search refines the O(m^2) medoid |
| Interests.ArgMax | backend/weirling_rank/ranker.py:120 | the loop finds the first greatest entry |
| Interests.ModeCaption | backend/weirling_rank/ranker.py:123-124 | a label that no other label outnumbers, and the empty label for a group without labels |
| Interests.InterestFor | backend/weirling_rank/ranker.py:112-125 | every cluster yields an interest: its medoid, the importances of its topics added up, a most frequent label |
| Interests.FindInterests | backend/weirling_rank/ranker.py:111-125 | one interest for each cluster, in order, none skipped |
| Interests.BuildInterests | backend/weirling_rank/ranker.py:103-127 | one medoid for each cluster of the kept vectors, at most 80, sorted by importance, and the importances add up to those of the topics kept |
| Interests.KeptDominates | backend/weirling_rank/ranker.py:109 | the vectors kept are at least as important as every one left out, and something is left out only when 80 are kept |
| Interests.ImportanceConserved | backend/weirling_rank/ranker.py:121-127 | the importances of the interests add up to those of the topics kept, topic by topic: none is lost and none counted twice |
| Interests.GroupsAdd | backend/weirling_rank/ranker.py:122 | a cluster of one topic has that topic's importance, and joining clusters adds |
| Interests.FewAreAllKept | backend/weirling_rank/ranker.py:109 | with at most 80 candidates nothing is left out, and the kept importance is all of it |
| Interests.ClustersInNumbers | backend/weirling_rank/ranker.py:111 | the mean distance is at most 0.45 inside each cluster and more than 0.45 between two |
| Interests.LabelIsMostBorne | backend/weirling_rank/ranker.py:123-124 | no other label is borne by more topics of the cluster; the label is empty exactly when none has one |
| StableSort.SortSorts | backend/weirling_rank/ranker.py:109 | sorting is a permutation in descending key order |
| StableSort.SortStable | backend/weirling_rank/ranker.py:109 | elements with equal keys keep their order |
| Contract.MediumTermDip | backend/weirling_rank/contract.py:99-103 | past day 28 a later day weighs more than an earlier one exactly when day 56 lies between them and the earlier is beyond day 50.4 |
| Contract.SaturationAntitone | backend/weirling_rank/contract.py:106-111 | more items on one event never raise the penalty factor |
| Contract.TemporalAntitone | backend/weirling_rank/contract.py:140-155 | more items on one event never raise the temporal score |
| SignalLaws.SemanticIsBest | backend/weirling_rank/ranker.py:284-302 | the semantic value is at least every top interest's weighted cosine and is one of them or a bridge's cosine: interests are not averaged |
| SignalLaws.BridgesNeverLower | backend/weirling_rank/ranker.py:290-297 | bridges never lower the semantic value |
| SignalLaws.RatedUpLowersExactly | backend/weirling_rank/ranker.py:327-345 | one more article rated up lowers explicit_feedback exactly when it is the first rating that counts, the item is below depth 0.4 with a too_basic reason in the history, and the similarity is below 0.2 |
| SignalLaws.RatedUpLowers | backend/weirling_rank/ranker.py:334-341 | such an up-rating, which takes the signal from neutral to 0.4 |
| SignalLaws.RatedDownNeverRaises | backend/weirling_rank/ranker.py:327-345 | one more article rated down, with any reason, never raises explicit_feedback |
| SignalLaws.TrustFadesToPrior | backend/weirling_rank/contract.py:75-91 | trust lies between the prior and the success rate, and moves towards the prior with age |
| SignalLaws.PosteriorMoves | backend/weirling_rank/contract.py:85-88 | more weight on the outcomes moves the posterior mean monotonically from the prior towards their rate |
| SignalLaws.SuggestionLearns | backend/weirling_rank/ranker.py:320-324 | the discovery value is never clamped, rises with an opened discovery that succeeded and falls with one that did not |
| SignalLaws.NoveltyPeaksAtTarget | backend/weirling_rank/ranker.py:404-412 | novelty is 1 exactly when the distance to the nearest recent reading is the target |
| SignalLaws.RicherScoresHigherExactly | backend/weirling_rank/ranker.py:130-142 | a piece at least as long, cited, deep (0.5 when unknown) and original scores at least as high for every reader, whatever completions are stored, exactly when both are in one length bucket |
| SignalLaws.RicherForProperReaders | backend/weirling_rank/ranker.py:130-142 | for readers all of whose completions lie in [0, 1]: exactly when both are in one length bucket or its raw quality is ahead by more than the bucket share can undo |
| SignalLaws.OneWordMore | backend/weirling_rank/ranker.py:376-378 | pieces of 399 and 400 words, alike otherwise, for a reader whose completions put the longer one 0.3 lower |
| SignalValues.UsableExactly | backend/weirling_rank/ranker.py:206-254 | a candidate's vector is used exactly when it is as long as the first vector among the candidates |
| SignalValues.SemanticIs | backend/weirling_rank/ranker.py:277-302 | the best of the three top interests, each cosine weighed by its share of the greatest importance; a bridge's cosine when it is more than 0.02 better |
| SignalValues.SemanticNoteIs | backend/weirling_rank/ranker.py:287-300 | the note names the two interests of the winning bridge (the first of the greatest cosine), else the label of the best interest (the first of the greatest worth), when it has one |
| SignalValues.SemanticAbsent | backend/weirling_rank/ranker.py:278-283 | silent and neutral without a usable vector or without interests |
| SignalValues.ReadingDepthIs | backend/weirling_rank/ranker.py:304-317 | the weighted mean completion of the 15 most similar other articles, damped by 1e-8 and drawn to 0.5 by two imagined neighbours; absent with fewer than three to compare; the note says that mean in percent |
| SignalValues.ReadingDepthAbsent | backend/weirling_rank/ranker.py:305-307 | silent and neutral without a vector or an id |
| SignalValues.SuggestionIs | backend/weirling_rank/ranker.py:319-324 | two successes of three imagined, plus those counted over the stored rows; the note exactly when there was a success |
| SignalValues.SuggestionAbsent | backend/weirling_rank/ranker.py:320 | silent and neutral for everything but discoveries |
| SignalValues.FeedbackIs | backend/weirling_rank/ranker.py:326-345 | 0.5 plus half the similarity of the closest article rated up, less half that of the closest rated down, less 0.1 for a shallow item with a too_basic reason about, kept in [0, 1]; the note exactly when the closer one was rated up and is more than 0.5 alike |
| SignalValues.FeedbackAbsent | backend/weirling_rank/ranker.py:327-330 | silent and neutral without ratings of others to compare |
| ScoreValues.TrustAbsent | backend/weirling_rank/ranker.py:348-365 | source_trust is silent exactly without a known feed (the key of the source first, then that of the feed id), or for one without outcomes whose trust weight is within 0.06 of 0.5 |
| ScoreValues.TrustIs | backend/weirling_rank/ranker.py:354-366 | source_trust exactly: four imagined readings at the trust weight and the outcomes, whose weight halves every 90 days, as one share of successes |
| ScoreValues.TrustBetween | backend/weirling_rank/ranker.py:354-366 | with outcomes, source_trust lies between the trust weight and the rate of successes |
| ScoreValues.OutcomesMoveTrust | backend/weirling_rank/ranker.py:354-366 | one more success never lowers source_trust and one more failure never raises it |
| ScoreValues.TrustFades | backend/weirling_rank/ranker.py:355-366 | the longer ago the last outcome, the nearer source_trust is to the trust weight |
| ScoreValues.TrustNote | backend/weirling_rank/ranker.py:364-374 | the note names the feed and, from three outcomes on, the successes in percent |
| ScoreValues.RawQualityIs | backend/weirling_rank/ranker.py:130-139 | the parts for length, sources, depth and originality added up, kept in [0, 1] |
| ScoreValues.QualityIs | backend/weirling_rank/ranker.py:376-382 | that quality, of which three tenths give way to the mean completion of the length class from three readings on; the note from eight minutes on |
| ScoreValues.EventCountIs | backend/weirling_rank/ranker.py:388-392 | how many items are on one event: candidates with a cosine of 0.85 or more, and such readings of the last 72 hours |
| ScoreValues.TemporalIs | backend/weirling_rank/ranker.py:384-402 | the blend of the three ages divided by that number; the note within a day |
| ScoreValues.NoveltyIs | backend/weirling_rank/ranker.py:404-414 | one less the relative miss of the target distance (0.35 when none is set), not below 0; absent with fewer than three readings of others in the last 30 days; the note from the target on |
| ScoreValues.PrsIs | backend/weirling_rank/ranker.py:416-423 | every feature times its weight, added up and kept in [0, 1]; the signals without data are those without evidence |
| ScoreValues.WordsAre | backend/weirling_rank/ranker.py:169-176 | a signal's note wins over its stock phrase |
| ScoreValues.ExplanationIs | backend/weirling_rank/ranker.py:157-182 | the cold-start text exactly when only quality and time have evidence, else the words of the two evidenced signals that contribute most, the greater first, each a note before a stock phrase |
| ScoreValues.RoundIs | backend/weirling_rank/ranker.py:317 | percentages are rounded to the nearest whole number, halves to the even one |
| Scoring.EvidenceFor | backend/weirling_rank/ranker.py:260-414 | whatever a signal reports lies in [0, 1] and any note is in that signal's own words |
| Explain.Explaining | backend/weirling_rank/ranker.py:157-182 | the cold-start text exactly when no learned signal has evidence; otherwise exactly two phrases, those of the two strongest evidenced signals that have one, in order, whatever order the set is iterated in |
| Explain.DifferentSignalsDifferentWords | backend/weirling_rank/ranker.py:145-182 | two signals never produce the same phrase, so the duplicate test never drops one |
| Explain.AtLeastTwoSpeak | backend/weirling_rank/ranker.py:145-154 | quality and freshness always have a phrase, so an explanation is never empty |
| Ranking.FillSignals | backend/weirling_rank/ranker.py:260-414 | filling the dictionaries signal by signal gives the specified features, evidence set and notes |
| Ranking.ScoreOne | backend/weirling_rank/ranker.py:416-432 | features, missing signals, contributions, clamped score and explanation of one candidate all agree |
| Ranking.ScoreCandidates | backend/weirling_rank/ranker.py:185-433 | one score per candidate, in order, each as specified |
| Ranking.ScoredEach | backend/weirling_rank/ranker.py:260-433 | result i is the score of candidate i |
| Ranking.RankCandidates | backend/weirling_rank/ranker.py:436-445 | the scored candidates, none lost, in descending score |
| Ranking.FeaturesInRange | backend/weirling_rank/ranker.py:260-419 | every feature lies in [0, 1], a signal without data is exactly neutral, quality and freshness always have data |
| Ranking.FaithfulBreakdown | backend/weirling_rank/ranker.py:416-423 | for non-negative weights of at most 1 in all the score is the sum of its contributions, with nothing lost to the clamp |
| Ranking.CrowdingNeverRaises | backend/weirling_rank/ranker.py:388-398 | adding a candidate anywhere changes no other signal of an item and never raises its score, whatever dimensions the vectors have, as long as the item's vector stays as usable as it was |
| Ranking.CrowdingExactly | backend/weirling_rank/ranker.py:209-257 | adding a candidate raises no reader's score of an item exactly under that condition |
| Ranking.EventCountGrows | backend/weirling_rank/ranker.py:388-393 | adding a candidate never lowers another's same-event count |
| Ranking.OrderDoesNotMatter | backend/weirling_rank/ranker.py:185-433 | permuting the candidates leaves an item all its evidence and its score, as long as its vector stays as usable as it was |
| Ranking.OrderExactly | backend/weirling_rank/ranker.py:209-257 | the order matters to no reader exactly under that condition |
| Ranking.OneDimensionAsUsable | backend/weirling_rank/ranker.py:209-257 | with one embedding dimension throughout the condition always holds |
| LeaveOneOut.OwnRowsDoNotLeak | backend/weirling_rank/ranker.py:270-317 | editing, adding or removing an item's own history rows changes neither its reading_depth, with ties in row order, nor its novelty (lines 404-414) |
| NeighbourTies.OwnRowsDoNotLeakInAnyOrder | backend/weirling_rank/ranker.py:304-317 | the same for reading_depth with ties in any order before the edit and any order after it, as long as neighbours tied across the cut at 15 have the same completion |
| NeighbourTies.TiesMatterExactly | backend/weirling_rank/ranker.py:308-313 | the reported mean is the same in every order of ties exactly under that condition |
| LeaveOneOut.NeighboursOfUnmasked | backend/weirling_rank/ranker.py:308-310 | masked rows sort last, so neither the cut at 15 nor the positive filter lets them displace a neighbour |
| LeaveOneOut.FeedbackLeavesOneOutExactly | backend/weirling_rank/ranker.py:327-342 | an edit of the item's own rows leaves explicit_feedback alone exactly when it does not change whether a too_basic reason counts against the item, or the item cannot be compared, or the other articles' ratings decide the value |
| LeaveOneOut.OwnReasonShows | backend/weirling_rank/ranker.py:334-341 | an article's own too_basic reason that lowers its own explicit_feedback |
| LeaveOneOut.OwnEventsShow | backend/weirling_rank/ranker.py:388-398 | an edit of the item's own rows shows in temporal_context exactly when it changes how many of them are recent readings of the same event |
| LeaveOneOut.TemporalLeavesOneOutExactly | backend/weirling_rank/ranker.py:388-398 | temporal_context is what it would be without the item's own rows exactly when none of them was opened in the last 72 hours with a similarity of 0.85 or more |
| LeaveOneOut.OwnReadingCrowds | backend/weirling_rank/ranker.py:391-392 | an article read just now, whose temporal score is half of what it would be |
| Contract.CountsShow | backend/weirling_rank/contract.py:140-155 | two same-event counts give the same temporal score only when they are equal |
| LeaveOneOut.DepthBetween | backend/weirling_rank/ranker.py:311-315 | the depth value lies between neutral and the damped mean, and between neutral and the true mean exactly when the damped mean is at least 0.5 or twice the true mean plus 1e-8 times the damped mean is at most 1 |
| LeaveOneOut.ReadingDepthBetween | backend/weirling_rank/ranker.py:304-317 | the same for the signal over any history, whatever completions it holds |
| LeaveOneOut.DampingSeen | backend/weirling_rank/ranker.py:313-315 | three neighbours read exactly half way give less than neutral |
| Quotas.DailyCounters.CacheIncr | backend/app/utils/cache.py:64-74 | the counter goes up by the amount and its new value is returned |
| Quotas.DailyCounters.Take | backend/app/services/entitlements.py:192-209 | granted, and counted, exactly when the account is not paused and used + amount is at most the limit of the plan; otherwise every count is as before; the same as the stepped call run alone |
| Quotas.DailyCounters.RecordUse | backend/app/services/entitlements.py:183-189 | counts the amount on a limited quota and nothing else |
| Quotas.DailyCounters.NewsletterAllowed | backend/app/services/entitlements.py:212-219 | admitted, and counted on both quotas, exactly when count + 1 is at most the limit and bytes + size at most 1,000,000 times the limit in megabytes; otherwise neither count changes |
| Quotas.DailyCounters.RemainingToday | backend/app/services/entitlements.py:173-180 | what is left of the limit in pieces, or of the megabytes in bytes: nothing for a paused account, None when unlimited |
| Quotas.DailyCounters.SummarizePlaced | backend/app/services/digest/builder.py:205-210 | makes as many summaries as it can and as are left, and records just those |
| Quotas.RemainingIsTakeable | backend/app/services/entitlements.py:173-209 | a positive amount is granted exactly when it is at most what was said to be left; a grant lowers what is left by that amount, a refusal not at all |
| Quotas.AdvanceBalances | backend/app/services/entitlements.py:183-219 | every operation of a call moves a counter by exactly what it moves on the call's books |
| Quotas.StepKeepsBooks | backend/app/services/entitlements.py:173-219 | every step of any call, arrival or midnight keeps: each counter is what the calls have left on it, and what passed the check of take stays within the allowance plus strays |
| Quotas.GrantsWithinAllowance | backend/app/services/entitlements.py:192-219 | in every interleaved run, across days, the amounts granted on a quota that is taken exceed the allowance by at most the give-backs that strayed onto that day |
| Quotas.SummariesWithinCrowd | backend/app/services/entitlements.py:173-189 | in every interleaved run a day's summaries exceed the allowance by at most the others on their way when a batch is admitted, plus what crossed over from another day |
| Quotas.OneDaySummaries | backend/app/services/entitlements.py:173-189 | within one UTC day by at most the first; with batches one at a time the cap holds |
| Quotas.OneDayWithinAllowance | backend/app/services/entitlements.py:192-219 | within one UTC day the amounts granted on a quota that is taken never exceed the allowance, whatever the interleaving |
| Quotas.OneDayInUnits | backend/app/services/entitlements.py:155-160 | the same in the units of the plan: at most the limit in pieces, or 1,000,000 bytes for each megabyte |
| Quotas.CountersAtRest | backend/app/services/entitlements.py:192-219 | with no call in flight and no stray give-back every counter is exactly what was granted |
| Quotas.PausedNeverGranted | backend/app/services/entitlements.py:197-198 | a paused account is never granted anything |
| QuotaCaps.StraysReachBound | backend/app/services/entitlements.py:212-219 | for every account limited in both newsletter quotas and every number of strays, a run in which a day grants that many more than the allowance |
| QuotaCaps.MidnightGrantsOneTooMany | backend/app/services/entitlements.py:212-219 | one stray lets a day grant one too many |
| QuotaCaps.CrowdReachesBound | backend/app/services/digest/builder.py:205-209 | for every allowance and every number of others on their way, a run of one day whose summaries reach that bound |
| QuotaCaps.CapHoldsExactly | backend/app/services/entitlements.py:173-219 | a quota's daily cap holds in every run, on every day and at every moment, exactly when the account is paused, or the quota is taken and is not the newsletter count of an account limited in volume |
| Migrate.StepKeepsInv | backend/app/migrate.py:50-71 | the lock, the order of migrations and the exit codes stay consistent under every step and every failure |
| Migrate.StepCommits | backend/migrations/env.py:65-71 | a step leaves the committed migrations alone or takes them to head at once |
| Migrate.OneHolderAtATime | backend/app/migrate.py:52-58 | at most one replica between lock and unlock still holds the lock |
| Migrate.OverlapMeansLoss | backend/app/migrate.py:52-58 | two replicas upgrade at once only when one of them has lost its lock session |
| Migrate.OneUpgraderExactly | backend/app/migrate.py:52-58 | no run ever has two replicas between lock and unlock, exactly unless a lock session can end under a running upgrade |
| Migrate.AppliedOnceInOrder | backend/app/migrate.py:52-58 | in any run, lost locks included, every migration is applied at most once, in order, and never undone |
| Migrate.ExitCodeTellsHead | backend/app/migrate.py:59-71 | with migration enabled, exit code 0 means the database is at head then and ever after; the other code is 1 |
| Migrate.DisabledExitsZeroAnywhere | backend/app/migrate.py:40-42 | switched off, exit code 0 is returned at every revision |
| Migrate.ZeroMeansHeadExactly | backend/app/migrate.py:38-71 | exit code 0 means head in every run exactly when migration is enabled (or there is nothing to migrate) |
| Migrate.TriesBounded | backend/app/migrate.py:50-71 | the number of a replica's try never exceeds the attempts given (it is 1 when none were) |
| Migrate.GivesUpOnlyAtLast | backend/app/migrate.py:61-71 | a replica exits with 1 only after its last try |
| Migrate.RunsEnd | backend/app/migrate.py:50-71 | whatever fails, N replicas take at most N * attempts * (head + 6) steps |
| Migrate.NeverStuck | backend/app/migrate.py:52-58 | while a replica has not stopped some step without failure is possible: the lock cannot deadlock |
| Migrate.SmoothStartSucceeds | backend/app/migrate.py:50-60 | if nothing fails, every replica exits with 0 and the database is at head |
| Migrate.Database.Upgrade | backend/migrations/env.py:65-71 | the pending migrations are committed all together, in order, or not at all |
| Migrate.Database.Run | backend/app/migrate.py:38-71 | code 0 exactly when disabled or some try within the attempts succeeds; a failed start leaves the revision alone unless a commit went through |
| Migrate.OneReplicaRuns | backend/app/migrate.py:50-71 | whatever the outcomes of its tries, a run of one replica goes through just these and exits with the code of `Database.Run`: every failed try but the last is followed by another |
| RateLimit.AtMostTwiceLessOne | backend/app/utils/ratelimit.py:42-67 | over any run an interval of one window length holds at most 2 * max_requests - 1 admitted calls of a key |
| RateLimit.SpreadHolds | backend/app/utils/ratelimit.py:49-51 | what the interval holds, by whether the current window opened before or inside it |
| RateLimit.BoundIsReached | backend/app/utils/ratelimit.py:42-67 | for every limit a run reaches the bound |
| RateLimit.RateLimiter.Request | backend/app/utils/ratelimit.py:42-67 | the answer is that of the window counter over the address's whole history of calls; other addresses are untouched |
| SignupCap.CapPlusFlights | backend/app/services/email_verification.py:145-171 | over any run of interleaved signups, any stretch of an hour less the check latency holds at most the cap, less one, plus the signups between check and store |
| SignupCap.CapInNumbers | backend/app/services/email_verification.py:152-156 | in such a stretch a large provider gets less than 20 times the setting, any other domain less than the setting, plus the signups between check and store |
| SignupCap.AllowedExactly | backend/app/services/email_verification.py:145-171 | a signup passes exactly when the cap is off or the accounts of its domain of the last hour are fewer than the setting, 20 times that for a large provider |
| SignupCap.BoundIsReached | backend/app/services/email_verification.py:145-171 | for every cap and every number of simultaneous signups a run reaches that bound, in one instant |
| SignupCap.LateChecksDouble | backend/app/services/email_verification.py:157-165 | with one signup at a time, checked later than its transaction began, an hour holds twice the cap |
| SignupCap.HourCapExactly | backend/app/services/email_verification.py:145-171 | no hour ever exceeds the cap, exactly when signups come one at a time and each is checked in the instant its transaction begins |
| SignupCap.StepKeepsBounds | backend/app/services/email_verification.py:145-171 | every check, store, failure and passing of time keeps every domain within the bound |
| SignupCap.PatternCoversDomain | backend/app/services/email_verification.py:141-161 | the LIKE pattern matches every address of the domain, wildcards in the name included |
| SignupCap.PatternIsDomain | backend/app/services/email_verification.py:141-161 | for a domain without wildcards it matches no others |
| SignupCap.MailParts | backend/app/services/email_verification.py:141-142 | the domain is what follows the last '@', in lower case |
| EmbeddingCache.EmbeddingService.EncodeSingle | backend/app/utils/embeddings.py:111-119 | the direct encoding, hit or miss, stored or not |
| EmbeddingCache.EmbeddingService.EncodeBatchCached | backend/app/utils/embeddings.py:121-143 | the direct encodings in input order for any cache state, misses, failed writes and repeated texts, and the cache stays right |
| EmbeddingCache.EmbeddingService.LookUp | backend/app/utils/embeddings.py:122-131 | every text is either answered or on the list of misses, once |
| EmbeddingCache.EmbeddingService.EncodeMissing | backend/app/utils/embeddings.py:133-140 | the misses are answered and cached under their own keys |
| EmbeddingCache.SortedAnswers | backend/app/utils/embeddings.py:142-143 | sorting the answers by index puts them in the order of the texts |
| EmbeddingCache.ConsistentExactlyWithoutClash | backend/app/utils/embeddings.py:112-118 | storing single encodings keeps the cache right for all texts exactly when texts with one key share their encoding |
| SharedFeeds.PreviewIsExact | backend/app/feeds_plan.py:17-34 | the preview's groups are the feeds the migration makes, one each, each count is the number of subscriptions pointing at that feed afterwards, and they stand most subscribers first, equal counts by key |
| SharedFeeds.PlanOrderUnique | backend/app/feeds_plan.py:28 | that order leaves one possible answer, for any collation |
| SharedFeeds.PlanCountsAll | backend/app/feeds_plan.py:37-43 | the counts add up to the number of subscriptions |
| SharedFeeds.SubscribersCounted | backend/app/feeds_plan.py:17-34 | the count of a group is the number of sources with its key, newsletters left out |
| SharedFeeds.FeedIsMostRecent | backend/migrations/versions/0025_shared_feeds.py:65-82 | a feed row carries, column by column, what a source with its key holds, with the defaults for NULLs; no other source of the key was fetched later, and the fetch time is NULL only when all are |
| SharedFeeds.SourceFollowsKey | backend/migrations/versions/0025_shared_feeds.py:83-90 | a source points at a feed exactly when it is no newsletter and has that feed's key |
| SharedFeeds.PointsUnlessNewsletter | backend/migrations/versions/0025_shared_feeds.py:83-90 | a source points at a feed exactly when it is no newsletter |
| SharedFeeds.ItemFollowsSource | backend/migrations/versions/0025_shared_feeds.py:91-97 | an item points at a feed exactly when nobody owns it and its source is no newsletter; it is the feed with the source's key |
| SharedFeeds.Database.Upgrade | backend/migrations/versions/0025_shared_feeds.py:64-97 | one feed per distinct key with the columns of a latest subscriber; exactly the non-newsletter sources and their public items point at it; the old columns are untouched |
| SharedFeeds.Database.InsertFeeds | backend/migrations/versions/0025_shared_feeds.py:65-82 | the feeds have distinct keys, cover every non-newsletter source, and each comes from a subscriber with the latest fetch, NULLs last |
| SharedFeeds.Database.UpdateSources | backend/migrations/versions/0025_shared_feeds.py:83-90 | exactly the non-newsletter sources point at the feed of their key |
| SharedFeeds.Database.UpdateItems | backend/migrations/versions/0025_shared_feeds.py:91-97 | exactly the public items of such sources point at the source's feed |
| SharedFeeds.Database.UpAndDown | backend/migrations/versions/0025_shared_feeds.py:64-106 | downgrade after upgrade restores the database |
| ContentLookup.AnswerDetermined | backend/app/services/content_lookup.py:24-35 | with unique rows the query has one possible answer, whatever order the table is read in |
| ContentLookup.ContentStore.GetOrCreatePrivateItem | backend/app/services/content_lookup.py:38-64 | a visible row is reused, else one private row is added; nothing else changes |
| ContentLookup.SaveFindsOrAdds | backend/app/services/content_lookup.py:38-64 | the row handed out is in the table and for the URL; it is new exactly when the table had neither a public row nor one of this user, and then carries the draft; saving again hands out the same row |
| ContentLookup.RunKeepsUnique | backend/app/models/content.py:34-52 | over any run of saves there is one public row per URL and one private row per owner and URL |
| ContentLookup.ApplyKeepsView | backend/app/services/content_lookup.py:19-64 | two databases that look the same to a user still do after any save by anybody |
| ContentLookup.OthersNeverInterfere | backend/app/services/content_lookup.py:19-64 | erasing all saves of the other users from a run changes nothing a user is told or sees |
| Interactions.Interaction.Update | backend/app/api/feedback.py:123-175 | the field-by-field update leaves exactly the specified row |
| Interactions.Endpoint.RecordInteraction | backend/app/api/feedback.py:107-205 | the row, the events, the reason effects and the changed weights of one feedback post |
| Interactions.Endpoint.RecordEmailAction | backend/app/api/digest.py:106-140 | the row and the events of one email action |
| InteractionHistory.RowIsHistory | backend/app/api/feedback.py:123-190 | the stored row by the operations alone, over any mix of posts and email actions: readings, rating (1 and -1 for the thumbs of an email) and reason are the last carried, opening and saving the first, flags stay, and re-reads and the saved reading are counted from the operations |
| InteractionHistory.EventsFollowHistory | backend/app/services/product_metrics.py:92-104 | which events an operation causes, by what it and the earlier ones carry |
| InteractionHistory.RatingEventsAreNewVotes | backend/app/services/product_metrics.py:100-101 | over any run a rating other than 0 is reported exactly as often as a vote changes the last one to it, an email thumb like a post; repeated and withdrawn votes are silent |
| Interactions.WriteOnce | backend/app/api/feedback.py:138-157 | opened_at, saved_at and saved_read_at are write-once over any mix of posts and email actions |
| Interactions.SavedHasTime | backend/app/api/feedback.py:138-188 | saved exactly when saved_at is set, in every run |
| Interactions.EventsCountTransitions | backend/app/services/product_metrics.py:92-104 | over any run item_opened and save fire once, when first set; item_finished fires once per upward crossing of 0.7 |
| Interactions.EffectsFollowReason | backend/app/api/feedback.py:196-203 | reason effects fire exactly when the stored reason changes, with the new reason |
| Interactions.StoredReasonIsLastEffect | backend/app/api/feedback.py:196-203 | over any run the stored reason is that of the last effect and no effect is repeated |
| Interactions.RunLowersWeights | backend/app/api/feedback.py:196-203 | over any mix of posts and email actions the item's main topic and its source have lost exactly the sum of the nudges of the reasons that changed the stored one, stopping at 0; nothing else is touched |
| ReasonEffects.Preferences.ApplyReasonEffects | backend/app/api/feedback.py:235-268 | exactly this user's nodes of the item's first topic, and the item's source, are nudged by the table's amounts and kept in [0, 1] |
| ReasonEffects.NudgesAddUp | backend/app/api/feedback.py:235-268 | after any sequence of reasons the clamped nudges add up: each weight concerned is the old one less the total, at least 0 |
| ReasonEffects.ReasonCosts | backend/app/api/feedback.py:235-268 | what one reason costs: 0.1 or 0.2 for this user's nodes of the main topic, 0.1 for the source of clickbait, at most what is there, and nothing else |
| ReasonEffects.ReasonsCommute | backend/app/api/feedback.py:257-268 | the order of the reasons does not matter, clamping or not |
| ReasonEffects.UndoneExactly | backend/app/api/feedback.py:198-200 | giving the total back restores a weight exactly when nothing of it was clamped away, or it was full |
| Interactions.RetryIsSilent | backend/app/api/feedback.py:118-121 | the same request again causes no event and no effect |
| Interactions.RereadsCounted | backend/app/api/feedback.py:158-175 | exactly when an update counts a re-read; the previous completion plays no part |
| Interactions.GenuineExactly | backend/app/api/feedback.py:158-163 | on an item with a row, every post that counts follows an earlier completion of at least 0.85 exactly when there has been one |
| Interactions.FirstReadingCountedAsReread | backend/app/api/feedback.py:158-175 | a first complete reading that counts as a re-read |
| Alerts.AlertTask.Run | backend/app/services/alerts.py:208-237 | the new hash, who is notified and who is resolved, exactly |
| Alerts.AlertTask.Notify | backend/app/services/alerts.py:221-230 | exactly the due and deliverable alerts are sent and stamped |
| Alerts.AlertTask.Resolve | backend/app/services/alerts.py:231-234 | exactly the alerts that stopped firing are removed |
| Alerts.EveryRun | backend/app/services/alerts.py:208-237 | every key's trace is a word of (sent+ resolved)*, sends of one episode are at least the repeat interval apart, the hash holds exactly the open episodes with their first and last notification, and active keys fire |
| Alerts.EveryMark | backend/app/services/alerts.py:221-234 | what a round adds to a key's trace, by the trace alone: a notification exactly when it fires, gets through, and is new or was last sent at least the repeat interval ago; a resolution exactly when an open episode no longer fires |
| Alerts.SentAgain | backend/app/services/alerts.py:221-230 | an alert that keeps firing is silent until the repeat interval is over, and sent again in the first round after that in which it gets through |
| Alerts.FirstIsFixed | backend/app/services/alerts.py:222-229 | the first time does not move until the alert is resolved |
| Alerts.FirstSeenExactly | backend/app/services/alerts.py:221-230 | during a streak the stored first time is that of the first round whose notification gets through; it is the first-seen time exactly when the streak's very first notification does |
| Alerts.FirstMayComeLate | backend/app/services/alerts.py:221-230 | an alert seen at 100 and delivered at 700 keeps 700 as its first time |
| Base64Url.RoundTrip | backend/app/services/push.py:37-42 | decoding undoes encoding for all bytes |
| Base64Url.EncodeShape | backend/app/services/push.py:41-42 | no padding, and four characters for every three bytes, rounded up |
| Base64Url.EncodeIs | backend/app/services/push.py:41-42 | every three bytes are four times six bits, and each six bits are the character of the URL-safe table |
| Push.PushRoundTrip | backend/app/services/push.py:49-78 | every plaintext of at most 3993 bytes is accepted and comes back unchanged from a receiver that derives its own keys by section 3.4 of RFC 8291 and sections 2.2 and 2.3 of RFC 8188, in a body of at most 4096 bytes, reached exactly at 3993; longer ones are refused |
| Push.ParseHeader | backend/app/services/push.py:77 | the 86-byte header parses back to salt, record size and key |

## Left out

- Float rounding, NaN and infinities outside the clustering matrix: the model computes over reals.
- `_vec` and the embedding-model check: a candidate's vector is the normalised one, or none.
- The text of an explanation (joining two phrases, the capital letter, number formatting beyond `round`): phrases are values.
- The `topic` of a scored item, and `label_event`, `hour_histogram` and `preferred_hour`: easy members.
- Interests with vectors of different lengths: stacking them fails in the code.
- Redis outages (`take` fails open, the limiter by its setting), key expiry of day counters, and a crash between INCR and EXPIRE.
- Summaries on a reader's own key, which are not counted, and the lock that keeps one item from being queued twice.
- Quotas: limits and pause state are fixed during a run; a plan change in between is not modelled.
- Replicas of different releases, and what two overlapping upgrades do to each other before one fails: any migration may fail at any point, and the version row decides which commit counts.
- Two clocks: the database's (creation times) and the application's (checks) are one in the signup model.
- Backslash escapes in LIKE, and white space around mail domains.
- The evaluation of alert conditions, message texts and failures of Redis inside one alert run.
- Index and column definitions of migration 0025.
- Unique-index errors of two simultaneous private saves of one URL, and all other columns of content items.
- The demo sandbox, `extension.py` (which saves without a time), the interest-graph task, and the labels of the reason table.
- AES-GCM, HKDF and ECDH themselves: functions with the laws of `Push.Laws`; VAPID headers and delivery.
