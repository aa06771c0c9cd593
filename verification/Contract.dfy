/** The arithmetic behind the ranking signals. Instants are whole microseconds. */
module Contract {

  const NEUTRAL := 0.5
  const HOUR := 3_600_000_000
  const DAY := 86_400_000_000

  /** e ** x and 0.5 ** x. */
  datatype Maths = Maths(exp: real -> real, half: real -> real)

  ghost predicate Laws(m: Maths) {
    forall x :: m.exp(x) > 0.0 && m.half(x) > 0.0
  }

  function Max(x: real, y: real): real {
    if x >= y then x else y
  }

  function Abs(x: real): real {
    if x < 0.0 then -x else x
  }

  function Clamp01(x: real): (r: real)
    ensures 0.0 <= r <= 1.0
    ensures 0.0 <= x <= 1.0 ==> r == x
  {
    if x < 0.0 then 0.0 else if x > 1.0 then 1.0 else x
  }

  /** round(): halves go to the even neighbour. */
  function Round(x: real): int {
    var below := x.Floor;
    var rest := x - below as real;
    if rest < 0.5 || (rest == 0.5 && below % 2 == 0) then below else below + 1
  }

  /** The mean of a Beta posterior: prior counts plus outcomes that fade with age. */
  function BetaMean(m: Maths, successes: nat, failures: nat, priorSuccess: real, priorFailure: real,
                    ageDays: real): (r: real)
    requires Laws(m) && priorSuccess >= 0.0 && priorFailure >= 0.0 && priorSuccess + priorFailure > 0.0
    ensures 0.0 <= r <= 1.0
  {
    Clamp01(Posterior(priorSuccess, priorFailure, successes as real, failures as real, Decay(m, ageDays)))
  }

  function Decay(m: Maths, ageDays: real): (d: real)
    requires Laws(m)
    ensures d > 0.0
  {
    m.half(Max(ageDays, 0.0) / 90.0)
  }

  /** alpha / (alpha + beta) */
  function Posterior(a: real, b: real, s: real, f: real, d: real): real
    requires a >= 0.0 && b >= 0.0 && a + b > 0.0 && s >= 0.0 && f >= 0.0 && d >= 0.0
  {
    NonNegative(s, d);
    NonNegative(f, d);
    Share(a + s * d, b + f * d)
  }

  function Share(alpha: real, beta: real): real
    requires alpha + beta > 0.0
  {
    alpha / (alpha + beta)
  }

  lemma NonNegative(x: real, y: real)
    requires x >= 0.0 && y >= 0.0
    ensures x * y >= 0.0
  {
  }

  function LongTermWeight(m: Maths, ageDays: real): real {
    Clamp01(m.half(Max(ageDays, 0.0) / 120.0))
  }

  function MediumTermWeight(ageDays: real): real {
    if ageDays < 14.0 || ageDays > 56.0 then 0.2 else Clamp01(1.0 - Abs(ageDays - 28.0) / 28.0)
  }

  /** Past its peak at 28 days the weight falls to 0 at day 56 and is 0.2 ever after: of two days
      past the peak the later weighs more exactly when day 56 lies between them and the earlier is
      beyond day 50.4, where the weight has fallen below 0.2. */
  lemma MediumTermDip(x: real, y: real)
    requires 28.0 <= x <= y
    ensures MediumTermWeight(y) <= MediumTermWeight(x) <==> !(50.4 < x <= 56.0 < y)
    ensures MediumTermWeight(56.0) == 0.0 && MediumTermWeight(57.0) == 0.2
  {
    assert (x - 28.0) / 28.0 == x / 28.0 - 1.0;
    assert (y - 28.0) / 28.0 == y / 28.0 - 1.0;
  }

  function SaturationPenalty(sameEventCount: int): (r: real)
    ensures 0.0 <= r <= 1.0
  {
    if sameEventCount <= 1 then 1.0 else Clamp01(1.0 / sameEventCount as real)
  }

  function RecencyFit(m: Maths, ageHours: real, prefersFresh: bool): real {
    var recent := Clamp01(m.exp(-ageHours / 72.0));
    if prefersFresh then recent else Clamp01(0.45 + 0.55 * (1.0 - recent))
  }

  function AgeHours(publishedAt: int, now: int): real {
    Max(0.0, (now - publishedAt) as real / HOUR as real)
  }

  /** The blend of the three time scales, before crowding. */
  function Freshness(m: Maths, publishedAt: int, now: int, prefersFresh: bool): (r: real)
    ensures 0.0 <= r <= 1.0
  {
    var hours := AgeHours(publishedAt, now);
    0.4 * LongTermWeight(m, hours / 24.0) + 0.3 * MediumTermWeight(hours / 24.0)
      + 0.3 * RecencyFit(m, hours, prefersFresh)
  }

  function TemporalScore(m: Maths, publishedAt: int, now: int, sameEventCount: int, prefersFresh: bool): (r: real)
    ensures 0.0 <= r <= 1.0
  {
    Crowded(Freshness(m, publishedAt, now, prefersFresh), sameEventCount)
  }

  function Crowded(freshness: real, sameEventCount: int): real {
    Damped(freshness, SaturationPenalty(sameEventCount))
  }

  function Damped(x: real, penalty: real): real {
    Clamp01(x * penalty)
  }

  /** More items on one event never raise the penalty factor. */
  lemma SaturationAntitone(k: int, l: int)
    requires k <= l
    ensures SaturationPenalty(k) >= SaturationPenalty(l)
  {
    if k > 1 {
      Reciprocal(k as real, l as real);
    }
  }

  lemma Reciprocal(x: real, y: real)
    requires 0.0 < x <= y
    ensures 1.0 / y <= 1.0 / x
  {
    var r := 1.0 / y;
    assert r * y == 1.0 && r > 0.0;
    assert r * x <= 1.0;
    assert 1.0 / x == (1.0 / x) * 1.0;
  }

  lemma TemporalAntitone(m: Maths, publishedAt: int, now: int, k: int, l: int, prefersFresh: bool)
    requires k <= l
    ensures TemporalScore(m, publishedAt, now, k, prefersFresh) >= TemporalScore(m, publishedAt, now, l, prefersFresh)
  {
    CrowdedAntitone(Freshness(m, publishedAt, now, prefersFresh), k, l);
  }

  lemma CrowdedAntitone(freshness: real, k: int, l: int)
    requires freshness >= 0.0 && k <= l
    ensures Crowded(freshness, k) >= Crowded(freshness, l)
  {
    SaturationAntitone(k, l);
    DampedMonotone(freshness, SaturationPenalty(l), SaturationPenalty(k));
  }

  lemma DampedMonotone(x: real, p: real, q: real)
    requires x >= 0.0 && p <= q
    ensures Damped(x, p) <= Damped(x, q)
  {
    ProductOrder(x, p, q);
  }

  lemma ProductOrder(x: real, p: real, q: real)
    requires x >= 0.0 && p <= q
    ensures x * p <= x * q
  {
    NonNegative(x, q - p);
    assert x * q == x * p + x * (q - p);
  }

  /** The temporal score of a dated item always has something left to lose. */
  lemma FreshnessPositive(m: Maths, publishedAt: int, now: int, prefersFresh: bool)
    requires Laws(m)
    ensures Freshness(m, publishedAt, now, prefersFresh) > 0.0
  {
    var days := AgeHours(publishedAt, now) / 24.0;
    assert m.half(Max(days, 0.0) / 120.0) > 0.0;
  }

  lemma ShareOfOne(freshness: real, k: int)
    requires 0.0 < freshness <= 1.0 && k >= 1
    ensures Crowded(freshness, k) * k as real == freshness
  {
    var share := 1.0 / k as real;
    assert share * k as real == 1.0;
    PositiveShare(share, k as real);
    ProductOrder(freshness, share, 1.0);
    NonNegative(freshness, share);
    assert (freshness * share) * k as real == freshness * (share * k as real);
  }

  lemma PositiveShare(share: real, k: real)
    requires share * k == 1.0 && k >= 1.0
    ensures 0.0 < share <= 1.0
  {
  }

  lemma CrowdedShows(freshness: real, k: int, l: int)
    requires 0.0 < freshness <= 1.0 && k >= 1 && l >= 1
    ensures Crowded(freshness, k) == Crowded(freshness, l) ==> k == l
  {
    ShareOfOne(freshness, k);
    ShareOfOne(freshness, l);
    if Crowded(freshness, k) == Crowded(freshness, l) {
      SameFactor(Crowded(freshness, k), k as real, l as real, freshness);
    }
  }

  /** Every further item on an event costs something: no two counts give the same score. */
  lemma CountsShow(m: Maths, publishedAt: int, now: int, k: int, l: int, prefersFresh: bool)
    requires Laws(m) && k >= 1 && l >= 1
    ensures TemporalScore(m, publishedAt, now, k, prefersFresh) == TemporalScore(m, publishedAt, now, l, prefersFresh)
       <==> k == l
  {
    FreshnessPositive(m, publishedAt, now, prefersFresh);
    CrowdedShows(Freshness(m, publishedAt, now, prefersFresh), k, l);
  }

  lemma SameFactor(x: real, k: real, l: real, y: real)
    requires x * k == y && x * l == y && y > 0.0
    ensures k == l
  {
    assert x * (k - l) == 0.0;
  }

  /** 0 short, 1 medium, 2 long. */
  function LengthBucket(words: int): int {
    if words < 400 then 0 else if words < 1500 then 1 else 2
  }
}
