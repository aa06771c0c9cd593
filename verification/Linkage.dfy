/** Average linkage stated from first principles: the distance between two clusters
    is the mean of all distances between their members, and each step joins the
    closest pair. Clustering.dfy refines this by the in-place matrix algorithm. */
module Linkage {

  type Distance = (int, int) -> real

  ghost predicate Symmetric(d: Distance) {
    forall a, b :: d(a, b) == d(b, a)
  }

  // ---------------------------------------------------------------- sums of distances

  function LinkRow(d: Distance, a: int, B: seq<int>): real {
    if B == [] then 0.0 else d(a, B[0]) + LinkRow(d, a, B[1..])
  }

  /** The sum of d over A x B. */
  function LinkSum(d: Distance, A: seq<int>, B: seq<int>): real {
    if A == [] then 0.0 else LinkRow(d, A[0], B) + LinkSum(d, A[1..], B)
  }

  /** The sum of d over the unordered pairs of positions of A. */
  function Intra(d: Distance, A: seq<int>): real {
    if A == [] then 0.0 else LinkRow(d, A[0], A[1..]) + Intra(d, A[1..])
  }

  function Product(a: nat, b: nat): (p: real)
    ensures a > 0 && b > 0 ==> p > 0.0
  {
    a as real * b as real
  }

  /** x averaged over a x b pairs. */
  function Share(x: real, a: nat, b: nat): real
    requires a > 0 && b > 0
  {
    x / Product(a, b)
  }

  function Mean(d: Distance, A: seq<int>, B: seq<int>): real
    requires A != [] && B != []
  {
    Share(LinkSum(d, A, B), |A|, |B|)
  }

  lemma {:induction false} LinkRowConcat(d: Distance, a: int, B: seq<int>, C: seq<int>)
    ensures LinkRow(d, a, B + C) == LinkRow(d, a, B) + LinkRow(d, a, C)
  {
    if B == [] {
      assert B + C == C;
    } else {
      LinkRowConcat(d, a, B[1..], C);
      assert (B + C)[1..] == B[1..] + C;
    }
  }

  lemma {:induction false} LinkSumConcat(d: Distance, A: seq<int>, B: seq<int>, C: seq<int>)
    ensures LinkSum(d, A + B, C) == LinkSum(d, A, C) + LinkSum(d, B, C)
  {
    if A == [] {
      assert A + B == B;
    } else {
      LinkSumConcat(d, A[1..], B, C);
      assert (A + B)[1..] == A[1..] + B;
    }
  }

  lemma {:induction false} LinkSumColumn(d: Distance, A: seq<int>, b: int, B: seq<int>)
    requires Symmetric(d)
    ensures LinkSum(d, A, [b] + B) == LinkRow(d, b, A) + LinkSum(d, A, B)
  {
    if A != [] {
      LinkSumColumn(d, A[1..], b, B);
      assert ([b] + B)[1..] == B;
    }
  }

  lemma {:induction false} LinkSumSymmetric(d: Distance, A: seq<int>, B: seq<int>)
    requires Symmetric(d)
    ensures LinkSum(d, A, B) == LinkSum(d, B, A)
  {
    if B == [] {
      LinkSumEmpty(d, A);
    } else {
      LinkSumSymmetric(d, A, B[1..]);
      LinkSumColumn(d, A, B[0], B[1..]);
      assert B == [B[0]] + B[1..];
    }
  }

  lemma {:induction false} LinkSumEmpty(d: Distance, A: seq<int>)
    ensures LinkSum(d, A, []) == 0.0
  {
    if A != [] {
      LinkSumEmpty(d, A[1..]);
    }
  }

  lemma {:induction false} IntraConcat(d: Distance, A: seq<int>, B: seq<int>)
    ensures Intra(d, A + B) == Intra(d, A) + Intra(d, B) + LinkSum(d, A, B)
  {
    if A == [] {
      assert A + B == B;
    } else {
      IntraConcat(d, A[1..], B);
      assert (A + B)[1..] == A[1..] + B;
      LinkRowConcat(d, A[0], A[1..], B);
    }
  }

  lemma MeanSymmetric(d: Distance, A: seq<int>, B: seq<int>)
    requires Symmetric(d) && A != [] && B != []
    ensures Mean(d, A, B) == Mean(d, B, A)
  {
    LinkSumSymmetric(d, A, B);
  }

  lemma QuotientOfProduct(x: real, p: real, r: real)
    requires p > 0.0 && r > 0.0
    ensures p * (x / (p * r)) == x / r
  {
    var u := x / (p * r);
    assert u * (p * r) == x;
    assert (p * u) * r == x;
  }

  lemma SplitQuotient(x: real, s: real, r: real)
    requires s > 0.0 && r > 0.0
    ensures x / (s * r) == (x / r) / s
  {
    var u := x / r;
    assert u * r == x;
    var v := u / s;
    assert v * s == u;
    assert v * (s * r) == (v * s) * r;
  }

  lemma BlendOfQuotients(x: real, y: real, p: real, q: real, r: real)
    requires p > 0.0 && q > 0.0 && r > 0.0
    ensures (x + y) / ((p + q) * r) == (p * (x / (p * r)) + q * (y / (q * r))) / (p + q)
  {
    QuotientOfProduct(x, p, r);
    QuotientOfProduct(y, q, r);
    SplitQuotient(x + y, p + q, r);
    assert (x + y) / r == x / r + y / r by { QuotientOfSum(x, y, r); }
  }

  lemma QuotientOfSum(x: real, y: real, r: real)
    requires r > 0.0
    ensures (x + y) / r == x / r + y / r
  {
    assert (x / r + y / r) * r == x + y;
  }

  lemma ShareOfSum(x: real, y: real, a: nat, b: nat, c: nat)
    requires a > 0 && b > 0 && c > 0
    ensures Share(x + y, a + b, c)
         == (a as real * Share(x, a, c) + b as real * Share(y, b, c)) / (a as real + b as real)
  {
    assert (a + b) as real == a as real + b as real;
    BlendOfQuotients(x, y, a as real, b as real, c as real);
  }

  /** The Lance-Williams update: the mean to a merged cluster is the size-weighted
      mean of the means to its two parts. */
  lemma MeanOfMerge(d: Distance, A: seq<int>, B: seq<int>, C: seq<int>)
    requires A != [] && B != [] && C != []
    ensures Mean(d, A + B, C)
         == (|A| as real * Mean(d, A, C) + |B| as real * Mean(d, B, C)) / (|A| as real + |B| as real)
  {
    LinkSumConcat(d, A, B, C);
    ShareOfSum(LinkSum(d, A, C), LinkSum(d, B, C), |A|, |B|, |C|);
    assert |A + B| == |A| + |B|;
  }

  lemma MeanOfMergeAtLeast(d: Distance, A: seq<int>, B: seq<int>, C: seq<int>, h: real)
    requires A != [] && B != [] && C != []
    requires Mean(d, A, C) >= h && Mean(d, B, C) >= h
    ensures Mean(d, A + B, C) >= h
  {
    MeanOfMerge(d, A, B, C);
    var p, q := |A| as real, |B| as real;
    WeightedAtLeast(p, Mean(d, A, C), q, Mean(d, B, C), h);
  }

  lemma WeightedAtLeast(p: real, x: real, q: real, y: real, h: real)
    requires p > 0.0 && q > 0.0 && x >= h && y >= h
    ensures (p * x + q * y) / (p + q) >= h
  {
    WeightedSumAtLeast(p, x, q, y, h);
    QuotientAtLeast(p * x + q * y, p + q, h);
  }

  lemma WeightedSumAtLeast(p: real, x: real, q: real, y: real, h: real)
    requires p > 0.0 && q > 0.0 && x >= h && y >= h
    ensures h * (p + q) <= p * x + q * y
  {
    ProductMonotone(h, x, p);
    ProductMonotone(h, y, q);
  }

  lemma QuotientAtLeast(x: real, p: real, h: real)
    requires p > 0.0 && h * p <= x
    ensures x / p >= h
  {
    var rest := x - h * p;
    QuotientOfSum(h * p, rest, p);
    assert (h * p) / p == h && rest / p >= 0.0;
  }

  // ---------------------------------------------------------------- clusters and merges

  /** Slot i holds the cluster kept under key i; an empty slot has been merged away. */
  type Slots = seq<seq<int>>

  datatype Merge = Merge(i: int, j: int, height: real)

  ghost predicate Live(s: Slots, i: int) {
    0 <= i < |s| && s[i] != []
  }

  function Init(n: nat): (s: Slots)
    ensures |s| == n
  {
    seq(n, i => [i])
  }

  function Join(s: Slots, i: int, j: int): (t: Slots)
    ensures |t| == |s|
  {
    if 0 <= i < |s| && 0 <= j < |s| then s[i := s[i] + s[j]][j := []] else s
  }

  function Play(s: Slots, ms: seq<Merge>): (t: Slots)
    ensures |t| == |s|
    decreases |ms|
  {
    if ms == [] then s else Play(Join(s, ms[0].i, ms[0].j), ms[1..])
  }

  /** The clusters that are left, in key order. */
  function Compact(s: Slots): seq<seq<int>> {
    if s == [] then [] else (if s[0] == [] then [] else [s[0]]) + Compact(s[1..])
  }

  /** The average distance between two live clusters. */
  ghost function Gap(d: Distance, s: Slots, a: int, b: int): real
    requires Live(s, a) && Live(s, b)
  {
    Mean(d, s[a], s[b])
  }

  /** Row-major order on the positions of a matrix. */
  predicate Before(a: int, b: int, i: int, j: int) {
    a < i || (a == i && b < j)
  }

  /** (i, j) is the closest pair of live clusters, the first one in row-major order. */
  ghost predicate Closest(d: Distance, s: Slots, i: int, j: int) {
    && Live(s, i) && Live(s, j) && i < j
    && forall a, b :: Live(s, a) && Live(s, b) && a < b ==>
         && Gap(d, s, i, j) <= Gap(d, s, a, b)
         && (Before(a, b, i, j) ==> Gap(d, s, i, j) < Gap(d, s, a, b))
  }

  /** Every merge joins the closest pair of its state and records their distance. */
  ghost predicate Greedy(d: Distance, s: Slots, ms: seq<Merge>)
    decreases |ms|
  {
    ms == [] ||
    (&& Closest(d, s, ms[0].i, ms[0].j)
     && ms[0].height == Gap(d, s, ms[0].i, ms[0].j)
     && Greedy(d, Join(s, ms[0].i, ms[0].j), ms[1..]))
  }

  ghost predicate Separated(d: Distance, s: Slots, t: real) {
    forall a, b :: Live(s, a) && Live(s, b) && a < b ==> Gap(d, s, a, b) > t
  }

  ghost predicate HeightsAtMost(ms: seq<Merge>, t: real) {
    forall k :: 0 <= k < |ms| ==> ms[k].height <= t
  }

  /** ms is the whole run of average linkage on n points with threshold t. */
  ghost predicate IsCut(d: Distance, n: nat, t: real, ms: seq<Merge>) {
    Greedy(d, Init(n), ms) && HeightsAtMost(ms, t) && Separated(d, Play(Init(n), ms), t)
  }

  /** groups are the clusters that average linkage leaves at threshold t. */
  ghost predicate IsClustering(d: Distance, n: nat, t: real, groups: seq<seq<int>>) {
    exists ms :: IsCut(d, n, t, ms) && groups == Compact(Play(Init(n), ms))
  }

  // ---------------------------------------------------------------- runs

  lemma {:induction false} PlayConcat(s: Slots, ms: seq<Merge>, rest: seq<Merge>)
    ensures Play(s, ms + rest) == Play(Play(s, ms), rest)
    decreases |ms|
  {
    if ms == [] {
      assert ms + rest == rest;
    } else {
      PlayConcat(Join(s, ms[0].i, ms[0].j), ms[1..], rest);
      assert (ms + rest)[1..] == ms[1..] + rest;
    }
  }

  lemma {:induction false} GreedyAppend(d: Distance, s: Slots, ms: seq<Merge>, m: Merge)
    requires Greedy(d, s, ms) && Closest(d, Play(s, ms), m.i, m.j)
    requires m.height == Gap(d, Play(s, ms), m.i, m.j)
    ensures Greedy(d, s, ms + [m])
    ensures Play(s, ms + [m]) == Join(Play(s, ms), m.i, m.j)
    decreases |ms|
  {
    PlayConcat(s, ms, [m]);
    if ms == [] {
      assert ms + [m] == [m];
    } else {
      GreedyAppend(d, Join(s, ms[0].i, ms[0].j), ms[1..], m);
      assert (ms + [m])[1..] == ms[1..] + [m];
    }
  }

  /** After joining the closest pair, no two clusters are closer than that pair was. */
  lemma JoinKeepsDistance(d: Distance, s: Slots, i: int, j: int, a: int, b: int)
    requires Symmetric(d) && Closest(d, s, i, j)
    requires Live(Join(s, i, j), a) && Live(Join(s, i, j), b) && a < b
    ensures Gap(d, Join(s, i, j), a, b) >= Gap(d, s, i, j)
  {
    var h := Gap(d, s, i, j);
    forall x, y | Live(s, x) && Live(s, y) && x != y ensures Gap(d, s, x, y) >= h {
      MeanSymmetric(d, s[x], s[y]);
      assert x < y ==> Gap(d, s, x, y) >= h;
      assert y < x ==> Gap(d, s, y, x) >= h;
    }
    if a == i {
      assert Gap(d, s, i, b) >= h && Gap(d, s, j, b) >= h;
      MeanOfMergeAtLeast(d, s[i], s[j], s[b], h);
    } else if b == i {
      assert Gap(d, s, i, a) >= h && Gap(d, s, j, a) >= h;
      MeanOfMergeAtLeast(d, s[i], s[j], s[a], h);
      MeanSymmetric(d, s[i] + s[j], s[a]);
    } else {
      assert Gap(d, s, a, b) >= h;
    }
  }

  /** Merge heights never decrease along a run. */
  lemma {:induction false} HeightsAscend(d: Distance, s: Slots, ms: seq<Merge>)
    requires Symmetric(d) && Greedy(d, s, ms)
    ensures forall k, l :: 0 <= k <= l < |ms| ==> ms[k].height <= ms[l].height
    decreases |ms|
  {
    if |ms| >= 2 {
      var m := ms[0];
      var next := Join(s, m.i, m.j);
      HeightsAscend(d, next, ms[1..]);
      JoinKeepsDistance(d, s, m.i, m.j, ms[1].i, ms[1].j);
      forall k, l | 0 <= k <= l < |ms| ensures ms[k].height <= ms[l].height {
        if k >= 1 {
          assert ms[1..][k - 1].height <= ms[1..][l - 1].height;
        } else if l >= 1 {
          assert ms[1..][0].height <= ms[1..][l - 1].height;
        }
      }
    }
  }

  lemma ClosestUnique(d: Distance, s: Slots, i: int, j: int, k: int, l: int)
    requires Closest(d, s, i, j) && Closest(d, s, k, l)
    ensures i == k && j == l
  {
    assert Before(i, j, k, l) || Before(k, l, i, j) || (i == k && j == l);
  }

  /** A lower threshold stops the same run earlier. */
  lemma {:induction false} LowerCutIsPrefix(d: Distance, s: Slots, t: real, ms: seq<Merge>, u: real, ns: seq<Merge>)
    requires t <= u
    requires Greedy(d, s, ms) && HeightsAtMost(ms, t)
    requires Greedy(d, s, ns) && Separated(d, Play(s, ns), u)
    ensures ms <= ns
    decreases |ms|
  {
    if ms != [] {
      var m := ms[0];
      assert m.height <= t;
      assert ns != [];
      ClosestUnique(d, s, m.i, m.j, ns[0].i, ns[0].j);
      LowerCutIsPrefix(d, Join(s, m.i, m.j), t, ms[1..], u, ns[1..]);
      assert ms == [m] + ms[1..] && ns == [m] + ns[1..];
    }
  }

  /** The clustering is determined: two runs with the same threshold are the same run. */
  lemma CutUnique(d: Distance, n: nat, t: real, ms: seq<Merge>, ns: seq<Merge>)
    requires IsCut(d, n, t, ms) && IsCut(d, n, t, ns)
    ensures ms == ns
  {
    LowerCutIsPrefix(d, Init(n), t, ms, t, ns);
    LowerCutIsPrefix(d, Init(n), t, ns, t, ms);
  }

  lemma ClusteringUnique(d: Distance, n: nat, t: real, groups: seq<seq<int>>, others: seq<seq<int>>)
    requires IsClustering(d, n, t, groups) && IsClustering(d, n, t, others)
    ensures groups == others
  {
    var ms :| IsCut(d, n, t, ms) && groups == Compact(Play(Init(n), ms));
    var ns :| IsCut(d, n, t, ns) && others == Compact(Play(Init(n), ns));
    CutUnique(d, n, t, ms, ns);
  }

  ghost predicate Inside(A: seq<int>, B: seq<int>) {
    forall x :: x in A ==> x in B
  }

  /** Every cluster of s lies inside one cluster of t. */
  ghost predicate Refines(s: Slots, t: Slots) {
    forall i :: Live(s, i) ==> exists k :: Live(t, k) && Inside(s[i], t[k])
  }

  lemma {:induction false} PlayCoarsens(s: Slots, ms: seq<Merge>)
    requires forall k :: 0 <= k < |ms| ==> ms[k].i != ms[k].j
    ensures Refines(s, Play(s, ms))
    decreases |ms|
  {
    forall i | Live(s, i) ensures exists k :: Live(Play(s, ms), k) && Inside(s[i], Play(s, ms)[k]) {
      if ms == [] {
        assert Live(Play(s, ms), i) && Inside(s[i], Play(s, ms)[i]);
      } else {
        var m := ms[0];
        var next := Join(s, m.i, m.j);
        PlayCoarsens(next, ms[1..]);
        var via := if i == m.j && 0 <= m.i < |s| then m.i else i;
        assert Live(next, via);
        assert Inside(s[i], next[via]);
        var k :| Live(Play(next, ms[1..]), k) && Inside(next[via], Play(next, ms[1..])[k]);
        assert Live(Play(s, ms), k) && Inside(s[i], Play(s, ms)[k]);
      }
    }
  }

  lemma {:induction false} GreedyPairsDistinct(d: Distance, s: Slots, ms: seq<Merge>)
    requires Greedy(d, s, ms)
    ensures forall k :: 0 <= k < |ms| ==> ms[k].i != ms[k].j
    decreases |ms|
  {
    if ms != [] {
      GreedyPairsDistinct(d, Join(s, ms[0].i, ms[0].j), ms[1..]);
      forall k | 0 <= k < |ms| ensures ms[k].i != ms[k].j {
        if k >= 1 { assert ms[k] == ms[1..][k - 1]; }
      }
    }
  }

  lemma {:induction false} GreedySuffix(d: Distance, s: Slots, ms: seq<Merge>, k: nat)
    requires k <= |ms| && Greedy(d, s, ms)
    ensures Greedy(d, Play(s, ms[..k]), ms[k..])
    decreases |ms|
  {
    if k > 0 {
      GreedySuffix(d, Join(s, ms[0].i, ms[0].j), ms[1..], k - 1);
      assert ms[..k][1..] == ms[1..][..k - 1];
      assert ms[k..] == ms[1..][k - 1..];
    } else {
      assert ms[..0] == [] && ms[0..] == ms;
    }
  }

  /** Dendrogram: the clusters at threshold t refine those at any u >= t, and what the
      higher threshold adds are exactly merges at heights in (t, u]. */
  lemma LowerThresholdRefines(d: Distance, n: nat, t: real, ms: seq<Merge>, u: real, ns: seq<Merge>)
    requires Symmetric(d) && t <= u && IsCut(d, n, t, ms) && IsCut(d, n, u, ns)
    ensures ms <= ns
    ensures forall k :: |ms| <= k < |ns| ==> t < ns[k].height <= u
    ensures Refines(Play(Init(n), ms), Play(Init(n), ns))
  {
    LowerCutIsPrefix(d, Init(n), t, ms, u, ns);
    var rest := ns[|ms|..];
    assert ns == ms + rest && ns[..|ms|] == ms;
    PlayConcat(Init(n), ms, rest);
    GreedySuffix(d, Init(n), ns, |ms|);
    GreedyPairsDistinct(d, Play(Init(n), ms), rest);
    PlayCoarsens(Play(Init(n), ms), rest);
    HeightsAscend(d, Play(Init(n), ms), rest);
    forall k | |ms| <= k < |ns| ensures t < ns[k].height <= u {
      assert ns[k] == rest[k - |ms|];
      assert rest[0].height > t;
    }
  }

  // ---------------------------------------------------------------- partition

  function Flatten(s: seq<seq<int>>): seq<int> {
    if s == [] then [] else s[0] + Flatten(s[1..])
  }

  /** Each key is the least member, and the first one, of its cluster. */
  ghost predicate KeyedByLeast(s: Slots) {
    forall i :: Live(s, i) ==> s[i][0] == i && forall x :: x in s[i] ==> i <= x < |s|
  }

  function Range(lo: nat, hi: nat): seq<int>
    requires lo <= hi
    decreases hi - lo
  {
    if lo == hi then [] else [lo] + Range(lo + 1, hi)
  }

  lemma {:induction false} FlattenUpdate(s: seq<seq<int>>, i: nat, v: seq<int>)
    requires i < |s|
    ensures multiset(Flatten(s[i := v])) + multiset(s[i]) == multiset(Flatten(s)) + multiset(v)
  {
    var updated := s[i := v];
    if i == 0 {
      assert updated[1..] == s[1..];
    } else {
      FlattenUpdate(s[1..], i - 1, v);
      assert updated[1..] == s[1..][i - 1 := v];
      var a, b, c := multiset(s[0]), multiset(Flatten(updated[1..])), multiset(Flatten(s[1..]));
      assert b + multiset(s[i]) == c + multiset(v);
      assert (a + b) + multiset(s[i]) == a + (b + multiset(s[i]));
      assert a + (c + multiset(v)) == (a + c) + multiset(v);
    }
  }

  lemma FlattenJoin(s: Slots, i: int, j: int)
    requires i != j
    ensures multiset(Flatten(Join(s, i, j))) == multiset(Flatten(s))
  {
    if 0 <= i < |s| && 0 <= j < |s| {
      var joined := s[i] + s[j];
      var grown := s[i := joined];
      FlattenUpdate(s, i, joined);
      FlattenUpdate(grown, j, []);
      assert multiset(joined) == multiset(s[i]) + multiset(s[j]);
      CancelTwice(multiset(Flatten(grown)), multiset(Flatten(s)), multiset(s[i]), multiset(s[j]),
                  multiset(Flatten(Join(s, i, j))));
    }
  }

  lemma CancelTwice(x: multiset<int>, y: multiset<int>, a: multiset<int>, b: multiset<int>, z: multiset<int>)
    requires x + a == y + (a + b) && z + b == x + multiset{}
    ensures z == y
  {
    forall k ensures z[k] == y[k] {
      assert (x + a)[k] == x[k] + a[k];
      assert (z + b)[k] == z[k] + b[k];
      assert (x + multiset{})[k] == x[k];
      assert (y + (a + b))[k] == y[k] + (a[k] + b[k]);
    }
  }

  lemma {:induction false} FlattenCompact(s: Slots)
    ensures Flatten(Compact(s)) == Flatten(s)
  {
    if s != [] {
      FlattenCompact(s[1..]);
      if s[0] == [] {
        assert Compact(s) == Compact(s[1..]);
      } else {
        assert Compact(s)[0] == s[0] && Compact(s)[1..] == Compact(s[1..]);
      }
    }
  }

  lemma {:induction false} FlattenSingletons(s: Slots, lo: nat)
    requires forall i :: 0 <= i < |s| ==> s[i] == [lo + i]
    ensures Flatten(s) == Range(lo, lo + |s|)
    decreases |s|
  {
    if s != [] {
      forall i | 0 <= i < |s[1..]| ensures s[1..][i] == [lo + 1 + i] {
        assert s[1..][i] == s[i + 1];
      }
      FlattenSingletons(s[1..], lo + 1);
      assert s[0] == [lo];
    }
  }

  lemma FirstJoinKeepsPartition(d: Distance, s: Slots, ms: seq<Merge>)
    requires ms != [] && Greedy(d, s, ms) && KeyedByLeast(s)
    ensures var next := Join(s, ms[0].i, ms[0].j);
            KeyedByLeast(next) && multiset(Flatten(next)) == multiset(Flatten(s)) && Greedy(d, next, ms[1..])
  {
    FlattenJoin(s, ms[0].i, ms[0].j);
  }

  lemma {:induction false} GreedyKeepsPartition(d: Distance, s: Slots, ms: seq<Merge>)
    requires Greedy(d, s, ms) && KeyedByLeast(s)
    ensures KeyedByLeast(Play(s, ms))
    ensures multiset(Flatten(Play(s, ms))) == multiset(Flatten(s))
    decreases |ms|
  {
    if ms != [] {
      FirstJoinKeepsPartition(d, s, ms);
      GreedyKeepsPartition(d, Join(s, ms[0].i, ms[0].j), ms[1..]);
    }
  }

  /** The clusters are a partition of 0..n-1, each keyed by its least member. */
  lemma CutPartitions(d: Distance, n: nat, t: real, ms: seq<Merge>)
    requires IsCut(d, n, t, ms)
    ensures KeyedByLeast(Play(Init(n), ms))
    ensures multiset(Flatten(Compact(Play(Init(n), ms)))) == multiset(Range(0, n))
  {
    InitPartitions(n);
    GreedyKeepsPartition(d, Init(n), ms);
    FlattenCompact(Play(Init(n), ms));
  }

  lemma InitPartitions(n: nat)
    ensures KeyedByLeast(Init(n)) && Flatten(Init(n)) == Range(0, n)
  {
    FlattenSingletons(Init(n), 0);
  }

  // ---------------------------------------------------------------- cohesion

  /** The number of unordered pairs of m things. */
  function Pairs(m: nat): real {
    Triangle(m)
  }

  function Triangle(m: nat): real {
    if m == 0 then 0.0 else Triangle(m - 1) + (m - 1) as real
  }

  /** The distances over all pairs of A sum to at most t times the number of pairs,
      so their mean is at most t. */
  ghost predicate MeanAtMost(d: Distance, t: real, A: seq<int>) {
    Intra(d, A) <= t * Pairs(|A|)
  }

  /** How far each distance exceeds t. */
  function Over(d: Distance, t: real): Distance {
    (a, b) => d(a, b) - t
  }

  /** On the whole, the distances inside A do not exceed t. */
  ghost predicate Cohesive(d: Distance, t: real, A: seq<int>) {
    Intra(Over(d, t), A) <= 0.0
  }

  lemma {:induction false} LinkRowOver(d: Distance, t: real, a: int, B: seq<int>)
    ensures LinkRow(Over(d, t), a, B) == LinkRow(d, a, B) - t * |B| as real
  {
    if B != [] {
      LinkRowOver(d, t, a, B[1..]);
      Times(t, |B| - 1, 1);
    }
  }

  lemma Times(t: real, a: nat, b: nat)
    ensures t * (a + b) as real == t * a as real + t * b as real
  {
    assert (a + b) as real == a as real + b as real;
  }

  lemma {:induction false} LinkSumOver(d: Distance, t: real, A: seq<int>, B: seq<int>)
    ensures LinkSum(Over(d, t), A, B) == LinkSum(d, A, B) - t * Product(|A|, |B|)
  {
    if A != [] {
      LinkSumOver(d, t, A[1..], B);
      LinkRowOver(d, t, A[0], B);
      ProductSuccessor(|A| - 1, |B|);
      Distribute(t, Product(|A| - 1, |B|), |B| as real);
    }
  }

  lemma {:induction false} IntraOver(d: Distance, t: real, A: seq<int>)
    ensures Intra(Over(d, t), A) == Intra(d, A) - t * Pairs(|A|)
  {
    if A != [] {
      IntraOver(d, t, A[1..]);
      LinkRowOver(d, t, A[0], A[1..]);
      Distribute(t, Pairs(|A| - 1), (|A| - 1) as real);
    }
  }

  lemma Distribute(t: real, x: real, y: real)
    ensures t * (x + y) == t * x + t * y
  {
  }

  lemma JoinCohesive(d: Distance, t: real, A: seq<int>, B: seq<int>)
    requires A != [] && B != [] && Cohesive(d, t, A) && Cohesive(d, t, B)
    requires Mean(d, A, B) <= t
    ensures Cohesive(d, t, A + B)
  {
    IntraConcat(Over(d, t), A, B);
    CloseOnAverage(d, t, A, B);
  }

  lemma CloseOnAverage(d: Distance, t: real, A: seq<int>, B: seq<int>)
    requires A != [] && B != [] && Mean(d, A, B) <= t
    ensures LinkSum(Over(d, t), A, B) <= 0.0
  {
    LinkSumOver(d, t, A, B);
    ShareBound(LinkSum(d, A, B), |A|, |B|, t);
  }

  lemma ShareBound(x: real, a: nat, b: nat, t: real)
    requires a > 0 && b > 0 && Share(x, a, b) <= t
    ensures x <= t * Product(a, b)
  {
    QuotientBound(x, Product(a, b), t);
  }

  lemma QuotientBound(x: real, p: real, t: real)
    requires p > 0.0 && x / p <= t
    ensures x <= t * p
  {
    ProductMonotone(x / p, t, p);
  }

  lemma ProductMonotone(x: real, y: real, p: real)
    requires x <= y && p > 0.0
    ensures x * p <= y * p
  {
  }

  lemma ProductSuccessor(a: nat, b: nat)
    ensures Product(a + 1, b) == Product(a, b) + b as real
  {
    assert (a + 1) as real == a as real + 1.0;
  }

  lemma {:induction false} PairsClosedForm(m: nat)
    ensures 2.0 * Pairs(m) == Product(m, m) - m as real
  {
    if m > 0 {
      PairsClosedForm(m - 1);
      SquareSuccessor(m - 1);
    }
  }

  lemma SquareSuccessor(a: nat)
    ensures Product(a + 1, a + 1) == Product(a, a) + 2.0 * a as real + 1.0
  {
    ProductSuccessor(a, a + 1);
    assert (a + 1) as real == a as real + 1.0;
  }

  ghost predicate AllCohesive(d: Distance, t: real, s: Slots) {
    forall i :: Live(s, i) ==> Cohesive(d, t, s[i])
  }

  lemma {:induction false} GreedyKeepsCohesion(d: Distance, t: real, s: Slots, ms: seq<Merge>)
    requires Greedy(d, s, ms) && HeightsAtMost(ms, t) && AllCohesive(d, t, s)
    ensures AllCohesive(d, t, Play(s, ms))
    decreases |ms|
  {
    if ms != [] {
      var m := ms[0];
      assert m.height <= t;
      JoinCohesive(d, t, s[m.i], s[m.j]);
      GreedyKeepsCohesion(d, t, Join(s, m.i, m.j), ms[1..]);
    }
  }

  lemma {:induction false} CompactMembers(s: Slots, k: nat)
    requires k < |Compact(s)|
    ensures exists i :: Live(s, i) && s[i] == Compact(s)[k]
    decreases |s|
  {
    if s[0] != [] && k == 0 {
      assert Live(s, 0);
    } else {
      var k' := if s[0] != [] then k - 1 else k;
      CompactMembers(s[1..], k');
      var i :| Live(s[1..], i) && s[1..][i] == Compact(s[1..])[k'];
      assert Live(s, i + 1);
    }
  }

  /** Inside every returned cluster the mean distance is at most the threshold. */
  lemma CutCohesive(d: Distance, n: nat, t: real, ms: seq<Merge>, k: nat)
    requires IsCut(d, n, t, ms) && k < |Compact(Play(Init(n), ms))|
    ensures Compact(Play(Init(n), ms))[k] != []
    ensures MeanAtMost(d, t, Compact(Play(Init(n), ms))[k])
  {
    forall i | Live(Init(n), i) ensures Cohesive(d, t, Init(n)[i]) {
      assert Init(n)[i][1..] == [];
    }
    GreedyKeepsCohesion(d, t, Init(n), ms);
    CompactMembers(Play(Init(n), ms), k);
    var A := Compact(Play(Init(n), ms))[k];
    assert Cohesive(d, t, A);
    CohesiveMean(d, t, A);
  }

  lemma {:induction false} CompactPair(s: Slots, k: nat, l: nat)
    requires k < l < |Compact(s)|
    ensures exists i, j :: Live(s, i) && Live(s, j) && i < j && s[i] == Compact(s)[k] && s[j] == Compact(s)[l]
    decreases |s|
  {
    var rest := s[1..];
    if s[0] != [] && k == 0 {
      CompactMembers(rest, l - 1);
      var j :| Live(rest, j) && rest[j] == Compact(rest)[l - 1];
      assert Live(s, 0) && Live(s, j + 1) && s[j + 1] == Compact(s)[l];
    } else {
      var skip := if s[0] != [] then 1 else 0;
      CompactPair(rest, k - skip, l - skip);
      var i, j :| Live(rest, i) && Live(rest, j) && i < j
                  && rest[i] == Compact(rest)[k - skip] && rest[j] == Compact(rest)[l - skip];
      assert Live(s, i + 1) && Live(s, j + 1) && s[i + 1] == Compact(s)[k] && s[j + 1] == Compact(s)[l];
    }
  }

  /** A and B are further apart, on average, than t. */
  ghost predicate Apart(d: Distance, t: real, A: seq<int>, B: seq<int>) {
    LinkSum(d, A, B) > t * Product(|A|, |B|)
  }

  lemma SeparatedApart(d: Distance, t: real, s: Slots, k: nat, l: nat)
    requires Separated(d, s, t) && k < l < |Compact(s)|
    ensures Apart(d, t, Compact(s)[k], Compact(s)[l])
  {
    CompactPair(s, k, l);
    var i, j :| Live(s, i) && Live(s, j) && i < j && s[i] == Compact(s)[k] && s[j] == Compact(s)[l];
    assert Gap(d, s, i, j) > t;
    FarApart(d, t, s[i], s[j]);
  }

  /** Two returned clusters are further apart than the threshold. */
  lemma CutSeparated(d: Distance, n: nat, t: real, ms: seq<Merge>, k: nat, l: nat)
    requires IsCut(d, n, t, ms) && k < l < |Compact(Play(Init(n), ms))|
    ensures Apart(d, t, Compact(Play(Init(n), ms))[k], Compact(Play(Init(n), ms))[l])
  {
    SeparatedApart(d, t, Play(Init(n), ms), k, l);
  }

  lemma FarApart(d: Distance, t: real, A: seq<int>, B: seq<int>)
    requires A != [] && B != [] && Mean(d, A, B) > t
    ensures Apart(d, t, A, B)
  {
    QuotientAbove(LinkSum(d, A, B), Product(|A|, |B|), t);
  }

  lemma QuotientAbove(x: real, p: real, t: real)
    requires p > 0.0 && x / p > t
    ensures x > t * p
  {
  }

  lemma CohesiveMean(d: Distance, t: real, A: seq<int>)
    ensures Cohesive(d, t, A) <==> MeanAtMost(d, t, A)
  {
    IntraOver(d, t, A);
  }
}
