/** build_interests: one medoid per cluster of the user's interest vectors. */
module Interests {
  import opened Vectors
  import opened Linkage
  import opened Clustering
  import opened StableSort
  import opened Wrappers

  const MAX_INTEREST_VECTORS := 80
  const CLUSTER_DISTANCE := 0.45

  datatype Topic = Topic(vector: Vec, importance: real, caption: string)

  datatype Interest = Interest(vector: Vec, importance: real, caption: string)

  const ByImportance: Topic -> real := (t: Topic) => t.importance
  const InterestImportance: Interest -> real := (t: Interest) => t.importance

  /** The candidates that are clustered: the most important ones, at most 80. */
  function Kept(candidates: seq<Topic>): (kept: seq<Topic>)
    ensures |kept| <= MAX_INTEREST_VECTORS
  {
    var sorted := SortDesc(ByImportance, candidates);
    if |sorted| <= MAX_INTEREST_VECTORS then sorted else sorted[..MAX_INTEREST_VECTORS]
  }

  function Matrix(topics: seq<Topic>): (m: seq<Vec>)
    ensures |m| == |topics| && forall i :: 0 <= i < |m| ==> m[i] == topics[i].vector
  {
    seq(|topics|, i requires 0 <= i < |topics| => topics[i].vector)
  }

  predicate Within(group: seq<int>, n: nat) {
    forall k :: 0 <= k < |group| ==> 0 <= group[k] < n
  }

  function SumOver(f: int -> real, s: seq<int>): real {
    if s == [] then 0.0 else f(s[0]) + SumOver(f, s[1..])
  }

  function ImportanceAt(topics: seq<Topic>): int -> real {
    i => if 0 <= i < |topics| then topics[i].importance else 0.0
  }

  /** The importances of a group's topics, added up. */
  function GroupImportance(topics: seq<Topic>, group: seq<int>): real
    requires Within(group, |topics|)
  {
    if group == [] then 0.0 else topics[group[0]].importance + GroupImportance(topics, group[1..])
  }

  function SumOfTopics(topics: seq<Topic>): real {
    if topics == [] then 0.0 else topics[0].importance + SumOfTopics(topics[1..])
  }

  function TotalImportance(s: seq<Interest>): real {
    if s == [] then 0.0 else s[0].importance + TotalImportance(s[1..])
  }

  function VecSum(vs: seq<Vec>, group: seq<int>, dim: nat): (v: Vec)
    requires Within(group, |vs|) && forall i :: 0 <= i < |vs| ==> |vs[i]| == dim
    ensures |v| == dim
  {
    VecSumFrom(vs, group, dim)
  }

  function VecSumFrom(vs: seq<Vec>, group: seq<int>, dim: nat): (v: Vec)
    requires Within(group, |vs|) && forall i :: 0 <= i < |vs| ==> |vs[i]| == dim
    ensures |v| == dim
  {
    if group == [] then Zero(dim) else Add(vs[group[0]], VecSumFrom(vs, group[1..], dim))
  }

  /** sub.mean(axis=0) */
  function Centroid(vs: seq<Vec>, group: seq<int>, dim: nat): (v: Vec)
    requires Within(group, |vs|) && group != [] && forall i :: 0 <= i < |vs| ==> |vs[i]| == dim
    ensures |v| == dim
  {
    Scale(1.0 / |group| as real, VecSum(vs, group, dim))
  }

  // ------------------------------------------------------------------ the centroid

  lemma UnitDistance(vs: seq<Vec>, dim: nat, a: int, b: int)
    requires UnitRows(vs, dim) && 0 <= a < |vs| && 0 <= b < |vs|
    ensures CosineDistance(vs)(a, b) == 1.0 - Dot(vs[a], vs[b])
    ensures CosineDistance(vs)(a, a) == 0.0
  {
    UnitDotBound(vs[a], vs[b]);
  }

  /** The total distance from a to a group, in one dot product instead of |group| of them. */
  lemma {:induction false} DotWithSum(vs: seq<Vec>, dim: nat, a: int, group: seq<int>)
    requires UnitRows(vs, dim) && 0 <= a < |vs| && Within(group, |vs|)
    ensures Dot(VecSum(vs, group, dim), vs[a]) == |group| as real - LinkRow(CosineDistance(vs), a, group)
  {
    if group == [] {
      DotZero(vs[a]);
    } else {
      DotWithSum(vs, dim, a, group[1..]);
      DotAdd(vs[group[0]], VecSum(vs, group[1..], dim), vs[a]);
      DotComm(vs[group[0]], vs[a]);
      UnitDistance(vs, dim, a, group[0]);
    }
  }

  lemma {:induction false} SumWithSum(vs: seq<Vec>, dim: nat, part: seq<int>, group: seq<int>)
    requires UnitRows(vs, dim) && Within(part, |vs|) && Within(group, |vs|)
    ensures Dot(VecSum(vs, part, dim), VecSum(vs, group, dim))
         == |part| as real * |group| as real - LinkSum(CosineDistance(vs), part, group)
  {
    var total := VecSum(vs, group, dim);
    if part == [] {
      DotZero(total);
    } else {
      SumWithSum(vs, dim, part[1..], group);
      DotAdd(vs[part[0]], VecSum(vs, part[1..], dim), total);
      DotComm(vs[part[0]], total);
      DotWithSum(vs, dim, part[0], group);
      assert |part| as real * |group| as real == (|part| - 1) as real * |group| as real + |group| as real by {
        ProductSuccessor(|part| - 1, |group|);
      }
    }
  }

  /** Summing over ordered pairs counts each unordered pair twice, and nothing on the diagonal. */
  lemma {:induction false} OrderedPairs(d: Distance, A: seq<int>)
    requires Symmetric(d) && forall k :: 0 <= k < |A| ==> d(A[k], A[k]) == 0.0
    ensures LinkSum(d, A, A) == 2.0 * Intra(d, A)
  {
    if A != [] {
      OrderedPairs(d, A[1..]);
      assert A == [A[0]] + A[1..];
      LinkSumColumn(d, A[1..], A[0], A[1..]);
    }
  }

  /** |sum|^2 of m unit vectors. */
  lemma SumNorm(vs: seq<Vec>, dim: nat, group: seq<int>)
    requires UnitRows(vs, dim) && Within(group, |vs|)
    ensures var sum := VecSum(vs, group, dim);
            Dot(sum, sum) == SumSquare(|group|, Intra(CosineDistance(vs), group))
  {
    var d := CosineDistance(vs);
    SumWithSum(vs, dim, group, group);
    CosineDistanceSymmetric(vs);
    forall k | 0 <= k < |group| ensures d(group[k], group[k]) == 0.0 {
      UnitDistance(vs, dim, group[k], group[k]);
    }
    OrderedPairs(d, group);
  }

  /** The squared norm of 1/n times a vector of squared norm x. */
  function Shrunk(n: nat, x: real): real
    requires n > 0
  {
    (1.0 / n as real) * ((1.0 / n as real) * x)
  }

  /** The squared norm of the sum of n unit vectors whose pairwise distances sum to intra. */
  function SumSquare(n: nat, intra: real): real {
    n as real * n as real - 2.0 * intra
  }

  lemma CentroidSquare(vs: seq<Vec>, dim: nat, group: seq<int>)
    requires UnitRows(vs, dim) && Within(group, |vs|) && group != []
    ensures var c := Centroid(vs, group, dim);
            Dot(c, c) == Shrunk(|group|, SumSquare(|group|, Intra(CosineDistance(vs), group)))
  {
    ShrunkSquare(|group|, VecSum(vs, group, dim));
    SumNorm(vs, dim, group);
  }

  lemma ShrunkSquare(n: nat, sum: Vec)
    requires n > 0
    ensures var c := Scale(1.0 / n as real, sum); Dot(c, c) == Shrunk(n, Dot(sum, sum))
  {
    ScaledSquare(1.0 / n as real, sum);
  }

  /** y >= 1 - t * (n - 1) / n, written without the division. */
  predicate NormAtLeast(n: nat, t: real, y: real) {
    n as real * y >= n as real - t * (n as real - 1.0)
  }

  /** The centroid of a cluster with mean distance at most t is long. */
  lemma CentroidNorm(vs: seq<Vec>, dim: nat, group: seq<int>, t: real)
    requires UnitRows(vs, dim) && Within(group, |vs|) && group != []
    requires MeanAtMost(CosineDistance(vs), t, group)
    ensures var c := Centroid(vs, group, dim); NormAtLeast(|group|, t, Dot(c, c))
  {
    CentroidSquare(vs, dim, group);
    ShrunkBound(|group|, Intra(CosineDistance(vs), group), t);
  }

  lemma ShrunkBound(n: nat, intra: real, t: real)
    requires n > 0 && intra <= t * Pairs(n)
    ensures NormAtLeast(n, t, Shrunk(n, SumSquare(n, intra)))
  {
    PairsClosedForm(n);
    Double(t, Pairs(n), Product(n, n) - n as real);
    InverseSquare(n as real, SumSquare(n, intra), t, Shrunk(n, SumSquare(n, intra)));
  }

  lemma Double(t: real, p: real, q: real)
    requires 2.0 * p == q
    ensures 2.0 * (t * p) == t * q
  {
  }

  lemma InverseSquare(m: real, x: real, t: real, y: real)
    requires m > 0.0 && x >= m * m - t * (m * m - m)
    requires y == (1.0 / m) * ((1.0 / m) * x)
    ensures m * y >= m - t * (m - 1.0)
  {
    var r := 1.0 / m;
    assert r * m == 1.0;
    assert m * y == r * x by { assert m * (r * (r * x)) == (r * m) * (r * x); }
    assert x >= m * (m - t * (m - 1.0)) by { Factor(m, t); }
    var z := m - t * (m - 1.0);
    assert r * x >= r * (m * z) by { assert r > 0.0; Scaled(r, m * z, x); }
    assert r * (m * z) == (r * m) * z;
  }

  lemma Factor(m: real, t: real)
    ensures m * m - t * (m * m - m) == m * (m - t * (m - 1.0))
  {
    assert t * (m * m - m) == m * (t * (m - 1.0)) by {
      assert m * m - m == m * (m - 1.0);
    }
  }

  lemma Scaled(r: real, x: real, y: real)
    requires r > 0.0 && x <= y
    ensures r * x <= r * y
  {
  }

  /** At the built-in threshold the centroid is far from zero. */
  lemma CentroidNotZero(vs: seq<Vec>, dim: nat, group: seq<int>)
    requires UnitRows(vs, dim) && Within(group, |vs|) && group != []
    requires MeanAtMost(CosineDistance(vs), CLUSTER_DISTANCE, group)
    ensures var c := Centroid(vs, group, dim); Dot(c, c) > 0.55
  {
    CentroidNorm(vs, dim, group, CLUSTER_DISTANCE);
    LargeNorm(|group|, Dot(Centroid(vs, group, dim), Centroid(vs, group, dim)));
  }

  lemma LargeNorm(n: nat, y: real)
    requires n > 0 && NormAtLeast(n, CLUSTER_DISTANCE, y)
    ensures y > 0.55
  {
    assert n as real * (y - 0.55) >= 0.45;
  }

  // ------------------------------------------------------------------ medoids

  /** np.argmax: the first greatest entry. */
  function FirstMax(xs: seq<real>): (best: nat)
    requires xs != []
    ensures best < |xs|
    ensures forall k :: 0 <= k < |xs| ==> xs[k] <= xs[best] && (k < best ==> xs[k] < xs[best])
  {
    if |xs| == 1 then 0
    else
      var later := FirstMax(xs[1..]) + 1;
      assert forall k :: 1 <= k < |xs| ==> xs[k] == xs[1..][k - 1];
      if xs[later] > xs[0] then later else 0
  }

  function Greatest(xs: seq<real>): real
    requires xs != []
  {
    xs[FirstMax(xs)]
  }

  lemma FirstMaxUnique(xs: seq<real>, best: nat)
    requires best < |xs| && forall k :: 0 <= k < |xs| ==> xs[k] <= xs[best] && (k < best ==> xs[k] < xs[best])
    ensures best == FirstMax(xs)
  {
    var first := FirstMax(xs);
    assert xs[first] <= xs[best] && xs[best] <= xs[first];
  }

  method ArgMax(xs: seq<real>) returns (best: nat)
    requires xs != []
    ensures best == FirstMax(xs)
  {
    best := 0;
    for k := 1 to |xs|
      invariant best < k && best < |xs|
      invariant forall l :: 0 <= l < k ==> xs[l] <= xs[best] && (l < best ==> xs[l] < xs[best])
    {
      if xs[k] > xs[best] {
        best := k;
      }
    }
    FirstMaxUnique(xs, best);
  }

  /** group[m] has the least total cosine distance to the whole group, and is the first such. */
  ghost predicate IsMedoid(vs: seq<Vec>, group: seq<int>, m: nat) {
    && m < |group|
    && forall k :: 0 <= k < |group| ==>
         && LinkRow(CosineDistance(vs), group[m], group) <= LinkRow(CosineDistance(vs), group[k], group)
         && (k < m ==> LinkRow(CosineDistance(vs), group[m], group) < LinkRow(CosineDistance(vs), group[k], group))
  }

  lemma SumOrder(vs: seq<Vec>, dim: nat, group: seq<int>, a: int, b: int)
    requires UnitRows(vs, dim) && Within(group, |vs|) && 0 <= a < |vs| && 0 <= b < |vs|
    ensures var sum, d := VecSum(vs, group, dim), CosineDistance(vs);
            Dot(vs[a], sum) < Dot(vs[b], sum) <==> LinkRow(d, b, group) < LinkRow(d, a, group)
  {
    DotWithSum(vs, dim, a, group);
    DotWithSum(vs, dim, b, group);
    DotComm(vs[a], VecSum(vs, group, dim));
    DotComm(vs[b], VecSum(vs, group, dim));
  }

  /** The dot product with the normalised centroid orders members by total distance, reversed. */
  lemma CosineOrder(vs: seq<Vec>, dim: nat, group: seq<int>, norm: real, a: int, b: int)
    requires UnitRows(vs, dim) && Within(group, |vs|) && group != [] && 0 <= a < |vs| && 0 <= b < |vs|
    requires norm > 0.0
    ensures var c, d := Scale(1.0 / norm, Centroid(vs, group, dim)), CosineDistance(vs);
            Dot(vs[a], c) < Dot(vs[b], c) <==> LinkRow(d, b, group) < LinkRow(d, a, group)
  {
    var sum := VecSum(vs, group, dim);
    SumOrder(vs, dim, group, a, b);
    ScaledDotOrder(1.0 / |group| as real, sum, vs[a], vs[b]);
    ScaledDotOrder(1.0 / norm, Centroid(vs, group, dim), vs[a], vs[b]);
  }

  /** The O(m) search refines the O(m^2) definition of the medoid. */
  lemma FastMedoid(vs: seq<Vec>, dim: nat, group: seq<int>, norm: real, cos: seq<real>, best: nat)
    requires UnitRows(vs, dim) && Within(group, |vs|) && group != [] && norm > 0.0
    requires |cos| == |group| && best < |cos|
    requires forall k :: 0 <= k < |cos| ==> cos[k] == Dot(vs[group[k]], Scale(1.0 / norm, Centroid(vs, group, dim)))
    requires forall k :: 0 <= k < |cos| ==> cos[k] <= cos[best] && (k < best ==> cos[k] < cos[best])
    ensures IsMedoid(vs, group, best)
  {
    var d := CosineDistance(vs);
    forall k | 0 <= k < |group|
      ensures LinkRow(d, group[best], group) <= LinkRow(d, group[k], group)
      ensures k < best ==> LinkRow(d, group[best], group) < LinkRow(d, group[k], group)
    {
      CosineOrder(vs, dim, group, norm, group[best], group[k]);
      CosineOrder(vs, dim, group, norm, group[k], group[best]);
    }
  }

  // ------------------------------------------------------------------ captions

  /** The non-empty captions of a group. */
  function Captions(topics: seq<Topic>, group: seq<int>): seq<string>
    requires Within(group, |topics|)
  {
    if group == [] then []
    else (if topics[group[0]].caption != "" then [topics[group[0]].caption] else []) + Captions(topics, group[1..])
  }

  /** A most frequent caption; which one of several is left open, as max over a set leaves it. */
  ghost predicate IsMode(captions: seq<string>, caption: string) {
    if captions == [] then caption == ""
    else caption in captions && forall c :: c in captions ==> multiset(captions)[c] <= multiset(captions)[caption]
  }

  method ModeCaption(captions: seq<string>) returns (caption: string)
    ensures IsMode(captions, caption)
  {
    if captions == [] {
      return "";
    }
    caption := captions[0];
    for k := 1 to |captions|
      invariant caption in captions
      invariant forall l :: 0 <= l < k ==> multiset(captions)[captions[l]] <= multiset(captions)[caption]
    {
      if multiset(captions)[captions[k]] > multiset(captions)[caption] {
        caption := captions[k];
      }
    }
  }

  // ------------------------------------------------------------------ the method

  /** What one cluster becomes: its medoid, the summed importance, a most frequent caption. */
  ghost predicate InterestOf(kept: seq<Topic>, group: seq<int>, it: Interest)
    requires Within(group, |kept|)
  {
    && (exists m: nat :: IsMedoid(Matrix(kept), group, m) && it.vector == kept[group[m]].vector)
    && it.importance == GroupImportance(kept, group)
    && IsMode(Captions(kept, group), it.caption)
  }

  ghost predicate SquareRoot(sqrt: real -> real) {
    forall x :: x >= 0.0 ==> sqrt(x) >= 0.0 && sqrt(x) * sqrt(x) == x
  }

  lemma RootNotTiny(r: real, x: real)
    requires r >= 0.0 && r * r == x && x > 0.55
    ensures r > 0.00000001
  {
    if r <= 1.0 {
      SquareShrinks(r);
    }
  }

  lemma SquareShrinks(r: real)
    requires 0.0 <= r <= 1.0
    ensures r * r <= r
  {
  }

  method SumImportance(kept: seq<Topic>, group: seq<int>) returns (total: real)
    requires Within(group, |kept|)
    ensures total == GroupImportance(kept, group)
  {
    total := 0.0;
    for k := 0 to |group|
      invariant total + GroupImportance(kept, group[k..]) == GroupImportance(kept, group)
    {
      assert group[k..][1..] == group[k + 1..];
      total := total + kept[group[k]].importance;
    }
  }

  /** The loop body of build_interests; None is the branch of a vanishing centroid. */
  method InterestFor(kept: seq<Topic>, group: seq<int>, dim: nat, sqrt: real -> real) returns (r: Option<Interest>)
    requires UnitRows(Matrix(kept), dim) && Within(group, |kept|) && group != [] && SquareRoot(sqrt)
    requires MeanAtMost(CosineDistance(Matrix(kept)), CLUSTER_DISTANCE, group)
    ensures r.Some? && InterestOf(kept, group, r.value)
  {
    var matrix := Matrix(kept);
    var centroid := Centroid(matrix, group, dim);
    CentroidNotZero(matrix, dim, group);
    var norm := sqrt(Dot(centroid, centroid));
    RootNotTiny(norm, Dot(centroid, centroid));
    if norm > 0.00000001 {
      var unit := Scale(1.0 / norm, centroid);
      var cos := seq(|group|, k requires 0 <= k < |group| => Dot(matrix[group[k]], unit));
      var best := ArgMax(cos);
      FastMedoid(matrix, dim, group, norm, cos, best);
      var total := SumImportance(kept, group);
      var caption := ModeCaption(Captions(kept, group));
      return Some(Interest(matrix[group[best]], total, caption));
    }
    return None;
  }

  lemma KeptRows(candidates: seq<Topic>, dim: nat)
    requires UnitRows(Matrix(candidates), dim)
    ensures UnitRows(Matrix(Kept(candidates)), dim)
  {
    SortSorts(ByImportance, candidates);
    forall i | 0 <= i < |Kept(candidates)|
      ensures |Matrix(Kept(candidates))[i]| == dim && Unit(Matrix(Kept(candidates))[i])
    {
      assert Kept(candidates)[i] in multiset(SortDesc(ByImportance, candidates));
      var j :| 0 <= j < |candidates| && candidates[j] == Kept(candidates)[i];
      assert Matrix(candidates)[j] == Matrix(Kept(candidates))[i];
    }
  }

  /** The kept topics are the most important ones: none left out is more important. */
  lemma KeptDominates(candidates: seq<Topic>)
    ensures var kept := Kept(candidates);
            exists rest :: multiset(kept + rest) == multiset(candidates)
                        && (rest != [] ==> |kept| == 80)
                        && forall x, y :: x in kept && y in rest ==> x.importance >= y.importance
  {
    SortSorts(ByImportance, candidates);
    var sorted, kept := SortDesc(ByImportance, candidates), Kept(candidates);
    var rest := sorted[|kept|..];
    assert kept + rest == sorted;
    forall x, y | x in kept && y in rest ensures x.importance >= y.importance {
      var i :| 0 <= i < |kept| && kept[i] == x;
      var j :| 0 <= j < |rest| && rest[j] == y;
      assert ByImportance(sorted[i]) >= ByImportance(sorted[|kept| + j]);
    }
  }

  lemma {:induction false} CompactShorter(s: Slots)
    ensures |Compact(s)| <= |s|
  {
    if s != [] {
      CompactShorter(s[1..]);
    }
  }

  lemma ClustersWithin(d: Distance, n: nat, t: real, ms: seq<Merge>)
    requires IsCut(d, n, t, ms)
    ensures var groups := Compact(Play(Init(n), ms));
            |groups| <= n && forall k :: 0 <= k < |groups| ==> Within(groups[k], n)
  {
    var s := Play(Init(n), ms);
    CompactShorter(s);
    CutPartitions(d, n, t, ms);
    forall k | 0 <= k < |Compact(s)| ensures Within(Compact(s)[k], n) {
      CompactMembers(s, k);
      var i :| Live(s, i) && s[i] == Compact(s)[k];
      forall l | 0 <= l < |s[i]| ensures 0 <= s[i][l] < n {
        assert s[i][l] in s[i];
      }
    }
  }

  // ------------------------------------------------------------------ conservation

  lemma {:induction false} SumConcat(f: int -> real, A: seq<int>, B: seq<int>)
    ensures SumOver(f, A + B) == SumOver(f, A) + SumOver(f, B)
  {
    if A == [] {
      assert A + B == B;
    } else {
      SumConcat(f, A[1..], B);
      assert (A + B)[1..] == A[1..] + B;
    }
  }

  lemma {:induction false} SumPermuted(f: int -> real, A: seq<int>, B: seq<int>)
    requires multiset(A) == multiset(B)
    ensures SumOver(f, A) == SumOver(f, B)
    decreases |A|
  {
    if A == [] {
      assert |multiset(B)| == 0;
    } else {
      var front, back := TakeOut(B, A[0]);
      MultisetOfTail(A);
      SumPermuted(f, A[1..], front + back);
      SumConcat(f, front, back);
      SumConcat(f, front, [A[0]] + back);
    }
  }

  lemma {:induction false} InsertTotal(x: Interest, s: seq<Interest>)
    ensures TotalImportance(InsertDesc(InterestImportance, x, s)) == x.importance + TotalImportance(s)
  {
    if s != [] && InterestImportance(s[0]) > InterestImportance(x) {
      InsertTotal(x, s[1..]);
    }
  }

  lemma {:induction false} SortTotal(s: seq<Interest>)
    ensures TotalImportance(SortDesc(InterestImportance, s)) == TotalImportance(s)
  {
    if s != [] {
      SortTotal(s[1..]);
      InsertTotal(s[0], SortDesc(InterestImportance, s[1..]));
    }
  }

  lemma {:induction false} GroupTotals(kept: seq<Topic>, groups: seq<seq<int>>, found: seq<Interest>)
    requires |groups| == |found|
    requires forall k :: 0 <= k < |groups| ==> Within(groups[k], |kept|)
    requires forall k :: 0 <= k < |found| ==> found[k].importance == GroupImportance(kept, groups[k])
    ensures TotalImportance(found) == SumOver(ImportanceAt(kept), Flatten(groups))
  {
    if found != [] {
      GroupTotals(kept, groups[1..], found[1..]);
      GroupSum(kept, groups[0]);
      SumConcat(ImportanceAt(kept), groups[0], Flatten(groups[1..]));
    }
  }

  lemma {:induction false} GroupSum(topics: seq<Topic>, group: seq<int>)
    requires Within(group, |topics|)
    ensures GroupImportance(topics, group) == SumOver(ImportanceAt(topics), group)
  {
    if group != [] {
      GroupSum(topics, group[1..]);
    }
  }

  lemma {:induction false} WholeSum(topics: seq<Topic>, lo: nat)
    requires lo <= |topics|
    ensures SumOver(ImportanceAt(topics), Range(lo, |topics|)) == SumOfTopics(topics[lo..])
    decreases |topics| - lo
  {
    if lo < |topics| {
      WholeSum(topics, lo + 1);
      assert topics[lo..][1..] == topics[lo + 1..];
    }
  }

  /** What a group's importance means: a single topic keeps its own, and joining groups adds. */
  lemma GroupsAdd(topics: seq<Topic>, i: int, a: seq<int>, b: seq<int>)
    requires 0 <= i < |topics| && Within(a, |topics|) && Within(b, |topics|)
    ensures GroupImportance(topics, [i]) == topics[i].importance
    ensures Within(a + b, |topics|)
    ensures GroupImportance(topics, a + b) == GroupImportance(topics, a) + GroupImportance(topics, b)
  {
    assert [i][1..] == [];
    GroupSum(topics, a);
    GroupSum(topics, b);
    GroupSum(topics, a + b);
    SumConcat(ImportanceAt(topics), a, b);
  }

  /** No importance is lost or counted twice. */
  lemma ImportanceConserved(kept: seq<Topic>, d: Distance, groups: seq<seq<int>>, found: seq<Interest>)
    requires IsClustering(d, |kept|, CLUSTER_DISTANCE, groups) && |groups| == |found|
    requires forall k :: 0 <= k < |groups| ==> Within(groups[k], |kept|)
    requires forall k :: 0 <= k < |found| ==> found[k].importance == GroupImportance(kept, groups[k])
    ensures TotalImportance(SortDesc(InterestImportance, found)) == SumOfTopics(kept)
  {
    var ms :| IsCut(d, |kept|, CLUSTER_DISTANCE, ms) && groups == Compact(Play(Init(|kept|), ms));
    SortTotal(found);
    GroupTotals(kept, groups, found);
    CutPartitions(d, |kept|, CLUSTER_DISTANCE, ms);
    SumPermuted(ImportanceAt(kept), Flatten(groups), Range(0, |kept|));
    WholeSum(kept, 0);
    assert kept[0..] == kept;
  }

  /** The first k clusters have become the first k interests. */
  ghost predicate Represented(kept: seq<Topic>, clusters: seq<seq<int>>, interests: seq<Interest>, k: nat) {
    && |interests| == k <= |clusters|
    && forall l :: 0 <= l < k ==> Within(clusters[l], |kept|) && InterestOf(kept, clusters[l], interests[l])
  }

  lemma RepresentedNext(kept: seq<Topic>, clusters: seq<seq<int>>, interests: seq<Interest>, k: nat, it: Interest)
    requires Represented(kept, clusters, interests, k) && k < |clusters|
    requires Within(clusters[k], |kept|) && InterestOf(kept, clusters[k], it)
    ensures Represented(kept, clusters, interests + [it], k + 1)
  {
  }

  /** The loop of build_interests: every cluster gives exactly one interest. */
  method FindInterests(kept: seq<Topic>, dim: nat, sqrt: real -> real, clusters: seq<seq<int>>)
    returns (interests: seq<Interest>)
    requires UnitRows(Matrix(kept), dim) && SquareRoot(sqrt)
    requires IsClustering(CosineDistance(Matrix(kept)), |kept|, CLUSTER_DISTANCE, clusters)
    ensures |clusters| <= |kept| && Represented(kept, clusters, interests, |clusters|)
  {
    interests := [];
    ghost var ms :| IsCut(CosineDistance(Matrix(kept)), |kept|, CLUSTER_DISTANCE, ms)
                    && clusters == Compact(Play(Init(|kept|), ms));
    ClustersWithin(CosineDistance(Matrix(kept)), |kept|, CLUSTER_DISTANCE, ms);
    for k := 0 to |clusters|
      invariant Represented(kept, clusters, interests, k)
    {
      CutCohesive(CosineDistance(Matrix(kept)), |kept|, CLUSTER_DISTANCE, ms, k);
      var interest := InterestFor(kept, clusters[k], dim, sqrt);
      if interest.Some? {
        RepresentedNext(kept, clusters, interests, k, interest.value);
        interests := interests + [interest.value];
      }
    }
  }

  /** One interest for each cluster of the kept topics, most important first. */
  ghost predicate AreInterests(kept: seq<Topic>, interests: seq<Interest>) {
    exists groups, found :: FoundFrom(kept, groups, found) && interests == SortDesc(InterestImportance, found)
  }

  ghost predicate FoundFrom(kept: seq<Topic>, groups: seq<seq<int>>, found: seq<Interest>) {
    && IsClustering(CosineDistance(Matrix(kept)), |kept|, CLUSTER_DISTANCE, groups)
    && Represented(kept, groups, found, |groups|)
  }

  lemma NoInterests()
    ensures AreInterests([], [])
  {
    assert IsCut(CosineDistance(Matrix([])), 0, CLUSTER_DISTANCE, []);
    assert FoundFrom([], [], []);
  }

  lemma {:induction false} TopicsAdd(x: seq<Topic>, y: seq<Topic>)
    ensures SumOfTopics(x + y) == SumOfTopics(x) + SumOfTopics(y)
  {
    if x == [] {
      assert x + y == y;
    } else {
      TopicsAdd(x[1..], y);
      assert (x + y)[1..] == x[1..] + y;
    }
  }

  lemma {:induction false} TopicsPermuted(x: seq<Topic>, y: seq<Topic>)
    requires multiset(x) == multiset(y)
    ensures SumOfTopics(x) == SumOfTopics(y)
    decreases |x|
  {
    if x == [] {
      assert |multiset(y)| == 0;
    } else {
      var front, back := TakeOut(y, x[0]);
      MultisetOfTail(x);
      TopicsPermuted(x[1..], front + back);
      TopicsAdd(front, back);
      TopicsAdd(front, [x[0]] + back);
      assert ([x[0]] + back)[1..] == back;
    }
  }

  /** With at most 80 candidates nothing is left out: the kept importance is all of it. */
  lemma FewAreAllKept(candidates: seq<Topic>)
    requires |candidates| <= 80
    ensures multiset(Kept(candidates)) == multiset(candidates)
    ensures SumOfTopics(Kept(candidates)) == SumOfTopics(candidates)
  {
    SortSorts(ByImportance, candidates);
    TopicsPermuted(Kept(candidates), candidates);
  }

  /** The clusters in numbers: the mean distance is at most 0.45 inside each and more than 0.45 between two. */
  lemma ClustersInNumbers(kept: seq<Topic>, groups: seq<seq<int>>)
    requires IsClustering(CosineDistance(Matrix(kept)), |kept|, CLUSTER_DISTANCE, groups)
    ensures forall k, l :: 0 <= k < l < |groups| ==>
              LinkSum(CosineDistance(Matrix(kept)), groups[k], groups[l]) > 0.45 * Product(|groups[k]|, |groups[l]|)
    ensures forall k :: 0 <= k < |groups| ==>
              2.0 * Intra(CosineDistance(Matrix(kept)), groups[k])
              <= 0.45 * (Product(|groups[k]|, |groups[k]|) - |groups[k]| as real)
  {
    var d, n := CosineDistance(Matrix(kept)), |kept|;
    var ms :| IsCut(d, n, CLUSTER_DISTANCE, ms) && groups == Compact(Play(Init(n), ms));
    forall k, l | 0 <= k < l < |groups|
      ensures LinkSum(d, groups[k], groups[l]) > 0.45 * Product(|groups[k]|, |groups[l]|)
    {
      CutSeparated(d, n, CLUSTER_DISTANCE, ms, k, l);
      assert Apart(d, CLUSTER_DISTANCE, groups[k], groups[l]);
    }
    forall k | 0 <= k < |groups|
      ensures 2.0 * Intra(d, groups[k]) <= 0.45 * (Product(|groups[k]|, |groups[k]|) - |groups[k]| as real)
    {
      CutCohesive(d, n, CLUSTER_DISTANCE, ms, k);
      PairsClosedForm(|groups[k]|);
    }
  }

  /** The topics of a group that carry a caption. */
  function Bearers(topics: seq<Topic>, group: seq<int>, caption: string): nat
    requires Within(group, |topics|)
  {
    if group == [] then 0
    else (if topics[group[0]].caption == caption then 1 else 0) + Bearers(topics, group[1..], caption)
  }

  lemma {:induction false} CaptionsCounted(topics: seq<Topic>, group: seq<int>, caption: string)
    requires Within(group, |topics|)
    ensures multiset(Captions(topics, group))[caption] == if caption == "" then 0 else Bearers(topics, group, caption)
  {
    if group != [] {
      CaptionsCounted(topics, group[1..], caption);
    }
  }

  /** The label of an interest: no other label is borne by more topics of its cluster, unlabelled ones left
      out; it is empty exactly when none of them has a label. */
  lemma LabelIsMostBorne(topics: seq<Topic>, group: seq<int>, caption: string, other: string)
    requires Within(group, |topics|) && IsMode(Captions(topics, group), caption) && other != ""
    ensures Bearers(topics, group, other) <= if caption == "" then 0 else Bearers(topics, group, caption)
    ensures caption != "" ==> Bearers(topics, group, caption) > 0
  {
    var captions := Captions(topics, group);
    CaptionsCounted(topics, group, caption);
    CaptionsCounted(topics, group, other);
    assert other in captions <==> multiset(captions)[other] > 0;
    assert caption in captions <==> multiset(captions)[caption] > 0;
  }

  /** Clusters the kept topics and keeps one medoid for each cluster, most important first. */
  method BuildInterests(candidates: seq<Topic>, dim: nat, sqrt: real -> real) returns (interests: seq<Interest>)
    requires UnitRows(Matrix(candidates), dim) && SquareRoot(sqrt)
    ensures AreInterests(Kept(candidates), interests)
    ensures |interests| <= 80
    ensures forall i, j :: 0 <= i < j < |interests| ==> interests[i].importance >= interests[j].importance
    ensures TotalImportance(interests) == SumOfTopics(Kept(candidates))
  {
    if candidates == [] {
      NoInterests();
      return [];
    }
    var kept := Kept(candidates);
    KeptRows(candidates, dim);
    var clusters := AverageLinkage(Matrix(kept), CLUSTER_DISTANCE);
    interests := FindInterests(kept, dim, sqrt, clusters);
    ghost var found := interests;
    SortSorts(InterestImportance, found);
    ImportanceConserved(kept, CosineDistance(Matrix(kept)), clusters, found);
    interests := SortDesc(InterestImportance, interests);
    assert FoundFrom(kept, clusters, found);
  }
}
