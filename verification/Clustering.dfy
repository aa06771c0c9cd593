/** average_linkage: clustering in place on an n x n distance matrix, refining Linkage. */
module Clustering {
  import opened Vectors
  import opened Linkage

  /** A float that may be +inf. */
  datatype Ext = Fin(value: real) | Inf

  predicate Less(x: Ext, y: Ext) {
    x.Fin? && (y.Fin? ==> x.value < y.value)
  }

  /** (p * x + q * y) / (p + q); infinite as soon as x or y is. */
  function Blend(p: real, x: Ext, q: real, y: Ext): Ext
    requires p + q != 0.0
  {
    if x.Fin? && y.Fin? then Fin((p * x.value + q * y.value) / (p + q)) else Inf
  }

  function CosineDistance(vectors: seq<Vec>): Distance {
    (a, b) =>
      if 0 <= a < |vectors| && 0 <= b < |vectors| && |vectors[a]| == |vectors[b]|
      then 1.0 - Clip(Dot(vectors[a], vectors[b]), -1.0, 1.0) else 0.0
  }

  lemma CosineDistanceSymmetric(vectors: seq<Vec>)
    ensures Symmetric(CosineDistance(vectors))
  {
    var d := CosineDistance(vectors);
    forall a, b ensures d(a, b) == d(b, a) {
      if 0 <= a < |vectors| && 0 <= b < |vectors| && |vectors[a]| == |vectors[b]| {
        DotComm(vectors[a], vectors[b]);
      }
    }
  }

  /** The matrix entry that belongs to keys a and b. */
  ghost function Entry(d: Distance, s: Slots, a: int, b: int): Ext {
    if Live(s, a) && Live(s, b) && a != b then Fin(Gap(d, s, a, b)) else Inf
  }

  ghost predicate MatrixOf(d: Distance, s: Slots, dist: array2<Ext>)
    reads dist
  {
    && dist.Length0 == dist.Length1 == |s|
    && forall a, b :: 0 <= a < |s| && 0 <= b < |s| ==> dist[a, b] == Entry(d, s, a, b)
  }

  ghost predicate SizesOf(s: Slots, sizes: array<real>, active: array<bool>, members: map<int, seq<int>>)
    reads sizes, active
  {
    && sizes.Length == active.Length == |s|
    && (forall a :: a in members <==> Live(s, a))
    && (forall a :: 0 <= a < |s| ==> active[a] == Live(s, a))
    && (forall a :: Live(s, a) ==> members[a] == s[a] && sizes[a] == |s[a]| as real)
  }

  /** The row written by one merge of keys i and j. */
  ghost function MergedEntry(d: Distance, s: Slots, i: int, j: int, k: int): Ext
    requires Live(s, i) && Live(s, j)
  {
    Blend(|s[i]| as real, Entry(d, s, i, k), |s[j]| as real, Entry(d, s, j, k))
  }

  /** Lance-Williams: blending two rows gives the exact averages of the joined cluster. */
  lemma MergedEntryExact(d: Distance, s: Slots, i: int, j: int, k: int)
    requires Live(s, i) && Live(s, j) && i != j
    ensures k != i && k != j ==> MergedEntry(d, s, i, j, k) == Entry(d, Join(s, i, j), i, k)
    ensures k == i || k == j ==> MergedEntry(d, s, i, j, k) == Inf
  {
    if Live(s, k) && k != i && k != j {
      MeanOfMerge(d, s[i], s[j], s[k]);
    }
  }

  lemma EntrySymmetric(d: Distance, s: Slots, a: int, b: int)
    requires Symmetric(d)
    ensures Entry(d, s, a, b) == Entry(d, s, b, a)
  {
    if Live(s, a) && Live(s, b) {
      MeanSymmetric(d, s[a], s[b]);
    }
  }

  /** What a merge (MergeRows) leaves in the matrix. */
  ghost function Updated(d: Distance, s: Slots, i: int, j: int, a: int, b: int): Ext
    requires Live(s, i) && Live(s, j)
  {
    if a == j || b == j || (a == i && b == i) then Inf
    else if a == i then MergedEntry(d, s, i, j, b)
    else if b == i then MergedEntry(d, s, i, j, a)
    else Entry(d, s, a, b)
  }

  lemma UpdatedExact(d: Distance, s: Slots, i: int, j: int, a: int, b: int)
    requires Symmetric(d) && Live(s, i) && Live(s, j) && i != j
    ensures Updated(d, s, i, j, a, b) == Entry(d, Join(s, i, j), a, b)
  {
    MergedEntryExact(d, s, i, j, a);
    MergedEntryExact(d, s, i, j, b);
    EntrySymmetric(d, Join(s, i, j), a, b);
  }

  method MergeRows(dist: array2<Ext>, i: int, j: int, p: real, q: real, ghost d: Distance, ghost s: Slots)
    requires Symmetric(d) && MatrixOf(d, s, dist)
    requires Live(s, i) && Live(s, j) && i != j && p == |s[i]| as real && q == |s[j]| as real
    modifies dist
    ensures MatrixOf(d, Join(s, i, j), dist)
  {
    var n := dist.Length0;
    var merged := new Ext[n];
    forall k | 0 <= k < n {
      merged[k] := Blend(p, dist[i, k], q, dist[j, k]);
    }
    forall k | 0 <= k < n {
      dist[i, k] := merged[k];
    }
    forall k | 0 <= k < n {
      dist[k, i] := merged[k];
    }
    dist[i, i] := Inf;
    forall k | 0 <= k < n {
      dist[j, k] := Inf;
    }
    forall k | 0 <= k < n {
      dist[k, j] := Inf;
    }
    forall a, b | 0 <= a < n && 0 <= b < n
      ensures dist[a, b] == Entry(d, Join(s, i, j), a, b)
    {
      assert dist[a, b] == Updated(d, s, i, j, a, b);
      UpdatedExact(d, s, i, j, a, b);
    }
  }

  /** The position (a, b) is read as +inf unless both rows are active. */
  function Masked(dist: array2<Ext>, active: array<bool>, a: int, b: int): Ext
    requires 0 <= a < dist.Length0 && 0 <= b < dist.Length1
    requires dist.Length0 == dist.Length1 == active.Length
    reads dist, active
  {
    if active[a] && active[b] then dist[a, b] else Inf
  }

  /** divmod(flat, n): comparing positions comes to comparing their places in the flattened matrix. */
  lemma RowMajor(n: nat, a: nat, b: nat, i: nat, j: nat)
    requires b < n && j < n
    ensures Before(a, b, i, j) <==> a * n + b < i * n + j
  {
    if a < i {
      RowsApart(n, a, i);
    } else if i < a {
      RowsApart(n, i, a);
    }
  }

  lemma RowsApart(n: nat, a: nat, i: nat)
    requires a < i
    ensures a * n + n <= i * n
  {
    assert i * n == a * n + (i - a) * n;
    AtLeastOne(i - a, n);
  }

  lemma AtLeastOne(k: nat, n: nat)
    requires k >= 1
    ensures n <= k * n
  {
  }

  /** np.argmin over the flattened masked matrix: the first least entry in row-major order. */
  method ArgMin(dist: array2<Ext>, active: array<bool>) returns (i: int, j: int)
    requires dist.Length0 == dist.Length1 == active.Length > 0
    ensures 0 <= i < dist.Length0 && 0 <= j < dist.Length0
    ensures forall a, b :: 0 <= a < dist.Length0 && 0 <= b < dist.Length0 ==>
              && !Less(Masked(dist, active, a, b), Masked(dist, active, i, j))
              && (Before(a, b, i, j) ==> Less(Masked(dist, active, i, j), Masked(dist, active, a, b)))
  {
    var n := dist.Length0;
    i, j := 0, 0;
    for r := 0 to n
      invariant 0 <= i < n && 0 <= j < n && (i < r || (i == 0 && j == 0))
      invariant forall a, b :: 0 <= a < r && 0 <= b < n ==>
                  && !Less(Masked(dist, active, a, b), Masked(dist, active, i, j))
                  && (Before(a, b, i, j) ==> Less(Masked(dist, active, i, j), Masked(dist, active, a, b)))
    {
      for c := 0 to n
        invariant 0 <= i < n && 0 <= j < n && (i < r || (i == r && j < c) || (i == 0 && j == 0))
        invariant forall a, b :: 0 <= a < n && 0 <= b < n && (a < r || (a == r && b < c)) ==>
                    && !Less(Masked(dist, active, a, b), Masked(dist, active, i, j))
                    && (Before(a, b, i, j) ==> Less(Masked(dist, active, i, j), Masked(dist, active, a, b)))
      {
        if Less(Masked(dist, active, r, c), Masked(dist, active, i, j)) {
          i, j := r, c;
        }
      }
    }
  }

  function CountTrue(flags: seq<bool>): nat {
    if flags == [] then 0 else (if flags[0] then 1 else 0) + CountTrue(flags[1..])
  }

  method ActiveCount(active: array<bool>) returns (count: nat)
    ensures count == CountTrue(active[..])
  {
    count := 0;
    var k := active.Length;
    while k > 0
      invariant 0 <= k <= active.Length
      invariant count == CountTrue(active[k..])
    {
      k := k - 1;
      assert active[k..] == [active[k]] + active[k + 1..];
      count := count + if active[k] then 1 else 0;
    }
    assert active[0..] == active[..];
  }

  lemma {:induction false} CountTrueClear(flags: seq<bool>, j: nat)
    requires j < |flags| && flags[j]
    ensures CountTrue(flags[j := false]) == CountTrue(flags) - 1
  {
    if j > 0 {
      CountTrueClear(flags[1..], j - 1);
      assert flags[j := false][1..] == flags[1..][j - 1 := false];
    } else {
      assert flags[0 := false][1..] == flags[1..];
    }
  }

  lemma {:induction false} CountTrueAtLeast(flags: seq<bool>, a: nat, b: nat)
    requires a < b < |flags| && flags[a] && flags[b]
    ensures CountTrue(flags) >= 2
  {
    CountTrueClear(flags, a);
    CountTrueClear(flags[a := false], b);
  }

  /** The entry found by ArgMin, when finite, is the closest pair with i < j. */
  lemma ArgMinClosest(d: Distance, s: Slots, i: int, j: int)
    requires Symmetric(d) && 0 <= i < |s| && 0 <= j < |s|
    requires forall a, b :: 0 <= a < |s| && 0 <= b < |s| ==>
              && !Less(Entry(d, s, a, b), Entry(d, s, i, j))
              && (Before(a, b, i, j) ==> Less(Entry(d, s, i, j), Entry(d, s, a, b)))
    ensures Entry(d, s, i, j).Fin? ==> Closest(d, s, i, j) && Entry(d, s, i, j).value == Gap(d, s, i, j)
    ensures Entry(d, s, i, j).Inf? ==> forall t :: Separated(d, s, t)
    ensures Entry(d, s, i, j).Fin? ==> forall t :: t < Entry(d, s, i, j).value ==> Separated(d, s, t)
  {
    EntrySymmetric(d, s, i, j);
    assert !Less(Entry(d, s, j, i), Entry(d, s, i, j));
    forall a, b | Live(s, a) && Live(s, b) && a < b
      ensures Entry(d, s, i, j).Fin? && Entry(d, s, i, j).value <= Gap(d, s, a, b)
      ensures Before(a, b, i, j) ==> Entry(d, s, i, j).value < Gap(d, s, a, b)
    {
      assert Entry(d, s, a, b) == Fin(Gap(d, s, a, b));
      assert !Less(Entry(d, s, a, b), Entry(d, s, i, j));
    }
  }

  method DistanceMatrix(vectors: seq<Vec>) returns (dist: array2<Ext>)
    requires forall i :: 0 <= i < |vectors| ==> |vectors[i]| == |vectors[0]|
    ensures fresh(dist) && MatrixOf(CosineDistance(vectors), Init(|vectors|), dist)
  {
    var n := |vectors|;
    dist := new Ext[n, n]((a, b) => Inf);
    forall a, b | 0 <= a < n && 0 <= b < n {
      dist[a, b] := Fin(1.0 - Clip(Dot(vectors[a], vectors[b]), -1.0, 1.0));
    }
    forall a | 0 <= a < n {
      dist[a, a] := Inf;
    }
    forall a, b | 0 <= a < n && 0 <= b < n
      ensures dist[a, b] == Entry(CosineDistance(vectors), Init(n), a, b)
    {
      InitialGap(CosineDistance(vectors), n, a, b);
    }
  }

  /** One merge: rows, sizes, members and the active mask. */
  method Merging(dist: array2<Ext>, sizes: array<real>, active: array<bool>, members: map<int, seq<int>>,
                 i: int, j: int, ghost d: Distance, ghost s: Slots)
    returns (left: map<int, seq<int>>, count: nat)
    requires Symmetric(d) && MatrixOf(d, s, dist) && SizesOf(s, sizes, active, members)
    requires Live(s, i) && Live(s, j) && i < j
    modifies dist, sizes, active
    ensures MatrixOf(d, Join(s, i, j), dist) && SizesOf(Join(s, i, j), sizes, active, left)
    ensures count == CountTrue(active[..]) == old(CountTrue(active[..])) - 1
  {
    CountTrueClear(active[..], j);
    MergeRows(dist, i, j, sizes[i], sizes[j], d, s);
    sizes[i] := sizes[i] + sizes[j];
    left := members[i := members[i] + members[j]] - {j};
    active[j] := false;
    assert active[..] == old(active[..])[j := false];
    count := ActiveCount(active);
  }

  lemma {:induction false} CompactAppend(s: Slots, A: seq<int>)
    ensures Compact(s + [A]) == Compact(s) + if A == [] then [] else [A]
  {
    if s == [] {
      assert s + [A] == [A];
    } else {
      CompactAppend(s[1..], A);
      assert (s + [A])[1..] == s[1..] + [A];
    }
  }

  method Survivors(active: array<bool>, members: map<int, seq<int>>, ghost s: Slots) returns (groups: seq<seq<int>>)
    requires active.Length == |s| && forall a :: 0 <= a < |s| ==> active[a] == Live(s, a)
    requires forall a :: Live(s, a) ==> a in members && members[a] == s[a]
    ensures groups == Compact(s)
  {
    groups := [];
    for k := 0 to active.Length
      invariant groups == Compact(s[..k])
    {
      CompactAppend(s[..k], s[k]);
      assert s[..k] + [s[k]] == s[..k + 1];
      if active[k] {
        groups := groups + [members[k]];
      }
    }
    assert s[..|s|] == s;
  }

  lemma FewActiveSeparated(d: Distance, s: Slots, active: seq<bool>, t: real)
    requires |active| == |s| && CountTrue(active) <= 1
    requires forall a :: 0 <= a < |s| ==> active[a] == Live(s, a)
    ensures Separated(d, s, t)
  {
    forall a, b | Live(s, a) && Live(s, b) && a < b ensures false {
      CountTrueAtLeast(active, a, b);
    }
  }

  /** The closest pair under the mask, or nothing to merge. */
  method ClosestPair(dist: array2<Ext>, active: array<bool>, ghost d: Distance, ghost s: Slots)
    returns (i: int, j: int, least: Ext)
    requires Symmetric(d) && MatrixOf(d, s, dist) && |s| > 0
    requires active.Length == |s| && forall a :: 0 <= a < |s| ==> active[a] == Live(s, a)
    ensures least.Fin? ==> Closest(d, s, i, j) && least.value == Gap(d, s, i, j)
    ensures forall t :: least.Inf? || least.value > t ==> Separated(d, s, t)
  {
    i, j := ArgMin(dist, active);
    forall a, b | 0 <= a < |s| && 0 <= b < |s|
      ensures Masked(dist, active, a, b) == Entry(d, s, a, b) {}
    ArgMinClosest(d, s, i, j);
    least := Masked(dist, active, i, j);
  }

  /** Agglomerative clustering with average linkage on cosine distance. The result is
      the naive algorithm's, which Linkage.ClusteringUnique says is the only one. */
  method AverageLinkage(vectors: seq<Vec>, threshold: real)
    returns (groups: seq<seq<int>>)
    requires forall i :: 0 <= i < |vectors| ==> |vectors[i]| == |vectors[0]|
    ensures IsClustering(CosineDistance(vectors), |vectors|, threshold, groups)
  {
    var n := |vectors|;
    if n == 0 {
      assert IsCut(CosineDistance(vectors), 0, threshold, []);
      return [];
    }
    CosineDistanceSymmetric(vectors);
    var dist := DistanceMatrix(vectors);
    var sizes := new real[n](a => 1.0);
    var members := map a: int | 0 <= a < n :: [a];
    var active := new bool[n](a => true);
    ghost var merges, s;
    members, merges, s := MergeUntil(dist, sizes, active, members, threshold, CosineDistance(vectors));
    groups := Survivors(active, members, s);
  }

  /** The while loop. */
  method MergeUntil(dist: array2<Ext>, sizes: array<real>, active: array<bool>, start: map<int, seq<int>>,
                    threshold: real, ghost d: Distance)
    returns (members: map<int, seq<int>>, ghost merges: seq<Merge>, ghost s: Slots)
    requires active.Length > 0 && Symmetric(d)
    requires MatrixOf(d, Init(active.Length), dist) && SizesOf(Init(active.Length), sizes, active, start)
    modifies dist, sizes, active
    ensures s == Play(Init(active.Length), merges) && IsCut(d, active.Length, threshold, merges)
    ensures SizesOf(s, sizes, active, members)
  {
    members := start;
    merges := [];
    s := Init(active.Length);
    var count := ActiveCount(active);
    while count > 1
      invariant MatrixOf(d, s, dist) && SizesOf(s, sizes, active, members)
      invariant PartialRun(d, active.Length, threshold, merges, s)
      invariant count == CountTrue(active[..])
      decreases count
    {
      var i, j, least := ClosestPair(dist, active, d, s);
      if least.Inf? || least.value > threshold {
        return;
      }
      assert i < j;
      if i > j {
        i, j := j, i;
      }
      merges := RecordMerge(d, active.Length, threshold, merges, s, i, j, least.value);
      members, count := Merging(dist, sizes, active, members, i, j, d, s);
      s := Join(s, i, j);
    }
    FewActiveSeparated(d, s, active[..], threshold);
  }

  /** s is reached by greedy merges at heights up to t. */
  ghost predicate PartialRun(d: Distance, n: nat, t: real, ms: seq<Merge>, s: Slots) {
    Greedy(d, Init(n), ms) && HeightsAtMost(ms, t) && s == Play(Init(n), ms)
  }

  lemma RecordMerge(d: Distance, n: nat, t: real, ms: seq<Merge>, s: Slots, i: int, j: int, h: real)
    returns (longer: seq<Merge>)
    requires PartialRun(d, n, t, ms, s)
    requires Closest(d, s, i, j) && h == Gap(d, s, i, j) && h <= t
    ensures PartialRun(d, n, t, longer, Join(s, i, j))
  {
    GreedyAppend(d, Init(n), ms, Merge(i, j, h));
    longer := ms + [Merge(i, j, h)];
  }

  lemma InitialGap(d: Distance, n: nat, a: int, b: int)
    requires 0 <= a < n && 0 <= b < n
    ensures Gap(d, Init(n), a, b) == d(a, b)
  {
    assert LinkRow(d, a, [b]) == d(a, b) + LinkRow(d, a, []);
    assert LinkSum(d, [a], [b]) == LinkRow(d, a, [b]) + LinkSum(d, [], [b]);
    assert Share(d(a, b), 1, 1) == d(a, b);
  }
}
