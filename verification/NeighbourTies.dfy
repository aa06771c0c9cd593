/** reading_depth when the sort does not fix the order of equal similarities: any order of ties is allowed. */
module NeighbourTies {
  import opened Vectors
  import opened Wrappers
  import opened StableSort
  import opened Contract
  import opened Interests
  import opened Scoring
  import opened LeaveOneOut

  /** What argsort(-s) may leave: the votes by descending similarity, ties in any order. */
  ghost predicate Arranged(votes: seq<Vote>, order: seq<Vote>) {
    multiset(order) == multiset(votes) && Descending(ByVote, order)
  }

  /** The first 15 of an order, and of those the positive ones. */
  function Nearest(order: seq<Vote>): seq<Vote> {
    Positive(Cut(order, KNN))
  }

  lemma SortedArranged(votes: seq<Vote>)
    ensures Arranged(votes, SortDesc(ByVote, votes)) && Nearest(SortDesc(ByVote, votes)) == Neighbours(votes)
  {
    SortSorts(ByVote, votes);
  }

  // ------------------------------------------------------------------ only positive votes matter

  function IfPositive(x: Vote): seq<Vote> {
    if x.s > 0.0 then [x] else []
  }

  lemma PositiveStep(x: Vote, rest: seq<Vote>)
    ensures Positive([x] + rest) == IfPositive(x) + Positive(rest)
  {
    assert ([x] + rest)[1..] == rest;
  }

  lemma Regrouped(a: seq<Vote>, b: seq<Vote>, c: seq<Vote>)
    ensures a + (b + c) == (a + b) + c
  {
  }

  lemma {:induction false} PositiveConcat(a: seq<Vote>, b: seq<Vote>)
    ensures Positive(a + b) == Positive(a) + Positive(b)
  {
    if a == [] {
      assert a + b == b;
    } else {
      var x, rest := a[0], a[1..];
      assert a == [x] + rest;
      Regrouped([x], rest, b);
      PositiveConcat(rest, b);
      PositiveStep(x, rest + b);
      PositiveStep(x, rest);
      Regrouped(IfPositive(x), Positive(rest), Positive(b));
    }
  }

  lemma {:induction false} PositivePermuted(a: seq<Vote>, b: seq<Vote>)
    requires multiset(a) == multiset(b)
    ensures multiset(Positive(a)) == multiset(Positive(b))
    decreases |a|
  {
    if a == [] {
      assert |multiset(b)| == 0;
    } else {
      var front, back := TakeOut(b, a[0]);
      MultisetOfTail(a);
      PositivePermuted(a[1..], front + back);
      PositiveConcat(front, back);
      PositiveConcat(front, [a[0]] + back);
      PositiveConcat([a[0]], back);
      PositiveConcat([a[0]], a[1..]);
      assert a == [a[0]] + a[1..];
    }
  }

  lemma {:induction false} NoPositive(votes: seq<Vote>)
    requires forall k :: 0 <= k < |votes| ==> votes[k].s <= 0.0
    ensures Positive(votes) == []
  {
    if votes != [] {
      NoPositive(votes[1..]);
    }
  }

  /** In descending order the positive votes come first. */
  lemma {:induction false} PositiveFirst(order: seq<Vote>)
    requires Descending(ByVote, order)
    ensures var p := Positive(order);
            |p| <= |order| && p == order[..|p|] && AllPositive(p)
            && forall k :: |p| <= k < |order| ==> order[k].s <= 0.0
  {
    if order == [] {
    } else if order[0].s > 0.0 {
      PositiveFirst(order[1..]);
      var q := Positive(order[1..]);
      assert order[..1 + |q|] == [order[0]] + order[1..][..|q|];
      forall k | 1 + |q| <= k < |order| ensures order[k].s <= 0.0 {
        assert order[k] == order[1..][k - 1];
      }
    } else {
      forall k | 0 <= k < |order| ensures order[k].s <= 0.0 {
        assert k == 0 || ByVote(order[0]) >= ByVote(order[k]);
      }
      NoPositive(order);
    }
  }

  /** So cutting and then dropping is dropping and then cutting. */
  lemma NearestOfPositive(order: seq<Vote>)
    requires Descending(ByVote, order)
    ensures Nearest(order) == Cut(Positive(order), KNN)
  {
    PositiveFirst(order);
    var p := Positive(order);
    var rest := order[|p|..];
    assert order == p + rest;
    NearestOfConcat(p, rest);
  }

  lemma NearestOfConcat(p: seq<Vote>, rest: seq<Vote>)
    requires AllPositive(p) && forall k :: 0 <= k < |rest| ==> rest[k].s <= 0.0
    ensures Nearest(p + rest) == Cut(p, KNN)
  {
    CutOfConcat(p, rest);
    if |p| >= KNN {
      AllKept(Cut(p, KNN));
    } else {
      var some := Cut(rest, KNN - |p|);
      PositiveConcat(p, some);
      AllKept(p);
      NoPositive(some);
    }
  }

  lemma CutOfConcat(p: seq<Vote>, rest: seq<Vote>)
    ensures |p| >= KNN ==> Cut(p + rest, KNN) == Cut(p, KNN)
    ensures |p| < KNN ==> Cut(p + rest, KNN) == p + Cut(rest, KNN - |p|)
  {
  }

  lemma {:induction false} AllKept(votes: seq<Vote>)
    requires AllPositive(votes)
    ensures Positive(votes) == votes
  {
    if votes != [] {
      AllKept(votes[1..]);
    }
  }

  // ------------------------------------------------------------------ ties that do not matter

  /** The cut at c separates two different similarities, or nothing. */
  predicate Separates(order: seq<Vote>, c: nat) {
    c == 0 || c >= |order| || order[c - 1].s > order[c].s
  }

  lemma InFront(order: seq<Vote>, c: nat, x: Vote)
    requires Descending(ByVote, order) && 0 < c < |order| && Separates(order, c)
    ensures x in order[..c] ==> x.s >= order[c - 1].s && x !in order[c..]
    ensures x in order[c..] ==> x.s <= order[c].s
  {
    assert forall k :: 0 <= k < c - 1 ==> ByVote(order[k]) >= ByVote(order[c - 1]);
    assert forall k :: c < k < |order| ==> ByVote(order[c]) >= ByVote(order[k]);
  }

  lemma FrontCount(order: seq<Vote>, c: nat, x: Vote)
    requires c <= |order|
    ensures multiset(order)[x] == multiset(order[..c])[x] + multiset(order[c..])[x]
  {
    assert order == order[..c] + order[c..];
  }

  /** Two descending orders of the same votes have the same similarity at every place. */
  lemma {:induction false} SamePlaces(a: seq<Vote>, b: seq<Vote>)
    requires multiset(a) == multiset(b) && Descending(ByVote, a) && Descending(ByVote, b)
    ensures |a| == |b| && forall k :: 0 <= k < |a| ==> a[k].s == b[k].s
  {
    assert |multiset(a)| == |multiset(b)|;
    forall k | 0 <= k < |a| ensures a[k].s == b[k].s {
      NotHigher(a, b, k);
      NotHigher(b, a, k);
    }
  }

  /** At least k + 1 votes of a are as high as a[k], so b[k] is no lower. */
  lemma NotHigher(a: seq<Vote>, b: seq<Vote>, k: nat)
    requires multiset(a) == multiset(b) && |a| == |b| && k < |a|
    requires Descending(ByVote, a) && Descending(ByVote, b)
    ensures a[k].s <= b[k].s
  {
    if a[k].s > b[k].s {
      HighPermuted(a, b, a[k].s);
      HighFront(a, k + 1, a[k].s);
      HighBack(b, k, a[k].s);
    }
  }

  function HighCount(votes: seq<Vote>, t: real): nat {
    if votes == [] then 0 else (if votes[0].s >= t then 1 else 0) + HighCount(votes[1..], t)
  }

  lemma {:induction false} HighConcat(a: seq<Vote>, b: seq<Vote>, t: real)
    ensures HighCount(a + b, t) == HighCount(a, t) + HighCount(b, t)
  {
    if a == [] {
      assert a + b == b;
    } else {
      HighConcat(a[1..], b, t);
      assert (a + b)[1..] == a[1..] + b;
    }
  }

  lemma {:induction false} HighPermuted(a: seq<Vote>, b: seq<Vote>, t: real)
    requires multiset(a) == multiset(b)
    ensures HighCount(a, t) == HighCount(b, t)
    decreases |a|
  {
    if a == [] {
      assert |multiset(b)| == 0;
    } else {
      var front, back := TakeOut(b, a[0]);
      MultisetOfTail(a);
      HighPermuted(a[1..], front + back, t);
      HighConcat(front, back, t);
      HighConcat(front, [a[0]] + back, t);
      assert ([a[0]] + back)[1..] == back;
    }
  }

  lemma {:induction false} HighFront(votes: seq<Vote>, c: nat, t: real)
    requires c <= |votes| && forall k :: 0 <= k < c ==> votes[k].s >= t
    requires Descending(ByVote, votes)
    ensures HighCount(votes, t) >= c
  {
    if c > 0 {
      assert forall k :: 0 <= k < c - 1 ==> votes[1..][k] == votes[k + 1];
      HighFront(votes[1..], c - 1, t);
    }
  }

  lemma {:induction false} HighBack(votes: seq<Vote>, c: nat, t: real)
    requires c < |votes| && Descending(ByVote, votes) && votes[c].s < t
    ensures HighCount(votes, t) <= c
    decreases |votes|
  {
    if c == 0 {
      assert forall k :: 0 < k < |votes| ==> ByVote(votes[0]) >= ByVote(votes[k]);
      NoneHigh(votes, t);
    } else {
      HighBack(votes[1..], c - 1, t);
    }
  }

  lemma {:induction false} NoneHigh(votes: seq<Vote>, t: real)
    requires forall k :: 0 <= k < |votes| ==> votes[k].s < t
    ensures HighCount(votes, t) == 0
  {
    if votes != [] {
      NoneHigh(votes[1..], t);
    }
  }

  /** A cut that separates keeps the same votes in every order. */
  lemma SeparatedFront(a: seq<Vote>, b: seq<Vote>, c: nat)
    requires multiset(a) == multiset(b) && Descending(ByVote, a) && Descending(ByVote, b)
    requires c <= |a| && Separates(a, c)
    ensures |a| == |b| && multiset(a[..c]) == multiset(b[..c])
  {
    SamePlaces(a, b);
    if c == |a| {
      assert a[..c] == a && b[..c] == b;
    } else if c > 0 {
      forall x ensures multiset(a[..c])[x] == multiset(b[..c])[x] {
        SameFrontCount(a, b, c, x);
      }
      assert multiset(a[..c]) == multiset(b[..c]);
    }
  }

  lemma SameFrontCount(a: seq<Vote>, b: seq<Vote>, c: nat, x: Vote)
    requires multiset(a) == multiset(b) && |a| == |b| && Descending(ByVote, a) && Descending(ByVote, b)
    requires 0 < c < |a| && Separates(a, c) && forall k :: 0 <= k < |a| ==> a[k].s == b[k].s
    ensures multiset(a[..c])[x] == multiset(b[..c])[x]
  {
    FrontCount(a, c, x);
    FrontCount(b, c, x);
    SameSide(a, b, c, x);
  }

  lemma SameSide(a: seq<Vote>, b: seq<Vote>, c: nat, x: Vote)
    requires |a| == |b| && Descending(ByVote, a) && Descending(ByVote, b) && 0 < c < |a| && Separates(a, c)
    requires forall k :: 0 <= k < |a| ==> a[k].s == b[k].s
    ensures || (multiset(a[..c])[x] == 0 && multiset(b[..c])[x] == 0)
            || (multiset(a[c..])[x] == 0 && multiset(b[c..])[x] == 0)
  {
    InFront(a, c, x);
    InFront(b, c, x);
    assert x in a[..c] <==> x in multiset(a[..c]);
    assert x in b[..c] <==> x in multiset(b[..c]);
    assert x in a[c..] <==> x in multiset(a[c..]);
    assert x in b[c..] <==> x in multiset(b[c..]);
  }

  /** Votes tied across the cut at c are all alike. */
  ghost predicate ClearCut(order: seq<Vote>, c: nat) {
    forall i, j :: 0 <= i < c <= j < |order| && order[i].s == order[j].s ==> order[i].completion == order[j].completion
  }

  /** Where the votes tied with place c begin. */
  function TieStart(order: seq<Vote>, c: nat): (k: nat)
    requires c < |order|
    ensures k <= c && order[k].s == order[c].s && (k == 0 || order[k - 1].s != order[k].s)
    ensures forall l :: k <= l <= c ==> order[l].s == order[c].s
  {
    if c == 0 || order[c - 1].s != order[c].s then c else TieStart(order, c - 1)
  }

  lemma TieStartSeparates(order: seq<Vote>, c: nat)
    requires c < |order| && Descending(ByVote, order)
    ensures Separates(order, TieStart(order, c))
  {
    var k := TieStart(order, c);
    assert k > 0 ==> ByVote(order[k - 1]) >= ByVote(order[k]);
  }

  /** A vote of b that ties with the cut of a is the vote at the cut. */
  lemma OnlyOneVote(a: seq<Vote>, b: seq<Vote>, c: nat, l: nat)
    requires multiset(a) == multiset(b) && 0 < c < |a| && a[c - 1].s == a[c].s && ClearCut(a, c)
    requires l < |b| && b[l].s == a[c].s
    ensures b[l] == a[c]
  {
    assert b[l] in multiset(a);
    var m :| 0 <= m < |a| && a[m] == b[l];
    assert a[c - 1].completion == a[c].completion;
    if m < c {
      assert a[m].completion == a[c].completion;
    } else {
      assert a[c - 1].completion == a[m].completion;
    }
  }

  /** Where the ties across the cut are all alike, every order keeps the same votes. */
  lemma ClearFront(a: seq<Vote>, b: seq<Vote>, c: nat)
    requires multiset(a) == multiset(b) && Descending(ByVote, a) && Descending(ByVote, b)
    requires c <= |a| && ClearCut(a, c)
    ensures |a| == |b| && multiset(a[..c]) == multiset(b[..c])
  {
    SamePlaces(a, b);
    if Separates(a, c) {
      SeparatedFront(a, b, c);
    } else {
      assert ByVote(a[c - 1]) >= ByVote(a[c]);
      var k := TieStart(a, c);
      TieStartSeparates(a, c);
      SeparatedFront(a, b, k);
      forall l | k <= l < c ensures a[l] == b[l] {
        OnlyOneVote(a, a, c, l);
        OnlyOneVote(a, b, c, l);
      }
      assert a[..c] == a[..k] + a[k..c] && b[..c] == b[..k] + b[k..c] && a[k..c] == b[k..c];
    }
  }

  lemma {:induction false} SumsConcat(a: seq<Vote>, b: seq<Vote>)
    ensures TotalWeight(a + b) == TotalWeight(a) + TotalWeight(b)
    ensures WeightedCompletion(a + b) == WeightedCompletion(a) + WeightedCompletion(b)
  {
    if a == [] {
      assert a + b == b;
    } else {
      SumsConcat(a[1..], b);
      assert (a + b)[1..] == a[1..] + b;
    }
  }

  lemma {:induction false} SumsPermuted(a: seq<Vote>, b: seq<Vote>)
    requires multiset(a) == multiset(b)
    ensures |a| == |b| && TotalWeight(a) == TotalWeight(b) && WeightedCompletion(a) == WeightedCompletion(b)
    decreases |a|
  {
    assert |multiset(a)| == |multiset(b)|;
    if a != [] {
      var front, back := TakeOut(b, a[0]);
      MultisetOfTail(a);
      SumsPermuted(a[1..], front + back);
      SumsConcat(front, back);
      SumsConcat(front, [a[0]] + back);
      assert ([a[0]] + back)[1..] == back;
    }
  }

  lemma NearestPositive(order: seq<Vote>)
    requires Descending(ByVote, order)
    ensures AllPositive(Nearest(order)) && TotalWeight(Nearest(order)) >= 0.0
  {
    NearestOfPositive(order);
    PositiveFirst(order);
    WeightPositive(Nearest(order));
  }

  /** Orders of the same positive votes, with a clear cut, give the same sums. */
  lemma SameSums(a: seq<Vote>, b: seq<Vote>)
    requires Descending(ByVote, a) && Descending(ByVote, b) && multiset(Positive(a)) == multiset(Positive(b))
    requires ClearCut(Positive(a), KNN)
    ensures |Nearest(a)| == |Nearest(b)| && TotalWeight(Nearest(a)) == TotalWeight(Nearest(b))
    ensures WeightedCompletion(Nearest(a)) == WeightedCompletion(Nearest(b))
  {
    NearestOfPositive(a);
    NearestOfPositive(b);
    PositiveDescends(a);
    PositiveDescends(b);
    var p, q := Positive(a), Positive(b);
    SumsPermuted(p, q);
    if |p| > KNN {
      ClearFront(p, q, KNN);
      SumsPermuted(p[..KNN], q[..KNN]);
    }
  }

  lemma PositiveDescends(order: seq<Vote>)
    requires Descending(ByVote, order)
    ensures Descending(ByVote, Positive(order))
  {
    PositiveFirst(order);
  }

  /** The value of reading_depth depends on the neighbours only through these sums. */
  lemma DepthOfSums(x: seq<Vote>, y: seq<Vote>)
    requires |x| == |y| && TotalWeight(x) == TotalWeight(y) >= 0.0 && WeightedCompletion(x) == WeightedCompletion(y)
    ensures DepthOf(x) == DepthOf(y)
  {
  }

  /** Own rows do not leak into reading_depth in whatever order ties are left, before the edit and after it,
      as long as votes tied across the cut at 15 have the same completion. */
  lemma OwnRowsDoNotLeakInAnyOrder(rows: seq<HistoryRow>, edited: seq<HistoryRow>, id: int, v: Vec,
                                   order: seq<Vote>, order': seq<Vote>)
    requires Others(rows, id) == Others(edited, id)
    requires Arranged(Votes(rows, id, v), order) && Arranged(Votes(edited, id, v), order')
    requires ClearCut(Positive(order), KNN)
    ensures TotalWeight(Nearest(order)) >= 0.0 && TotalWeight(Nearest(order')) >= 0.0
    ensures DepthOf(Nearest(order)) == DepthOf(Nearest(order'))
    ensures CountUnmasked(rows, id) == CountUnmasked(edited, id)
  {
    SamePositive(rows, edited, id, v);
    PositivePermuted(order, Votes(rows, id, v));
    PositivePermuted(order', Votes(edited, id, v));
    NearestPositive(order);
    NearestPositive(order');
    SameSums(order, order');
    DepthOfSums(Nearest(order), Nearest(order'));
    VotesOfOthers(rows, id, v);
    VotesOfOthers(edited, id, v);
  }

  lemma {:induction false} PositiveUnmasked(votes: seq<Vote>)
    requires Cast(votes)
    ensures Positive(votes) == Positive(Unmasked(votes))
  {
    if votes != [] {
      PositiveUnmasked(votes[1..]);
      if votes[0].s >= 0.0 {
        assert ([votes[0]] + Unmasked(votes[1..]))[1..] == Unmasked(votes[1..]);
      }
    }
  }

  lemma SamePositive(rows: seq<HistoryRow>, edited: seq<HistoryRow>, id: int, v: Vec)
    requires Others(rows, id) == Others(edited, id)
    ensures Positive(Votes(rows, id, v)) == Positive(Votes(edited, id, v))
  {
    VotesOfOthers(rows, id, v);
    VotesOfOthers(edited, id, v);
    VotesCast(rows, id, v);
    VotesCast(edited, id, v);
    PositiveUnmasked(Votes(rows, id, v));
    PositiveUnmasked(Votes(edited, id, v));
  }

  // ------------------------------------------------------------------ ties that do matter

  function MeanIn(order: seq<Vote>): real
    requires TotalWeight(Nearest(order)) >= 0.0
  {
    DampedMean(Nearest(order))
  }

  /** Every order of the votes gives the mean that this one gives. */
  ghost predicate MeanFixed(votes: seq<Vote>, order: seq<Vote>)
    requires TotalWeight(Nearest(order)) >= 0.0
  {
    forall other :: Arranged(votes, other) ==> SameMean(order, other)
  }

  ghost predicate SameMean(order: seq<Vote>, other: seq<Vote>)
    requires TotalWeight(Nearest(order)) >= 0.0
  {
    TotalWeight(Nearest(other)) >= 0.0 && MeanIn(other) == MeanIn(order)
  }

  lemma {:induction false} SumsUpdate(votes: seq<Vote>, i: nat, x: Vote)
    requires i < |votes|
    ensures TotalWeight(votes[i := x]) == TotalWeight(votes) - votes[i].s + x.s
    ensures WeightedCompletion(votes[i := x])
         == WeightedCompletion(votes) - Weighted(votes[i].s, votes[i].completion) + Weighted(x.s, x.completion)
  {
    if i == 0 {
      assert votes[0 := x][1..] == votes[1..];
    } else {
      SumsUpdate(votes[1..], i - 1, x);
      assert votes[i := x][1..] == votes[1..][i - 1 := x];
    }
  }

  function Swapped(order: seq<Vote>, i: nat, j: nat): seq<Vote>
    requires i < |order| && j < |order|
  {
    order[i := order[j]][j := order[i]]
  }

  lemma SwapArranged(votes: seq<Vote>, order: seq<Vote>, i: nat, j: nat)
    requires Arranged(votes, order) && i < j < |order| && order[i].s == order[j].s
    ensures Arranged(votes, Swapped(order, i, j))
  {
    var other := Swapped(order, i, j);
    assert order == order[..i] + [order[i]] + order[i + 1..j] + [order[j]] + order[j + 1..];
    assert other == order[..i] + [order[j]] + order[i + 1..j] + [order[i]] + order[j + 1..];
    forall k ensures 0 <= k < |order| ==> other[k].s == order[k].s {
    }
    assert forall k, l :: 0 <= k < l < |order| ==> ByVote(order[k]) >= ByVote(order[l]);
  }

  /** i and j are positive votes of the order, tied across the cut. */
  predicate AcrossCut(order: seq<Vote>, i: nat, j: nat) {
    && i < KNN <= j < |Positive(order)| <= |order|
    && order[i].s == order[j].s > 0.0 && order[i].completion != order[j].completion
  }

  /** Swapping them puts one in the other's place among the neighbours. */
  lemma SwapNearest(order: seq<Vote>, i: nat, j: nat)
    requires Descending(ByVote, order) && AcrossCut(order, i, j)
    ensures Nearest(order) == order[..KNN]
    ensures Nearest(Swapped(order, i, j)) == order[..KNN][i := order[j]]
  {
    PositiveFirst(order);
    NearestOfPositive(order);
    var other := Swapped(order, i, j);
    assert Cut(order, KNN) == order[..KNN] == Cut(Positive(order), KNN);
    assert Cut(other, KNN) == order[..KNN][i := order[j]];
    AllKept(Cut(other, KNN));
  }

  lemma DifferentWeighted(s: real, x: real, y: real)
    requires s > 0.0 && x != y
    ensures Weighted(s, x) != Weighted(s, y)
  {
    assert s * (x - y) != 0.0;
  }

  lemma DifferentRatio(x: real, y: real, w: real)
    requires w > 0.0 && x != y
    ensures Ratio(x, w) != Ratio(y, w)
  {
    RatioTimes(x, w);
    RatioTimes(y, w);
  }

  /** The mean changes: the weights stay, the completions do not. */
  lemma SwapMoves(near: seq<Vote>, i: nat, x: Vote)
    requires i < |near| && TotalWeight(near) >= 0.0 && near[i].s == x.s > 0.0 && near[i].completion != x.completion
    ensures TotalWeight(near[i := x]) == TotalWeight(near) && DampedMean(near[i := x]) != DampedMean(near)
  {
    SumsUpdate(near, i, x);
    DifferentWeighted(x.s, near[i].completion, x.completion);
    DifferentRatio(WeightedCompletion(near), WeightedCompletion(near[i := x]), TotalWeight(near) + DAMPING);
  }

  lemma SwapShows(votes: seq<Vote>, order: seq<Vote>, i: nat, j: nat)
    requires Arranged(votes, order) && TotalWeight(Nearest(order)) >= 0.0 && AcrossCut(order, i, j)
    ensures !MeanFixed(votes, order)
  {
    SwapArranged(votes, order, i, j);
    SwapNearest(order, i, j);
    SwapMoves(order[..KNN], i, order[j]);
    assert !SameMean(order, Swapped(order, i, j));
  }

  lemma ClearFixes(votes: seq<Vote>, order: seq<Vote>)
    requires Arranged(votes, order) && ClearCut(Positive(order), KNN)
    ensures TotalWeight(Nearest(order)) >= 0.0 && MeanFixed(votes, order)
  {
    NearestPositive(order);
    forall other | Arranged(votes, other) ensures SameMean(order, other) {
      PositivePermuted(order, other);
      NearestPositive(other);
      SameSums(order, other);
    }
  }

  lemma UnclearTie(order: seq<Vote>) returns (i: nat, j: nat)
    requires Descending(ByVote, order) && !ClearCut(Positive(order), KNN)
    ensures AcrossCut(order, i, j)
  {
    PositiveFirst(order);
    var p := Positive(order);
    i, j :| 0 <= i < KNN <= j < |p| && p[i].s == p[j].s && p[i].completion != p[j].completion;
  }

  /** The mean that reading_depth reports is the same in every order of ties exactly when votes tied across the
      cut at 15 have the same completion. */
  lemma TiesMatterExactly(votes: seq<Vote>, order: seq<Vote>)
    requires Arranged(votes, order)
    ensures TotalWeight(Nearest(order)) >= 0.0
    ensures MeanFixed(votes, order) <==> ClearCut(Positive(order), KNN)
  {
    NearestPositive(order);
    if ClearCut(Positive(order), KNN) {
      ClearFixes(votes, order);
    } else {
      var i, j := UnclearTie(order);
      SwapShows(votes, order, i, j);
    }
  }
}
