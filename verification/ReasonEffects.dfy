/** What a feedback reason does to the weight of the reader's interest and to the trust in the
    source: clamped nudges, written row by row. */
module ReasonEffects {
  import opened Wrappers

  datatype Effect = Effect(clusterDelta: real, trustDelta: real)

  /** The mapping table; None for a reason that is not in it. */
  function EffectOfReason(reason: string): Option<Effect> {
    if reason == "too_basic" || reason == "already_knew" then Some(Effect(-0.10, 0.0))
    else if reason == "off_topic" || reason == "too_tangential" then Some(Effect(-0.20, 0.0))
    else if reason == "wrong_depth" then Some(Effect(0.0, 0.0))
    else if reason == "clickbait" then Some(Effect(0.0, -0.10))
    else None
  }

  datatype Node = Node(user: int, topic: string, weight: real)

  /** The item: its topics, the main one first, and its source. */
  datatype Item = Item(topics: seq<string>, source: Option<int>)

  /** The interest nodes of all users, and the trust in each source. */
  datatype Weights = Weights(nodes: seq<Node>, trust: map<int, real>)

  predicate Unit(w: real) {
    0.0 <= w <= 1.0
  }

  ghost predicate InRange(s: Weights) {
    && (forall i :: 0 <= i < |s.nodes| ==> Unit(s.nodes[i].weight))
    && (forall k :: k in s.trust ==> Unit(s.trust[k]))
  }

  /** w + delta, kept in [0, 1]. */
  function Nudge(w: real, delta: real): real {
    if w + delta < 0.0 then 0.0 else if w + delta > 1.0 then 1.0 else w + delta
  }

  // ------------------------------------------------------------------ one reason

  predicate TopNode(n: Node, user: int, item: Item) {
    item.topics != [] && n.user == user && n.topic == item.topics[0]
  }

  function ClusterDelta(reason: string): real {
    var e := EffectOfReason(reason);
    if e.Some? then e.value.clusterDelta else 0.0
  }

  function TrustDelta(reason: string): real {
    var e := EffectOfReason(reason);
    if e.Some? then e.value.trustDelta else 0.0
  }

  function NodeAfter(n: Node, user: int, item: Item, reason: string): Node {
    if TopNode(n, user, item) && ClusterDelta(reason) != 0.0 then n.(weight := Nudge(n.weight, ClusterDelta(reason)))
    else n
  }

  function TrustAfter(trust: map<int, real>, item: Item, reason: string): map<int, real> {
    if TrustDelta(reason) != 0.0 && item.source.Some? && item.source.value in trust then
      trust[item.source.value := Nudge(trust[item.source.value], TrustDelta(reason))]
    else trust
  }

  function Applied(s: Weights, user: int, item: Item, reason: string): (r: Weights) {
    Weights(seq(|s.nodes|, i requires 0 <= i < |s.nodes| => NodeAfter(s.nodes[i], user, item, reason)),
            TrustAfter(s.trust, item, reason))
  }

  function AppliedAll(s: Weights, user: int, item: Item, reasons: seq<string>): Weights {
    if reasons == [] then s
    else Applied(AppliedAll(s, user, item, reasons[..|reasons| - 1]), user, item, reasons[|reasons| - 1])
  }

  class Preferences {
    var nodes: seq<Node>
    var trust: map<int, real>

    function State(): Weights
      reads this
    {
      Weights(nodes, trust)
    }

    constructor (s: Weights)
      ensures State() == s
    {
      nodes, trust := s.nodes, s.trust;
    }

    /** _apply_reason_effects: the top topic's nodes of this user, then the item's source. */
    method ApplyReasonEffects(user: int, item: Item, reason: string)
      modifies this
      ensures State() == Applied(old(State()), user, item, reason)
    {
      var effect := EffectOfReason(reason);
      if effect.None? {
        assert nodes == Applied(State(), user, item, reason).nodes;
        return;
      }
      if effect.value.clusterDelta != 0.0 && item.topics != [] {
        var i := 0;
        while i < |nodes|
          invariant 0 <= i <= |nodes| == |old(nodes)| && trust == old(trust)
          invariant forall j :: 0 <= j < i ==> nodes[j] == NodeAfter(old(nodes)[j], user, item, reason)
          invariant forall j :: i <= j < |nodes| ==> nodes[j] == old(nodes)[j]
        {
          if nodes[i].user == user && nodes[i].topic == item.topics[0] {
            nodes := nodes[i := nodes[i].(weight := Nudge(nodes[i].weight, effect.value.clusterDelta))];
          }
          i := i + 1;
        }
      }
      assert nodes == Applied(old(State()), user, item, reason).nodes;
      if effect.value.trustDelta != 0.0 && item.source.Some? && item.source.value in trust {
        trust := trust[item.source.value := Nudge(trust[item.source.value], effect.value.trustDelta)];
      }
    }
  }

  // ------------------------------------------------------------------ many reasons

  function Total(delta: string -> real, reasons: seq<string>): real {
    if reasons == [] then 0.0 else Total(delta, reasons[..|reasons| - 1]) + delta(reasons[|reasons| - 1])
  }

  /** A weight lowered by a total amount, but not below 0. */
  function Lowered(w: real, total: real): real {
    if w + total < 0.0 then 0.0 else w + total
  }

  function NodeLowered(n: Node, user: int, item: Item, total: real): Node {
    if TopNode(n, user, item) then n.(weight := Lowered(n.weight, total)) else n
  }

  function TrustLowered(trust: real, source: int, item: Item, total: real): real {
    if item.source == Some(source) then Lowered(trust, total) else trust
  }

  lemma {:induction false} TotalNotPositive(reasons: seq<string>)
    ensures Total(ClusterDelta, reasons) <= 0.0 && Total(TrustDelta, reasons) <= 0.0
  {
    if reasons != [] {
      TotalNotPositive(reasons[..|reasons| - 1]);
    }
  }

  /** A reader's feedback on an item only ever lowers weights, and the clamped nudges add up: after
      any sequence of reasons the main topic of the item has lost exactly the sum of their nudges,
      stopping at 0, and so has the source. Every other node and source is as before. */
  lemma {:induction false} NudgesAddUp(s: Weights, user: int, item: Item, reasons: seq<string>)
    requires InRange(s)
    ensures var r := AppliedAll(s, user, item, reasons);
            && InRange(r) && |r.nodes| == |s.nodes| && r.trust.Keys == s.trust.Keys
            && (forall i :: 0 <= i < |s.nodes| ==>
                  r.nodes[i] == NodeLowered(s.nodes[i], user, item, Total(ClusterDelta, reasons)))
            && (forall k :: k in s.trust ==>
                  r.trust[k] == TrustLowered(s.trust[k], k, item, Total(TrustDelta, reasons)))
  {
    if reasons != [] {
      var before := reasons[..|reasons| - 1];
      NudgesAddUp(s, user, item, before);
      TotalNotPositive(before);
    }
  }

  /** What one reason costs, row by row: a tenth or a fifth of the scale for the main topic of this reader, a
      tenth for the source of clickbait, and nothing else. */
  lemma ReasonCosts(s: Weights, user: int, item: Item, reason: string)
    requires InRange(s)
    ensures var r := Applied(s, user, item, reason);
            && |r.nodes| == |s.nodes| && r.trust.Keys == s.trust.Keys
            && (forall i :: 0 <= i < |s.nodes| ==>
                  r.nodes[i] == s.nodes[i].(weight := s.nodes[i].weight
                                                      - Loss(s.nodes[i], user, item, reason, s.nodes[i].weight)))
            && (forall k :: k in s.trust ==>
                  r.trust[k] == s.trust[k]
                    - if reason == "clickbait" && item.source == Some(k) then AtMost(s.trust[k], 0.1) else 0.0)
  {
  }

  function AtMost(weight: real, cost: real): real {
    if weight < cost then weight else cost
  }

  function Loss(n: Node, user: int, item: Item, reason: string, weight: real): real {
    if item.topics == [] || n.user != user || n.topic != item.topics[0] then 0.0
    else
      match reason
      case "too_basic" => AtMost(weight, 0.1)
      case "already_knew" => AtMost(weight, 0.1)
      case "off_topic" => AtMost(weight, 0.2)
      case "too_tangential" => AtMost(weight, 0.2)
      case _ => 0.0
  }

  lemma {:induction false} AppliedConcat(s: Weights, user: int, item: Item, a: seq<string>, b: seq<string>)
    ensures AppliedAll(s, user, item, a + b) == AppliedAll(AppliedAll(s, user, item, a), user, item, b)
  {
    if b == [] {
      assert a + b == a;
    } else {
      AppliedConcat(s, user, item, a, b[..|b| - 1]);
      assert (a + b)[..|a + b| - 1] == a + b[..|b| - 1];
    }
  }

  lemma {:induction false} TotalConcat(delta: string -> real, a: seq<string>, b: seq<string>)
    ensures Total(delta, a + b) == Total(delta, a) + Total(delta, b)
  {
    if b == [] {
      assert a + b == a;
    } else {
      TotalConcat(delta, a, b[..|b| - 1]);
      assert (a + b)[..|a + b| - 1] == a + b[..|b| - 1];
    }
  }

  function Without(s: seq<string>, i: nat): seq<string>
    requires i < |s|
  {
    s[..i] + s[i + 1..]
  }

  lemma TotalOne(delta: string -> real, x: string)
    ensures Total(delta, [x]) == delta(x)
  {
    assert [x][..0] == [];
  }

  lemma TotalBetween(delta: string -> real, front: seq<string>, x: string, back: seq<string>)
    ensures Total(delta, front + ([x] + back)) == Total(delta, front + back) + delta(x)
  {
    TotalConcat(delta, front, [x] + back);
    TotalConcat(delta, [x], back);
    TotalConcat(delta, front, back);
    TotalOne(delta, x);
  }

  lemma SplitAt(s: seq<string>, i: nat)
    requires i < |s|
    ensures s == s[..i] + ([s[i]] + s[i + 1..])
  {
  }

  lemma TotalWithout(delta: string -> real, s: seq<string>, i: nat)
    requires i < |s|
    ensures Total(delta, s) == Total(delta, Without(s, i)) + delta(s[i])
  {
    SplitAt(s, i);
    TotalBetween(delta, s[..i], s[i], s[i + 1..]);
  }

  lemma PermutedWithout(front: seq<string>, x: string, b: seq<string>) returns (i: nat)
    requires multiset(front + [x]) == multiset(b)
    ensures i < |b| && b[i] == x && multiset(front) == multiset(Without(b, i))
  {
    assert x in multiset(front + [x]);
    i :| i < |b| && b[i] == x;
    assert b == b[..i] + [x] + b[i + 1..];
    assert multiset(front) + multiset{x} == multiset(Without(b, i)) + multiset{x};
    assert multiset(front) == multiset(front) + multiset{x} - multiset{x};
    assert multiset(Without(b, i)) == multiset(Without(b, i)) + multiset{x} - multiset{x};
  }

  lemma {:induction false} TotalPermuted(delta: string -> real, a: seq<string>, b: seq<string>)
    requires multiset(a) == multiset(b)
    ensures Total(delta, a) == Total(delta, b)
  {
    if a == [] {
      assert |multiset(b)| == 0;
    } else {
      var front, x := a[..|a| - 1], a[|a| - 1];
      assert a == front + [x];
      var i := PermutedWithout(front, x, b);
      TotalPermuted(delta, front, Without(b, i));
      TotalWithout(delta, b, i);
    }
  }

  /** The order in which reasons arrive does not matter, clamping or not. */
  lemma ReasonsCommute(s: Weights, user: int, item: Item, a: seq<string>, b: seq<string>)
    requires InRange(s) && multiset(a) == multiset(b)
    ensures AppliedAll(s, user, item, a) == AppliedAll(s, user, item, b)
  {
    NudgesAddUp(s, user, item, a);
    NudgesAddUp(s, user, item, b);
    TotalPermuted(ClusterDelta, a, b);
    TotalPermuted(TrustDelta, a, b);
    var x, y := AppliedAll(s, user, item, a), AppliedAll(s, user, item, b);
    assert x.nodes == y.nodes;
    forall k | k in s.trust ensures x.trust[k] == y.trust[k] {
    }
    assert x.trust == y.trust;
  }

  /** Why a changed reason is not undone: giving the total back restores the weight exactly when
      no part of it was clamped away, or the weight was full, where the clamp at 1 stops the return. */
  lemma UndoneExactly(w: real, reasons: seq<string>)
    requires Unit(w)
    ensures Nudge(Lowered(w, Total(ClusterDelta, reasons)), 0.0 - Total(ClusterDelta, reasons)) == w
       <==> w >= 0.0 - Total(ClusterDelta, reasons) || w == 1.0
  {
    TotalNotPositive(reasons);
  }
}
