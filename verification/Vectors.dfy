/** Embedding vectors over the reals: dot product, sums, unit vectors. */
module Vectors {

  type Vec = seq<real>

  function Dot(u: Vec, v: Vec): real
    requires |u| == |v|
  {
    DotFrom(u, v)
  }

  function DotFrom(u: Vec, v: Vec): real
    requires |u| == |v|
  {
    if u == [] then 0.0 else u[0] * v[0] + DotFrom(u[1..], v[1..])
  }

  function Add(u: Vec, v: Vec): (w: Vec)
    requires |u| == |v|
    ensures |w| == |u|
  {
    seq(|u|, i requires 0 <= i < |u| => u[i] + v[i])
  }

  function Scale(c: real, v: Vec): (w: Vec)
    ensures |w| == |v|
  {
    seq(|v|, i requires 0 <= i < |v| => c * v[i])
  }

  function Zero(n: nat): (w: Vec)
    ensures |w| == n
  {
    seq(n, i => 0.0)
  }

  ghost predicate Unit(v: Vec) {
    Dot(v, v) == 1.0
  }

  /** Vectors stacked in one matrix: the same length, each of norm 1. */
  ghost predicate UnitRows(vs: seq<Vec>, dim: nat) {
    forall i :: 0 <= i < |vs| ==> |vs[i]| == dim && Unit(vs[i])
  }

  /** np.clip(x, lo, hi) */
  function Clip(x: real, lo: real, hi: real): (r: real)
    requires lo <= hi
    ensures lo <= r <= hi
    ensures lo <= x <= hi ==> r == x
  {
    if x < lo then lo else if x > hi then hi else x
  }

  /** The dot product adds up the products of the entries. */
  lemma {:induction false} DotEntries(u: Vec, v: Vec, x: real, y: real)
    requires |u| == |v|
    ensures Dot([], []) == 0.0 && Dot(u + [x], v + [y]) == Dot(u, v) + x * y
  {
    if u == [] {
      assert u + [x] == [x] && v + [y] == [y];
      assert [x][1..] == [] && [y][1..] == [];
      assert DotFrom([x], [y]) == x * y + DotFrom([x][1..], [y][1..]);
    } else {
      DotEntries(u[1..], v[1..], x, y);
      assert (u + [x])[1..] == u[1..] + [x] && (v + [y])[1..] == v[1..] + [y];
    }
  }

  lemma {:induction false} DotComm(u: Vec, v: Vec)
    requires |u| == |v|
    ensures Dot(u, v) == Dot(v, u)
  {
    if u != [] {
      DotComm(u[1..], v[1..]);
    }
  }

  lemma {:induction false} DotAdd(u: Vec, w: Vec, v: Vec)
    requires |u| == |w| == |v|
    ensures Dot(Add(u, w), v) == Dot(u, v) + Dot(w, v)
  {
    if u != [] {
      DotAdd(u[1..], w[1..], v[1..]);
      assert Add(u, w)[1..] == Add(u[1..], w[1..]);
    }
  }

  lemma {:induction false} DotScale(c: real, u: Vec, v: Vec)
    requires |u| == |v|
    ensures Dot(Scale(c, u), v) == c * Dot(u, v)
  {
    if u != [] {
      DotScale(c, u[1..], v[1..]);
      var scaled := Scale(c, u)[1..];
      forall i | 0 <= i < |scaled| ensures scaled[i] == Scale(c, u[1..])[i] {
        assert u[1..][i] == u[i + 1];
      }
      assert scaled == Scale(c, u[1..]);
      assert c * (u[0] * v[0]) == (c * u[0]) * v[0];
    }
  }

  lemma DotScaleRight(c: real, u: Vec, v: Vec)
    requires |u| == |v|
    ensures Dot(u, Scale(c, v)) == c * Dot(u, v)
  {
    DotComm(u, Scale(c, v));
    DotScale(c, v, u);
    DotComm(u, v);
    SameProduct(c, Dot(v, u), Dot(u, v));
  }

  lemma SameProduct(c: real, x: real, y: real)
    requires x == y
    ensures c * x == c * y
  {
  }

  lemma ScaledSquare(c: real, v: Vec)
    ensures Dot(Scale(c, v), Scale(c, v)) == c * (c * Dot(v, v))
  {
    DotScale(c, v, Scale(c, v));
    DotScaleRight(c, v, v);
    SameProduct(c, Dot(v, Scale(c, v)), c * Dot(v, v));
  }

  lemma ScaledOrder(r: real, x: real, y: real, rx: real, ry: real)
    requires r > 0.0 && rx == r * x && ry == r * y
    ensures rx < ry <==> x < y
  {
  }

  lemma ScaledDotOrder(r: real, c: Vec, u: Vec, v: Vec)
    requires r > 0.0 && |c| == |u| == |v|
    ensures Dot(u, Scale(r, c)) < Dot(v, Scale(r, c)) <==> Dot(u, c) < Dot(v, c)
  {
    var x, y := Dot(u, Scale(r, c)), Dot(v, Scale(r, c));
    assert x == r * Dot(u, c) by { DotScaleRight(r, u, c); }
    assert y == r * Dot(v, c) by { DotScaleRight(r, v, c); }
    ScaledOrder(r, Dot(u, c), Dot(v, c), x, y);
  }

  lemma {:induction false} DotZero(v: Vec)
    ensures Dot(Zero(|v|), v) == 0.0
  {
    if v != [] {
      DotZero(v[1..]);
      assert Zero(|v|)[1..] == Zero(|v[1..]|);
    }
  }

  lemma {:induction false} DotSelf(v: Vec)
    ensures Dot(v, v) >= 0.0
  {
    if v != [] {
      DotSelf(v[1..]);
    }
  }

  lemma SquareOfSum(u: Vec, v: Vec)
    requires |u| == |v|
    ensures Dot(Add(u, v), Add(u, v)) == Dot(u, u) + 2.0 * Dot(u, v) + Dot(v, v)
  {
    var w := Add(u, v);
    DotAdd(u, v, w);
    DotComm(u, w);
    DotComm(v, w);
    DotAdd(u, v, u);
    DotAdd(u, v, v);
    DotComm(v, u);
  }

  /** Cauchy-Schwarz for unit vectors, so clipping a cosine to [-1, 1] changes nothing. */
  lemma UnitDotBound(u: Vec, v: Vec)
    requires |u| == |v| && Unit(u) && Unit(v)
    ensures -1.0 <= Dot(u, v) <= 1.0
  {
    var minus := Scale(-1.0, v);
    DotScale(-1.0, v, u);
    DotScale(-1.0, v, minus);
    DotScale(-1.0, v, v);
    DotComm(u, v);
    DotComm(minus, u);
    DotComm(minus, v);
    SquareOfSum(u, v);
    SquareOfSum(u, minus);
    DotSelf(Add(u, v));
    DotSelf(Add(u, minus));
  }
}
