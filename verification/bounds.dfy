/** One evaluation of a cell, and the average over the vaults, keep hidden states bounded. */
module Bounds {
  import opened Arith
  import opened Vectors
  import opened Gru
  import opened GruRun
  import Wavefront
  import GruLanes
  import opened VertexGating

  /** All that is assumed of the nonlinear functions: their ranges. */
  ghost predicate InRange(f: Squash) {
    (forall x :: 0.0 <= f.sigmoid(x) <= 1.0) && (forall x :: -1.0 <= f.tanh(x) <= 1.0)
  }

  ghost predicate Within(v: Vec, b: real) {
    forall d :: 0 <= d < 16 ==> -b <= v[d] <= b
  }

  lemma LaneWithin(z: real, h: real, n: real, b: real)
    requires 1.0 <= b && 0.0 <= z <= 1.0 && -b <= h <= b && -1.0 <= n <= 1.0
    ensures -b <= (1.0 - z) * h + z * n <= b
  {
    var sum := MixWithin(1.0 - z, z, h, n, b);
  }

  lemma MixWithin(y: real, z: real, h: real, n: real, b: real) returns (sum: real)
    requires 0.0 <= y && 0.0 <= z && y + z == 1.0 && -b <= h <= b && -b <= n <= b
    ensures sum == y * h + z * n && -b <= sum <= b
  {
    var u, s := Scale(y, h, b);
    var v, t := Scale(z, n, b);
    Shares(y, z, b, s, t);
    sum := u + v;
  }

  lemma Shares(y: real, z: real, b: real, s: real, t: real)
    requires y + z == 1.0 && s == y * b && t == z * b
    ensures s + t == b
  {
    assert y * b + z * b == (y + z) * b;
  }

  lemma Scale(x: real, y: real, b: real) returns (p: real, q: real)
    requires 0.0 <= x && -b <= y <= b
    ensures p == x * y && q == x * b && -q <= p <= q
  {
    p, q := x * y, x * b;
    assert x * (b - y) >= 0.0 && x * (b + y) >= 0.0;
  }

  /** One evaluation of a cell keeps every entry within a bound of at least one. */
  lemma CellWithin(f: Squash, p: Params, h: Vec, m: Vec, b: real)
    requires InRange(f) && Square(p) && 1.0 <= b && Within(h, b)
    ensures Within(GruExpression(f, p, h, m), b)
  {
    var r := VecMap(f.sigmoid, VecAdd(VecAdd(Wavefront.Readout(p.wR, h), p.bR), m));
    var z := VecMap(f.sigmoid, VecAdd(VecAdd(Wavefront.Readout(p.wZ, h), p.bZ), m));
    var gated := Hadamard(r, VecAdd(Wavefront.Readout(p.wHn, h), p.bHn));
    var n := VecMap(f.tanh, VecAdd(VecAdd(Wavefront.Readout(p.wIn, m), p.bIn), gated));
    BlendWithin(z, h, n, b);
  }

  lemma BlendWithin(z: Vec, h: Vec, n: Vec, b: real)
    requires 1.0 <= b && Within(h, b) && Within(n, 1.0) && forall d :: 0 <= d < 16 ==> 0.0 <= z[d] <= 1.0
    ensures Within(Blend(z, h, n), b)
  {
    forall d | 0 <= d < 16
      ensures -b <= Blend(z, h, n)[d] <= b
    {
      LaneWithin(z[d], h[d], n[d], b);
    }
  }

  lemma {:induction false} RepeatedWithin(count: nat, x: real, b: real)
    requires -b <= x <= b
    ensures -Repeated(count, b) <= Repeated(count, x) <= Repeated(count, b)
  {
    if count == 0 {
    } else {
      RepeatedWithin(count - 1, x, b);
    }
  }

  lemma {:induction false} RepeatedGrows(count: nat, total: nat, x: real)
    requires count <= total && 0.0 <= x
    ensures Repeated(count, x) <= Repeated(total, x)
  {
    if count == total {
    } else {
      RepeatedGrows(count, total - 1, x);
    }
  }

  lemma LaneShareWithin(count: nat, y: real, b: real)
    requires count <= 16 && -b <= y <= b
    ensures -b <= Repeated(count, y / 16.0) <= b
  {
    RepeatedWithin(count, y / 16.0, b / 16.0);
    RepeatedGrows(count, 16, b / 16.0);
    RepeatedIsProduct(16, b / 16.0);
  }

  /** The average over at most sixteen vaults stays within the same bound. */
  lemma ShareWithin(count: nat, v: Vec, b: real)
    requires count <= 16 && 0.0 <= b && Within(v, b)
    ensures Within(Share(count, v), b)
  {
    forall d | 0 <= d < 16
      ensures -b <= Share(count, v)[d] <= b
    {
      LaneShareWithin(count, v[d], b);
    }
  }

  /** The bound is kept by every cell and every admissible pair of functions. */
  ghost predicate Kept(b: real) {
    forall f: Squash, p: Params, h: Vec, m: Vec ::
      InRange(f) && Square(p) && Within(h, b) ==> Within(GruExpression(f, p, h, m), b)
  }

  /** One is the smallest bound that is always kept. */
  lemma BoundIsSharp(b: real)
    requires 0.0 <= b
    ensures Kept(b) <==> 1.0 <= b
  {
    if 1.0 <= b {
      forall f: Squash, p: Params, h: Vec, m: Vec | InRange(f) && Square(p) && Within(h, b)
        ensures Within(GruExpression(f, p, h, m), b)
      {
        CellWithin(f, p, h, m, b);
      }
    } else {
      OneEscapes(b);
    }
  }

  /** Gates that are fully open replace the hidden state by a candidate of size one. */
  lemma OneEscapes(b: real)
    requires 0.0 <= b < 1.0
    ensures !Kept(b)
  {
    var f := Squash(_ => 1.0, _ => 1.0);
    var p := NewCell().params;
    assert Square(p) && InRange(f) && Within(Zero(), b);
    assert GruExpression(f, p, Zero(), Zero())[0] == 1.0 by {
      OpenGate(f, p);
    }
    assert !Within(GruExpression(f, p, Zero(), Zero()), b);
  }

  lemma OpenGate(f: Squash, p: Params)
    requires Square(p) && (forall x :: f.sigmoid(x) == 1.0) && (forall x :: f.tanh(x) == 1.0)
    ensures GruExpression(f, p, Zero(), Zero())[0] == 1.0
  {
    var x, y := Wavefront.Readout(p.wZ, Zero()), Wavefront.Readout(p.wR, Zero());
    var u, v := Wavefront.Readout(p.wIn, Zero()), Wavefront.Readout(p.wHn, Zero());
    var r, z, c, n := GruLanes.EvaluatedLane(f, x, y, u, v, p, Zero(), Zero(), 0);
  }
}
