/** The result of a GRU evaluation lane by lane, in plain arithmetic. */
module GruLanes {
  import opened Vectors
  import opened Gru
  import opened GruRun
  import opened Wavefront

  /** x is what the array contributes for v over w: nothing below lane 15, a dot product there. */
  ghost predicate Contributed(w: Matrix, v: Vec, x: Vec) {
    && (forall d :: 0 <= d < 15 ==> x[d] == 0.0)
    && (forall c {:trigger SixteenProducts(w, v, c)} :: c == 15 ==> x[c] == SixteenProducts(w, v, c))
  }

  lemma ReadoutContributes(w: Matrix, v: Vec) returns (x: Vec)
    ensures x == Readout(w, v) && Contributed(w, v, x)
  {
    x := Readout(w, v);
    ProductTerms(w, v, 15);
  }

  /** The evaluation with the four contributions left open. */
  function Evaluated(f: Squash, x: Vec, y: Vec, u: Vec, v: Vec, p: Params, h: Vec, m: Vec): Vec {
    Blend(VecMap(f.sigmoid, VecAdd(VecAdd(x, p.bZ), m)), h,
          VecMap(f.tanh, VecAdd(VecAdd(u, p.bIn),
                                Hadamard(VecMap(f.sigmoid, VecAdd(VecAdd(y, p.bR), m)), VecAdd(v, p.bHn)))))
  }

  lemma GateLane(f: real -> real, a: Vec, b: Vec, m: Vec, d: nat) returns (z: Vec)
    requires d < 16
    ensures z == VecMap(f, VecAdd(VecAdd(a, b), m)) && z[d] == f(a[d] + b[d] + m[d])
  {
    z := VecMap(f, VecAdd(VecAdd(a, b), m));
  }

  lemma CandidateLane(f: real -> real, x: Vec, b: Vec, r: Vec, y: Vec, b': Vec, d: nat) returns (n: Vec, c: real)
    requires d < 16
    ensures n == VecMap(f, VecAdd(VecAdd(x, b), Hadamard(r, VecAdd(y, b'))))
    ensures c == x[d] + b[d] + r[d] * (y[d] + b'[d]) && n[d] == f(c)
  {
    n := VecMap(f, VecAdd(VecAdd(x, b), Hadamard(r, VecAdd(y, b'))));
    c := VecAdd(VecAdd(x, b), Hadamard(r, VecAdd(y, b')))[d];
  }

  lemma BlendLane(z: Vec, h: Vec, n: Vec, d: nat)
    requires d < 16
    ensures Blend(z, h, n)[d] == (1.0 - z[d]) * h[d] + z[d] * n[d]
  {
  }

  lemma EvaluatedLane(f: Squash, x: Vec, y: Vec, u: Vec, v: Vec, p: Params, h: Vec, m: Vec, d: nat)
    returns (r: real, z: real, c: real, n: real)
    requires d < 16
    ensures z == f.sigmoid(x[d] + p.bZ[d] + m[d]) && r == f.sigmoid(y[d] + p.bR[d] + m[d])
    ensures c == u[d] + p.bIn[d] + r * (v[d] + p.bHn[d]) && n == f.tanh(c)
    ensures Evaluated(f, x, y, u, v, p, h, m)[d] == (1.0 - z) * h[d] + z * n
  {
    var zs := GateLane(f.sigmoid, x, p.bZ, m, d);
    var rs := GateLane(f.sigmoid, y, p.bR, m, d);
    var ns: Vec;
    ns, c := CandidateLane(f.tanh, u, p.bIn, rs, v, p.bHn, d);
    BlendLane(zs, h, ns, d);
    r, z, n := rs[d], zs[d], ns[d];
  }

  /** What the 137th call leaves: three products of the hidden state and one of the message. */
  lemma Result(f: Squash, s: Vault, p: Params, h: Vec, m: Vec)
    returns (hNew: Vec, x: Vec, y: Vec, u: Vec, v: Vec)
    requires Ready(s) && Square(p) && p == s.cell.params && h == s.cell.hPrev && m == s.cell.msg
    ensures Contributed(p.wZ, h, x) && Contributed(p.wR, h, y) && Contributed(p.wIn, m, u) && Contributed(p.wHn, h, v)
    ensures hNew == Run(f, s, 137).cell.hNew && hNew == Evaluated(f, x, y, u, v, p, h, m)
  {
    LastCall(f, s);
    hNew := Run(f, s, 137).cell.hNew;
    x := ReadoutContributes(p.wZ, h);
    y := ReadoutContributes(p.wR, h);
    u := ReadoutContributes(p.wIn, m);
    v := ReadoutContributes(p.wHn, h);
  }

  /**
   * Lane d of the hidden state that the 137th call leaves, with update gate z, reset gate r and
   * candidate n. The arrays contribute x, y, u and v: nothing below lane 15, and there the
   * products with the last columns of the four matrices.
   */
  lemma ResultLane(f: Squash, s: Vault, p: Params, h: Vec, m: Vec, d: nat)
    returns (hNew: Vec, x: Vec, y: Vec, u: Vec, v: Vec, r: real, z: real, c: real, n: real)
    requires Ready(s) && Square(p) && p == s.cell.params && h == s.cell.hPrev && m == s.cell.msg && d < 16
    ensures Contributed(p.wZ, h, x) && Contributed(p.wR, h, y) && Contributed(p.wIn, m, u) && Contributed(p.wHn, h, v)
    ensures z == f.sigmoid(x[d] + p.bZ[d] + m[d]) && r == f.sigmoid(y[d] + p.bR[d] + m[d])
    ensures c == u[d] + p.bIn[d] + r * (v[d] + p.bHn[d]) && n == f.tanh(c)
    ensures hNew == Run(f, s, 137).cell.hNew && hNew[d] == (1.0 - z) * h[d] + z * n
  {
    hNew, x, y, u, v := Result(f, s, p, h, m);
    r, z, c, n := EvaluatedLane(f, x, y, u, v, p, h, m, d);
  }

  /** Gates that are shut return the hidden state that the evaluation started from. */
  lemma ShutGateKeeps(f: Squash, s: Vault)
    requires Ready(s) && Square(s.cell.params) && forall a :: f.sigmoid(a) == 0.0
    ensures Run(f, s, 137).cell.hNew == s.cell.hPrev
  {
    var hNew, x, y, u, v := Result(f, s, s.cell.params, s.cell.hPrev, s.cell.msg);
    forall d | 0 <= d < 16
      ensures hNew[d] == s.cell.hPrev[d]
    {
      var r, z, c, n := EvaluatedLane(f, x, y, u, v, s.cell.params, s.cell.hPrev, s.cell.msg, d);
    }
  }

  /** Gates that are open replace it by the candidate. */
  lemma OpenGateReplaces(f: Squash, s: Vault, p: Params, h: Vec, m: Vec, d: nat)
    returns (hNew: Vec, u: Vec, v: Vec, c: real)
    requires Ready(s) && Square(p) && p == s.cell.params && h == s.cell.hPrev && m == s.cell.msg && d < 16
    requires forall a :: f.sigmoid(a) == 1.0
    ensures Contributed(p.wIn, m, u) && Contributed(p.wHn, h, v)
    ensures c == u[d] + p.bIn[d] + v[d] + p.bHn[d]
    ensures hNew == Run(f, s, 137).cell.hNew && hNew[d] == f.tanh(c)
  {
    var x, y;
    hNew, x, y, u, v := Result(f, s, p, h, m);
    var r, z, n: real;
    r, z, c, n := EvaluatedLane(f, x, y, u, v, p, h, m, d);
  }
}
