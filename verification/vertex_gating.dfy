/** The gated-update stage: up to sixteen cells in lockstep, and the average of their results. */
module VertexGating {
  import opened Arith
  import opened Vectors
  import opened Feeder
  import opened Vertex
  import opened VertexRun
  import Gru
  import GruRun

  ghost function VaultOf(b: Bay): Gru.Vault
    requires b.Connected()
  {
    Gru.Vault(b.cell, b.grid.value, b.lines.value)
  }

  /** A vault after n cycles of the stage; one that is not connected stays as it is. */
  ghost function BayAfter(f: Gru.Squash, b: Bay, n: nat): Bay {
    if !b.Connected() then b
    else
      var s := GruRun.Run(f, VaultOf(b), n);
      Bay(s.cell, Some(s.grid), Some(s.lines))
  }

  /** A vault whose cell has just been started on h and m with square weights and an empty feeder. */
  ghost predicate Prepared(b: Bay, p: Gru.Params, h: Vec, m: Vec) {
    && b.cell.params == p && GruRun.Square(p) && b.cell.hPrev == h && b.cell.msg == m
    && b.cell.phase == Gru.Load(Gru.Reset) && b.cell.drainCount == 0 && !b.cell.done && b.cell.hNew == Zero()
    && (b.Connected() ==> b.lines.value == Empty())
  }

  /** A cell becomes done with its 137th call. */
  lemma DoneIff(f: Gru.Squash, s: Gru.Vault, k: nat)
    requires GruRun.Ready(s) && GruRun.Square(s.cell.params)
    ensures GruRun.Run(f, s, k).cell.done <==> 137 <= k
    ensures GruRun.AnswerAt(f, s, k) != Gru.Threw
  {
    GruRun.EndToEnd(f, s);
    if k == 136 {
      GruRun.GatesRun(f, s, 4);
    } else if 137 <= k {
      GruRun.RunAdds(f, s, 137, k - 137);
      GruRun.StaysDone(f, GruRun.Run(f, s, 137), k - 137);
    }
  }

  lemma GatedIsRun(f: Gru.Squash, b: Bay, p: Gru.Params, h: Vec, m: Vec, n: nat)
    requires Prepared(b, p, h, m)
    ensures Gated(f, BayAfter(f, b, n)) == (BayAfter(f, b, n + 1), false)
  {
    if b.Connected() {
      DoneIff(f, VaultOf(b), n);
      assert GruRun.Run(f, VaultOf(b), n + 1) == Gru.Step(f, GruRun.Run(f, VaultOf(b), n)).vault;
    }
  }

  lemma CountedIff(f: Gru.Squash, b: Bay, p: Gru.Params, h: Vec, m: Vec, n: nat)
    requires Prepared(b, p, h, m)
    ensures Counted(BayAfter(f, b, n)) <==> !b.Connected() || 137 <= n
  {
    if b.Connected() {
      DoneIff(f, VaultOf(b), n);
    }
  }

  ghost predicate AllPrepared(bays: seq<Bay>, p: Gru.Params, h: Vec, m: Vec) {
    |bays| == 16 && GruRun.Square(p) && forall v :: 0 <= v < 16 ==> Prepared(bays[v], p, h, m)
  }

  /** All the vaults after n cycles. */
  ghost function BaysAfter(f: Gru.Squash, bays: seq<Bay>, n: nat): (r: seq<Bay>)
    ensures |r| == |bays|
  {
    seq(|bays|, v requires 0 <= v < |bays| => BayAfter(f, bays[v], n))
  }

  /** One sweep over prepared vaults throws nothing and clocks each of them once. */
  lemma SweepIsRun(f: Gru.Squash, bays: seq<Bay>, p: Gru.Params, h: Vec, m: Vec, n: nat)
    requires AllPrepared(bays, p, h, m)
    ensures GatedAll(f, BaysAfter(f, bays, n)) == BaysAfter(f, bays, n + 1)
    ensures !ThrowsBefore(f, BaysAfter(f, bays, n), 16)
  {
    var now := BaysAfter(f, bays, n);
    forall v: nat | v < 16
      ensures Gated(f, now[v]) == (BaysAfter(f, bays, n + 1)[v], false)
    {
      GatedIsRun(f, bays[v], p, h, m, n);
    }
    assert forall v: nat :: v < 16 ==> !ThrowsBefore(f, now, v);
  }

  ghost predicate AnyConnected(bays: seq<Bay>) {
    exists v :: 0 <= v < |bays| && bays[v].Connected()
  }

  /** How long the stage lasts. */
  ghost function GatingLength(bays: seq<Bay>): nat {
    if AnyConnected(bays) then 137 else 1
  }

  lemma FinishedIff(f: Gru.Squash, bays: seq<Bay>, p: Gru.Params, h: Vec, m: Vec, n: nat)
    requires AllPrepared(bays, p, h, m)
    ensures AllFinished(f, BaysAfter(f, bays, n)) <==> GatingLength(bays) <= n + 1
  {
    SweepIsRun(f, bays, p, h, m, n);
    forall v | 0 <= v < 16
      ensures Counted(BaysAfter(f, bays, n + 1)[v]) <==> !bays[v].Connected() || 137 <= n + 1
    {
      CountedIff(f, bays[v], p, h, m, n + 1);
    }
  }

  lemma GatingStep(env: Env, w: World, w': World, cy: Cycle)
    requires Link(env, w, w', cy) && w.ctl.stage == Gating
    ensures w'.bays == GatedAll(env.fns, w.bays) && w'.pipe == w.pipe
    ensures w'.ctl.stage == if AllFinished(env.fns, w.bays) then WritingBack else Gating
    ensures w'.ctl.stage == WritingBack ==> w'.ctl.newHidden == Averaged(w'.bays)
  {
    assert Open(0);
  }

  /** What the stage has reached after k cycles. */
  ghost predicate GatedTo(f: Gru.Squash, w0: World, w: World, k: nat) {
    && w.Sized() && w.pipe == w0.pipe && w.bays == BaysAfter(f, w0.bays, k)
    && w.ctl.stage == (if k < GatingLength(w0.bays) then Gating else WritingBack)
    && (w.ctl.stage == WritingBack ==> w.ctl.newHidden == Averaged(w.bays))
  }

  lemma GatingNext(env: Env, w0: World, w: World, w': World, cy: Cycle, k: nat, p: Gru.Params, h: Vec, m: Vec)
    requires Link(env, w, w', cy) && AllPrepared(w0.bays, p, h, m)
    requires k < GatingLength(w0.bays) && GatedTo(env.fns, w0, w, k)
    ensures GatedTo(env.fns, w0, w', k + 1)
  {
    GatingStep(env, w, w', cy);
    SweepIsRun(env.fns, w0.bays, p, h, m, k);
    FinishedIff(env.fns, w0.bays, p, h, m, k);
  }

  lemma GatedToStart(f: Gru.Squash, w: World)
    requires w.Sized() && w.ctl.stage == Gating
    ensures GatedTo(f, w, w, 0)
  {
    forall v | 0 <= v < 16
      ensures BayAfter(f, w.bays[v], 0) == w.bays[v]
    {
    }
    assert BaysAfter(f, w.bays, 0) == w.bays;
  }

  /** The stage lasts 137 cycles, or one when no vault is connected, and every cell runs alone. */
  lemma {:induction false} GatingRun(env: Env, ws: seq<World>, cys: seq<Cycle>, n: nat, k: nat,
                                     p: Gru.Params, h: Vec, m: Vec)
    requires IsRun(env, ws, cys) && n + k <= |cys|
    requires ws[n].Sized() && ws[n].ctl.stage == Gating && AllPrepared(ws[n].bays, p, h, m)
    requires k <= GatingLength(ws[n].bays)
    ensures GatedTo(env.fns, ws[n], ws[n + k], k)
    decreases k
  {
    if k == 0 {
      GatedToStart(env.fns, ws[n]);
    } else {
      GatingRun(env, ws, cys, n, k - 1, p, h, m);
      assert Cue(n + k - 1);
      GatingNext(env, ws[n], ws[n + k - 1], ws[n + k], cys[n + k - 1], k - 1, p, h, m);
    }
  }

  // ---- lockstep

  /** Two vaults in step: equal cells and feeders, and equal arrays while a product is under way. */
  ghost predicate InStep(s: Gru.Vault, t: Gru.Vault) {
    && s.cell == t.cell && s.lines == t.lines
    && (s.cell.phase.Settle? || s.cell.phase.Drain? ==> s.grid == t.grid)
  }

  /** Cells that start alike stay alike on every cycle, whatever their arrays held before. */
  lemma {:induction false} Lockstep(f: Gru.Squash, s: Gru.Vault, t: Gru.Vault, n: nat)
    requires InStep(s, t)
    ensures InStep(GruRun.Run(f, s, n), GruRun.Run(f, t, n))
    ensures GruRun.AnswerAt(f, s, n) == GruRun.AnswerAt(f, t, n)
  {
    if n == 0 {
    } else {
      Lockstep(f, s, t, n - 1);
      StepInStep(f, GruRun.Run(f, s, n - 1), GruRun.Run(f, t, n - 1));
    }
    StepInStep(f, GruRun.Run(f, s, n), GruRun.Run(f, t, n));
  }

  lemma StepInStep(f: Gru.Squash, s: Gru.Vault, t: Gru.Vault)
    requires InStep(s, t)
    ensures InStep(Gru.Step(f, s).vault, Gru.Step(f, t).vault)
    ensures Gru.Step(f, s).answer == Gru.Step(f, t).answer
  {
  }

  // ---- the average

  /** How many of the first n vaults are connected. */
  ghost function ConnectedCount(bays: seq<Bay>, n: nat): nat
    requires n <= |bays|
  {
    if n == 0 then 0 else ConnectedCount(bays, n - 1) + if bays[n - 1].Connected() then 1 else 0
  }

  /** The average counts one sixteenth of the common result for every connected vault. */
  function Share(count: nat, v: Vec): Vec {
    seq(16, d requires 0 <= d < 16 => Repeated(count, v[d] / 16.0))
  }

  /** Every connected vault ends with the closed-form result, every other one with zeros. */
  lemma ResultOf(f: Gru.Squash, b: Bay, p: Gru.Params, h: Vec, m: Vec, n: nat)
    requires Prepared(b, p, h, m) && (b.Connected() ==> n == 137)
    ensures BayAfter(f, b, n).cell.hNew == if b.Connected() then GruRun.GruExpression(f, p, h, m) else Zero()
  {
    if b.Connected() {
      GruRun.EndToEnd(f, VaultOf(b));
    }
  }

  lemma {:induction false} SumOfResults(bays: seq<Bay>, done: seq<Bay>, d: nat, g: Vec, n: nat)
    requires |bays| == |done| && d < 16 && n <= |bays|
    requires forall v :: 0 <= v < |bays| ==> done[v].cell.hNew == if bays[v].Connected() then g else Zero()
    ensures HiddenSum(done, d, n) == Repeated(ConnectedCount(bays, n), g[d] / 16.0)
  {
    if n == 0 {
    } else {
      SumOfResults(bays, done, d, g, n - 1);
    }
  }

  lemma AverageLane(bays: seq<Bay>, done: seq<Bay>, d: nat, g: Vec)
    requires |bays| == |done| && d < 16
    requires forall v :: 0 <= v < |bays| ==> done[v].cell.hNew == if bays[v].Connected() then g else Zero()
    ensures Averaged(done)[d] == Share(ConnectedCount(bays, |bays|), g)[d]
  {
    SumOfResults(bays, done, d, g, |bays|);
  }

  lemma AverageOf(bays: seq<Bay>, done: seq<Bay>, g: Vec)
    requires |bays| == |done|
    requires forall v :: 0 <= v < |bays| ==> done[v].cell.hNew == if bays[v].Connected() then g else Zero()
    ensures Averaged(done) == Share(ConnectedCount(bays, |bays|), g)
  {
    forall d | 0 <= d < 16
      ensures Averaged(done)[d] == Share(ConnectedCount(bays, |bays|), g)[d]
    {
      AverageLane(bays, done, d, g);
    }
  }

  /** The stage's result is the common closed form, weighed by the share of connected vaults. */
  lemma AverageOfResults(f: Gru.Squash, bays: seq<Bay>, p: Gru.Params, h: Vec, m: Vec)
    requires AllPrepared(bays, p, h, m)
    ensures Averaged(BaysAfter(f, bays, GatingLength(bays)))
         == Share(ConnectedCount(bays, |bays|), GruRun.GruExpression(f, p, h, m))
  {
    var done, g := BaysAfter(f, bays, GatingLength(bays)), GruRun.GruExpression(f, p, h, m);
    forall v | 0 <= v < 16
      ensures done[v].cell.hNew == if bays[v].Connected() then g else Zero()
    {
      ResultOf(f, bays[v], p, h, m, GatingLength(bays));
    }
    AverageOf(bays, done, g);
  }

  lemma {:induction false} AllConnected(bays: seq<Bay>, n: nat)
    requires n <= |bays| && forall v :: 0 <= v < n ==> bays[v].Connected()
    ensures ConnectedCount(bays, n) == n
  {
    if n == 0 {
    } else {
      AllConnected(bays, n - 1);
    }
  }

  /** With all sixteen vaults connected the average is the common result itself. */
  lemma FullShare(v: Vec)
    ensures Share(16, v) == v
  {
    forall d | 0 <= d < 16
      ensures Share(16, v)[d] == v[d]
    {
      RepeatedIsProduct(16, v[d] / 16.0);
    }
  }
}
