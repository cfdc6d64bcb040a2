/** The sixteen vaults of the vertex program stay in lockstep for a whole vertex. */
module VertexLockstep {
  import opened Vectors
  import opened Feeder
  import opened Psau
  import opened Vertex
  import opened VertexRun
  import opened VertexGating
  import opened VertexWhole
  import Gru
  import GruRun

  /** All connected vaults hold the same cell: phase, counter, latches and gate values. */
  ghost predicate Alike(bays: seq<Bay>) {
    forall u, v :: 0 <= u < v < |bays| && bays[u].Connected() && bays[v].Connected() ==> bays[u].cell == bays[v].cell
  }

  /** The same cells, behind the same wiring. */
  ghost predicate SameCells(bays: seq<Bay>, bays': seq<Bay>) {
    SameWiring(bays, bays') && forall v :: 0 <= v < |bays| ==> bays'[v].cell == bays[v].cell
  }

  // ---- where lockstep begins

  /** New cells are alike, and weights and biases are broadcast. */
  lemma BroadcastKeepsAlike(bays: seq<Bay>, wR: seq<real>, wZ: seq<real>, wIn: seq<real>, wHn: seq<real>,
                            bR: Vec, bZ: Vec, bIn: Vec, bHn: Vec)
    ensures (forall v :: 0 <= v < |bays| ==> bays[v].cell == Gru.NewCell()) ==> Alike(bays)
    ensures Alike(bays) ==> Alike(Reweighted(bays, wR, wZ, wIn, wHn)) && Alike(Rebiased(bays, bR, bZ, bIn, bHn))
  {
    var weighted, biased := Reweighted(bays, wR, wZ, wIn, wHn), Rebiased(bays, bR, bZ, bIn, bHn);
    assert forall v :: 0 <= v < |bays| ==> weighted[v].cell == WithWeights(bays[v].cell, wR, wZ, wIn, wHn);
    assert forall v :: 0 <= v < |bays| ==> biased[v].cell == WithBiases(bays[v].cell, bR, bZ, bIn, bHn);
  }

  // ---- through the stages

  lemma GatherCells(env: Env, ws: seq<World>, cys: seq<Cycle>, g: nat, p: Gru.Params)
    requires Gathers(env, ws, cys, g, p)
    ensures ws[g].Sized() && SameCells(ws[0].bays, ws[g].bays)
    ensures forall i :: 0 <= i < g ==> ws[i].bays == ws[0].bays
  {
    forall i | 0 <= i < g
      ensures ws[i].bays == ws[0].bays && ws[i].Sized()
    {
      if i > 0 {
        GatherStays(env, ws, cys, i, p);
      }
    }
    GatherStays(env, ws, cys, g, p);
    LastGatherCells(env, ws, cys, g - 1);
  }

  lemma LastGatherCells(env: Env, ws: seq<World>, cys: seq<Cycle>, n: nat)
    requires IsRun(env, ws, cys) && n < |cys| && ws[n].Sized() && ws[n].ctl.stage == Gathering
    ensures ws[n + 1].Sized() && forall v :: 0 <= v < 16 ==> ws[n + 1].bays[v].cell == ws[n].bays[v].cell
  {
    assert Cue(n);
    GatherStep(env, ws[n], ws[n + 1], cys[n]);
  }

  lemma ComputeCells(env: Env, ws: seq<World>, cys: seq<Cycle>, n: nat, k: nat)
    requires IsRun(env, ws, cys) && n + k <= |cys| && k <= 16
    requires ws[n].Sized() && ws[n].ctl.stage == Computing && ws[n].ctl.cycles.compute == 0
    ensures ws[n + k].Sized() && SameCells(ws[n].bays, ws[n + k].bays)
  {
    ComputeRun(env, ws, cys, n, k);
    forall v | 0 <= v < 16
      ensures ws[n + k].bays[v].cell == ws[n].bays[v].cell
      ensures ws[n + k].bays[v].Connected() <==> ws[n].bays[v].Connected()
    {
      PumpedLines(ws[n].bays[v], k);
    }
  }

  lemma StartedAlike(bays: seq<Bay>, h: Vec, m: Vec)
    requires Alike(bays)
    ensures Alike(StartedAll(bays, h, m))
  {
    var started := StartedAll(bays, h, m);
    assert forall v :: 0 <= v < |bays| ==> started[v].cell == Gru.Started(bays[v].cell, h, m);
  }

  /** Prepared cells that are alike stay alike on every cycle of the stage. */
  lemma AlikeAfter(f: Gru.Squash, bays: seq<Bay>, p: Gru.Params, h: Vec, m: Vec, n: nat)
    requires AllPrepared(bays, p, h, m) && Alike(bays)
    ensures Alike(BaysAfter(f, bays, n))
  {
    var later := BaysAfter(f, bays, n);
    forall u, v | 0 <= u < v < |later| && later[u].Connected() && later[v].Connected()
      ensures later[u].cell == later[v].cell
    {
      assert Prepared(bays[u], p, h, m) && Prepared(bays[v], p, h, m);
      Lockstep(f, VaultOf(bays[u]), VaultOf(bays[v]), n);
    }
  }

  /** The gated update: all connected cells share phase, counter and gate values on every cycle. */
  lemma GatingAlike(env: Env, ws: seq<World>, cys: seq<Cycle>, n: nat, k: nat, p: Gru.Params, h: Vec, m: Vec)
    requires IsRun(env, ws, cys) && n + k <= |cys| && k <= GatingLength(ws[n].bays)
    requires ws[n].Sized() && ws[n].ctl.stage == Gating && AllPrepared(ws[n].bays, p, h, m) && Alike(ws[n].bays)
    ensures Alike(ws[n + k].bays)
  {
    GatingRun(env, ws, cys, n, k, p, h, m);
    AlikeAfter(env.fns, ws[n].bays, p, h, m, k);
  }

  /** From the start of the vertex to the end of the reduction the cells are those of the start. */
  lemma GenUpdateCells(env: Env, ws: seq<World>, cys: seq<Cycle>, g: nat, p: Gru.Params)
    requires Gathers(env, ws, cys, g, p)
    ensures ws[g + 21].Sized() && forall i :: 0 <= i <= g + 21 ==> SameCells(ws[0].bays, ws[i].bays)
  {
    GatherCells(env, ws, cys, g, p);
    GatherStays(env, ws, cys, g, p);
    ComputeRests(env, ws, cys, g, p);
    DrainFromFlushed(env, ws, cys, g + 16);
    forall i | g <= i <= g + 16
      ensures SameCells(ws[g].bays, ws[i].bays)
    {
      ComputeCells(env, ws, cys, g, i - g);
    }
  }

  /** At the start of the gated update the vaults are prepared alike. */
  lemma PreparedAlike(env: Env, ws: seq<World>, cys: seq<Cycle>, g: nat, l: nat, p: Gru.Params) returns (h: Vec, m: Vec)
    requires Course(env, ws, cys, g, l, p) && Alike(ws[0].bays)
    ensures ws[g + 21 + l].Sized() && AllPrepared(ws[g + 21 + l].bays, p, h, m) && Alike(ws[g + 21 + l].bays)
    ensures SameWiring(ws[0].bays, ws[g + 21 + l].bays)
  {
    var a := g + 21;
    h, m := ws[a + l - 1].ctl.prevHidden, ws[a].ctl.message;
    GenUpdate(env, ws, cys, g, p);
    GenUpdateCells(env, ws, cys, g, p);
    assert SameCells(ws[0].bays, ws[a].bays);
    LoadRun(env, ws, cys, a, l);
    StartPrepares(ws[a].bays, p, h, m);
    StartedAlike(ws[a].bays, h, m);
  }

  /** Until the hidden state has arrived the cells are those of the start. */
  lemma AlikeBefore(env: Env, ws: seq<World>, cys: seq<Cycle>, g: nat, l: nat, p: Gru.Params, i: nat)
    requires Course(env, ws, cys, g, l, p) && Alike(ws[0].bays) && i < g + 21 + l
    ensures Alike(ws[i].bays)
  {
    var a := g + 21;
    GenUpdate(env, ws, cys, g, p);
    GenUpdateCells(env, ws, cys, g, p);
    assert SameCells(ws[0].bays, ws[if i <= a then i else a].bays);
    if a < i {
      LoadRun(env, ws, cys, a, i - a);
    }
  }

  lemma AlikeFrom(env: Env, ws: seq<World>, cys: seq<Cycle>, g: nat, l: nat, p: Gru.Params, i: nat)
    requires Course(env, ws, cys, g, l, p) && Alike(ws[0].bays)
    requires g + 21 + l <= i <= g + 21 + l + GatingLength(ws[0].bays) + 1
    ensures Alike(ws[i].bays)
  {
    var b, n := g + 21 + l, GatingLength(ws[0].bays);
    var h, m := PreparedAlike(env, ws, cys, g, l, p);
    WiringCounts(ws[0].bays, ws[b].bays, |ws[0].bays|);
    LastBays(env, ws, cys, b, n, p, h, m);
    GatingAlike(env, ws, cys, b, if i - b <= n then i - b else i - b - 1, p, h, m);
  }

  /**
   * Vault lockstep: if the connected cells are alike when a vertex starts, they are alike before
   * every cycle of the vertex and when it completes.
   */
  lemma VertexInLockstep(env: Env, ws: seq<World>, cys: seq<Cycle>, g: nat, l: nat, p: Gru.Params)
    requires Course(env, ws, cys, g, l, p) && Alike(ws[0].bays)
    ensures forall i :: 0 <= i <= g + 21 + l + GatingLength(ws[0].bays) + 1 ==> Alike(ws[i].bays)
  {
    forall i | 0 <= i <= g + 21 + l + GatingLength(ws[0].bays) + 1
      ensures Alike(ws[i].bays)
    {
      if i < g + 21 + l {
        AlikeBefore(env, ws, cys, g, l, p, i);
      } else {
        AlikeFrom(env, ws, cys, g, l, p, i);
      }
    }
  }

  lemma LastBays(env: Env, ws: seq<World>, cys: seq<Cycle>, b: nat, n: nat, p: Gru.Params, h: Vec, m: Vec)
    requires IsRun(env, ws, cys) && b + n < |cys| && ws[b].Sized() && n == GatingLength(ws[b].bays)
    requires ws[b].ctl.stage == Gating && AllPrepared(ws[b].bays, p, h, m)
    ensures ws[b + n + 1].bays == ws[b + n].bays
  {
    GatingRun(env, ws, cys, b, n, p, h, m);
    assert Cue(b + n);
    WritebackStep(env, ws[b + n], ws[b + n + 1], cys[b + n]);
  }

  /**
   * With all sixteen vaults connected the result of a vertex is the common closed form itself,
   * after exactly 137 cycles of gated update.
   */
  lemma FullyConnectedVertex(env: Env, ws: seq<World>, cys: seq<Cycle>, g: nat, l: nat, p: Gru.Params)
    requires Course(env, ws, cys, g, l, p) && forall v :: 0 <= v < 16 ==> ws[0].bays[v].Connected()
    ensures var w' := ws[g + 21 + l + GatingLength(ws[0].bays) + 1];
      && w'.ctl.stage == Complete && w'.ctl.cycles == Cycles(g, 16, 5, l, 137, g + 21 + l + 137 + 1)
      && GruRun.Square(p)
      && w'.ctl.newHidden
         == GruRun.GruExpression(env.fns, p, ws[g + 20 + l].ctl.prevHidden, VecSum(cys[g + 15].saOutputs))
  {
    VertexCompletes(env, ws, cys, g, l, p, g + 21 + l + GatingLength(ws[0].bays) + 1);
    AllConnected(ws[0].bays, 16);
    assert ws[0].bays[0].Connected() && Rested(ws[0].bays[0], p);
    FullShare(GruRun.GruExpression(env.fns, p, ws[g + 20 + l].ctl.prevHidden, VecSum(cys[g + 15].saOutputs)));
  }
}
