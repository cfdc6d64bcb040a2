/** A whole vertex: from the start call to completion, ready for the next one. */
module VertexWhole {
  import opened Vectors
  import opened Systolic
  import opened Feeder
  import opened Psau
  import opened Vertex
  import opened VertexRun
  import opened VertexGating
  import Gru
  import GruRun

  // ---- the cycle counters, stage by stage

  /** The counters after k more cycles spent in stage s. */
  function Bumped(c: Cycles, s: Stage, k: nat): Cycles {
    var c' := c.(total := c.total + k);
    match s
    case Gathering => c'.(gather := c.gather + k)
    case Computing => c'.(compute := c.compute + k)
    case Draining => c'.(psau := c.psau + k)
    case LoadingH => c'.(loadH := c.loadH + k)
    case Gating => c'.(gru := c.gru + k)
    case _ => c'
  }

  lemma CyclesStep(env: Env, w: World, w': World, cy: Cycle)
    requires Link(env, w, w', cy) && CountersAgree(w.ctl) && Active(w.ctl.stage)
    ensures w'.ctl.cycles == Bumped(w.ctl.cycles, w.ctl.stage, 1)
  {
    assert Open(0);
    DeliveredKeeps(Tick(env, w, cy.saOutputs), cy);
    if Rank(w.ctl.stage) <= 3 {
      EarlyCycles(env, w, cy.saOutputs);
    } else {
      LateCycles(env, w, cy.saOutputs);
    }
  }

  lemma EarlyCycles(env: Env, w: World, saOutputs: Bundle)
    requires w.Sized() && CountersAgree(w.ctl) && Active(w.ctl.stage) && Rank(w.ctl.stage) <= 3
    ensures Tick(env, w, saOutputs).ctl.cycles == Bumped(w.ctl.cycles, w.ctl.stage, 1)
  {
  }

  lemma LateCycles(env: Env, w: World, saOutputs: Bundle)
    requires w.Sized() && CountersAgree(w.ctl) && Active(w.ctl.stage) && 3 < Rank(w.ctl.stage)
    ensures Tick(env, w, saOutputs).ctl.cycles == Bumped(w.ctl.cycles, w.ctl.stage, 1)
  {
  }

  /** A segment of a run that stays in one stage charges all its cycles to that stage. */
  lemma {:induction false} SegmentCycles(env: Env, ws: seq<World>, cys: seq<Cycle>, n: nat, k: nat, s: Stage)
    requires IsRun(env, ws, cys) && n + k <= |cys| && CountersAgree(ws[0].ctl)
    requires Active(s) && forall i :: n <= i < n + k ==> ws[i].ctl.stage == s
    ensures ws[n + k].ctl.cycles == Bumped(ws[n].ctl.cycles, s, k)
    decreases k
  {
    if k == 0 {
    } else {
      SegmentCycles(env, ws, cys, n, k - 1, s);
      CountersRun(env, ws, cys, n + k - 1);
      assert Cue(n + k - 1);
      CyclesStep(env, ws[n + k - 1], ws[n + k], cys[n + k - 1]);
    }
  }

  // ---- gather and load

  lemma GatherStep(env: Env, w: World, w': World, cy: Cycle)
    requires Link(env, w, w', cy) && w.ctl.stage == Gathering
    ensures w'.pipe == w.pipe && w'.ctl.verticesDone == w.ctl.verticesDone
    ensures w'.ctl.stage == Gathering ==> w'.bays == w.bays
    ensures w'.ctl.stage != Gathering ==> w'.ctl.stage == Computing && w'.ctl.cycles.compute == 0
    ensures forall v :: 0 <= v < 16 ==> w'.bays[v].cell == w.bays[v].cell
    ensures forall v :: 0 <= v < 16 ==> w'.bays[v].grid == w.bays[v].grid
    ensures forall v :: 0 <= v < 16 ==> w'.bays[v].lines == w.bays[v].lines || HoldsOneMore(w.bays[v], w'.bays[v])
  {
    assert Open(0);
  }

  /** The second vault's feeder has received one more vector. */
  ghost predicate HoldsOneMore(b: Bay, b': Bay) {
    b.lines.Some? && b'.lines.Some? && exists v: Vec :: b'.lines.value == Pushed(b.lines.value, v)
  }

  /** A vault that a new vertex may use: common square weights, and an empty feeder if connected. */
  ghost predicate Rested(b: Bay, p: Gru.Params) {
    b.cell.params == p && GruRun.Square(p) && (b.Connected() ==> b.lines.value == Empty())
  }

  /** The same, except that the feeder may hold one vector. */
  ghost predicate Fed(b: Bay, p: Gru.Params) {
    && b.cell.params == p && GruRun.Square(p)
    && (b.Connected() ==> b.lines.value == Empty() || exists v: Vec :: b.lines.value == Pushed(Empty(), v))
  }

  lemma FedDrains(b: Bay, p: Gru.Params)
    requires Fed(b, p)
    ensures Rested(PumpedTimes(b, 16), p)
    ensures PumpedTimes(b, 16).Connected() <==> b.Connected()
  {
    PumpedLines(b, 16);
    if b.Connected() {
      if b.lines.value == Empty() {
        EmptyStays(16);
      } else {
        var v: Vec :| b.lines.value == Pushed(Empty(), v);
        EmptyAfterSixteen(v, 16);
      }
    }
  }

  lemma {:induction false} EmptyStays(k: nat)
    ensures Drained(Empty(), k) == Empty()
  {
    if k == 0 {
    } else {
      EmptyStays(k - 1);
      assert Popped(Empty()) == Empty();
    }
  }

  lemma LoadStep(env: Env, w: World, w': World, cy: Cycle)
    requires Link(env, w, w', cy) && w.ctl.stage == LoadingH
    ensures w'.pipe == w.pipe
    ensures w'.ctl.stage == if w.ctl.hLoadDone then Gating else LoadingH
    ensures w'.ctl.stage == LoadingH ==> w'.bays == w.bays && w'.ctl.message == w.ctl.message
    ensures w'.ctl.stage == Gating ==> w'.bays == StartedAll(w.bays, w.ctl.prevHidden, w.ctl.message)
  {
    assert Open(0);
  }

  // ---- one vertex

  ghost predicate AllRested(bays: seq<Bay>, p: Gru.Params) {
    |bays| == 16 && forall v :: 0 <= v < 16 ==> Rested(bays[v], p)
  }

  ghost predicate AllFed(bays: seq<Bay>, p: Gru.Params) {
    |bays| == 16 && forall v :: 0 <= v < 16 ==> Fed(bays[v], p)
  }

  ghost predicate SameWiring(bays: seq<Bay>, bays': seq<Bay>) {
    |bays| == |bays'| && forall v :: 0 <= v < |bays| ==> (bays'[v].Connected() <==> bays[v].Connected())
  }

  lemma {:induction false} WiringCounts(bays: seq<Bay>, bays': seq<Bay>, n: nat)
    requires SameWiring(bays, bays') && n <= |bays|
    ensures ConnectedCount(bays', n) == ConnectedCount(bays, n)
    ensures GatingLength(bays') == GatingLength(bays)
  {
    if n == 0 {
    } else {
      WiringCounts(bays, bays', n - 1);
    }
  }

  lemma GatherNext(env: Env, w: World, w': World, cy: Cycle, p: Gru.Params)
    requires Link(env, w, w', cy) && w.ctl.stage == Gathering && AllRested(w.bays, p)
    ensures w'.pipe == w.pipe && SameWiring(w.bays, w'.bays)
    ensures w'.ctl.stage == Gathering ==> w'.bays == w.bays
    ensures w'.ctl.stage != Gathering ==> AllFed(w'.bays, p) && w'.ctl.stage == Computing && w'.ctl.cycles.compute == 0
  {
    GatherStep(env, w, w', cy);
    forall v | 0 <= v < 16
      ensures Fed(w'.bays[v], p)
    {
      assert Rested(w.bays[v], p);
    }
  }

  /** The gather stage leaves the vaults as they were, but for one vector in the feeders. */
  lemma {:induction false} GatherStays(env: Env, ws: seq<World>, cys: seq<Cycle>, g: nat, p: Gru.Params)
    requires IsRun(env, ws, cys) && 0 < g <= |cys| && ws[0].Sized() && AllRested(ws[0].bays, p)
    requires forall i :: 0 <= i < g ==> ws[i].ctl.stage == Gathering
    ensures ws[g].Sized() && ws[g].pipe == ws[0].pipe && SameWiring(ws[0].bays, ws[g].bays)
    ensures ws[g].ctl.stage == Gathering ==> ws[g].bays == ws[0].bays
    ensures ws[g].ctl.stage != Gathering ==>
      AllFed(ws[g].bays, p) && ws[g].ctl.stage == Computing && ws[g].ctl.cycles.compute == 0
  {
    assert Cue(g - 1);
    if g == 1 {
      GatherNext(env, ws[0], ws[1], cys[0], p);
    } else {
      GatherStays(env, ws, cys, g - 1, p);
      GatherNext(env, ws[g - 1], ws[g], cys[g - 1], p);
    }
  }

  lemma FedAllDrain(bays: seq<Bay>, bays': seq<Bay>, p: Gru.Params)
    requires AllFed(bays, p) && |bays'| == 16
    requires forall v :: 0 <= v < 16 ==> bays'[v] == PumpedTimes(bays[v], 16)
    ensures AllRested(bays', p) && SameWiring(bays, bays')
  {
    forall v | 0 <= v < 16
      ensures Rested(bays'[v], p) && (bays'[v].Connected() <==> bays[v].Connected())
    {
      FedDrains(bays[v], p);
    }
  }

  /** Sixteen compute cycles empty the feeders again. */
  lemma ComputeRests(env: Env, ws: seq<World>, cys: seq<Cycle>, n: nat, p: Gru.Params)
    requires IsRun(env, ws, cys) && n + 16 <= |cys|
    requires ws[n].Sized() && ws[n].ctl.stage == Computing && ws[n].ctl.cycles.compute == 0 && AllFed(ws[n].bays, p)
    ensures ws[n + 16].Sized() && ws[n + 16].ctl.stage == Draining && ws[n + 16].ctl.flushCount == 0
    ensures ws[n + 16].pipe == ws[n].pipe && ws[n + 16].ctl.partialSums == cys[n + 15].saOutputs
    ensures AllRested(ws[n + 16].bays, p) && SameWiring(ws[n].bays, ws[n + 16].bays)
    ensures forall i :: n <= i < n + 16 ==> ws[i].ctl.stage == Computing
  {
    ComputeRun(env, ws, cys, n, 16);
    FedAllDrain(ws[n].bays, ws[n + 16].bays, p);
    forall i | n <= i < n + 16
      ensures ws[i].ctl.stage == Computing
    {
      ComputeRun(env, ws, cys, n, i - n);
    }
  }

  /** Starting rested cells prepares them. */
  lemma StartPrepares(bays: seq<Bay>, p: Gru.Params, h: Vec, m: Vec)
    requires AllRested(bays, p)
    ensures AllPrepared(StartedAll(bays, h, m), p, h, m) && SameWiring(bays, StartedAll(bays, h, m))
  {
    assert Rested(bays[0], p);
    forall v | 0 <= v < 16
      ensures Prepared(StartedAll(bays, h, m)[v], p, h, m)
    {
      assert Rested(bays[v], p);
    }
  }

  /** The wait for the hidden state keeps the message and ends by starting every cell. */
  lemma {:induction false} LoadRun(env: Env, ws: seq<World>, cys: seq<Cycle>, n: nat, k: nat)
    requires IsRun(env, ws, cys) && 0 < k && n + k <= |cys| && ws[n].Sized()
    requires forall i :: n <= i < n + k ==> ws[i].ctl.stage == LoadingH
    ensures ws[n + k].Sized() && ws[n + k].pipe == ws[n].pipe
    ensures ws[n + k].ctl.stage == LoadingH ==>
      ws[n + k].bays == ws[n].bays && ws[n + k].ctl.message == ws[n].ctl.message
    ensures ws[n + k].ctl.stage != LoadingH ==> ws[n + k].ctl.stage == Gating
    ensures ws[n + k].ctl.stage != LoadingH ==>
      ws[n + k].bays == StartedAll(ws[n].bays, ws[n + k - 1].ctl.prevHidden, ws[n].ctl.message)
    decreases k
  {
    if k == 1 {
    } else {
      LoadRun(env, ws, cys, n, k - 1);
    }
    assert Cue(n + k - 1);
    LoadStep(env, ws[n + k - 1], ws[n + k], cys[n + k - 1]);
  }

  /** A finished vault is rested again. */
  lemma FinishedRests(f: Gru.Squash, bays: seq<Bay>, p: Gru.Params, h: Vec, m: Vec)
    requires AllPrepared(bays, p, h, m)
    ensures AllRested(BaysAfter(f, bays, GatingLength(bays)), p)
  {
    forall v | 0 <= v < 16
      ensures Rested(BayAfter(f, bays[v], GatingLength(bays)), p)
    {
      assert Prepared(bays[v], p, h, m);
      if bays[v].Connected() {
        GruRun.EndToEnd(f, VaultOf(bays[v]));
        ParamsStay(f, VaultOf(bays[v]), 137);
      }
    }
  }

  lemma {:induction false} ParamsStay(f: Gru.Squash, s: Gru.Vault, n: nat)
    ensures GruRun.Run(f, s, n).cell.params == s.cell.params
  {
    if n == 0 {
    } else {
      ParamsStay(f, s, n - 1);
    }
  }

  lemma WritebackStep(env: Env, w: World, w': World, cy: Cycle)
    requires Link(env, w, w', cy) && w.ctl.stage == WritingBack
    ensures w'.Sized() && w'.ctl.stage == Complete
    ensures w'.bays == w.bays && w'.pipe == w.pipe && w'.ctl.newHidden == w.ctl.newHidden
    ensures w'.ctl.verticesDone == w.ctl.verticesDone + 1 && w'.ctl.writebackReady
  {
    assert Open(0);
  }

  /** A program just started on hardware at rest, in a run that leaves the gather after g cycles. */
  ghost predicate Gathers(env: Env, ws: seq<World>, cys: seq<Cycle>, g: nat, p: Gru.Params) {
    && IsRun(env, ws, cys) && 0 < g && g + 21 <= |cys|
    && ws[0].Sized() && ws[0].ctl.cycles == Cycles(0, 0, 0, 0, 0, 0)
    && AllRested(ws[0].bays, p) && Flushed(ws[0].pipe)
    && (forall i :: 0 <= i < g ==> ws[i].ctl.stage == Gathering)
    && ws[g].ctl.stage == Computing
  }

  /** Gather, 16 compute cycles and 5 drain cycles: the message is the sum of the latched vectors. */
  lemma GenUpdate(env: Env, ws: seq<World>, cys: seq<Cycle>, g: nat, p: Gru.Params)
    requires Gathers(env, ws, cys, g, p)
    ensures ws[g + 21].Sized() && ws[g + 21].ctl.stage == LoadingH
    ensures ws[g + 21].ctl.message == VecSum(cys[g + 15].saOutputs)
    ensures Flushed(ws[g + 21].pipe) && AllRested(ws[g + 21].bays, p) && SameWiring(ws[0].bays, ws[g + 21].bays)
    ensures ws[g + 21].ctl.cycles == Cycles(g, 16, 5, 0, 0, g + 21)
  {
    GatherStays(env, ws, cys, g, p);
    ComputeRests(env, ws, cys, g, p);
    DrainFromFlushed(env, ws, cys, g + 16);
    SegmentCycles(env, ws, cys, 0, g, Gathering);
    SegmentCycles(env, ws, cys, g, 16, Computing);
    SegmentCycles(env, ws, cys, g + 16, 5, Draining);
  }

  /** From cycle a on, the run waits l cycles for the hidden state and then starts the cells. */
  ghost predicate Loads(env: Env, ws: seq<World>, cys: seq<Cycle>, a: nat, l: nat, p: Gru.Params) {
    && IsRun(env, ws, cys) && 0 < l && a + l < |cys|
    && ws[a].Sized() && CountersAgree(ws[0].ctl) && AllRested(ws[a].bays, p)
    && (forall i :: a <= i < a + l ==> ws[i].ctl.stage == LoadingH)
    && ws[a + l].ctl.stage == Gating
  }

  /** Load, gated update and writeback: the result is the averaged closed form of the cells. */
  lemma ApplyUpdate(env: Env, ws: seq<World>, cys: seq<Cycle>, a: nat, l: nat, p: Gru.Params)
    requires Loads(env, ws, cys, a, l, p) && a + l + GatingLength(ws[a].bays) + 1 <= |cys|
    ensures var n, w, w' := GatingLength(ws[a].bays), ws[a], ws[a + l + GatingLength(ws[a].bays) + 1];
      && w'.Sized() && w'.ctl.stage == Complete && w'.pipe == w.pipe && AllRested(w'.bays, p)
      && w'.ctl.verticesDone == ws[a + l + n].ctl.verticesDone + 1
      && w'.ctl.newHidden == Share(ConnectedCount(w.bays, |w.bays|),
                                   GruRun.GruExpression(env.fns, p, ws[a + l - 1].ctl.prevHidden, w.ctl.message))
      && w'.ctl.cycles == w.ctl.cycles.(loadH := w.ctl.cycles.loadH + l, gru := w.ctl.cycles.gru + n,
                                        total := w.ctl.cycles.total + l + n + 1)
  {
    var n, h, m := GatingLength(ws[a].bays), ws[a + l - 1].ctl.prevHidden, ws[a].ctl.message;
    var b := a + l;
    LoadRun(env, ws, cys, a, l);
    StartPrepares(ws[a].bays, p, h, m);
    WiringCounts(ws[a].bays, ws[b].bays, |ws[a].bays|);
    GatingRun(env, ws, cys, b, n, p, h, m);
    FinishedRests(env.fns, ws[b].bays, p, h, m);
    AverageOfResults(env.fns, ws[b].bays, p, h, m);
    assert Cue(b + n);
    WritebackStep(env, ws[b + n], ws[b + n + 1], cys[b + n]);
    ApplyCycles(env, ws, cys, a, l, p, h, m);
  }

  lemma ApplyCycles(env: Env, ws: seq<World>, cys: seq<Cycle>, a: nat, l: nat, p: Gru.Params, h: Vec, m: Vec)
    requires Loads(env, ws, cys, a, l, p) && a + l + GatingLength(ws[a + l].bays) + 1 <= |cys|
    requires ws[a + l].Sized() && AllPrepared(ws[a + l].bays, p, h, m)
    ensures var n, w, w' := GatingLength(ws[a + l].bays), ws[a], ws[a + l + GatingLength(ws[a + l].bays) + 1];
      w'.ctl.cycles == w.ctl.cycles.(loadH := w.ctl.cycles.loadH + l, gru := w.ctl.cycles.gru + n,
                                     total := w.ctl.cycles.total + l + n + 1)
  {
    var b, n := a + l, GatingLength(ws[a + l].bays);
    forall i | b <= i < b + n
      ensures ws[i].ctl.stage == Gating
    {
      GatingRun(env, ws, cys, b, i - b, p, h, m);
    }
    GatingRun(env, ws, cys, b, n, p, h, m);
    SegmentCycles(env, ws, cys, a, l, LoadingH);
    SegmentCycles(env, ws, cys, b, n, Gating);
    SegmentCycles(env, ws, cys, b + n, 1, WritingBack);
  }

  /** The premises of a whole vertex: how long the gather and the wait for the hidden state take. */
  ghost predicate Course(env: Env, ws: seq<World>, cys: seq<Cycle>, g: nat, l: nat, p: Gru.Params) {
    && Gathers(env, ws, cys, g, p) && 0 < l && g + 21 + l + GatingLength(ws[0].bays) + 1 <= |cys|
    && (forall i :: g + 21 <= i < g + 21 + l ==> ws[i].ctl.stage == LoadingH)
    && ws[g + 21 + l].ctl.stage == Gating
  }

  /**
   * One vertex, end to end: with g gather cycles and l cycles of waiting, the program completes
   * after g + 16 + 5 + l + 137 + 1 cycles (one instead of 137 when no vault is connected), its
   * counters say so, its result is the closed form over the reduced message and the loaded
   * hidden state, and the hardware is at rest for the next vertex.
   */
  lemma VertexCompletes(env: Env, ws: seq<World>, cys: seq<Cycle>, g: nat, l: nat, p: Gru.Params, e: nat)
    requires Course(env, ws, cys, g, l, p) && e == g + 21 + l + GatingLength(ws[0].bays) + 1
    ensures var n, w, w' := GatingLength(ws[0].bays), ws[0], ws[e];
      && w'.Sized() && w'.ctl.stage == Complete
      && w'.ctl.cycles == Cycles(g, 16, 5, l, n, e)
      && w'.ctl.newHidden == Share(ConnectedCount(w.bays, |w.bays|),
                                   GruRun.GruExpression(env.fns, p, ws[g + 20 + l].ctl.prevHidden,
                                                        VecSum(cys[g + 15].saOutputs)))
      && AllRested(w'.bays, p) && Flushed(w'.pipe)
  {
    GenUpdate(env, ws, cys, g, p);
    WiringCounts(ws[0].bays, ws[g + 21].bays, |ws[0].bays|);
    ApplyUpdate(env, ws, cys, g + 21, l, p);
  }
}
