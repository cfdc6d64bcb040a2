/** What the program answers, how long it waits for the hidden state, and what a refused matrix does. */
module VertexStages {
  import opened Arith
  import opened Vectors
  import opened Systolic
  import opened Feeder
  import opened Psau
  import opened Wavefront
  import opened Vertex
  import opened VertexRun
  import opened VertexGating
  import opened VertexWhole
  import Gru
  import GruRun

  // ---- a sweep over the vaults with a refused matrix

  /** A connected cell that is about to load a matrix of the wrong size. */
  predicate Refused(b: Bay) {
    b.Connected() && !b.cell.done && b.cell.phase.Load? && |Gru.WeightOf(b.cell.params, b.cell.phase.gate)| != 256
  }

  lemma ThrowsIffRefused(f: Gru.Squash, b: Bay)
    ensures Gated(f, b).1 <==> Refused(b)
    ensures Refused(b) ==> Gated(f, b).0 == b.(cell := b.cell.(drainCount := b.cell.drainCount + 1))
  {
  }

  /**
   * The first refused matrix ends the sweep: the vaults before it have had their clock, its own
   * cell has only counted the call, the vaults behind it are untouched, and the program throws
   * and stays in its stage.
   */
  lemma SweepStops(env: Env, w: World, saOutputs: Bundle, v: nat) returns (w': World)
    requires w.Sized() && w.ctl.stage == Gating && v < 16 && Refused(w.bays[v])
    requires forall u :: 0 <= u < v ==> !Refused(w.bays[u])
    ensures w' == Tick(env, w, saOutputs) && w'.Sized() && w'.ctl.stage == Gating
    ensures TickAnswer(env, w, saOutputs) == Gru.Threw
    ensures w'.bays[v] == w.bays[v].(cell := w.bays[v].cell.(drainCount := w.bays[v].cell.drainCount + 1))
    ensures forall u :: v < u < 16 ==> w'.bays[u] == w.bays[u]
    ensures forall u :: 0 <= u < v && w.bays[u].Connected() && !w.bays[u].cell.done ==>
      var after := Gru.Step(env.fns, VaultOf(w.bays[u])).vault;
      w'.bays[u] == Bay(after.cell, Some(after.grid), Some(after.lines))
    ensures forall u :: 0 <= u < v && (!w.bays[u].Connected() || w.bays[u].cell.done) ==> w'.bays[u] == w.bays[u]
  {
    w' := Tick(env, w, saOutputs);
    StoppedSweep(env.fns, w.bays, v);
    ThrowsIffRefused(env.fns, w.bays[v]);
    SweepTick(env, w, saOutputs);
  }

  lemma SweepTick(env: Env, w: World, saOutputs: Bundle)
    requires w.Sized() && w.ctl.stage == Gating
    ensures Tick(env, w, saOutputs).bays == GatedAll(env.fns, w.bays)
    ensures ThrowsBefore(env.fns, w.bays, 16) ==>
      Tick(env, w, saOutputs).ctl.stage == Gating && TickAnswer(env, w, saOutputs) == Gru.Threw
  {
  }

  lemma StoppedSweep(f: Gru.Squash, bays: seq<Bay>, v: nat)
    requires v < |bays| == 16 && Refused(bays[v]) && forall u :: 0 <= u < v ==> !Refused(bays[u])
    ensures ThrowsBefore(f, bays, 16)
    ensures forall u :: 0 <= u <= v ==> GatedAll(f, bays)[u] == Gated(f, bays[u]).0
    ensures forall u :: v < u < 16 ==> GatedAll(f, bays)[u] == bays[u]
  {
    forall u | 0 <= u < 16
      ensures Gated(f, bays[u]).1 <==> Refused(bays[u])
    {
      ThrowsIffRefused(f, bays[u]);
    }
    assert Gated(f, bays[v]).1;
    forall u: nat | u < 16
      ensures ThrowsBefore(f, bays, u) <==> v < u
    {
    }
  }

  // ---- the answers of a whole vertex

  /** The answer to cycle i of a run. */
  ghost function AnswerAt(env: Env, ws: seq<World>, cys: seq<Cycle>, i: nat): Gru.Answer
    requires i < |ws| && i < |cys| && ws[i].Sized()
  {
    TickAnswer(env, ws[i], cys[i].saOutputs)
  }

  lemma AnswerOfLink(env: Env, ws: seq<World>, cys: seq<Cycle>, i: nat)
    requires IsRun(env, ws, cys) && i < |cys|
    ensures ws[i].Sized()
    ensures ws[i].ctl.stage != Gating || !ThrowsBefore(env.fns, ws[i].bays, 16) ==>
      AnswerAt(env, ws, cys, i) == if ws[i + 1].ctl.stage == Complete then Gru.Finished else Gru.Busy
  {
    assert Cue(i);
    LinkAnswers(env, ws[i], ws[i + 1], cys[i]);
  }

  lemma LinkAnswers(env: Env, w: World, w': World, cy: Cycle)
    requires Link(env, w, w', cy)
    ensures w.ctl.stage != Gating || !ThrowsBefore(env.fns, w.bays, 16) ==>
      TickAnswer(env, w, cy.saOutputs) == if w'.ctl.stage == Complete then Gru.Finished else Gru.Busy
  {
    assert Open(0);
    DeliveredKeeps(Tick(env, w, cy.saOutputs), cy);
  }

  /** No cell throws on the way through a vertex. */
  lemma GatingNeverThrows(env: Env, ws: seq<World>, cys: seq<Cycle>, b: nat, i: nat, p: Gru.Params, h: Vec, m: Vec)
    requires IsRun(env, ws, cys) && b <= i <= |cys| && ws[b].Sized() && ws[b].ctl.stage == Gating
    requires AllPrepared(ws[b].bays, p, h, m) && i - b <= GatingLength(ws[b].bays)
    ensures ws[i].Sized() && !ThrowsBefore(env.fns, ws[i].bays, 16)
  {
    GatingRun(env, ws, cys, b, i - b, p, h, m);
    SweepIsRun(env.fns, ws[b].bays, p, h, m, i - b);
  }

  /**
   * A vertex answers false on every cycle but its last one, which answers true; afterwards the
   * program answers true and changes nothing.
   */
  lemma VertexAnswers(env: Env, ws: seq<World>, cys: seq<Cycle>, g: nat, l: nat, p: Gru.Params, e: nat)
    requires Course(env, ws, cys, g, l, p) && e == g + 21 + l + GatingLength(ws[0].bays) + 1
    ensures forall i {:trigger ws[i]} :: 0 <= i < e - 1 ==> ws[i].Sized() && AnswerAt(env, ws, cys, i) == Gru.Busy
    ensures ws[e - 1].Sized() && AnswerAt(env, ws, cys, e - 1) == Gru.Finished
    ensures ws[e].Sized() && forall xs: Bundle ::
      TickAnswer(env, ws[e], xs) == Gru.Finished && Tick(env, ws[e], xs) == ws[e]
  {
    VertexCompletes(env, ws, cys, g, l, p, e);
    BeforeWriteback(env, ws, cys, g, l, p, e);
    forall i | 0 <= i < e
      ensures ws[i].Sized() && AnswerAt(env, ws, cys, i) == if i == e - 1 then Gru.Finished else Gru.Busy
    {
      AnswerInVertex(env, ws, cys, g, l, p, e, i);
    }
  }

  lemma BeforeWriteback(env: Env, ws: seq<World>, cys: seq<Cycle>, g: nat, l: nat, p: Gru.Params, e: nat)
    requires Course(env, ws, cys, g, l, p) && e == g + 21 + l + GatingLength(ws[0].bays) + 1
    ensures ws[e - 1].ctl.stage == WritingBack
  {
    var h, m := GatingBegins(env, ws, cys, g, l, p);
    GatingRun(env, ws, cys, g + 21 + l, GatingLength(ws[0].bays), p, h, m);
  }

  /** What the gated update starts from. */
  lemma GatingBegins(env: Env, ws: seq<World>, cys: seq<Cycle>, g: nat, l: nat, p: Gru.Params) returns (h: Vec, m: Vec)
    requires Course(env, ws, cys, g, l, p)
    ensures ws[g + 21 + l].Sized() && AllPrepared(ws[g + 21 + l].bays, p, h, m)
    ensures GatingLength(ws[g + 21 + l].bays) == GatingLength(ws[0].bays)
  {
    var a, b := g + 21, g + 21 + l;
    h, m := ws[b - 1].ctl.prevHidden, ws[a].ctl.message;
    GenUpdate(env, ws, cys, g, p);
    LoadRun(env, ws, cys, a, l);
    StartPrepares(ws[a].bays, p, h, m);
    WiringCounts(ws[0].bays, ws[a].bays, |ws[0].bays|);
    WiringCounts(ws[a].bays, ws[b].bays, |ws[a].bays|);
  }

  lemma AnswerInVertex(env: Env, ws: seq<World>, cys: seq<Cycle>, g: nat, l: nat, p: Gru.Params, e: nat, i: nat)
    requires Course(env, ws, cys, g, l, p) && e == g + 21 + l + GatingLength(ws[0].bays) + 1 && i < e
    requires ws[e - 1].ctl.stage == WritingBack && ws[e].ctl.stage == Complete
    ensures ws[i].Sized() && AnswerAt(env, ws, cys, i) == if i == e - 1 then Gru.Finished else Gru.Busy
  {
    AnswerOfLink(env, ws, cys, i);
    NeverThrows(env, ws, cys, g, l, p, e, i);
    if i < e - 1 {
      NotYetComplete(env, ws, cys, i + 1, e - 1);
    }
  }

  lemma NotYetComplete(env: Env, ws: seq<World>, cys: seq<Cycle>, i: nat, j: nat)
    requires IsRun(env, ws, cys) && i <= j < |ws| && CountersAgree(ws[0].ctl) && ws[j].ctl.stage == WritingBack
    ensures ws[i].ctl.stage != Complete
  {
    StagesForward(env, ws, cys, i, j);
  }

  lemma NeverThrows(env: Env, ws: seq<World>, cys: seq<Cycle>, g: nat, l: nat, p: Gru.Params, e: nat, i: nat)
    requires Course(env, ws, cys, g, l, p) && e == g + 21 + l + GatingLength(ws[0].bays) + 1 && i < e
    requires ws[e - 1].ctl.stage == WritingBack && ws[i].Sized()
    ensures ws[i].ctl.stage != Gating || !ThrowsBefore(env.fns, ws[i].bays, 16)
  {
    var b := g + 21 + l;
    if i < b {
      StagesForward(env, ws, cys, i, b - 1);
    } else if i < e - 1 {
      var h, m := GatingBegins(env, ws, cys, g, l, p);
      GatingNeverThrows(env, ws, cys, b, i, p, h, m);
    }
  }

  /** Before the first vertex the program answers false and changes nothing. */
  lemma InactiveAnswers(env: Env, w: World, xs: Bundle)
    requires w.Sized() && w.ctl.stage == Inactive
    ensures TickAnswer(env, w, xs) == Gru.Busy && Tick(env, w, xs) == w
  {
  }

  // ---- the wait for the hidden state

  lemma WaitStep(env: Env, w: World, w': World, cy: Cycle)
    requires Link(env, w, w', cy) && w.ctl.stage == LoadingH
    ensures w'.ctl.stage == if w.ctl.hLoadDone then Gating else LoadingH
    ensures w'.ctl.hLoadDone <==> w.ctl.hLoadDone || cy.hidden.Some?
    ensures w'.ctl.prevHidden == if cy.hidden.Some? then cy.hidden.value else w.ctl.prevHidden
    ensures w'.ctl.message == w.ctl.message
    ensures w'.bays == if w.ctl.hLoadDone then StartedAll(w.bays, w.ctl.prevHidden, w.ctl.message) else w.bays
  {
    assert Open(0);
  }

  /** While nothing arrives the program waits. */
  lemma {:induction false} Waits(env: Env, ws: seq<World>, cys: seq<Cycle>, a: nat, i: nat)
    requires IsRun(env, ws, cys) && a <= i <= |cys| && ws[a].ctl.stage == LoadingH && !ws[a].ctl.hLoadDone
    requires forall j :: a <= j < i ==> cys[j].hidden.None?
    ensures ws[i].ctl.stage == LoadingH && !ws[i].ctl.hLoadDone
    ensures ws[i].bays == ws[a].bays && ws[i].ctl.message == ws[a].ctl.message
    decreases i
  {
    if i == a {
    } else {
      Waits(env, ws, cys, a, i - 1);
      assert Cue(i - 1);
      WaitStep(env, ws[i - 1], ws[i], cys[i - 1]);
    }
  }

  /**
   * The wait ends with the cycle after the one in which the hidden state arrives: the program is
   * in the load stage until then, and every cell is started on the vector that arrived.
   */
  lemma LoadEnds(env: Env, ws: seq<World>, cys: seq<Cycle>, a: nat, i: nat)
    requires IsRun(env, ws, cys) && a <= i && i + 2 <= |cys|
    requires ws[a].ctl.stage == LoadingH && !ws[a].ctl.hLoadDone
    requires (forall j :: a <= j < i ==> cys[j].hidden.None?) && cys[i].hidden.Some?
    ensures forall j :: a <= j <= i + 1 ==> ws[j].ctl.stage == LoadingH
    ensures ws[i + 1].ctl.prevHidden == cys[i].hidden.value && ws[i + 2].ctl.stage == Gating
    ensures ws[i + 2].bays == StartedAll(ws[a].bays, cys[i].hidden.value, ws[a].ctl.message)
  {
    forall j | a <= j <= i
      ensures ws[j].ctl.stage == LoadingH
    {
      Waits(env, ws, cys, a, j);
    }
    Waits(env, ws, cys, a, i);
    Arrives(env, ws, cys, i);
  }

  lemma Arrives(env: Env, ws: seq<World>, cys: seq<Cycle>, i: nat)
    requires IsRun(env, ws, cys) && i + 2 <= |cys|
    requires ws[i].ctl.stage == LoadingH && !ws[i].ctl.hLoadDone && cys[i].hidden.Some?
    ensures ws[i + 1].ctl.stage == LoadingH && ws[i + 1].ctl.prevHidden == cys[i].hidden.value
    ensures ws[i + 2].ctl.stage == Gating
    ensures ws[i + 2].bays == StartedAll(ws[i].bays, cys[i].hidden.value, ws[i].ctl.message)
  {
    assert Cue(i) && Cue(i + 1);
    WaitStep(env, ws[i], ws[i + 1], cys[i]);
    WaitStep(env, ws[i + 1], ws[i + 2], cys[i + 1]);
  }

  /** The drain that hands over to the load stage forgets any hidden state that came before. */
  lemma LoadBegins(env: Env, w: World, w': World, cy: Cycle)
    requires Link(env, w, w', cy) && w.ctl.stage == Draining && w'.ctl.stage == LoadingH
    ensures w'.ctl.hLoadDone <==> cy.hidden.Some?
  {
    assert Open(0);
  }

  // ---- the compute stage

  /** A connected vault that was fed v while its array held w: after k cycles the wavefront stands at k. */
  lemma {:induction false} ComputeGrid(b: Bay, w: Matrix, v: Vec, n: nat, k: nat)
    requires b.grid == Some(Fresh(w)) && b.lines == Some(Pushed(Empty(), v)) && k <= n
    ensures PumpedTimes(b, k).grid == Some(Flooded(w, v, n, k))
    ensures PumpedTimes(b, k).lines == Some(Drained(Pushed(Empty(), v), k))
  {
    if k == 0 {
    } else {
      ComputeGrid(b, w, v, n, k - 1);
      FloodStep(w, v, n, k);
    }
  }

  lemma FloodStep(w: Matrix, v: Vec, n: nat, k: nat)
    requires 0 < k <= n
    ensures Flooded(w, v, n, k) == Shift(Flooded(w, v, n, k - 1), Heads(Drained(Pushed(Empty(), v), k - 1)), Zero())
  {
    var before, after := LastTick(w, Wave(v, n), Zeros(n), k);
    assert Wave(v, n)[k - 1] == Heads(Drained(Pushed(Empty(), v), k - 1));
    assert Zeros(n)[k - 1] == Zero();
  }

  /** In its sixteen cycles the compute stage gets nothing out of such an array. */
  lemma ComputeEmitsNothing(b: Bay, w: Matrix, v: Vec, k: nat)
    requires b.grid == Some(Fresh(w)) && b.lines == Some(Pushed(Empty(), v)) && k < 16
    ensures PumpedTimes(b, k).grid.Some? && forall c :: 0 <= c < 16 ==> Bottom(PumpedTimes(b, k).grid.value)[c] == 0.0
  {
    ComputeGrid(b, w, v, 16, k);
    forall c | 0 <= c < 16
      ensures Bottom(PumpedTimes(b, k).grid.value)[c] == 0.0
    {
      assert Bottom(PumpedTimes(b, k).grid.value) == Emitted(w, v, 16, k);
      WavefrontAt(w, v, 16, k, c);
    }
  }

  // ---- the numbers in the message and the result

  /** The share of a vector: every lane times the number of connected vaults, over sixteen. */
  lemma ShareIsFraction(count: nat, v: Vec, d: nat)
    requires d < 16
    ensures Share(count, v)[d] == count as real * v[d] / 16.0
  {
    RepeatedIsProduct(count, v[d] / 16.0);
    assert count as real * (v[d] / 16.0) == count as real * v[d] / 16.0;
  }

  /** The sum of sixteen vectors, written out for one lane. */
  lemma SumTerms(vs: Bundle, d: nat)
    requires d < 16
    ensures VecSum(vs)[d]
         == vs[0][d] + vs[1][d] + vs[2][d] + vs[3][d] + vs[4][d] + vs[5][d] + vs[6][d] + vs[7][d]
            + vs[8][d] + vs[9][d] + vs[10][d] + vs[11][d] + vs[12][d] + vs[13][d] + vs[14][d] + vs[15][d]
  {
    FourSums(vs, d, 0);
    FourSums(vs, d, 4);
    FourSums(vs, d, 8);
    FourSums(vs, d, 12);
  }

  lemma FourSums(vs: Bundle, d: nat, n: nat)
    requires d < 16 && n + 4 <= 16
    ensures LaneSum(vs, d, n + 4) == LaneSum(vs, d, n) + vs[n][d] + vs[n + 1][d] + vs[n + 2][d] + vs[n + 3][d]
  {
    assert LaneSum(vs, d, n + 2) == LaneSum(vs, d, n + 1) + vs[n + 1][d];
    assert LaneSum(vs, d, n + 3) == LaneSum(vs, d, n + 2) + vs[n + 2][d];
  }
}
