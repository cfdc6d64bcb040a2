/** Whole evaluations of the GRU cell: 137 calls, in closed form. */
module GruRun {
  import opened Vectors
  import opened Systolic
  import opened Feeder
  import opened Wavefront
  import opened Gru

  /** The vault after n calls of Tick. */
  ghost function Run(f: Squash, s: Vault, n: nat): Vault {
    if n == 0 then s else Step(f, Run(f, s, n - 1)).vault
  }

  /** What call number k + 1 reports. */
  ghost function AnswerAt(f: Squash, s: Vault, k: nat): Answer {
    Step(f, Run(f, s, k)).answer
  }

  /** The closed form of one evaluation, every product being the tick-31 readout. */
  function GruExpression(f: Squash, p: Params, h: Vec, m: Vec): Vec
    requires Square(p)
  {
    var r := VecMap(f.sigmoid, VecAdd(VecAdd(Readout(p.wR, h), p.bR), m));
    var z := VecMap(f.sigmoid, VecAdd(VecAdd(Readout(p.wZ, h), p.bZ), m));
    var gated := Hadamard(r, VecAdd(Readout(p.wHn, h), p.bHn));
    var n := VecMap(f.tanh, VecAdd(VecAdd(Readout(p.wIn, m), p.bIn), gated));
    Blend(z, h, n)
  }

  /** All four weight matrices have 256 entries. */
  predicate Square(p: Params) {
    |p.wR| == 256 && |p.wZ| == 256 && |p.wIn| == 256 && |p.wHn| == 256
  }

  lemma {:induction false} RunAdds(f: Squash, s: Vault, m: nat, n: nat)
    ensures Run(f, s, m + n) == Run(f, Run(f, s, m), n)
  {
    if n == 0 {
    } else {
      RunAdds(f, s, m, n - 1);
    }
  }

  lemma AnswerAdds(f: Squash, s: Vault, m: nat, n: nat)
    ensures AnswerAt(f, s, m + n) == AnswerAt(f, Run(f, s, m), n)
  {
    RunAdds(f, s, m, n);
  }

  /** A cell about to drain gate g, over an array holding w and a feeder holding v alone. */
  ghost predicate Draining(s: Vault, g: Gate, w: Matrix, v: Vec) {
    && !s.cell.done && s.cell.phase == Drain(g) && s.cell.drainCount == 0
    && s.grid == Fresh(w) && s.lines == Pushed(Empty(), v)
  }

  /** The vault after k of the 32 drain ticks, before the gate closes. */
  ghost function MidDrain(s: Vault, w: Matrix, v: Vec, k: nat): Vault
    requires k <= 32
  {
    Vault(s.cell.(drainCount := k, bottom := if k == 0 then s.cell.bottom else Emitted(w, v, 32, k - 1)),
          Flooded(w, v, 32, k), Drained(Pushed(Empty(), v), k))
  }

  lemma WaveStep(w: Matrix, v: Vec, k: nat)
    requires k < 32
    ensures Flooded(w, v, 32, k + 1)
         == Shift(Flooded(w, v, 32, k), Heads(Drained(Pushed(Empty(), v), k)), Zero())
  {
  }

  lemma {:induction false} DrainRun(f: Squash, s: Vault, g: Gate, w: Matrix, v: Vec, k: nat)
    requires Draining(s, g, w, v) && k <= 31
    ensures Run(f, s, k) == MidDrain(s, w, v, k)
    ensures AnswerAt(f, s, k) == Busy
  {
    if k == 0 {
    } else {
      DrainRun(f, s, g, w, v, k - 1);
      WaveStep(w, v, k - 1);
    }
  }

  /** The cell after gate g has closed over its tick-31 readout. */
  ghost function GateDone(f: Squash, c: Cell, g: Gate): Cell
    requires |WeightOf(c.params, g)| == 256
  {
    GateClosed(f, c.(bottom := Readout(WeightOf(c.params, g), Operand(c, g))), g)
  }

  lemma DrainCloses(f: Squash, s: Vault, g: Gate, w: Matrix, v: Vec, n: nat)
    requires Draining(s, g, w, v) && n == GEMM_LATENCY
    ensures Run(f, s, n) == Vault(GateClosed(f, s.cell.(bottom := Readout(w, v)), g), Flooded(w, v, 32, 32), Empty())
  {
    DrainRun(f, s, g, w, v, n - 1);
    LastDrain(f, s, Run(f, s, n - 1), g, w, v, n - 1);
  }

  /** The drain tick that closes the gate. */
  lemma LastDrain(f: Squash, s: Vault, t: Vault, g: Gate, w: Matrix, v: Vec, k: nat)
    requires Draining(s, g, w, v) && k == 31 && t == MidDrain(s, w, v, k)
    ensures Step(f, t).vault
         == Vault(GateClosed(f, s.cell.(bottom := Readout(w, v)), g), Flooded(w, v, 32, 32), Empty())
  {
    var bottom, grid, lines := LastPop(w, v, t.grid, t.lines, k);
    ClosingTurn(f, s, t, g, bottom, grid, lines, k);
  }

  lemma LastPop(w: Matrix, v: Vec, grid: Grid, lines: Lines, k: nat) returns (bottom: Vec, grid': Grid, lines': Lines)
    requires k == 31 && grid == Flooded(w, v, 32, k) && lines == Drained(Pushed(Empty(), v), k)
    ensures bottom == Bottom(grid) && grid' == Shift(grid, Heads(lines), Zero()) && lines' == Popped(lines)
    ensures bottom == Readout(w, v) && grid' == Flooded(w, v, 32, 32) && lines' == Empty()
  {
    bottom, grid', lines' := Bottom(grid), Shift(grid, Heads(lines), Zero()), Popped(lines);
    WaveStep(w, v, k);
    SingleReadout(w, v, 32);
    EmptyAfterSixteen(v, 32);
  }

  lemma ClosingTurn(f: Squash, s: Vault, t: Vault, g: Gate, bottom: Vec, grid: Grid, lines: Lines, k: nat)
    requires !s.cell.done && s.cell.phase == Drain(g) && k == 31
    requires t.cell == s.cell.(drainCount := k, bottom := t.cell.bottom)
    requires bottom == Bottom(t.grid) && grid == Shift(t.grid, Heads(t.lines), Zero()) && lines == Popped(t.lines)
    ensures Step(f, t).vault == Vault(GateClosed(f, s.cell.(bottom := bottom), g), grid, lines)
  {
  }

  /** The vault after the load and the settle tick of gate g. */
  ghost function Settled(s: Vault, g: Gate): Vault
    requires |WeightOf(s.cell.params, g)| == 256
  {
    Vault(s.cell.(drainCount := 0, phase := Drain(g)),
          Fresh(WeightOf(s.cell.params, g)), Pushed(s.lines, Operand(s.cell, g)))
  }

  ghost predicate Loading(s: Vault, g: Gate) {
    !s.cell.done && s.cell.phase == Load(g) && s.lines == Empty()
  }

  lemma LoadRun(f: Squash, s: Vault, g: Gate)
    requires Loading(s, g) && |WeightOf(s.cell.params, g)| == 256
    ensures AnswerAt(f, s, 0) == Busy && AnswerAt(f, s, 1) == Busy
    ensures Run(f, s, 1).cell.phase == Settle(g)
    ensures Run(f, s, 2) == Settled(s, g)
  {
    assert Run(f, s, 0) == s;
    assert Run(f, s, 1) == Step(f, s).vault;
    assert Run(f, s, 2) == Step(f, Run(f, s, 1)).vault;
  }

  /** After the load and the settle tick the vault is about to drain. */
  lemma LoadedToDrain(f: Squash, s: Vault, g: Gate) returns (s': Vault, n: nat)
    requires Loading(s, g) && |WeightOf(s.cell.params, g)| == 256
    ensures n == 2 && s' == Run(f, s, n) && Draining(s', g, WeightOf(s.cell.params, g), Operand(s.cell, g))
    ensures s'.cell == s.cell.(drainCount := 0, phase := Drain(g))
  {
    LoadRun(f, s, g);
    s', n := Settled(s, g), 2;
  }

  /** Calls after the first n are calls of the vault reached by then. */
  lemma Later(f: Squash, s: Vault, s': Vault, n: nat, k: nat)
    requires n <= k && s' == Run(f, s, n)
    ensures Run(f, s, k) == Run(f, s', k - n) && AnswerAt(f, s, k) == AnswerAt(f, s', k - n)
  {
    RunAdds(f, s, n, k - n);
  }

  /** What a gate leaves behind does not depend on the phase and count it starts from. */
  lemma SameClose(f: Squash, c: Cell, c': Cell, g: Gate)
    requires c' == c.(drainCount := 0, phase := Drain(g)) && |WeightOf(c.params, g)| == 256
    ensures GateClosed(f, c'.(bottom := Readout(WeightOf(c.params, g), Operand(c, g))), g) == GateDone(f, c, g)
  {
  }

  /** One gate: after 34 calls it has closed, and the feeder is empty again. */
  lemma GateEnds(f: Squash, s: Vault, g: Gate, n: nat)
    requires Loading(s, g) && |WeightOf(s.cell.params, g)| == 256 && n == 34
    ensures Run(f, s, n).cell == GateDone(f, s.cell, g) && Run(f, s, n).lines == Empty()
  {
    var s', m := LoadedToDrain(f, s, g);
    Later(f, s, s', m, n);
    DrainCloses(f, s', g, WeightOf(s.cell.params, g), Operand(s.cell, g), n - m);
    SameClose(f, s.cell, s'.cell, g);
  }

  /** The drain ticks of a gate. */
  lemma DrainCalls(f: Squash, s: Vault, g: Gate, k: nat)
    requires Loading(s, g) && |WeightOf(s.cell.params, g)| == 256 && 2 <= k < 34
    ensures AnswerAt(f, s, k) == Busy && !Run(f, s, k).cell.phase.Load?
  {
    var s', n := LoadedToDrain(f, s, g);
    Later(f, s, s', n, k);
    DrainBusy(f, s', g, WeightOf(s.cell.params, g), Operand(s.cell, g), k - n);
  }

  /** All 34 calls of a gate are busy, and only the first one loads. */
  lemma GateBusy(f: Squash, s: Vault, g: Gate, k: nat)
    requires Loading(s, g) && |WeightOf(s.cell.params, g)| == 256 && k < 34
    ensures AnswerAt(f, s, k) == Busy
    ensures Run(f, s, k).cell.phase.Load? ==> k == 0
  {
    if k < 2 {
      LoadRun(f, s, g);
    } else {
      DrainCalls(f, s, g, k);
    }
  }

  lemma DrainBusy(f: Squash, s: Vault, g: Gate, w: Matrix, v: Vec, k: nat)
    requires Draining(s, g, w, v) && k <= 31
    ensures AnswerAt(f, s, k) == Busy && !Run(f, s, k).cell.phase.Load?
  {
    DrainRun(f, s, g, w, v, k);
  }

  /** The gates in the order in which the cell runs them. */
  function GateNo(i: nat): Gate {
    if i == 0 then Reset else if i == 1 then Update else if i == 2 then NewH else NewX
  }

  ghost predicate SquareBefore(p: Params, i: nat) {
    forall j :: 0 <= j < i ==> |WeightOf(p, GateNo(j))| == 256
  }

  /** The cell after its first i gates. */
  ghost function AfterGates(f: Squash, c: Cell, i: nat): (c': Cell)
    requires i <= 4 && SquareBefore(c.params, i)
    ensures c'.params == c.params && c'.hPrev == c.hPrev && c'.msg == c.msg && c'.done == c.done
    ensures 0 < i ==> c'.drainCount == 0 && c'.phase == if i < 4 then Load(GateNo(i)) else Apply
  {
    if i == 0 then c else GateDone(f, AfterGates(f, c, i - 1), GateNo(i - 1))
  }

  /** A cell just started, over any array contents and an empty feeder. */
  ghost predicate Ready(s: Vault) {
    Loading(s, Reset) && s.cell.drainCount == 0
  }

  /** After n calls the first i gates have closed, and the feeder is empty. */
  ghost predicate Closed(f: Squash, s: Vault, i: nat, n: nat)
    requires i <= 4 && SquareBefore(s.cell.params, i)
  {
    Run(f, s, n).cell == AfterGates(f, s.cell, i) && Run(f, s, n).lines == Empty()
  }

  /** The cell before gate i, about to load it, and the cell after it. */
  lemma GateCells(f: Squash, c: Cell, i: nat) returns (before: Cell, after: Cell)
    requires i < 4 && SquareBefore(c.params, i + 1) && !c.done && c.phase == Load(Reset)
    ensures before == AfterGates(f, c, i) && !before.done && before.phase == Load(GateNo(i))
    ensures |WeightOf(before.params, GateNo(i))| == 256
    ensures after == AfterGates(f, c, i + 1) == GateDone(f, before, GateNo(i))
  {
    before, after := AfterGates(f, c, i), AfterGates(f, c, i + 1);
    assert |WeightOf(c.params, GateNo(i))| == 256;
  }

  lemma NoneClosed(f: Squash, s: Vault)
    requires Ready(s)
    ensures Closed(f, s, 0, 0)
  {
  }

  lemma OneMoreClosed(f: Squash, s: Vault, i: nat, n0: nat, n: nat)
    requires Ready(s) && 0 < i <= 4 && SquareBefore(s.cell.params, i) && n == n0 + 34 && Closed(f, s, i - 1, n0)
    ensures Closed(f, s, i, n)
  {
    var c, c' := GateCells(f, s.cell, i - 1);
    Later(f, s, Run(f, s, n0), n0, n);
    GateEnds(f, Run(f, s, n0), GateNo(i - 1), n - n0);
  }

  lemma {:induction false} GatesClosed(f: Squash, s: Vault, i: nat, n: nat)
    requires Ready(s) && i <= 4 && SquareBefore(s.cell.params, i) && n == 34 * i
    ensures Closed(f, s, i, n)
  {
    if i == 0 {
      NoneClosed(f, s);
    } else {
      GatesClosed(f, s, i - 1, n - 34);
      OneMoreClosed(f, s, i, n - 34, n);
    }
  }

  /** After 34 calls per gate the cell has closed its first i gates, and the feeder is empty. */
  lemma GatesRun(f: Squash, s: Vault, i: nat)
    requires Ready(s) && i <= 4 && SquareBefore(s.cell.params, i)
    ensures Run(f, s, 34 * i).cell == AfterGates(f, s.cell, i)
    ensures Run(f, s, 34 * i).lines == Empty()
  {
    GatesClosed(f, s, i, 34 * i);
  }

  /** Gate i starts after 34 * i calls, with the parameters unchanged. */
  lemma GateStart(f: Squash, s: Vault, i: nat)
    requires Ready(s) && i < 4 && SquareBefore(s.cell.params, i)
    ensures Loading(Run(f, s, 34 * i), GateNo(i)) && Run(f, s, 34 * i).cell.params == s.cell.params
  {
    GatesRun(f, s, i);
  }

  /** The 34 calls of a gate that starts after n calls. */
  lemma GateWindow(f: Squash, s: Vault, n: nat, g: Gate, k: nat)
    requires Loading(Run(f, s, n), g) && |WeightOf(Run(f, s, n).cell.params, g)| == 256 && n <= k < n + 34
    ensures AnswerAt(f, s, k) == Busy
    ensures Run(f, s, k).cell.phase.Load? ==> Run(f, s, k).lines == Empty()
  {
    Later(f, s, Run(f, s, n), n, k);
    GateBusy(f, Run(f, s, n), g, k - n);
  }

  /** No call before number 34 * i + 1 finishes or fails, and every load finds the feeder empty. */
  lemma GatesBusy(f: Squash, s: Vault, i: nat, k: nat)
    requires Ready(s) && i <= 4 && SquareBefore(s.cell.params, i) && k < 34 * i
    ensures AnswerAt(f, s, k) == Busy
    ensures Run(f, s, k).cell.phase.Load? ==> Run(f, s, k).lines == Empty()
  {
    var j := k / 34;
    assert SquareBefore(s.cell.params, j);
    GateStart(f, s, j);
    GateWindow(f, s, 34 * j, GateNo(j), k);
  }

  /** The four gate registers, read off in closed form. */
  lemma GatesClosedForm(f: Squash, c: Cell)
    requires Square(c.params)
    ensures SquareBefore(c.params, 4)
    ensures var c' := AfterGates(f, c, 4);
      Blend(c'.updateGate, c'.hPrev, c'.newGate) == GruExpression(f, c.params, c.hPrev, c.msg)
  {
    var c1 := GateDone(f, c, Reset);
    var c2 := GateDone(f, c1, Update);
    var c3 := GateDone(f, c2, NewH);
    var c4 := GateDone(f, c3, NewX);
    assert AfterGates(f, c, 4) == c4 by {
      assert AfterGates(f, c, 0) == c;
      assert AfterGates(f, c, 1) == c1;
      assert AfterGates(f, c, 2) == c2;
      assert AfterGates(f, c, 3) == c3;
    }
  }

  /** Once done, a cell answers true forever and changes nothing. */
  lemma {:induction false} StaysDone(f: Squash, s: Vault, n: nat)
    requires s.cell.done
    ensures Run(f, s, n) == s && AnswerAt(f, s, n) == Finished
  {
    if n == 0 {
    } else {
      StaysDone(f, s, n - 1);
    }
  }

  /**
   * End to end: the 137th call is the first to report completion, every load before it finds the
   * feeder empty, the result is the closed-form expression, and later calls change nothing.
   */
  lemma EndToEnd(f: Squash, s: Vault)
    requires Ready(s) && Square(s.cell.params)
    ensures forall k :: 0 <= k < 136 ==> AnswerAt(f, s, k) == Busy
    ensures forall k :: 0 <= k < 136 && Run(f, s, k).cell.phase.Load? ==> Run(f, s, k).lines == Empty()
    ensures AnswerAt(f, s, 136) == Finished
    ensures Run(f, s, 137).cell.done && Run(f, s, 137).lines == Empty()
    ensures Run(f, s, 137).cell.hNew == GruExpression(f, s.cell.params, s.cell.hPrev, s.cell.msg)
    ensures forall n :: 137 <= n ==> Run(f, s, n) == Run(f, s, 137)
  {
    forall k | 0 <= k < 136
      ensures AnswerAt(f, s, k) == Busy && (Run(f, s, k).cell.phase.Load? ==> Run(f, s, k).lines == Empty())
    {
      GatesBusy(f, s, 4, k);
    }
    LastCall(f, s);
    forall n | 137 <= n
      ensures Run(f, s, n) == Run(f, s, 137)
    {
      RunAdds(f, s, 137, n - 137);
      StaysDone(f, Run(f, s, 137), n - 137);
    }
  }

  /** The 137th call turns the four closed gates into the new hidden state. */
  lemma LastCall(f: Squash, s: Vault)
    requires Ready(s) && Square(s.cell.params)
    ensures AnswerAt(f, s, 136) == Finished
    ensures Run(f, s, 137).cell.done && Run(f, s, 137).lines == Empty()
    ensures Run(f, s, 137).cell.hNew == GruExpression(f, s.cell.params, s.cell.hPrev, s.cell.msg)
  {
    GatesClosedForm(f, s.cell);
    GatesRun(f, s, 4);
    ApplyCall(f, Run(f, s, 136));
    assert Run(f, s, 137) == Step(f, Run(f, s, 136)).vault;
  }

  lemma ApplyCall(f: Squash, s: Vault)
    requires !s.cell.done && s.cell.phase == Apply
    ensures Step(f, s).answer == Finished && Step(f, s).vault.cell.done && Step(f, s).vault.lines == s.lines
    ensures Step(f, s).vault.cell.hNew == Blend(s.cell.updateGate, s.cell.hPrev, s.cell.newGate)
  {
  }

  /** A cell that was never started never finishes; it only counts its calls. */
  lemma {:induction false} NeverStarted(f: Squash, s: Vault, n: nat)
    requires !s.cell.done && s.cell.phase == Idle
    ensures Run(f, s, n) == s.(cell := s.cell.(drainCount := s.cell.drainCount + n))
    ensures AnswerAt(f, s, n) == Busy
  {
    if n == 0 {
    } else {
      NeverStarted(f, s, n - 1);
    }
  }

  /** A cell that cannot load its gate fails on every call and never leaves that load. */
  lemma {:induction false} StuckAtLoad(f: Squash, s: Vault, g: Gate, n: nat)
    requires !s.cell.done && s.cell.phase == Load(g) && |WeightOf(s.cell.params, g)| != 256
    ensures Run(f, s, n) == s.(cell := s.cell.(drainCount := s.cell.drainCount + n))
    ensures AnswerAt(f, s, n) == Threw
  {
    if n == 0 {
    } else {
      StuckAtLoad(f, s, g, n - 1);
    }
  }

  /** An evaluation ever completes if and only if all four matrices have 256 entries. */
  lemma CompletesIffSquare(f: Squash, s: Vault)
    requires Ready(s)
    ensures (exists k :: AnswerAt(f, s, k) == Finished) <==> Square(s.cell.params)
  {
    if Square(s.cell.params) {
      EndToEnd(f, s);
    } else {
      var i := FirstBad(s.cell.params);
      forall k: nat
        ensures AnswerAt(f, s, k) != Finished
      {
        NeverFinishes(f, s, i, k);
      }
    }
  }

  lemma NeverFinishes(f: Squash, s: Vault, i: nat, k: nat)
    requires Ready(s) && i < 4 && SquareBefore(s.cell.params, i) && |WeightOf(s.cell.params, GateNo(i))| != 256
    ensures AnswerAt(f, s, k) != Finished
  {
    if k < 34 * i {
      GatesBusy(f, s, i, k);
    } else {
      GateStart(f, s, i);
      StuckLater(f, s, Run(f, s, 34 * i), GateNo(i), 34 * i, k - 34 * i);
    }
  }

  lemma StuckLater(f: Squash, s: Vault, s': Vault, g: Gate, n: nat, m: nat)
    requires s' == Run(f, s, n)
    requires !s'.cell.done && s'.cell.phase == Load(g) && |WeightOf(s'.cell.params, g)| != 256
    ensures AnswerAt(f, s, n + m) == Threw
  {
    AnswerAdds(f, s, n, m);
    AlwaysThrows(f, s', g, m);
  }

  lemma AlwaysThrows(f: Squash, s: Vault, g: Gate, n: nat)
    requires !s.cell.done && s.cell.phase == Load(g) && |WeightOf(s.cell.params, g)| != 256
    ensures AnswerAt(f, s, n) == Threw
  {
    StuckAtLoad(f, s, g, n);
  }

  /** The first gate, in running order, whose matrix has the wrong size. */
  lemma FirstBad(p: Params) returns (i: nat)
    requires !Square(p)
    ensures i < 4 && SquareBefore(p, i) && |WeightOf(p, GateNo(i))| != 256
  {
    i := if |p.wR| != 256 then 0 else if |p.wZ| != 256 then 1 else if |p.wHn| != 256 then 2 else 3;
  }

  /**
   * What the tick-31 readout costs: the first fifteen lanes of the result do not depend on any
   * weight at all.
   */
  lemma WeightsReachOnlyLane15(f: Squash, p: Params, p': Params, h: Vec, m: Vec, d: nat)
    requires Square(p) && Square(p') && d < 15
    requires p.bR == p'.bR && p.bZ == p'.bZ && p.bIn == p'.bIn && p.bHn == p'.bHn
    ensures GruExpression(f, p, h, m)[d] == GruExpression(f, p', h, m)[d]
  {
    var e, e' := VecAdd(VecAdd(Readout(p.wR, h), p.bR), m), VecAdd(VecAdd(Readout(p'.wR, h), p.bR), m);
    var u, u' := VecAdd(VecAdd(Readout(p.wZ, h), p.bZ), m), VecAdd(VecAdd(Readout(p'.wZ, h), p.bZ), m);
    var g, g' := VecAdd(Readout(p.wHn, h), p.bHn), VecAdd(Readout(p'.wHn, h), p.bHn);
    var x, x' := VecAdd(Readout(p.wIn, m), p.bIn), VecAdd(Readout(p'.wIn, m), p.bIn);
    assert e[d] == e'[d] && u[d] == u'[d] && g[d] == g'[d] && x[d] == x'[d];
    var k, k' := Hadamard(VecMap(f.sigmoid, e), g), Hadamard(VecMap(f.sigmoid, e'), g');
    HadamardLane(VecMap(f.sigmoid, e), g, VecMap(f.sigmoid, e'), g', d);
    BlendLane(VecMap(f.sigmoid, u), h, VecMap(f.tanh, VecAdd(x, k)), VecMap(f.sigmoid, u'),
              VecMap(f.tanh, VecAdd(x', k')), d);
  }

  lemma HadamardLane(a: Vec, b: Vec, a': Vec, b': Vec, d: nat)
    requires d < 16 && a[d] == a'[d] && b[d] == b'[d]
    ensures Hadamard(a, b)[d] == Hadamard(a', b')[d]
  {
  }

  lemma BlendLane(z: Vec, h: Vec, n: Vec, z': Vec, n': Vec, d: nat)
    requires d < 16 && z[d] == z'[d] && n[d] == n'[d]
    ensures Blend(z, h, n)[d] == Blend(z', h, n')[d]
  {
    HadamardLane(ScalarSub(1.0, z), h, ScalarSub(1.0, z'), h, d);
    HadamardLane(z, n, z', n', d);
  }

  /** One column of the identity picks one lane. */
  lemma {:induction false} IdentityColumn(v: Vec, c: nat, n: nat)
    requires c < 16 && n <= 16
    ensures ColumnDot(Identity(), v, c, n) == if c < n then v[c] else 0.0
  {
    if n == 0 {
    } else {
      IdentityColumn(v, c, n - 1);
      IdentityEntry(n - 1, c);
    }
  }

  lemma IdentityEntry(r: nat, c: nat)
    requires r < 16 && c < 16
    ensures Identity()[r * 16 + c] == if r == c then 1.0 else 0.0
  {
  }

  /**
   * The weights that a cell is constructed with show the gap: the product is the vector itself,
   * but the readout of lane 0 is zero.
   */
  lemma IdentityIsMissed(v: Vec)
    ensures VecMat(Identity(), v) == v && Emitted(Identity(), v, 32, 31)[0] == 0.0
    ensures v[0] != 0.0 ==> Emitted(Identity(), v, 32, 31) != VecMat(Identity(), v)
  {
    forall c | 0 <= c < 16
      ensures VecMat(Identity(), v)[c] == v[c]
    {
      IdentityColumn(v, c, 16);
    }
    SingleReadout(Identity(), v, 32);
  }
}
