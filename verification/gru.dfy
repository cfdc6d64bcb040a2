/** One GRU cell: a phase machine that borrows a systolic array and its feeder. */
module Gru {
  import opened Vectors
  import opened Systolic
  import opened Feeder

  /** The two nonlinear functions of the cell; their values are a parameter of the model. */
  datatype Squash = Squash(sigmoid: real -> real, tanh: real -> real)

  /** The four matrix products of one evaluation, in order. */
  datatype Gate = Reset | Update | NewH | NewX

  datatype Phase = Idle | Load(gate: Gate) | Settle(gate: Gate) | Drain(gate: Gate) | Apply | Done

  /** What one call of Tick reports: false, true, or the exception of a refused weight matrix. */
  datatype Answer = Busy | Finished | Threw

  datatype Params = Params(wR: seq<real>, wZ: seq<real>, wIn: seq<real>, wHn: seq<real>,
                           bR: Vec, bZ: Vec, bIn: Vec, bHn: Vec)

  datatype Cell = Cell(params: Params, hPrev: Vec, msg: Vec,
                       resetGate: Vec, updateGate: Vec, resetGatedH: Vec, newGate: Vec,
                       bottom: Vec, hNew: Vec, phase: Phase, drainCount: nat, done: bool)

  /** A cell together with the array and the feeder that it drives. */
  datatype Vault = Vault(cell: Cell, grid: Grid, lines: Lines)

  datatype Turn = Turn(vault: Vault, answer: Answer)

  const GEMM_LATENCY: nat := 32

  function WeightOf(p: Params, g: Gate): seq<real> {
    match g
    case Reset => p.wR
    case Update => p.wZ
    case NewH => p.wHn
    case NewX => p.wIn
  }

  /** The vector that gate g multiplies: the message for the input branch, else the hidden state. */
  function Operand(c: Cell, g: Gate): Vec {
    if g == NewX then c.msg else c.hPrev
  }

  function Started(c: Cell, hPrev: Vec, msg: Vec): Cell {
    c.(hPrev := hPrev, msg := msg, phase := Load(Reset), drainCount := 0, done := false,
       bottom := Zero(), hNew := Zero())
  }

  /** The gate register computed from the current bottom-row readout, and the phase that follows. */
  function GateClosed(f: Squash, c: Cell, g: Gate): Cell {
    match g
    case Reset =>
      c.(resetGate := VecMap(f.sigmoid, VecAdd(VecAdd(c.bottom, c.params.bR), c.msg)),
         drainCount := 0, phase := Load(Update))
    case Update =>
      c.(updateGate := VecMap(f.sigmoid, VecAdd(VecAdd(c.bottom, c.params.bZ), c.msg)),
         drainCount := 0, phase := Load(NewH))
    case NewH =>
      c.(resetGatedH := Hadamard(c.resetGate, VecAdd(c.bottom, c.params.bHn)),
         drainCount := 0, phase := Load(NewX))
    case NewX =>
      c.(newGate := VecMap(f.tanh, VecAdd(VecAdd(c.bottom, c.params.bIn), c.resetGatedH)),
         drainCount := 0, phase := Apply)
  }

  /** (1 - z) * h + z * n, lane by lane. */
  function Blend(z: Vec, h: Vec, n: Vec): Vec {
    VecAdd(Hadamard(ScalarSub(1.0, z), h), Hadamard(z, n))
  }

  function LoadTurn(s: Vault, c: Cell, g: Gate): Turn {
    var w := WeightOf(c.params, g);
    if |w| != 256 then Turn(s.(cell := c), Threw)
    else Turn(Vault(c.(phase := Settle(g)), Fresh(w), Pushed(s.lines, Operand(c, g))), Busy)
  }

  function DrainTurn(f: Squash, s: Vault, c: Cell, g: Gate): Turn {
    var c' := c.(bottom := Bottom(s.grid));
    Turn(Vault(if c.drainCount >= GEMM_LATENCY then GateClosed(f, c', g) else c',
               Shift(s.grid, Heads(s.lines), Zero()), Popped(s.lines)), Busy)
  }

  /** One clock of the cell. */
  function Step(f: Squash, s: Vault): Turn {
    if s.cell.done then Turn(s, Finished)
    else
      var c := s.cell.(drainCount := s.cell.drainCount + 1);
      match c.phase
      case Idle => Turn(s.(cell := c), Busy)
      case Load(g) => LoadTurn(s, c, g)
      case Settle(g) => Turn(s.(cell := c.(drainCount := 0, phase := Drain(g))), Busy)
      case Drain(g) => DrainTurn(f, s, c, g)
      case Apply =>
        Turn(s.(cell := c.(hNew := Blend(c.updateGate, c.hPrev, c.newGate), done := true, phase := Done)), Finished)
      case Done => Turn(s.(cell := c), Finished)
  }

  class GRUCell {
    const fns: Squash
    var params: Params
    var hPrev: Vec
    var msg: Vec
    var resetGate: Vec
    var updateGate: Vec
    var resetGatedH: Vec
    var newGate: Vec
    var saBottom: Vec
    var hNew: Vec
    var phase: Phase
    var drainCount: nat
    var done: bool

    ghost function Contents(): Cell
      reads this
    {
      Cell(params, hPrev, msg, resetGate, updateGate,
           resetGatedH, newGate, saBottom, hNew, phase, drainCount, done)
    }

    ghost function Together(sa: SystolicArray, feeder: ArrayFeeder): Vault
      requires sa.Valid() && feeder.Valid()
      reads this, sa.pes, feeder.delayLines
    {
      Vault(Contents(), sa.Contents(), feeder.Contents())
    }

    constructor (fns: Squash)
      ensures this.fns == fns
      ensures Contents() == NewCell() && phase == Idle && !done
      ensures forall d :: 0 <= d < 16 ==> hPrev[d] == 0.0 && hNew[d] == 0.0
      ensures params.wR == params.wZ == params.wIn == params.wHn && |params.wR| == 256
      ensures forall i :: 0 <= i < 256 ==> params.wR[i] == if i / 16 == i % 16 then 1.0 else 0.0
      ensures params.bR == params.bZ == params.bIn == params.bHn && forall d :: 0 <= d < 16 ==> params.bR[d] == 0.0
    {
      this.fns := fns;
      params := Params(Identity(), Identity(), Identity(), Identity(), Zero(), Zero(), Zero(), Zero());
      hPrev, msg, saBottom, hNew := Zero(), Zero(), Zero(), Zero();
      resetGate, updateGate, resetGatedH, newGate := Zero(), Zero(), Zero(), Zero();
      phase, drainCount, done := Idle, 0, false;
    }

    method LoadWeights(wR: seq<real>, wZ: seq<real>, wIn: seq<real>, wHn: seq<real>)
      modifies this`params
      ensures Contents()
           == old(Contents()).(params := old(Contents()).params.(wR := wR, wZ := wZ, wIn := wIn, wHn := wHn))
    {
      params := params.(wR := wR, wZ := wZ, wIn := wIn, wHn := wHn);
    }

    method LoadBiases(bR: Vec, bZ: Vec, bIn: Vec, bHn: Vec)
      modifies this`params
      ensures Contents()
           == old(Contents()).(params := old(Contents()).params.(bR := bR, bZ := bZ, bIn := bIn, bHn := bHn))
    {
      params := params.(bR := bR, bZ := bZ, bIn := bIn, bHn := bHn);
    }

    method Start(hPrev: Vec, msg: Vec)
      modifies this
      ensures Contents() == Started(old(Contents()), hPrev, msg)
      ensures this.hPrev == hPrev && this.msg == msg && phase == Load(Reset) && drainCount == 0 && !done
      ensures forall d :: 0 <= d < 16 ==> hNew[d] == 0.0 && saBottom[d] == 0.0
      ensures params == old(params) && resetGate == old(resetGate) && updateGate == old(updateGate)
      ensures resetGatedH == old(resetGatedH) && newGate == old(newGate)
    {
      this.hPrev, this.msg := hPrev, msg;
      phase, drainCount, done := Load(Reset), 0, false;
      saBottom, hNew := Zero(), Zero();
    }

    /** One clock; the array and the feeder are borrowed for the duration of the call. */
    method Tick(sa: SystolicArray, feeder: ArrayFeeder) returns (answer: Answer)
      requires sa.Valid() && feeder.Valid()
      modifies this, sa.pes, feeder.delayLines
      ensures Turn(Together(sa, feeder), answer) == Step(fns, old(Together(sa, feeder)))
    {
      if done {
        return Finished;
      }
      drainCount := drainCount + 1;
      match phase {
        case Idle =>
          return Busy;
        case Load(g) =>
          answer := TickLoad(sa, feeder, g);
        case Settle(g) =>
          drainCount := 0;
          phase := Drain(g);
          return Busy;
        case Drain(g) =>
          TickDrain(sa, feeder, g);
          return Busy;
        case Apply =>
          ApplyElementwise();
          return Finished;
        case Done =>
          return Finished;
      }
    }

    method TickLoad(sa: SystolicArray, feeder: ArrayFeeder, g: Gate) returns (answer: Answer)
      requires sa.Valid() && feeder.Valid()
      modifies this`phase, sa.pes, feeder.delayLines
      ensures Turn(Together(sa, feeder), answer)
           == LoadTurn(old(Together(sa, feeder)), old(Contents()), g)
    {
      var loaded := sa.LoadWeights(WeightOf(params, g));
      if !loaded {
        return Threw;
      }
      var operand := if g == NewX then msg else hPrev;
      assert operand[..16] == operand;
      feeder.PushVector(operand);
      phase := Settle(g);
      return Busy;
    }

    method TickDrain(sa: SystolicArray, feeder: ArrayFeeder, g: Gate)
      requires sa.Valid() && feeder.Valid()
      modifies this, sa.pes, feeder.delayLines
      ensures Turn(Together(sa, feeder), Busy)
           == DrainTurn(fns, old(Together(sa, feeder)), old(Contents()), g)
    {
      var acts := feeder.GetNextActivations();
      saBottom := sa.Tick(acts, Zero());
      if drainCount >= GEMM_LATENCY {
        CloseGate(g);
      }
    }

    method CloseGate(g: Gate)
      modifies this
      ensures Contents() == GateClosed(fns, old(Contents()), g)
    {
      match g {
        case Reset =>
          resetGate := VecMap(fns.sigmoid, VecAdd(VecAdd(saBottom, params.bR), msg));
          phase := Load(Update);
        case Update =>
          updateGate := VecMap(fns.sigmoid, VecAdd(VecAdd(saBottom, params.bZ), msg));
          phase := Load(NewH);
        case NewH =>
          resetGatedH := Hadamard(resetGate, VecAdd(saBottom, params.bHn));
          phase := Load(NewX);
        case NewX =>
          newGate := VecMap(fns.tanh, VecAdd(VecAdd(saBottom, params.bIn), resetGatedH));
          phase := Apply;
      }
      drainCount := 0;
    }

    method ApplyElementwise()
      modifies this
      ensures Contents() == old(Contents()).(hNew := Blend(old(updateGate), old(hPrev), old(newGate)),
                                             done := true, phase := Done)
    {
      var oneMinusZ := ScalarSub(1.0, updateGate);
      var term1 := Hadamard(oneMinusZ, hPrev);
      var term2 := Hadamard(updateGate, newGate);
      hNew := VecAdd(term1, term2);
      done := true;
      phase := Done;
    }
  }

  /** An idle cell with identity weights and zero biases. */
  function NewCell(): Cell {
    Cell(Params(Identity(), Identity(), Identity(), Identity(), Zero(), Zero(), Zero(), Zero()),
         Zero(), Zero(), Zero(), Zero(), Zero(), Zero(), Zero(), Zero(), Idle, 0, false)
  }

  /** The 16x16 identity, row-major. */
  function Identity(): Matrix {
    seq(256, i requires 0 <= i < 256 => if i % 17 == 0 then 1.0 else 0.0)
  }
}
