/** The two-phase vertex program that sequences sixteen vaults and the shared adder tree. */
module Vertex {
  import opened Vectors
  import opened Systolic
  import opened Feeder
  import opened Ports
  import opened Piccolo
  import opened Psau
  import Gru

  datatype Option<T> = None | Some(value: T)

  datatype Stage = Inactive | Gathering | Computing | Draining | LoadingH | Gating | WritingBack | Complete

  datatype Config = Config(vertexAddr: nat, hiddenStateAddr: nat, outputAddr: nat, numNeighbors: nat, offsets: seq<nat>)

  datatype Cycles = Cycles(gather: nat, compute: nat, psau: nat, loadH: nat, gru: nat, total: nat)

  /** The program's own registers. */
  datatype Control = Control(stage: Stage, cfg: Config, cycles: Cycles, partialSums: Bundle, message: Vec,
                             prevHidden: Vec, newHidden: Vec, flushCount: nat, hLoadDone: bool,
                             writebackReady: bool, verticesDone: nat)

  /** One vault: its GRU cell, and its array and feeder when they are connected. */
  datatype Bay = Bay(cell: Gru.Cell, grid: Option<Grid>, lines: Option<Lines>)
  {
    predicate Connected() {
      grid.Some? && lines.Some?
    }
  }

  /** The program and everything it drives. */
  datatype World = World(ctl: Control, piccolos: seq<Option<Gather>>, queues: Queues, pipe: Pipe, bays: seq<Bay>)
  {
    ghost predicate Sized() {
      |piccolos| == 16 && |bays| == 16 && pipe.Sized()
    }
  }

  /** The two nonlinear functions of the cells and the reading of a 32-bit word as a number. */
  datatype Env = Env(fns: Gru.Squash, bitcast: nat -> real)

  // ---- start of a vertex

  function Restarted(c: Control, cfg: Config): Control {
    c.(stage := Gathering, cfg := cfg, cycles := Cycles(0, 0, 0, 0, 0, 0), flushCount := 0, message := Zero(),
       prevHidden := Zero(), newHidden := Zero(), hLoadDone := false, writebackReady := false)
  }

  /** Offsets pushed one by one; those beyond the capacity are ignored. */
  function PushedOffsets(ob: seq<nat>, cap: nat, offsets: seq<nat>): seq<nat> {
    if offsets == [] then ob
    else BoundedPush(PushedOffsets(ob, cap, offsets[..|offsets| - 1]), cap, offsets[|offsets| - 1])
  }

  function Primed(g: Gather, cfg: Config): Gather {
    var g' := Rearmed(g, cfg.numNeighbors).(base := cfg.vertexAddr);
    g'.(ob := PushedOffsets([], g.obCap, cfg.offsets))
  }

  function PrimedAll(ps: seq<Option<Gather>>, cfg: Config): (r: seq<Option<Gather>>)
    ensures |r| == |ps|
  {
    seq(|ps|, v requires 0 <= v < |ps| => if ps[v].None? then None else Some(Primed(ps[v].value, cfg)))
  }

  function StartVertex(w: World, cfg: Config): (w': World)
    requires w.Sized()
    ensures w'.Sized()
  {
    w.(ctl := Restarted(w.ctl, cfg), piccolos := PrimedAll(w.piccolos, cfg))
  }

  // ---- broadcast of weights and biases

  function WithWeights(c: Gru.Cell, wR: seq<real>, wZ: seq<real>, wIn: seq<real>, wHn: seq<real>): Gru.Cell {
    c.(params := c.params.(wR := wR, wZ := wZ, wIn := wIn, wHn := wHn))
  }

  function WithBiases(c: Gru.Cell, bR: Vec, bZ: Vec, bIn: Vec, bHn: Vec): Gru.Cell {
    c.(params := c.params.(bR := bR, bZ := bZ, bIn := bIn, bHn := bHn))
  }

  function Reweighted(bays: seq<Bay>, wR: seq<real>, wZ: seq<real>, wIn: seq<real>, wHn: seq<real>): seq<Bay> {
    seq(|bays|, v requires 0 <= v < |bays| => bays[v].(cell := WithWeights(bays[v].cell, wR, wZ, wIn, wHn)))
  }

  function Rebiased(bays: seq<Bay>, bR: Vec, bZ: Vec, bIn: Vec, bHn: Vec): seq<Bay> {
    seq(|bays|, v requires 0 <= v < |bays| => bays[v].(cell := WithBiases(bays[v].cell, bR, bZ, bIn, bHn)))
  }

  // ---- gather

  /** The queues after the tick of one controller, if it is connected. */
  function QueuesAfter(p: Option<Gather>, q: Queues): Queues {
    if p.None? then q else EnqueuedAll(q, Issue(p.value).1)
  }

  /** The queues after the first n controllers have had their tick. */
  function IssuedQueues(ps: seq<Option<Gather>>, q: Queues, n: nat): Queues
    requires n <= |ps|
  {
    if n == 0 then q else QueuesAfter(ps[n - 1], IssuedQueues(ps, q, n - 1))
  }

  function Issued(p: Option<Gather>): Option<Gather> {
    if p.None? then None else Some(Issue(p.value).0)
  }

  function IssuedAll(ps: seq<Option<Gather>>): (r: seq<Option<Gather>>)
    ensures |r| == |ps|
  {
    seq(|ps|, v requires 0 <= v < |ps| => Issued(ps[v]))
  }

  /** A controller that has completed its batch; an unconnected one counts as finished. */
  predicate Finished(p: Option<Gather>) {
    p.Some? ==> p.value.Done()
  }

  predicate AllGathered(ps: seq<Option<Gather>>) {
    forall v :: 0 <= v < |ps| ==> Finished(ps[v])
  }

  /** At most sixteen gathered words as a vector, padded with zeros. */
  function GatheredVec(env: Env, db: seq<nat>): Vec {
    seq(16, d requires 0 <= d < 16 => if d < |db| then env.bitcast(db[d]) else 0.0)
  }

  function DropSixteen(db: seq<nat>): seq<nat> {
    if |db| <= 16 then [] else db[16..]
  }

  /** A controller's data moves to the feeder only when both are connected. */
  function HandedOver(env: Env, p: Option<Gather>, b: Bay): (Option<Gather>, Bay) {
    if p.None? || b.lines.None? then (p, b)
    else (Some(p.value.(db := DropSixteen(p.value.db))),
          b.(lines := Some(Pushed(b.lines.value, GatheredVec(env, p.value.db)))))
  }

  function GatherControl(c: Control, allDone: bool): Control {
    var c' := c.(cycles := c.cycles.(gather := c.cycles.gather + 1));
    if allDone then c'.(cycles := c'.cycles.(compute := 0), stage := Computing) else c'
  }

  /** Every vault's hand-over: the controllers' side, then the vaults' side. */
  function HandedAll(env: Env, ps: seq<Option<Gather>>, bays: seq<Bay>): (r: (seq<Option<Gather>>, seq<Bay>))
    requires |ps| == |bays|
    ensures |r.0| == |r.1| == |ps|
  {
    (seq(|ps|, v requires 0 <= v < |ps| => HandedOver(env, ps[v], bays[v]).0),
     seq(|ps|, v requires 0 <= v < |ps| => HandedOver(env, ps[v], bays[v]).1))
  }

  /** Every controller ticked and, once all are done, their data handed over. */
  function Polled(env: Env, ps: seq<Option<Gather>>, bays: seq<Bay>): (r: (seq<Option<Gather>>, seq<Bay>))
    requires |ps| == |bays|
    ensures |r.0| == |r.1| == |ps|
  {
    if AllGathered(IssuedAll(ps)) then HandedAll(env, IssuedAll(ps), bays) else (IssuedAll(ps), bays)
  }

  function GatherTick(env: Env, w: World): (w': World)
    requires w.Sized()
    ensures w'.Sized()
  {
    World(GatherControl(w.ctl, AllGathered(IssuedAll(w.piccolos))),
          Polled(env, w.piccolos, w.bays).0, IssuedQueues(w.piccolos, w.queues, 16), w.pipe,
          Polled(env, w.piccolos, w.bays).1)
  }

  // ---- compute

  function Pumped(b: Bay): Bay {
    if !b.Connected() then b
    else b.(grid := Some(Shift(b.grid.value, Heads(b.lines.value), Zero())), lines := Some(Popped(b.lines.value)))
  }

  function PumpedAll(bays: seq<Bay>): (r: seq<Bay>)
    ensures |r| == |bays|
  {
    seq(|bays|, v requires 0 <= v < |bays| => Pumped(bays[v]))
  }

  function ComputeControl(c: Control, saOutputs: Bundle): Control {
    var c' := c.(cycles := c.cycles.(compute := c.cycles.compute + 1));
    if c'.cycles.compute < 16 then c'
    else c'.(partialSums := saOutputs, flushCount := 0, cycles := c'.cycles.(psau := 0), stage := Draining)
  }

  function ComputeTick(w: World, saOutputs: Bundle): (w': World)
    requires w.Sized()
    ensures w'.Sized()
  {
    w.(bays := PumpedAll(w.bays), ctl := ComputeControl(w.ctl, saOutputs))
  }

  // ---- reduction

  const PSAU_DEPTH: nat := 4

  /** Leaves the drain with the given message. */
  function MessageTaken(c: Control, message: Vec): Control {
    c.(message := message, hLoadDone := false, cycles := c.cycles.(loadH := 0), stage := LoadingH)
  }

  function DrainControl(c: Control, outputValid: bool, out: Vec): Control {
    var c' := c.(cycles := c.cycles.(psau := c.cycles.psau + 1), flushCount := c.flushCount + 1);
    if outputValid || c'.flushCount > PSAU_DEPTH + 2 then MessageTaken(c', out) else c'
  }

  function DrainTick(w: World): (w': World)
    requires w.Sized()
    ensures w'.Sized()
  {
    w.(pipe := PipeStep(w.pipe, Input(w.ctl.partialSums, w.ctl.flushCount == 0)),
       ctl := DrainControl(w.ctl, w.pipe.valid[3], w.pipe.s4))
  }

  // ---- hidden state

  function StartedAll(bays: seq<Bay>, hPrev: Vec, msg: Vec): (r: seq<Bay>)
    ensures |r| == |bays|
  {
    seq(|bays|, v requires 0 <= v < |bays| => bays[v].(cell := Gru.Started(bays[v].cell, hPrev, msg)))
  }

  function LoadControl(c: Control): Control {
    var c' := c.(cycles := c.cycles.(loadH := c.cycles.loadH + 1));
    if c.hLoadDone then c'.(cycles := c'.cycles.(gru := 0), stage := Gating) else c'
  }

  function LoadTick(w: World): (w': World)
    requires w.Sized()
    ensures w'.Sized()
  {
    w.(ctl := LoadControl(w.ctl),
       bays := if w.ctl.hLoadDone then StartedAll(w.bays, w.ctl.prevHidden, w.ctl.message) else w.bays)
  }

  // ---- gated update

  /** One clock of one vault's cell, and whether it threw. */
  function Gated(f: Gru.Squash, b: Bay): (Bay, bool) {
    if !b.Connected() || b.cell.done then (b, false)
    else
      var t := Gru.Step(f, Gru.Vault(b.cell, b.grid.value, b.lines.value));
      (Bay(t.vault.cell, Some(t.vault.grid), Some(t.vault.lines)), t.answer == Gru.Threw)
  }

  /** Whether one of the first n vaults throws. */
  predicate ThrowsBefore(f: Gru.Squash, bays: seq<Bay>, n: nat)
    requires n <= |bays|
  {
    exists v :: 0 <= v < n && Gated(f, bays[v]).1
  }

  /** The vaults are clocked in order up to the first one that throws. */
  function GatedAll(f: Gru.Squash, bays: seq<Bay>): (r: seq<Bay>)
    ensures |r| == |bays|
  {
    seq(|bays|, v requires 0 <= v < |bays| => if ThrowsBefore(f, bays, v) then bays[v] else Gated(f, bays[v]).0)
  }

  /** A vault that the completion count accepts: done, or not connected at all. */
  predicate Counted(b: Bay) {
    !b.Connected() || b.cell.done
  }

  /** Lane d of the first n results, each divided by sixteen. */
  function HiddenSum(bays: seq<Bay>, d: nat, n: nat): real
    requires d < 16 && n <= |bays|
  {
    if n == 0 then 0.0 else HiddenSum(bays, d, n - 1) + bays[n - 1].cell.hNew[d] / 16.0
  }

  function Averaged(bays: seq<Bay>): Vec {
    seq(16, d requires 0 <= d < 16 => HiddenSum(bays, d, |bays|))
  }

  /** Whether a sweep over the vaults threw nothing and left every vault counted. */
  predicate AllFinished(f: Gru.Squash, bays: seq<Bay>)
    requires |bays| == 16
  {
    !ThrowsBefore(f, bays, 16) && forall v :: 0 <= v < 16 ==> Counted(GatedAll(f, bays)[v])
  }

  function GruControl(c: Control, finished: bool, average: Vec): Control {
    var c' := c.(cycles := c.cycles.(gru := c.cycles.gru + 1));
    if finished then c'.(newHidden := average, stage := WritingBack) else c'
  }

  function GruTick(f: Gru.Squash, w: World): (w': World)
    requires w.Sized()
    ensures w'.Sized()
  {
    var bays := GatedAll(f, w.bays);
    w.(bays := bays, ctl := GruControl(w.ctl, AllFinished(f, w.bays), Averaged(bays)))
  }

  /** A vertex counted by the owner of the program. */
  function CountedOnce(c: Control): Control {
    c.(verticesDone := c.verticesDone + 1)
  }

  // ---- one cycle

  /** The action of the current stage. */
  function Advance(env: Env, w: World, saOutputs: Bundle): (w': World)
    requires w.Sized()
    ensures w'.Sized()
  {
    if w.ctl.stage == Gathering then GatherTick(env, w)
    else if w.ctl.stage == Computing then ComputeTick(w, saOutputs)
    else if w.ctl.stage == Draining then DrainTick(w)
    else if w.ctl.stage == LoadingH then LoadTick(w)
    else if w.ctl.stage == Gating then GruTick(env.fns, w)
    else if w.ctl.stage == WritingBack then
      w.(ctl := w.ctl.(writebackReady := true, stage := Complete, verticesDone := w.ctl.verticesDone + 1))
    else w
  }

  predicate Active(s: Stage) {
    s != Inactive && s != Complete
  }

  function CycleCounted(c: Control): Control {
    c.(cycles := c.cycles.(total := c.cycles.total + 1))
  }

  /** One call of the program's tick. */
  function Tick(env: Env, w: World, saOutputs: Bundle): (w': World)
    requires w.Sized()
    ensures w'.Sized()
  {
    if Active(w.ctl.stage) then Advance(env, w.(ctl := CycleCounted(w.ctl)), saOutputs) else w
  }

  /** What a call reports: whether the vertex is complete, unless a cell refused its weights. */
  function TickAnswer(env: Env, w: World, saOutputs: Bundle): Gru.Answer
    requires w.Sized()
  {
    if w.ctl.stage == Gating && ThrowsBefore(env.fns, w.bays, 16) then Gru.Threw
    else if Tick(env, w, saOutputs).ctl.stage == Complete then Gru.Finished
    else Gru.Busy
  }
}
