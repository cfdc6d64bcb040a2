/** Runs of the vertex program, one stage at a time, under any replies of the memory system. */
module VertexRun {
  import opened Vectors
  import opened Systolic
  import opened Feeder
  import opened Piccolo
  import opened Psau
  import opened Vertex

  /** One simulator cycle: the array outputs offered to the program, then the replies of the memory. */
  datatype Cycle = Cycle(saOutputs: Bundle, replies: seq<(nat, nat)>, hidden: Option<Vec>)

  /** Read replies reach their controllers; each is a vault number and a value. */
  ghost function Replied(ps: seq<Option<Gather>>, replies: seq<(nat, nat)>): (r: seq<Option<Gather>>)
    ensures |r| == |ps|
  {
    if replies == [] then ps
    else
      var ps' := Replied(ps, replies[..|replies| - 1]);
      var (v, value) := replies[|replies| - 1];
      if v < |ps'| && ps'[v].Some? then ps'[v := Some(Completed(ps'[v].value, value))] else ps'
  }

  ghost function Delivered(w: World, cy: Cycle): (w': World)
    requires w.Sized()
    ensures w'.Sized()
  {
    w.(piccolos := Replied(w.piccolos, cy.replies),
       ctl := if cy.hidden.None? then w.ctl else w.ctl.(prevHidden := cy.hidden.value, hLoadDone := true))
  }

  ghost function Next(env: Env, w: World, cy: Cycle): (w': World)
    requires w.Sized()
    ensures w'.Sized()
  {
    Delivered(Tick(env, w, cy.saOutputs), cy)
  }

  /** A mark that calls up one link of a run, so that the others stay folded. */
  ghost predicate Cue(i: int) {
    true
  }

  /** A mark that opens a link, so that it stays folded where only its consequences matter. */
  ghost predicate Open(i: int) {
    true
  }

  ghost predicate Link(env: Env, w: World, w': World, cy: Cycle) {
    w.Sized() && w'.Sized() && forall i {:trigger Open(i)} :: Open(i) ==> w' == Next(env, w, cy)
  }

  /** The worlds seen before the first cycle, between the cycles and after the last one. */
  ghost predicate IsRun(env: Env, ws: seq<World>, cys: seq<Cycle>) {
    && |ws| == |cys| + 1
    && forall i {:trigger Cue(i)} :: 0 <= i < |cys| && Cue(i) ==> Link(env, ws[i], ws[i + 1], cys[i])
  }

  // ---- the cycle counters

  function Rank(s: Stage): nat {
    match s
    case Inactive => 0
    case Gathering => 1
    case Computing => 2
    case Draining => 3
    case LoadingH => 4
    case Gating => 5
    case WritingBack => 6
    case Complete => 7
  }

  /** The counters of the stages not yet reached are zero, and the total is the sum of the others. */
  ghost predicate CountersAgree(c: Control) {
    var k := c.cycles;
    && k.total == k.gather + k.compute + k.psau + k.loadH + k.gru + (if c.stage == Complete then 1 else 0)
    && (Rank(c.stage) < 2 ==> k.compute == 0)
    && (Rank(c.stage) < 3 ==> k.psau == 0)
    && (Rank(c.stage) < 4 ==> k.loadH == 0)
    && (Rank(c.stage) < 5 ==> k.gru == 0)
    && (c.stage == Inactive ==> k.gather == 0)
  }

  /** What can happen to the program. */
  datatype Event = Begin(cfg: Config) | Clock(cycle: Cycle) | Increment

  ghost function Happens(env: Env, w: World, e: Event): (w': World)
    requires w.Sized()
    ensures w'.Sized()
  {
    match e
    case Begin(cfg) => StartVertex(w, cfg)
    case Clock(cycle) => Next(env, w, cycle)
    case Increment => w.(ctl := CountedOnce(w.ctl))
  }

  ghost function History(env: Env, w: World, es: seq<Event>): (w': World)
    requires w.Sized()
    ensures w'.Sized()
  {
    if es == [] then w else Happens(env, History(env, w, es[..|es| - 1]), es[|es| - 1])
  }

  /** From c to c' the counter law is kept, and the stage moves on by at most one. */
  ghost predicate Lawful(c: Control, c': Control) {
    && CountersAgree(c')
    && Rank(c.stage) <= Rank(c'.stage) <= Rank(c.stage) + 1
    && (c.stage == Inactive ==> c'.stage == Inactive)
    && c'.verticesDone == c.verticesDone + (if c.stage != Complete && c'.stage == Complete then 1 else 0)
  }

  lemma EarlyLaw(env: Env, w: World, saOutputs: Bundle)
    requires w.Sized() && CountersAgree(w.ctl) && Rank(w.ctl.stage) <= 2
    ensures Lawful(w.ctl, Tick(env, w, saOutputs).ctl)
  {
  }

  lemma MiddleLaw(env: Env, w: World, saOutputs: Bundle)
    requires w.Sized() && CountersAgree(w.ctl) && 3 <= Rank(w.ctl.stage) <= 4
    ensures Lawful(w.ctl, Tick(env, w, saOutputs).ctl)
  {
  }

  lemma LateLaw(env: Env, w: World, saOutputs: Bundle)
    requires w.Sized() && CountersAgree(w.ctl) && 5 <= Rank(w.ctl.stage)
    ensures Lawful(w.ctl, Tick(env, w, saOutputs).ctl)
  {
  }

  /**
   * One tick keeps the counter law, moves at most one stage forward, and counts a vertex exactly
   * when it completes one; this includes ticks on which a cell throws.
   */
  lemma TickLaw(env: Env, w: World, saOutputs: Bundle)
    requires w.Sized() && CountersAgree(w.ctl)
    ensures Lawful(w.ctl, Tick(env, w, saOutputs).ctl)
  {
    if Rank(w.ctl.stage) <= 2 {
      EarlyLaw(env, w, saOutputs);
    } else if Rank(w.ctl.stage) <= 4 {
      MiddleLaw(env, w, saOutputs);
    } else {
      LateLaw(env, w, saOutputs);
    }
  }

  lemma DeliveredKeeps(w: World, cy: Cycle)
    requires w.Sized()
    ensures var c, c' := w.ctl, Delivered(w, cy).ctl;
      c'.stage == c.stage && c'.cycles == c.cycles && c'.verticesDone == c.verticesDone
  {
  }

  /** How many vertices the history has brought to completion. */
  ghost function Completions(env: Env, w: World, es: seq<Event>): nat
    requires w.Sized()
  {
    if es == [] then 0
    else
      var before, e := es[..|es| - 1], es[|es| - 1];
      Completions(env, w, before)
      + if e.Clock? && History(env, w, before).ctl.stage != Complete && History(env, w, es).ctl.stage == Complete
        then 1 else 0
  }

  function Increments(es: seq<Event>): nat {
    if es == [] then 0 else Increments(es[..|es| - 1]) + if es[|es| - 1].Increment? then 1 else 0
  }

  /**
   * Over every history of new vertices, cycles, replies and outside counts, the cycle counters
   * add up, and the vertex count is the number of completions plus those counted from outside.
   */
  lemma {:induction false} HistoryLaw(env: Env, w: World, es: seq<Event>)
    requires w.Sized() && CountersAgree(w.ctl) && w.ctl.verticesDone == 0
    ensures CountersAgree(History(env, w, es).ctl)
    ensures History(env, w, es).ctl.verticesDone == Completions(env, w, es) + Increments(es)
  {
    if es == [] {
    } else {
      HistoryLaw(env, w, es[..|es| - 1]);
      HappensLaw(env, History(env, w, es[..|es| - 1]), es[|es| - 1]);
    }
  }

  lemma HappensLaw(env: Env, w: World, e: Event)
    requires w.Sized() && CountersAgree(w.ctl)
    ensures var c, c' := w.ctl, Happens(env, w, e).ctl;
      && CountersAgree(c')
      && c'.verticesDone == c.verticesDone + (if e.Increment? then 1 else 0)
                            + (if e.Clock? && c.stage != Complete && c'.stage == Complete then 1 else 0)
  {
    if e.Clock? {
      TickLaw(env, w, e.cycle.saOutputs);
      DeliveredKeeps(Tick(env, w, e.cycle.saOutputs), e.cycle);
    }
  }

  lemma {:induction false} CountersRun(env: Env, ws: seq<World>, cys: seq<Cycle>, n: nat)
    requires IsRun(env, ws, cys) && n <= |cys| && CountersAgree(ws[0].ctl)
    ensures CountersAgree(ws[n].ctl)
  {
    if n == 0 {
    } else {
      CountersRun(env, ws, cys, n - 1);
      StagesAt(env, ws, cys, n - 1);
    }
  }

  /** Within one vertex the stages only move forward, one at a time. */
  lemma {:induction false} StagesForward(env: Env, ws: seq<World>, cys: seq<Cycle>, m: nat, n: nat)
    requires IsRun(env, ws, cys) && m <= n <= |cys| && CountersAgree(ws[0].ctl)
    ensures Rank(ws[m].ctl.stage) <= Rank(ws[n].ctl.stage) <= Rank(ws[m].ctl.stage) + (n - m)
    decreases n
  {
    if m == n {
    } else {
      StagesForward(env, ws, cys, m, n - 1);
      CountersRun(env, ws, cys, n - 1);
      StagesAt(env, ws, cys, n - 1);
    }
  }

  lemma StagesAt(env: Env, ws: seq<World>, cys: seq<Cycle>, i: nat)
    requires IsRun(env, ws, cys) && i < |cys| && CountersAgree(ws[i].ctl)
    ensures CountersAgree(ws[i + 1].ctl)
    ensures Rank(ws[i].ctl.stage) <= Rank(ws[i + 1].ctl.stage) <= Rank(ws[i].ctl.stage) + 1
  {
    assert Cue(i);
    StagesStep(env, ws[i], ws[i + 1], cys[i]);
  }

  lemma StagesStep(env: Env, w: World, w': World, cy: Cycle)
    requires Link(env, w, w', cy) && CountersAgree(w.ctl)
    ensures CountersAgree(w'.ctl)
    ensures Rank(w.ctl.stage) <= Rank(w'.ctl.stage) <= Rank(w.ctl.stage) + 1
  {
    assert Open(0);
    TickLaw(env, w, cy.saOutputs);
    DeliveredKeeps(Tick(env, w, cy.saOutputs), cy);
  }

  // ---- compute

  ghost function PumpedTimes(b: Bay, k: nat): Bay {
    if k == 0 then b else Pumped(PumpedTimes(b, k - 1))
  }

  lemma {:induction false} PumpedLines(b: Bay, k: nat)
    ensures PumpedTimes(b, k).cell == b.cell && (PumpedTimes(b, k).Connected() <==> b.Connected())
    ensures PumpedTimes(b, k).lines == if b.Connected() then Some(Drained(b.lines.value, k)) else b.lines
  {
    if k == 0 {
    } else {
      PumpedLines(b, k - 1);
    }
  }

  lemma ComputeStep(env: Env, w: World, w': World, cy: Cycle)
    requires Link(env, w, w', cy) && w.ctl.stage == Computing
    ensures w'.bays == PumpedAll(w.bays) && w'.pipe == w.pipe && w'.ctl.cycles.compute == w.ctl.cycles.compute + 1
    ensures w'.ctl.stage == if w'.ctl.cycles.compute < 16 then Computing else Draining
    ensures w'.ctl.stage == Draining ==> w'.ctl.partialSums == cy.saOutputs && w'.ctl.flushCount == 0
  {
    assert Open(0);
  }

  /** The compute stage lasts exactly 16 cycles and latches what the last of them offers. */
  lemma {:induction false} ComputeRun(env: Env, ws: seq<World>, cys: seq<Cycle>, n: nat, k: nat)
    requires IsRun(env, ws, cys) && n + k <= |cys| && k <= 16
    requires ws[n].Sized() && ws[n].ctl.stage == Computing && ws[n].ctl.cycles.compute == 0
    ensures ws[n + k].Sized() && ws[n + k].pipe == ws[n].pipe && ws[n + k].ctl.cycles.compute == k
    ensures ws[n + k].ctl.stage == if k < 16 then Computing else Draining
    ensures k == 16 ==> ws[n + k].ctl.partialSums == cys[n + 15].saOutputs && ws[n + k].ctl.flushCount == 0
    ensures forall v :: 0 <= v < 16 ==> ws[n + k].bays[v] == PumpedTimes(ws[n].bays[v], k)
    decreases k
  {
    if k == 0 {
    } else {
      ComputeRun(env, ws, cys, n, k - 1);
      assert Cue(n + k - 1);
      ComputeStep(env, ws[n + k - 1], ws[n + k], cys[n + k - 1]);
    }
  }

  // ---- reduction

  /** No valid vector is anywhere in the pipeline. */
  ghost predicate Flushed(p: Pipe) {
    p.Sized() && forall j :: 0 <= j < 4 ==> !p.valid[j]
  }

  lemma DrainStep(env: Env, w: World, w': World, cy: Cycle)
    requires Link(env, w, w', cy) && w.ctl.stage == Draining
    ensures w'.bays == w.bays && w'.ctl.partialSums == w.ctl.partialSums && w'.ctl.flushCount == w.ctl.flushCount + 1
    ensures w'.pipe == PipeStep(w.pipe, Input(w.ctl.partialSums, w.ctl.flushCount == 0))
    ensures w'.ctl.stage == if w.pipe.valid[3] || 6 <= w.ctl.flushCount then LoadingH else Draining
    ensures w'.ctl.stage == LoadingH ==> w'.ctl.message == w.pipe.s4 && w'.ctl.cycles.loadH == 0
  {
    assert Open(0);
  }

  /** The inputs that the drain stage presents: the latched vectors once, then bubbles. */
  ghost function DrainInputs(partials: Bundle): (xs: seq<Input>)
    ensures |xs| == 5
  {
    seq(5, i requires 0 <= i < 5 => Input(partials, i == 0))
  }

  /** The number of drain cycles: one more than the distance of the first valid vector to the end. */
  ghost function DrainLength(p: Pipe): (n: nat)
    requires p.Sized()
    ensures n <= 5 && (n == 5 <==> Flushed(p))
  {
    if p.valid[3] then 1 else if p.valid[2] then 2 else if p.valid[1] then 3 else if p.valid[0] then 4 else 5
  }

  /** Bit j after k drain cycles: an old bit moved k places, or the one token that was put in. */
  ghost function BitAfter(p: Pipe, k: nat, j: nat): bool
    requires p.Sized() && j < 4
  {
    if j >= k then p.valid[j - k] else j == k - 1
  }

  /** The valid bits alone after k cycles. */
  ghost function BitsAfter(bits: seq<bool>, xs: seq<Input>, k: nat): (r: seq<bool>)
    requires |bits| == 4 && k <= |xs|
    ensures |r| == 4
  {
    if k == 0 then bits else [xs[k - 1].valid] + BitsAfter(bits, xs, k - 1)[..3]
  }

  lemma {:induction false} PipeBits(p: Pipe, xs: seq<Input>, k: nat)
    requires p.Sized() && k <= |xs|
    ensures SameBits(PipeAfter(p, xs, k), BitsAfter(p.valid, xs, k))
  {
    if k == 0 {
    } else {
      PipeBits(p, xs, k - 1);
      StepBits(PipeAfter(p, xs, k - 1), xs[k - 1], BitsAfter(p.valid, xs, k - 1));
    }
  }

  ghost predicate SameBits(p: Pipe, bits: seq<bool>) {
    |p.valid| == |bits| == 4 && forall j {:trigger p.valid[j]} :: 0 <= j < 4 ==> p.valid[j] == bits[j]
  }

  lemma StepBits(p: Pipe, x: Input, bits: seq<bool>)
    requires p.Sized() && SameBits(p, bits)
    ensures SameBits(PipeStep(p, x), [x.valid] + bits[..3])
  {
  }

  lemma {:induction false} DrainBits(p: Pipe, xs: seq<Input>, k: nat, j: nat)
    requires p.Sized() && k <= 5 && j < 4
    requires |xs| == 5 && forall i :: 0 <= i < 5 ==> xs[i].valid == (i == 0)
    ensures BitsAfter(p.valid, xs, k)[j] == BitAfter(p, k, j)
  {
    if k == 0 || j == 0 {
    } else {
      DrainBits(p, xs, k - 1, j - 1);
    }
  }

  lemma DrainValid(p: Pipe, partials: Bundle, k: nat, j: nat)
    requires p.Sized() && k <= 5 && j < 4
    ensures PipeAfter(p, DrainInputs(partials), k).valid[j] == BitAfter(p, k, j)
  {
    PipeBits(p, DrainInputs(partials), k);
    DrainBits(p, DrainInputs(partials), k, j);
  }

  /** A valid vector reaches the end just before the last drain cycle, and not earlier. */
  lemma ReachesEnd(p: Pipe, partials: Bundle, k: nat)
    requires p.Sized() && k < DrainLength(p)
    ensures PipeAfter(p, DrainInputs(partials), k).valid[3] <==> k + 1 == DrainLength(p)
  {
    DrainValid(p, partials, k, 3);
    EndBit(p, k);
  }

  lemma EndBit(p: Pipe, k: nat)
    requires p.Sized() && k < DrainLength(p)
    ensures BitAfter(p, k, 3) <==> k + 1 == DrainLength(p)
  {
  }

  /** What the drain stage has reached after k cycles. */
  ghost predicate DrainedTo(w0: World, w: World, k: nat)
    requires w0.Sized() && k <= 5
  {
    && w.Sized() && w.bays == w0.bays && w.ctl.partialSums == w0.ctl.partialSums && w.ctl.flushCount == k
    && (forall xs :: xs == DrainInputs(w0.ctl.partialSums) ==> w.pipe == PipeAfter(w0.pipe, xs, k))
    && w.ctl.stage == if k < DrainLength(w0.pipe) then Draining else LoadingH
  }

  lemma DrainNext(env: Env, w0: World, w: World, w': World, cy: Cycle, k: nat)
    requires Link(env, w, w', cy) && w0.Sized() && 0 < k <= DrainLength(w0.pipe) && DrainedTo(w0, w, k - 1)
    ensures DrainedTo(w0, w', k)
    ensures w'.ctl.stage == LoadingH ==> TakenFrom(w, w')
  {
    DrainStep(env, w, w', cy);
    ReachesEnd(w0.pipe, w0.ctl.partialSums, k - 1);
    assert DrainInputs(w0.ctl.partialSums)[k - 1] == Input(w.ctl.partialSums, w.ctl.flushCount == 0);
  }

  /** The message of w' is the valid vector at the end of the tree in w. */
  ghost predicate TakenFrom(w: World, w': World) {
    w.Sized() && w.pipe.valid[3] && w'.ctl.message == w.pipe.s4 && w'.ctl.cycles.loadH == 0
  }

  /** World i of a run whose drain stage begins in world n. */
  ghost predicate DrainedAt(ws: seq<World>, n: nat, i: nat)
    requires n <= i < |ws| && ws[n].Sized() && i - n <= 5
  {
    && DrainedTo(ws[n], ws[i], i - n)
    && (n < i && ws[i].ctl.stage == LoadingH ==> TakenFrom(ws[i - 1], ws[i]))
  }

  /** The drain stage ends when a valid vector leaves the tree, and for no other reason. */
  lemma {:induction false} DrainRun(env: Env, ws: seq<World>, cys: seq<Cycle>, n: nat, e: nat)
    requires IsRun(env, ws, cys) && n <= e <= |cys|
    requires ws[n].Sized() && ws[n].ctl.stage == Draining && ws[n].ctl.flushCount == 0
    requires e - n <= DrainLength(ws[n].pipe)
    ensures forall i :: n <= i <= e ==> DrainedAt(ws, n, i)
    decreases e
  {
    if n == e {
    } else {
      DrainRun(env, ws, cys, n, e - 1);
      DrainAt(env, ws, cys, n, e);
    }
  }

  lemma DrainAt(env: Env, ws: seq<World>, cys: seq<Cycle>, n: nat, i: nat)
    requires IsRun(env, ws, cys) && n < i <= |cys|
    requires ws[n].Sized() && i - n <= DrainLength(ws[n].pipe) && DrainedAt(ws, n, i - 1)
    ensures DrainedAt(ws, n, i)
  {
    assert Cue(i - 1);
    DrainNext(env, ws[n], ws[i - 1], ws[i], cys[i - 1], i - n);
  }

  /**
   * From a flushed tree the drain lasts exactly five cycles, its message is the lane-wise sum of
   * the latched vectors, and the tree is flushed again.
   */
  lemma DrainFromFlushed(env: Env, ws: seq<World>, cys: seq<Cycle>, n: nat)
    requires IsRun(env, ws, cys) && n + 5 <= |cys|
    requires ws[n].Sized() && ws[n].ctl.stage == Draining && ws[n].ctl.flushCount == 0 && Flushed(ws[n].pipe)
    ensures forall i :: n <= i < n + 5 ==> ws[i].ctl.stage == Draining
    ensures forall i :: n <= i <= n + 5 ==> ws[i].bays == ws[n].bays
    ensures ws[n + 5].Sized() && ws[n + 5].ctl.stage == LoadingH && ws[n + 5].ctl.cycles.loadH == 0
    ensures ws[n + 5].ctl.message == VecSum(ws[n].ctl.partialSums)
    ensures Flushed(ws[n + 5].pipe)
  {
    DrainRun(env, ws, cys, n, n + 5);
    FlushedAt(ws, n, n + 5);
    forall i | n <= i <= n + 5
      ensures ws[i].bays == ws[n].bays && (i < n + 5 ==> ws[i].ctl.stage == Draining)
    {
      assert DrainedAt(ws, n, i);
    }
  }

  /** The end of the drain of a tree that was flushed when it began. */
  lemma FlushedAt(ws: seq<World>, n: nat, e: nat)
    requires n + 5 == e < |ws| && ws[n].Sized() && Flushed(ws[n].pipe)
    requires DrainedAt(ws, n, e - 1) && DrainedAt(ws, n, e)
    ensures ws[e].Sized() && ws[e].ctl.stage == LoadingH && ws[e].ctl.cycles.loadH == 0
    ensures ws[e].ctl.message == VecSum(ws[n].ctl.partialSums) && Flushed(ws[e].pipe)
  {
    FlushedDrain(ws[n].pipe, ws[n].ctl.partialSums);
  }

  lemma FlushedDrain(p: Pipe, partials: Bundle)
    requires Flushed(p)
    ensures PipeAfter(p, DrainInputs(partials), 4).s4 == VecSum(partials)
    ensures Flushed(PipeAfter(p, DrainInputs(partials), 5))
  {
    Travels(p, DrainInputs(partials), 4);
    assert InStage(PipeAfter(p, DrainInputs(partials), 4), DrainInputs(partials), 4, 4);
    forall j | 0 <= j < 4
      ensures !PipeAfter(p, DrainInputs(partials), 5).valid[j]
    {
      DrainValid(p, partials, 5, j);
    }
  }
}
