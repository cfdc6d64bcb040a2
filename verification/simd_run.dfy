/** Whatever the memory's delays, the core computes what its program means sequentially. */
module SimdRun {
  import opened Vectors
  import opened Ports
  import opened Simd
  import Arith
  import Gru

  datatype Event = Tick | Reply(payload: seq<real>)

  function Happened(u: Units, pcId: Port, c: Core, e: Event): (r: Core)
    requires Sound(c)
    ensures Sound(r)
  {
    match e
    case Tick => Ticked(u, pcId, c)
    case Reply(payload) => Replied(c, payload)
  }

  /** The core after a program is loaded into fresh logs and a series of events has happened. */
  function After(u: Units, pcId: Port, regs: Registers, program: seq<SIMDInstruction>, es: seq<Event>): (c: Core)
    requires AllInRange(|regs|, program)
    ensures Sound(c)
  {
    if es == [] then Core(regs, program, false, -1, [], [], [])
    else Happened(u, pcId, After(u, pcId, regs, program, es[..|es| - 1]), es[|es| - 1])
  }

  predicate Done(c: Core) {
    c.program == [] && !c.stalled
  }

  // ---- sequential meaning

  function Loads(program: seq<SIMDInstruction>): nat {
    if program == [] then 0 else Loads(program[..|program| - 1]) + if program[|program| - 1].op == LOAD then 1 else 0
  }

  /** What a program leaves behind: registers, vectors pushed, and reads requested. */
  datatype Outcome = Outcome(regs: Registers, pushed: seq<Vec>, requested: seq<MemoryBurst>)

  /** One instruction executed to its end; a LOAD at once receives its payload. */
  function Executed(u: Units, pcId: Port, o: Outcome, inst: SIMDInstruction, payload: seq<real>): (r: Outcome)
    requires InRange(|o.regs|, inst)
    ensures |r.regs| == |o.regs|
  {
    match inst.op
    case LOAD => Outcome(Filled(o.regs, inst.destReg, payload), o.pushed, o.requested + [Request(pcId, inst)])
    case PUSH_ARR => o.(pushed := o.pushed + [o.regs[inst.src1Reg..inst.src1Reg + 16]])
    case _ => o.(regs := Computed(u, o.regs, inst))
  }

  /** The program executed one instruction after the other, its k-th LOAD receiving payload k. */
  function Sequential(u: Units, pcId: Port, regs: Registers, program: seq<SIMDInstruction>,
                      payloads: seq<seq<real>>): (o: Outcome)
    requires AllInRange(|regs|, program) && Loads(program) <= |payloads|
    ensures |o.regs| == |regs|
  {
    if program == [] then Outcome(regs, [], [])
    else
      var n := |program| - 1;
      var o := Sequential(u, pcId, regs, program[..n], payloads);
      Executed(u, pcId, o, program[n], if program[n].op == LOAD then payloads[Loads(program[..n])] else [])
  }

  lemma {:induction false} UnusedPayload(u: Units, pcId: Port, regs: Registers, program: seq<SIMDInstruction>,
                                         payloads: seq<seq<real>>, more: seq<real>)
    requires AllInRange(|regs|, program) && Loads(program) <= |payloads|
    ensures Sequential(u, pcId, regs, program, payloads + [more]) == Sequential(u, pcId, regs, program, payloads)
  {
    if program == [] {
    } else {
      UnusedPayload(u, pcId, regs, program[..|program| - 1], payloads, more);
    }
  }

  // ---- the invariant

  /** The number of instructions executed to their end when `rest` are still queued. */
  function Ended(program: seq<SIMDInstruction>, c: Core): int {
    |program| - |c.program| - if c.stalled then 1 else 0
  }

  /** The machine agrees with the sequential meaning of the instructions that have ended. */
  ghost predicate Agrees(u: Units, pcId: Port, regs: Registers, program: seq<SIMDInstruction>, c: Core)
    requires AllInRange(|regs|, program)
  {
    var k := Ended(program, c);
    && 0 <= k <= |program| && c.program == program[|program| - |c.program|..]
    && |c.received| == Loads(program[..k])
    && var o := Sequential(u, pcId, regs, program[..k], c.received);
      c.regs == o.regs && c.pushed == o.pushed
      && if c.stalled then
           program[k].op == LOAD && c.dest == program[k].destReg
           && c.requested == o.requested + [Request(pcId, program[k])]
         else c.requested == o.requested
  }

  lemma NextEnds(u: Units, pcId: Port, regs: Registers, program: seq<SIMDInstruction>, k: nat,
                 payloads: seq<seq<real>>, payload: seq<real>)
    requires k < |program| && AllInRange(|regs|, program) && |payloads| == Loads(program[..k])
    ensures var o := Sequential(u, pcId, regs, program[..k], payloads);
      if program[k].op == LOAD then
        Loads(program[..k + 1]) == |payloads| + 1
        && Sequential(u, pcId, regs, program[..k + 1], payloads + [payload])
           == Executed(u, pcId, o, program[k], payload)
      else
        Loads(program[..k + 1]) == |payloads|
        && Sequential(u, pcId, regs, program[..k + 1], payloads) == Executed(u, pcId, o, program[k], [])
  {
    assert program[..k + 1][..k] == program[..k];
    UnusedPayload(u, pcId, regs, program[..k], payloads, payload);
  }

  lemma TickAgrees(u: Units, pcId: Port, regs: Registers, program: seq<SIMDInstruction>, c: Core)
    requires AllInRange(|regs|, program) && Sound(c) && Agrees(u, pcId, regs, program, c)
    ensures Agrees(u, pcId, regs, program, Ticked(u, pcId, c))
  {
    if !c.stalled && c.program != [] {
      if c.program[0].op == LOAD {
        LoadAgrees(u, pcId, regs, program, c);
      } else {
        var c' := OtherAgrees(u, pcId, regs, program, c);
      }
    }
  }

  /** A load only asks for its data. */
  lemma LoadAgrees(u: Units, pcId: Port, regs: Registers, program: seq<SIMDInstruction>, c: Core)
    requires AllInRange(|regs|, program) && Sound(c) && Agrees(u, pcId, regs, program, c)
    requires !c.stalled && c.program != [] && c.program[0].op == LOAD
    ensures Agrees(u, pcId, regs, program, Ticked(u, pcId, c))
  {
    var k := |program| - |c.program|;
    assert c.program[0] == program[k] && c.program[1..] == program[k + 1..];
  }

  /** A tick on any other instruction executes it to its end. */
  lemma TickExecutes(u: Units, pcId: Port, c: Core, o: Outcome) returns (c': Core, o': Outcome)
    requires Sound(c) && !c.stalled && c.program != [] && c.program[0].op != LOAD
    requires o == Outcome(c.regs, c.pushed, c.requested)
    ensures c' == Ticked(u, pcId, c) && o' == Executed(u, pcId, o, c.program[0], [])
    ensures o' == Outcome(c'.regs, c'.pushed, c'.requested)
    ensures c'.program == c.program[1..] && !c'.stalled && c'.received == c.received
  {
    c', o' := Ticked(u, pcId, c), Executed(u, pcId, o, c.program[0], []);
  }

  /** Any other instruction ends with the tick that begins it. */
  lemma OtherAgrees(u: Units, pcId: Port, regs: Registers, program: seq<SIMDInstruction>, c: Core) returns (c': Core)
    requires AllInRange(|regs|, program) && Sound(c) && Agrees(u, pcId, regs, program, c)
    requires !c.stalled && c.program != [] && c.program[0].op != LOAD
    ensures c' == Ticked(u, pcId, c) && Agrees(u, pcId, regs, program, c')
  {
    var k := |program| - |c.program|;
    assert c.program[0] == program[k] && c.program[1..] == program[k + 1..];
    var o := Outcome(c.regs, c.pushed, c.requested);
    var o': Outcome;
    c', o' := TickExecutes(u, pcId, c, o);
    NextEnds(u, pcId, regs, program, k, c.received, []);
  }

  lemma ReplyAgrees(u: Units, pcId: Port, regs: Registers, program: seq<SIMDInstruction>, c: Core, payload: seq<real>)
    requires AllInRange(|regs|, program) && Sound(c) && Agrees(u, pcId, regs, program, c)
    ensures Agrees(u, pcId, regs, program, Replied(c, payload))
  {
    if c.stalled {
      NextEnds(u, pcId, regs, program, Ended(program, c), c.received, payload);
    }
  }

  /**
   * Under any sequence of clocks and replies, at any delays, the core agrees with the sequential
   * meaning of the instructions that have ended; at most one read is outstanding, and dest is -1
   * exactly when none is.
   */
  lemma {:induction false} RunAgrees(u: Units, pcId: Port, regs: Registers, program: seq<SIMDInstruction>,
                                     es: seq<Event>)
    requires AllInRange(|regs|, program)
    ensures var c := After(u, pcId, regs, program, es);
      && Agrees(u, pcId, regs, program, c)
      && |c.requested| - |c.received| == (if c.stalled then 1 else 0)
      && (c.dest == -1 <==> !c.stalled)
  {
    if es == [] {
      assert program[0..] == program;
    } else {
      var c := After(u, pcId, regs, program, es[..|es| - 1]);
      RunAgrees(u, pcId, regs, program, es[..|es| - 1]);
      match es[|es| - 1]
      case Tick => TickAgrees(u, pcId, regs, program, c);
      case Reply(payload) => ReplyAgrees(u, pcId, regs, program, c, payload);
    }
    var c := After(u, pcId, regs, program, es);
    RequestPerLoad(u, pcId, regs, program[..Ended(program, c)], c.received);
  }

  /** The reads that a program requests, in order. */
  function LoadRequests(pcId: Port, program: seq<SIMDInstruction>): seq<MemoryBurst> {
    if program == [] then []
    else
      var n := |program| - 1;
      LoadRequests(pcId, program[..n]) + if program[n].op == LOAD then [Request(pcId, program[n])] else []
  }

  lemma {:induction false} RequestPerLoad(u: Units, pcId: Port, regs: Registers, program: seq<SIMDInstruction>,
                                          payloads: seq<seq<real>>)
    requires AllInRange(|regs|, program) && Loads(program) <= |payloads|
    ensures Sequential(u, pcId, regs, program, payloads).requested == LoadRequests(pcId, program)
    ensures |LoadRequests(pcId, program)| == Loads(program)
  {
    if program == [] {
    } else {
      RequestPerLoad(u, pcId, regs, program[..|program| - 1], payloads);
    }
  }

  /** A finished core holds exactly the sequential outcome for the payloads that it received. */
  lemma DoneIsSequential(u: Units, pcId: Port, regs: Registers, program: seq<SIMDInstruction>, es: seq<Event>)
    requires AllInRange(|regs|, program) && Done(After(u, pcId, regs, program, es))
    ensures var c := After(u, pcId, regs, program, es);
      |c.received| == Loads(program) && c.requested == LoadRequests(pcId, program)
      && Sequential(u, pcId, regs, program, c.received) == Outcome(c.regs, c.pushed, c.requested)
  {
    var c := After(u, pcId, regs, program, es);
    RunAgrees(u, pcId, regs, program, es);
    assert program[..|program|] == program;
    RequestPerLoad(u, pcId, regs, program, c.received);
  }

  // ---- latency insensitivity

  /** Every reply that the core took came from the memory's content at the address it had asked for. */
  ghost predicate AnsweredFrom(mem: nat -> seq<real>, c: Core) {
    |c.received| <= |c.requested| && forall i :: 0 <= i < |c.received| ==> c.received[i] == mem(c.requested[i].addr)
  }

  /**
   * Two runs of a program to its end over the same memory content, with any delays and any stray
   * clocks and replies, end in the same core.
   */
  lemma LatencyInsensitive(u: Units, pcId: Port, regs: Registers, program: seq<SIMDInstruction>, mem: nat -> seq<real>,
                           es: seq<Event>, es': seq<Event>)
    requires AllInRange(|regs|, program)
    requires Done(After(u, pcId, regs, program, es)) && AnsweredFrom(mem, After(u, pcId, regs, program, es))
    requires Done(After(u, pcId, regs, program, es')) && AnsweredFrom(mem, After(u, pcId, regs, program, es'))
    ensures After(u, pcId, regs, program, es) == After(u, pcId, regs, program, es')
  {
    DoneIsSequential(u, pcId, regs, program, es);
    DoneIsSequential(u, pcId, regs, program, es');
    RequestPerLoad(u, pcId, regs, program, After(u, pcId, regs, program, es).received);
    assert After(u, pcId, regs, program, es).received == After(u, pcId, regs, program, es').received;
  }

  // ---- progress

  /** Events that move the core: a clock while it can issue, a reply while it waits. */
  predicate Moves(c: Core, e: Event) {
    if c.stalled then e.Reply? else e.Tick? && c.program != []
  }

  function MovesIn(u: Units, pcId: Port, regs: Registers, program: seq<SIMDInstruction>, es: seq<Event>): nat
    requires AllInRange(|regs|, program)
  {
    if es == [] then 0
    else
      var n := |es| - 1;
      MovesIn(u, pcId, regs, program, es[..n]) + if Moves(After(u, pcId, regs, program, es[..n]), es[n]) then 1 else 0
  }

  lemma {:induction false} MovesCount(u: Units, pcId: Port, regs: Registers, program: seq<SIMDInstruction>,
                                      es: seq<Event>)
    requires AllInRange(|regs|, program)
    ensures var c := After(u, pcId, regs, program, es);
      MovesIn(u, pcId, regs, program, es) == |program| - |c.program| + |c.received|
  {
    if es == [] {
    } else {
      MovesCount(u, pcId, regs, program, es[..|es| - 1]);
    }
  }

  lemma {:induction false} LoadsMonotone(program: seq<SIMDInstruction>, k: nat)
    requires k <= |program|
    ensures Loads(program[..k]) <= Loads(program)
  {
    if k < |program| {
      var n := |program| - 1;
      assert program[..n][..k] == program[..k];
      LoadsMonotone(program[..n], k);
    } else {
      assert program[..k] == program;
    }
  }

  /**
   * The core is done exactly when it has moved once per instruction and once more per LOAD; it
   * never moves more often, and any other event leaves it as it was.
   */
  lemma DoneIff(u: Units, pcId: Port, regs: Registers, program: seq<SIMDInstruction>, es: seq<Event>)
    requires AllInRange(|regs|, program)
    ensures MovesIn(u, pcId, regs, program, es) <= |program| + Loads(program)
    ensures Done(After(u, pcId, regs, program, es))
            <==> MovesIn(u, pcId, regs, program, es) == |program| + Loads(program)
    ensures forall e :: !Moves(After(u, pcId, regs, program, es), e) ==>
      Happened(u, pcId, After(u, pcId, regs, program, es), e) == After(u, pcId, regs, program, es)
  {
    var c := After(u, pcId, regs, program, es);
    DoneCount(u, pcId, regs, program, es, c);
    forall e | !Moves(c, e)
      ensures Happened(u, pcId, c, e) == c
    {
      StandsStill(u, pcId, c, e);
    }
  }

  lemma StandsStill(u: Units, pcId: Port, c: Core, e: Event)
    requires Sound(c) && !Moves(c, e)
    ensures Happened(u, pcId, c, e) == c
  {
  }

  lemma DoneCount(u: Units, pcId: Port, regs: Registers, program: seq<SIMDInstruction>, es: seq<Event>, c: Core)
    requires AllInRange(|regs|, program) && c == After(u, pcId, regs, program, es)
    ensures MovesIn(u, pcId, regs, program, es) <= |program| + Loads(program)
    ensures Done(c) <==> MovesIn(u, pcId, regs, program, es) == |program| + Loads(program)
  {
    RunAgrees(u, pcId, regs, program, es);
    MovesCount(u, pcId, regs, program, es);
    LoadsLeft(program, Ended(program, c), c.stalled, c.program == []);
  }

  /** The loads before instruction k, which is a load itself if one is outstanding. */
  lemma LoadsLeft(program: seq<SIMDInstruction>, k: nat, stalled: bool, empty: bool)
    requires k <= |program| && (stalled ==> k < |program| && program[k].op == LOAD)
    requires !stalled && empty ==> k == |program|
    ensures Loads(program[..k]) + (if stalled then 1 else 0) <= Loads(program)
    ensures !stalled && empty ==> Loads(program[..k]) == Loads(program)
  {
    LoadsMonotone(program, k);
    if stalled {
      assert program[..k + 1][..k] == program[..k];
      LoadsMonotone(program, k + 1);
    } else if empty {
      assert program[..k] == program;
    }
  }

  // ---- in-place activation over overlapping registers

  function Iterated(f: real -> real, n: nat, x: real): real {
    if n == 0 then x else f(Iterated(f, n - 1, x))
  }

  predicate Unary(inst: SIMDInstruction) {
    inst.op == SIGMOID || inst.op == TANH
  }

  function Curve(u: Units, inst: SIMDInstruction): real -> real {
    if inst.op == SIGMOID then u.squash.sigmoid else u.squash.tanh
  }

  /** A destination at or below the source, or disjoint from it, gets the function of the old values. */
  lemma {:induction false} InPlaceIsSimultaneous(u: Units, regs: Registers, inst: SIMDInstruction, n: nat, i: nat)
    requires Unary(inst) && i < n <= Lanes(|regs|, inst)
    requires inst.destReg <= inst.src1Reg || inst.src1Reg + n <= inst.destReg
    ensures AfterLanes(u, regs, inst, n)[inst.destReg + i] == Curve(u, inst)(regs[inst.src1Reg + i])
  {
    if i < n - 1 {
      InPlaceIsSimultaneous(u, regs, inst, n - 1, i);
    } else {
      Untouched(u, regs, inst, n - 1, inst.src1Reg + i);
    }
  }

  /** Whether a destination lies inside the lanes of a source that are read after it is written. */
  predicate FeedsBack(src: nat, dest: nat, n: nat) {
    src < dest < src + n
  }

  /** The first n lanes give what the old register values alone would give. */
  ghost predicate Simultaneous(u: Units, regs: Registers, inst: SIMDInstruction, n: nat)
    requires n <= Lanes(|regs|, inst)
  {
    forall i :: 0 <= i < n ==> AfterLanes(u, regs, inst, n)[inst.destReg + i] == LaneValue(u, regs, inst, i)
  }

  function Succ(x: real): real {
    x + 1.0
  }

  function Twos(size: nat): (s: Registers)
    ensures |s| == size && forall i :: 0 <= i < size ==> s[i] == 2.0
  {
    seq(size, _ => 2.0)
  }

  /** Units whose activations both add one. */
  function Counting(): Units {
    Units(Gru.Squash(Succ, Succ), (_, _) => 0.0)
  }

  /**
   * In place equals simultaneous, for every register file and every activation, if and only if
   * the destination does not lie above the source and within its lanes.
   */
  lemma UnarySimultaneousIff(inst: SIMDInstruction, size: nat, n: nat)
    requires Unary(inst) && n <= Lanes(size, inst)
    ensures (forall u: Units, regs: Registers :: |regs| == size ==> Simultaneous(u, regs, inst, n))
            <==> !FeedsBack(inst.src1Reg, inst.destReg, n)
  {
    if FeedsBack(inst.src1Reg, inst.destReg, n) {
      var u, regs, gap := Counting(), Twos(size), inst.destReg - inst.src1Reg;
      OverlapIterates(u, regs, inst, n, gap);
      TwoPasses(u, inst, gap);
      assert LaneValue(u, regs, inst, gap) == 3.0;
      assert !Simultaneous(u, regs, inst, n);
    } else {
      forall u: Units, regs: Registers | |regs| == size
        ensures Simultaneous(u, regs, inst, n)
      {
        forall i | 0 <= i < n
          ensures AfterLanes(u, regs, inst, n)[inst.destReg + i] == LaneValue(u, regs, inst, i)
        {
          InPlaceIsSimultaneous(u, regs, inst, n, i);
        }
      }
    }
  }

  lemma TwoPasses(u: Units, inst: SIMDInstruction, gap: nat)
    requires u == Counting() && Unary(inst) && 0 < gap
    ensures Iterated(Curve(u, inst), Passes(gap, gap), 2.0) == 4.0 && Root(gap, gap) == 0
    ensures u.squash.sigmoid(2.0) == u.squash.tanh(2.0) == 3.0
  {
    var f := Curve(u, inst);
    assert f(2.0) == 3.0 && f(3.0) == 4.0;
    assert Iterated(f, 0, 2.0) == 2.0;
    assert Iterated(f, 1, 2.0) == f(Iterated(f, 0, 2.0));
    assert Passes(gap, gap) == 1 + Passes(0, gap);
  }

  /** The same for the element-wise product and both of its sources. */
  lemma {:induction false} ProductIsSimultaneous(u: Units, regs: Registers, inst: SIMDInstruction, n: nat, i: nat)
    requires inst.op == HADAMARD && i < n <= Lanes(|regs|, inst)
    requires !FeedsBack(inst.src1Reg, inst.destReg, n) && !FeedsBack(inst.src2Reg, inst.destReg, n)
    ensures AfterLanes(u, regs, inst, n)[inst.destReg + i] == LaneValue(u, regs, inst, i)
  {
    if i < n - 1 {
      ProductIsSimultaneous(u, regs, inst, n - 1, i);
    } else {
      Untouched(u, regs, inst, i, inst.src1Reg + i);
      Untouched(u, regs, inst, i, inst.src2Reg + i);
      SameProduct(AfterLanes(u, regs, inst, i)[inst.src1Reg + i], AfterLanes(u, regs, inst, i)[inst.src2Reg + i],
                  regs[inst.src1Reg + i], regs[inst.src2Reg + i]);
    }
  }

  lemma SameProduct(a: real, b: real, x: real, y: real)
    requires a == x && b == y
    ensures a * b == x * y
  {
  }

  ghost predicate AllAtLeast(regs: Registers, x: real) {
    forall r :: 0 <= r < |regs| ==> regs[r] >= x
  }

  /** The first n destinations hold four or more. */
  ghost predicate Multiplied(regs: Registers, dest: nat, n: nat) {
    forall r :: dest <= r < dest + n && r < |regs| ==> regs[r] >= 4.0
  }

  lemma ProductStep(u: Units, regs: Registers, inst: SIMDInstruction, n: nat) returns (r: Registers)
    requires inst.op == HADAMARD && 0 < n <= Lanes(|regs|, inst)
    requires AllAtLeast(regs, 2.0) && Multiplied(regs, inst.destReg, n - 1)
    ensures r == regs[inst.destReg + n - 1 := LaneValue(u, regs, inst, n - 1)]
    ensures AllAtLeast(r, 2.0) && Multiplied(r, inst.destReg, n)
  {
    AtLeast(regs[inst.src1Reg + n - 1], 2.0, regs[inst.src2Reg + n - 1], 2.0);
    r := regs[inst.destReg + n - 1 := LaneValue(u, regs, inst, n - 1)];
  }

  /** Products of registers that hold two or more stay so, and are at least four. */
  lemma {:induction false} ProductsGrow(u: Units, regs: Registers, inst: SIMDInstruction, n: nat) returns (r: Registers)
    requires inst.op == HADAMARD && n <= Lanes(|regs|, inst) && AllAtLeast(regs, 2.0)
    ensures r == AfterLanes(u, regs, inst, n) && AllAtLeast(r, 2.0) && Multiplied(r, inst.destReg, n)
  {
    if n == 0 {
      r := regs;
    } else {
      var before := ProductsGrow(u, regs, inst, n - 1);
      r := ProductStep(u, before, inst, n);
    }
  }

  lemma AtLeast(a: real, x: real, b: real, y: real)
    requires a >= x >= 0.0 && b >= y >= 0.0
    ensures a * b >= x * y
  {
    assert (a - x) * b >= 0.0 && x * (b - y) >= 0.0;
    assert a * b == (a - x) * b + x * (b - y) + x * y;
  }

  /** A lane that reads a register written before it multiplies by four or more. */
  lemma FedProduct(u: Units, regs: Registers, inst: SIMDInstruction, n: nat, i: nat)
    requires inst.op == HADAMARD && i < n <= Lanes(|regs|, inst)
    requires forall j :: 0 <= j < |regs| ==> regs[j] == 2.0
    requires inst.src1Reg + i == inst.destReg || inst.src2Reg + i == inst.destReg
    requires 0 < i
    ensures AfterLanes(u, regs, inst, i + 1)[inst.destReg + i] >= 8.0
  {
    var before := ProductsGrow(u, regs, inst, i);
    var a, b := before[inst.src1Reg + i], before[inst.src2Reg + i];
    if a >= 4.0 {
      AtLeast(a, 4.0, b, 2.0);
    } else {
      AtLeast(a, 2.0, b, 4.0);
    }
  }

  lemma {:induction false} LaneStays(u: Units, regs: Registers, inst: SIMDInstruction, n: nat, i: nat)
    requires i < n <= Lanes(|regs|, inst)
    ensures AfterLanes(u, regs, inst, n)[inst.destReg + i] == AfterLanes(u, regs, inst, i + 1)[inst.destReg + i]
  {
    if n == i + 1 {
    } else {
      LaneStays(u, regs, inst, n - 1, i);
    }
  }

  lemma ProductSimultaneousIff(inst: SIMDInstruction, size: nat, n: nat)
    requires inst.op == HADAMARD && n <= Lanes(size, inst)
    ensures (forall u: Units, regs: Registers :: |regs| == size ==> Simultaneous(u, regs, inst, n))
            <==> !FeedsBack(inst.src1Reg, inst.destReg, n) && !FeedsBack(inst.src2Reg, inst.destReg, n)
  {
    if FeedsBack(inst.src1Reg, inst.destReg, n) || FeedsBack(inst.src2Reg, inst.destReg, n) {
      var u, regs := Counting(), Twos(size);
      var i := inst.destReg - if FeedsBack(inst.src1Reg, inst.destReg, n) then inst.src1Reg else inst.src2Reg;
      FedProduct(u, regs, inst, n, i);
      LaneStays(u, regs, inst, n, i);
      assert LaneValue(u, regs, inst, i) == 4.0;
      assert !Simultaneous(u, regs, inst, n);
    } else {
      forall u: Units, regs: Registers | |regs| == size
        ensures Simultaneous(u, regs, inst, n)
      {
        forall i | 0 <= i < n
          ensures AfterLanes(u, regs, inst, n)[inst.destReg + i] == LaneValue(u, regs, inst, i)
        {
          ProductIsSimultaneous(u, regs, inst, n, i);
        }
      }
    }
  }

  /** The first n lanes write nothing outside their n destinations. */
  lemma {:induction false} Untouched(u: Units, regs: Registers, inst: SIMDInstruction, n: nat, r: nat)
    requires n <= Lanes(|regs|, inst) && r < |regs| && !(inst.destReg <= r < inst.destReg + n)
    ensures AfterLanes(u, regs, inst, n)[r] == regs[r]
  {
    if n == 0 {
    } else {
      Untouched(u, regs, inst, n - 1, r);
    }
  }

  /** Lane i of an overlap reads lane i - gap, and so on down to lane Root, after Passes reads. */
  function Passes(i: nat, gap: nat): nat
    requires gap > 0
  {
    if i < gap then 1 else 1 + Passes(i - gap, gap)
  }

  function Root(i: nat, gap: nat): (lane: nat)
    requires gap > 0
    ensures lane < gap && lane <= i
  {
    if i < gap then i else Root(i - gap, gap)
  }

  lemma {:induction false} PassesDivide(i: nat, gap: nat)
    requires gap > 0
    ensures Passes(i, gap) == i / gap + 1 && Root(i, gap) == i % gap
  {
    if i < gap {
      Arith.DivModUnique(i, gap, 0, i);
    } else {
      PassesDivide(i - gap, gap);
      Arith.DivModUnique(i, gap, (i - gap) / gap + 1, (i - gap) % gap);
    }
  }

  /**
   * A destination `gap` registers above the source feeds on its own results: lane i holds the
   * function iterated once more for every full gap below it.
   */
  lemma {:induction false} OverlapIterates(u: Units, regs: Registers, inst: SIMDInstruction, n: nat, i: nat)
    requires Unary(inst) && i < n <= Lanes(|regs|, inst) && inst.destReg > inst.src1Reg
    ensures var gap := inst.destReg - inst.src1Reg;
      AfterLanes(u, regs, inst, n)[inst.destReg + i]
      == Iterated(Curve(u, inst), Passes(i, gap), regs[inst.src1Reg + Root(i, gap)])
    decreases i, 1
  {
    LaneStays(u, regs, inst, n, i);
    LastOverlap(u, regs, inst, i + 1, inst.destReg - inst.src1Reg);
  }

  /** The lane written last reads the result one gap below, or an old value in the first gap. */
  lemma {:induction false} LastOverlap(u: Units, regs: Registers, inst: SIMDInstruction, n: nat, gap: nat)
    requires Unary(inst) && 0 < n <= Lanes(|regs|, inst) && 0 < gap == inst.destReg - inst.src1Reg
    ensures AfterLanes(u, regs, inst, n)[inst.destReg + n - 1]
         == Iterated(Curve(u, inst), Passes(n - 1, gap), regs[inst.src1Reg + Root(n - 1, gap)])
    decreases n - 1, 0
  {
    LastLane(u, regs, inst, n);
    if n - 1 < gap {
      Untouched(u, regs, inst, n - 1, inst.src1Reg + n - 1);
    } else {
      OverlapIterates(u, regs, inst, n - 1, n - 1 - gap);
    }
    OnePassMore(Curve(u, inst), n - 1, gap, regs[inst.src1Reg + Root(n - 1, gap)]);
  }

  lemma OnePassMore(f: real -> real, i: nat, gap: nat, x: real)
    requires 0 < gap
    ensures i < gap ==> Root(i, gap) == i && Iterated(f, Passes(i, gap), x) == f(x)
    ensures gap <= i ==> Root(i, gap) == Root(i - gap, gap)
    ensures gap <= i ==> Iterated(f, Passes(i, gap), x) == f(Iterated(f, Passes(i - gap, gap), x))
  {
    assert Iterated(f, 0, x) == x;
  }

  lemma LastLane(u: Units, regs: Registers, inst: SIMDInstruction, n: nat)
    requires Unary(inst) && 0 < n <= Lanes(|regs|, inst)
    ensures AfterLanes(u, regs, inst, n)[inst.destReg + n - 1]
         == Curve(u, inst)(AfterLanes(u, regs, inst, n - 1)[inst.src1Reg + n - 1])
  {
  }
}
