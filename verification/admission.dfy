/** The simulator's cycle loop: batched round-robin admission to a memory of unknown behaviour. */
module Admission {
  import opened Ports

  /** The cap in GB/s (none when not positive), the clock period in ns, and the serialization knob. */
  datatype Knobs = Knobs(peakGbps: real, tckNs: real, serialize: bool)

  /**
   * Everything the simulator does not decide: the answer to each send call, in order; the
   * positions of the in-flight requests that each memory tick completes; and, per cycle, the
   * bursts that the attached hardware enqueues and whether that hardware is still busy.
   */
  datatype Outside = Outside(answers: nat -> bool, completions: nat -> seq<nat>,
                             arrivals: nat -> seq<MemoryBurst>, busy: nat -> bool)

  datatype Send = Send(pc: Port, burst: MemoryBurst, accepted: bool)

  datatype State = State(queues: Queues, cursor: Port, inflight: seq<MemoryBurst>, used: real,
                         admittedBytes: nat, outstanding: nat, sparse: nat, completed: nat, bytesDone: nat,
                         sends: seq<Send>, cycles: nat)

  const EPSILON: real := 0.000001

  const MAX_WAVES: nat := 256

  /** Bytes that one memory cycle may admit under a positive cap. */
  function Limit(k: Knobs): real {
    k.peakGbps * 1000000000.0 * (k.tckNs * 0.000000001)
  }

  /** A cache-line read without a callback, which the serialization knob holds back. */
  predicate StandardSparse(b: MemoryBurst) {
    b.sizeBytes >= 64 && b.onComplete == NoCallback
  }

  predicate Held(k: Knobs, s: State, b: MemoryBurst) {
    k.serialize && StandardSparse(b) && s.sparse > 0
  }

  predicate OverBudget(k: Knobs, s: State, b: MemoryBurst) {
    k.peakGbps > 0.0 && s.used + b.sizeBytes as real > Limit(k) + EPSILON
  }

  /** Port pc's head enters the memory. */
  function Accept(s: State, pc: Port): State
    requires s.queues[pc] != []
  {
    var b := s.queues[pc][0];
    s.(queues := s.queues[pc := s.queues[pc][1..]], cursor := Visit(pc, 1), inflight := s.inflight + [b],
       used := s.used + b.sizeBytes as real, admittedBytes := s.admittedBytes + b.sizeBytes,
       outstanding := s.outstanding + 1, sparse := s.sparse + (if StandardSparse(b) then 1 else 0),
       sends := s.sends + [Send(pc, b, true)])
  }

  /** One visit of a sweep. */
  function Attempt(k: Knobs, out: Outside, s: State, pc: Port): State {
    if s.queues[pc] == [] then s
    else
      var b := s.queues[pc][0];
      if Held(k, s, b) || OverBudget(k, s, b) then s
      else if out.answers(|s.sends|) then Accept(s, pc)
      else s.(sends := s.sends + [Send(pc, b, false)])
  }

  /** The first n visits of a sweep that starts at port start. */
  function Swept(k: Knobs, out: Outside, s: State, start: Port, n: nat): State {
    if n == 0 then s else Attempt(k, out, Swept(k, out, s, start, n - 1), Visit(start, n - 1))
  }

  /** One full sweep from the cursor. */
  function Wave(k: Knobs, out: Outside, s: State): State {
    Swept(k, out, s, s.cursor, 16)
  }

  /** Whether a later state has admitted more than an earlier one. */
  predicate Progress(s: State, s': State) {
    s'.outstanding > s.outstanding
  }

  /** Waves, of which n have been used up, until one admits nothing. */
  function Waves(k: Knobs, out: Outside, s: State, n: nat): State
    requires n <= MAX_WAVES
    decreases MAX_WAVES - n, s.cycles
  {
    if n == MAX_WAVES then s
    else
      var s' := Wave(k, out, s);
      if Progress(s, s') then Waves(k, out, s', n + 1) else s'
  }

  /** The reply to the request at position i of those in flight, if there is one. */
  function Replied(s: State, i: nat): State {
    if i >= |s.inflight| then s
    else
      var b := s.inflight[i];
      s.(inflight := s.inflight[..i] + s.inflight[i + 1..], completed := s.completed + 1,
         bytesDone := s.bytesDone + b.sizeBytes,
         outstanding := if s.outstanding > 0 then s.outstanding - 1 else s.outstanding,
         sparse := if StandardSparse(b) && s.sparse > 0 then s.sparse - 1 else s.sparse)
  }

  function RepliedAll(s: State, positions: seq<nat>): State {
    if positions == [] then s else Replied(RepliedAll(s, positions[..|positions| - 1]), positions[|positions| - 1])
  }

  /** The state at the start of the waves of a cycle. */
  function Refilled(out: Outside, s: State): State {
    s.(queues := EnqueuedAll(s.queues, out.arrivals(s.cycles)), used := 0.0)
  }

  /** One memory cycle. */
  function Cycled(k: Knobs, out: Outside, s: State): State {
    var s1 := Waves(k, out, Refilled(out, s), 0);
    RepliedAll(s1, out.completions(s.cycles)).(cycles := s.cycles + 1)
  }

  /** The hardware is busy in cycle c, or a burst is in flight or waits at a port. */
  ghost predicate AtWork(out: Outside, s: State, c: nat) {
    out.busy(c) || s.inflight != [] || exists p: Port :: s.queues[p] != []
  }

  /** The state after n cycles. */
  ghost function After(k: Knobs, out: Outside, s: State, n: nat): State {
    if n == 0 then s else Cycled(k, out, After(k, out, s, n - 1))
  }

  /** Before each of the first n cycles there was something to do. */
  ghost predicate AtWorkFor(k: Knobs, out: Outside, s: State, n: nat) {
    forall c: nat :: c < n ==> AtWork(out, After(k, out, s, c), c)
  }

  lemma NextCycle(k: Knobs, out: Outside, s: State, n: nat)
    requires AtWorkFor(k, out, s, n) && AtWork(out, After(k, out, s, n), n)
    ensures After(k, out, s, n + 1) == Cycled(k, out, After(k, out, s, n))
    ensures AtWorkFor(k, out, s, n + 1)
  {
  }

  /** A run begins with the ports as they are and everything else at zero. */
  function Begun(q: Queues, cursor: Port): State {
    State(q, cursor, [], 0.0, 0, 0, 0, 0, 0, [], 0)
  }

  datatype SimulationResult = SimulationResult(memoryCycles: nat, bytesMoved: nat, burstsCompleted: nat, tckNs: real,
                                               tsvBytesAdmitted: nat, tsvPeakGbps: real)
  {
    function EffectiveGbps(): real {
      if memoryCycles == 0 || tckNs <= 0.0 then 0.0
      else
        var seconds := memoryCycles as real * (tckNs * 0.000000001);
        if seconds <= 0.0 then 0.0 else bytesMoved as real / seconds / 1000000000.0
    }
  }

  function ResultOf(k: Knobs, s: State): SimulationResult {
    SimulationResult(s.cycles, s.bytesDone, s.completed, k.tckNs, s.admittedBytes, k.peakGbps)
  }

  class RamulatorHbmSimulator {
    const knobs: Knobs
    const out: Outside
    const mux: PseudoChannelMultiplexer
    var inflight: seq<MemoryBurst>
    var sendCount: nat
    var used: real
    var admittedBytes: nat
    var outstanding: nat
    var sparse: nat
    var completed: nat
    var bytesDone: nat
    var cycles: nat
    ghost var sends: seq<Send>

    ghost predicate Valid()
      reads this
    {
      mux.Valid() && sendCount == |sends| && outstanding == |inflight|
    }

    ghost function Now(): State
      requires Valid()
      reads this, mux, mux.ports
    {
      State(mux.Contents(), mux.rrCursor, inflight, used, admittedBytes, outstanding, sparse, completed, bytesDone,
            sends, cycles)
    }

    constructor (knobs: Knobs, out: Outside, mux: PseudoChannelMultiplexer)
      requires mux.Valid()
      ensures Valid() && this.knobs == knobs && this.out == out && this.mux == mux
    {
      this.knobs, this.out, this.mux := knobs, out, mux;
      inflight, sendCount, used, sends := [], 0, 0.0, [];
      admittedBytes, outstanding, sparse, completed, bytesDone, cycles := 0, 0, 0, 0, 0, 0;
    }

    /** Offers the head of port pc to the memory, unless the port is empty, held or over budget. */
    method TryPort(pc: Port) returns (progress: bool)
      requires Valid()
      modifies this, mux`rrCursor, mux.ports
      ensures Valid() && Now() == Attempt(knobs, out, old(Now()), pc)
      ensures progress <==> Progress(old(Now()), Now())
      ensures cycles == old(cycles)
    {
      if mux.ports[pc] == [] {
        return false;
      }
      var burst := mux.ports[pc][0];
      var isSparse := burst.sizeBytes >= 64 && burst.onComplete == NoCallback;
      if knobs.serialize && isSparse && sparse > 0 {
        return false;
      }
      if knobs.peakGbps > 0.0 && used + burst.sizeBytes as real > Limit(knobs) + EPSILON {
        return false;
      }
      progress := out.answers(sendCount);
      sendCount := sendCount + 1;
      sends := sends + [Send(pc, burst, progress)];
      if progress {
        Issue(pc, burst, isSparse);
      }
    }

    /** Accounts for a burst that the memory has accepted. */
    method Issue(pc: Port, burst: MemoryBurst, isSparse: bool)
      requires mux.Valid() && mux.ports[pc] != [] && mux.ports[pc][0] == burst && isSparse == StandardSparse(burst)
      requires outstanding == |inflight| && sendCount == |sends|
      requires sends != [] && sends[|sends| - 1] == Send(pc, burst, true)
      modifies this`inflight, this`used, this`admittedBytes, this`outstanding, this`sparse, mux`rrCursor, mux.ports
      ensures Valid() && Now() == Accept(old(Now()).(sends := sends[..|sends| - 1]), pc)
    {
      mux.ports[pc] := mux.ports[pc][1..];
      mux.AdvanceAfterIssue(pc);
      inflight := inflight + [burst];
      used := used + burst.sizeBytes as real;
      admittedBytes := admittedBytes + burst.sizeBytes;
      outstanding := outstanding + 1;
      if isSparse {
        sparse := sparse + 1;
      }
    }

    /** One sweep over the sixteen ports from the cursor. */
    method Sweep() returns (progress: bool)
      requires Valid()
      modifies this, mux`rrCursor, mux.ports
      ensures Valid() && Now() == Wave(knobs, out, old(Now()))
      ensures progress <==> Progress(old(Now()), Now())
      ensures cycles == old(cycles)
    {
      progress := false;
      var start := mux.rrCursor;
      ghost var before := Now();
      for n := 0 to 16
        invariant Valid() && Now() == Swept(knobs, out, before, start, n)
        invariant outstanding >= before.outstanding && cycles == before.cycles
        invariant progress <==> Progress(before, Now())
      {
        var admitted := TryPort(Visit(start, n));
        progress := progress || admitted;
      }
    }

    /** Waves until one of them admits nothing, but at most 256. */
    method Admit()
      requires Valid()
      modifies this, mux`rrCursor, mux.ports
      ensures Valid() && Now() == Waves(knobs, out, old(Now()), 0)
      ensures cycles == old(cycles)
    {
      ghost var before := Now();
      var count, progress := 0, true;
      while progress && count < MAX_WAVES
        invariant Valid() && count <= MAX_WAVES && cycles == before.cycles
        invariant Waves(knobs, out, before, 0) == if progress then Waves(knobs, out, Now(), count) else Now()
        decreases MAX_WAVES - count
      {
        count := count + 1;
        progress := Sweep();
      }
    }

    /** The callback of the request at position i of those in flight. */
    method Reply(i: nat)
      requires Valid()
      modifies this
      ensures Valid() && Now() == Replied(old(Now()), i)
      ensures cycles == old(cycles)
    {
      if i >= |inflight| {
        return;
      }
      var b := inflight[i];
      inflight := inflight[..i] + inflight[i + 1..];
      completed := completed + 1;
      bytesDone := bytesDone + b.sizeBytes;
      if outstanding > 0 {
        outstanding := outstanding - 1;
      }
      if StandardSparse(b) && sparse > 0 {
        sparse := sparse - 1;
      }
    }

    /** The memory completes the requests at the given positions, one after the other. */
    method MemoryTick(positions: seq<nat>)
      requires Valid()
      modifies this
      ensures Valid() && Now() == RepliedAll(old(Now()), positions)
      ensures cycles == old(cycles)
    {
      ghost var before := Now();
      for i := 0 to |positions|
        invariant Valid() && Now() == RepliedAll(before, positions[..i]) && cycles == before.cycles
      {
        Reply(positions[i]);
        assert positions[..i + 1][..i] == positions[..i];
      }
      assert positions[..|positions|] == positions;
    }

    /** The attached hardware enqueues its bursts of this cycle. */
    method TakeArrivals(bursts: seq<MemoryBurst>)
      requires Valid()
      modifies mux.ports
      ensures Valid() && Now() == old(Now()).(queues := EnqueuedAll(old(Now()).queues, bursts))
    {
      ghost var q := mux.Contents();
      for i := 0 to |bursts|
        invariant mux.Contents() == EnqueuedAll(q, bursts[..i])
      {
        mux.Enqueue(bursts[i]);
        assert bursts[..i + 1][..i] == bursts[..i];
      }
      assert bursts[..|bursts|] == bursts;
    }

    /** Clears what a run counts from zero. */
    method Begin()
      requires Valid()
      modifies this
      ensures Valid() && Now() == Begun(mux.Contents(), mux.rrCursor)
    {
      inflight, sendCount, used, sends := [], 0, 0.0, [];
      admittedBytes, outstanding, sparse, completed, bytesDone, cycles := 0, 0, 0, 0, 0, 0;
    }

    method PollWork() returns (work: bool)
      requires Valid()
      ensures work <==> AtWork(out, Now(), cycles)
    {
      var pending := mux.TotalPendingBursts();
      PendingZero(mux.Contents(), 16);
      return out.busy(cycles) || pending > 0 || outstanding > 0;
    }

    /**
     * Runs until there is no work left or the cycle limit is reached. It returns early only when
     * the hardware is idle, every port is empty and nothing is in flight, and before every cycle
     * that it ran one of the three was not so; hardware that stays busy keeps it going to the limit.
     */
    method Run(maxCycles: nat) returns (result: SimulationResult)
      requires Valid()
      modifies this, mux`rrCursor, mux.ports
      ensures Valid() && cycles <= maxCycles
      ensures Now() == After(knobs, out, Begun(old(mux.Contents()), old(mux.rrCursor)), cycles)
      ensures cycles < maxCycles ==> !out.busy(cycles) && inflight == [] && forall p: Port :: mux.ports[p] == []
      ensures forall c: nat :: c < cycles ==>
        var s := After(knobs, out, Begun(old(mux.Contents()), old(mux.rrCursor)), c);
        out.busy(c) || s.inflight != [] || exists p: Port :: s.queues[p] != []
      ensures (forall c: nat :: c < maxCycles ==> out.busy(c)) ==> cycles == maxCycles
      ensures result == SimulationResult(cycles, bytesDone, completed, knobs.tckNs, admittedBytes, knobs.peakGbps)
      ensures result == ResultOf(knobs, Now())
    {
      ghost var begun := Begun(mux.Contents(), mux.rrCursor);
      Begin();
      var work := PollWork();
      while cycles < maxCycles && work
        invariant Valid() && cycles <= maxCycles && work == AtWork(out, Now(), cycles)
        invariant Now() == After(knobs, out, begun, cycles) && AtWorkFor(knobs, out, begun, cycles)
        decreases maxCycles - cycles
      {
        RunNext(begun);
        work := PollWork();
      }
      result := SimulationResult(cycles, bytesDone, completed, knobs.tckNs, admittedBytes, knobs.peakGbps);
    }

    /** One more cycle of a run that began in `begun` and has work to do. */
    method RunNext(ghost begun: State)
      requires Valid() && Now() == After(knobs, out, begun, cycles)
      requires AtWorkFor(knobs, out, begun, cycles) && AtWork(out, Now(), cycles)
      modifies this, mux`rrCursor, mux.ports
      ensures Valid() && Now() == After(knobs, out, begun, cycles) && cycles == old(cycles) + 1
      ensures AtWorkFor(knobs, out, begun, cycles)
    {
      NextCycle(knobs, out, begun, cycles);
      RunCycle();
    }

    method RunCycle()
      requires Valid()
      modifies this, mux`rrCursor, mux.ports
      ensures Valid() && Now() == Cycled(knobs, out, old(Now()))
      ensures cycles == old(cycles) + 1
    {
      TakeArrivals(out.arrivals(cycles));
      used := 0.0;
      Admit();
      MemoryTick(out.completions(cycles));
      cycles := cycles + 1;
    }
  }
}
