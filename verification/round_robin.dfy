/** The wave loop serves the ports exactly as one-at-a-time round robin would. */
module RoundRobin {
  import opened Ports
  import opened Admission

  // ---- the simple specification

  datatype Served = Served(queues: Queues, cursor: Port, order: seq<Port>)

  /** Pick the next port, pop its head, move the cursor past it; nothing when all are empty. */
  function Serve(r: Served): Served {
    var pc := Pick(r.queues, r.cursor);
    if pc == -1 then r
    else Served(r.queues[pc := r.queues[pc][1..]], Visit(pc, 1), r.order + [pc])
  }

  function ServeTimes(r: Served, m: nat): Served {
    if m == 0 then r else Serve(ServeTimes(r, m - 1))
  }

  // ---- the assumptions

  predicate UniformSizes(q: Queues, size: nat) {
    forall p: Port, i :: 0 <= i < |q[p]| ==> q[p][i].sizeBytes == size
  }

  /** A memory that accepts everything, no serialization, and no cap or one burst size. */
  ghost predicate Plain(k: Knobs, out: Outside, q: Queues, size: nat) {
    && (forall n :: out.answers(n)) && !k.serialize
    && (k.peakGbps <= 0.0 || UniformSizes(q, size))
  }

  /** No further burst of the common size fits into this cycle. */
  ghost predicate Exhausted(k: Knobs, s: State, size: nat) {
    k.peakGbps > 0.0 && s.used + size as real > Limit(k) + EPSILON
  }

  /** The ports of the sends made after the first n. */
  ghost function PortsAfter(s: State, n: nat): seq<Port>
    requires n <= |s.sends|
  {
    seq<Port>(|s.sends| - n, i requires 0 <= i < |s.sends| - n => s.sends[n + i].pc)
  }

  /** State s has served, since s0, what round robin serves in m steps. */
  ghost predicate Follows(s0: State, s: State, m: nat) {
    && s0.sends <= s.sends && |s.sends| == |s0.sends| + m && s.outstanding == s0.outstanding + m
    && (forall j :: |s0.sends| <= j < |s.sends| ==> s.sends[j].accepted)
    && ServeTimes(Served(s0.queues, s0.cursor, []), m) == Served(s.queues, s.cursor, PortsAfter(s, |s0.sends|))
  }

  /** What a sweep has still to visit is what round robin would pick next. */
  ghost predicate InPlace(s: State, start: Port, n: nat)
    requires n <= 16
  {
    PickFrom(s.queues, start, n) != -1 ==> Pick(s.queues, s.cursor) == PickFrom(s.queues, start, n)
  }

  lemma {:induction false} PickShifts(q: Queues, start: Port, n: nat, j: nat)
    requires n + j <= 16 && PickFrom(q, start, n + j) != -1
    ensures PickFrom(q, Visit(start, n), j) == PickFrom(q, start, n + j)
    decreases 16 - j
  {
    assert n + j < 16;
    assert Visit(Visit(start, n), j) == Visit(start, n + j);
    if q[Visit(start, n + j)] == [] {
      PickShifts(q, start, n, j + 1);
    }
  }

  lemma AcceptInPlace(s: State, start: Port, n: nat)
    requires n < 16 && s.queues[Visit(start, n)] != []
    ensures InPlace(Accept(s, Visit(start, n)), start, n + 1)
  {
    var s' := Accept(s, Visit(start, n));
    assert s'.cursor == Visit(start, n + 1);
    if PickFrom(s'.queues, start, n + 1) != -1 {
      PickShifts(s'.queues, start, n + 1, 0);
    }
  }

  lemma UniformPop(q: Queues, pc: Port, size: nat)
    requires q[pc] != [] && UniformSizes(q, size)
    ensures UniformSizes(q[pc := q[pc][1..]], size)
  {
  }

  lemma AcceptFollows(s0: State, s: State, m: nat, pc: Port)
    requires Follows(s0, s, m) && s.queues[pc] != [] && Pick(s.queues, s.cursor) == pc
    ensures Follows(s0, Accept(s, pc), m + 1)
  {
    var s' := Accept(s, pc);
    assert PortsAfter(s', |s0.sends|) == PortsAfter(s, |s0.sends|) + [pc];
  }

  /** Where a sweep stands after n visits: in place for the next one, or out of budget for good. */
  ghost predicate Standing(k: Knobs, out: Outside, s0: State, s: State, start: Port, n: nat, size: nat, m: nat)
    requires n <= 16
  {
    Plain(k, out, s.queues, size) && Follows(s0, s, m) && (Exhausted(k, s, size) || InPlace(s, start, n))
  }

  lemma AttemptStands(k: Knobs, out: Outside, s0: State, s: State, start: Port, n: nat, size: nat, m: nat)
    returns (m': nat)
    requires n < 16 && Standing(k, out, s0, s, start, n, size, m)
    ensures Standing(k, out, s0, Attempt(k, out, s, Visit(start, n)), start, n + 1, size, m')
  {
    var pc := Visit(start, n);
    m' := m;
    if s.queues[pc] != [] {
      if OverBudget(k, s, s.queues[pc][0]) {
        assert Exhausted(k, s, size);
      } else {
        NotExhausted(k, out, s, pc, size);
        AcceptStands(k, out, s0, s, start, n, size, m);
        m' := m + 1;
      }
    }
  }

  lemma NotExhausted(k: Knobs, out: Outside, s: State, pc: Port, size: nat)
    requires Plain(k, out, s.queues, size) && s.queues[pc] != [] && !OverBudget(k, s, s.queues[pc][0])
    ensures !Exhausted(k, s, size) && Attempt(k, out, s, pc) == Accept(s, pc)
  {
  }

  lemma AcceptStands(k: Knobs, out: Outside, s0: State, s: State, start: Port, n: nat, size: nat, m: nat)
    requires n < 16 && Plain(k, out, s.queues, size) && Follows(s0, s, m) && InPlace(s, start, n)
    requires s.queues[Visit(start, n)] != []
    ensures Standing(k, out, s0, Accept(s, Visit(start, n)), start, n + 1, size, m + 1)
  {
    var pc := Visit(start, n);
    AcceptInPlace(s, start, n);
    AcceptFollows(s0, s, m, pc);
    if k.peakGbps > 0.0 {
      UniformPop(s.queues, pc, size);
    }
  }

  lemma {:induction false} SweptStands(k: Knobs, out: Outside, s0: State, s: State, start: Port, n: nat, size: nat,
                                       m: nat)
    returns (m': nat)
    requires n <= 16 && Standing(k, out, s0, s, start, 0, size, m)
    ensures Standing(k, out, s0, Swept(k, out, s, start, n), start, n, size, m')
  {
    if n == 0 {
      m' := m;
    } else {
      m' := SweptStands(k, out, s0, s, start, n - 1, size, m);
      m' := AttemptStands(k, out, s0, Swept(k, out, s, start, n - 1), start, n - 1, size, m');
    }
  }

  /** State s has served, since s0, what round robin serves in some number of steps. */
  ghost predicate Refines(k: Knobs, out: Outside, s0: State, s: State, size: nat) {
    exists m :: Plain(k, out, s.queues, size) && Follows(s0, s, m)
  }

  lemma WaveFollows(k: Knobs, out: Outside, s0: State, s: State, size: nat)
    requires Refines(k, out, s0, s, size)
    ensures Refines(k, out, s0, Wave(k, out, s), size)
  {
    var m :| Plain(k, out, s.queues, size) && Follows(s0, s, m);
    var m' := SweptStands(k, out, s0, s, s.cursor, 16, size, m);
  }

  lemma {:induction false} WavesFollow(k: Knobs, out: Outside, s0: State, s: State, n: nat, size: nat)
    requires n <= MAX_WAVES && Refines(k, out, s0, s, size)
    ensures Refines(k, out, s0, Waves(k, out, s, n), size)
    decreases MAX_WAVES - n
  {
    if n == MAX_WAVES {
    } else {
      WaveFollows(k, out, s0, s, size);
      if Progress(s, Wave(k, out, s)) {
        WavesFollow(k, out, s0, Wave(k, out, s), n + 1, size);
      }
    }
  }

  /**
   * Arbiter refinement: with an accepting memory, no serialization, and no cap or one burst
   * size, the ports served in one cycle, the queues left over and the final cursor are those of
   * m steps of pick, pop and advance, where m is the number of bursts admitted.
   */
  lemma WavesRefineRoundRobin(k: Knobs, out: Outside, s: State, size: nat)
    requires Plain(k, out, s.queues, size)
    ensures var e := Waves(k, out, s, 0);
      e.outstanding >= s.outstanding && Follows(s, e, e.outstanding - s.outstanding)
  {
    assert PortsAfter(s, |s.sends|) == [];
    assert Follows(s, s, 0);
    WavesFollow(k, out, s, s, 0, size);
  }
}
