/** What every run of the cycle loop keeps, under any behaviour of the memory. */
module AdmissionRun {
  import opened Ports
  import opened Admission

  // ---- sums over bursts

  function Bytes(bs: seq<MemoryBurst>): nat {
    if bs == [] then 0 else Bytes(bs[..|bs| - 1]) + bs[|bs| - 1].sizeBytes
  }

  function SparseCount(bs: seq<MemoryBurst>): nat {
    if bs == [] then 0 else SparseCount(bs[..|bs| - 1]) + if StandardSparse(bs[|bs| - 1]) then 1 else 0
  }

  lemma {:induction false} SumsSplit(a: seq<MemoryBurst>, b: seq<MemoryBurst>)
    ensures Bytes(a + b) == Bytes(a) + Bytes(b) && SparseCount(a + b) == SparseCount(a) + SparseCount(b)
  {
    if b == [] {
      assert a + b == a;
    } else {
      assert (a + b)[..|a + b| - 1] == a + b[..|b| - 1];
      SumsSplit(a, b[..|b| - 1]);
    }
  }

  lemma SumsOfOne(b: MemoryBurst)
    ensures Bytes([b]) == b.sizeBytes && SparseCount([b]) == if StandardSparse(b) then 1 else 0
  {
    assert [b][..0] == [];
  }

  lemma SumsAppend(bs: seq<MemoryBurst>, b: MemoryBurst)
    ensures Bytes(bs + [b]) == Bytes(bs) + b.sizeBytes
    ensures SparseCount(bs + [b]) == SparseCount(bs) + if StandardSparse(b) then 1 else 0
  {
    SumsSplit(bs, [b]);
    SumsOfOne(b);
  }

  lemma SumsAround(a: seq<MemoryBurst>, x: MemoryBurst, b: seq<MemoryBurst>)
    ensures Bytes(a + [x] + b) == Bytes(a + b) + x.sizeBytes
    ensures SparseCount(a + [x] + b) == SparseCount(a + b) + if StandardSparse(x) then 1 else 0
  {
    SumsAppend(a, x);
    SumsSplit(a + [x], b);
    SumsSplit(a, b);
  }

  lemma SumsRemove(bs: seq<MemoryBurst>, i: nat)
    requires i < |bs|
    ensures Bytes(bs[..i] + bs[i + 1..]) == Bytes(bs) - bs[i].sizeBytes
    ensures SparseCount(bs[..i] + bs[i + 1..]) == SparseCount(bs) - if StandardSparse(bs[i]) then 1 else 0
  {
    SumsAround(bs[..i], bs[i], bs[i + 1..]);
    Rejoined(bs, i);
  }

  lemma Rejoined(bs: seq<MemoryBurst>, i: nat)
    requires i < |bs|
    ensures bs[..i] + [bs[i]] + bs[i + 1..] == bs
  {
  }

  // ---- the history of a run

  /** The bursts that the memory accepted from port p, in order. */
  function AcceptedFrom(sends: seq<Send>, p: Port): seq<MemoryBurst> {
    if sends == [] then []
    else
      var x := sends[|sends| - 1];
      AcceptedFrom(sends[..|sends| - 1], p) + if x.accepted && x.pc == p then [x.burst] else []
  }

  function AcceptedCount(sends: seq<Send>): nat {
    if sends == [] then 0 else AcceptedCount(sends[..|sends| - 1]) + if sends[|sends| - 1].accepted then 1 else 0
  }

  /** The counters agree with the requests in flight. */
  ghost predicate CountsAgree(k: Knobs, s: State) {
    && s.outstanding == |s.inflight|
    && AcceptedCount(s.sends) == s.completed + |s.inflight|
    && s.admittedBytes == s.bytesDone + Bytes(s.inflight)
    && s.sparse == SparseCount(s.inflight)
    && (k.serialize ==> s.sparse <= 1)
  }

  /** Port p has sent and still holds, in order, exactly what was enqueued there. */
  ghost predicate InOrder(s: State, enqueued: Queues, p: Port) {
    AcceptedFrom(s.sends, p) + s.queues[p] == enqueued[p]
  }

  lemma AcceptCounts(k: Knobs, s: State, pc: Port)
    requires CountsAgree(k, s) && s.queues[pc] != [] && !Held(k, s, s.queues[pc][0])
    ensures CountsAgree(k, Accept(s, pc))
  {
    var b := s.queues[pc][0];
    SumsAppend(s.inflight, b);
    assert (s.sends + [Send(pc, b, true)])[..|s.sends|] == s.sends;
  }

  lemma AttemptCounts(k: Knobs, out: Outside, s: State, pc: Port)
    requires CountsAgree(k, s)
    ensures CountsAgree(k, Attempt(k, out, s, pc))
  {
    if s.queues[pc] != [] {
      var b := s.queues[pc][0];
      if !Held(k, s, b) && !OverBudget(k, s, b) {
        if out.answers(|s.sends|) {
          AcceptCounts(k, s, pc);
        } else {
          assert (s.sends + [Send(pc, b, false)])[..|s.sends|] == s.sends;
        }
      }
    }
  }

  lemma AcceptOrder(s: State, pc: Port, enqueued: Queues, p: Port)
    requires InOrder(s, enqueued, p) && s.queues[pc] != []
    ensures InOrder(Accept(s, pc), enqueued, p)
  {
    var b := s.queues[pc][0];
    assert (s.sends + [Send(pc, b, true)])[..|s.sends|] == s.sends;
    if pc == p {
      assert s.queues[p] == [b] + s.queues[p][1..];
    }
  }

  lemma RefuseOrder(s: State, x: Send, enqueued: Queues, p: Port)
    requires InOrder(s, enqueued, p) && !x.accepted
    ensures InOrder(s.(sends := s.sends + [x]), enqueued, p)
  {
    assert (s.sends + [x])[..|s.sends|] == s.sends;
  }

  lemma AttemptOrder(k: Knobs, out: Outside, s: State, pc: Port, enqueued: Queues, p: Port)
    requires InOrder(s, enqueued, p)
    ensures InOrder(Attempt(k, out, s, pc), enqueued, p)
  {
    if s.queues[pc] != [] && !Held(k, s, s.queues[pc][0]) && !OverBudget(k, s, s.queues[pc][0]) {
      if out.answers(|s.sends|) {
        AcceptOrder(s, pc, enqueued, p);
      } else {
        RefuseOrder(s, Send(pc, s.queues[pc][0], false), enqueued, p);
      }
    }
  }

  lemma {:induction false} SweptKeeps(k: Knobs, out: Outside, s: State, start: Port, n: nat, enqueued: Queues, p: Port)
    requires CountsAgree(k, s) && InOrder(s, enqueued, p)
    ensures CountsAgree(k, Swept(k, out, s, start, n)) && InOrder(Swept(k, out, s, start, n), enqueued, p)
  {
    if n == 0 {
    } else {
      SweptKeeps(k, out, s, start, n - 1, enqueued, p);
      AttemptCounts(k, out, Swept(k, out, s, start, n - 1), Visit(start, n - 1));
      AttemptOrder(k, out, Swept(k, out, s, start, n - 1), Visit(start, n - 1), enqueued, p);
    }
  }

  lemma {:induction false} WavesKeep(k: Knobs, out: Outside, s: State, n: nat, enqueued: Queues, p: Port)
    requires n <= MAX_WAVES && CountsAgree(k, s) && InOrder(s, enqueued, p)
    ensures CountsAgree(k, Waves(k, out, s, n)) && InOrder(Waves(k, out, s, n), enqueued, p)
    decreases MAX_WAVES - n
  {
    if n == MAX_WAVES {
    } else {
      SweptKeeps(k, out, s, s.cursor, 16, enqueued, p);
      if Progress(s, Wave(k, out, s)) {
        WavesKeep(k, out, Wave(k, out, s), n + 1, enqueued, p);
      }
    }
  }

  /** The guards of the completion callback never fire: its counters are positive when it runs. */
  lemma RepliedCounts(k: Knobs, s: State, i: nat)
    requires CountsAgree(k, s)
    ensures CountsAgree(k, Replied(s, i))
    ensures i < |s.inflight| ==> s.outstanding > 0 && (StandardSparse(s.inflight[i]) ==> s.sparse > 0)
  {
    if i < |s.inflight| {
      SumsRemove(s.inflight, i);
    }
  }

  lemma {:induction false} RepliesKeep(k: Knobs, s: State, positions: seq<nat>)
    requires CountsAgree(k, s)
    ensures CountsAgree(k, RepliedAll(s, positions))
  {
    if positions == [] {
    } else {
      RepliesKeep(k, s, positions[..|positions| - 1]);
      RepliedCounts(k, RepliedAll(s, positions[..|positions| - 1]), positions[|positions| - 1]);
    }
  }

  lemma {:induction false} RepliesOnlyComplete(s: State, positions: seq<nat>)
    ensures var s' := RepliedAll(s, positions);
      s'.queues == s.queues && s'.cursor == s.cursor && s'.sends == s.sends && s'.admittedBytes == s.admittedBytes
  {
    if positions == [] {
    } else {
      RepliesOnlyComplete(s, positions[..|positions| - 1]);
    }
  }

  lemma {:induction false} ArrivalsOrder(sent: seq<MemoryBurst>, q: Queues, enqueued: Queues, bs: seq<MemoryBurst>,
                                         p: Port)
    requires sent + q[p] == enqueued[p]
    ensures sent + EnqueuedAll(q, bs)[p] == EnqueuedAll(enqueued, bs)[p]
  {
    if bs == [] {
    } else {
      ArrivalsOrder(sent, q, enqueued, bs[..|bs| - 1], p);
    }
  }

  // ---- the guards of a visit, in plain terms

  lemma {:induction false} SparseCountIff(bs: seq<MemoryBurst>)
    ensures SparseCount(bs) > 0
      <==> exists i :: 0 <= i < |bs| && bs[i].sizeBytes >= 64 && bs[i].onComplete == NoCallback
  {
    if bs == [] {
    } else {
      var n := |bs| - 1;
      SparseCountIff(bs[..n]);
      if i :| 0 <= i < n && bs[..n][i].sizeBytes >= 64 && bs[..n][i].onComplete == NoCallback {
        assert bs[i] == bs[..n][i];
      }
      if i :| 0 <= i < |bs| && bs[i].sizeBytes >= 64 && bs[i].onComplete == NoCallback {
        assert i == n || bs[..n][i] == bs[i];
      }
    }
  }

  /**
   * A visit offers the head of a port to the memory if and only if there is one, it is not a read
   * of 64 bytes or more without a callback that serialization holds back behind another one in
   * flight, and under a positive cap it fits what is left of the cycle, up to a slack of 1e-6.
   */
  lemma OfferedIff(k: Knobs, out: Outside, s: State, pc: Port, limit: real)
    requires CountsAgree(k, s) && limit == k.peakGbps * 1000000000.0 * (k.tckNs * 0.000000001)
    ensures |s.sends| < |Attempt(k, out, s, pc).sends| <==>
      && s.queues[pc] != []
      && !(k.serialize && s.queues[pc][0].sizeBytes >= 64 && s.queues[pc][0].onComplete == NoCallback
           && exists i :: 0 <= i < |s.inflight|
                && s.inflight[i].sizeBytes >= 64 && s.inflight[i].onComplete == NoCallback)
      && !(k.peakGbps > 0.0 && s.used + s.queues[pc][0].sizeBytes as real > limit + 0.000001)
  {
    SparseCountIff(s.inflight);
  }

  /** Under serialization two such reads are never in flight together. */
  lemma OneSerializedRead(k: Knobs, s: State, i: nat, j: nat)
    requires CountsAgree(k, s) && k.serialize && i < j < |s.inflight|
    requires s.inflight[i].sizeBytes >= 64 && s.inflight[i].onComplete == NoCallback
    ensures s.inflight[j].sizeBytes < 64 || s.inflight[j].onComplete != NoCallback
  {
    SumsRemove(s.inflight, j);
    var rest := s.inflight[..j] + s.inflight[j + 1..];
    SparseCountIff(rest);
    assert rest[i] == s.inflight[i];
  }

  // ---- the memory ticks behind the waves of its cycle

  /** No serialized read has been accepted after the first n sends. */
  ghost predicate NoneSerialized(s: State, n: nat) {
    forall j :: n <= j < |s.sends| ==>
      s.sends[j].accepted ==> s.sends[j].burst.sizeBytes < 64 || s.sends[j].burst.onComplete != NoCallback
  }

  lemma AttemptHeld(k: Knobs, out: Outside, s: State, pc: Port, n: nat)
    requires k.serialize && s.sparse > 0 && n <= |s.sends| && NoneSerialized(s, n)
    ensures var s' := Attempt(k, out, s, pc); s'.sparse > 0 && s.sends <= s'.sends && NoneSerialized(s', n)
  {
  }

  lemma {:induction false} SweptHeld(k: Knobs, out: Outside, s: State, start: Port, m: nat, n: nat)
    requires k.serialize && s.sparse > 0 && n <= |s.sends| && NoneSerialized(s, n)
    ensures var s' := Swept(k, out, s, start, m); s'.sparse > 0 && s.sends <= s'.sends && NoneSerialized(s', n)
  {
    if m == 0 {
    } else {
      SweptHeld(k, out, s, start, m - 1, n);
      AttemptHeld(k, out, Swept(k, out, s, start, m - 1), Visit(start, m - 1), n);
    }
  }

  lemma {:induction false} WavesHeld(k: Knobs, out: Outside, s: State, m: nat, n: nat)
    requires m <= MAX_WAVES && k.serialize && s.sparse > 0 && n <= |s.sends| && NoneSerialized(s, n)
    ensures s.sends <= Waves(k, out, s, m).sends && NoneSerialized(Waves(k, out, s, m), n)
    decreases MAX_WAVES - m
  {
    if m == MAX_WAVES {
    } else {
      SweptHeld(k, out, s, s.cursor, 16, n);
      if Progress(s, Wave(k, out, s)) {
        WavesHeld(k, out, Wave(k, out, s), m + 1, n);
      }
    }
  }

  /**
   * The memory ticks behind the waves: a serialized read that is in flight when a cycle begins
   * keeps others out for the whole cycle, even if it completes in that very cycle.
   */
  lemma SlotStaysTaken(k: Knobs, out: Outside, s: State, i: nat, j: nat)
    requires CountsAgree(k, s) && k.serialize && i < |s.inflight|
    requires s.inflight[i].sizeBytes >= 64 && s.inflight[i].onComplete == NoCallback
    requires |s.sends| <= j < |Cycled(k, out, s).sends| && Cycled(k, out, s).sends[j].accepted
    ensures var b := Cycled(k, out, s).sends[j].burst; b.sizeBytes < 64 || b.onComplete != NoCallback
  {
    SparseCountIff(s.inflight);
    WavesHeld(k, out, Refilled(out, s), 0, |s.sends|);
    RepliesOnlyComplete(Waves(k, out, Refilled(out, s), 0), out.completions(s.cycles));
    assert NoneSerialized(Waves(k, out, Refilled(out, s), 0), |s.sends|);
  }

  /** Everything enqueued at each port in the first n cycles, after what was there before. */
  ghost function Enqueued(out: Outside, q: Queues, n: nat): Queues {
    if n == 0 then q else EnqueuedAll(Enqueued(out, q, n - 1), out.arrivals(n - 1))
  }

  lemma CycleKeeps(k: Knobs, out: Outside, s: State, enqueued: Queues, p: Port)
    requires CountsAgree(k, s) && InOrder(s, enqueued, p)
    ensures CountsAgree(k, Cycled(k, out, s))
    ensures InOrder(Cycled(k, out, s), EnqueuedAll(enqueued, out.arrivals(s.cycles)), p)
  {
    var s0 := Refilled(out, s);
    ArrivalsOrder(AcceptedFrom(s.sends, p), s.queues, enqueued, out.arrivals(s.cycles), p);
    WavesKeep(k, out, s0, 0, EnqueuedAll(enqueued, out.arrivals(s.cycles)), p);
    RepliesKeep(k, Waves(k, out, s0, 0), out.completions(s.cycles));
    RepliesOnlyComplete(Waves(k, out, s0, 0), out.completions(s.cycles));
  }

  /**
   * Run conservation: after any number of cycles the admitted bursts are those completed plus
   * those in flight, the admitted bytes likewise, at most one serialized read is in flight, and
   * each port has sent its enqueued bursts in order.
   */
  lemma {:induction false} RunKeeps(k: Knobs, out: Outside, q: Queues, cursor: Port, n: nat, p: Port)
    ensures var s := After(k, out, Begun(q, cursor), n);
      CountsAgree(k, s) && InOrder(s, Enqueued(out, q, n), p) && s.cycles == n
  {
    if n == 0 {
    } else {
      RunKeeps(k, out, q, cursor, n - 1, p);
      CycleKeeps(k, out, After(k, out, Begun(q, cursor), n - 1), Enqueued(out, q, n - 1), p);
    }
  }

  /**
   * A run that stops for want of work has idle hardware and nothing in flight; it has moved every
   * byte it admitted and emptied every port.
   */
  lemma DrainedRun(k: Knobs, out: Outside, q: Queues, cursor: Port, n: nat)
    requires !AtWork(out, After(k, out, Begun(q, cursor), n), n)
    ensures var s := After(k, out, Begun(q, cursor), n);
      && !out.busy(n) && s.inflight == []
      && ResultOf(k, s).bytesMoved == ResultOf(k, s).tsvBytesAdmitted
      && ResultOf(k, s).burstsCompleted == AcceptedCount(s.sends)
      && forall p: Port :: s.queues[p] == [] && AcceptedFrom(s.sends, p) == Enqueued(out, q, n)[p]
  {
    var s := After(k, out, Begun(q, cursor), n);
    RunKeeps(k, out, q, cursor, n, 0);
    forall p: Port
      ensures s.queues[p] == [] && AcceptedFrom(s.sends, p) == Enqueued(out, q, n)[p]
    {
      RunKeeps(k, out, q, cursor, n, p);
    }
  }
}
