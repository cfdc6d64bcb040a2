/** When a run drains: exactly when every burst enqueued fits the byte budget of an empty cycle. */
module Drain {
  import opened Ports
  import opened Admission
  import opened AdmissionRun

  /** Burst b can be admitted to a cycle that has admitted nothing yet. */
  predicate Fits(k: Knobs, b: MemoryBurst) {
    k.peakGbps <= 0.0 || b.sizeBytes as real <= Limit(k) + EPSILON
  }

  ghost predicate AllFit(k: Knobs, bs: seq<MemoryBurst>) {
    forall i :: 0 <= i < |bs| ==> Fits(k, bs[i])
  }

  /** From cycle n on, the attached hardware is done and enqueues nothing more. */
  ghost predicate Quiet(out: Outside, n: nat) {
    forall c: nat :: n <= c ==> out.arrivals(c) == [] && !out.busy(c)
  }

  ghost predicate AnswersAfter(out: Outside, m: nat) {
    exists a: nat :: m <= a && out.answers(a)
  }

  ghost predicate CompletesAfter(k: Knobs, out: Outside, s: State, c: nat) {
    exists d: nat :: c < d && After(k, out, s, c).completed < After(k, out, s, d).completed
  }

  /**
   * The memory neither refuses for ever nor stops completing: behind every send call there is one
   * that it accepts, and behind every cycle with requests in flight one with a completion.
   */
  ghost predicate Responsive(k: Knobs, out: Outside, s: State) {
    && (forall m: nat :: AnswersAfter(out, m))
    && forall c: nat :: After(k, out, s, c).inflight == [] || CompletesAfter(k, out, s, c)
  }

  // ---- what each visit keeps

  ghost predicate Honest(k: Knobs, out: Outside, sends: seq<Send>) {
    forall j :: 0 <= j < |sends| ==>
      sends[j].accepted == out.answers(j) && (sends[j].accepted ==> Fits(k, sends[j].burst))
  }

  /** State s came from s0 by visits: it only added sends, each of them answered by the memory. */
  ghost predicate Visited(k: Knobs, out: Outside, s0: State, s: State) {
    && s.used >= 0.0 && s.completed == s0.completed && s0.sends <= s.sends && Honest(k, out, s.sends)
    && Pending(s.queues, 16) + AcceptedCount(s.sends) == Pending(s0.queues, 16) + AcceptedCount(s0.sends)
  }

  lemma {:induction false} PendingPop(q: Queues, pc: Port, n: nat)
    requires q[pc] != [] && n <= 16
    ensures Pending(q[pc := q[pc][1..]], n) == Pending(q, n) - if pc < n then 1 else 0
  {
    if n == 0 {
    } else {
      PendingPop(q, pc, n - 1);
    }
  }

  lemma CountSend(sends: seq<Send>, x: Send)
    ensures AcceptedCount(sends + [x]) == AcceptedCount(sends) + if x.accepted then 1 else 0
  {
    assert (sends + [x])[..|sends|] == sends;
  }

  lemma AcceptVisits(k: Knobs, out: Outside, s0: State, s: State, pc: Port)
    requires Visited(k, out, s0, s) && s.queues[pc] != [] && Fits(k, s.queues[pc][0]) && out.answers(|s.sends|)
    ensures Visited(k, out, s0, Accept(s, pc))
  {
    CountSend(s.sends, Send(pc, s.queues[pc][0], true));
    PendingPop(s.queues, pc, 16);
  }

  lemma RefuseVisits(k: Knobs, out: Outside, s0: State, s: State, x: Send)
    requires Visited(k, out, s0, s) && !x.accepted && !out.answers(|s.sends|)
    ensures Visited(k, out, s0, s.(sends := s.sends + [x]))
  {
    CountSend(s.sends, x);
  }

  lemma AttemptVisits(k: Knobs, out: Outside, s0: State, s: State, pc: Port)
    requires Visited(k, out, s0, s)
    ensures Visited(k, out, s0, Attempt(k, out, s, pc))
  {
    if s.queues[pc] != [] {
      var b := s.queues[pc][0];
      if !Held(k, s, b) && !OverBudget(k, s, b) {
        if out.answers(|s.sends|) {
          AcceptVisits(k, out, s0, s, pc);
        } else {
          RefuseVisits(k, out, s0, s, Send(pc, b, false));
        }
      }
    }
  }

  lemma {:induction false} SweptVisits(k: Knobs, out: Outside, s0: State, s: State, start: Port, n: nat)
    requires Visited(k, out, s0, s)
    ensures Visited(k, out, s0, Swept(k, out, s, start, n))
  {
    if n == 0 {
    } else {
      SweptVisits(k, out, s0, s, start, n - 1);
      AttemptVisits(k, out, s0, Swept(k, out, s, start, n - 1), Visit(start, n - 1));
    }
  }

  lemma {:induction false} WavesVisit(k: Knobs, out: Outside, s0: State, s: State, n: nat)
    requires n <= MAX_WAVES && Visited(k, out, s0, s)
    ensures Visited(k, out, s0, Waves(k, out, s, n))
    decreases MAX_WAVES - n
  {
    if n == MAX_WAVES {
    } else {
      SweptVisits(k, out, s0, s, s.cursor, 16);
      if Progress(s, Wave(k, out, s)) {
        WavesVisit(k, out, s0, Wave(k, out, s), n + 1);
      }
    }
  }

  lemma {:induction false} RepliesAdd(s: State, positions: seq<nat>)
    ensures s.completed <= RepliedAll(s, positions).completed
  {
    if positions == [] {
    } else {
      RepliesAdd(s, positions[..|positions| - 1]);
    }
  }

  /** A cycle only adds sends and completions, and every send is what the memory answered. */
  lemma CycleAdds(k: Knobs, out: Outside, s: State)
    requires Honest(k, out, s.sends)
    ensures var s' := Cycled(k, out, s);
      s.sends <= s'.sends && s.completed <= s'.completed && Honest(k, out, s'.sends)
    ensures out.arrivals(s.cycles) == [] ==>
      Pending(Cycled(k, out, s).queues, 16) + AcceptedCount(Cycled(k, out, s).sends)
      == Pending(s.queues, 16) + AcceptedCount(s.sends)
  {
    var s0 := Refilled(out, s);
    WavesVisit(k, out, s0, s0, 0);
    RepliesOnlyComplete(Waves(k, out, s0, 0), out.completions(s.cycles));
    RepliesAdd(Waves(k, out, s0, 0), out.completions(s.cycles));
  }

  // ---- one cycle with nothing in flight

  lemma {:induction false} SweptSends(k: Knobs, out: Outside, s: State, start: Port, n: nat, i: nat)
    requires i < n <= 16 && s.sparse == 0 && s.used == 0.0
    requires s.queues[Visit(start, i)] != [] && Fits(k, s.queues[Visit(start, i)][0])
    ensures |s.sends| < |Swept(k, out, s, start, n).sends|
    decreases n
  {
    SweptMoves(k, out, s, start, n - 1);
    if i < n - 1 {
      SweptSends(k, out, s, start, n - 1, i);
    }
  }

  /** A sweep that sends nothing changes nothing. */
  lemma {:induction false} SweptMoves(k: Knobs, out: Outside, s: State, start: Port, n: nat)
    ensures Swept(k, out, s, start, n) == s || |s.sends| < |Swept(k, out, s, start, n).sends|
  {
    if n == 0 {
    } else {
      SweptMoves(k, out, s, start, n - 1);
    }
  }

  /** With nothing in flight, a cycle offers at least one fitting head to the memory. */
  lemma CycleSends(k: Knobs, out: Outside, s: State, p: Port)
    requires Honest(k, out, s.sends) && CountsAgree(k, s) && s.inflight == [] && out.arrivals(s.cycles) == []
    requires s.queues[p] != [] && Fits(k, s.queues[p][0])
    ensures |s.sends| < |Cycled(k, out, s).sends|
  {
    var s0 := Refilled(out, s);
    var i := (p - s.cursor) % 16;
    assert Visit(s.cursor, i) == p;
    SweptSends(k, out, s0, s.cursor, 16, i);
    SweptVisits(k, out, s0, s0, s.cursor, 16);
    FirstWave(k, out, s0);
    RepliesOnlyComplete(Waves(k, out, s0, 0), out.completions(s.cycles));
  }

  lemma FirstWave(k: Knobs, out: Outside, s: State)
    requires Visited(k, out, s, Wave(k, out, s))
    ensures Wave(k, out, s).sends <= Waves(k, out, s, 0).sends
  {
    var w := Wave(k, out, s);
    if Progress(s, w) {
      WavesVisit(k, out, w, w, 1);
    }
  }

  // ---- quiet runs

  /** What a run has left to do: an admission and a completion for every burst. */
  function LeftToDo(s: State): nat {
    2 * Pending(s.queues, 16) + |s.inflight|
  }

  lemma {:induction false} HonestFrom(k: Knobs, out: Outside, s: State, n: nat)
    requires Honest(k, out, s.sends)
    ensures Honest(k, out, After(k, out, s, n).sends) && After(k, out, s, n).cycles == s.cycles + n
  {
    if n == 0 {
    } else {
      HonestFrom(k, out, s, n - 1);
      CycleAdds(k, out, After(k, out, s, n - 1));
    }
  }

  lemma RunHonest(k: Knobs, out: Outside, q: Queues, cursor: Port, n: nat)
    ensures Honest(k, out, After(k, out, Begun(q, cursor), n).sends) && After(k, out, Begun(q, cursor), n).cycles == n
  {
    HonestFrom(k, out, Begun(q, cursor), n);
  }

  lemma {:induction false} AcceptedGrow(a: seq<Send>, b: seq<Send>)
    requires a <= b
    ensures AcceptedCount(a) <= AcceptedCount(b)
    ensures (exists j :: |a| <= j < |b| && b[j].accepted) ==> AcceptedCount(a) < AcceptedCount(b)
  {
    if |a| == |b| {
      assert a == b;
    } else {
      assert b == b[..|b| - 1] + [b[|b| - 1]];
      AcceptedGrow(a, b[..|b| - 1]);
    }
  }

  /** From s to s', what is left to do shrinks by every admission and every completion. */
  ghost predicate Advances(s: State, s': State) {
    && s.sends <= s'.sends && s.completed <= s'.completed
    && LeftToDo(s') + AcceptedCount(s'.sends) + s'.completed == LeftToDo(s) + AcceptedCount(s.sends) + s.completed
  }

  /** The accounts of state s are in order, and it has run for c cycles. */
  ghost predicate Sound(k: Knobs, out: Outside, s: State, enqueued: Queues, c: nat) {
    CountsAgree(k, s) && Honest(k, out, s.sends) && InOrder(s, enqueued, 0) && s.cycles == c
  }

  lemma CycleAdvances(k: Knobs, out: Outside, s: State, enqueued: Queues, c: nat) returns (s': State)
    requires Sound(k, out, s, enqueued, c) && out.arrivals(c) == []
    ensures s' == Cycled(k, out, s) && Sound(k, out, s', enqueued, c + 1) && Advances(s, s')
  {
    s' := Cycled(k, out, s);
    CycleAdds(k, out, s);
    CycleKeeps(k, out, s, enqueued, 0);
  }

  lemma {:induction false} QuietFrom(k: Knobs, out: Outside, s0: State, s: State, c: nat, d: nat, enqueued: Queues)
    returns (s': State)
    requires c <= d && s == After(k, out, s0, c) && Sound(k, out, s, enqueued, c) && Quiet(out, c)
    ensures s' == After(k, out, s0, d) && Sound(k, out, s', enqueued, d) && Advances(s, s')
    decreases d
  {
    if c == d {
      s' := s;
    } else {
      var t := QuietFrom(k, out, s0, s, c, d - 1, enqueued);
      s' := CycleAdvances(k, out, t, enqueued, d - 1);
    }
  }

  lemma QuietRun(k: Knobs, out: Outside, q: Queues, cursor: Port, n: nat, c: nat, d: nat)
    returns (s: State, s': State)
    requires Quiet(out, n) && n <= c <= d
    ensures s == After(k, out, Begun(q, cursor), c) && s' == After(k, out, Begun(q, cursor), d)
    ensures Advances(s, s')
  {
    s := After(k, out, Begun(q, cursor), c);
    RunHonest(k, out, q, cursor, c);
    RunKeeps(k, out, q, cursor, c, 0);
    s' := QuietFrom(k, out, Begun(q, cursor), s, c, d, AdmissionRun.Enqueued(out, q, c));
  }

  /** Everything was enqueued by cycle n. */
  lemma {:induction false} EnqueuedQuietly(out: Outside, q: Queues, n: nat, c: nat)
    requires Quiet(out, n) && n <= c
    ensures AdmissionRun.Enqueued(out, q, c) == AdmissionRun.Enqueued(out, q, n)
    decreases c
  {
    if c == n {
    } else {
      EnqueuedQuietly(out, q, n, c - 1);
    }
  }

  /** The bursts accepted from a port all fit. */
  lemma {:induction false} AcceptedFit(k: Knobs, out: Outside, sends: seq<Send>, p: Port)
    requires Honest(k, out, sends)
    ensures AllFit(k, AcceptedFrom(sends, p))
  {
    if sends == [] {
    } else {
      AcceptedFit(k, out, sends[..|sends| - 1], p);
    }
  }

  /** What a port still holds is the end of what was enqueued there. */
  lemma StillFit(k: Knobs, out: Outside, q: Queues, cursor: Port, n: nat, c: nat, p: Port)
    requires Quiet(out, n) && n <= c && AllFit(k, AdmissionRun.Enqueued(out, q, n)[p])
    ensures AllFit(k, After(k, out, Begun(q, cursor), c).queues[p])
  {
    var s := After(k, out, Begun(q, cursor), c);
    RunKeeps(k, out, q, cursor, c, p);
    EnqueuedQuietly(out, q, n, c);
    var gone := |AcceptedFrom(s.sends, p)|;
    forall i | 0 <= i < |s.queues[p]|
      ensures Fits(k, s.queues[p][i])
    {
      assert s.queues[p][i] == AdmissionRun.Enqueued(out, q, n)[p][gone + i];
    }
  }

  ghost predicate EverythingFits(k: Knobs, enqueued: Queues) {
    forall p: Port :: AllFit(k, enqueued[p])
  }

  /** With nothing in flight, some later cycle gets a burst into the memory. */
  lemma {:induction false} Admits(k: Knobs, out: Outside, q: Queues, cursor: Port, n: nat, c: nat, a: nat)
    returns (d: nat)
    requires Quiet(out, n) && EverythingFits(k, AdmissionRun.Enqueued(out, q, n)) && n <= c && out.answers(a)
    requires var s := After(k, out, Begun(q, cursor), c);
      s.inflight == [] && Pending(s.queues, 16) > 0 && |s.sends| <= a
    ensures c < d && LeftToDo(After(k, out, Begun(q, cursor), d)) < LeftToDo(After(k, out, Begun(q, cursor), c))
    decreases a - |After(k, out, Begun(q, cursor), c).sends|
  {
    d := c + 1;
    var s, s' := QuietRun(k, out, q, cursor, n, c, d);
    OffersOne(k, out, q, cursor, n, c);
    AcceptedGrow(s.sends, s'.sends);
    RunHonest(k, out, q, cursor, d);
    if AcceptedCount(s.sends) == AcceptedCount(s'.sends) {
      RunKeeps(k, out, q, cursor, c, 0);
      RunKeeps(k, out, q, cursor, d, 0);
      d := Admits(k, out, q, cursor, n, d, a);
    }
  }

  lemma OffersOne(k: Knobs, out: Outside, q: Queues, cursor: Port, n: nat, c: nat)
    requires Quiet(out, n) && EverythingFits(k, AdmissionRun.Enqueued(out, q, n)) && n <= c
    requires var s := After(k, out, Begun(q, cursor), c); s.inflight == [] && Pending(s.queues, 16) > 0
    ensures |After(k, out, Begun(q, cursor), c).sends| < |After(k, out, Begun(q, cursor), c + 1).sends|
  {
    var s := After(k, out, Begun(q, cursor), c);
    PendingZero(s.queues, 16);
    var p: Port :| s.queues[p] != [];
    RunHonest(k, out, q, cursor, c);
    RunKeeps(k, out, q, cursor, c, p);
    StillFit(k, out, q, cursor, n, c, p);
    CycleSends(k, out, s, p);
  }

  lemma {:induction false} DrainsFrom(k: Knobs, out: Outside, q: Queues, cursor: Port, n: nat, c: nat) returns (d: nat)
    requires Quiet(out, n) && EverythingFits(k, AdmissionRun.Enqueued(out, q, n)) && n <= c
    requires Responsive(k, out, Begun(q, cursor))
    ensures c <= d && After(k, out, Begun(q, cursor), d).inflight == []
    ensures forall p: Port :: After(k, out, Begun(q, cursor), d).queues[p] == []
    decreases LeftToDo(After(k, out, Begun(q, cursor), c))
  {
    var s := After(k, out, Begun(q, cursor), c);
    RunKeeps(k, out, q, cursor, c, 0);
    d := c;
    if s.inflight != [] {
      d := NextCompletion(k, out, q, cursor, n, c);
      d := DrainsFrom(k, out, q, cursor, n, d);
    } else if Pending(s.queues, 16) == 0 {
      PendingZero(s.queues, 16);
    } else {
      assert AnswersAfter(out, |s.sends|);
      var a: nat :| |s.sends| <= a && out.answers(a);
      d := Admits(k, out, q, cursor, n, c, a);
      d := DrainsFrom(k, out, q, cursor, n, d);
    }
  }

  lemma NextCompletion(k: Knobs, out: Outside, q: Queues, cursor: Port, n: nat, c: nat) returns (d: nat)
    requires Quiet(out, n) && Responsive(k, out, Begun(q, cursor)) && n <= c
    requires After(k, out, Begun(q, cursor), c).inflight != []
    ensures c < d && LeftToDo(After(k, out, Begun(q, cursor), d)) < LeftToDo(After(k, out, Begun(q, cursor), c))
  {
    assert CompletesAfter(k, out, Begun(q, cursor), c);
    d :| c < d && After(k, out, Begun(q, cursor), c).completed < After(k, out, Begun(q, cursor), d).completed;
    var s, s' := QuietRun(k, out, q, cursor, n, c, d);
    AcceptedGrow(s.sends, s'.sends);
  }

  /** A port that has become empty after the last arrival only ever held bursts that fit. */
  lemma EmptiedFits(k: Knobs, out: Outside, q: Queues, cursor: Port, n: nat, d: nat, p: Port)
    requires Quiet(out, n) && n <= d && After(k, out, Begun(q, cursor), d).queues[p] == []
    ensures AllFit(k, AdmissionRun.Enqueued(out, q, n)[p])
  {
    RunHonest(k, out, q, cursor, d);
    RunKeeps(k, out, q, cursor, d, p);
    EnqueuedQuietly(out, q, n, d);
    AcceptedFit(k, out, After(k, out, Begun(q, cursor), d).sends, p);
  }

  /** The limit of an empty cycle, in bytes, with the slack of the comparison. */
  lemma FitsIff(k: Knobs, b: MemoryBurst, limit: real)
    requires limit == k.peakGbps * 1000000000.0 * (k.tckNs * 0.000000001) + 0.000001
    ensures Fits(k, b) <==> k.peakGbps <= 0.0 || b.sizeBytes as real <= limit
  {
  }

  /**
   * Drain: with a memory that neither refuses nor stalls for ever, and hardware that is done by
   * cycle n, a run gets to a cycle with empty ports and nothing in flight if and only if the cap
   * is off or every burst that was ever enqueued fits the limit of an empty cycle. A larger burst
   * blocks its port for good.
   */
  lemma DrainsIff(k: Knobs, out: Outside, q: Queues, cursor: Port, n: nat, limit: real)
    requires Quiet(out, n) && Responsive(k, out, Begun(q, cursor))
    requires limit == k.peakGbps * 1000000000.0 * (k.tckNs * 0.000000001) + 0.000001
    ensures (exists d: nat :: n <= d && EmptyAt(k, out, q, cursor, d))
      <==> (k.peakGbps <= 0.0 || NoneAbove(AdmissionRun.Enqueued(out, q, n), limit))
  {
    if d: nat :| n <= d && EmptyAt(k, out, q, cursor, d) {
      forall p: Port
        ensures AllFit(k, AdmissionRun.Enqueued(out, q, n)[p])
      {
        EmptiedFits(k, out, q, cursor, n, d, p);
      }
    }
    if EverythingFits(k, AdmissionRun.Enqueued(out, q, n)) {
      var d := DrainsFrom(k, out, q, cursor, n, n);
      assert EmptyAt(k, out, q, cursor, d);
    }
    EverythingFitsIff(k, AdmissionRun.Enqueued(out, q, n), limit);
  }

  lemma EverythingFitsIff(k: Knobs, enqueued: Queues, limit: real)
    requires limit == k.peakGbps * 1000000000.0 * (k.tckNs * 0.000000001) + 0.000001
    ensures EverythingFits(k, enqueued) <==> (k.peakGbps <= 0.0 || NoneAbove(enqueued, limit))
  {
    if EverythingFits(k, enqueued) {
      forall p: Port | k.peakGbps > 0.0
        ensures AllUpTo(enqueued[p], limit)
      {
        AllFitIff(k, enqueued[p], limit);
      }
    }
    if k.peakGbps <= 0.0 || NoneAbove(enqueued, limit) {
      forall p: Port
        ensures AllFit(k, enqueued[p])
      {
        AllFitIff(k, enqueued[p], limit);
      }
    }
  }

  /** Nothing is in flight and every port is empty after d cycles. */
  ghost predicate EmptyAt(k: Knobs, out: Outside, q: Queues, cursor: Port, d: nat) {
    var s := After(k, out, Begun(q, cursor), d);
    s.inflight == [] && forall p: Port :: s.queues[p] == []
  }

  ghost predicate AllUpTo(bs: seq<MemoryBurst>, limit: real) {
    forall i :: 0 <= i < |bs| ==> bs[i].sizeBytes as real <= limit
  }

  /** No burst of any port is larger than the limit. */
  ghost predicate NoneAbove(q: Queues, limit: real) {
    forall p: Port :: AllUpTo(q[p], limit)
  }

  lemma AllFitIff(k: Knobs, bs: seq<MemoryBurst>, limit: real)
    requires limit == k.peakGbps * 1000000000.0 * (k.tckNs * 0.000000001) + 0.000001
    ensures AllFit(k, bs) <==> k.peakGbps <= 0.0 || AllUpTo(bs, limit)
  {
    if AllFit(k, bs) && k.peakGbps > 0.0 {
      forall i | 0 <= i < |bs|
        ensures bs[i].sizeBytes as real <= limit
      {
        FitsIff(k, bs[i], limit);
      }
    }
    if k.peakGbps <= 0.0 || AllUpTo(bs, limit) {
      forall i | 0 <= i < |bs|
        ensures Fits(k, bs[i])
      {
        FitsIff(k, bs[i], limit);
      }
    }
  }

  /** A burst over the budget of an empty cycle keeps its port non-empty under every memory. */
  lemma OversizeBlocks(k: Knobs, out: Outside, q: Queues, cursor: Port, n: nat, i: nat, p: Port, limit: real)
    requires limit == k.peakGbps * 1000000000.0 * (k.tckNs * 0.000000001) + 0.000001
    requires k.peakGbps > 0.0 && i < |AdmissionRun.Enqueued(out, q, n)[p]|
    requires AdmissionRun.Enqueued(out, q, n)[p][i].sizeBytes as real > limit
    ensures After(k, out, Begun(q, cursor), n).queues[p] != []
  {
    FitsIff(k, AdmissionRun.Enqueued(out, q, n)[p][i], limit);
    RunHonest(k, out, q, cursor, n);
    RunKeeps(k, out, q, cursor, n, p);
    AcceptedFit(k, out, After(k, out, Begun(q, cursor), n).sends, p);
  }

  // ---- a memory that serves the oldest request is responsive

  lemma {:induction false} RepliesServe(s: State, positions: seq<nat>)
    ensures RepliedAll(s, positions).completed + |RepliedAll(s, positions).inflight| == s.completed + |s.inflight|
    ensures 0 in positions && s.inflight != [] ==> s.completed < RepliedAll(s, positions).completed
  {
    if positions == [] {
    } else {
      var before := positions[..|positions| - 1];
      RepliesServe(s, before);
      RepliesAdd(s, before);
      assert positions == before + [positions[|positions| - 1]];
    }
  }

  /** The requests in flight at the start of a cycle are still there after its waves. */
  lemma WavesFill(k: Knobs, out: Outside, s: State)
    requires CountsAgree(k, s) && Honest(k, out, s.sends) && s.used == 0.0
    ensures |s.inflight| <= |Waves(k, out, s, 0).inflight| && Waves(k, out, s, 0).completed == s.completed
  {
    var w := Waves(k, out, s, 0);
    WavesVisit(k, out, s, s, 0);
    WavesKeep(k, out, s, 0, s.queues[0 := AcceptedFrom(s.sends, 0) + s.queues[0]], 0);
    AcceptedGrow(s.sends, w.sends);
  }

  lemma ServedCycle(k: Knobs, out: Outside, s: State)
    requires CountsAgree(k, s) && Honest(k, out, s.sends) && s.inflight != [] && 0 in out.completions(s.cycles)
    ensures s.completed < Cycled(k, out, s).completed
  {
    WavesFill(k, out, Refilled(out, s));
    RepliesServe(Waves(k, out, Refilled(out, s), 0), out.completions(s.cycles));
  }

  /**
   * The premise of the drain is one that a memory can meet on its own: it is enough that the
   * memory accepts infinitely often and completes the oldest request in every cycle.
   */
  lemma OldestFirstIsResponsive(k: Knobs, out: Outside, q: Queues, cursor: Port)
    requires (forall m: nat :: AnswersAfter(out, m)) && forall c: nat :: 0 in out.completions(c)
    ensures Responsive(k, out, Begun(q, cursor))
  {
    forall c: nat | After(k, out, Begun(q, cursor), c).inflight != []
      ensures CompletesAfter(k, out, Begun(q, cursor), c)
    {
      var s := After(k, out, Begun(q, cursor), c);
      RunHonest(k, out, q, cursor, c);
      RunKeeps(k, out, q, cursor, c, 0);
      ServedCycle(k, out, s);
      assert After(k, out, Begun(q, cursor), c + 1) == Cycled(k, out, s);
    }
  }
}
