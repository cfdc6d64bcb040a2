/** Fairness of the admitted sequence over whole runs, and what one unlimited cycle removes. */
module Fairness {
  import opened Ports
  import opened Admission
  import opened AdmissionRun
  import opened RoundRobin
  import Stall

  // ---- the cursor and the ports around it

  /** How many steps a sweep takes from port c to port p. */
  function Distance(c: Port, p: Port): nat {
    (p - c) % 16
  }

  lemma DistanceCases(c: Port, p: Port)
    ensures Distance(c, p) == if p >= c then p - c else p - c + 16
    ensures Visit(p, 1) == if p == 15 then 0 else p + 1
  {
  }

  lemma VisitCases(c: Port, k: nat)
    requires k < 16
    ensures Visit(c, k) == if c + k < 16 then c + k else c + k - 16
  {
  }

  lemma VisitUndoesDistance(c: Port, p: Port, k: nat)
    requires k < 16
    ensures Visit(c, Distance(c, p)) == p && Distance(c, Visit(c, k)) == k
  {
    DistanceCases(c, p);
    VisitCases(c, Distance(c, p));
    VisitCases(c, k);
    DistanceCases(c, Visit(c, k));
  }

  /** Round robin never looks past a port that has work. */
  lemma {:induction false} PickWithin(q: Queues, c: Port, k: nat, p: Port)
    requires k <= Distance(c, p) && q[p] != []
    ensures var pc := PickFrom(q, c, k); pc != -1 && k <= Distance(c, pc) <= Distance(c, p)
    decreases 16 - k
  {
    VisitUndoesDistance(c, p, k);
    if q[Visit(c, k)] == [] {
      PickWithin(q, c, k + 1, p);
    }
  }

  /** Serving another port on the way brings the cursor closer to p, without passing it. */
  lemma ServiceApproaches(c: Port, pc: Port, p: Port)
    requires Distance(c, pc) <= Distance(c, p) && pc != p
    ensures Distance(Visit(pc, 1), p) == Distance(c, p) - Distance(c, pc) - 1
  {
    DistanceCases(c, pc);
    DistanceCases(c, p);
    DistanceCases(Visit(pc, 1), p);
  }

  /** From the stretch between u and p, port u lies beyond p. */
  lemma BeyondTarget(c: Port, u: Port, p: Port)
    requires u != p && Distance(c, p) <= Distance(Visit(u, 1), p)
    ensures Distance(c, u) > Distance(c, p)
  {
    DistanceCases(c, u);
    DistanceCases(c, p);
    DistanceCases(Visit(u, 1), p);
  }

  // ---- the turn of an admission

  /** The cursor before send number t: just past the port of the send before it. */
  function CursorAt(cursor: Port, sends: seq<Send>, t: nat): Port
    requires t <= |sends|
  {
    if t == 0 then cursor else Visit(sends[t - 1].pc, 1)
  }

  /** What port p holds before send number t, of all that was enqueued there. */
  function HeldAt(enqueued: Queues, sends: seq<Send>, t: nat, p: Port): seq<MemoryBurst>
    requires t <= |sends|
  {
    var gone := |AcceptedFrom(sends[..t], p)|;
    if gone <= |enqueued[p]| then enqueued[p][gone..] else []
  }

  function QueuesAt(enqueued: Queues, sends: seq<Send>, t: nat): (q: Queues)
    requires t <= |sends|
    ensures forall p: Port :: q[p] == HeldAt(enqueued, sends, t, p)
  {
    seq(16, p requires 0 <= p < 16 => HeldAt(enqueued, sends, t, p))
  }

  /** Send number t is an admission, and it is the one that round robin picks. */
  ghost predicate Turn(enqueued: Queues, cursor: Port, sends: seq<Send>, t: nat)
    requires t < |sends|
  {
    sends[t].accepted && sends[t].pc == Pick(QueuesAt(enqueued, sends, t), CursorAt(cursor, sends, t))
  }

  /** The state agrees with its sends, and every send from number `base` on had its turn. */
  ghost predicate InTurn(enqueued: Queues, cursor: Port, base: nat, s: State) {
    && base <= |s.sends| && s.cursor == CursorAt(cursor, s.sends, |s.sends|)
    && (forall p: Port :: InOrder(s, enqueued, p))
    && forall t :: base <= t < |s.sends| ==> Turn(enqueued, cursor, s.sends, t)
  }

  lemma TurnKept(enqueued: Queues, cursor: Port, sends: seq<Send>, more: seq<Send>, t: nat)
    requires t < |sends| && sends <= more && Turn(enqueued, cursor, sends, t)
    ensures Turn(enqueued, cursor, more, t)
  {
    assert more[..t] == sends[..t];
    assert QueuesAt(enqueued, more, t) == QueuesAt(enqueued, sends, t);
  }

  lemma HeldNow(enqueued: Queues, s: State)
    requires forall p: Port :: InOrder(s, enqueued, p)
    ensures QueuesAt(enqueued, s.sends, |s.sends|) == s.queues
  {
    assert s.sends[..|s.sends|] == s.sends;
    forall p: Port
      ensures HeldAt(enqueued, s.sends, |s.sends|, p) == s.queues[p]
    {
      assert InOrder(s, enqueued, p);
    }
  }

  lemma NewTurn(enqueued: Queues, cursor: Port, s: State, send: Send)
    requires s.cursor == CursorAt(cursor, s.sends, |s.sends|) && forall p: Port :: InOrder(s, enqueued, p)
    requires send.accepted && Pick(s.queues, s.cursor) == send.pc
    ensures Turn(enqueued, cursor, s.sends + [send], |s.sends|)
  {
    HeldNow(enqueued, s);
    assert (s.sends + [send])[..|s.sends|] == s.sends[..|s.sends|];
    assert QueuesAt(enqueued, s.sends + [send], |s.sends|) == QueuesAt(enqueued, s.sends, |s.sends|);
  }

  /** A burst admitted at the pick has had its turn. */
  lemma AcceptInTurn(enqueued: Queues, cursor: Port, base: nat, s: State, pc: Port)
    requires InTurn(enqueued, cursor, base, s) && s.queues[pc] != [] && Pick(s.queues, s.cursor) == pc
    ensures InTurn(enqueued, cursor, base, Accept(s, pc))
  {
    var more := Accept(s, pc).sends;
    forall p: Port
      ensures InOrder(Accept(s, pc), enqueued, p)
    {
      assert InOrder(s, enqueued, p);
      AcceptOrder(s, pc, enqueued, p);
    }
    NewTurn(enqueued, cursor, s, Send(pc, s.queues[pc][0], true));
    forall t | base <= t < |more|
      ensures Turn(enqueued, cursor, more, t)
    {
      if t < |s.sends| {
        TurnKept(enqueued, cursor, s.sends, more, t);
      }
    }
  }

  lemma AttemptInTurn(k: Knobs, out: Outside, s0: State, s: State, start: Port, n: nat, size: nat, m: nat,
                      enqueued: Queues, cursor: Port, base: nat)
    requires n < 16 && Standing(k, out, s0, s, start, n, size, m) && InTurn(enqueued, cursor, base, s)
    ensures InTurn(enqueued, cursor, base, Attempt(k, out, s, Visit(start, n)))
  {
    var pc := Visit(start, n);
    if s.queues[pc] != [] && !OverBudget(k, s, s.queues[pc][0]) {
      NotExhausted(k, out, s, pc, size);
      AcceptInTurn(enqueued, cursor, base, s, pc);
    }
  }

  lemma {:induction false} SweptInTurn(k: Knobs, out: Outside, s0: State, s: State, start: Port, n: nat, size: nat,
                                       m: nat,
                                       enqueued: Queues, cursor: Port, base: nat)
    requires n <= 16 && Standing(k, out, s0, s, start, 0, size, m) && InTurn(enqueued, cursor, base, s)
    ensures InTurn(enqueued, cursor, base, Swept(k, out, s, start, n))
  {
    if n == 0 {
    } else {
      SweptInTurn(k, out, s0, s, start, n - 1, size, m, enqueued, cursor, base);
      var m' := SweptStands(k, out, s0, s, start, n - 1, size, m);
      AttemptInTurn(k, out, s0, Swept(k, out, s, start, n - 1), start, n - 1, size, m', enqueued, cursor, base);
    }
  }

  lemma {:induction false} WavesInTurn(k: Knobs, out: Outside, s0: State, s: State, n: nat, size: nat, m: nat,
                                       enqueued: Queues, cursor: Port, base: nat)
    requires n <= MAX_WAVES && Plain(k, out, s.queues, size) && Follows(s0, s, m) && InTurn(enqueued, cursor, base, s)
    ensures Plain(k, out, Waves(k, out, s, n).queues, size) && InTurn(enqueued, cursor, base, Waves(k, out, s, n))
    decreases MAX_WAVES - n
  {
    if n == MAX_WAVES {
    } else {
      SweptInTurn(k, out, s0, s, s.cursor, 16, size, m, enqueued, cursor, base);
      var m' := SweptStands(k, out, s0, s, s.cursor, 16, size, m);
      if Progress(s, Wave(k, out, s)) {
        WavesInTurn(k, out, s0, Wave(k, out, s), n + 1, size, m', enqueued, cursor, base);
      }
    }
  }

  // ---- whole runs

  /** The assumptions of the refinement, for a whole run: they also bind the arrivals. */
  ghost predicate PlainRun(k: Knobs, out: Outside, q: Queues, size: nat) {
    Plain(k, out, q, size)
    && (k.peakGbps <= 0.0
        || forall n, i :: 0 <= n && 0 <= i < |out.arrivals(n)| ==> out.arrivals(n)[i].sizeBytes == size)
  }

  lemma {:induction false} ArrivalsUniform(q: Queues, bs: seq<MemoryBurst>, size: nat)
    requires UniformSizes(q, size) && forall i :: 0 <= i < |bs| ==> bs[i].sizeBytes == size
    ensures UniformSizes(EnqueuedAll(q, bs), size)
  {
    if bs == [] {
    } else {
      ArrivalsUniform(q, bs[..|bs| - 1], size);
    }
  }

  /** All the sends of one cycle have their turn among what was enqueued up to this cycle. */
  lemma CycleInTurn(k: Knobs, out: Outside, s: State, enqueued: Queues, cursor: Port, size: nat)
    requires PlainRun(k, out, s.queues, size)
    requires InTurn(enqueued, cursor, |s.sends|, s)
    ensures InTurn(EnqueuedAll(enqueued, out.arrivals(s.cycles)), cursor, |s.sends|, Cycled(k, out, s))
    ensures Plain(k, out, Cycled(k, out, s).queues, size) && s.sends <= Cycled(k, out, s).sends
  {
    var s0, enqueued' := Refilled(out, s), EnqueuedAll(enqueued, out.arrivals(s.cycles));
    if k.peakGbps > 0.0 {
      ArrivalsUniform(s.queues, out.arrivals(s.cycles), size);
    }
    forall p: Port
      ensures InOrder(s0, enqueued', p)
    {
      assert InOrder(s, enqueued, p);
      ArrivalsOrder(AcceptedFrom(s.sends, p), s.queues, enqueued, out.arrivals(s.cycles), p);
    }
    assert PortsAfter(s0, |s0.sends|) == [];
    assert Follows(s0, s0, 0);
    WavesInTurn(k, out, s0, s0, 0, size, 0, enqueued', cursor, |s.sends|);
    WavesFollow(k, out, s0, s0, 0, size);
    RepliesInTurn(Waves(k, out, s0, 0), out.completions(s.cycles), s.cycles + 1, enqueued', cursor, |s.sends|);
  }

  lemma RepliesInTurn(s: State, positions: seq<nat>, c: nat, enqueued: Queues, cursor: Port, base: nat)
    requires InTurn(enqueued, cursor, base, s)
    ensures InTurn(enqueued, cursor, base, RepliedAll(s, positions).(cycles := c))
    ensures RepliedAll(s, positions).queues == s.queues && RepliedAll(s, positions).sends == s.sends
  {
    RepliesOnlyComplete(s, positions);
    forall p: Port
      ensures InOrder(RepliedAll(s, positions).(cycles := c), enqueued, p)
    {
      assert InOrder(s, enqueued, p);
    }
  }

  /** The cycle in which send number t is made, where marks[c] sends are made by the end of cycle c. */
  ghost function CycleOf(marks: seq<nat>, t: nat): (c: nat)
    requires marks != [] && marks[0] <= t < marks[|marks| - 1]
    ensures 0 < c < |marks| && marks[c - 1] <= t < marks[c]
  {
    if t < marks[|marks| - 2] then CycleOf(marks[..|marks| - 1], t) else |marks| - 1
  }

  /** marks[c] sends have been made by the end of cycle c, none before cycle 1 and n in all. */
  ghost predicate Marked(marks: seq<nat>, n: nat) {
    marks != [] && marks[0] == 0 && marks[|marks| - 1] == n
  }

  /** Send t has its turn among what was fed to the ports by its own cycle. */
  ghost predicate OnTime(marks: seq<nat>, feeds: seq<Queues>, cursor: Port, sends: seq<Send>, t: nat)
    requires Marked(marks, |sends|) && |feeds| == |marks| && t < |sends|
  {
    Turn(feeds[CycleOf(marks, t)], cursor, sends, t)
  }

  /** A port is never fed less by a later cycle. */
  ghost predicate Growing(feeds: seq<Queues>, p: Port) {
    forall c, d :: 0 <= c <= d < |feeds| ==> |feeds[c][p]| <= |feeds[d][p]|
  }

  /** Every send is on time; feeds[c] is all that was enqueued by the end of cycle c, and it only grows. */
  ghost predicate Scheduled(marks: seq<nat>, feeds: seq<Queues>, cursor: Port, sends: seq<Send>) {
    && Marked(marks, |sends|) && |feeds| == |marks|
    && (forall t :: 0 <= t < |sends| ==> OnTime(marks, feeds, cursor, sends, t))
    && forall p: Port :: Growing(feeds, p)
  }

  /** A mark more does not change the cycles of the sends before it. */
  lemma CycleGrows(marks: seq<nat>, x: nat, t: nat)
    requires marks != [] && marks[0] <= t < x && marks[|marks| - 1] <= x
    ensures CycleOf(marks + [x], t) == if t < marks[|marks| - 1] then CycleOf(marks, t) else |marks|
  {
    assert (marks + [x])[..|marks|] == marks;
  }

  lemma TurnsGrow(marks: seq<nat>, feeds: seq<Queues>, cursor: Port, sends: seq<Send>, more: seq<Send>, feed: Queues,
                  t: nat)
    requires Marked(marks, |sends|) && |feeds| == |marks| && sends <= more && t < |more|
    requires if t < |sends| then OnTime(marks, feeds, cursor, sends, t) else Turn(feed, cursor, more, t)
    ensures OnTime(marks + [|more|], feeds + [feed], cursor, more, t)
  {
    CycleGrows(marks, |more|, t);
    if t < |sends| {
      TurnKept(feeds[CycleOf(marks, t)], cursor, sends, more, t);
    }
  }

  lemma FeedsGrow(feeds: seq<Queues>, feed: Queues, p: Port)
    requires feeds != [] && Growing(feeds, p) && |feeds[|feeds| - 1][p]| <= |feed[p]|
    ensures Growing(feeds + [feed], p)
  {
  }

  lemma ScheduleGrows(marks: seq<nat>, feeds: seq<Queues>, cursor: Port, sends: seq<Send>, more: seq<Send>,
                      feed: Queues)
    requires Scheduled(marks, feeds, cursor, sends) && sends <= more
    requires forall t :: |sends| <= t < |more| ==> Turn(feed, cursor, more, t)
    requires forall p: Port :: |feeds[|feeds| - 1][p]| <= |feed[p]|
    ensures Scheduled(marks + [|more|], feeds + [feed], cursor, more)
  {
    forall t | 0 <= t < |more|
      ensures OnTime(marks + [|more|], feeds + [feed], cursor, more, t)
    {
      if t < |sends| {
        assert OnTime(marks, feeds, cursor, sends, t);
      }
      TurnsGrow(marks, feeds, cursor, sends, more, feed, t);
    }
    forall p: Port
      ensures Growing(feeds + [feed], p)
    {
      FeedsGrow(feeds, feed, p);
    }
  }

  /** How many sends a run of n cycles has made by the end of each of them, from cycle 0 on. */
  ghost function Marks(k: Knobs, out: Outside, q: Queues, cursor: Port, n: nat): (marks: seq<nat>)
    ensures |marks| == n + 1 && marks[0] == 0 && marks[n] == |After(k, out, Begun(q, cursor), n).sends|
  {
    if n == 0 then [0] else Marks(k, out, q, cursor, n - 1) + [|After(k, out, Begun(q, cursor), n).sends|]
  }

  /** What was enqueued by the end of each of the first n cycles, from cycle 0 on. */
  ghost function Feeds(out: Outside, q: Queues, n: nat): (feeds: seq<Queues>)
    ensures |feeds| == n + 1 && forall c :: 0 <= c <= n ==> feeds[c] == AdmissionRun.Enqueued(out, q, c)
  {
    if n == 0 then [q] else Feeds(out, q, n - 1) + [AdmissionRun.Enqueued(out, q, n)]
  }

  lemma {:induction false} RunStands(k: Knobs, out: Outside, q: Queues, cursor: Port, n: nat, size: nat)
    returns (s: State)
    requires PlainRun(k, out, q, size)
    ensures s == After(k, out, Begun(q, cursor), n) && s.cycles == n && PlainRun(k, out, s.queues, size)
    ensures InTurn(AdmissionRun.Enqueued(out, q, n), cursor, |s.sends|, s)
  {
    if n == 0 {
      s := Begun(q, cursor);
    } else {
      var before := RunStands(k, out, q, cursor, n - 1, size);
      s := CycleStands(k, out, before, n, AdmissionRun.Enqueued(out, q, n - 1), cursor, size);
    }
  }

  lemma CycleStands(k: Knobs, out: Outside, s: State, n: nat, enqueued: Queues, cursor: Port, size: nat)
    returns (s': State)
    requires PlainRun(k, out, s.queues, size) && s.cycles + 1 == n && InTurn(enqueued, cursor, |s.sends|, s)
    ensures s' == Cycled(k, out, s) && s'.cycles == n && PlainRun(k, out, s'.queues, size) && s.sends <= s'.sends
    ensures InTurn(EnqueuedAll(enqueued, out.arrivals(n - 1)), cursor, |s.sends|, s')
    ensures InTurn(EnqueuedAll(enqueued, out.arrivals(n - 1)), cursor, |s'.sends|, s')
  {
    s' := Cycled(k, out, s);
    CycleInTurn(k, out, s, enqueued, cursor, size);
  }

  /** The last cycle of a run only adds sends, and each of these has its turn. */
  lemma RunGrows(k: Knobs, out: Outside, q: Queues, cursor: Port, n: nat, size: nat) returns (s: State, s': State)
    requires 0 < n && PlainRun(k, out, q, size)
    ensures s == After(k, out, Begun(q, cursor), n - 1) && s' == After(k, out, Begun(q, cursor), n)
    ensures s.sends <= s'.sends && InTurn(AdmissionRun.Enqueued(out, q, n), cursor, |s.sends|, s')
  {
    s := RunStands(k, out, q, cursor, n - 1, size);
    s' := CycleStands(k, out, s, n, AdmissionRun.Enqueued(out, q, n - 1), cursor, size);
  }

  lemma {:induction false} ArrivalsGrow(q: Queues, bs: seq<MemoryBurst>, p: Port)
    ensures |q[p]| <= |EnqueuedAll(q, bs)[p]|
  {
    if bs == [] {
    } else {
      ArrivalsGrow(q, bs[..|bs| - 1], p);
    }
  }

  lemma LaterTurns(k: Knobs, out: Outside, q: Queues, cursor: Port, n: nat, size: nat, before: seq<Send>, feed: Queues)
    returns (sends: seq<Send>)
    requires 0 < n && PlainRun(k, out, q, size)
    requires before == After(k, out, Begun(q, cursor), n - 1).sends && feed == AdmissionRun.Enqueued(out, q, n)
    ensures sends == After(k, out, Begun(q, cursor), n).sends && before <= sends
    ensures forall t :: |before| <= t < |sends| ==> Turn(feed, cursor, sends, t)
    ensures forall p: Port :: |AdmissionRun.Enqueued(out, q, n - 1)[p]| <= |feed[p]|
  {
    var s, s' := RunGrows(k, out, q, cursor, n, size);
    sends := s'.sends;
    forall p: Port
      ensures |AdmissionRun.Enqueued(out, q, n - 1)[p]| <= |feed[p]|
    {
      ArrivalsGrow(AdmissionRun.Enqueued(out, q, n - 1), out.arrivals(n - 1), p);
    }
  }

  /**
   * Every send of a run under the refinement's assumptions is the round-robin pick: the cursor is
   * just past the send before it, and the queues hold exactly what was there at the beginning
   * and what arrived up to the send's own cycle, less what was admitted before it.
   */
  lemma {:induction false} RunTurns(k: Knobs, out: Outside, q: Queues, cursor: Port, n: nat, size: nat)
    returns (sends: seq<Send>)
    requires PlainRun(k, out, q, size)
    ensures sends == After(k, out, Begun(q, cursor), n).sends
    ensures Scheduled(Marks(k, out, q, cursor, n), Feeds(out, q, n), cursor, sends)
  {
    if n == 0 {
      sends := [];
    } else {
      var before := RunTurns(k, out, q, cursor, n - 1, size);
      var feed := AdmissionRun.Enqueued(out, q, n);
      sends := LaterTurns(k, out, q, cursor, n, size, before, feed);
      ScheduleGrows(Marks(k, out, q, cursor, n - 1), Feeds(out, q, n - 1), cursor, before, sends, feed);
    }
  }

  // ---- fairness

  /** Port p holds a burst at the time of send number t. */
  ghost predicate Waiting(marks: seq<nat>, feeds: seq<Queues>, sends: seq<Send>, t: nat, p: Port)
    requires marks != [] && |feeds| == |marks| && marks[0] <= t < marks[|marks| - 1] && t <= |sends|
  {
    |AcceptedFrom(sends[..t], p)| < |feeds[CycleOf(marks, t)][p]|
  }

  /** A later send is made in the same cycle or in a later one. */
  lemma {:induction false} CyclesInOrder(marks: seq<nat>, t: nat, t': nat)
    requires marks != [] && marks[0] <= t <= t' < marks[|marks| - 1]
    ensures CycleOf(marks, t) <= CycleOf(marks, t')
  {
    if |marks| == 1 {
    } else if t' < marks[|marks| - 2] {
      CyclesInOrder(marks[..|marks| - 1], t, t');
    }
  }

  /** A waiting port goes on waiting until it is served. */
  lemma WaitingStays(marks: seq<nat>, feeds: seq<Queues>, cursor: Port, sends: seq<Send>, t: nat, p: Port)
    requires Scheduled(marks, feeds, cursor, sends) && 0 < t < |sends|
    requires Waiting(marks, feeds, sends, t - 1, p) && sends[t - 1].pc != p
    ensures Waiting(marks, feeds, sends, t, p)
  {
    CyclesInOrder(marks, t - 1, t);
    assert Growing(feeds, p);
    assert sends[..t][..t - 1] == sends[..t - 1];
  }

  /** A turn taken past a waiting port brings the cursor closer to it, without passing it. */
  lemma TurnApproaches(enqueued: Queues, cursor: Port, sends: seq<Send>, t: nat, p: Port)
    requires t < |sends| && Turn(enqueued, cursor, sends, t) && HeldAt(enqueued, sends, t, p) != []
    ensures Distance(CursorAt(cursor, sends, t), sends[t].pc) <= Distance(CursorAt(cursor, sends, t), p)
    ensures sends[t].pc != p ==> Distance(Visit(sends[t].pc, 1), p) <= Distance(CursorAt(cursor, sends, t), p)
  {
    var c := CursorAt(cursor, sends, t);
    PickWithin(QueuesAt(enqueued, sends, t), c, 0, p);
    if sends[t].pc != p {
      ServiceApproaches(c, sends[t].pc, p);
    }
  }

  lemma CursorStep(marks: seq<nat>, feeds: seq<Queues>, cursor: Port, sends: seq<Send>, t: nat, p: Port)
    requires Scheduled(marks, feeds, cursor, sends) && 0 < t < |sends|
    requires Waiting(marks, feeds, sends, t - 1, p) && sends[t - 1].pc != p
    ensures Waiting(marks, feeds, sends, t, p)
    ensures Distance(CursorAt(cursor, sends, t), p) <= Distance(CursorAt(cursor, sends, t - 1), p)
  {
    assert OnTime(marks, feeds, cursor, sends, t - 1);
    TurnApproaches(feeds[CycleOf(marks, t - 1)], cursor, sends, t - 1, p);
    WaitingStays(marks, feeds, cursor, sends, t, p);
  }

  /** While p waits unserved, the cursor only comes closer to it. */
  lemma {:induction false} CursorStays(marks: seq<nat>, feeds: seq<Queues>, cursor: Port, sends: seq<Send>,
                                       a: nat, t: nat, p: Port)
    requires Scheduled(marks, feeds, cursor, sends) && a <= t < |sends| && Waiting(marks, feeds, sends, a, p)
    requires forall j :: a <= j < t ==> sends[j].pc != p
    ensures Waiting(marks, feeds, sends, t, p)
    ensures Distance(CursorAt(cursor, sends, t), p) <= Distance(CursorAt(cursor, sends, a), p)
    decreases t
  {
    if t == a {
    } else {
      CursorStays(marks, feeds, cursor, sends, a, t - 1, p);
      CursorStep(marks, feeds, cursor, sends, t, p);
    }
  }

  /** A send made while p waits, with the cursor between u and p, does not serve u. */
  lemma NotYet(marks: seq<nat>, feeds: seq<Queues>, cursor: Port, sends: seq<Send>, t: nat, u: Port, p: Port)
    requires Scheduled(marks, feeds, cursor, sends) && t < |sends| && Waiting(marks, feeds, sends, t, p) && u != p
    requires Distance(CursorAt(cursor, sends, t), p) <= Distance(Visit(u, 1), p)
    ensures sends[t].pc != u
  {
    BeyondTarget(CursorAt(cursor, sends, t), u, p);
    assert OnTime(marks, feeds, cursor, sends, t);
    TurnApproaches(feeds[CycleOf(marks, t)], cursor, sends, t, p);
  }

  lemma ScheduleFairness(marks: seq<nat>, feeds: seq<Queues>, cursor: Port, sends: seq<Send>, a: nat, j: nat, p: Port)
    requires Scheduled(marks, feeds, cursor, sends) && 0 < a <= j < |sends| && Waiting(marks, feeds, sends, a, p)
    requires sends[a - 1].pc == sends[j].pc != p
    ensures exists t :: a <= t < j && sends[t].pc == p
  {
    if forall t :: a <= t < j ==> sends[t].pc != p {
      CursorStays(marks, feeds, cursor, sends, a, j, p);
      NotYet(marks, feeds, cursor, sends, j, sends[a - 1].pc, p);
    }
  }

  /**
   * Fairness of runs: between send i - 1 and send j, both from u, a port p that holds a burst
   * at send i is admitted from as well; across sweeps, waves and cycles.
   */
  lemma RunFairness(k: Knobs, out: Outside, q: Queues, cursor: Port, n: nat, size: nat, i: nat, j: nat, u: Port,
                    p: Port)
    requires PlainRun(k, out, q, size) && u != p && 0 < i <= j < |After(k, out, Begun(q, cursor), n).sends|
    requires var sends := After(k, out, Begun(q, cursor), n).sends;
      && sends[i - 1].pc == sends[j].pc == u
      && Waiting(Marks(k, out, q, cursor, n), Feeds(out, q, n), sends, i, p)
    ensures exists t :: i <= t < j && After(k, out, Begun(q, cursor), n).sends[t].pc == p
  {
    var sends := RunTurns(k, out, q, cursor, n, size);
    ScheduleFairness(Marks(k, out, q, cursor, n), Feeds(out, q, n), cursor, sends, i, j, p);
  }

  // ---- one unlimited cycle

  /** Nothing stands in the way of an admission. */
  ghost predicate Unlimited(k: Knobs, out: Outside) {
    (forall n :: out.answers(n)) && !k.serialize && k.peakGbps <= 0.0
  }

  function Drop(bs: seq<MemoryBurst>, n: nat): seq<MemoryBurst> {
    if n <= |bs| then bs[n..] else []
  }

  /** A sweep takes one burst from every non-empty port that it visits. */
  lemma {:induction false} SweptRemoves(k: Knobs, out: Outside, s: State, start: Port, n: nat, p: Port)
    requires Unlimited(k, out) && n <= 16
    ensures Swept(k, out, s, start, n).queues[p] == if Distance(start, p) < n then Drop(s.queues[p], 1) else s.queues[p]
  {
    if n == 0 {
    } else {
      SweptRemoves(k, out, s, start, n - 1, p);
      VisitDistance(start, n - 1, p);
    }
  }

  lemma VisitDistance(start: Port, n: nat, p: Port)
    requires n < 16
    ensures Visit(start, n) == p <==> Distance(start, p) == n
  {
    VisitUndoesDistance(start, p, n);
  }

  lemma {:induction false} SweptProgress(k: Knobs, out: Outside, s: State, start: Port, n: nat, p: Port)
    requires Unlimited(k, out) && n <= 16 && s.queues[p] != [] && Distance(start, p) < n
    ensures Swept(k, out, s, start, n).outstanding > s.outstanding
  {
    Stall.Monotone(k, out, s, start, n);
    if Distance(start, p) < n - 1 {
      SweptProgress(k, out, s, start, n - 1, p);
    } else {
      VisitDistance(start, n - 1, p);
      SweptRemoves(k, out, s, start, n - 1, p);
      AttemptAccepts(k, out, Swept(k, out, s, start, n - 1), p);
    }
  }

  lemma AttemptAccepts(k: Knobs, out: Outside, s: State, p: Port)
    requires Unlimited(k, out) && s.queues[p] != []
    ensures Attempt(k, out, s, p).outstanding == s.outstanding + 1
  {
  }

  /** The waves from number n on take one burst each from every port that still has one. */
  lemma {:induction false} WavesRemove(k: Knobs, out: Outside, s: State, n: nat, p: Port)
    requires Unlimited(k, out) && n <= MAX_WAVES
    ensures Waves(k, out, s, n).queues[p] == Drop(s.queues[p], MAX_WAVES - n)
    decreases MAX_WAVES - n
  {
    if n == MAX_WAVES {
    } else {
      var w := Wave(k, out, s);
      SweptRemoves(k, out, s, s.cursor, 16, p);
      if Progress(s, w) {
        WavesRemove(k, out, w, n + 1, p);
      } else if s.queues[p] != [] {
        SweptProgress(k, out, s, s.cursor, 16, p);
        assert false;
      }
    }
  }

  /**
   * Without a cap, one cycle removes exactly min(length, 256) bursts from the front of every
   * port's queue, as it stands after the cycle's arrivals.
   */
  lemma UnlimitedCycle(k: Knobs, out: Outside, s: State, p: Port)
    requires Unlimited(k, out)
    ensures Cycled(k, out, s).queues[p] == Drop(EnqueuedAll(s.queues, out.arrivals(s.cycles))[p], 256)
  {
    WavesRemove(k, out, Refilled(out, s), 0, p);
    RepliesOnlyComplete(Waves(k, out, Refilled(out, s), 0), out.completions(s.cycles));
  }
}
