/** Whole gather batches under any interleaving of ticks, memory replies and buffer reads. */
module GatherRun {
  import opened Ports
  import opened Piccolo

  /** What can happen to a controller between two resets; both buffers are open to the outside. */
  datatype Event = IssueTick | Reply(value: nat) | Take | PushOffset(offset: nat)

  /** A controller and its history: offsets stored, reads issued, values replied, taken and lost. */
  datatype Trace = Trace(g: Gather, offsets: seq<nat>, sent: seq<MemoryBurst>, replies: seq<nat>, taken: nat, lost: nat)

  ghost function Next(t: Trace, e: Event): Trace {
    match e
    case IssueTick =>
      var (g, bursts) := Issue(t.g);
      t.(g := g, sent := t.sent + bursts)
    case Reply(value) =>
      if t.g.outstanding == 0 then t.(g := Completed(t.g, value))
      else t.(g := Completed(t.g, value), replies := t.replies + [value],
              lost := t.lost + if |t.g.db| < t.g.dbCap then 0 else 1)
    case Take =>
      if t.g.db == [] then t else t.(g := t.g.(db := t.g.db[1..]), taken := t.taken + 1)
    case PushOffset(offset) =>
      t.(g := t.g.(ob := BoundedPush(t.g.ob, t.g.obCap, offset)),
         offsets := t.offsets + if |t.g.ob| < t.g.obCap then [offset] else [])
  }

  ghost function Run(t: Trace, es: seq<Event>): Trace {
    if es == [] then t else Next(Run(t, es[..|es| - 1]), es[|es| - 1])
  }

  /** A controller just constructed or reset, perhaps with offsets loaded; nothing is outstanding. */
  ghost predicate Armed(g: Gather) {
    g.issued == 0 && g.completed == 0 && g.outstanding == 0 && g.db == [] && |g.ob| <= g.obCap
  }

  ghost function Begin(g: Gather): Trace {
    Trace(g, g.ob, [], [], 0, 0)
  }

  /** What every interleaving keeps. */
  ghost predicate Inv(g0: Gather, t: Trace) {
    && t.g == g0.(ob := t.g.ob, db := t.g.db, issued := t.g.issued, completed := t.g.completed,
                  outstanding := t.g.outstanding)
    && t.g.issued == |t.sent| == t.g.completed + t.g.outstanding
    && t.g.completed == |t.replies|
    && t.g.issued <= g0.numElems && t.g.outstanding <= g0.maxOutstanding
    && g0.ob <= t.offsets && t.g.issued <= |t.offsets| && t.g.ob == t.offsets[t.g.issued..] && |t.g.ob| <= g0.obCap
    && (forall k :: 0 <= k < |t.sent| ==> t.sent[k] == ReadBurst(g0, t.offsets[k]))
    && t.taken + |t.g.db| + t.lost == |t.replies|
    && |t.g.db| <= g0.dbCap
    && (t.lost == 0 ==> t.g.db == t.replies[t.taken..])
  }

  lemma IssueKeeps(g0: Gather, t: Trace)
    requires Inv(g0, t)
    ensures Inv(g0, Next(t, IssueTick))
  {
    if t.g.MayIssue() {
      assert t.offsets[t.g.issued..][1..] == t.offsets[t.g.issued + 1..];
    }
  }

  lemma ReplyKeeps(g0: Gather, t: Trace, value: nat)
    requires Inv(g0, t)
    ensures Inv(g0, Next(t, Reply(value)))
  {
    if t.g.outstanding > 0 {
      assert (t.replies + [value])[t.taken..] == t.replies[t.taken..] + [value];
    }
  }

  lemma TakeKeeps(g0: Gather, t: Trace)
    requires Inv(g0, t)
    ensures Inv(g0, Next(t, Take))
  {
    if t.g.db != [] {
      assert t.replies[t.taken..] == t.g.db ==> t.replies[t.taken..][1..] == t.replies[t.taken + 1..];
    }
  }

  lemma PushKeeps(g0: Gather, t: Trace, offset: nat)
    requires Inv(g0, t)
    ensures Inv(g0, Next(t, PushOffset(offset)))
  {
    assert (t.offsets + [offset])[t.g.issued..] == t.offsets[t.g.issued..] + [offset];
  }

  lemma StepKeeps(g0: Gather, t: Trace, e: Event) returns (t': Trace)
    requires Inv(g0, t)
    ensures t' == Next(t, e) && Inv(g0, t')
  {
    t' := Next(t, e);
    match e {
      case IssueTick => IssueKeeps(g0, t);
      case Reply(value) => ReplyKeeps(g0, t, value);
      case Take => TakeKeeps(g0, t);
      case PushOffset(offset) => PushKeeps(g0, t, offset);
    }
  }

  /**
   * Gather protocol: in every reachable state reads issued equal replies plus reads outstanding,
   * the outstanding count stays within its limit, and the k-th read asks for the k-th offset
   * that was ever stored.
   */
  lemma {:induction false} ProtocolInvariant(g0: Gather, es: seq<Event>)
    requires Armed(g0)
    ensures Inv(g0, Run(Begin(g0), es))
  {
    if es == [] {
      assert g0.ob[0..] == g0.ob;
    } else {
      ProtocolInvariant(g0, es[..|es| - 1]);
      var t := StepKeeps(g0, Run(Begin(g0), es[..|es| - 1]), es[|es| - 1]);
    }
  }

  /** When some schedule can make the data buffer ignore a value. */
  predicate CanLose(g0: Gather) {
    1 <= g0.obCap && 1 <= g0.dbCap && 2 <= g0.maxOutstanding && g0.dbCap < g0.numElems
  }

  /** Whether a reply that finds reads outstanding is sure to find room. */
  ghost predicate RoomForReply(g0: Gather, t: Trace) {
    t.lost == 0 && (t.g.outstanding > 0 ==> |t.g.db| < g0.dbCap && 1 <= g0.obCap)
  }

  lemma {:induction false} KeepsRoom(g0: Gather, es: seq<Event>)
    requires Armed(g0) && !CanLose(g0)
    ensures RoomForReply(g0, Run(Begin(g0), es))
  {
    if es == [] {
    } else {
      KeepsRoom(g0, es[..|es| - 1]);
      ProtocolInvariant(g0, es[..|es| - 1]);
      ProtocolInvariant(g0, es);
    }
  }

  /** A schedule that fills the buffer to one below its capacity, one read at a time. */
  ghost function Fill(n: nat): seq<Event> {
    if n == 0 then [] else Fill(n - 1) + [PushOffset(0)] + [IssueTick] + [Reply(0)]
  }

  lemma RunAppends(t: Trace, es: seq<Event>, e: Event)
    ensures Run(t, es + [e]) == Next(Run(t, es), e)
  {
    assert (es + [e])[..|es|] == es;
  }

  /** Whether an offset pushed now lets the next tick issue a read. */
  ghost predicate Open(g: Gather) {
    1 <= g.obCap && g.issued < g.numElems && g.outstanding < g.maxOutstanding && |g.db| < g.dbCap
  }

  /** The controller after one read has been fed an offset and issued. */
  ghost function FedTick(t: Trace): Trace {
    Next(Next(t, PushOffset(0)), IssueTick)
  }

  lemma OneIssue(t: Trace)
    requires Open(t.g)
    ensures var t' := FedTick(t);
      t'.g == t.g.(ob := t'.g.ob, issued := t.g.issued + 1, outstanding := t.g.outstanding + 1)
      && t'.lost == t.lost
  {
  }

  lemma OneRead(t: Trace)
    requires Open(t.g)
    ensures var t' := Next(FedTick(t), Reply(0));
      t'.g.issued == t.g.issued + 1 && t'.g.completed == t.g.completed + 1 && t'.g.outstanding == t.g.outstanding
      && |t'.g.db| == |t.g.db| + 1 && t'.lost == t.lost
  {
    OneIssue(t);
  }

  lemma TwoReads(t: Trace)
    requires Open(t.g) && t.g.issued + 2 <= t.g.numElems
    requires t.g.outstanding == 0 && 2 <= t.g.maxOutstanding && |t.g.db| == t.g.dbCap - 1
    ensures Next(Next(FedTick(FedTick(t)), Reply(0)), Reply(0)).lost == t.lost + 1
  {
    OneIssue(t);
    OneIssue(FedTick(t));
  }

  /** After n reads, each replied to before the next one. */
  ghost predicate Filled(t: Trace, n: nat) {
    t.g.issued == n && t.g.completed == n && t.g.outstanding == 0 && |t.g.db| == n && t.lost == 0
  }

  lemma {:induction false} FillRun(g0: Gather, n: nat) returns (t: Trace)
    requires Armed(g0) && CanLose(g0) && n < g0.dbCap
    ensures t == Run(Begin(g0), Fill(n)) && Filled(t, n)
  {
    if n == 0 {
      t := Begin(g0);
    } else {
      var before := FillRun(g0, n - 1);
      ProtocolInvariant(g0, Fill(n - 1));
      OneRead(before);
      t := OneReadRuns(Begin(g0), Fill(n - 1));
    }
  }

  lemma OneReadRuns(t: Trace, es: seq<Event>) returns (t': Trace)
    ensures t' == Run(t, es + [PushOffset(0)] + [IssueTick] + [Reply(0)])
    ensures t' == Next(FedTick(Run(t, es)), Reply(0))
  {
    RunAppends(t, es, PushOffset(0));
    RunAppends(t, es + [PushOffset(0)], IssueTick);
    RunAppends(t, es + [PushOffset(0)] + [IssueTick], Reply(0));
    t' := Next(FedTick(Run(t, es)), Reply(0));
  }

  /** Two reads issued into one free place, and both their replies. */
  ghost function Overfill(n: nat): seq<Event> {
    FedTwice(Fill(n)) + [Reply(0)] + [Reply(0)]
  }

  ghost function FedTwice(es: seq<Event>): seq<Event> {
    es + [PushOffset(0)] + [IssueTick] + [PushOffset(0)] + [IssueTick]
  }

  lemma FedTwiceRuns(t: Trace, es: seq<Event>)
    ensures Run(t, FedTwice(es)) == FedTick(FedTick(Run(t, es)))
  {
    RunAppends(t, es, PushOffset(0));
    RunAppends(t, es + [PushOffset(0)], IssueTick);
    RunAppends(t, es + [PushOffset(0)] + [IssueTick], PushOffset(0));
    RunAppends(t, es + [PushOffset(0)] + [IssueTick] + [PushOffset(0)], IssueTick);
  }

  lemma OverfillLoses(g0: Gather)
    requires Armed(g0) && CanLose(g0)
    ensures Run(Begin(g0), Overfill(g0.dbCap - 1)).lost == 1
  {
    var a := Fill(g0.dbCap - 1);
    var t := FillRun(g0, g0.dbCap - 1);
    ProtocolInvariant(g0, a);
    TwoReads(t);
    FedTwiceRuns(Begin(g0), a);
    RunAppends(Begin(g0), FedTwice(a), Reply(0));
    RunAppends(Begin(g0), FedTwice(a) + [Reply(0)], Reply(0));
  }

  /**
   * The full test at issue time does not reserve room for the reads already outstanding: some
   * schedule loses a gathered value if and only if the batch is larger than a non-empty data
   * buffer, offsets can be stored at all, and two reads may be in flight.
   */
  lemma LosesIff(g0: Gather)
    requires Armed(g0)
    ensures (exists es :: Run(Begin(g0), es).lost > 0) <==> CanLose(g0)
  {
    if CanLose(g0) {
      OverfillLoses(g0);
    } else {
      forall es
        ensures Run(Begin(g0), es).lost == 0
      {
        KeepsRoom(g0, es);
      }
    }
  }

  /** A controller as it is constructed can lose a value exactly when its batch exceeds 256 elements. */
  lemma ConstructedLosesIff(pcId: Port, base: nat, elemBytes: nat, numElems: nat)
    ensures (exists es :: Run(Begin(NewGather(pcId, base, elemBytes, numElems)), es).lost > 0) <==> 256 < numElems
  {
    LosesIff(NewGather(pcId, base, elemBytes, numElems));
  }

  /** Events still to come before the batch is done: one issue and one reply per element. */
  ghost function Remaining(t: Trace): int {
    2 * t.g.numElems - t.g.issued - t.g.completed
  }

  /** Whether an event makes the batch advance. */
  ghost predicate Effective(t: Trace, e: Event) {
    (e == IssueTick && t.g.MayIssue()) || (e.Reply? && t.g.outstanding > 0)
  }

  /**
   * Progress: with enough offsets stored, a buffer that holds the batch and a positive limit, a batch
   * that is not done always has a read to issue or a reply to wait for, and exactly the
   * effective events bring it one step closer.
   */
  lemma Progress(g0: Gather, es: seq<Event>, e: Event)
    requires Armed(g0) && g0.numElems <= g0.dbCap && 1 <= g0.maxOutstanding
    requires g0.numElems <= |Run(Begin(g0), es).offsets|
    ensures var t := Run(Begin(g0), es);
      && (t.g.Done() <==> Remaining(t) == 0)
      && (!t.g.Done() ==> t.g.MayIssue() || t.g.outstanding > 0)
      && Remaining(Next(t, e)) == Remaining(t) - (if Effective(t, e) then 1 else 0)
      && 0 <= Remaining(Next(t, e))
  {
    ProtocolInvariant(g0, es);
    var t' := StepKeeps(g0, Run(Begin(g0), es), e);
  }

  /** A finished batch holds every gathered value, in the order of the replies. */
  lemma NothingLost(g0: Gather, es: seq<Event>)
    requires Armed(g0) && g0.numElems <= g0.dbCap
    ensures var t := Run(Begin(g0), es);
      && t.lost == 0 && t.taken <= |t.replies| && t.g.db == t.replies[t.taken..]
      && (t.g.Done() ==> |t.replies| == g0.numElems)
  {
    KeepsRoom(g0, es);
    ProtocolInvariant(g0, es);
  }
}
