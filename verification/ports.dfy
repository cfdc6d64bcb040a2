/** Sixteen pseudo-channel queues and the round-robin cursor that arbitrates between them. */
module Ports {

  /** Who, if anyone, is called back when a burst completes. */
  datatype Callback = NoCallback | PiccoloRead | CoreReply | HiddenStateReply

  type Port = p: int | 0 <= p < 16

  datatype MemoryBurst = MemoryBurst(addr: nat, sizeBytes: nat, pcId: Port, onComplete: Callback)

  /** The pending bursts of every port, front first. */
  type Queues = q: seq<seq<MemoryBurst>> | |q| == 16 witness NoBursts()

  function NoBursts(): seq<seq<MemoryBurst>> {
    seq(16, _ => [])
  }

  /** The k-th port of a sweep that starts at the cursor. */
  function Visit(cursor: Port, k: nat): Port {
    (cursor + k) % 16
  }

  /** The first non-empty port at or after position k of a sweep, or -1. */
  function PickFrom(q: Queues, cursor: Port, k: nat): (pc: int)
    requires k <= 16
    ensures pc == -1 || (0 <= pc < 16 && q[pc] != [])
    decreases 16 - k
  {
    if k == 16 then -1
    else if q[Visit(cursor, k)] != [] then Visit(cursor, k)
    else PickFrom(q, cursor, k + 1)
  }

  /** The port that round robin serves next, or -1 when every port is empty. */
  function Pick(q: Queues, cursor: Port): int {
    PickFrom(q, cursor, 0)
  }

  function Enqueued(q: Queues, b: MemoryBurst): Queues {
    q[b.pcId := q[b.pcId] + [b]]
  }

  /** All the bursts of bs enqueued in order, each at its own port. */
  function EnqueuedAll(q: Queues, bs: seq<MemoryBurst>): Queues {
    if bs == [] then q else Enqueued(EnqueuedAll(q, bs[..|bs| - 1]), bs[|bs| - 1])
  }

  /** The number of bursts pending at the first n ports. */
  function Pending(q: Queues, n: nat): nat
    requires n <= 16
  {
    if n == 0 then 0 else Pending(q, n - 1) + |q[n - 1]|
  }

  class PseudoChannelMultiplexer {
    const ports: array<seq<MemoryBurst>>
    var rrCursor: Port

    ghost predicate Valid() {
      ports.Length == 16
    }

    ghost function Contents(): Queues
      requires Valid()
      reads ports
    {
      ports[..]
    }

    constructor ()
      ensures Valid() && fresh(ports)
      ensures Contents() == NoBursts() && rrCursor == 0
    {
      ports := new seq<MemoryBurst>[16](_ => []);
      rrCursor := 0;
    }

    method Enqueue(b: MemoryBurst)
      requires Valid()
      modifies ports
      ensures Contents() == Enqueued(old(Contents()), b)
      ensures ports[b.pcId] == old(ports[b.pcId]) + [b]
      ensures forall p: Port :: p != b.pcId ==> ports[p] == old(ports[p])
    {
      ports[b.pcId] := ports[b.pcId] + [b];
    }

    method PickNextRoundRobin() returns (pc: int)
      requires Valid()
      ensures pc == Pick(Contents(), rrCursor)
    {
      for k := 0 to 16
        invariant Pick(Contents(), rrCursor) == PickFrom(Contents(), rrCursor, k)
      {
        var candidate := (rrCursor + k) % 16;
        if ports[candidate] != [] {
          return candidate;
        }
      }
      return -1;
    }

    method AdvanceAfterIssue(pc: Port)
      modifies this`rrCursor
      ensures rrCursor == Visit(pc, 1) && rrCursor == if pc == 15 then 0 else pc + 1
    {
      rrCursor := (pc + 1) % 16;
    }

    method TotalPendingBursts() returns (n: nat)
      requires Valid()
      ensures n == |ports[0]| + |ports[1]| + |ports[2]| + |ports[3]| + |ports[4]| + |ports[5]| + |ports[6]| + |ports[7]|
                   + |ports[8]| + |ports[9]| + |ports[10]| + |ports[11]| + |ports[12]| + |ports[13]| + |ports[14]|
                   + |ports[15]|
      ensures n == Pending(Contents(), 16)
      ensures n == 0 <==> Pick(Contents(), rrCursor) == -1
    {
      n := 0;
      for i := 0 to 16
        invariant n == Pending(Contents(), i)
      {
        n := n + |ports[i]|;
      }
      IdleIffEmpty(Contents(), rrCursor);
      PendingFour(Contents(), 0);
      PendingFour(Contents(), 4);
      PendingFour(Contents(), 8);
      PendingFour(Contents(), 12);
    }
  }

  lemma PendingFour(q: Queues, n: nat)
    requires n + 4 <= 16
    ensures Pending(q, n + 4) == Pending(q, n) + |q[n]| + |q[n + 1]| + |q[n + 2]| + |q[n + 3]|
  {
    assert Pending(q, n + 2) == Pending(q, n + 1) + |q[n + 1]|;
    assert Pending(q, n + 3) == Pending(q, n + 2) + |q[n + 2]|;
  }

  /** How far port p lies ahead of the cursor, going up and wrapping around after 15. */
  function Ahead(cursor: Port, p: Port): nat {
    if cursor <= p then p - cursor else p - cursor + 16
  }

  lemma VisitAhead(cursor: Port, k: nat)
    requires k < 16
    ensures Ahead(cursor, Visit(cursor, k)) == k
  {
  }

  lemma SamePlace(cursor: Port, p: Port, r: Port)
    requires Ahead(cursor, p) == Ahead(cursor, r)
    ensures p == r
  {
  }

  lemma {:induction false} FirstFrom(q: Queues, cursor: Port, k: nat)
    requires k <= 16 && PickFrom(q, cursor, k) != -1
    requires forall p: Port :: Ahead(cursor, p) < k ==> q[p] == []
    ensures forall p: Port :: Ahead(cursor, p) < Ahead(cursor, PickFrom(q, cursor, k)) ==> q[p] == []
    decreases 16 - k
  {
    VisitAhead(cursor, k);
    if q[Visit(cursor, k)] == [] {
      forall p: Port | Ahead(cursor, p) < k + 1
        ensures q[p] == []
      {
        if Ahead(cursor, p) == k {
          SamePlace(cursor, p, Visit(cursor, k));
        }
      }
      FirstFrom(q, cursor, k + 1);
    }
  }

  /** The pick is the first port with work on the way up from the cursor, wrapping around after 15. */
  lemma PickIsFirst(q: Queues, cursor: Port, pc: Port)
    requires Pick(q, cursor) == pc
    ensures q[pc] != []
    ensures cursor <= pc ==> forall p: Port :: cursor <= p < pc ==> q[p] == []
    ensures pc < cursor ==> forall p: Port :: p < pc || cursor <= p ==> q[p] == []
  {
    FirstFrom(q, cursor, 0);
    assert forall p: Port :: Ahead(cursor, p) < Ahead(cursor, pc) ==> q[p] == [];
  }

  /** Bursts of one cycle are enqueued one after the other, in their order. */
  lemma {:induction false} EnqueuedInOrder(q: Queues, a: seq<MemoryBurst>, b: seq<MemoryBurst>)
    ensures EnqueuedAll(q, a + b) == EnqueuedAll(EnqueuedAll(q, a), b)
  {
    if b == [] {
      assert a + b == a;
    } else {
      assert (a + b)[..|a + b| - 1] == a + b[..|b| - 1];
      EnqueuedInOrder(q, a, b[..|b| - 1]);
    }
  }

  /** A single burst joins the back of its own port. */
  lemma EnqueuedOne(q: Queues, b: MemoryBurst, p: Port)
    ensures EnqueuedAll(q, [b])[p] == if p == b.pcId then q[p] + [b] else q[p]
  {
    assert [b][..0] == [];
    assert EnqueuedAll(q, []) == q;
  }

  /** Pick fails exactly when every port is empty. */
  lemma PickFindsWork(q: Queues, cursor: Port)
    ensures Pick(q, cursor) == -1 <==> forall p: Port :: q[p] == []
  {
    if p: Port :| q[p] != [] {
      var k := (p - cursor) % 16;
      assert Visit(cursor, k) == p;
      PickReaches(q, cursor, 0, k);
    }
  }

  lemma {:induction false} PickReaches(q: Queues, cursor: Port, k: nat, target: nat)
    requires k <= target < 16 && q[Visit(cursor, target)] != []
    ensures PickFrom(q, cursor, k) != -1
    decreases target - k
  {
    if k < target && q[Visit(cursor, k)] == [] {
      PickReaches(q, cursor, k + 1, target);
    }
  }

  lemma {:induction false} PendingZero(q: Queues, n: nat)
    requires n <= 16
    ensures Pending(q, n) == 0 <==> forall p :: 0 <= p < n ==> q[p] == []
  {
    if n == 0 {
    } else {
      PendingZero(q, n - 1);
    }
  }

  lemma IdleIffEmpty(q: Queues, cursor: Port)
    ensures Pending(q, 16) == 0 <==> Pick(q, cursor) == -1
  {
    PendingZero(q, 16);
    PickFindsWork(q, cursor);
  }
}
