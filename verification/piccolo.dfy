/** The Piccolo gather controller: two ring buffers and a counted read protocol. */
module Piccolo {
  import opened Arith
  import opened Ports

  /** The ring position of the i-th value after the head. */
  function Slot(head: nat, i: nat, cap: nat): nat
    requires head < cap && i < cap
  {
    if head + i < cap then head + i else head + i - cap
  }

  lemma SlotIsMod(head: nat, i: nat, cap: nat)
    requires head < cap && i < cap
    ensures (head + i) % cap == Slot(head, i, cap)
  {
    DivModUnique(head + i, cap, if head + i < cap then 0 else 1, Slot(head, i, cap));
  }

  /** A bounded FIFO of 32-bit words that ignores pushes when full and pops when empty. */
  class RingBuffer {
    const cap: nat
    const data: array<nat>
    var head: nat
    var size: nat

    ghost predicate Valid()
      reads this
    {
      data.Length == cap && size <= cap && (cap == 0 || head < cap)
    }

    /** The stored values, oldest first. */
    ghost function Contents(): (s: seq<nat>)
      requires Valid()
      reads this, data
      ensures |s| == size
    {
      seq(size, i requires 0 <= i < size && Valid() reads this, data => data[Slot(head, i, cap)])
    }

    constructor (capacity: nat)
      ensures Valid() && fresh(data)
      ensures cap == capacity && Contents() == []
    {
      cap := capacity;
      data := new nat[capacity](_ => 0);
      head, size := 0, 0;
    }

    method Clear()
      requires Valid()
      modifies this
      ensures Valid() && Contents() == []
    {
      head := 0;
      size := 0;
    }

    method Push(v: nat)
      requires Valid()
      modifies this`size, data
      ensures Valid()
      ensures Contents() == BoundedPush(old(Contents()), cap, v)
    {
      if size >= cap {
        return;
      }
      ghost var before := Contents();
      SlotIsMod(head, size, cap);
      data[(head + size) % cap] := v;
      size := size + 1;
      assert Contents() == before + [v];
    }

    method Front() returns (v: nat)
      requires Valid()
      ensures v == if Contents() == [] then 0 else Contents()[0]
    {
      if size == 0 {
        return 0;
      }
      return data[head];
    }

    method Pop()
      requires Valid()
      modifies this
      ensures Valid()
      ensures Contents() == if old(Contents()) == [] then [] else old(Contents())[1..]
    {
      if size == 0 {
        return;
      }
      ghost var before := Contents();
      DivModUnique(head + 1, cap, if head + 1 < cap then 0 else 1, if head + 1 < cap then head + 1 else 0);
      head := (head + 1) % cap;
      size := size - 1;
      assert Contents() == before[1..];
    }
  }

  function BoundedPush(s: seq<nat>, cap: nat, v: nat): seq<nat> {
    if |s| >= cap then s else s + [v]
  }

  /** Addresses are 64-bit words. */
  const WORD64: nat := 0x1_0000_0000_0000_0000

  /** The state of one controller. */
  datatype Gather = Gather(pcId: Port, ob: seq<nat>, obCap: nat, db: seq<nat>, dbCap: nat, maxOutstanding: nat,
                           base: nat, elemBytes: nat, numElems: nat, issued: nat, completed: nat, outstanding: nat)
  {
    predicate Done() {
      completed >= numElems
    }

    /** Whether a tick issues a read. */
    predicate MayIssue() {
      issued < numElems && outstanding < maxOutstanding && ob != [] && |db| < dbCap
    }
  }

  /** A controller just constructed: two empty buffers of 256 words, and eight reads at a time. */
  function NewGather(pcId: Port, base: nat, elemBytes: nat, numElems: nat): Gather {
    Gather(pcId, [], 256, [], 256, 8, base, elemBytes, numElems, 0, 0, 0)
  }

  function ReadBurst(g: Gather, offset: nat): MemoryBurst {
    MemoryBurst((g.base + offset * g.elemBytes) % WORD64, g.elemBytes, g.pcId, PiccoloRead)
  }

  /** A tick: the next state and the bursts, none or one, that it enqueues. */
  function Issue(g: Gather): (Gather, seq<MemoryBurst>) {
    if g.MayIssue() then
      (g.(ob := g.ob[1..], issued := g.issued + 1, outstanding := g.outstanding + 1), [ReadBurst(g, g.ob[0])])
    else (g, [])
  }

  /** A read returns; a reply with nothing outstanding is ignored. */
  function Completed(g: Gather, value: nat): Gather {
    if g.outstanding == 0 then g
    else g.(db := BoundedPush(g.db, g.dbCap, value), outstanding := g.outstanding - 1, completed := g.completed + 1)
  }

  function Rearmed(g: Gather, numElems: nat): Gather {
    g.(ob := [], db := [], numElems := numElems, issued := 0, completed := 0, outstanding := 0)
  }

  class PiccoloGatherController {
    const pcId: Port
    const mux: PseudoChannelMultiplexer
    const ob: RingBuffer
    const db: RingBuffer
    var maxOutstanding: nat
    var base: nat
    var elemBytes: nat
    var numElems: nat
    var issued: nat
    var completed: nat
    var outstanding: nat

    /** Everything that belongs to this controller alone. */
    ghost function Own(): set<object> {
      {this, ob, ob.data, db, db.data}
    }

    ghost predicate Valid()
      reads this, ob, db
    {
      && ob.Valid() && db.Valid() && mux.Valid()
      && ob != db && ob.data != db.data && {mux, mux.ports} !! Own()
    }

    ghost function Contents(): Gather
      requires Valid()
      reads Own()
    {
      Gather(pcId, ob.Contents(), ob.cap, db.Contents(), db.cap, maxOutstanding,
             base, elemBytes, numElems, issued, completed, outstanding)
    }

    constructor (pcId: Port, mux: PseudoChannelMultiplexer, base: nat, elemBytes: nat, numElems: nat)
      requires mux.Valid()
      ensures Valid() && this.mux == mux && fresh(Own())
      ensures Contents() == NewGather(pcId, base, elemBytes, numElems)
      ensures ob.cap == 256 && db.cap == 256 && maxOutstanding == 8
    {
      this.pcId, this.mux := pcId, mux;
      ob := new RingBuffer(256);
      db := new RingBuffer(256);
      maxOutstanding := 8;
      this.base, this.elemBytes, this.numElems := base, elemBytes, numElems;
      issued, completed, outstanding := 0, 0, 0;
    }

    method TickIssue()
      requires Valid()
      modifies this`issued, this`outstanding, ob, mux.ports
      ensures Valid()
      ensures Contents() == Issue(old(Contents())).0
      ensures mux.Contents() == EnqueuedAll(old(mux.Contents()), Issue(old(Contents())).1)
    {
      if issued < numElems && outstanding < maxOutstanding && ob.size != 0 && db.size < db.cap {
        var off := ob.Front();
        ob.Pop();
        var b := MemoryBurst((base + off * elemBytes) % WORD64, elemBytes, pcId, PiccoloRead);
        mux.Enqueue(b);
        issued := issued + 1;
        outstanding := outstanding + 1;
        EnqueuedSingle(old(mux.Contents()), b);
      }
    }

    method OnReadComplete(value: nat)
      requires Valid()
      modifies this`outstanding, this`completed, db`size, db.data
      ensures Valid()
      ensures Contents() == Completed(old(Contents()), value)
    {
      if outstanding == 0 {
        return;
      }
      db.Push(value);
      outstanding := outstanding - 1;
      completed := completed + 1;
    }

    method ResetForNewBatch(newNumElems: nat)
      requires Valid()
      modifies this, ob, db
      ensures Valid()
      ensures Contents() == Rearmed(old(Contents()), newNumElems)
      ensures ob.Contents() == [] && db.Contents() == [] && numElems == newNumElems
      ensures issued == 0 && completed == 0 && outstanding == 0
      ensures base == old(base) && elemBytes == old(elemBytes) && maxOutstanding == old(maxOutstanding)
    {
      ob.Clear();
      db.Clear();
      numElems := newNumElems;
      issued, completed, outstanding := 0, 0, 0;
    }

    method SetBaseAddr(newBase: nat)
      modifies this`base
      ensures base == newBase
    {
      base := newBase;
    }
  }

  lemma EnqueuedSingle(q: Queues, b: MemoryBurst)
    ensures EnqueuedAll(q, [b]) == Enqueued(q, b)
  {
    assert [b][..0] == [];
    assert EnqueuedAll(q, []) == q;
  }
}
