/** The gather stage, vault by vault: which reads it sends and what it hands to the feeder. */
module VertexGather {
  import opened Vectors
  import opened Feeder
  import opened Ports
  import opened Piccolo
  import opened Vertex
  import opened VertexRun
  import GatherRun

  // ---- what one controller sees of a run

  ghost function RepliesTo(v: nat, replies: seq<(nat, nat)>): seq<GatherRun.Event> {
    if replies == [] then []
    else
      var (u, value) := replies[|replies| - 1];
      RepliesTo(v, replies[..|replies| - 1]) + if u == v then [GatherRun.Reply(value)] else []
  }

  /** The events at vault v in the first n cycles: a tick, then the replies of that cycle. */
  ghost function EventsOf(cys: seq<Cycle>, v: nat, n: nat): seq<GatherRun.Event>
    requires n <= |cys|
  {
    if n == 0 then [] else EventsOf(cys, v, n - 1) + [GatherRun.IssueTick] + RepliesTo(v, cys[n - 1].replies)
  }

  lemma {:induction false} RunConcat(t: GatherRun.Trace, a: seq<GatherRun.Event>, b: seq<GatherRun.Event>)
    ensures GatherRun.Run(t, a + b) == GatherRun.Run(GatherRun.Run(t, a), b)
  {
    if b == [] {
      assert a + b == a;
    } else {
      assert (a + b)[..|a + b| - 1] == a + b[..|b| - 1];
      RunConcat(t, a, b[..|b| - 1]);
    }
  }

  lemma {:induction false} RepliedIsRun(ps: seq<Option<Gather>>, replies: seq<(nat, nat)>, v: nat, t: GatherRun.Trace)
    requires v < |ps| && ps[v] == Some(t.g)
    ensures Replied(ps, replies)[v] == Some(GatherRun.Run(t, RepliesTo(v, replies)).g)
  {
    if replies == [] {
    } else {
      var before := replies[..|replies| - 1];
      var (u, value) := replies[|replies| - 1];
      RepliedIsRun(ps, before, v, t);
      if u == v {
        GatherRun.RunAppends(t, RepliesTo(v, before), GatherRun.Reply(value));
      } else {
        assert RepliesTo(v, replies) == RepliesTo(v, before);
      }
    }
  }

  /** One cycle of the gather stage, on the controllers and the vaults. */
  lemma GatherLink(env: Env, w: World, w': World, cy: Cycle)
    requires Link(env, w, w', cy) && w.ctl.stage == Gathering
    ensures w'.ctl.stage == Gathering <==> !AllGathered(IssuedAll(w.piccolos))
    ensures w'.piccolos == Replied(Polled(env, w.piccolos, w.bays).0, cy.replies)
    ensures w'.bays == Polled(env, w.piccolos, w.bays).1
  {
    assert Open(0);
  }

  lemma GatherAt(env: Env, ws: seq<World>, cys: seq<Cycle>, i: nat)
    requires IsRun(env, ws, cys) && i < |cys| && ws[i].ctl.stage == Gathering
    ensures ws[i].Sized() && ws[i + 1].Sized()
    ensures ws[i + 1].ctl.stage == Gathering <==> !AllGathered(IssuedAll(ws[i].piccolos))
    ensures ws[i + 1].piccolos == Replied(Polled(env, ws[i].piccolos, ws[i].bays).0, cys[i].replies)
    ensures ws[i + 1].bays == Polled(env, ws[i].piccolos, ws[i].bays).1
  {
    assert Cue(i);
    GatherLink(env, ws[i], ws[i + 1], cys[i]);
  }

  /** The trace of vault v's controller after its tick in cycle n. */
  ghost function TicksTo(g0: Gather, cys: seq<Cycle>, v: nat, n: nat): GatherRun.Trace
    requires n <= |cys|
  {
    GatherRun.Run(GatherRun.Begin(g0), EventsOf(cys, v, n) + [GatherRun.IssueTick])
  }

  lemma TickIsIssue(g0: Gather, cys: seq<Cycle>, v: nat, n: nat)
    requires n <= |cys|
    ensures TicksTo(g0, cys, v, n).g == Issue(GatherRun.Run(GatherRun.Begin(g0), EventsOf(cys, v, n)).g).0
  {
    GatherRun.RunAppends(GatherRun.Begin(g0), EventsOf(cys, v, n), GatherRun.IssueTick);
  }

  /** While the stage lasts, every controller runs its own protocol and the vaults stay untouched. */
  lemma {:induction false} WhileGathering(env: Env, ws: seq<World>, cys: seq<Cycle>, n: nat, v: nat, g0: Gather)
    requires IsRun(env, ws, cys) && n <= |cys| && v < 16 && ws[0].Sized() && ws[0].piccolos[v] == Some(g0)
    requires forall i :: 0 <= i <= n ==> ws[i].ctl.stage == Gathering
    ensures ws[n].Sized() && ws[n].bays == ws[0].bays
    ensures ws[n].piccolos[v] == Some(GatherRun.Run(GatherRun.Begin(g0), EventsOf(cys, v, n)).g)
  {
    if n == 0 {
    } else {
      WhileGathering(env, ws, cys, n - 1, v, g0);
      StillGathering(env, ws, cys, n, v, g0);
    }
  }

  lemma StillGathering(env: Env, ws: seq<World>, cys: seq<Cycle>, n: nat, v: nat, g0: Gather)
    requires IsRun(env, ws, cys) && 0 < n <= |cys| && v < 16
    requires ws[n - 1].ctl.stage == Gathering && ws[n].ctl.stage == Gathering && ws[n - 1].Sized()
    requires ws[n - 1].piccolos[v] == Some(GatherRun.Run(GatherRun.Begin(g0), EventsOf(cys, v, n - 1)).g)
    ensures ws[n].Sized() && ws[n].bays == ws[n - 1].bays
    ensures ws[n].piccolos[v] == Some(GatherRun.Run(GatherRun.Begin(g0), EventsOf(cys, v, n)).g)
  {
    var w, w' := GatherPair(env, ws, cys, n);
    StillPolled(env, w.piccolos, w.bays);
    OneMoreCycle(w.piccolos, cys, v, n, g0);
  }

  lemma GatherPair(env: Env, ws: seq<World>, cys: seq<Cycle>, n: nat) returns (w: World, w': World)
    requires IsRun(env, ws, cys) && 0 < n <= |cys| && ws[n - 1].ctl.stage == Gathering
    ensures w == ws[n - 1] && w' == ws[n] && w.Sized() && w'.Sized()
    ensures w'.ctl.stage == Gathering <==> !AllGathered(IssuedAll(w.piccolos))
    ensures w'.piccolos == Replied(Polled(env, w.piccolos, w.bays).0, cys[n - 1].replies)
    ensures w'.bays == Polled(env, w.piccolos, w.bays).1
  {
    w, w' := ws[n - 1], ws[n];
    GatherAt(env, ws, cys, n - 1);
  }

  lemma StillPolled(env: Env, ps: seq<Option<Gather>>, bays: seq<Bay>)
    requires |ps| == |bays| && !AllGathered(IssuedAll(ps))
    ensures Polled(env, ps, bays) == (IssuedAll(ps), bays)
  {
  }

  lemma OneMoreCycle(ps: seq<Option<Gather>>, cys: seq<Cycle>, v: nat, n: nat, g0: Gather)
    requires 0 < n <= |cys| && v < |ps|
    requires ps[v] == Some(GatherRun.Run(GatherRun.Begin(g0), EventsOf(cys, v, n - 1)).g)
    ensures Replied(IssuedAll(ps), cys[n - 1].replies)[v]
         == Some(GatherRun.Run(GatherRun.Begin(g0), EventsOf(cys, v, n)).g)
  {
    TickIsIssue(g0, cys, v, n - 1);
    RepliedIsRun(IssuedAll(ps), cys[n - 1].replies, v, TicksTo(g0, cys, v, n - 1));
    RunConcat(GatherRun.Begin(g0), EventsOf(cys, v, n - 1) + [GatherRun.IssueTick], RepliesTo(v, cys[n - 1].replies));
  }

  // ---- no value is taken and no offset added before the hand-over

  /** A tick or a reply. */
  predicate OwnEvent(e: GatherRun.Event) {
    e.IssueTick? || e.Reply?
  }

  lemma {:induction false} NothingElse(t: GatherRun.Trace, es: seq<GatherRun.Event>)
    requires forall i :: 0 <= i < |es| ==> OwnEvent(es[i])
    ensures GatherRun.Run(t, es).taken == t.taken && GatherRun.Run(t, es).offsets == t.offsets
  {
    if es == [] {
    } else {
      NothingElse(t, es[..|es| - 1]);
    }
  }

  lemma {:induction false} RepliesAreReplies(v: nat, replies: seq<(nat, nat)>)
    ensures forall i :: 0 <= i < |RepliesTo(v, replies)| ==> RepliesTo(v, replies)[i].Reply?
  {
    if replies == [] {
    } else {
      RepliesAreReplies(v, replies[..|replies| - 1]);
    }
  }

  lemma {:induction false} EventsAreOwn(cys: seq<Cycle>, v: nat, n: nat)
    requires n <= |cys|
    ensures forall i :: 0 <= i < |EventsOf(cys, v, n)| ==> OwnEvent(EventsOf(cys, v, n)[i])
  {
    if n == 0 {
    } else {
      EventsAreOwn(cys, v, n - 1);
      RepliesAreReplies(v, cys[n - 1].replies);
    }
  }

  // ---- the hand-over

  /**
   * The reads and the values of a batch that has run to its end: one read per element, the k-th
   * one of element size, on the controller's port, for base + offset * size modulo 2^64.
   */
  ghost predicate Batch(g0: Gather, sent: seq<MemoryBurst>, values: seq<nat>) {
    && |sent| == |values| == g0.numElems <= |g0.ob|
    && forall k :: 0 <= k < |sent| ==>
         sent[k] == MemoryBurst((g0.base + g0.ob[k] * g0.elemBytes) % 0x1_0000_0000_0000_0000, g0.elemBytes, g0.pcId,
                                PiccoloRead)
  }

  lemma FinishedBatch(g0: Gather, cys: seq<Cycle>, v: nat, n: nat)
    requires n <= |cys| && GatherRun.Armed(g0) && g0.numElems <= g0.dbCap && TicksTo(g0, cys, v, n).g.Done()
    ensures var t := TicksTo(g0, cys, v, n);
      Batch(g0, t.sent, t.replies) && t.g.db == t.replies && t.g.outstanding == 0
  {
    var es := EventsOf(cys, v, n) + [GatherRun.IssueTick];
    GatherRun.ProtocolInvariant(g0, es);
    GatherRun.NothingLost(g0, es);
    EventsAreOwn(cys, v, n);
    NothingElse(GatherRun.Begin(g0), es);
  }

  /** The first sixteen values as numbers, padded with zeros. */
  ghost predicate Padded(env: Env, values: seq<nat>, x: Vec) {
    forall d :: 0 <= d < 16 ==> x[d] == if d < |values| then env.bitcast(values[d]) else 0.0
  }

  /** Bay b' is bay b, but for x at the back of the feeder, if there is one. */
  ghost predicate Fed(b: Bay, b': Bay, x: Vec) {
    b' == if b.lines.None? then b else b.(lines := Some(Pushed(b.lines.value, x)))
  }

  /** What is left in the data buffer: everything without a feeder, else what did not fit. */
  ghost predicate Kept(b: Bay, values: seq<nat>, db: seq<nat>) {
    if b.lines.None? then db == values else if |values| <= 16 then db == [] else db == values[16..]
  }

  /**
   * When the gather stage ends, after g cycles, every vault has sent one read per element, the
   * k-th one for the k-th offset, and a connected feeder holds one more vector: the replied
   * values in order, cut off or padded with zeros at sixteen. What was cut off stays in the data
   * buffer, in order.
   */
  lemma GatherFeeds(env: Env, ws: seq<World>, cys: seq<Cycle>, g: nat, v: nat, g0: Gather)
    returns (sent: seq<MemoryBurst>, values: seq<nat>, x: Vec)
    requires IsRun(env, ws, cys) && 0 < g <= |cys| && v < 16 && ws[0].Sized()
    requires forall i :: 0 <= i < g ==> ws[i].ctl.stage == Gathering
    requires ws[g].ctl.stage != Gathering
    requires ws[0].piccolos[v] == Some(g0) && GatherRun.Armed(g0) && g0.numElems <= g0.dbCap
    ensures ws[g].Sized() && Batch(g0, sent, values)
    ensures (sent, values) == (TicksTo(g0, cys, v, g - 1).sent, TicksTo(g0, cys, v, g - 1).replies)
    ensures forall d :: 0 <= d < 16 ==> x[d] == if d < |values| then env.bitcast(values[d]) else 0.0
    ensures ws[g].bays[v]
         == if ws[0].bays[v].lines.None? then ws[0].bays[v]
            else ws[0].bays[v].(lines := Some(Pushed(ws[0].bays[v].lines.value, x)))
    ensures ws[g].piccolos[v].Some?
    ensures ws[g].piccolos[v].value.db
         == if ws[0].bays[v].lines.None? then values else if |values| <= 16 then [] else values[16..]
  {
    WhileGathering(env, ws, cys, g - 1, v, g0);
    sent, values, x := EndOfGather(env, ws, cys, g, v, g0, ws[0].bays[v]);
  }

  lemma EndOfGather(env: Env, ws: seq<World>, cys: seq<Cycle>, n: nat, v: nat, g0: Gather, b: Bay)
    returns (sent: seq<MemoryBurst>, values: seq<nat>, x: Vec)
    requires IsRun(env, ws, cys) && 0 < n <= |cys| && v < 16 && ws[n - 1].Sized() && ws[n - 1].bays[v] == b
    requires ws[n - 1].ctl.stage == Gathering && ws[n].ctl.stage != Gathering
    requires ws[n - 1].piccolos[v] == Some(GatherRun.Run(GatherRun.Begin(g0), EventsOf(cys, v, n - 1)).g)
    requires GatherRun.Armed(g0) && g0.numElems <= g0.dbCap
    ensures ws[n].Sized() && Batch(g0, sent, values) && Padded(env, values, x) && Fed(b, ws[n].bays[v], x)
    ensures ws[n].piccolos[v].Some? && Kept(b, values, ws[n].piccolos[v].value.db)
    ensures (sent, values) == (TicksTo(g0, cys, v, n - 1).sent, TicksTo(g0, cys, v, n - 1).replies)
  {
    var w, w' := GatherPair(env, ws, cys, n);
    sent, values, x := HandOverAt(env, w.piccolos, w.bays, cys, n - 1, v, g0);
    RepliesIgnored(Polled(env, w.piccolos, w.bays).0, cys[n - 1].replies, v);
  }

  /** A vault without a controller hands nothing over. */
  lemma GatherSkips(env: Env, ws: seq<World>, cys: seq<Cycle>, g: nat, v: nat)
    requires IsRun(env, ws, cys) && g <= |cys| && v < 16 && ws[0].Sized() && ws[0].piccolos[v].None?
    requires forall i :: 0 <= i < g ==> ws[i].ctl.stage == Gathering
    ensures ws[g].Sized() && ws[g].piccolos[v].None? && ws[g].bays[v] == ws[0].bays[v]
  {
    if g == 0 {
    } else {
      GatherSkips(env, ws, cys, g - 1, v);
      var w, w' := GatherPair(env, ws, cys, g);
      RepliesMissed(Polled(env, w.piccolos, w.bays).0, cys[g - 1].replies, v);
    }
  }

  lemma {:induction false} RepliesMissed(ps: seq<Option<Gather>>, replies: seq<(nat, nat)>, v: nat)
    requires v < |ps| && ps[v].None?
    ensures Replied(ps, replies)[v].None?
  {
    if replies == [] {
    } else {
      RepliesMissed(ps, replies[..|replies| - 1], v);
    }
  }

  /** Replies to a controller with nothing outstanding change nothing. */
  lemma {:induction false} RepliesIgnored(ps: seq<Option<Gather>>, replies: seq<(nat, nat)>, v: nat)
    requires v < |ps| && ps[v].Some? && ps[v].value.outstanding == 0
    ensures Replied(ps, replies)[v] == ps[v]
  {
    if replies == [] {
    } else {
      RepliesIgnored(ps, replies[..|replies| - 1], v);
    }
  }

  /** The hand-over of vault v at the end of the tick after cycle n. */
  lemma HandOverAt(env: Env, ps: seq<Option<Gather>>, bays: seq<Bay>, cys: seq<Cycle>, n: nat, v: nat, g0: Gather)
    returns (sent: seq<MemoryBurst>, values: seq<nat>, x: Vec)
    requires n <= |cys| && v < |ps| == |bays| && AllGathered(IssuedAll(ps))
    requires ps[v] == Some(GatherRun.Run(GatherRun.Begin(g0), EventsOf(cys, v, n)).g)
    requires GatherRun.Armed(g0) && g0.numElems <= g0.dbCap
    ensures Batch(g0, sent, values) && (sent, values) == (TicksTo(g0, cys, v, n).sent, TicksTo(g0, cys, v, n).replies)
    ensures Padded(env, values, x) && Fed(bays[v], Polled(env, ps, bays).1[v], x)
    ensures Polled(env, ps, bays).0[v].Some? && Polled(env, ps, bays).0[v].value.outstanding == 0
    ensures Kept(bays[v], values, Polled(env, ps, bays).0[v].value.db)
  {
    TickIsIssue(g0, cys, v, n);
    assert Finished(IssuedAll(ps)[v]);
    FinishedBatch(g0, cys, v, n);
    sent, values := TicksTo(g0, cys, v, n).sent, TicksTo(g0, cys, v, n).replies;
    x := HandedOverPlainly(env, TicksTo(g0, cys, v, n).g, bays[v], values);
  }

  lemma HandedOverPlainly(env: Env, g: Gather, b: Bay, values: seq<nat>) returns (x: Vec)
    requires g.db == values && g.outstanding == 0
    ensures Padded(env, values, x) && Fed(b, HandedOver(env, Some(g), b).1, x)
    ensures HandedOver(env, Some(g), b).0.Some? && HandedOver(env, Some(g), b).0.value.outstanding == 0
    ensures Kept(b, values, HandedOver(env, Some(g), b).0.value.db)
  {
    x := GatheredVec(env, values);
  }

  // ---- from the start call

  lemma {:induction false} OffsetsKept(cap: nat, offsets: seq<nat>)
    ensures PushedOffsets([], cap, offsets) == if |offsets| <= cap then offsets else offsets[..cap]
  {
    if offsets == [] {
    } else {
      OffsetsKept(cap, offsets[..|offsets| - 1]);
    }
  }

  /**
   * A vertex started with offsets that fit gathers exactly those: its batch is armed whatever the
   * controller did before, and keeps its port, element size, limit and capacities. Together with
   * `Batch` this fixes every read of the vertex.
   */
  lemma StartArms(w: World, cfg: Config, v: nat) returns (g0: Gather)
    requires w.Sized() && v < 16 && w.piccolos[v].Some?
    ensures StartVertex(w, cfg).piccolos[v] == Some(g0) && GatherRun.Armed(g0)
    ensures g0.numElems == cfg.numNeighbors && g0.base == cfg.vertexAddr
    ensures g0.ob == (if |cfg.offsets| <= g0.obCap then cfg.offsets else cfg.offsets[..g0.obCap])
    ensures var g := w.piccolos[v].value;
      && g0.pcId == g.pcId && g0.elemBytes == g.elemBytes && g0.maxOutstanding == g.maxOutstanding
      && g0.obCap == g.obCap && g0.dbCap == g.dbCap
    ensures forall offset: nat ::
      ReadBurst(g0, offset)
      == MemoryBurst((cfg.vertexAddr + offset * g0.elemBytes) % 0x1_0000_0000_0000_0000, g0.elemBytes, g0.pcId,
                     PiccoloRead)
  {
    g0 := Primed(w.piccolos[v].value, cfg);
    OffsetsKept(g0.obCap, cfg.offsets);
  }

  /** The registers of a vertex just started: everything is cleared but the vertex count. */
  lemma StartClears(w: World, cfg: Config) returns (c: Control)
    requires w.Sized()
    ensures c == StartVertex(w, cfg).ctl && c.stage == Gathering && c.cfg == cfg && !c.hLoadDone && !c.writebackReady
    ensures c.cycles == Cycles(0, 0, 0, 0, 0, 0) && c.flushCount == 0 && c.verticesDone == w.ctl.verticesDone
    ensures forall d :: 0 <= d < 16 ==> c.message[d] == 0.0 && c.prevHidden[d] == 0.0 && c.newHidden[d] == 0.0
    ensures StartVertex(w, cfg).bays == w.bays && StartVertex(w, cfg).pipe == w.pipe
    ensures StartVertex(w, cfg).queues == w.queues
  {
    c := StartVertex(w, cfg).ctl;
  }

  // ---- the order of the reads

  predicate Issues(p: Option<Gather>) {
    p.Some? && p.value.MayIssue()
  }

  /** The vaults below n whose controllers issue a read on their next tick, in order. */
  function Issuers(ps: seq<Option<Gather>>, n: nat): (vs: seq<nat>)
    requires n <= |ps|
    ensures forall i :: 0 <= i < |vs| ==> vs[i] < n && Issues(ps[vs[i]])
    ensures forall i, j :: 0 <= i < j < |vs| ==> vs[i] < vs[j]
    ensures forall v :: 0 <= v < n && Issues(ps[v]) ==> v in vs
  {
    if n == 0 then [] else Issuers(ps, n - 1) + if Issues(ps[n - 1]) then [n - 1] else []
  }

  /** The read for the offset at the front of the buffer. */
  function HeadRead(p: Option<Gather>): (b: MemoryBurst)
    requires Issues(p)
    ensures b.addr == (p.value.base + p.value.ob[0] * p.value.elemBytes) % 0x1_0000_0000_0000_0000
    ensures b.sizeBytes == p.value.elemBytes && b.pcId == p.value.pcId && b.onComplete == PiccoloRead
  {
    ReadBurst(p.value, p.value.ob[0])
  }

  function HeadReads(ps: seq<Option<Gather>>, vs: seq<nat>): (bs: seq<MemoryBurst>)
    requires forall i :: 0 <= i < |vs| ==> vs[i] < |ps| && Issues(ps[vs[i]])
    ensures |bs| == |vs| && forall i :: 0 <= i < |vs| ==> bs[i] == HeadRead(ps[vs[i]])
  {
    seq(|vs|, i requires 0 <= i < |vs| => HeadRead(ps[vs[i]]))
  }

  lemma OneMoreRead(p: Option<Gather>, q: Queues, before: seq<MemoryBurst>, all: seq<MemoryBurst>, q0: Queues,
                    q': Queues)
    requires q0 == EnqueuedAll(q, before) && q' == QueuesAfter(p, q0)
    requires if Issues(p) then all == before + [HeadRead(p)] else all == before
    ensures q' == EnqueuedAll(q, all)
  {
    if Issues(p) {
      assert all[..|all| - 1] == before;
      EnqueuedSingle(q0, HeadRead(p));
    }
  }

  lemma ReadsGrow(ps: seq<Option<Gather>>, n: nat) returns (before: seq<MemoryBurst>, all: seq<MemoryBurst>)
    requires 0 < n <= |ps|
    ensures before == HeadReads(ps, Issuers(ps, n - 1)) && all == HeadReads(ps, Issuers(ps, n))
    ensures if Issues(ps[n - 1]) then all == before + [HeadRead(ps[n - 1])] else all == before
  {
    before, all := HeadReads(ps, Issuers(ps, n - 1)), HeadReads(ps, Issuers(ps, n));
  }

  lemma LastIssue(ps: seq<Option<Gather>>, q: Queues, n: nat, q0: Queues) returns (q': Queues)
    requires 0 < n <= |ps| && q0 == IssuedQueues(ps, q, n - 1)
    ensures q' == IssuedQueues(ps, q, n) && q' == QueuesAfter(ps[n - 1], q0)
  {
    q' := IssuedQueues(ps, q, n);
  }

  /** A tick of the gather stage enqueues one read of every controller that may issue, in vault order. */
  lemma {:induction false} ReadsInVaultOrder(ps: seq<Option<Gather>>, q: Queues, n: nat) returns (q': Queues)
    requires n <= |ps|
    ensures q' == IssuedQueues(ps, q, n) && q' == EnqueuedAll(q, HeadReads(ps, Issuers(ps, n)))
  {
    if n == 0 {
      q' := q;
    } else {
      var q0 := ReadsInVaultOrder(ps, q, n - 1);
      q' := LastIssue(ps, q, n, q0);
      var before, all := ReadsGrow(ps, n);
      OneMoreRead(ps[n - 1], q, before, all, q0, q');
    }
  }
}
