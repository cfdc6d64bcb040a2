/** The hierarchical router: two queues metered by byte credits, in front of the ports. */
module Router {
  import opened Ports
  import AdmissionRun

  /** Addresses from here on are global. */
  const GLOBAL_BOUNDARY: nat := 0x80000000

  predicate IsGlobal(b: MemoryBurst) {
    b.addr >= GLOBAL_BOUNDARY
  }

  /** One metered queue, the ports it feeds, and everything delivered to the ports so far. */
  datatype Flow = Flow(queue: seq<MemoryBurst>, credit: real, ports: Queues, delivered: seq<MemoryBurst>)

  /** The head of the queue moves to its own port and is paid for. */
  function Forwarded(f: Flow): Flow
    requires f.queue != []
  {
    var b := f.queue[0];
    Flow(f.queue[1..], f.credit - b.sizeBytes as real, Enqueued(f.ports, b), f.delivered + [b])
  }

  /** Forwards for as long as the credit covers the head. */
  function Drained(f: Flow): Flow
    decreases |f.queue|
  {
    if f.queue != [] && f.credit >= f.queue[0].sizeBytes as real then Drained(Forwarded(f)) else f
  }

  datatype Metered = Metered(queue: seq<MemoryBurst>, credit: real)

  datatype Traffic = Traffic(local: Metered, far: Metered, ports: Queues, delivered: seq<MemoryBurst>)

  datatype Rates = Rates(local: real, far: real)

  function Routed(t: Traffic, b: MemoryBurst): Traffic {
    if IsGlobal(b) then t.(far := t.far.(queue := t.far.queue + [b]))
    else t.(local := t.local.(queue := t.local.queue + [b]))
  }

  /** One class's share of a tick: its credit grows by the rate, then it drains. */
  function Metering(m: Metered, rate: real, ports: Queues, delivered: seq<MemoryBurst>): Flow {
    Drained(Flow(m.queue, m.credit + rate, ports, delivered))
  }

  /** A tick grants both credits, then drains the local queue, then the global one. */
  function Ticked(r: Rates, t: Traffic): Traffic {
    var a := Metering(t.local, r.local, t.ports, t.delivered);
    var b := Metering(t.far, r.far, a.ports, a.delivered);
    Traffic(Metered(a.queue, a.credit), Metered(b.queue, b.credit), b.ports, b.delivered)
  }

  function Gbps(target: real, clockHz: real): real
    requires clockHz > 0.0
  {
    target * 1000000000.0 / clockHz
  }

  class HierarchicalRouter {
    const mux: PseudoChannelMultiplexer
    const rates: Rates
    var localQueue: seq<MemoryBurst>
    var globalQueue: seq<MemoryBurst>
    var localUsed: real
    var globalUsed: real
    ghost var delivered: seq<MemoryBurst>

    ghost predicate Valid() {
      mux.Valid()
    }

    ghost function Now(): Traffic
      requires Valid()
      reads this, mux.ports
    {
      Traffic(Metered(localQueue, localUsed), Metered(globalQueue, globalUsed), mux.Contents(), delivered)
    }

    constructor (mux: PseudoChannelMultiplexer, clockHz: real)
      requires mux.Valid() && clockHz > 0.0
      ensures Valid() && this.mux == mux
      ensures rates == Rates(512.0 * 1000000000.0 / clockHz, 64.0 * 1000000000.0 / clockHz)
      ensures Now() == Traffic(Metered([], 0.0), Metered([], 0.0), mux.Contents(), [])
    {
      this.mux := mux;
      rates := Rates(Gbps(512.0, clockHz), Gbps(64.0, clockHz));
      localQueue, globalQueue, localUsed, globalUsed, delivered := [], [], 0.0, 0.0, [];
    }

    method EnqueueRequest(burst: MemoryBurst)
      requires Valid()
      modifies this
      ensures Now() == Routed(old(Now()), burst)
    {
      if burst.addr >= GLOBAL_BOUNDARY {
        globalQueue := globalQueue + [burst];
      } else {
        localQueue := localQueue + [burst];
      }
    }

    method Tick()
      requires Valid()
      modifies this, mux.ports
      ensures Now() == Ticked(rates, old(Now()))
    {
      localUsed := localUsed + rates.local;
      globalUsed := globalUsed + rates.far;
      DrainLocal();
      DrainGlobal();
    }

    method DrainLocal()
      requires Valid()
      modifies this`localQueue, this`localUsed, this`delivered, mux.ports
      ensures Flow(localQueue, localUsed, mux.Contents(), delivered)
           == Drained(old(Flow(localQueue, localUsed, mux.Contents(), delivered)))
    {
      ghost var goal := Drained(Flow(localQueue, localUsed, mux.Contents(), delivered));
      while localQueue != [] && localUsed >= localQueue[0].sizeBytes as real
        invariant Drained(Flow(localQueue, localUsed, mux.Contents(), delivered)) == goal
        decreases |localQueue|
      {
        localUsed := localUsed - localQueue[0].sizeBytes as real;
        mux.Enqueue(localQueue[0]);
        delivered := delivered + [localQueue[0]];
        localQueue := localQueue[1..];
      }
    }

    method DrainGlobal()
      requires Valid()
      modifies this`globalQueue, this`globalUsed, this`delivered, mux.ports
      ensures Flow(globalQueue, globalUsed, mux.Contents(), delivered)
           == Drained(old(Flow(globalQueue, globalUsed, mux.Contents(), delivered)))
    {
      ghost var goal := Drained(Flow(globalQueue, globalUsed, mux.Contents(), delivered));
      while globalQueue != [] && globalUsed >= globalQueue[0].sizeBytes as real
        invariant Drained(Flow(globalQueue, globalUsed, mux.Contents(), delivered)) == goal
        decreases |globalQueue|
      {
        globalUsed := globalUsed - globalQueue[0].sizeBytes as real;
        mux.Enqueue(globalQueue[0]);
        delivered := delivered + [globalQueue[0]];
        globalQueue := globalQueue[1..];
      }
    }
  }

  // ---- one drain

  /** k is the length of the longest prefix of q that the credit can pay for. */
  ghost predicate LongestAffordable(q: seq<MemoryBurst>, credit: real, k: nat) {
    && k <= |q|
    && (k > 0 ==> AdmissionRun.Bytes(q[..k]) as real <= credit)
    && forall j :: k < j <= |q| ==> AdmissionRun.Bytes(q[..j]) as real > credit
  }

  /** A drain forwards the longest prefix of the queue that the credit can pay for. */
  lemma {:induction false} DrainsLongestPrefix(f: Flow) returns (k: nat)
    ensures LongestAffordable(f.queue, f.credit, k)
    ensures Drained(f).queue == f.queue[k..] && Drained(f).delivered == f.delivered + f.queue[..k]
    decreases |f.queue|
  {
    if f.queue != [] && f.credit >= f.queue[0].sizeBytes as real {
      k := DrainsLongestPrefix(Forwarded(f));
      LongerByOne(f.queue, f.credit, k);
      OneBurstMore(f.delivered, f.queue, k);
      k := k + 1;
    } else {
      k := 0;
      if f.queue != [] {
        NoneAffordable(f.queue, f.credit);
      }
    }
  }

  lemma OneBurstMore(sent: seq<MemoryBurst>, q: seq<MemoryBurst>, k: nat)
    requires k < |q|
    ensures q[1..][k..] == q[k + 1..] && sent + [q[0]] + q[1..][..k] == sent + q[..k + 1]
  {
  }

  lemma LongerByOne(q: seq<MemoryBurst>, credit: real, k: nat)
    requires q != [] && q[0].sizeBytes as real <= credit
    requires LongestAffordable(q[1..], credit - q[0].sizeBytes as real, k)
    ensures LongestAffordable(q, credit, k + 1)
  {
    PrefixBytes(q, k);
    assert q[1..][..0] == [];
    forall j | k + 1 < j <= |q|
      ensures AdmissionRun.Bytes(q[..j]) as real > credit
    {
      PrefixBytes(q, j - 1);
      assert AdmissionRun.Bytes(q[1..][..j - 1]) as real > credit - q[0].sizeBytes as real;
    }
  }

  lemma NoneAffordable(q: seq<MemoryBurst>, credit: real)
    requires q != [] && q[0].sizeBytes as real > credit
    ensures LongestAffordable(q, credit, 0)
  {
    forall j | 0 < j <= |q|
      ensures AdmissionRun.Bytes(q[..j]) as real > credit
    {
      PrefixBytes(q, j - 1);
    }
  }

  lemma PrefixBytes(q: seq<MemoryBurst>, j: nat)
    requires j < |q|
    ensures AdmissionRun.Bytes(q[..j + 1]) == q[0].sizeBytes + AdmissionRun.Bytes(q[1..][..j])
  {
    assert q[..j + 1] == [q[0]] + q[1..][..j];
    AdmissionRun.SumsSplit([q[0]], q[1..][..j]);
    AdmissionRun.SumsOfOne(q[0]);
  }

  // ---- whole runs

  /**
   * A request arrives, the router ticks, other hardware enqueues at a port directly, or the
   * memory takes the head of a port.
   */
  datatype Event = Request(burst: MemoryBurst) | Tick | Direct(burst: MemoryBurst) | Taken(pc: Port)

  function Happened(r: Rates, t: Traffic, e: Event): Traffic {
    match e
    case Request(b) => Routed(t, b)
    case Tick => Ticked(r, t)
    case Direct(b) => t.(ports := Enqueued(t.ports, b))
    case Taken(pc) => if t.ports[pc] == [] then t else t.(ports := t.ports[pc := t.ports[pc][1..]])
  }

  /** The router after a run that began with an empty router and the ports at q0. */
  function After(r: Rates, q0: Queues, es: seq<Event>): Traffic {
    if es == [] then Traffic(Metered([], 0.0), Metered([], 0.0), q0, [])
    else Happened(r, After(r, q0, es[..|es| - 1]), es[|es| - 1])
  }

  /** The requests of a run, in order. */
  function Requests(es: seq<Event>): seq<MemoryBurst> {
    if es == [] then []
    else Requests(es[..|es| - 1]) + match es[|es| - 1] case Request(b) => [b] case _ => []
  }

  /** What the memory has taken from port p, in order. */
  function TakenFrom(r: Rates, q0: Queues, es: seq<Event>, p: Port): seq<MemoryBurst> {
    if es == [] then []
    else
      var n := |es| - 1;
      var q := After(r, q0, es[..n]).ports[p];
      TakenFrom(r, q0, es[..n], p) + if es[n] == Taken(p) && q != [] then [q[0]] else []
  }

  /** Everything that entered the ports, in order: what the router delivered and what came directly. */
  function Entered(r: Rates, q0: Queues, es: seq<Event>): seq<MemoryBurst> {
    if es == [] then []
    else
      var n := |es| - 1;
      Entered(r, q0, es[..n])
      + match es[n] case Direct(b) => [b] case _ => Newly(After(r, q0, es[..n]).delivered, After(r, q0, es).delivered)
  }

  /** What a log has gained. */
  function Newly(before: seq<MemoryBurst>, after: seq<MemoryBurst>): seq<MemoryBurst> {
    if |before| <= |after| then after[|before|..] else []
  }

  /** What a rate has granted over a run. */
  function Granted(rate: real, es: seq<Event>): real {
    if es == [] then 0.0
    else Granted(rate, es[..|es| - 1]) + if es[|es| - 1].Tick? then rate else 0.0
  }

  function Ticks(es: seq<Event>): nat {
    if es == [] then 0 else Ticks(es[..|es| - 1]) + if es[|es| - 1].Tick? then 1 else 0
  }

  lemma {:induction false} GrantedIsRateTimesTicks(rate: real, es: seq<Event>)
    ensures Granted(rate, es) == rate * Ticks(es) as real
  {
    if es == [] {
    } else {
      GrantedIsRateTimesTicks(rate, es[..|es| - 1]);
      assert Ticks(es) as real == Ticks(es[..|es| - 1]) as real + if es[|es| - 1].Tick? then 1.0 else 0.0;
    }
  }

  function OfClass(bs: seq<MemoryBurst>, far: bool): seq<MemoryBurst> {
    if bs == [] then []
    else OfClass(bs[..|bs| - 1], far) + if IsGlobal(bs[|bs| - 1]) == far then [bs[|bs| - 1]] else []
  }

  function ForPort(bs: seq<MemoryBurst>, p: Port): seq<MemoryBurst> {
    if bs == [] then []
    else ForPort(bs[..|bs| - 1], p) + if bs[|bs| - 1].pcId == p then [bs[|bs| - 1]] else []
  }

  lemma Appended(bs: seq<MemoryBurst>, b: MemoryBurst, far: bool, p: Port)
    ensures OfClass(bs + [b], far) == OfClass(bs, far) + if IsGlobal(b) == far then [b] else []
    ensures ForPort(bs + [b], p) == ForPort(bs, p) + if b.pcId == p then [b] else []
  {
    assert (bs + [b])[..|bs|] == bs;
  }

  predicate AllOfClass(bs: seq<MemoryBurst>, far: bool) {
    forall i :: 0 <= i < |bs| ==> IsGlobal(bs[i]) == far
  }

  /**
   * The account of one class: what was sent, then what still waits, is what was asked for, and
   * the bytes sent plus the credit are what was granted.
   */
  ghost predicate Account(sent: seq<MemoryBurst>, m: Metered, far: bool, asked: seq<MemoryBurst>, granted: real) {
    && sent + m.queue == asked && AllOfClass(m.queue, far)
    && AdmissionRun.Bytes(sent) as real + m.credit == granted && m.credit >= 0.0
  }

  lemma PaymentKeeps(sent: seq<MemoryBurst>, m: Metered, far: bool, asked: seq<MemoryBurst>, granted: real)
    requires Account(sent, m, far, asked, granted) && m.queue != [] && m.credit >= m.queue[0].sizeBytes as real
    ensures Account(sent + [m.queue[0]], Metered(m.queue[1..], m.credit - m.queue[0].sizeBytes as real),
                    far, asked, granted)
  {
    AdmissionRun.SumsAppend(sent, m.queue[0]);
    assert sent + m.queue == sent + [m.queue[0]] + m.queue[1..];
  }

  lemma RequestKeeps(sent: seq<MemoryBurst>, m: Metered, far: bool, asked: seq<MemoryBurst>, granted: real,
                     b: MemoryBurst)
    requires Account(sent, m, far, asked, granted) && IsGlobal(b) == far
    ensures Account(sent, m.(queue := m.queue + [b]), far, asked + [b], granted)
  {
    assert sent + m.queue + [b] == sent + (m.queue + [b]);
  }

  ghost predicate FlowAccount(f: Flow, far: bool, asked: seq<MemoryBurst>, granted: real) {
    Account(OfClass(f.delivered, far), Metered(f.queue, f.credit), far, asked, granted)
  }

  /** A forward keeps the account of its own class, and does not touch that of the other. */
  lemma ForwardKeeps(f: Flow, far: bool, asked: seq<MemoryBurst>, granted: real)
    requires FlowAccount(f, far, asked, granted)
    requires f.queue != [] && f.credit >= f.queue[0].sizeBytes as real
    ensures FlowAccount(Forwarded(f), far, asked, granted)
    ensures OfClass(Forwarded(f).delivered, !far) == OfClass(f.delivered, !far)
  {
    assert IsGlobal(f.queue[0]) == far;
    Appended(f.delivered, f.queue[0], far, 0);
    Appended(f.delivered, f.queue[0], !far, 0);
    PaymentKeeps(OfClass(f.delivered, far), Metered(f.queue, f.credit), far, asked, granted);
  }

  lemma {:induction false} DrainKeeps(f: Flow, far: bool, asked: seq<MemoryBurst>, granted: real) returns (d: Flow)
    requires FlowAccount(f, far, asked, granted)
    ensures d == Drained(f) && FlowAccount(d, far, asked, granted)
    ensures OfClass(d.delivered, !far) == OfClass(f.delivered, !far) && Spent(Metered(d.queue, d.credit))
    decreases |f.queue|
  {
    if f.queue != [] && f.credit >= f.queue[0].sizeBytes as real {
      ForwardKeeps(f, far, asked, granted);
      d := DrainKeeps(Forwarded(f), far, asked, granted);
    } else {
      d := f;
    }
  }

  /** Nothing waits, or the head costs more than the credit. */
  predicate Spent(m: Metered) {
    m.queue == [] || m.queue[0].sizeBytes as real > m.credit
  }

  lemma {:induction false} ForPortSplits(a: seq<MemoryBurst>, b: seq<MemoryBurst>, p: Port)
    ensures ForPort(a + b, p) == ForPort(a, p) + ForPort(b, p)
  {
    if b == [] {
      assert a + b == a;
    } else {
      assert (a + b)[..|a + b| - 1] == a + b[..|b| - 1];
      ForPortSplits(a, b[..|b| - 1], p);
    }
  }

  /** A drain extends the log, and each port gains exactly what the log gains for it. */
  lemma {:induction false} DrainDelivers(f: Flow, p: Port)
    ensures f.delivered <= Drained(f).delivered
    ensures Drained(f).ports[p] == f.ports[p] + ForPort(Newly(f.delivered, Drained(f).delivered), p)
    decreases |f.queue|
  {
    if f.queue != [] && f.credit >= f.queue[0].sizeBytes as real {
      var b, d := f.queue[0], Drained(f).delivered;
      DrainDelivers(Forwarded(f), p);
      assert Newly(f.delivered, d) == [b] + Newly(f.delivered + [b], d);
      ForPortSplits([b], Newly(f.delivered + [b], d), p);
      assert [b][..0] == [];
      assert ForPort([b], p) == if b.pcId == p then [b] else [];
    } else {
      assert Newly(f.delivered, f.delivered) == [];
    }
  }

  ghost predicate Accounts(t: Traffic, localAsked: seq<MemoryBurst>, farAsked: seq<MemoryBurst>, localGrant: real,
                           farGrant: real) {
    && Account(OfClass(t.delivered, false), t.local, false, localAsked, localGrant)
    && Account(OfClass(t.delivered, true), t.far, true, farAsked, farGrant)
  }

  /** Its share of a tick keeps the account of a class. */
  lemma GrantKeeps(q: Metered, rate: real, far: bool, ports: Queues, delivered: seq<MemoryBurst>,
                   asked: seq<MemoryBurst>, granted: real)
    returns (d: Flow)
    requires rate >= 0.0 && Account(OfClass(delivered, far), q, far, asked, granted)
    ensures d == Metering(q, rate, ports, delivered)
    ensures FlowAccount(d, far, asked, granted + rate)
    ensures OfClass(d.delivered, !far) == OfClass(delivered, !far) && Spent(Metered(d.queue, d.credit))
  {
    d := DrainKeeps(Flow(q.queue, q.credit + rate, ports, delivered), far, asked, granted + rate);
  }

  lemma TickKeeps(r: Rates, t: Traffic, localAsked: seq<MemoryBurst>, farAsked: seq<MemoryBurst>, localGrant: real,
                  farGrant: real)
    requires r.local >= 0.0 && r.far >= 0.0 && Accounts(t, localAsked, farAsked, localGrant, farGrant)
    ensures Accounts(Ticked(r, t), localAsked, farAsked, localGrant + r.local, farGrant + r.far)
    ensures Spent(Ticked(r, t).local) && Spent(Ticked(r, t).far)
  {
    var a := GrantKeeps(t.local, r.local, false, t.ports, t.delivered, localAsked, localGrant);
    var b := GrantKeeps(t.far, r.far, true, a.ports, a.delivered, farAsked, farGrant);
    assert Ticked(r, t) == Traffic(Metered(a.queue, a.credit), Metered(b.queue, b.credit), b.ports, b.delivered);
  }

  predicate EndsInTick(es: seq<Event>) {
    es != [] && es[|es| - 1].Tick?
  }

  /**
   * The credit law, over any interleaving of requests, ticks and memory activity: each class
   * delivers a prefix of its requests in order, delivered bytes plus credit are what its rate
   * has granted, the credit is never negative, and right after a tick no class can afford its
   * head.
   */
  lemma {:induction false} CreditLaw(r: Rates, q0: Queues, es: seq<Event>)
    requires r.local >= 0.0 && r.far >= 0.0
    ensures Accounts(After(r, q0, es), OfClass(Requests(es), false), OfClass(Requests(es), true),
                     Granted(r.local, es), Granted(r.far, es))
    ensures EndsInTick(es) ==> Spent(After(r, q0, es).local) && Spent(After(r, q0, es).far)
  {
    if es == [] {
    } else {
      var n := |es| - 1;
      CreditLaw(r, q0, es[..n]);
      StepKeeps(r, After(r, q0, es[..n]), es[n], Requests(es[..n]), Granted(r.local, es[..n]), Granted(r.far, es[..n]));
    }
  }

  lemma RoutedKeeps(t: Traffic, b: MemoryBurst, requested: seq<MemoryBurst>, localGrant: real, farGrant: real)
    requires Accounts(t, OfClass(requested, false), OfClass(requested, true), localGrant, farGrant)
    ensures Accounts(Routed(t, b), OfClass(requested + [b], false), OfClass(requested + [b], true),
                     localGrant, farGrant)
  {
    Appended(requested, b, false, 0);
    Appended(requested, b, true, 0);
    if IsGlobal(b) {
      RequestKeeps(OfClass(t.delivered, true), t.far, true, OfClass(requested, true), farGrant, b);
      assert OfClass(requested, false) + [] == OfClass(requested, false);
    } else {
      RequestKeeps(OfClass(t.delivered, false), t.local, false, OfClass(requested, false), localGrant, b);
      assert OfClass(requested, true) + [] == OfClass(requested, true);
    }
  }

  lemma StepKeeps(r: Rates, t: Traffic, e: Event, requested: seq<MemoryBurst>, localGrant: real, farGrant: real)
    requires r.local >= 0.0 && r.far >= 0.0
    requires Accounts(t, OfClass(requested, false), OfClass(requested, true), localGrant, farGrant)
    ensures var requested' := requested + match e case Request(b) => [b] case _ => [];
      Accounts(Happened(r, t, e), OfClass(requested', false), OfClass(requested', true),
               localGrant + (if e.Tick? then r.local else 0.0), farGrant + (if e.Tick? then r.far else 0.0))
    ensures e.Tick? ==> Spent(Happened(r, t, e).local) && Spent(Happened(r, t, e).far)
  {
    match e
    case Request(b) => RoutedKeeps(t, b, requested, localGrant, farGrant);
    case Tick =>
      assert requested + [] == requested;
      TickKeeps(r, t, OfClass(requested, false), OfClass(requested, true), localGrant, farGrant);
    case Direct(b) =>
      assert requested + [] == requested;
      OthersKeep(r, t, e, OfClass(requested, false), OfClass(requested, true), localGrant, farGrant);
    case Taken(pc) =>
      assert requested + [] == requested;
      OthersKeep(r, t, e, OfClass(requested, false), OfClass(requested, true), localGrant, farGrant);
  }

  lemma OthersKeep(r: Rates, t: Traffic, e: Event, localAsked: seq<MemoryBurst>, farAsked: seq<MemoryBurst>,
                   localGrant: real, farGrant: real)
    requires (e.Direct? || e.Taken?) && Accounts(t, localAsked, farAsked, localGrant, farGrant)
    ensures Accounts(Happened(r, t, e), localAsked, farAsked, localGrant, farGrant)
  {
  }

  /**
   * Every burst reaches its own port: what a port held at first, and then all that entered for
   * it in the order of entry, from the router or directly, is what the memory took from the port
   * and then what is still there.
   */
  lemma {:induction false} OwnPort(r: Rates, q0: Queues, es: seq<Event>, p: Port)
    ensures q0[p] + ForPort(Entered(r, q0, es), p) == TakenFrom(r, q0, es, p) + After(r, q0, es).ports[p]
  {
    if es == [] {
      assert q0[p] + [] == [] + q0[p];
    } else {
      var before := es[..|es| - 1];
      OwnPort(r, q0, before, p);
      var entered, all := EntersNext(r, q0, es, p);
      var taken, took := TakesNext(r, q0, es, p);
      StepDelivers(r, After(r, q0, before), es[|es| - 1], p, q0[p], entered, taken);
    }
  }

  lemma TakesNext(r: Rates, q0: Queues, es: seq<Event>, p: Port)
    returns (before: seq<MemoryBurst>, now: seq<MemoryBurst>)
    requires es != []
    ensures before == TakenFrom(r, q0, es[..|es| - 1], p) && now == TakenFrom(r, q0, es, p)
    ensures now == before + Takes(After(r, q0, es[..|es| - 1]), es[|es| - 1], p)
  {
    before, now := TakenFrom(r, q0, es[..|es| - 1], p), TakenFrom(r, q0, es, p);
  }

  lemma EntersNext(r: Rates, q0: Queues, es: seq<Event>, p: Port)
    returns (before: seq<MemoryBurst>, now: seq<MemoryBurst>)
    requires es != []
    ensures before == ForPort(Entered(r, q0, es[..|es| - 1]), p) && now == ForPort(Entered(r, q0, es), p)
    ensures now == before + ForPort(Gain(r, After(r, q0, es[..|es| - 1]), es[|es| - 1]), p)
  {
    before, now := ForPort(Entered(r, q0, es[..|es| - 1]), p), ForPort(Entered(r, q0, es), p);
    ForPortSplits(Entered(r, q0, es[..|es| - 1]), Gain(r, After(r, q0, es[..|es| - 1]), es[|es| - 1]), p);
  }

  /** What one event brings to the ports. */
  function Gain(r: Rates, t: Traffic, e: Event): seq<MemoryBurst> {
    match e case Direct(b) => [b] case _ => Newly(t.delivered, Happened(r, t, e).delivered)
  }

  lemma StepDelivers(r: Rates, t: Traffic, e: Event, p: Port, held: seq<MemoryBurst>, entered: seq<MemoryBurst>,
                     taken: seq<MemoryBurst>)
    requires held + entered == taken + t.ports[p]
    ensures held + (entered + ForPort(Gain(r, t, e), p)) == taken + Takes(t, e, p) + Happened(r, t, e).ports[p]
  {
    PortChanges(r, t, e, p);
    Regroup(held, entered, ForPort(Gain(r, t, e), p), taken, t.ports[p], Takes(t, e, p), Happened(r, t, e).ports[p]);
  }

  lemma Regroup<T>(a: seq<T>, b: seq<T>, x: seq<T>, c: seq<T>, d: seq<T>, y: seq<T>, z: seq<T>)
    requires a + b == c + d && d + x == y + z
    ensures a + (b + x) == c + y + z
  {
    assert a + (b + x) == (c + d) + x;
    assert (c + d) + x == c + (y + z);
  }

  /** What the memory takes from port p in one event. */
  function Takes(t: Traffic, e: Event, p: Port): seq<MemoryBurst> {
    if e == Taken(p) && t.ports[p] != [] then [t.ports[p][0]] else []
  }

  lemma RequestChanges(r: Rates, t: Traffic, b: MemoryBurst, p: Port)
    ensures Gain(r, t, Request(b)) == [] && Takes(t, Request(b), p) == []
    ensures Happened(r, t, Request(b)).ports == t.ports
  {
    assert Newly(t.delivered, t.delivered) == [];
  }

  lemma DirectChanges(r: Rates, t: Traffic, b: MemoryBurst, p: Port)
    ensures t.ports[p] + ForPort(Gain(r, t, Direct(b)), p)
         == Takes(t, Direct(b), p) + Happened(r, t, Direct(b)).ports[p]
  {
    assert [b][..0] == [];
    assert ForPort([b], p) == if b.pcId == p then [b] else [];
  }

  lemma TakenChanges(r: Rates, t: Traffic, pc: Port, p: Port)
    ensures Gain(r, t, Taken(pc)) == []
    ensures t.ports[p] == Takes(t, Taken(pc), p) + Happened(r, t, Taken(pc)).ports[p]
  {
    assert Newly(t.delivered, t.delivered) == [];
  }

  /** A port gains what enters for it and loses only what the memory takes. */
  lemma PortChanges(r: Rates, t: Traffic, e: Event, p: Port)
    ensures t.ports[p] + ForPort(Gain(r, t, e), p) == Takes(t, e, p) + Happened(r, t, e).ports[p]
  {
    match e
    case Request(b) => RequestChanges(r, t, b, p);
    case Tick => TickDelivers(r, t, p);
    case Direct(b) => DirectChanges(r, t, b, p);
    case Taken(pc) => TakenChanges(r, t, pc, p);
  }

  lemma TickDelivers(r: Rates, t: Traffic, p: Port)
    ensures Ticked(r, t).ports[p] == t.ports[p] + ForPort(Newly(t.delivered, Ticked(r, t).delivered), p)
  {
    var a := GrantDelivers(t.local, r.local, t.ports, t.delivered, p);
    var b := GrantDelivers(t.far, r.far, a.ports, a.delivered, p);
    TwoGains(t.ports[p], t.delivered, a.delivered, b.delivered, p);
    assert Ticked(r, t) == Traffic(Metered(a.queue, a.credit), Metered(b.queue, b.credit), b.ports, b.delivered);
  }

  lemma GrantDelivers(m: Metered, rate: real, ports: Queues, delivered: seq<MemoryBurst>, p: Port) returns (d: Flow)
    ensures d == Metering(m, rate, ports, delivered) && delivered <= d.delivered
    ensures d.ports[p] == ports[p] + ForPort(Newly(delivered, d.delivered), p)
  {
    var f := Flow(m.queue, m.credit + rate, ports, delivered);
    DrainDelivers(f, p);
    d := Drained(f);
  }

  lemma TwoGains(x: seq<MemoryBurst>, a: seq<MemoryBurst>, b: seq<MemoryBurst>, c: seq<MemoryBurst>, p: Port)
    requires a <= b <= c
    ensures x + ForPort(Newly(a, c), p) == x + ForPort(Newly(a, b), p) + ForPort(Newly(b, c), p)
  {
    NewlySplits(a, b, c);
    ForPortSplits(Newly(a, b), Newly(b, c), p);
    Associates(x, ForPort(Newly(a, b), p), ForPort(Newly(b, c), p));
  }

  lemma NewlySplits(a: seq<MemoryBurst>, b: seq<MemoryBurst>, c: seq<MemoryBurst>)
    requires a <= b <= c
    ensures Newly(a, c) == Newly(a, b) + Newly(b, c)
  {
  }

  lemma Associates<T>(x: seq<T>, y: seq<T>, z: seq<T>)
    ensures x + (y + z) == x + y + z
  {
  }

  /**
   * A metered class is work conserving over a whole run: while a burst is left behind by a tick,
   * everything granted has been used up to less than the size of that burst.
   */
  lemma BacklogUsesRate(r: Rates, q0: Queues, es: seq<Event>, far: bool)
    requires r.local >= 0.0 && r.far >= 0.0 && EndsInTick(es)
    requires Lane(After(r, q0, es), far).queue != []
    ensures var sent := AdmissionRun.Bytes(OfClass(After(r, q0, es).delivered, far)) as real;
      var granted := Granted(if far then r.far else r.local, es);
      granted - Lane(After(r, q0, es), far).queue[0].sizeBytes as real < sent <= granted
  {
    CreditLaw(r, q0, es);
  }

  function Lane(t: Traffic, far: bool): Metered {
    if far then t.far else t.local
  }
}
