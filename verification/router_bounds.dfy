/** The router's two classes by address, and what the constructed rates let through. */
module RouterBounds {
  import opened Ports
  import opened Router
  import AdmissionRun

  /** The bursts at or above the boundary, or those below it, in order. */
  function Selected(bs: seq<MemoryBurst>, boundary: nat, above: bool): seq<MemoryBurst> {
    if bs == [] then []
    else
      var b := bs[|bs| - 1];
      Selected(bs[..|bs| - 1], boundary, above) + if (b.addr >= boundary) == above then [b] else []
  }

  /** The bytes that they carry. */
  function SelectedBytes(bs: seq<MemoryBurst>, boundary: nat, above: bool): nat {
    if bs == [] then 0
    else
      var b := bs[|bs| - 1];
      SelectedBytes(bs[..|bs| - 1], boundary, above) + if (b.addr >= boundary) == above then b.sizeBytes else 0
  }

  lemma {:induction false} ClassIsSelected(bs: seq<MemoryBurst>, far: bool)
    ensures OfClass(bs, far) == Selected(bs, 0x80000000, far)
    ensures AdmissionRun.Bytes(OfClass(bs, far)) == SelectedBytes(bs, 0x80000000, far)
  {
    if bs == [] {
    } else {
      var before, b := bs[..|bs| - 1], bs[|bs| - 1];
      ClassIsSelected(before, far);
      if IsGlobal(b) == far {
        AdmissionRun.SumsAppend(OfClass(before, far), b);
      } else {
        assert OfClass(bs, far) == OfClass(before, far);
      }
    }
  }

  /** What one class has sent, still holds and was asked for, and the bytes that its rate has granted. */
  ghost predicate Served(t: Traffic, m: Metered, above: bool, asked: seq<MemoryBurst>, granted: real) {
    && Selected(t.delivered, 0x80000000, above) + m.queue == Selected(asked, 0x80000000, above)
    && (forall i :: 0 <= i < |m.queue| ==> (m.queue[i].addr >= 0x80000000) == above)
    && SelectedBytes(t.delivered, 0x80000000, above) as real + m.credit == granted && m.credit >= 0.0
  }

  /** Right after a tick a class has used up its grant to within the size of its head, if it has one. */
  ghost predicate UsedUp(t: Traffic, m: Metered, above: bool, granted: real) {
    m.queue == [] || granted - m.queue[0].sizeBytes as real < SelectedBytes(t.delivered, 0x80000000, above) as real
  }

  lemma AccountIsServed(t: Traffic, m: Metered, far: bool, requested: seq<MemoryBurst>, granted: real)
    requires Account(OfClass(t.delivered, far), m, far, OfClass(requested, far), granted)
    ensures Served(t, m, far, requested, granted)
    ensures Spent(m) ==> UsedUp(t, m, far, granted)
  {
    ClassIsSelected(t.delivered, far);
    ClassIsSelected(requested, far);
    forall i | 0 <= i < |m.queue|
      ensures (m.queue[i].addr >= 0x80000000) == far
    {
      assert IsGlobal(m.queue[i]) == far;
    }
  }

  /**
   * The credit law by address: requests at or above 0x80000000 and requests below it are served
   * independently, each in order and out of its own grant.
   */
  lemma CreditByAddress(r: Rates, q0: Queues, es: seq<Event>) returns (t: Traffic)
    requires r.local >= 0.0 && r.far >= 0.0
    ensures t == After(r, q0, es)
    ensures Served(t, t.local, false, Requests(es), Granted(r.local, es))
    ensures Served(t, t.far, true, Requests(es), Granted(r.far, es))
    ensures EndsInTick(es) ==>
      UsedUp(t, t.local, false, Granted(r.local, es)) && UsedUp(t, t.far, true, Granted(r.far, es))
  {
    t := After(r, q0, es);
    CreditLaw(r, q0, es);
    AccountIsServed(t, t.local, false, Requests(es), Granted(r.local, es));
    AccountIsServed(t, t.far, true, Requests(es), Granted(r.far, es));
  }

  /** What a class has delivered is at most `allowed`, and right after a tick not less by a burst that waits. */
  ghost predicate Within(t: Traffic, m: Metered, above: bool, allowed: real, ticked: bool) {
    var sent := SelectedBytes(t.delivered, 0x80000000, above) as real;
    sent <= allowed && (ticked && m.queue != [] ==> sent + m.queue[0].sizeBytes as real > allowed)
  }

  lemma ServedIsWithin(t: Traffic, m: Metered, above: bool, asked: seq<MemoryBurst>, granted: real, ticked: bool)
    requires Served(t, m, above, asked, granted) && (ticked ==> UsedUp(t, m, above, granted))
    ensures Within(t, m, above, granted, ticked)
  {
  }

  /**
   * A router built for a clock of clockHz delivers, in any number of ticks, at most 64 GB/s worth
   * of bytes from addresses at or above 0x80000000 and at most 512 GB/s worth from those below;
   * right after a tick, what waits at either is held up by less than its own first burst.
   */
  lemma ConstructedRates(clockHz: real, r: Rates, q0: Queues, es: seq<Event>)
    returns (t: Traffic, far: real, local: real)
    requires clockHz > 0.0
    requires r == Rates(512.0 * 1000000000.0 / clockHz, 64.0 * 1000000000.0 / clockHz)
    ensures t == After(r, q0, es) && far == r.far * Ticks(es) as real && local == r.local * Ticks(es) as real
    ensures Within(t, t.far, true, far, EndsInTick(es)) && Within(t, t.local, false, local, EndsInTick(es))
  {
    Positive(64.0 * 1000000000.0, clockHz);
    Positive(512.0 * 1000000000.0, clockHz);
    t, far, local := WithinRates(r, q0, es);
  }

  /** The same for any rates. */
  lemma WithinRates(r: Rates, q0: Queues, es: seq<Event>) returns (t: Traffic, far: real, local: real)
    requires r.far >= 0.0 && r.local >= 0.0
    ensures t == After(r, q0, es) && far == r.far * Ticks(es) as real && local == r.local * Ticks(es) as real
    ensures Within(t, t.far, true, far, EndsInTick(es)) && Within(t, t.local, false, local, EndsInTick(es))
  {
    far := GrantIs(r.far, es);
    local := GrantIs(r.local, es);
    t := WithinGrants(r, q0, es, far, local);
  }

  lemma GrantIs(rate: real, es: seq<Event>) returns (granted: real)
    ensures granted == Granted(rate, es) && granted == rate * Ticks(es) as real
  {
    GrantedIsRateTimesTicks(rate, es);
    granted := Granted(rate, es);
  }

  lemma WithinGrants(r: Rates, q0: Queues, es: seq<Event>, far: real, local: real) returns (t: Traffic)
    requires r.far >= 0.0 && r.local >= 0.0 && far == Granted(r.far, es) && local == Granted(r.local, es)
    ensures t == After(r, q0, es)
    ensures Within(t, t.far, true, far, EndsInTick(es)) && Within(t, t.local, false, local, EndsInTick(es))
  {
    t := CreditByAddress(r, q0, es);
    ServedIsWithin(t, t.far, true, Requests(es), Granted(r.far, es), EndsInTick(es));
    ServedIsWithin(t, t.local, false, Requests(es), Granted(r.local, es), EndsInTick(es));
  }

  lemma Positive(a: real, b: real)
    requires a > 0.0 && b > 0.0
    ensures a / b > 0.0
  {
  }

  // ---- one tick

  /**
   * One tick delivers the longest prefix of the local queue that its credit pays for, and behind
   * it the longest such prefix of the global queue; what is paid is taken off the credits.
   */
  lemma TickForwards(r: Rates, t: Traffic) returns (t': Traffic, i: nat, j: nat)
    ensures t' == Ticked(r, t)
    ensures LongestAffordable(t.local.queue, t.local.credit + r.local, i)
    ensures LongestAffordable(t.far.queue, t.far.credit + r.far, j)
    ensures t'.delivered == t.delivered + t.local.queue[..i] + t.far.queue[..j]
    ensures t'.local.queue == t.local.queue[i..] && t'.far.queue == t.far.queue[j..]
    ensures t'.local.credit == t.local.credit + r.local - AdmissionRun.Bytes(t.local.queue[..i]) as real
    ensures t'.far.credit == t.far.credit + r.far - AdmissionRun.Bytes(t.far.queue[..j]) as real
  {
    t' := Ticked(r, t);
    var a := Flow(t.local.queue, t.local.credit + r.local, t.ports, t.delivered);
    i := DrainForwards(a);
    var b := Flow(t.far.queue, t.far.credit + r.far, Drained(a).ports, Drained(a).delivered);
    j := DrainForwards(b);
  }

  lemma DrainForwards(f: Flow) returns (k: nat)
    ensures LongestAffordable(f.queue, f.credit, k)
    ensures Drained(f).queue == f.queue[k..] && Drained(f).delivered == f.delivered + f.queue[..k]
    ensures Drained(f).credit == f.credit - AdmissionRun.Bytes(f.queue[..k]) as real
  {
    k := DrainsLongestPrefix(f);
    var n := DrainPays(f);
    assert |f.queue[k..]| == |f.queue[n..]|;
  }

  lemma {:induction false} DrainPays(f: Flow) returns (k: nat)
    ensures k <= |f.queue| && Drained(f).queue == f.queue[k..]
    ensures Drained(f).credit == f.credit - AdmissionRun.Bytes(f.queue[..k]) as real
    decreases |f.queue|
  {
    if f.queue != [] && f.credit >= f.queue[0].sizeBytes as real {
      k := DrainPays(Forwarded(f));
      PrefixBytes(f.queue, k);
      assert f.queue[1..][k..] == f.queue[k + 1..];
      k := k + 1;
    } else {
      k := 0;
    }
  }
}
