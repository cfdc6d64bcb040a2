/** The byte budget of a cycle, the bandwidth it implies, and why a cycle stops admitting. */
module Bandwidth {
  import Arith
  import opened Ports
  import opened Admission
  import opened AdmissionRun

  // ---- the budget

  /** What a cycle may admit under a positive cap: nothing when even the empty cycle is over. */
  function Budget(k: Knobs): real {
    if Limit(k) + EPSILON < 0.0 then 0.0 else Limit(k) + EPSILON
  }

  /** The bytes admitted since the cycle began are those charged to it, and within the budget. */
  ghost predicate Budgeted(k: Knobs, start: nat, s: State) {
    && s.admittedBytes as real == start as real + s.used
    && (k.peakGbps > 0.0 ==> s.used <= Budget(k))
  }

  lemma AttemptBudget(k: Knobs, out: Outside, s: State, pc: Port, start: nat)
    requires Budgeted(k, start, s)
    ensures Budgeted(k, start, Attempt(k, out, s, pc))
  {
  }

  lemma {:induction false} SweptBudget(k: Knobs, out: Outside, s: State, first: Port, n: nat, start: nat)
    requires Budgeted(k, start, s)
    ensures Budgeted(k, start, Swept(k, out, s, first, n))
  {
    if n == 0 {
    } else {
      SweptBudget(k, out, s, first, n - 1, start);
      AttemptBudget(k, out, Swept(k, out, s, first, n - 1), Visit(first, n - 1), start);
    }
  }

  lemma {:induction false} WavesBudget(k: Knobs, out: Outside, s: State, n: nat, start: nat)
    requires n <= MAX_WAVES && Budgeted(k, start, s)
    ensures Budgeted(k, start, Waves(k, out, s, n))
    decreases MAX_WAVES - n
  {
    if n == MAX_WAVES {
    } else {
      SweptBudget(k, out, s, s.cursor, 16, start);
      if Progress(s, Wave(k, out, s)) {
        WavesBudget(k, out, Wave(k, out, s), n + 1, start);
      }
    }
  }

  /** Every cycle admits at most its limit and slack, whatever the burst sizes and the refusals. */
  lemma CycleBudget(k: Knobs, out: Outside, s: State, limit: real)
    requires k.peakGbps > 0.0 && limit == k.peakGbps * 1000000000.0 * (k.tckNs * 0.000000001) + 0.000001
    ensures Cycled(k, out, s).admittedBytes as real <= s.admittedBytes as real + if limit < 0.0 then 0.0 else limit
  {
    CycleWithin(k, out, s);
  }

  lemma CycleWithin(k: Knobs, out: Outside, s: State)
    requires k.peakGbps > 0.0
    ensures Cycled(k, out, s).admittedBytes as real <= s.admittedBytes as real + Budget(k)
  {
    WavesBudget(k, out, Refilled(out, s), 0, s.admittedBytes);
    RepliesOnlyComplete(Waves(k, out, Refilled(out, s), 0), out.completions(s.cycles));
  }

  lemma {:induction false} RunBudget(k: Knobs, out: Outside, s: State, n: nat, budget: real)
    requires k.peakGbps > 0.0 && budget == Budget(k)
    ensures After(k, out, s, n).admittedBytes as real <= s.admittedBytes as real + Arith.Repeated(n, budget)
  {
    if n == 0 {
    } else {
      RunBudget(k, out, s, n - 1, budget);
      CycleWithin(k, out, After(k, out, s, n - 1));
    }
  }

  /**
   * Bandwidth bound: with a positive cap and a positive clock period, n cycles move no more than
   * n budgets, and the reported bandwidth exceeds the cap by no more than the rounding slack.
   */
  lemma BandwidthBound(k: Knobs, out: Outside, q: Queues, cursor: Port, n: nat)
    requires k.peakGbps > 0.0 && k.tckNs > 0.0
    ensures WithinBandwidth(ResultOf(k, After(k, out, Begun(q, cursor), n)))
  {
    var s, budget := RunTotals(k, out, q, cursor, n);
    BoundedResult(k, s, n, budget);
  }

  lemma RunTotals(k: Knobs, out: Outside, q: Queues, cursor: Port, n: nat) returns (s: State, budget: real)
    requires k.peakGbps > 0.0
    ensures s == After(k, out, Begun(q, cursor), n) && budget == Budget(k)
    ensures s.cycles == n && s.bytesDone <= s.admittedBytes && s.admittedBytes as real <= n as real * budget
  {
    s, budget := After(k, out, Begun(q, cursor), n), Budget(k);
    RunBudget(k, out, Begun(q, cursor), n, budget);
    Arith.RepeatedIsProduct(n, budget);
    RunKeeps(k, out, q, cursor, n, 0);
  }

  /** Bytes moved, bytes admitted and reported rate are all within the cap. */
  ghost predicate WithinBandwidth(r: SimulationResult)
    requires r.tckNs > 0.0
  {
    && r.bytesMoved <= r.tsvBytesAdmitted
    && r.tsvBytesAdmitted as real <= r.memoryCycles as real * (r.tsvPeakGbps * r.tckNs + 0.000001)
    && r.EffectiveGbps() <= r.tsvPeakGbps + 0.000001 / r.tckNs
  }

  /**
   * What the reported rate means: over the simulated time, in nanoseconds, it accounts for exactly
   * the bytes moved; without simulated time it is zero.
   */
  lemma RateIsExact(r: SimulationResult)
    ensures r.memoryCycles == 0 || r.tckNs <= 0.0 ==> r.EffectiveGbps() == 0.0
    ensures r.memoryCycles > 0 && r.tckNs > 0.0 ==>
      r.EffectiveGbps() * (r.memoryCycles as real * r.tckNs) == r.bytesMoved as real
  {
    if r.memoryCycles > 0 && r.tckNs > 0.0 {
      var ns := r.memoryCycles as real * r.tckNs;
      Positive(r.memoryCycles as real, r.tckNs);
      assert r.memoryCycles as real * (r.tckNs * 0.000000001) == ns * 0.000000001;
      RateTimesTime(r.bytesMoved as real, ns, ns * 0.000000001);
    }
  }

  lemma RateTimesTime(bytes: real, ns: real, seconds: real)
    requires ns > 0.0 && seconds == ns * 0.000000001
    ensures seconds > 0.0 && bytes / seconds / 1000000000.0 * ns == bytes
  {
    var rate := bytes / seconds;
    assert rate * seconds == bytes;
    assert rate / 1000000000.0 * ns == rate * (ns * 0.000000001);
  }

  lemma BoundedResult(k: Knobs, s: State, n: nat, budget: real)
    requires k.peakGbps > 0.0 && k.tckNs > 0.0 && budget == Budget(k)
    requires s.cycles == n && s.bytesDone <= s.admittedBytes && s.admittedBytes as real <= n as real * budget
    ensures WithinBandwidth(ResultOf(k, s))
  {
    var r := ResultOf(k, s);
    LimitIsProduct(k);
    assert budget == r.tsvPeakGbps * r.tckNs + EPSILON;
    if r.memoryCycles > 0 {
      RateBound(r.bytesMoved, r.memoryCycles, r.tckNs, r.tsvPeakGbps);
    } else {
      assert EPSILON / r.tckNs > 0.0;
    }
  }

  lemma LimitIsProduct(k: Knobs)
    requires k.peakGbps > 0.0 && k.tckNs > 0.0
    ensures Limit(k) == k.peakGbps * k.tckNs && Limit(k) > 0.0
  {
    var a, b := k.peakGbps, k.tckNs;
    assert a * 1000000000.0 * (b * 0.000000001) == (a * b) * (1000000000.0 * 0.000000001);
    assert 1000000000.0 * 0.000000001 == 1.0;
    assert a * b > 0.0;
  }

  /** From a byte bound per cycle to a bound on GB/s. */
  lemma RateBound(bytes: nat, n: nat, tck: real, peak: real)
    requires 0 < n && tck > 0.0 && bytes as real <= n as real * (peak * tck + EPSILON)
    ensures bytes as real / (n as real * (tck * 0.000000001)) / 1000000000.0 <= peak + EPSILON / tck
  {
    var m := n as real;
    var seconds := m * (tck * 0.000000001);
    assert seconds > 0.0 by {
      Positive(m, tck * 0.000000001);
    }
    var rate := peak + EPSILON / tck;
    assert rate * tck == peak * tck + EPSILON;
    assert (rate * 1000000000.0) * seconds == m * (rate * tck);
    Quotient(bytes as real, seconds, rate * 1000000000.0);
  }

  lemma Positive(x: real, y: real)
    requires x > 0.0 && y > 0.0
    ensures x * y > 0.0
  {
  }

  lemma Quotient(x: real, y: real, z: real)
    requires y > 0.0 && x <= z * y
    ensures x / y <= z
  {
  }
}
