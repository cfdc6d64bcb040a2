/** How evenly striping spreads the dimensions, and the statistics that report it. */
module PartitionBalance {
  import opened Partition
  import Arith

  // ---- exact counts

  /** Where dealing stands after n dimensions: whole rounds, whole chunks of this round, and a rest. */
  datatype Deal = Deal(rounds: nat, chunks: nat, rest: nat)

  /** What vault v holds at that point. */
  function Share(d: Deal, chunk: nat, v: nat): nat {
    d.rounds * chunk + if v < d.chunks then chunk else if v == d.chunks then d.rest else 0
  }

  ghost predicate DealtTo(d: Deal, n: nat, chunk: Word, vaults: Word)
    requires chunk > 0 && vaults > 0
  {
    && d.chunks < vaults && d.rest < chunk
    && n == (d.rounds * vaults + d.chunks) * chunk + d.rest
    && forall v :: 0 <= v < vaults ==> Count(Striped(n, chunk, vaults), v) == Share(d, chunk, v)
  }

  /** The deal after one more dimension. */
  function Advanced(d: Deal, chunk: nat, vaults: nat): Deal {
    if d.rest + 1 < chunk then d.(rest := d.rest + 1)
    else if d.chunks + 1 < vaults then Deal(d.rounds, d.chunks + 1, 0)
    else Deal(d.rounds + 1, 0, 0)
  }

  lemma AdvancedPosition(d: Deal, n: nat, chunk: nat, vaults: nat)
    requires d.chunks < vaults && d.rest < chunk && n == (d.rounds * vaults + d.chunks) * chunk + d.rest
    ensures var d' := Advanced(d, chunk, vaults);
      d'.chunks < vaults && d'.rest < chunk && n + 1 == (d'.rounds * vaults + d'.chunks) * chunk + d'.rest
    ensures (n / chunk) % vaults == d.chunks
  {
    var c := d.rounds * vaults + d.chunks;
    Arith.DivModUnique(n, chunk, c, d.rest);
    Arith.DivModUnique(c, vaults, d.rounds, d.chunks);
    assert (c + 1) * chunk == c * chunk + chunk;
    assert (d.rounds + 1) * vaults == d.rounds * vaults + vaults;
  }

  lemma AdvancedShare(d: Deal, chunk: nat, vaults: nat, v: nat)
    requires d.chunks < vaults && d.rest < chunk && v < vaults
    ensures Share(Advanced(d, chunk, vaults), chunk, v) == Share(d, chunk, v) + if v == d.chunks then 1 else 0
  {
    assert (d.rounds + 1) * chunk == d.rounds * chunk + chunk;
  }

  lemma StripedGrows(n: nat, chunk: Word, vaults: Word, v: nat)
    requires chunk > 0 && vaults > 0
    ensures Count(Striped(n + 1, chunk, vaults), v)
         == Count(Striped(n, chunk, vaults), v) + if (n / chunk) % vaults == v then 1 else 0
  {
    assert Striped(n + 1, chunk, vaults)[..n] == Striped(n, chunk, vaults);
  }

  /** The exact number of dimensions of every vault. */
  lemma {:induction false} StripeCounts(n: nat, chunk: Word, vaults: Word) returns (d: Deal)
    requires chunk > 0 && vaults > 0
    ensures DealtTo(d, n, chunk, vaults)
  {
    if n == 0 {
      d := Deal(0, 0, 0);
    } else {
      var before := StripeCounts(n - 1, chunk, vaults);
      d := Advanced(before, chunk, vaults);
      AdvancedPosition(before, n - 1, chunk, vaults);
      forall v | 0 <= v < vaults
        ensures Count(Striped(n, chunk, vaults), v) == Share(d, chunk, v)
      {
        StripedGrows(n - 1, chunk, vaults, v);
        AdvancedShare(before, chunk, vaults, v);
      }
    }
  }

  /** No two vaults differ by more than one chunk. */
  lemma Balanced(n: nat, chunk: Word, vaults: Word, v: nat, w: nat)
    requires chunk > 0 && v < vaults && w < vaults
    ensures Count(Striped(n, chunk, vaults), v) <= Count(Striped(n, chunk, vaults), w) + chunk
  {
    var d := StripeCounts(n, chunk, vaults);
  }

  /** The first and the last vault hold the same number only between rounds; then all do. */
  lemma EqualShares(d: Deal, chunk: nat, vaults: nat, v: nat)
    requires d.chunks < vaults && d.rest < chunk && vaults > 1 && v < vaults
    ensures Share(d, chunk, 0) == Share(d, chunk, vaults - 1) <==> d.chunks == 0 && d.rest == 0
    ensures d.chunks == 0 && d.rest == 0 ==> Share(d, chunk, v) == Share(d, chunk, 0)
  {
  }

  /** All vaults hold the same number. */
  ghost predicate Level(n: nat, chunk: Word, vaults: Word)
    requires chunk > 0 && vaults > 1
  {
    forall v :: 0 <= v < vaults ==> Count(Striped(n, chunk, vaults), v) == Count(Striped(n, chunk, vaults), 0)
  }

  /** The vaults are level exactly between two rounds of the deal. */
  lemma LevelIff(d: Deal, n: nat, chunk: Word, vaults: Word)
    requires chunk > 0 && vaults > 1 && DealtTo(d, n, chunk, vaults)
    ensures Level(n, chunk, vaults) <==> d.chunks == 0 && d.rest == 0
  {
    EqualShares(d, chunk, vaults, 0);
    if d.chunks == 0 && d.rest == 0 {
      forall v | 0 <= v < vaults
        ensures Count(Striped(n, chunk, vaults), v) == Count(Striped(n, chunk, vaults), 0)
      {
        EqualShares(d, chunk, vaults, v);
      }
    } else {
      var last := vaults - 1;
      assert Count(Striped(n, chunk, vaults), last) != Count(Striped(n, chunk, vaults), 0);
    }
  }

  /** All vaults hold the same number exactly when the dimensions fill whole rounds. */
  lemma PerfectlyBalancedIff(n: nat, chunk: Word, vaults: Word)
    requires chunk > 0 && vaults > 1
    ensures Level(n, chunk, vaults) <==> n % (chunk * vaults) == 0
  {
    var d := StripeCounts(n, chunk, vaults);
    LevelIff(d, n, chunk, vaults);
    WholeRounds(d, n, chunk, vaults);
  }

  lemma WholeRounds(d: Deal, n: nat, chunk: nat, vaults: nat)
    requires d.chunks < vaults && d.rest < chunk && n == (d.rounds * vaults + d.chunks) * chunk + d.rest
    ensures chunk * vaults > 0 && (n % (chunk * vaults) == 0 <==> d.chunks == 0 && d.rest == 0)
  {
    var part := RestOfRound(d, n, chunk, vaults);
  }

  lemma RestOfRound(d: Deal, n: nat, chunk: nat, vaults: nat) returns (part: nat)
    requires d.chunks < vaults && d.rest < chunk && n == (d.rounds * vaults + d.chunks) * chunk + d.rest
    ensures chunk * vaults > 0 && n % (chunk * vaults) == part
    ensures part == 0 <==> d.chunks == 0 && d.rest == 0
  {
    part := d.chunks * chunk + d.rest;
    assert (d.rounds * vaults + d.chunks) * chunk == d.rounds * (chunk * vaults) + d.chunks * chunk;
    Ordered(d.chunks + 1, vaults, chunk);
    assert (d.chunks + 1) * chunk == d.chunks * chunk + chunk;
    assert vaults * chunk == chunk * vaults;
    Arith.DivModUnique(n, chunk * vaults, d.rounds, d.chunks * chunk + d.rest);
    if d.chunks > 0 {
      Arith.Scaled(d.chunks, chunk);
    }
  }

  // ---- the statistics

  function MinOf(s: seq<nat>): (m: nat)
    requires s != []
    ensures m in s && forall i :: 0 <= i < |s| ==> m <= s[i]
  {
    if |s| == 1 then s[0]
    else
      var m := MinOf(s[..|s| - 1]);
      if s[|s| - 1] < m then s[|s| - 1] else m
  }

  function MaxOf(s: seq<nat>): (m: nat)
    requires s != []
    ensures m in s && forall i :: 0 <= i < |s| ==> s[i] <= m
  {
    if |s| == 1 then s[0]
    else
      var m := MaxOf(s[..|s| - 1]);
      if s[|s| - 1] > m then s[|s| - 1] else m
  }

  /** max / avg, where avg spreads all dimensions evenly over all vaults. */
  function Imbalance(max: nat, total: nat, vaults: nat): real
    requires vaults > 0
  {
    var avg := total as real / vaults as real;
    if avg > 0.0 then max as real / avg else 0.0
  }

  /** Spread over all dimensions, the ratio is the largest count over all vaults. */
  lemma ImbalanceIsExact(max: nat, total: nat, vaults: nat)
    requires vaults > 0
    ensures total > 0 ==> Imbalance(max, total, vaults) * total as real == max as real * vaults as real
    ensures total == 0 ==> Imbalance(max, total, vaults) == 0.0
  {
    if total > 0 {
      ExactRatio(max as real, total as real, vaults as real);
    }
  }

  lemma ExactRatio(max: real, total: real, vaults: real)
    requires total > 0.0 && vaults > 0.0
    ensures total / vaults > 0.0 && max / (total / vaults) * total == max * vaults
  {
    var avg := total / vaults;
    assert avg * vaults == total;
    var q := max / avg;
    assert q * avg == max;
    assert q * total == q * avg * vaults;
  }

  method ComputePartitionStats(r: FeaturePartitionResult) returns (s: Outcome<PartitionStats>)
    ensures s.RuntimeError? <==> !InRange(r)
    ensures InRange(r) && r.numVaults == 0 ==> s == Made(PartitionStats(0, 0, 0.0, 0.0))
    ensures InRange(r) && r.numVaults > 0 ==>
      var counts := Counts(r.dimToVault, r.numVaults);
      s == Made(PartitionStats(MinOf(counts), MaxOf(counts), |r.dimToVault| as real / r.numVaults as real,
                               Imbalance(MaxOf(counts), |r.dimToVault|, r.numVaults)))
  {
    var answer := DimsPerVault(r);
    if answer.RuntimeError? {
      return RuntimeError;
    }
    var counts := answer.value;
    if counts == [] {
      return Made(PartitionStats(0, 0, 0.0, 0.0));
    }
    var low, high, total := Scan(counts);
    CountsSum(r.dimToVault, r.numVaults);
    return Made(PartitionStats(low, high, total as real / |counts| as real, Imbalance(high, total, |counts|)));
  }

  /** The loop over the counts. */
  method Scan(counts: seq<nat>) returns (low: nat, high: nat, total: nat)
    requires counts != []
    ensures low == MinOf(counts) && high == MaxOf(counts) && total == Sum(counts)
  {
    low, high, total := counts[0], counts[0], 0;
    for i := 0 to |counts|
      invariant total == Sum(counts[..i])
      invariant i > 0 ==> low == MinOf(counts[..i]) && high == MaxOf(counts[..i])
      invariant i == 0 ==> low == counts[0] == high
    {
      assert counts[..i + 1][..i] == counts[..i];
      if counts[i] < low {
        low := counts[i];
      }
      if counts[i] > high {
        high := counts[i];
      }
      total := total + counts[i];
    }
    assert counts[..|counts|] == counts;
  }

  // ---- the bound on the imbalance

  /** Counts that stay within `chunk` of the maximum m, which one of the first n attains, add up. */
  lemma {:induction false} SumNearMax(s: seq<nat>, m: nat, chunk: nat)
    requires forall i :: 0 <= i < |s| ==> s[i] + chunk >= m
    ensures Sum(s) >= |s| * (m - chunk) && (m in s ==> Sum(s) >= |s| * (m - chunk) + chunk)
  {
    if s == [] {
    } else {
      var n := |s| - 1;
      SumNearMax(s[..n], m, chunk);
      assert |s| * (m - chunk) == n * (m - chunk) + (m - chunk);
      assert s == s[..n] + [s[n]];
    }
  }

  lemma Rearranged(m: int, chunk: int, vaults: int, total: int)
    requires total >= vaults * (m - chunk) + chunk
    ensures m * vaults <= total + chunk * (vaults - 1)
  {
    assert vaults * (m - chunk) == m * vaults - chunk * vaults;
    assert chunk * (vaults - 1) == chunk * vaults - chunk;
  }

  lemma MaxWithin(n: nat, chunk: Word, vaults: Word)
    requires n > 0 && chunk > 0 && vaults > 0
    ensures MaxOf(Counts(Striped(n, chunk, vaults), vaults)) * vaults <= n + chunk * (vaults - 1)
  {
    var vaultOf := Striped(n, chunk, vaults);
    var counts := Counts(vaultOf, vaults);
    var m := MaxOf(counts);
    var top :| 0 <= top < |counts| && counts[top] == m;
    forall v | 0 <= v < vaults
      ensures counts[v] + chunk >= m
    {
      Balanced(n, chunk, vaults, top, v);
    }
    SumNearMax(counts, m, chunk);
    CountsSum(vaultOf, vaults);
    Rearranged(m, chunk, vaults, n);
  }

  /** The imbalance of a striping exceeds 1 by at most chunk * (vaults - 1) / dimensions. */
  lemma ImbalanceBound(n: nat, chunk: Word, vaults: Word)
    requires n > 0 && chunk > 0 && vaults > 0
    ensures Imbalance(MaxOf(Counts(Striped(n, chunk, vaults), vaults)), n, vaults)
         <= 1.0 + (chunk * (vaults - 1)) as real / n as real
  {
    MaxWithin(n, chunk, vaults);
    RatioBound(MaxOf(Counts(Striped(n, chunk, vaults), vaults)), n, vaults, chunk * (vaults - 1));
  }

  lemma RatioBound(max: nat, n: nat, vaults: nat, slack: int)
    requires n > 0 && vaults > 0 && max * vaults <= n + slack
    ensures Imbalance(max, n, vaults) <= 1.0 + slack as real / n as real
  {
    RealRatio(max as real, n as real, vaults as real, slack as real);
    assert (max * vaults) as real == max as real * vaults as real;
  }

  lemma Quotient(a: real, b: real, q: real)
    requires b > 0.0 && q * b == a
    ensures a / b == q
  {
  }

  lemma RealRatio(max: real, n: real, vaults: real, slack: real)
    requires n > 0.0 && vaults > 0.0 && max * vaults <= n + slack
    ensures n / vaults > 0.0 && max / (n / vaults) <= 1.0 + slack / n
  {
    assert max / (n / vaults) == max * vaults / n;
    assert max * vaults / n <= (n + slack) / n;
    Quotient(n + slack, n, 1.0 + slack / n);
  }
}
