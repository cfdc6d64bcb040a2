/** Feeder and array together: one pushed vector comes out as a vector-matrix product. */
module Wavefront {
  import opened Vectors
  import opened Systolic
  import opened Feeder

  /** The stream that one push of v into an empty feeder produces. */
  ghost function Wave(v: Vec, n: nat): (s: seq<Vec>)
    ensures |s| == n
  {
    Feed(Pushed(Empty(), v), n)
  }

  /** The array after t of n ticks fed by one push of v, with zero sums entering at the top. */
  ghost function Flooded(w: Matrix, v: Vec, n: nat, t: nat): Grid
    requires t <= n
  {
    After(w, Wave(v, n), Zeros(n), t)
  }

  /** The bottom row on array tick t of n, counting from the first pop after the push of v. */
  ghost function Emitted(w: Matrix, v: Vec, n: nat, t: nat): Vec
    requires t <= n
  {
    Bottom(Flooded(w, v, n, t))
  }

  /** What a single readout on array tick 31 sees: only the last column has arrived. */
  function Readout(w: Matrix, v: Vec): Vec {
    seq(16, c requires 0 <= c < 16 => if c == 15 then ColumnDot(w, v, 15, 16) else 0.0)
  }

  /** What a partial sum starting at `start` finds in row i. */
  ghost predicate Meets(acts: seq<Vec>, v: Vec, start: int, i: nat)
    requires i < 16
  {
    At(acts, start + i, i) == if start == 0 then v[i] else 0.0
  }

  /** A diagonal that meets the wave head-on is a dot product; any other meets only zeros. */
  lemma {:induction false} WaveDiagonal(w: Matrix, acts: seq<Vec>, v: Vec, c: nat, start: int, n: nat)
    requires c < 16 && n <= 16
    requires forall i: nat :: i < n ==> Meets(acts, v, start, i)
    ensures Diagonal(w, acts, c, start, n) == if start == 0 then ColumnDot(w, v, c, n) else 0.0
  {
    if n == 0 {
    } else {
      WaveDiagonal(w, acts, v, c, start, n - 1);
      assert Meets(acts, v, start, n - 1);
    }
  }

  lemma WaveAt(v: Vec, n: nat, time: int, i: nat)
    requires i < 16
    ensures At(Wave(v, n), time, i) == if time == i && time < n then v[i] else 0.0
  {
    if 0 <= time < n {
      FreshFeedAt(v, n, time, i);
    }
  }

  /**
   * Wavefront theorem: column c emits its whole dot product on tick 16 + c and zero on every
   * other tick.
   */
  lemma WavefrontAt(w: Matrix, v: Vec, n: nat, t: nat, c: nat)
    requires t <= n && c < 16
    ensures Emitted(w, v, n, t)[c] == if t == 16 + c then ColumnDot(w, v, c, 16) else 0.0
  {
    SpaceTime(w, Wave(v, n), Zeros(n), t, c);
    var start := t - 16 - c;
    forall i: nat | i < 16
      ensures Meets(Wave(v, n), v, start, i)
    {
      WaveAt(v, n, start + i, i);
    }
    WaveDiagonal(w, Wave(v, n), v, c, start, 16);
  }

  /** What is collected from column c on tick 16 + c, for every c. */
  ghost function Collected(w: Matrix, v: Vec, n: nat): Vec
    requires 31 <= n
  {
    seq(16, c requires 0 <= c < 16 => Emitted(w, v, n, 16 + c)[c])
  }

  /** Collecting column c on tick 16 + c yields the full vector-matrix product. */
  lemma CollectedIsProduct(w: Matrix, v: Vec, n: nat)
    requires 31 <= n
    ensures Collected(w, v, n) == VecMat(w, v)
  {
    forall c | 0 <= c < 16
      ensures Collected(w, v, n)[c] == VecMat(w, v)[c]
    {
      CollectedLane(w, v, n, c);
    }
  }

  lemma CollectedLane(w: Matrix, v: Vec, n: nat, c: nat)
    requires 31 <= n && c < 16
    ensures Collected(w, v, n)[c] == ColumnDot(w, v, c, 16)
  {
    WavefrontAt(w, v, n, 16 + c, c);
  }

  /** The sixteen products of v with column c of a row-major 16x16 matrix, added up. */
  function SixteenProducts(w: Matrix, v: Vec, c: nat): real
    requires c < 16
  {
    v[0] * w[c] + v[1] * w[16 + c] + v[2] * w[32 + c] + v[3] * w[48 + c] + v[4] * w[64 + c] + v[5] * w[80 + c]
    + v[6] * w[96 + c] + v[7] * w[112 + c] + v[8] * w[128 + c] + v[9] * w[144 + c] + v[10] * w[160 + c]
    + v[11] * w[176 + c] + v[12] * w[192 + c] + v[13] * w[208 + c] + v[14] * w[224 + c] + v[15] * w[240 + c]
  }

  /** Entry c of the vector-matrix product, written out. */
  lemma ProductTerms(w: Matrix, v: Vec, c: nat)
    requires c < 16
    ensures VecMat(w, v)[c] == ColumnDot(w, v, c, 16) == SixteenProducts(w, v, c)
  {
    var low := FourTerms(w, v, c, 0);
    var middle := FourTerms(w, v, c, 4);
    var high := FourTerms(w, v, c, 8);
    var top := FourTerms(w, v, c, 12);
  }

  lemma FourTerms(w: Matrix, v: Vec, c: nat, n: nat) returns (added: real)
    requires c < 16 && n + 4 <= 16
    ensures added == v[n] * w[n * 16 + c] + v[n + 1] * w[n * 16 + 16 + c] + v[n + 2] * w[n * 16 + 32 + c]
                     + v[n + 3] * w[n * 16 + 48 + c]
    ensures ColumnDot(w, v, c, n + 4) == ColumnDot(w, v, c, n) + added
  {
    added := ColumnDot(w, v, c, n + 4) - ColumnDot(w, v, c, n);
    assert ColumnDot(w, v, c, n + 2) == ColumnDot(w, v, c, n + 1) + v[n + 1] * w[(n + 1) * 16 + c];
    assert ColumnDot(w, v, c, n + 3) == ColumnDot(w, v, c, n + 2) + v[n + 2] * w[(n + 2) * 16 + c];
  }

  /** One readout on tick 31 catches column 15 alone. */
  lemma SingleReadout(w: Matrix, v: Vec, n: nat)
    requires 31 <= n
    ensures Emitted(w, v, n, 31) == Readout(w, v)
  {
    forall c | 0 <= c < 16
      ensures Emitted(w, v, n, 31)[c] == Readout(w, v)[c]
    {
      WavefrontAt(w, v, n, 31, c);
    }
  }

  /** Every weight outside the last column is zero. */
  predicate OnlyLastColumn(w: Matrix) {
    forall r, c :: 0 <= r < 16 && 0 <= c < 15 ==> Entry(w, r, c) == 0.0
  }

  function Entry(w: Matrix, r: nat, c: nat): real
    requires r < 16 && c < 16
  {
    w[r * 16 + c]
  }

  /**
   * The single readout delivers the product the cell's design promises, for every vector, if
   * and only if the weights outside the last column are all zero.
   */
  lemma SingleReadoutSuffices(w: Matrix)
    ensures (forall v: Vec :: Emitted(w, v, 32, 31) == VecMat(w, v)) <==> OnlyLastColumn(w)
  {
    if OnlyLastColumn(w) {
      forall v: Vec
        ensures Emitted(w, v, 32, 31) == VecMat(w, v)
      {
        SingleReadout(w, v, 32);
        forall c | 0 <= c < 15
          ensures VecMat(w, v)[c] == 0.0
        {
          ZeroColumn(w, v, c, 16);
        }
        assert Readout(w, v) == VecMat(w, v);
      }
    } else {
      var r, c :| 0 <= r < 16 && 0 <= c < 15 && Entry(w, r, c) != 0.0;
      var v: Vec := Zero()[r := 1.0];
      SingleReadout(w, v, 32);
      UnitDot(w, r, c, 16);
      assert Readout(w, v)[c] != VecMat(w, v)[c];
    }
  }

  lemma {:induction false} ZeroColumn(w: Matrix, v: Vec, c: nat, n: nat)
    requires c < 15 && n <= 16 && OnlyLastColumn(w)
    ensures ColumnDot(w, v, c, n) == 0.0
  {
    if n == 0 {
    } else {
      ZeroColumn(w, v, c, n - 1);
      assert Entry(w, n - 1, c) == 0.0;
    }
  }

  lemma {:induction false} UnitDot(w: Matrix, r: nat, c: nat, n: nat)
    requires r < 16 && c < 16 && n <= 16
    ensures ColumnDot(w, Zero()[r := 1.0], c, n) == if r < n then Entry(w, r, c) else 0.0
  {
    if n == 0 {
    } else {
      UnitDot(w, r, c, n - 1);
    }
  }
}
