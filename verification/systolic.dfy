/** The weight-stationary systolic array and the space-time law of its outputs. */
module Systolic {
  import opened Vectors

  /** One multiply-accumulate cell: its weight, its two input latches and its two outputs. */
  datatype ProcessingElement = PE(weight: real, actIn: real, psumIn: real, actOut: real, psumOut: real)

  /** What survives from one tick to the next; the outputs are recomputed before every use. */
  datatype Grid = Grid(weight: Matrix, act: Plane, psum: Plane)

  /** The grid just after loading w. */
  function Fresh(w: Matrix): Grid {
    Grid(w, Zeros(16), Zeros(16))
  }

  function Mac(g: Grid, r: nat, c: nat): real
    requires r < 16 && c < 16
  {
    g.psum[r][c] + g.act[r][c] * g.weight[r * 16 + c]
  }

  function MacRow(g: Grid, r: nat): Vec
    requires r < 16
  {
    seq(16, c requires 0 <= c < 16 => Mac(g, r, c))
  }

  /** What drops out of the bottom row on a tick taken in g. */
  function Bottom(g: Grid): Vec {
    MacRow(g, 15)
  }

  /** All 256 cells step at once: sums move one row down, activations one column right. */
  function Shift(g: Grid, left: Vec, top: Vec): Grid {
    Grid(
      g.weight,
      seq(16, r requires 0 <= r < 16 => seq(16, c requires 0 <= c < 16 => if c == 0 then left[r] else g.act[r][c - 1])),
      seq(16, r requires 0 <= r < 16 => if r == 0 then top else MacRow(g, r - 1)))
  }

  class SystolicArray {
    const pes: array<ProcessingElement>

    ghost predicate Valid() {
      pes.Length == 256
    }

    ghost function Contents(): Grid
      requires Valid()
      reads pes
    {
      GridOf(pes[..])
    }

    constructor ()
      ensures Valid() && fresh(pes)
      ensures Contents() == Fresh(ZeroMatrix())
      ensures forall i :: 0 <= i < 256 ==> pes[i].weight == 0.0 && pes[i].actIn == 0.0 && pes[i].psumIn == 0.0
    {
      pes := new ProcessingElement[256](_ => PE(0.0, 0.0, 0.0, 0.0, 0.0));
      new;
      ClearedIsFresh(pes[..], ZeroMatrix());
    }

    /** Loads the weights and clears the input latches; refuses any vector that is not 256 long. */
    method LoadWeights(w: seq<real>) returns (ok: bool)
      requires Valid()
      modifies pes
      ensures ok <==> |w| == 256
      ensures Contents() == if |w| == 256 then Fresh(w) else old(Contents())
    {
      if |w| != 256 {
        return false;
      }
      ghost var before := pes[..];
      for i := 0 to 256
        invariant forall j :: 0 <= j < 256 ==>
          pes[j] == (if j < i then before[j].(weight := w[j], actIn := 0.0, psumIn := 0.0) else before[j])
      {
        pes[i] := pes[i].(weight := w[i], actIn := 0.0, psumIn := 0.0);
      }
      ClearedIsFresh(pes[..], w);
      return true;
    }

    /** One clock: compute, capture the bottom row, then shift in place. */
    method Tick(left: Vec, top: Vec) returns (bottom: Vec)
      requires Valid()
      modifies pes
      ensures bottom == Bottom(old(Contents()))
      ensures Contents() == Shift(old(Contents()), left, top)
    {
      ghost var before := pes[..];
      Compute();
      bottom := CaptureBottom();
      MacOfCells(before, 15);
      assert bottom == Bottom(GridOf(before));
      ShiftSums(top);
      ShiftActivations(left);
      forall i | 0 <= i < 256
        ensures CellStepped(before, pes[..], left, top, i)
      {
      }
      SteppedIsShift(before, pes[..], left, top);
    }

    method Compute()
      requires Valid()
      modifies pes
      ensures forall i :: 0 <= i < 256 ==> pes[i] == Computed(old(pes[i]))
    {
      ghost var before := pes[..];
      for i := 0 to 256
        invariant forall j :: 0 <= j < 256 ==> pes[j] == if j < i then Computed(before[j]) else before[j]
      {
        pes[i] := pes[i].(actOut := pes[i].actIn, psumOut := pes[i].psumIn + pes[i].actIn * pes[i].weight);
      }
    }

    method CaptureBottom() returns (bottom: Vec)
      requires Valid()
      ensures forall c :: 0 <= c < 16 ==> bottom[c] == pes[240 + c].psumOut
    {
      bottom := Zero();
      for col := 0 to 16
        invariant forall c :: 0 <= c < col ==> bottom[c] == pes[240 + c].psumOut
      {
        bottom := bottom[col := pes[15 * 16 + col].psumOut];
      }
    }

    method ShiftSums(top: Vec)
      requires Valid()
      modifies pes
      ensures forall i :: 0 <= i < 256 ==> pes[i] == SumMovedDown(old(pes[..]), top, i)
    {
      ghost var before := pes[..];
      for row := 16 downto 1
        invariant forall i :: 0 <= i < 256 ==>
          pes[i] == (if i >= row * 16 then SumMovedDown(before, top, i) else before[i])
      {
        for col := 0 to 16
          invariant forall i :: 0 <= i < 256 ==>
            pes[i] == (if i >= (row + 1) * 16 || row * 16 <= i < row * 16 + col
                       then SumMovedDown(before, top, i) else before[i])
        {
          pes[row * 16 + col] := pes[row * 16 + col].(psumIn := pes[(row - 1) * 16 + col].psumOut);
        }
      }
      for col := 0 to 16
        invariant forall i :: 0 <= i < 256 ==>
          pes[i] == (if i >= 16 || i < col then SumMovedDown(before, top, i) else before[i])
      {
        pes[col] := pes[col].(psumIn := top[col]);
      }
    }

    method ShiftActivations(left: Vec)
      requires Valid()
      modifies pes
      ensures forall i :: 0 <= i < 256 ==> pes[i] == ActMovedRight(old(pes[..]), left, i)
    {
      ghost var before := pes[..];
      for col := 16 downto 1
        invariant forall i :: 0 <= i < 256 ==>
          pes[i] == (if i % 16 >= col then ActMovedRight(before, left, i) else before[i])
      {
        for row := 0 to 16
          invariant forall i :: 0 <= i < 256 ==>
            pes[i] == (if i % 16 > col || (i % 16 == col && i / 16 < row)
                       then ActMovedRight(before, left, i) else before[i])
        {
          pes[row * 16 + col] := pes[row * 16 + col].(actIn := pes[row * 16 + (col - 1)].actOut);
        }
      }
      for row := 0 to 16
        invariant forall i :: 0 <= i < 256 ==>
          pes[i] == (if i % 16 >= 1 || i / 16 < row then ActMovedRight(before, left, i) else before[i])
      {
        pes[row * 16] := pes[row * 16].(actIn := left[row]);
      }
    }
  }

  /** Cell i with the sum of the cell above it, or of the top edge, latched. */
  ghost function SumMovedDown(cells: seq<ProcessingElement>, top: Vec, i: nat): ProcessingElement
    requires |cells| == 256 && i < 256
  {
    cells[i].(psumIn := if i < 16 then top[i] else cells[i - 16].psumOut)
  }

  /** Cell i with the activation of the cell on its left, or of the left edge, latched. */
  ghost function ActMovedRight(cells: seq<ProcessingElement>, left: Vec, i: nat): ProcessingElement
    requires |cells| == 256 && i < 256
  {
    cells[i].(actIn := if i % 16 == 0 then left[i / 16] else cells[i - 1].actOut)
  }

  /** The cell with its two outputs computed from its latched inputs. */
  function Computed(cell: ProcessingElement): ProcessingElement {
    cell.(actOut := cell.actIn, psumOut := CellMac(cell))
  }

  function CellMac(cell: ProcessingElement): real {
    cell.psumIn + cell.actIn * cell.weight
  }

  ghost function GridOf(cells: seq<ProcessingElement>): Grid
    requires |cells| == 256
  {
    Grid(
      seq(256, i requires 0 <= i < 256 => cells[i].weight),
      seq(16, r requires 0 <= r < 16 => seq(16, c requires 0 <= c < 16 => cells[r * 16 + c].actIn)),
      seq(16, r requires 0 <= r < 16 => seq(16, c requires 0 <= c < 16 => cells[r * 16 + c].psumIn)))
  }

  lemma ClearedIsFresh(cells: seq<ProcessingElement>, w: Matrix)
    requires |cells| == 256
    requires forall i :: 0 <= i < 256 ==> cells[i].weight == w[i] && cells[i].actIn == 0.0 && cells[i].psumIn == 0.0
    ensures GridOf(cells) == Fresh(w)
  {
    forall r | 0 <= r < 16
      ensures GridOf(cells).act[r] == Zero() && GridOf(cells).psum[r] == Zero()
    {
    }
  }

  /** Cell by cell, what the three in-place passes of a tick must have done to the input latches. */
  ghost predicate CellStepped(before: seq<ProcessingElement>, after: seq<ProcessingElement>,
                              left: Vec, top: Vec, i: nat)
    requires |before| == |after| == 256 && i < 256
  {
    && after[i].weight == before[i].weight
    && after[i].actIn == (if i % 16 == 0 then left[i / 16] else before[i - 1].actIn)
    && after[i].psumIn == (if i < 16 then top[i] else CellMac(before[i - 16]))
  }

  /** The passes, put together, are one simultaneous step of the grid. */
  lemma SteppedIsShift(before: seq<ProcessingElement>, after: seq<ProcessingElement>, left: Vec, top: Vec)
    requires |before| == |after| == 256
    requires forall i :: 0 <= i < 256 ==> CellStepped(before, after, left, top, i)
    ensures GridOf(after) == Shift(GridOf(before), left, top)
  {
    var next := Shift(GridOf(before), left, top);
    forall r | 0 <= r < 16
      ensures GridOf(after).act[r] == next.act[r]
    {
      forall c | 0 <= c < 16
        ensures GridOf(after).act[r][c] == next.act[r][c]
      {
        assert CellStepped(before, after, left, top, r * 16 + c);
        assert (r * 16 + c) % 16 == c && (r * 16 + c) / 16 == r;
      }
    }
    forall r | 0 <= r < 16
      ensures GridOf(after).psum[r] == next.psum[r]
    {
      SumRowStepped(before, after, left, top, r);
    }
    assert GridOf(after).weight == next.weight by {
      forall i | 0 <= i < 256
        ensures after[i].weight == before[i].weight
      {
        assert CellStepped(before, after, left, top, i);
      }
    }
  }

  lemma SumRowStepped(before: seq<ProcessingElement>, after: seq<ProcessingElement>, left: Vec, top: Vec, r: nat)
    requires |before| == |after| == 256 && r < 16
    requires forall i :: 0 <= i < 256 ==> CellStepped(before, after, left, top, i)
    ensures GridOf(after).psum[r] == Shift(GridOf(before), left, top).psum[r]
  {
    forall c | 0 <= c < 16
      ensures GridOf(after).psum[r][c] == if r == 0 then top[c] else MacRow(GridOf(before), r - 1)[c]
    {
      assert CellStepped(before, after, left, top, r * 16 + c);
      if r > 0 {
        MacOfCells(before, r - 1);
      }
    }
    assert r > 0 ==> GridOf(after).psum[r] == MacRow(GridOf(before), r - 1);
    assert r == 0 ==> GridOf(after).psum[r] == top;
  }

  lemma MacOfCells(cells: seq<ProcessingElement>, r: nat)
    requires |cells| == 256 && r < 16
    ensures forall c :: 0 <= c < 16 ==> MacRow(GridOf(cells), r)[c] == CellMac(cells[r * 16 + c])
  {
  }

  /** The grid after t ticks from a fresh load of w, fed by acts on the left and tops above. */
  ghost function After(w: Matrix, acts: seq<Vec>, tops: seq<Vec>, t: nat): Grid
    requires t <= |acts| && t <= |tops|
  {
    if t == 0 then Fresh(w) else Shift(After(w, acts, tops, t - 1), acts[t - 1], tops[t - 1])
  }

  /** Lane `lane` of a stream at a possibly out-of-range time; zero outside the stream. */
  ghost function At(s: seq<Vec>, time: int, lane: nat): real
    requires lane < 16
  {
    if 0 <= time < |s| then s[time][lane] else 0.0
  }

  /** The first n products met by a partial sum that meets row i of column c at time start + i. */
  ghost function Diagonal(w: Matrix, acts: seq<Vec>, c: nat, start: int, n: nat): real
    requires c < 16 && n <= 16
  {
    if n == 0 then 0.0
    else Diagonal(w, acts, c, start, n - 1) + At(acts, start + n - 1, n - 1) * w[(n - 1) * 16 + c]
  }

  /** The sum latched at row r of column c after tick t is the one of the space-time law. */
  ghost predicate SumFits(g: Grid, w: Matrix, acts: seq<Vec>, tops: seq<Vec>, t: nat, r: nat, c: nat)
    requires r < 16 && c < 16
  {
    g.psum[r][c] == At(tops, t - 1 - r, c) + Diagonal(w, acts, c, t - 1 - r - c, r)
  }

  /** The activation latched there is the one of the space-time law. */
  ghost predicate ActFits(g: Grid, w: Matrix, acts: seq<Vec>, t: nat, r: nat, c: nat)
    requires r < 16 && c < 16
  {
    g.weight == w && g.act[r][c] == At(acts, t - 1 - c, r)
  }

  /** All the sums, and all the activations, are those of the space-time law. */
  ghost predicate SumsFit(g: Grid, w: Matrix, acts: seq<Vec>, tops: seq<Vec>, t: nat) {
    forall r, c :: 0 <= r < 16 && 0 <= c < 16 ==> SumFits(g, w, acts, tops, t, r, c)
  }

  ghost predicate ActsFit(g: Grid, w: Matrix, acts: seq<Vec>, t: nat) {
    forall r, c :: 0 <= r < 16 && 0 <= c < 16 ==> ActFits(g, w, acts, t, r, c)
  }

  /** Every activation latch at every time: row r of the left stream, c + 1 ticks late. */
  lemma {:induction false} ActAt(w: Matrix, acts: seq<Vec>, tops: seq<Vec>, t: nat)
    requires t <= |acts| && t <= |tops|
    ensures ActsFit(After(w, acts, tops, t), w, acts, t)
    decreases t
  {
    if t == 0 {
    } else {
      ActAt(w, acts, tops, t - 1);
      var g, g' := LastTick(w, acts, tops, t);
      ActNext(g, g', w, acts, tops, t);
    }
  }

  lemma ActNext(g: Grid, g': Grid, w: Matrix, acts: seq<Vec>, tops: seq<Vec>, t: nat)
    requires 0 < t <= |acts| && t <= |tops| && g' == Shift(g, acts[t - 1], tops[t - 1]) && ActsFit(g, w, acts, t - 1)
    ensures ActsFit(g', w, acts, t)
  {
    forall r, c | 0 <= r < 16 && 0 <= c < 16
      ensures ActFits(g', w, acts, t, r, c)
    {
      assert ActFits(g, w, acts, t - 1, r, if c > 0 then c - 1 else c);
    }
  }

  /**
   * Every partial-sum latch at every time: the top sum that entered the column r + 1 ticks before
   * plus the r products it has met since.
   */
  lemma {:induction false} SumAt(w: Matrix, acts: seq<Vec>, tops: seq<Vec>, t: nat)
    requires t <= |acts| && t <= |tops|
    ensures SumsFit(After(w, acts, tops, t), w, acts, tops, t)
    decreases t
  {
    if t == 0 {
      FreshSums(w, acts, tops, t);
    } else {
      SumAt(w, acts, tops, t - 1);
      ActAt(w, acts, tops, t - 1);
      var g, g' := LastTick(w, acts, tops, t);
      SumsNext(g, g', w, acts, tops, t);
    }
  }

  lemma FreshSums(w: Matrix, acts: seq<Vec>, tops: seq<Vec>, t: nat)
    requires t == 0
    ensures SumsFit(Fresh(w), w, acts, tops, t)
  {
    forall r, c | 0 <= r < 16 && 0 <= c < 16
      ensures SumFits(Fresh(w), w, acts, tops, t, r, c)
    {
      EarlyDiagonal(w, acts, c, t - 1 - r - c, r);
    }
  }

  lemma SumsNext(g: Grid, g': Grid, w: Matrix, acts: seq<Vec>, tops: seq<Vec>, t: nat)
    requires 0 < t <= |acts| && t <= |tops| && g' == Shift(g, acts[t - 1], tops[t - 1])
    requires SumsFit(g, w, acts, tops, t - 1) && ActsFit(g, w, acts, t - 1)
    ensures SumsFit(g', w, acts, tops, t)
  {
    forall r, c | 0 <= r < 16 && 0 <= c < 16
      ensures SumFits(g', w, acts, tops, t, r, c)
    {
      SumNext(g, g', w, acts, tops, t, r, c);
    }
  }

  lemma LastTick(w: Matrix, acts: seq<Vec>, tops: seq<Vec>, t: nat) returns (g: Grid, g': Grid)
    requires 0 < t <= |acts| && t <= |tops|
    ensures g == After(w, acts, tops, t - 1) && g' == After(w, acts, tops, t)
    ensures g' == Shift(g, acts[t - 1], tops[t - 1])
  {
    g, g' := After(w, acts, tops, t - 1), After(w, acts, tops, t);
  }

  /** A tick moves a partial sum one row down, where it has met one more product. */
  lemma SumNext(g: Grid, g': Grid, w: Matrix, acts: seq<Vec>, tops: seq<Vec>, t: nat, r: nat, c: nat)
    requires 0 < t <= |acts| && t <= |tops| && r < 16 && c < 16 && g' == Shift(g, acts[t - 1], tops[t - 1])
    requires r > 0 ==> SumFits(g, w, acts, tops, t - 1, r - 1, c) && ActFits(g, w, acts, t - 1, r - 1, c)
    ensures SumFits(g', w, acts, tops, t, r, c)
  {
    if r > 0 {
      assert g'.psum[r][c] == g.psum[r - 1][c] + At(acts, t - 2 - c, r - 1) * w[(r - 1) * 16 + c];
    }
  }

  lemma {:induction false} EarlyDiagonal(w: Matrix, acts: seq<Vec>, c: nat, start: int, n: nat)
    requires c < 16 && n <= 16 && start + n <= 0
    ensures Diagonal(w, acts, c, start, n) == 0.0
  {
    if n == 0 {
    } else {
      EarlyDiagonal(w, acts, c, start, n - 1);
    }
  }

  /** What drops out of the bottom row has met one product in every row. */
  lemma SumLeaves(g: Grid, w: Matrix, acts: seq<Vec>, tops: seq<Vec>, t: nat, n: nat, c: nat)
    requires n == 16 && c < 16 && SumsFit(g, w, acts, tops, t) && ActsFit(g, w, acts, t)
    ensures Bottom(g)[c] == At(tops, t - n, c) + Diagonal(w, acts, c, t - n - c, n)
  {
    assert SumFits(g, w, acts, tops, t, n - 1, c) && ActFits(g, w, acts, t, n - 1, c);
  }

  /**
   * Space-time theorem: the value leaving column c on tick t is the top sum that entered it
   * sixteen ticks earlier plus one product per row, each taken at its own skewed time.
   */
  lemma SpaceTime(w: Matrix, acts: seq<Vec>, tops: seq<Vec>, t: nat, c: nat)
    requires t <= |acts| && t <= |tops| && c < 16
    ensures Bottom(After(w, acts, tops, t))[c]
         == At(tops, t - 16, c) + Diagonal(w, acts, c, t - 16 - c, 16)
  {
    ActAt(w, acts, tops, t);
    SumAt(w, acts, tops, t);
    SumLeaves(After(w, acts, tops, t), w, acts, tops, t, 16, c);
  }
}
