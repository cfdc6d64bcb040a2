/** Sixteen-lane vectors and row-major 16x16 matrices of reals, and their dot products. */
module Vectors {

  /** A 16-lane vector. */
  type Vec = v: seq<real> | |v| == 16 witness Constant(16)

  /** A row-major 16x16 matrix: entry (row, col) is at row * 16 + col. */
  type Matrix = m: seq<real> | |m| == 256 witness Constant(256)

  /** Sixteen rows of sixteen values. */
  type Plane = p: seq<Vec> | |p| == 16 witness Zeros(16)

  /** A run of n zeros. */
  function Constant(n: nat): (s: seq<real>)
    ensures |s| == n
  {
    seq(n, _ => 0.0)
  }

  function Zero(): (v: Vec)
    ensures forall i :: 0 <= i < 16 ==> v[i] == 0.0
  {
    seq(16, _ => 0.0)
  }

  function ZeroMatrix(): Matrix {
    seq(256, _ => 0.0)
  }

  /** The first n terms of column c of the row vector v times the matrix w. */
  function ColumnDot(w: Matrix, v: Vec, c: nat, n: nat): real
    requires c < 16 && n <= 16
  {
    if n == 0 then 0.0 else ColumnDot(w, v, c, n - 1) + v[n - 1] * w[(n - 1) * 16 + c]
  }

  /** The row vector v times the matrix w. */
  function VecMat(w: Matrix, v: Vec): Vec {
    seq(16, c requires 0 <= c < 16 => ColumnDot(w, v, c, 16))
  }

  /** A stream of n zero vectors. */
  function Zeros(n: nat): (s: seq<Vec>)
    ensures |s| == n && forall i :: 0 <= i < n ==> s[i] == Zero()
  {
    seq(n, _ => Zero())
  }

  function VecMap(f: real -> real, v: Vec): Vec {
    seq(16, i requires 0 <= i < 16 => f(v[i]))
  }

  function VecAdd(a: Vec, b: Vec): Vec {
    seq(16, i requires 0 <= i < 16 => a[i] + b[i])
  }

  function Hadamard(a: Vec, b: Vec): Vec {
    seq(16, i requires 0 <= i < 16 => a[i] * b[i])
  }

  function ScalarSub(x: real, v: Vec): Vec {
    seq(16, i requires 0 <= i < 16 => x - v[i])
  }
}
