/** Matrices of reals as values; an entry outside a matrix is zero. */
module Matrices {
  import opened Sums

  type Vector = seq<real>

  type Matrix = seq<Vector>

  function At(l: Matrix, r: int, c: int): real {
    if 0 <= r < |l| && 0 <= c < |l[r]| then l[r][c] else 0.0
  }

  function Entries(l: Matrix): (int, int) -> real { (r, c) => At(l, r, c) }

  function Entry(v: Vector, k: int): real { if 0 <= k < |v| then v[k] else 0.0 }

  function Vec(v: Vector): int -> real { k => Entry(v, k) }

  // ----- products, one scalar at a time -----

  method InnerProduct(f: Vector, g: Vector, n: nat) returns (d: real)
    requires |f| == |g| == n
    ensures d == Dot(Vec(f), Vec(g), 0, n)
  {
    d := 0.0;
    for k := 0 to n
      invariant d == Dot(Vec(f), Vec(g), 0, k)
    {
      DotStep(Vec(f), Vec(g), 0, k + 1);
      d := d + f[k] * g[k];
    }
  }

  /** Matrix, given by its rows, times vector. */
  method RowsTimes(A: Matrix, v: Vector, p: nat) returns (r: Vector)
    requires |v| == p && forall k :: 0 <= k < |A| ==> |A[k]| == p
    ensures |r| == |A| && forall k :: 0 <= k < |A| ==> r[k] == Times(Entries(A), Vec(v), 0, p)(k)
  {
    r := [];
    for k := 0 to |A|
      invariant |r| == k && forall i :: 0 <= i < k ==> r[i] == Times(Entries(A), Vec(v), 0, p)(i)
    {
      var d := InnerProduct(A[k], v, p);
      DotSame(Vec(A[k]), Row(Entries(A), k), Vec(v), Vec(v), 0, p);
      r := r + [d];
    }
  }

  /** Matrix, given by its columns of length `n`, times vector. */
  method ColumnsTimes(A: Matrix, y: Vector, n: nat) returns (r: Vector)
    requires |y| == |A| && forall c :: 0 <= c < |A| ==> |A[c]| == n
    ensures |r| == n && forall k :: 0 <= k < n ==> r[k] == Dot(Column(Entries(A), k), Vec(y), 0, |A|)
  {
    r := [];
    for k := 0 to n
      invariant |r| == k && forall i :: 0 <= i < k ==> r[i] == Dot(Column(Entries(A), i), Vec(y), 0, |A|)
    {
      var d := 0.0;
      for c := 0 to |A|
        invariant d == Dot(Column(Entries(A), k), Vec(y), 0, c)
      {
        DotStep(Column(Entries(A), k), Vec(y), 0, c + 1);
        d := d + A[c][k] * y[c];
      }
      r := r + [d];
    }
  }
}
