/** The mapping loops, which add to or assign to the output array. */
module MappingMethods {
  import opened Sums
  import opened Blocks
  import opened Mapping

  /** What a weighted block of `n` entries adds to entry `q`. */
  function WeightedAt(weight: real, src: seq<real>, first: int, dstFirst: int, n: nat, q: int): real {
    if dstFirst <= q < dstFirst + n then weight * At(src, first + (q - dstFirst)) else 0.0
  }

  /** Adds a weighted block. */
  method AddWeighted(weight: real, src: seq<real>, first: nat, n: nat, dst: array<real>, dstFirst: nat)
    requires first + n <= |src| && dstFirst + n <= dst.Length
    modifies dst
    ensures forall q :: 0 <= q < dst.Length ==>
              dst[q] == old(dst[q]) + WeightedAt(weight, src, first, dstFirst, n, q)
  {
    for d := 0 to n
      invariant forall q :: 0 <= q < dst.Length ==>
        dst[q] == old(dst[q]) + WeightedAt(weight, src, first, dstFirst, d, q)
    {
      dst[dstFirst + d] := dst[dstFirst + d] + weight * src[first + d];
    }
  }

  // ----- barycentric -----

  /** What one interpolation contributes to an entry when it is evaluated at vertex `i`. */
  function Gathered(elems: Interpolation, dim: nat, x: seq<real>, i: int, q: int): real
    requires dim > 0
  {
    if q / dim == i then Combine(elems, Component(x, dim, q % dim)) else 0.0
  }

  lemma GatheredMore(elems: Interpolation, dim: nat, x: seq<real>, i: int, e: nat, q: int)
    requires dim > 0 && e < |elems|
    ensures Gathered(elems[..e + 1], dim, x, i, q)
            == Gathered(elems[..e], dim, x, i, q)
            + WeightedAt(elems[e].weight, x, elems[e].vertex * dim, i * dim, dim, q)
  {
    assert elems[..e + 1][..e] == elems[..e];
    BlockOf(i, dim, q);
  }

  method AddInterpolation(elems: Interpolation, dim: nat, x: seq<real>, n: nat, i: nat, out: array<real>)
    requires dim > 0 && Within(elems, n) && |x| == n * dim && i * dim + dim <= out.Length
    modifies out
    ensures forall q :: 0 <= q < out.Length ==> out[q] == old(out[q]) + Gathered(elems, dim, x, i, q)
  {
    for e := 0 to |elems|
      invariant forall q :: 0 <= q < out.Length ==> out[q] == old(out[q]) + Gathered(elems[..e], dim, x, i, q)
    {
      BlockFits(elems[e].vertex, n, dim);
      AddWeighted(elems[e].weight, x, elems[e].vertex * dim, dim, out, i * dim);
      forall q | 0 <= q < out.Length
        ensures Gathered(elems[..e + 1], dim, x, i, q) == Gathered(elems[..e], dim, x, i, q)
          + WeightedAt(elems[e].weight, x, elems[e].vertex * dim, i * dim, dim, q) {
        GatheredMore(elems, dim, x, i, e, q);
      }
    }
    assert elems[..|elems|] == elems;
  }

  /** Adds the consistent mapping of `x` to the output. */
  method MapConsistent(rows: seq<Interpolation>, dim: nat, x: seq<real>, n: nat, out: array<real>)
    requires dim > 0 && AllWithin(rows, n) && |x| == n * dim && out.Length == |rows| * dim
    modifies out
    ensures forall q :: 0 <= q < out.Length ==> out[q] == old(out[q]) + Consistent(rows, dim, x, q / dim, q % dim)
  {
    for i := 0 to |rows|
      invariant forall q :: 0 <= q < out.Length ==>
        out[q] == old(out[q]) + if q / dim < i then Consistent(rows, dim, x, q / dim, q % dim) else 0.0
    {
      BlockFits(i, |rows|, dim);
      AddInterpolation(rows[i], dim, x, n, i, out);
    }
    forall q | 0 <= q < out.Length ensures 0 <= q / dim < |rows| { EntryWithin(q, |rows|, dim); }
  }

  lemma EntryWithin(q: nat, n: nat, dim: nat)
    requires dim > 0 && q < n * dim
    ensures 0 <= q / dim < n
  {
    Multiples(q / dim - n + 1, dim);
    assert (q / dim - n) * dim == (q / dim) * dim - n * dim;
    Multiples(q / dim - n, dim);
  }

  /** What one interpolation passes on from vertex `i` to an entry. */
  function Distributed(elems: Interpolation, dim: nat, y: seq<real>, i: int, q: int): real
    requires dim > 0
  {
    Component(y, dim, q % dim)(i) * Weight(elems, q / dim)
  }

  lemma DistributedMore(elems: Interpolation, dim: nat, y: seq<real>, i: int, e: nat, q: int)
    requires dim > 0 && e < |elems|
    ensures Distributed(elems[..e + 1], dim, y, i, q)
            == Distributed(elems[..e], dim, y, i, q)
            + WeightedAt(elems[e].weight, y, i * dim, elems[e].vertex * dim, dim, q)
  {
    assert elems[..e + 1][..e] == elems[..e];
    BlockOf(elems[e].vertex, dim, q);
  }

  method Distribute(elems: Interpolation, dim: nat, y: seq<real>, n: nat, i: nat, out: array<real>)
    requires dim > 0 && Within(elems, n) && out.Length == n * dim && i * dim + dim <= |y|
    modifies out
    ensures forall q :: 0 <= q < out.Length ==> out[q] == old(out[q]) + Distributed(elems, dim, y, i, q)
  {
    for e := 0 to |elems|
      invariant forall q :: 0 <= q < out.Length ==> out[q] == old(out[q]) + Distributed(elems[..e], dim, y, i, q)
    {
      BlockFits(elems[e].vertex, n, dim);
      AddWeighted(elems[e].weight, y, i * dim, dim, out, elems[e].vertex * dim);
      forall q | 0 <= q < out.Length
        ensures Distributed(elems[..e + 1], dim, y, i, q) == Distributed(elems[..e], dim, y, i, q)
          + WeightedAt(elems[e].weight, y, i * dim, elems[e].vertex * dim, dim, q) {
        DistributedMore(elems, dim, y, i, e, q);
      }
    }
    assert elems[..|elems|] == elems;
  }

  /** Adds the conservative mapping of `y` to the output with `n` vertices. */
  method MapConservative(rows: seq<Interpolation>, dim: nat, y: seq<real>, n: nat, out: array<real>)
    requires dim > 0 && AllWithin(rows, n) && |y| == |rows| * dim && out.Length == n * dim
    modifies out
    ensures forall q :: 0 <= q < out.Length ==> out[q] == old(out[q]) + Conservative(rows, dim, y, q / dim, q % dim)
  {
    for i := 0 to |rows|
      invariant forall q :: 0 <= q < out.Length ==>
        out[q] == old(out[q]) + Dot(Component(y, dim, q % dim), Column(Weights(rows), q / dim), 0, i)
    {
      BlockFits(i, |rows|, dim);
      Distribute(rows[i], dim, y, n, i, out);
      forall q | 0 <= q < out.Length
        ensures Dot(Component(y, dim, q % dim), Column(Weights(rows), q / dim), 0, i + 1)
                == Dot(Component(y, dim, q % dim), Column(Weights(rows), q / dim), 0, i)
                + Distributed(rows[i], dim, y, i, q)
      {
        DotStep(Component(y, dim, q % dim), Column(Weights(rows), q / dim), 0, i + 1);
      }
    }
  }

  // ----- nearest neighbour -----

  /** Every vertex takes the value of one other vertex. */
  function Nearest(indices: seq<nat>): (rows: seq<Interpolation>)
    ensures |rows| == |indices|
  {
    seq(|indices|, i requires 0 <= i < |indices| => [Weighted(indices[i], 1.0)])
  }

  lemma NearestConsistent(indices: seq<nat>, dim: nat, x: seq<real>, i: nat, d: int)
    requires i < |indices|
    ensures Consistent(Nearest(indices), dim, x, i, d) == At(x, indices[i] * dim + d)
  {
    var row := Nearest(indices)[i];
    assert row[..0] == [] && row[0] == Weighted(indices[i], 1.0);
    assert Combine(row, Component(x, dim, d))
           == Combine(row[..0], Component(x, dim, d)) + 1.0 * Component(x, dim, d)(indices[i]);
  }

  lemma NearestNormalized(indices: seq<nat>)
    ensures Normalized(Nearest(indices))
  {
    forall i | 0 <= i < |indices| ensures Combine(Nearest(indices)[i], One()) == 1.0 {
      assert Nearest(indices)[i][..0] == [];
    }
  }

  /** The consistent nearest-neighbour mapping copies, so the output is overwritten. */
  method MapNearestConsistent(indices: seq<nat>, dim: nat, x: seq<real>, n: nat, out: array<real>)
    requires dim > 0 && |x| == n * dim && out.Length == |indices| * dim
    requires forall i :: 0 <= i < |indices| ==> indices[i] < n
    modifies out
    ensures forall q :: 0 <= q < out.Length ==> out[q] == Consistent(Nearest(indices), dim, x, q / dim, q % dim)
  {
    forall i | 0 <= i < |indices| ensures Fits(indices[i], dim, |x|) { BlockFits(indices[i], n, dim); }
    CopyFromIndirectBlocks(x, indices, dim, out);
    forall q | 0 <= q < out.Length ensures out[q] == Consistent(Nearest(indices), dim, x, q / dim, q % dim) {
      EntryWithin(q, |indices|, dim);
      NearestConsistent(indices, dim, x, q / dim, q % dim);
      assert out[..][q] == PickedAt(x, indices, dim, q);
    }
  }

  /** The conservative one adds up. */
  method MapNearestConservative(indices: seq<nat>, dim: nat, y: seq<real>, n: nat, out: array<real>)
    requires dim > 0 && |y| == |indices| * dim && out.Length == n * dim
    requires forall i :: 0 <= i < |indices| ==> indices[i] < n
    modifies out
    ensures forall q :: 0 <= q < out.Length ==>
              out[q] == old(out[q]) + Conservative(Nearest(indices), dim, y, q / dim, q % dim)
  {
    forall i | 0 <= i < |indices| ensures Fits(indices[i], dim, out.Length) { BlockFits(indices[i], n, dim); }
    AddToIndirectBlocks(y, indices, dim, out);
    forall q | 0 <= q < out.Length
      ensures Spread(y, indices, dim, q / dim, q % dim) == Conservative(Nearest(indices), dim, y, q / dim, q % dim)
    {
      SpreadIsConservative(indices, dim, y, q / dim, q % dim);
    }
  }

  lemma SpreadIsConservative(indices: seq<nat>, dim: nat, y: seq<real>, v: int, d: int)
    ensures Spread(y, indices, dim, v, d) == Conservative(Nearest(indices), dim, y, v, d)
  {
    var rows := Nearest(indices);
    forall i | 0 <= i < |indices|
      ensures Share(y, indices, dim, v, d)(i) == Component(y, dim, d)(i) * Column(Weights(rows), v)(i)
    {
      var row := rows[i];
      assert row[..0] == [] && row[0] == Weighted(indices[i], 1.0);
      assert Weight(row, v) == if indices[i] == v then 1.0 else 0.0;
      assert Column(Weights(rows), v)(i) == Weight(row, v);
    }
    SumSame(Share(y, indices, dim, v, d), i => Component(y, dim, d)(i) * Column(Weights(rows), v)(i), 0, |indices|);
  }

  // ----- the outputs from zeros -----

  lemma FromZeros(rows: seq<Interpolation>, dim: nat, n: nat, x: seq<real>, y: seq<real>, cx: seq<real>, cy: seq<real>)
    requires dim > 0 && AllWithin(rows, n) && |cx| == |rows| * dim && |cy| == n * dim
    requires forall q :: 0 <= q < |cx| ==> cx[q] == Consistent(rows, dim, x, q / dim, q % dim)
    requires forall q :: 0 <= q < |cy| ==> cy[q] == Conservative(rows, dim, y, q / dim, q % dim)
    ensures Dot(Vec(cx), Vec(y), 0, |cx|) == Dot(Vec(x), Vec(cy), 0, |cy|)
  {
    forall i, d | 0 <= i < |rows| && 0 <= d < dim ensures Component(cx, dim, d)(i) == Consistent(rows, dim, x, i, d) {
      BlockFits(i, |rows|, dim);
      BlockOf(i, dim, i * dim + d);
    }
    forall v, d | 0 <= v < n && 0 <= d < dim ensures Component(cy, dim, d)(v) == Conservative(rows, dim, y, v, d) {
      BlockFits(v, n, dim);
      BlockOf(v, dim, v * dim + d);
    }
    Duality(rows, dim, n, x, y, cx, cy);
  }
}
