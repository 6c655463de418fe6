/** Blocks of values that belong to vertices: adding blocks to and picking blocks from a buffer. */
module Blocks {
  import opened Sums

  function At(s: seq<real>, q: int): real { if 0 <= q < |s| then s[q] else 0.0 }

  /** What the `i`-th block of `src` adds to position `d` of block `v` in a buffer of blocks. */
  function Share(src: seq<real>, indices: seq<int>, dim: nat, v: int, d: int): int -> real {
    i => if 0 <= i < |indices| && indices[i] == v then At(src, i * dim + d) else 0.0
  }

  /** What all blocks of `src` together add. */
  function Spread(src: seq<real>, indices: seq<int>, dim: nat, v: int, d: int): real {
    Sum(Share(src, indices, dim, v, d), 0, |indices|)
  }

  /** Entry `q` of the blocks of `src` at the given indices, one after another. */
  function PickedAt(src: seq<real>, indices: seq<int>, dim: nat, q: int): real
    requires dim > 0
  {
    At(src, Element(indices, q / dim) * dim + q % dim)
  }

  function Picked(src: seq<real>, indices: seq<int>, dim: nat): (r: seq<real>)
    requires dim > 0
    ensures |r| == |indices| * dim
  {
    seq(|indices| * dim, q => PickedAt(src, indices, dim, q))
  }

  function Element(s: seq<int>, i: int): int { if 0 <= i < |s| then s[i] else 0 }

  lemma Multiples(k: int, dim: nat)
    ensures k >= 1 ==> k * dim >= dim
    ensures k <= -1 ==> k * dim <= 0 - dim
  {
  }

  /** The entries of block `i`. */
  lemma BlockOf(i: int, dim: nat, q: int)
    requires dim > 0
    ensures i * dim <= q < i * dim + dim <==> q / dim == i
    ensures q / dim == i ==> q % dim == q - i * dim
  {
    var k := q / dim - i;
    assert k * dim == q - q % dim - i * dim;
    Multiples(k, dim);
  }

  lemma BlockFits(i: int, n: int, dim: nat)
    requires 0 <= i < n
    ensures 0 <= i * dim && i * dim + dim <= n * dim
  {
    Multiples(n - i, dim);
    assert (n - i) * dim == n * dim - i * dim;
  }

  // ----- adding blocks -----

  /** What `AddBlock` adds to an entry is the share of that block. */
  lemma BlockIsShare(src: seq<real>, indices: seq<int>, dim: nat, i: nat, q: int)
    requires dim > 0 && i < |indices| && |src| >= |indices| * dim
    ensures var first := indices[i] * dim;
            0 <= i * dim && i * dim + dim <= |src| &&
            Share(src, indices, dim, q / dim, q % dim)(i)
            == if first <= q < first + dim then At(src, i * dim + (q - first)) else 0.0
  {
    BlockOf(indices[i], dim, q);
    BlockFits(i, |indices|, dim);
  }

  /** Adds the blocks of `src` to the blocks of `dst` with the given indices. */
  method AddToIndirectBlocks(src: seq<real>, indices: seq<int>, dim: nat, dst: array<real>)
    requires dim > 0 && |src| >= |indices| * dim
    requires forall i :: 0 <= i < |indices| ==> Fits(indices[i], dim, dst.Length)
    modifies dst
    ensures forall q :: 0 <= q < dst.Length ==> dst[q] == old(dst[q]) + Spread(src, indices, dim, q / dim, q % dim)
  {
    for i := 0 to |indices|
      invariant forall q :: 0 <= q < dst.Length ==>
                  dst[q] == old(dst[q]) + Sum(Share(src, indices, dim, q / dim, q % dim), 0, i)
    {
      AddIndirectBlock(src, indices, dim, i, dst);
    }
  }

  /** The block with this index lies within the buffer. */
  predicate Fits(i: int, dim: nat, length: nat) { 0 <= i && i * dim + dim <= length }

  method AddIndirectBlock(src: seq<real>, indices: seq<int>, dim: nat, i: nat, dst: array<real>)
    requires dim > 0 && |src| >= |indices| * dim && i < |indices| && Fits(indices[i], dim, dst.Length)
    modifies dst
    ensures forall q :: 0 <= q < dst.Length ==> dst[q] == old(dst[q]) + Share(src, indices, dim, q / dim, q % dim)(i)
  {
    BlockFits(i, |indices|, dim);
    AddBlock(src, i * dim, dim, dst, indices[i] * dim);
    forall q | 0 <= q < dst.Length ensures dst[q] == old(dst[q]) + Share(src, indices, dim, q / dim, q % dim)(i) {
      BlockIsShare(src, indices, dim, i, q);
    }
  }

  method AddBlock(src: seq<real>, first: nat, n: nat, dst: array<real>, dstFirst: nat)
    requires first + n <= |src| && dstFirst + n <= dst.Length
    modifies dst
    ensures forall q :: 0 <= q < dst.Length ==>
              dst[q] == old(dst[q]) + if dstFirst <= q < dstFirst + n then At(src, first + (q - dstFirst)) else 0.0
  {
    for d := 0 to n
      invariant forall q :: 0 <= q < dst.Length ==>
        dst[q] == old(dst[q]) + if dstFirst <= q < dstFirst + d then At(src, first + (q - dstFirst)) else 0.0
    {
      dst[dstFirst + d] := dst[dstFirst + d] + src[first + d];
    }
  }

  // ----- picking blocks -----

  lemma BlockIsPicked(src: seq<real>, indices: seq<int>, dim: nat, i: nat)
    requires dim > 0 && i < |indices| && Fits(indices[i], dim, |src|)
    ensures 0 <= indices[i] * dim
    ensures forall q :: i * dim <= q < i * dim + dim ==>
              PickedAt(src, indices, dim, q) == src[indices[i] * dim + (q - i * dim)]
  {
    forall q | i * dim <= q < i * dim + dim
      ensures PickedAt(src, indices, dim, q) == src[indices[i] * dim + (q - i * dim)]
    {
      BlockOf(i, dim, q);
    }
  }

  /** Copies the blocks of `src` with the given indices to the beginning of `dst`. */
  method CopyFromIndirectBlocks(src: seq<real>, indices: seq<int>, dim: nat, dst: array<real>)
    requires dim > 0 && |indices| * dim <= dst.Length
    requires forall i :: 0 <= i < |indices| ==> Fits(indices[i], dim, |src|)
    modifies dst
    ensures dst[..] == Picked(src, indices, dim) + old(dst[..])[|indices| * dim..]
  {
    var first := 0;
    for i := 0 to |indices|
      invariant first == i * dim
      invariant forall q :: 0 <= q < dst.Length ==>
                  dst[q] == if q < first then PickedAt(src, indices, dim, q) else old(dst[q])
    {
      BlockIsPicked(src, indices, dim, i);
      BlockFits(i, |indices|, dim);
      var from := indices[i] * dim;
      for d := 0 to dim
        invariant forall q :: 0 <= q < dst.Length ==>
                    dst[q] == if q < first + d then PickedAt(src, indices, dim, q) else old(dst[q])
      {
        dst[first + d] := src[from + d];
      }
      first := first + dim;
    }
  }

  /** The same blocks, pushed one value at a time. */
  method PushBlocks(src: seq<real>, indices: seq<int>, dim: nat) returns (buffer: seq<real>)
    requires dim > 0
    requires forall i :: 0 <= i < |indices| ==> Fits(indices[i], dim, |src|)
    ensures buffer == Picked(src, indices, dim)
  {
    buffer := [];
    for i := 0 to |indices|
      invariant |buffer| == i * dim
      invariant forall q :: 0 <= q < |buffer| ==> buffer[q] == PickedAt(src, indices, dim, q)
    {
      BlockIsPicked(src, indices, dim, i);
      var from := indices[i] * dim;
      for d := 0 to dim
        invariant |buffer| == i * dim + d
        invariant forall q :: 0 <= q < |buffer| ==> buffer[q] == PickedAt(src, indices, dim, q)
      {
        buffer := buffer + [src[from + d]];
      }
    }
  }
}
