/** Consistent and conservative mapping with the same weights: one is the transpose of the other. */
module Mapping {
  import opened Sums
  import opened Blocks

  datatype Weighted = Weighted(vertex: nat, weight: real)

  type Interpolation = seq<Weighted>

  /** Component `d` of the values at all vertices. */
  function Component(x: seq<real>, dim: nat, d: int): int -> real { v => At(x, v * dim + d) }

  /** The linear combination of values. */
  function Combine(elems: Interpolation, f: int -> real): real {
    if elems == [] then 0.0 else Combine(elems[..|elems|-1], f) + elems[|elems|-1].weight * f(elems[|elems|-1].vertex)
  }

  /** The total weight of one vertex. */
  function Weight(elems: Interpolation, v: int): real {
    if elems == [] then 0.0
    else Weight(elems[..|elems|-1], v) + if elems[|elems|-1].vertex == v then elems[|elems|-1].weight else 0.0
  }

  /** The matrix of weights, one interpolation per row. */
  function Weights(rows: seq<Interpolation>): (int, int) -> real {
    (i, v) => if 0 <= i < |rows| then Weight(rows[i], v) else 0.0
  }

  predicate Within(elems: Interpolation, n: nat) { forall e :: 0 <= e < |elems| ==> elems[e].vertex < n }

  predicate AllWithin(rows: seq<Interpolation>, n: nat) { forall i :: 0 <= i < |rows| ==> Within(rows[i], n) }

  /** Combining values is a row of the matrix times a column of values. */
  lemma {:induction false} CombineIsRow(elems: Interpolation, f: int -> real, n: nat)
    requires Within(elems, n)
    ensures Combine(elems, f) == Dot(v => Weight(elems, v), f, 0, n)
  {
    if elems == [] {
      DotIsZero(v => Weight(elems, v), f, 0, n);
    } else {
      var before, e := elems[..|elems|-1], elems[|elems|-1];
      CombineIsRow(before, f, n);
      var id := (v: int) => Delta(e.vertex, v);
      DotLinear(v => Weight(elems, v), v => Weight(before, v), e.weight, id, f, 0, n);
      DotOne(id, f, e.vertex, 0, n);
    }
  }

  // ----- the two mappings of one component -----

  function Consistent(rows: seq<Interpolation>, dim: nat, x: seq<real>, i: int, d: int): real {
    if 0 <= i < |rows| then Combine(rows[i], Component(x, dim, d)) else 0.0
  }

  function Conservative(rows: seq<Interpolation>, dim: nat, y: seq<real>, v: int, d: int): real {
    Dot(Component(y, dim, d), Column(Weights(rows), v), 0, |rows|)
  }

  /** For one component: combining and then weighting with `y` is distributing `y` and then weighting with `x`. */
  lemma ComponentDuality(rows: seq<Interpolation>, dim: nat, n: nat, x: seq<real>, y: seq<real>, d: int)
    requires AllWithin(rows, n)
    ensures Dot(Component(y, dim, d), i => Consistent(rows, dim, x, i, d), 0, |rows|)
            == Dot(v => Conservative(rows, dim, y, v, d), Component(x, dim, d), 0, n)
  {
    var a, b, p := Component(y, dim, d), Weights(rows), Component(x, dim, d);
    forall i | 0 <= i < |rows| ensures Consistent(rows, dim, x, i, d) == Times(b, p, 0, n)(i) {
      CombineIsRow(rows[i], p, n);
      DotSame(v => Weight(rows[i], v), Row(b, i), p, p, 0, n);
    }
    DotSame(a, a, i => Consistent(rows, dim, x, i, d), Times(b, p, 0, n), 0, |rows|);
    SumAssociates(a, b, p, 0, |rows|, 0, n);
    DotSame(v => Conservative(rows, dim, y, v, d), LeftTimes(a, b, 0, |rows|), p, p, 0, n);
  }

  // ----- whole vectors -----

  function Vec(x: seq<real>): int -> real { q => At(x, q) }

  /** The sum over all entries is the sum over all components of the sums over all vertices. */
  lemma {:induction false} DotByComponent(x: seq<real>, y: seq<real>, dim: nat, n: nat)
    ensures Dot(Vec(x), Vec(y), 0, n * dim) == Sum(d => Dot(Component(x, dim, d), Component(y, dim, d), 0, n), 0, dim)
  {
    if n == 0 {
      SumZero(d => Dot(Component(x, dim, d), Component(y, dim, d), 0, 0), 0, dim);
    } else {
      DotByComponent(x, y, dim, n - 1);
      var m := (n - 1) * dim;
      assert n * dim == m + dim;
      DotSplit(Vec(x), Vec(y), 0, m, m + dim);
      OneBlock(x, y, dim, n - 1, m, dim);
      SumPlus(d => Dot(Component(x, dim, d), Component(y, dim, d), 0, n - 1), ComponentProduct(x, y, dim, n - 1),
              d => Dot(Component(x, dim, d), Component(y, dim, d), 0, n), 0, dim);
    }
  }

  function ComponentProduct(x: seq<real>, y: seq<real>, dim: nat, v: int): int -> real {
    d => Component(x, dim, d)(v) * Component(y, dim, d)(v)
  }

  lemma {:induction false} OneBlock(x: seq<real>, y: seq<real>, dim: nat, v: int, m: int, k: nat)
    requires m == v * dim
    ensures Dot(Vec(x), Vec(y), m, m + k) == Sum(ComponentProduct(x, y, dim, v), 0, k)
  {
    if k > 0 {
      OneBlock(x, y, dim, v, m, k - 1);
      DotStep(Vec(x), Vec(y), m, m + k);
      var last := v * dim + (k - 1);
      assert last == m + k - 1 && Component(x, dim, k - 1)(v) == At(x, last)
             && Component(y, dim, k - 1)(v) == At(y, last);
    }
  }

  /** `r` holds the consistent mapping of `x`. */
  predicate IsConsistent(rows: seq<Interpolation>, dim: nat, x: seq<real>, r: seq<real>) {
    forall i, d :: 0 <= i < |rows| && 0 <= d < dim ==> Component(r, dim, d)(i) == Consistent(rows, dim, x, i, d)
  }

  /** `r` holds the conservative mapping of `y` to `n` vertices. */
  predicate IsConservative(rows: seq<Interpolation>, dim: nat, n: nat, y: seq<real>, r: seq<real>) {
    forall v, d :: 0 <= v < n && 0 <= d < dim ==> Component(r, dim, d)(v) == Conservative(rows, dim, y, v, d)
  }

  /** For the same weights the conservative mapping is the transpose of the consistent one. */
  lemma Duality(rows: seq<Interpolation>, dim: nat, n: nat, x: seq<real>, y: seq<real>, cx: seq<real>, cy: seq<real>)
    requires AllWithin(rows, n) && IsConsistent(rows, dim, x, cx) && IsConservative(rows, dim, n, y, cy)
    ensures Dot(Vec(cx), Vec(y), 0, |rows| * dim) == Dot(Vec(x), Vec(cy), 0, n * dim)
  {
    DotByComponent(cx, y, dim, |rows|);
    DotByComponent(x, cy, dim, n);
    forall d | 0 <= d < dim
      ensures Dot(Component(cx, dim, d), Component(y, dim, d), 0, |rows|)
              == Dot(Component(x, dim, d), Component(cy, dim, d), 0, n)
    {
      ComponentDuality(rows, dim, n, x, y, d);
      DotSame(Component(cx, dim, d), i => Consistent(rows, dim, x, i, d), Component(y, dim, d), Component(y, dim, d), 0,
              |rows|);
      DotCommutes(i => Consistent(rows, dim, x, i, d), Component(y, dim, d), 0, |rows|);
      DotSame(Component(cy, dim, d), v => Conservative(rows, dim, y, v, d), Component(x, dim, d), Component(x, dim, d),
              0, n);
      DotCommutes(Component(x, dim, d), Component(cy, dim, d), 0, n);
    }
    SumSame(d => Dot(Component(cx, dim, d), Component(y, dim, d), 0, |rows|),
            d => Dot(Component(x, dim, d), Component(cy, dim, d), 0, n), 0, dim);
  }

  // ----- weights that sum to one -----

  predicate Normalized(rows: seq<Interpolation>) { forall i :: 0 <= i < |rows| ==> Combine(rows[i], One()) == 1.0 }

  function One(): int -> real { v => 1.0 }

  lemma {:induction false} CombineConstant(elems: Interpolation, f: int -> real, c: real)
    requires forall e :: 0 <= e < |elems| ==> f(elems[e].vertex) == c
    ensures Combine(elems, f) == c * Combine(elems, One())
  {
    if elems != [] {
      CombineConstant(elems[..|elems|-1], f, c);
      Distribute(c, Combine(elems[..|elems|-1], One()), elems[|elems|-1].weight);
    }
  }

  /** The consistent mapping keeps constants. */
  lemma ConsistentKeepsConstants(rows: seq<Interpolation>, dim: nat, n: nat, x: seq<real>, c: real, i: nat, d: nat)
    requires AllWithin(rows, n) && Normalized(rows) && i < |rows|
    requires forall v :: 0 <= v < n ==> Component(x, dim, d)(v) == c
    ensures Consistent(rows, dim, x, i, d) == c
  {
    CombineConstant(rows[i], Component(x, dim, d), c);
  }

  /** The conservative mapping keeps the total of every component. */
  lemma ConservativeKeepsTotals(rows: seq<Interpolation>, dim: nat, n: nat, y: seq<real>, d: nat)
    requires AllWithin(rows, n) && Normalized(rows)
    ensures Sum(v => Conservative(rows, dim, y, v, d), 0, n) == Sum(Component(y, dim, d), 0, |rows|)
  {
    var a, b := Component(y, dim, d), Weights(rows);
    SumAssociates(a, b, One(), 0, |rows|, 0, n);
    forall i | 0 <= i < |rows| ensures Times(b, One(), 0, n)(i) == 1.0 {
      CombineIsRow(rows[i], One(), n);
      DotSame(v => Weight(rows[i], v), Row(b, i), One(), One(), 0, n);
    }
    SumSame(a, i => a(i) * Times(b, One(), 0, n)(i), 0, |rows|);
    SumSame(v => Conservative(rows, dim, y, v, d), v => LeftTimes(a, b, 0, |rows|)(v) * One()(v), 0, n);
  }
}
