/** The inverse Jacobian of the multi-vector quasi-Newton method: explicit, and as factors that are never
    multiplied out.

    V, W and Wtil are given by their columns, the previous Jacobian J and the pseudo inverse Z by their rows;
    V has `p` rows and W has `n`. */
module Jacobian {
  import opened Sums
  import opened Matrices
  import opened ColumnMatrices
  import opened PseudoInverse

  /** Matrices whose columns, or rows, all have the given length. */
  predicate Sized(A: Matrix, length: nat) { forall c :: 0 <= c < |A| ==> |A[c]| == length }

  /** One column of W - J V. */
  function WtilColumn(J: (int, int) -> real, p: nat, n: nat, v: Vector, w: Vector): (r: Vector)
    ensures |r| == n
  {
    seq(n, k => Entry(w, k) - Times(J, Vec(v), 0, p)(k))
  }

  /** W - J V */
  function WtilOf(J: (int, int) -> real, p: nat, n: nat, V: Matrix, W: Matrix): (r: Matrix)
    requires |V| == |W|
    ensures |r| == |V| && Sized(r, n)
  {
    seq(|V|, c requires 0 <= c < |V| => WtilColumn(J, p, n, V[c], W[c]))
  }

  /** A new first column, with the last one dropped or not. */
  lemma WtilOfFront(J: (int, int) -> real, p: nat, n: nat, V: Matrix, W: Matrix, v: Vector, w: Vector)
    requires |V| == |W|
    ensures WtilOf(J, p, n, [v] + V, [w] + W) == [WtilColumn(J, p, n, v, w)] + WtilOf(J, p, n, V, W)
    ensures V != [] ==> WtilOf(J, p, n, DropLast(V), DropLast(W)) == DropLast(WtilOf(J, p, n, V, W))
  {
  }

  // ----- the explicit update -----

  /** Entry `(i, j)` of Wtil Z. */
  function Factors(Wtil: Matrix, Z: Matrix): (int, int) -> real {
    (i, j) => Dot(Column(Entries(Wtil), i), Column(Entries(Z), j), 0, |Wtil|)
  }

  /** Wtil Z + J */
  function Updated(J: (int, int) -> real, Wtil: Matrix, Z: Matrix): (int, int) -> real {
    (i, j) => J(i, j) + Factors(Wtil, Z)(i, j)
  }

  lemma FactorsTimes(Wtil: Matrix, Z: Matrix, v: int -> real, p: nat, k: int)
    ensures Times(Factors(Wtil, Z), v, 0, p)(k) == Dot(Column(Entries(Wtil), k), Times(Entries(Z), v, 0, p), 0, |Wtil|)
  {
    var a, b := Column(Entries(Wtil), k), Entries(Z);
    SumAssociates(a, b, v, 0, |Wtil|, 0, p);
    DotSame(Row(Factors(Wtil, Z), k), LeftTimes(a, b, 0, |Wtil|), v, v, 0, p);
  }

  /** The efficient update is the explicit one: multiplying the factors one after another with a vector
      gives the same as multiplying the updated Jacobian with it. */
  lemma EfficientIsExplicit(J: (int, int) -> real, Wtil: Matrix, Z: Matrix, v: int -> real, p: nat, k: int)
    ensures Times(Updated(J, Wtil, Z), v, 0, p)(k)
            == Times(J, v, 0, p)(k) + Dot(Column(Entries(Wtil), k), Times(Entries(Z), v, 0, p), 0, |Wtil|)
  {
    FactorsTimes(Wtil, Z, v, p, k);
    DotLinear(Row(Updated(J, Wtil, Z), k), Row(J, k), 1.0, Row(Factors(Wtil, Z), k), v, 0, p);
  }

  // ----- the factored Jacobian of the restart mode -----

  datatype Chunk = Chunk(Wtil: Matrix, Z: Matrix)

  function Zero(): (int, int) -> real { (i, j) => 0.0 }

  /** The sum of Wtil^q Z^q over all chunks. */
  function ChunkJacobian(chunks: seq<Chunk>): (int, int) -> real {
    if chunks == [] then Zero()
    else Updated(ChunkJacobian(chunks[..|chunks|-1]), chunks[|chunks|-1].Wtil, chunks[|chunks|-1].Z)
  }

  /** What the chunks contribute, each multiplied factor by factor. */
  function ChunksTimes(chunks: seq<Chunk>, v: int -> real, p: nat, k: int): real {
    if chunks == [] then 0.0
    else
      var q := chunks[|chunks|-1];
      ChunksTimes(chunks[..|chunks|-1], v, p, k)
      + Dot(Column(Entries(q.Wtil), k), Times(Entries(q.Z), v, 0, p), 0, |q.Wtil|)
  }

  lemma {:induction false} ChunksRepresentJacobian(chunks: seq<Chunk>, v: int -> real, p: nat, k: int)
    ensures ChunksTimes(chunks, v, p, k) == Times(ChunkJacobian(chunks), v, 0, p)(k)
  {
    if chunks == [] {
      DotIsZero(Row(Zero(), k), v, 0, p);
    } else {
      var before, q := chunks[..|chunks|-1], chunks[|chunks|-1];
      ChunksRepresentJacobian(before, v, p, k);
      EfficientIsExplicit(ChunkJacobian(before), q.Wtil, q.Z, v, p, k);
    }
  }

  // ----- the secant equations -----

  /** Z V is the identity. */
  predicate LeftInverseOf(Z: Matrix, V: Matrix, p: nat) {
    forall c, d :: 0 <= c < |V| && 0 <= d < |V| ==> Times(Entries(Z), Vec(V[c]), 0, p)(d) == Delta(c, d)
  }

  lemma PseudoInverseQualifies(Z: Matrix, V: Matrix, Q: (int, int) -> real, R: (int, int) -> real, p: nat)
    requires Orthonormal(Q, p, |V|) && UpperTriangular(R, |V|)
    requires Decomposes((i, s) => At(V, s, i), Q, R, p, |V|) && BackSubstituted(Entries(Z), Q, R, p, |V|)
    ensures LeftInverseOf(Z, V, p)
  {
    forall c, d | 0 <= c < |V| && 0 <= d < |V|
      ensures Times(Entries(Z), Vec(V[c]), 0, p)(d) == Delta(c, d)
    {
      var columns := (i: int, s: int) => At(V, s, i);
      PseudoInverseIsLeftInverse(columns, Q, R, Entries(Z), p, |V|, d, c);
      DotSame(Row(Entries(Z), d), Row(Entries(Z), d), Vec(V[c]), Column(columns, c), 0, p);
    }
  }

  /** What an updated Jacobian makes of a column of V. */
  lemma UpdatedTimesColumn(J: (int, int) -> real, V: Matrix, Wtil: Matrix, Z: Matrix, p: nat, c: nat, k: nat)
    requires |V| == |Wtil| && LeftInverseOf(Z, V, p) && c < |V|
    ensures Times(Updated(J, Wtil, Z), Vec(V[c]), 0, p)(k) == Times(J, Vec(V[c]), 0, p)(k) + At(Wtil, c, k)
  {
    var v := Vec(V[c]);
    EfficientIsExplicit(J, Wtil, Z, v, p, k);
    DotCommutes(Column(Entries(Wtil), k), Times(Entries(Z), v, 0, p), 0, |Wtil|);
    DotOne(Times(Entries(Z), v, 0, p), Column(Entries(Wtil), k), c, 0, |Wtil|);
  }

  /** The updated Jacobian maps every column of V to the column of W next to it. */
  lemma SecantEquations(J: (int, int) -> real, V: Matrix, W: Matrix, Z: Matrix, p: nat, n: nat, c: nat, k: nat)
    requires |V| == |W| && LeftInverseOf(Z, V, p) && c < |V| && k < n
    ensures Times(Updated(J, WtilOf(J, p, n, V, W), Z), Vec(V[c]), 0, p)(k) == At(W, c, k)
  {
    UpdatedTimesColumn(J, V, WtilOf(J, p, n, V, W), Z, p, c, k);
  }

  // ----- the quasi-Newton step -----

  /** (Wtil Z + J) times the negative residuals. */
  function StepWith(J: (int, int) -> real, p: nat, n: nat, Wtil: Matrix, Z: Matrix, negative: Vector): Vector {
    seq(n, k => Times(Updated(J, Wtil, Z), Vec(negative), 0, p)(k))
  }

  /** The step of the explicit method, for which Wtil = W - J V. */
  function NewtonUpdate(J: (int, int) -> real, p: nat, n: nat, V: Matrix, W: Matrix, Z: Matrix,
                        negative: Vector): Vector
    requires |V| == |W|
  {
    StepWith(J, p, n, WtilOf(J, p, n, V, W), Z, negative)
  }

  function Negated(v: Vector): (r: Vector)
    ensures |r| == |v| && forall k :: 0 <= k < |v| ==> r[k] == -v[k]
  {
    seq(|v|, k requires 0 <= k < |v| => -v[k])
  }

  // ----- what the step achieves -----

  /** The residuals are a combination of the columns of V, apart from a rest that the pseudo inverse does not see. */
  predicate Combines(r: Vector, V: Matrix, alpha: int -> real, rest: Vector, Z: Matrix, p: nat) {
    && |r| == |rest| == p
    && (forall j :: 0 <= j < p ==> r[j] == Dot(alpha, Column(Entries(V), j), 0, |V|) + rest[j])
    && forall d :: 0 <= d < |V| ==> Times(Entries(Z), Vec(rest), 0, p)(d) == 0.0
  }

  /** The step takes back the same combination of the columns of W, and what the previous Jacobian makes of the
      rest.  So if the residuals are a column of V it takes back the column of W next to it. */
  ghost predicate ObeysSecantLaw(J: (int, int) -> real, p: nat, n: nat, V: Matrix, W: Matrix, Z: Matrix,
                                 r: Vector, x: Vector) {
    && |x| == n
    && (forall alpha: int -> real, rest: Vector, k: nat :: k < n && Combines(r, V, alpha, rest, Z, p) ==>
          x[k] == -Dot(alpha, Column(Entries(W), k), 0, |W|) - Times(J, Vec(rest), 0, p)(k))
    && forall c: nat, k: nat :: c < |V| && k < n && r == V[c] ==> x[k] == -At(W, c, k)
  }

  lemma DotOfSum(a: int -> real, b: int -> real, u: int -> real, s: int -> real, lo: int, hi: int)
    requires forall m :: lo <= m < hi ==> s(m) == a(m) + b(m)
    ensures Dot(u, s, lo, hi) == Dot(a, u, lo, hi) + Dot(u, b, lo, hi)
  {
    DotCommutes(u, s, lo, hi);
    DotLinear(s, a, 1.0, b, u, lo, hi);
    DotCommutes(b, u, lo, hi);
  }

  /** A combination of the columns of V is mapped to that of the columns of W. */
  lemma UpdatedTimesCombination(J: (int, int) -> real, V: Matrix, W: Matrix, Z: Matrix, p: nat, n: nat,
                                alpha: int -> real, k: nat)
    requires |V| == |W| && LeftInverseOf(Z, V, p) && k < n
    ensures Dot(LeftTimes(alpha, Entries(V), 0, |V|), Row(Updated(J, WtilOf(J, p, n, V, W), Z), k), 0, p)
            == Dot(alpha, Column(Entries(W), k), 0, |W|)
  {
    var u := Row(Updated(J, WtilOf(J, p, n, V, W), Z), k);
    SumAssociates(alpha, Entries(V), u, 0, |V|, 0, p);
    forall c | 0 <= c < |V| ensures Times(Entries(V), u, 0, p)(c) == At(W, c, k) {
      SecantEquations(J, V, W, Z, p, n, c, k);
      DotCommutes(u, Vec(V[c]), 0, p);
      DotSame(Row(Entries(V), c), Vec(V[c]), u, u, 0, p);
    }
    DotSame(alpha, alpha, Times(Entries(V), u, 0, p), Column(Entries(W), k), 0, |V|);
  }

  /** What the pseudo inverse does not see is left to the previous Jacobian. */
  lemma UpdatedTimesRest(J: (int, int) -> real, Wtil: Matrix, Z: Matrix, rest: int -> real, p: nat, k: int)
    requires forall d :: 0 <= d < |Wtil| ==> Times(Entries(Z), rest, 0, p)(d) == 0.0
    ensures Times(Updated(J, Wtil, Z), rest, 0, p)(k) == Times(J, rest, 0, p)(k)
  {
    EfficientIsExplicit(J, Wtil, Z, rest, p, k);
    DotIsZeroRight(Column(Entries(Wtil), k), Times(Entries(Z), rest, 0, p), 0, |Wtil|);
  }

  lemma StepTakesBack(J: (int, int) -> real, p: nat, n: nat, V: Matrix, W: Matrix, Z: Matrix, r: Vector,
                      alpha: int -> real, rest: Vector, k: nat)
    requires |V| == |W| && LeftInverseOf(Z, V, p) && k < n && Combines(r, V, alpha, rest, Z, p)
    ensures NewtonUpdate(J, p, n, V, W, Z, Negated(r))[k]
            == -Dot(alpha, Column(Entries(W), k), 0, |W|) - Times(J, Vec(rest), 0, p)(k)
  {
    var Wtil := WtilOf(J, p, n, V, W);
    var U := Updated(J, Wtil, Z);
    var u := Row(U, k);
    assert NewtonUpdate(J, p, n, V, W, Z, Negated(r))[k] == Times(U, Vec(Negated(r)), 0, p)(k);
    assert Times(U, Vec(Negated(r)), 0, p)(k) == Dot(u, Vec(Negated(r)), 0, p);
    assert Times(U, Vec(rest), 0, p)(k) == Dot(u, Vec(rest), 0, p);
    DotMinus(u, Vec(r), Vec(Negated(r)), 0, p);
    DotOfSum(LeftTimes(alpha, Entries(V), 0, |V|), Vec(rest), u, Vec(r), 0, p);
    UpdatedTimesCombination(J, V, W, Z, p, n, alpha, k);
    UpdatedTimesRest(J, Wtil, Z, Vec(rest), p, k);
  }

  lemma ColumnCombines(V: Matrix, Z: Matrix, p: nat, c: nat) returns (alpha: int -> real, rest: Vector)
    requires c < |V| && |V[c]| == p
    ensures Combines(V[c], V, alpha, rest, Z, p)
    ensures (forall m :: alpha(m) == Delta(c, m)) && forall j :: Vec(rest)(j) == 0.0
  {
    alpha, rest := m => Delta(c, m), seq(p, _ => 0.0);
    forall j | 0 <= j < p ensures V[c][j] == Dot(alpha, Column(Entries(V), j), 0, |V|) + rest[j] {
      DotOne(alpha, Column(Entries(V), j), c, 0, |V|);
    }
    forall d | 0 <= d < |V| ensures Times(Entries(Z), Vec(rest), 0, p)(d) == 0.0 {
      DotIsZeroRight(Row(Entries(Z), d), Vec(rest), 0, p);
    }
  }

  /** The explicit step obeys the secant law, whatever the residuals. */
  lemma StepObeysSecantLaw(J: (int, int) -> real, p: nat, n: nat, V: Matrix, W: Matrix, Z: Matrix, r: Vector)
    requires |V| == |W| && LeftInverseOf(Z, V, p) && Sized(V, p) && |r| == p
    ensures ObeysSecantLaw(J, p, n, V, W, Z, r, NewtonUpdate(J, p, n, V, W, Z, Negated(r)))
  {
    var x := NewtonUpdate(J, p, n, V, W, Z, Negated(r));
    forall alpha: int -> real, rest: Vector, k: nat | k < n && Combines(r, V, alpha, rest, Z, p)
      ensures x[k] == -Dot(alpha, Column(Entries(W), k), 0, |W|) - Times(J, Vec(rest), 0, p)(k)
    {
      StepTakesBack(J, p, n, V, W, Z, r, alpha, rest, k);
    }
    forall c: nat, k: nat | c < |V| && k < n && r == V[c] ensures x[k] == -At(W, c, k) {
      var alpha, rest := ColumnCombines(V, Z, p, c);
      StepTakesBack(J, p, n, V, W, Z, r, alpha, rest, k);
      DotOne(alpha, Column(Entries(W), k), c, 0, |W|);
      DotIsZeroRight(Row(J, k), Vec(rest), 0, p);
    }
  }
}
