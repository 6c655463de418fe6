/** When a step or an update of the inverse Jacobian with the matrices at hand is the explicit one. */
module JacobianUpdates {
  import opened Sums
  import opened Matrices
  import opened Jacobian

  predicate SameJacobian(A: (int, int) -> real, B: (int, int) -> real, n: nat, p: nat) {
    forall i, j :: 0 <= i < n && 0 <= j < p ==> A(i, j) == B(i, j)
  }

  lemma SameTimes(A: (int, int) -> real, B: (int, int) -> real, n: nat, p: nat, v: int -> real, k: nat)
    requires SameJacobian(A, B, n, p) && k < n
    ensures Times(A, v, 0, p)(k) == Times(B, v, 0, p)(k)
  {
    DotSame(Row(A, k), Row(B, k), v, v, 0, p);
  }

  // ----- with any Wtil -----

  /** V, W and Wtil have the same number of columns, and Z is a left inverse of V. */
  predicate Fitting(p: nat, n: nat, V: Matrix, W: Matrix, Wtil: Matrix, Z: Matrix) {
    |V| == |W| == |Wtil| && Sized(V, p) && Sized(Wtil, n) && LeftInverseOf(Z, V, p)
  }

  lemma SameColumns(A: Matrix, B: Matrix, n: nat)
    requires |A| == |B| && Sized(A, n) && Sized(B, n)
    requires forall c, k :: 0 <= c < |A| && 0 <= k < n ==> At(A, c, k) == At(B, c, k)
    ensures A == B
  {
    forall c | 0 <= c < |A| ensures A[c] == B[c] {
      forall k | 0 <= k < n ensures A[c][k] == B[c][k] { assert At(A, c, k) == At(B, c, k); }
    }
  }

  /** Adding Wtil Z to the previous Jacobian is the explicit update exactly if Wtil is W - J V. */
  lemma UpdateIsExplicitIff(J: (int, int) -> real, p: nat, n: nat, V: Matrix, W: Matrix, Wtil: Matrix, Z: Matrix)
    requires Fitting(p, n, V, W, Wtil, Z)
    ensures SameJacobian(Updated(J, Wtil, Z), Updated(J, WtilOf(J, p, n, V, W), Z), n, p)
            <==> Wtil == WtilOf(J, p, n, V, W)
  {
    var current := WtilOf(J, p, n, V, W);
    if SameJacobian(Updated(J, Wtil, Z), Updated(J, current, Z), n, p) {
      forall c, k | 0 <= c < |V| && 0 <= k < n ensures At(Wtil, c, k) == At(current, c, k) {
        SameTimes(Updated(J, Wtil, Z), Updated(J, current, Z), n, p, Vec(V[c]), k);
        UpdatedTimesColumn(J, V, Wtil, Z, p, c, k);
        UpdatedTimesColumn(J, V, current, Z, p, c, k);
      }
      SameColumns(Wtil, current, n);
    }
  }

  /** The step with the factors is the explicit one for all residuals exactly if Wtil is W - J V. */
  lemma StepIsExplicitIff(J: (int, int) -> real, p: nat, n: nat, V: Matrix, W: Matrix, Wtil: Matrix, Z: Matrix)
    requires Fitting(p, n, V, W, Wtil, Z)
    ensures (forall negative: Vector :: |negative| == p ==>
               StepWith(J, p, n, Wtil, Z, negative) == NewtonUpdate(J, p, n, V, W, Z, negative))
            <==> Wtil == WtilOf(J, p, n, V, W)
  {
    var current := WtilOf(J, p, n, V, W);
    if forall negative: Vector :: |negative| == p ==>
         StepWith(J, p, n, Wtil, Z, negative) == NewtonUpdate(J, p, n, V, W, Z, negative) {
      forall c, k | 0 <= c < |V| && 0 <= k < n ensures At(Wtil, c, k) == At(current, c, k) {
        assert StepWith(J, p, n, Wtil, Z, V[c])[k] == NewtonUpdate(J, p, n, V, W, Z, V[c])[k];
        UpdatedTimesColumn(J, V, Wtil, Z, p, c, k);
        UpdatedTimesColumn(J, V, current, Z, p, c, k);
      }
      SameColumns(Wtil, current, n);
    }
  }

  // ----- with the Wtil of the window before -----

  /** After an explicit update nothing is left of W - J V. */
  lemma NothingIsLeft(J: (int, int) -> real, p: nat, n: nat, V: Matrix, W: Matrix, Z: Matrix, c: nat, k: nat)
    requires |V| == |W| && LeftInverseOf(Z, V, p) && c < |V| && k < n
    ensures At(WtilOf(Updated(J, WtilOf(J, p, n, V, W), Z), p, n, V, W), c, k) == 0.0
  {
    SecantEquations(J, V, W, Z, p, n, c, k);
    assert At(W, c, k) == Entry(W[c], k);
  }

  predicate Vanishes(A: Matrix, n: nat) { forall c, k :: 0 <= c < |A| && 0 <= k < n ==> At(A, c, k) == 0.0 }

  /** If the matrices are those of the last update, using Wtil once more is the explicit update exactly if
      Wtil is zero; otherwise Wtil Z counts twice. */
  lemma RepeatedUpdate(J: (int, int) -> real, p: nat, n: nat, V: Matrix, W: Matrix, Wtil: Matrix, Z: Matrix)
    requires Fitting(p, n, V, W, Wtil, Z) && Wtil == WtilOf(J, p, n, V, W)
    ensures var next := Updated(J, Wtil, Z);
            SameJacobian(Updated(next, Wtil, Z), Updated(next, WtilOf(next, p, n, V, W), Z), n, p)
            <==> Vanishes(Wtil, n)
  {
    var next := Updated(J, Wtil, Z);
    var left := WtilOf(next, p, n, V, W);
    UpdateIsExplicitIff(next, p, n, V, W, Wtil, Z);
    forall c, k | 0 <= c < |V| && 0 <= k < n ensures At(left, c, k) == 0.0 { NothingIsLeft(J, p, n, V, W, Z, c, k); }
    if Vanishes(Wtil, n) { SameColumns(Wtil, left, n); }
  }

  /** One unknown: the second window converges in its first iteration and pushes the factors of the first one. */
  lemma RepeatedChunkCountsTwice()
    ensures var one := [[1.0]];
            var J := ChunkJacobian([Chunk(one, one)]);
            && ChunkJacobian([Chunk(one, one), Chunk(one, one)])(0, 0) == 2.0
            && Updated(J, WtilOf(J, 1, 1, one, one), one)(0, 0) == 1.0
  {
    var one := [[1.0]];
    var c := Chunk(one, one);
    assert [c, c][..1] == [c] && [c][..0] == [];
    OneEntry(one);
    assert ChunkJacobian([c])(0, 0) == 1.0;
    var J := ChunkJacobian([c]);
    var Wtil := WtilOf(J, 1, 1, one, one);
    DotStep(Row(J, 0), Vec(one[0]), 0, 1);
    assert Times(J, Vec(one[0]), 0, 1)(0) == 1.0;
    assert Wtil[0][0] == 0.0;
    DotStep(Column(Entries(Wtil), 0), Column(Entries(one), 0), 0, 1);
  }

  lemma OneEntry(one: Matrix)
    requires one == [[1.0]]
    ensures Factors(one, one)(0, 0) == 1.0
  {
    DotStep(Column(Entries(one), 0), Column(Entries(one), 0), 0, 1);
  }

  // ----- with the Jacobian of the last step -----

  lemma {:induction false} SquaresVanish(f: int -> real, lo: int, hi: int)
    ensures Dot(f, f, lo, hi) >= 0.0
    ensures Dot(f, f, lo, hi) == 0.0 ==> forall k :: lo <= k < hi ==> f(k) == 0.0
    decreases hi - lo
  {
    if lo < hi {
      SquaresVanish(f, lo, hi - 1);
      DotStep(f, f, lo, hi);
      assert f(hi - 1) * f(hi - 1) == Product(f(hi - 1), f(hi - 1));
      SquareIsPositive(f(hi - 1));
    }
  }

  function Product(a: real, b: real): real { a * b }

  lemma SquareIsPositive(a: real)
    ensures Product(a, a) > 0.0 || (a == 0.0 && Product(a, a) == 0.0)
  {
    if a != 0.0 { SameSigns(a, a); }
  }

  lemma SameSigns(a: real, b: real)
    requires (a > 0.0 && b > 0.0) || (a < 0.0 && b < 0.0)
    ensures Product(a, b) > 0.0
  {
  }

  /** A combination of the columns of V that is orthogonal to all of them is zero. */
  lemma OrthogonalCombination(V: Matrix, K: int -> real, D: int -> real, p: nat)
    requires forall j :: 0 <= j < p ==> D(j) == Dot(K, Column(Entries(V), j), 0, |V|)
    requires forall d :: 0 <= d < |V| ==> Dot(Row(Entries(V), d), D, 0, p) == 0.0
    ensures forall j :: 0 <= j < p ==> D(j) == 0.0
  {
    SumAssociates(K, Entries(V), D, 0, |V|, 0, p);
    DotIsZeroRight(K, Times(Entries(V), D, 0, p), 0, |V|);
    DotSame(LeftTimes(K, Entries(V), 0, |V|), D, D, D, 0, p);
    SquaresVanish(D, 0, p);
  }

  /** The rows of Z are combinations of the columns of V, as in Z = (V^T V)^-1 V^T. */
  predicate Spanned(Z: Matrix, N: (int, int) -> real, V: Matrix, p: nat) {
    forall c, j :: 0 <= c < |Z| && 0 <= j < p ==> At(Z, c, j) == Dot(Row(N, c), Column(Entries(V), j), 0, |V|)
  }

  lemma FactorsAreSpanned(Wtil: Matrix, Z: Matrix, N: (int, int) -> real, V: Matrix, p: nat, i: int, j: nat)
    requires |Wtil| == |Z| && Spanned(Z, N, V, p) && j < p
    ensures Factors(Wtil, Z)(i, j)
            == Dot(LeftTimes(Column(Entries(Wtil), i), N, 0, |Wtil|), Column(Entries(V), j), 0, |V|)
  {
    var w, v := Column(Entries(Wtil), i), Column(Entries(V), j);
    DotSame(w, w, Column(Entries(Z), j), Times(N, v, 0, |V|), 0, |Wtil|);
    SumAssociates(w, N, v, 0, |Wtil|, 0, |V|);
  }

  /** The Jacobian maps every column of V to the column of W next to it. */
  predicate MapsDifferences(B: (int, int) -> real, p: nat, n: nat, V: Matrix, W: Matrix) {
    forall c, k :: 0 <= c < |V| && 0 <= k < n ==> Times(B, Vec(V[c]), 0, p)(k) == At(W, c, k)
  }

  /** A Jacobian built in an earlier iteration, from factors `oldWtil` and `oldZ` whose columns are still among
      those of V, is the explicit update with V and W exactly if it maps the newest differences too. */
  lemma EarlierJacobianIsExplicitIff(J: (int, int) -> real, p: nat, n: nat, V: Matrix, W: Matrix, Z: Matrix,
                                     N: (int, int) -> real, oldWtil: Matrix, oldZ: Matrix, oldN: (int, int) -> real)
    requires |V| == |W| == |Z| && Sized(V, p) && LeftInverseOf(Z, V, p) && Spanned(Z, N, V, p)
    requires |oldWtil| == |oldZ| && Spanned(oldZ, oldN, V, p)
    ensures var B := Updated(J, oldWtil, oldZ);
            SameJacobian(B, Updated(J, WtilOf(J, p, n, V, W), Z), n, p) <==> MapsDifferences(B, p, n, V, W)
  {
    var B, E := Updated(J, oldWtil, oldZ), Updated(J, WtilOf(J, p, n, V, W), Z);
    forall c, k | 0 <= c < |V| && 0 <= k < n ensures Times(E, Vec(V[c]), 0, p)(k) == At(W, c, k) {
      SecantEquations(J, V, W, Z, p, n, c, k);
    }
    if SameJacobian(B, E, n, p) {
      forall c, k | 0 <= c < |V| && 0 <= k < n ensures Times(B, Vec(V[c]), 0, p)(k) == At(W, c, k) {
        SameTimes(B, E, n, p, Vec(V[c]), k);
      }
    }
    if MapsDifferences(B, p, n, V, W) {
      forall i, j | 0 <= i < n && 0 <= j < p ensures B(i, j) == E(i, j) {
        RowsAgree(J, p, n, V, W, Z, N, oldWtil, oldZ, oldN, i);
      }
    }
  }

  lemma RowsAgree(J: (int, int) -> real, p: nat, n: nat, V: Matrix, W: Matrix, Z: Matrix, N: (int, int) -> real,
                  oldWtil: Matrix, oldZ: Matrix, oldN: (int, int) -> real, i: nat)
    requires |V| == |W| == |Z| && Sized(V, p) && LeftInverseOf(Z, V, p) && Spanned(Z, N, V, p)
    requires |oldWtil| == |oldZ| && Spanned(oldZ, oldN, V, p) && i < n
    requires MapsDifferences(Updated(J, oldWtil, oldZ), p, n, V, W)
    ensures forall j :: 0 <= j < p ==> Updated(J, oldWtil, oldZ)(i, j) == Updated(J, WtilOf(J, p, n, V, W), Z)(i, j)
  {
    var Wtil := WtilOf(J, p, n, V, W);
    var B, E := Row(Updated(J, oldWtil, oldZ), i), Row(Updated(J, Wtil, Z), i);
    var before := LeftTimes(Column(Entries(oldWtil), i), oldN, 0, |oldWtil|);
    var after := LeftTimes(Column(Entries(Wtil), i), N, 0, |Wtil|);
    RowOfUpdate(J, oldWtil, oldZ, oldN, V, p, i);
    RowOfUpdate(J, Wtil, Z, N, V, p, i);
    forall d | 0 <= d < |V| ensures Dot(B, Vec(V[d]), 0, p) == Dot(E, Vec(V[d]), 0, p) {
      SecantEquations(J, V, W, Z, p, n, d, i);
      assert Times(Updated(J, oldWtil, oldZ), Vec(V[d]), 0, p)(i) == At(W, d, i);
    }
    SpannedRowsAgree(V, Row(J, i), before, after, B, E, p);
    forall j | 0 <= j < p ensures Updated(J, oldWtil, oldZ)(i, j) == Updated(J, Wtil, Z)(i, j) { assert B(j) == E(j); }
  }

  lemma RowOfUpdate(J: (int, int) -> real, Wtil: Matrix, Z: Matrix, N: (int, int) -> real, V: Matrix, p: nat, i: int)
    requires |Wtil| == |Z| && Spanned(Z, N, V, p)
    ensures var k := LeftTimes(Column(Entries(Wtil), i), N, 0, |Wtil|);
            forall j :: 0 <= j < p ==>
              Row(Updated(J, Wtil, Z), i)(j) == Row(J, i)(j) + Dot(k, Column(Entries(V), j), 0, |V|)
  {
    forall j | 0 <= j < p
      ensures Factors(Wtil, Z)(i, j)
              == Dot(LeftTimes(Column(Entries(Wtil), i), N, 0, |Wtil|), Column(Entries(V), j), 0, |V|)
    {
      FactorsAreSpanned(Wtil, Z, N, V, p, i, j);
    }
  }

  function Minus(f: int -> real, g: int -> real): int -> real { k => f(k) + -1.0 * g(k) }

  lemma OrthogonalTo(V: Matrix, B: int -> real, E: int -> real, d: nat, p: nat)
    requires d < |V| && Dot(B, Vec(V[d]), 0, p) == Dot(E, Vec(V[d]), 0, p)
    ensures Dot(Row(Entries(V), d), Minus(B, E), 0, p) == 0.0
  {
    DotCommutes(Row(Entries(V), d), Minus(B, E), 0, p);
    DotSame(Minus(B, E), Minus(B, E), Row(Entries(V), d), Vec(V[d]), 0, p);
    DotLinear(Minus(B, E), B, -1.0, E, Vec(V[d]), 0, p);
  }

  /** Two rows that differ from a common one by combinations of the columns of V, and agree on these columns. */
  lemma SpannedRowsAgree(V: Matrix, base: int -> real, before: int -> real, after: int -> real,
                         B: int -> real, E: int -> real, p: nat)
    requires forall j :: 0 <= j < p ==> B(j) == base(j) + Dot(before, Column(Entries(V), j), 0, |V|)
    requires forall j :: 0 <= j < p ==> E(j) == base(j) + Dot(after, Column(Entries(V), j), 0, |V|)
    requires forall d :: 0 <= d < |V| ==> Dot(B, Vec(V[d]), 0, p) == Dot(E, Vec(V[d]), 0, p)
    ensures forall j :: 0 <= j < p ==> B(j) == E(j)
  {
    var D, K := Minus(B, E), Minus(before, after);
    forall j | 0 <= j < p ensures D(j) == Dot(K, Column(Entries(V), j), 0, |V|) {
      DotLinear(K, before, -1.0, after, Column(Entries(V), j), 0, |V|);
    }
    forall d | 0 <= d < |V| ensures Dot(Row(Entries(V), d), D, 0, p) == 0.0 {
      OrthogonalTo(V, B, E, d, p);
    }
    OrthogonalCombination(V, K, D, p);
  }

  // ----- one column more than in the last step -----

  /** Combinations of the columns of V, as combinations of one column more. */
  function Shifted(N: (int, int) -> real): (int, int) -> real { (c, d) => if d == 0 then 0.0 else N(c, d - 1) }

  lemma {:induction false} DotShifted(f: int -> real, g: int -> real, f1: int -> real, g1: int -> real, n: nat)
    requires f1(0) == 0.0 && forall k :: 0 <= k < n ==> f1(k + 1) == f(k) && g1(k + 1) == g(k)
    ensures Dot(f1, g1, 0, n + 1) == Dot(f, g, 0, n)
  {
    DotStep(f1, g1, 0, n + 1);
    if n > 0 {
      DotShifted(f, g, f1, g1, n - 1);
      DotStep(f, g, 0, n);
      assert f1(n) == f(n - 1) && g1(n) == g(n - 1);
    }
  }

  lemma SpannedByMore(Z: Matrix, N: (int, int) -> real, V: Matrix, v: Vector, p: nat)
    requires Spanned(Z, N, V, p)
    ensures Spanned(Z, Shifted(N), [v] + V, p)
  {
    forall c, j | 0 <= c < |Z| && 0 <= j < p
      ensures At(Z, c, j) == Dot(Row(Shifted(N), c), Column(Entries([v] + V), j), 0, |[v] + V|)
    {
      forall k | 0 <= k < |V| ensures Column(Entries([v] + V), j)(k + 1) == Column(Entries(V), j)(k) {
        assert ([v] + V)[k + 1] == V[k];
      }
      DotShifted(Row(N, c), Column(Entries(V), j), Row(Shifted(N), c), Column(Entries([v] + V), j), |V|);
    }
  }

  /** A Jacobian maps all differences exactly if it maps the newest, provided it maps those before. */
  lemma MapsOneMore(B: (int, int) -> real, p: nat, n: nat, V: Matrix, W: Matrix, v: Vector, w: Vector)
    requires |V| == |W| && MapsDifferences(B, p, n, V, W)
    ensures MapsDifferences(B, p, n, [v] + V, [w] + W)
            <==> forall k :: 0 <= k < n ==> Times(B, Vec(v), 0, p)(k) == Entry(w, k)
  {
    var V1, W1 := [v] + V, [w] + W;
    if forall k :: 0 <= k < n ==> Times(B, Vec(v), 0, p)(k) == Entry(w, k) {
      forall c, k | 0 <= c < |V1| && 0 <= k < n ensures Times(B, Vec(V1[c]), 0, p)(k) == At(W1, c, k) {
        if c > 0 {
          assert V1[c] == V[c - 1] && W1[c] == W[c - 1];
          assert Times(B, Vec(V[c - 1]), 0, p)(k) == At(W, c - 1, k);
        }
      }
    }
    if MapsDifferences(B, p, n, V1, W1) {
      forall k | 0 <= k < n ensures Times(B, Vec(v), 0, p)(k) == Entry(w, k) {
        assert Times(B, Vec(V1[0]), 0, p)(k) == At(W1, 0, k);
      }
    }
  }

  /** The Jacobian of the last step is the explicit one after another column was added exactly if it already maps that
      column of V to that of W. */
  lemma NewestDifferenceIff(J: (int, int) -> real, p: nat, n: nat, V: Matrix, W: Matrix, Z: Matrix, N: (int, int) -> real,
                            v: Vector, w: Vector, nextZ: Matrix, nextN: (int, int) -> real)
    requires |V| == |W| == |Z| && Sized(V, p) && LeftInverseOf(Z, V, p) && Spanned(Z, N, V, p) && |v| == p
    requires |nextZ| == |V| + 1 && LeftInverseOf(nextZ, [v] + V, p) && Spanned(nextZ, nextN, [v] + V, p)
    ensures var B := Updated(J, WtilOf(J, p, n, V, W), Z);
            SameJacobian(B, Updated(J, WtilOf(J, p, n, [v] + V, [w] + W), nextZ), n, p)
            <==> forall k :: 0 <= k < n ==> Times(B, Vec(v), 0, p)(k) == Entry(w, k)
  {
    var Wtil := WtilOf(J, p, n, V, W);
    SpannedByMore(Z, N, V, v, p);
    EarlierJacobianIsExplicitIff(J, p, n, [v] + V, [w] + W, nextZ, nextN, Wtil, Z, Shifted(N));
    forall c, k | 0 <= c < |V| && 0 <= k < n
      ensures Times(Updated(J, Wtil, Z), Vec(V[c]), 0, p)(k) == At(W, c, k)
    {
      SecantEquations(J, V, W, Z, p, n, c, k);
    }
    MapsOneMore(Updated(J, Wtil, Z), p, n, V, W, v, w);
  }
}
