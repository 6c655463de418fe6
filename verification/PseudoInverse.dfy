/** The pseudo inverse by back substitution with a QR decomposition is a left inverse. */
module PseudoInverse {
  import opened Sums

  /** The columns of Q are orthonormal. */
  predicate Orthonormal(Q: (int, int) -> real, p: nat, m: nat) {
    forall r, t :: 0 <= r < m && 0 <= t < m ==> Dot(Column(Q, r), Column(Q, t), 0, p) == Delta(r, t)
  }

  predicate UpperTriangular(R: (int, int) -> real, m: nat) {
    && (forall r, c :: 0 <= c < r < m ==> R(r, c) == 0.0)
    && forall r :: 0 <= r < m ==> R(r, r) != 0.0
  }

  /** V = Q R */
  predicate Decomposes(V: (int, int) -> real, Q: (int, int) -> real, R: (int, int) -> real, p: nat, m: nat) {
    forall i, s :: 0 <= i < p && 0 <= s < m ==> V(i, s) == Dot(Row(Q, i), Column(R, s), 0, m)
  }

  /** Column `i` of Z solves R z = (row `i` of Q). */
  predicate BackSubstituted(Z: (int, int) -> real, Q: (int, int) -> real, R: (int, int) -> real, p: nat, m: nat) {
    forall i, r :: 0 <= i < p && 0 <= r < m ==> Dot(Row(R, r), Column(Z, i), 0, m) == Q(i, r)
  }

  /** R (Z V) = R, for one entry. */
  lemma TriangleTimes(V: (int, int) -> real, Q: (int, int) -> real, R: (int, int) -> real, Z: (int, int) -> real,
                      p: nat, m: nat, r: nat, s: nat)
    requires Orthonormal(Q, p, m) && Decomposes(V, Q, R, p, m) && BackSubstituted(Z, Q, R, p, m) && r < m && s < m
    ensures Dot(Row(R, r), Times(Z, Column(V, s), 0, p), 0, m) == R(r, s)
  {
    var row, column := Row(R, r), Column(V, s);
    SumAssociates(row, Z, column, 0, m, 0, p);
    DotSame(LeftTimes(row, Z, 0, m), Column(Q, r), column, Times(Q, Column(R, s), 0, m), 0, p);
    SumAssociates(Column(Q, r), Q, Column(R, s), 0, p, 0, m);
    DotOne(LeftTimes(Column(Q, r), Q, 0, p), Column(R, s), r, 0, m);
  }

  lemma {:induction false} UpperSolution(R: (int, int) -> real, m: nat, f: int -> real, s: nat, r: nat)
    requires UpperTriangular(R, m) && r < m && s < m
    requires forall i :: 0 <= i < m ==> Dot(Row(R, i), f, 0, m) == R(i, s)
    ensures f(r) == Delta(r, s)
    decreases m - r
  {
    forall k | r < k < m ensures f(k) == Delta(k, s) { UpperSolution(R, m, f, s, k); }
    var a, id := Row(R, r), (k: int) => Delta(s, k);
    DotFrom(a, f, r, 0, m);
    DotSame(a, a, f, id, r + 1, m);
    DotFrom(a, id, r, 0, m);
    DotCommutes(a, id, 0, m);
    DotOne(id, a, s, 0, m);
    var rest, x, y := Dot(a, f, r + 1, m), a(r) * f(r), a(r) * id(r);
    assert x + rest == R(r, s) && y + rest == R(r, s);
    assert a(r) == R(r, r) && x == y;
    Cancel(a(r), f(r), id(r));
  }

  /** Z V = I */
  lemma PseudoInverseIsLeftInverse(V: (int, int) -> real, Q: (int, int) -> real, R: (int, int) -> real,
                                   Z: (int, int) -> real,
                                   p: nat, m: nat, r: nat, s: nat)
    requires Orthonormal(Q, p, m) && UpperTriangular(R, m) && Decomposes(V, Q, R, p, m)
    requires BackSubstituted(Z, Q, R, p, m)
    requires r < m && s < m
    ensures Times(Z, Column(V, s), 0, p)(r) == Delta(r, s)
  {
    forall i | 0 <= i < m ensures Dot(Row(R, i), Times(Z, Column(V, s), 0, p), 0, m) == R(i, s) {
      TriangleTimes(V, Q, R, Z, p, m, i, s);
    }
    UpperSolution(R, m, Times(Z, Column(V, s), 0, p), s, r);
  }
}
