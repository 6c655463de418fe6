/** The inverse of a lower triangular matrix by forward substitution, entry by entry.

    Only the lower triangle of the matrix is read, as a triangular view does. */
module TriangularInverse {
  import opened Sums
  import opened Matrices

  predicate NonZeroDiagonal(l: Matrix, n: nat) { forall i :: 0 <= i < n ==> At(l, i, i) != 0.0 }

  predicate LowerTriangular(l: Matrix, n: nat) { forall r, c :: 0 <= r < c < n ==> At(l, r, c) == 0.0 }

  function Inverse(l: Matrix, r: int, c: int): real
    decreases r - c
  {
    if r < c || At(l, r, r) == 0.0 then 0.0
    else (Delta(r, c) - Dot(k => At(l, r, k), k => if c <= k < r then Inverse(l, k, c) else 0.0, c, r)) / At(l, r, r)
  }

  function Inverses(l: Matrix): (int, int) -> real { (r, c) => Inverse(l, r, c) }

  /** Row `r` of the matrix times column `c` of the inverse, in the columns `[lo, hi)` of the matrix. */
  function Partial(l: Matrix, r: int, c: int, lo: int, hi: int): real {
    Dot(Row(Entries(l), r), Column(Inverses(l), c), lo, hi)
  }

  lemma InverseSolves(l: Matrix, r: int, c: int)
    requires c <= r && At(l, r, r) != 0.0
    ensures Partial(l, r, c, c, r) + At(l, r, r) * Inverse(l, r, c) == Delta(r, c)
  {
    DotSame(Row(Entries(l), r), k => At(l, r, k),
            Column(Inverses(l), c), k => if c <= k < r then Inverse(l, k, c) else 0.0, c, r);
  }

  /** The sum may start anywhere left of the column, and the case above the diagonal is included. */
  lemma InverseSolvesFrom(l: Matrix, s: int, r: int, c: int)
    requires s <= r && s <= c && At(l, r, r) != 0.0
    ensures Partial(l, r, c, s, r) + At(l, r, r) * Inverse(l, r, c) == Delta(r, c)
  {
    if c <= r {
      PartialFrom(l, r, c, s, r);
      InverseSolves(l, r, c);
    } else {
      DotIsZeroRight(Row(Entries(l), r), Column(Inverses(l), c), s, r);
    }
  }

  /** Above its diagonal the inverse is zero. */
  lemma PartialFrom(l: Matrix, r: int, c: int, s: int, hi: int)
    requires s <= c <= hi
    ensures Partial(l, r, c, s, hi) == Partial(l, r, c, c, hi)
  {
    DotSplit(Row(Entries(l), r), Column(Inverses(l), c), s, c, hi);
    DotIsZeroRight(Row(Entries(l), r), Column(Inverses(l), c), s, c);
  }

  lemma PartialSplit(l: Matrix, r: int, c: int, lo: int, mid: int, hi: int)
    requires lo <= mid <= hi
    ensures Partial(l, r, c, lo, hi) == Partial(l, r, c, lo, mid) + Partial(l, r, c, mid, hi)
  {
    DotSplit(Row(Entries(l), r), Column(Inverses(l), c), lo, mid, hi);
  }

  // ----- the formula for a block below the diagonal -----

  /** The part of column `c` that the rows of the matrix contribute left of `s`. */
  function Remainder(l: Matrix, c: int, s: int): int -> real { m => Partial(l, m, c, c, s) }

  /** Row `r` of the inverted diagonal block `[s, e)` times the remainder. */
  function Correction(l: Matrix, s: int, e: int, r: int, c: int): real {
    Dot(Row(Inverses(l), r), Remainder(l, c, s), s, e)
  }

  lemma IdentityRow(l: Matrix, s: int, r: int, m: int)
    requires s <= r && s <= m && At(l, r, r) != 0.0
    ensures Dot(Row(Entries(l), r), Column(Inverses(l), m), s, r) == Delta(r, m) - At(l, r, r) * Inverses(l)(r, m)
  {
    InverseSolvesFrom(l, s, r, m);
  }

  /** A row of the matrix times the corrections above it. */
  lemma RowTimesCorrections(l: Matrix, s: int, e: int, r: int, c: int)
    requires s <= r < e && At(l, r, r) != 0.0
    ensures Dot(Row(Entries(l), r), Times(Inverses(l), Remainder(l, c, s), s, e), s, r)
            == Remainder(l, c, s)(r) - At(l, r, r) * Correction(l, s, e, r, c)
  {
    var d, a, b := At(l, r, r), Row(Entries(l), r), Inverses(l);
    forall m | s <= m < e ensures Dot(a, Column(b, m), s, r) == Delta(r, m) - d * b(r, m) { IdentityRow(l, s, r, m); }
    RowOfInverse(a, b, Remainder(l, c, s), d, r, s, e);
  }

  /** The same for the column of the inverse, which consists of negated corrections. */
  lemma RowTimesKnown(l: Matrix, s: int, e: int, r: int, c: int)
    requires s <= r < e && At(l, r, r) != 0.0 && forall k :: s <= k < r ==>
               Inverse(l, k, c) == -Correction(l, s, e, k, c)
    ensures Partial(l, r, c, s, r) == -(Remainder(l, c, s)(r) - At(l, r, r) * Correction(l, s, e, r, c))
  {
    RowTimesCorrections(l, s, e, r, c);
    DotMinus(Row(Entries(l), r), Times(Inverses(l), Remainder(l, c, s), s, e), Column(Inverses(l), c), s, r);
  }

  lemma SolveForEntry(d: real, known: real, rest: real, entry: real, q: real)
    requires d != 0.0 && known + rest + d * entry == 0.0 && rest == -(known - d * q)
    ensures entry == -q
  {
    assert d * entry == -(d * q);
    assert d * entry == d * -q;
  }

  /** The block of the inverse left of the diagonal block `[s, e)` is minus the inverted diagonal block
      times the rows of the matrix times the rows of the inverse that are already known. */
  lemma {:induction false} BlockFormula(l: Matrix, s: int, e: int, r: int, c: int)
    requires c < s <= r < e && forall i :: s <= i < e ==> At(l, i, i) != 0.0
    ensures Inverse(l, r, c) == -Correction(l, s, e, r, c)
    decreases r
  {
    forall k | s <= k < r ensures Inverse(l, k, c) == -Correction(l, s, e, k, c) {
      BlockFormula(l, s, e, k, c);
    }
    InverseSolves(l, r, c);
    PartialSplit(l, r, c, c, s, r);
    RowTimesKnown(l, s, e, r, c);
    SolveForEntry(At(l, r, r), Remainder(l, c, s)(r), Partial(l, r, c, s, r), Inverse(l, r, c),
                  Correction(l, s, e, r, c));
  }

  // ----- what the entries mean -----

  function Product(a: Matrix, b: Matrix, n: nat, r: int, c: int): real {
    Dot(Row(Entries(a), r), Column(Entries(b), c), 0, n)
  }

  predicate IsInverse(l: Matrix, x: Matrix, n: nat) {
    forall r, c :: 0 <= r < n && 0 <= c < n ==> Product(l, x, n, r, c) == Delta(r, c)
  }

  predicate Holds(l: Matrix, x: Matrix, n: nat) {
    forall r, c :: 0 <= r < n && 0 <= c < n ==> At(x, r, c) == Inverse(l, r, c)
  }

  lemma ProductIsPartial(l: Matrix, x: Matrix, n: nat, r: int, c: int)
    requires Holds(l, x, n) && 0 <= c < n
    ensures Product(l, x, n, r, c) == Partial(l, r, c, 0, n)
  {
    var a := Row(Entries(l), r);
    DotSame(a, a, Column(Entries(x), c), Column(Inverses(l), c), 0, n);
  }

  lemma PartialToDiagonal(l: Matrix, n: nat, r: int, c: int)
    requires LowerTriangular(l, n) && 0 <= r < n
    ensures Partial(l, r, c, 0, n) == Partial(l, r, c, 0, r) + At(l, r, r) * Inverse(l, r, c)
  {
    DotUpTo(Row(Entries(l), r), Column(Inverses(l), c), r, 0, n);
  }

  lemma RightInverse(l: Matrix, x: Matrix, n: nat)
    requires NonZeroDiagonal(l, n) && LowerTriangular(l, n) && Holds(l, x, n)
    ensures IsInverse(l, x, n)
  {
    forall r, c | 0 <= r < n && 0 <= c < n
      ensures Product(l, x, n, r, c) == Delta(r, c)
    {
      ProductIsPartial(l, x, n, r, c);
      PartialToDiagonal(l, n, r, c);
      InverseSolvesFrom(l, 0, r, c);
    }
  }

  /** A lower triangular system with a column of the matrix itself on the right has the column
      of the identity as its only solution. */
  lemma {:induction false} OnlySolution(l: Matrix, n: nat, f: int -> real, r: int, c: int)
    requires NonZeroDiagonal(l, n) && LowerTriangular(l, n) && 0 <= r < n && 0 <= c < n
    requires forall i :: 0 <= i < n ==> Dot(Row(Entries(l), i), f, 0, n) == At(l, i, c)
    ensures f(r) == Delta(r, c)
    decreases r
  {
    forall k | 0 <= k < r ensures f(k) == Delta(k, c) { OnlySolution(l, n, f, k, c); }
    var a, id := Row(Entries(l), r), (k: int) => Delta(c, k);
    DotUpTo(a, f, r, 0, n);
    DotSame(a, a, f, id, 0, r);
    DotUpTo(a, id, r, 0, n);
    DotCommutes(a, id, 0, n);
    DotOne(id, a, c, 0, n);
    assert a(r) * f(r) == a(r) * id(r);
    Cancel(At(l, r, r), f(r), id(r));
  }

  lemma LeftInverse(l: Matrix, x: Matrix, n: nat)
    requires NonZeroDiagonal(l, n) && LowerTriangular(l, n) && IsInverse(l, x, n)
    ensures IsInverse(x, l, n)
  {
    forall r, c | 0 <= r < n && 0 <= c < n
      ensures Product(x, l, n, r, c) == Delta(r, c)
    {
      var column := Column(Entries(l), c);
      forall i | 0 <= i < n
        ensures Dot(Row(Entries(l), i), Times(Entries(x), column, 0, n), 0, n) == At(l, i, c)
      {
        var a := Row(Entries(l), i);
        SumAssociates(a, Entries(x), column, 0, n, 0, n);
        forall m | 0 <= m < n ensures LeftTimes(a, Entries(x), 0, n)(m) == Delta(i, m) {
          assert Product(l, x, n, i, m) == Delta(i, m);
        }
        DotOne(LeftTimes(a, Entries(x), 0, n), column, i, 0, n);
      }
      OnlySolution(l, n, Times(Entries(x), column, 0, n), r, c);
    }
  }
}
