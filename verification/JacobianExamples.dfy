/** Calls of the multi-vector object after which a step, a stored Jacobian or the assertion of the filter is not what
    the explicit method promises. */
module JacobianExamples {
  import opened Sums
  import opened Matrices
  import opened Jacobian
  import opened JacobianUpdates
  import opened JacobianRuns
  import opened JacobianObject

  const ONE: Vector := [1.0]

  /** One unknown and at most 20 columns. */
  function OneUnknown(mode: Mode, reused: nat): Setup { Setup(1, 1, mode, 20, 1, reused, false) }

  lemma OneTimesOne(A: (int, int) -> real, f: int -> real)
    ensures Times(A, f, 0, 1)(0) == A(0, 0) * f(0)
  {
    DotStep(Row(A, 0), f, 0, 1);
  }

  lemma OneInverse()
    ensures LeftInverseOf([ONE], [ONE], 1) && Sized([ONE], 1)
  {
    OneTimesOne(Entries([ONE]), Vec(ONE));
  }

  /** Nothing is subtracted as long as the previous Jacobian is zero. */
  lemma NoJacobianYet(J: (int, int) -> real, p: nat, n: nat, v: Vector, w: Vector)
    requires (forall i, j :: 0 <= i < n && 0 <= j < p ==> J(i, j) == 0.0) && |w| == n
    ensures WtilColumn(J, p, n, v, w) == w
  {
    forall k | 0 <= k < n ensures WtilColumn(J, p, n, v, w)[k] == w[k] {
      DotIsZero(Row(J, k), Vec(v), 0, p);
      assert Times(J, Vec(v), 0, p)(k) == 0.0 && Entry(w, k) == w[k];
    }
  }

  lemma FirstJacobian(l: Setup, a: State)
    requires l.p == l.n == 1 && Previous(l, a)(0, 0) == 0.0
    ensures Built(l, a, [ONE], [ONE]) == [ONE]
  {
    OneEntry([ONE]);
    assert Built(l, a, [ONE], [ONE])[0] == ONE;
  }

  /** The column of the second iteration. */
  lemma FirstColumn(l: Setup, s: State)
    requires l.p == l.n == 1 && l.maxColumns == 20 && l.rows == 1 && s == Initial(l).(first := false)
    ensures var a := Add(l, s, ONE, ONE);
            && a.V == a.W == [ONE] && !a.reset && a.kept == [[0.0]] && a.built == [[0.0]] && a.chunks == []
            && Explicit(l, a) == [ONE] && a.Wtil == if l.mode == AlwaysBuild then [] else [ONE]
  {
    var a := Add(l, s, ONE, ONE);
    NoJacobianYet(Previous(l, s), 1, 1, ONE, ONE);
    assert Zeros(1, 1)[0] == [0.0];
    assert Explicit(l, a)[0] == ONE;
  }

  /** What the first window leaves. */
  lemma AfterFirstWindow(l: Setup, s: State)
    requires l == OneUnknown(l.mode, l.reused) && s == Initial(l).(first := false)
    ensures var e := Converges(ONE, ONE, [], [ONE], 0);
            && |System(l, s, e).V| == |System(l, s, e).W|
            && var t := After(l, s, e);
               && t.first && !t.firstWindow && t.V == t.W == [ONE]
               && (l.mode != AlwaysBuild ==> t.Wtil == [ONE] && (t.reset <==> l.reused > 0))
               && t.chunks == (if l.mode == Restart then [Chunk([ONE], [ONE])] else [])
               && t.kept == if l.mode == Efficient then [ONE] else [[0.0]]
  {
    var a := Add(l, s, ONE, ONE);
    FirstColumn(l, s);
    FirstJacobian(l, a);
    match l.mode
    case AlwaysBuild => assert Store(l, a, [ONE]).kept == [[0.0]];
    case Efficient => assert Store(l, a, [ONE]).kept == [ONE];
    case Restart => assert Store(l, a, [ONE]).chunks == [Chunk([ONE], [ONE])];
  }

  /** Two iterations of the first window: a relaxation and convergence. */
  method FirstWindow(mode: Mode, reused: nat) returns (q: IMVJ)
    ensures fresh(q) && q.setup == OneUnknown(mode, reused) && q.Valid()
    ensures q.firstIteration && !q.firstTimeWindow && q.matrixV == q.matrixW == [ONE]
    ensures mode != AlwaysBuild ==> q.Wtil == [ONE] && (q.resetLS <==> reused > 0)
    ensures q.chunks == if mode == Restart then [Chunk([ONE], [ONE])] else []
    ensures q.oldInvJacobian == if mode == Efficient then [ONE] else [[0.0]]
  {
    var l := OneUnknown(mode, reused);
    q := new IMVJ(l);
    OneInverse();
    var ok, x := q.PerformAcceleration(ONE, ONE, [], [], ONE);
    ghost var s := q.View();
    FirstColumn(l, s);
    AfterFirstWindow(l, s);
    ok := q.IterationsConverged(ONE, ONE, [], [ONE], 0);
  }

  // ----- with one column and J(0, 0) = c -----

  lemma UpdatedOnce(J: (int, int) -> real, c: real)
    requires J(0, 0) == c
    ensures WtilOf(J, 1, 1, [ONE], [ONE]) == [[1.0 - c]]
    ensures Updated(J, WtilOf(J, 1, 1, [ONE], [ONE]), [ONE])(0, 0) == 1.0
    ensures Updated(J, [ONE], [ONE])(0, 0) == c + 1.0
  {
    OneTimesOne(J, Vec(ONE));
    assert WtilColumn(J, 1, 1, ONE, ONE) == [1.0 - c];
    assert WtilOf(J, 1, 1, [ONE], [ONE])[0] == [1.0 - c];
    OneFactor(1.0 - c);
    OneFactor(1.0);
  }

  lemma OneFactor(a: real)
    ensures Factors([[a]], [ONE])(0, 0) == a
  {
    DotStep(Column(Entries([[a]]), 0), Column(Entries([ONE]), 0), 0, 1);
  }

  lemma OneStep(J: (int, int) -> real, Wtil: Matrix, a: real)
    requires Updated(J, Wtil, [ONE])(0, 0) == a
    ensures StepWith(J, 1, 1, Wtil, [ONE], ONE) == [a]
  {
    OneTimesOne(Updated(J, Wtil, [ONE]), Vec(ONE));
  }

  // ----- the calls -----

  /** Restart mode, columns of one past window reused: a second window that converges in its first iteration pushes
      the factors of the first one again, and they count twice. */
  method OutdatedFactorsArePushedAgain() returns (q: IMVJ)
    ensures q.setup == OneUnknown(Restart, 1) && q.Valid() && Previous(q.setup, q.View())(0, 0) == 2.0
    ensures var J := ChunkJacobian([Chunk([ONE], [ONE])]);
            Updated(J, WtilOf(J, 1, 1, [ONE], [ONE]), [ONE])(0, 0) == 1.0
  {
    q := FirstWindow(Restart, 1);
    OneInverse();
    var ok := q.IterationsConverged(ONE, ONE, [], [ONE], 0);
    assert q.chunks == [Chunk([ONE], [ONE])] + [Chunk([ONE], [ONE])];
    RepeatedChunkCountsTwice();
  }

  /** If the Jacobian is always built, the column that is added at convergence is missing in the one that is kept. */
  method LastColumnIsForgotten() returns (q: IMVJ)
    ensures q.setup == OneUnknown(AlwaysBuild, 1) && q.Valid() && Previous(q.setup, q.View())(0, 0) == 0.0
    ensures var J := Entries(Zeros(1, 1)); Updated(J, WtilOf(J, 1, 1, [ONE], [ONE]), [ONE])(0, 0) == 1.0
  {
    q := FirstWindow(AlwaysBuild, 1);
    UpdatedOnce(Entries(Zeros(1, 1)), 0.0);
  }

  /** In the default setting the first step of the second window counts the last update twice. */
  method DefaultStepCountsTwice() returns (q: IMVJ, x: Vector)
    ensures q.setup == OneUnknown(Efficient, 0) && q.Valid() && x == [2.0]
    ensures NewtonUpdate(Entries([ONE]), 1, 1, [ONE], [ONE], [ONE], ONE) == [1.0]
  {
    q := FirstWindow(Efficient, 0);
    OneInverse();
    ghost var s := q.View();
    ghost var J := Previous(q.setup, s);
    UpdatedOnce(J, 1.0);
    OneStep(J, [ONE], 2.0);
    OneStep(J, Explicit(q.setup, s), 1.0);
    assert Negated([-1.0]) == ONE;
    var ok;
    ok, x := q.PerformAcceleration(ONE, ONE, [], [ONE], [-1.0]);
  }

  // ----- the assertion of the filter -----

  const EAST: Vector := [1.0, 0.0]
  const NORTH: Vector := [0.0, 1.0]

  lemma UnitInverse(v: Vector)
    requires v == EAST || v == NORTH
    ensures LeftInverseOf([v], [v], 2) && Sized([v], 2)
  {
    DotStep(Row(Entries([v]), 0), Vec(v), 0, 2);
    DotStep(Row(Entries([v]), 0), Vec(v), 0, 1);
  }

  /** If the Jacobian is always built, the second step's filter is the first to find a column to remove, and meets a
      Wtil of the one column of the first step. */
  method FilterMeetsOneColumn() returns (q: IMVJ, ok: bool)
    ensures q.setup.mode == AlwaysBuild && q.stepColumns == 1 && !ok
  {
    var l := Setup(2, 2, AlwaysBuild, 20, 2, 1, false);
    q := new IMVJ(l);
    UnitInverse(EAST);
    UnitInverse(NORTH);
    var x;
    ok, x := q.PerformAcceleration(EAST, EAST, [], [], EAST);
    assert Add(l, q.View(), EAST, EAST).V == [EAST];
    ok, x := q.PerformAcceleration(EAST, EAST, [], [EAST], EAST);
    ghost var s := q.View();
    assert s.V == [EAST] && s.stepColumns == 1;
    assert Add(l, s, NORTH, NORTH).V == [NORTH, EAST];
    OneRemoved(l, Add(l, s, NORTH, NORTH));
    ok, x := q.PerformAcceleration(NORTH, NORTH, [1], [NORTH], NORTH);
  }

  lemma OneRemoved(l: Setup, s: State)
    ensures RemoveAll(l, s, [1]) == Remove(l, s, 1)
  {
    assert [1][..0] == [];
  }
}
