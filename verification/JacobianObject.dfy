/** The multi-vector quasi-Newton object, proved against the functions of its runs. */
module JacobianObject {
  import opened Sums
  import opened Matrices
  import opened ColumnMatrices
  import opened Jacobian
  import opened JacobianRuns
  import opened JacobianOverRuns
  import opened JacobianFreshness

  predicate ValidChunk(c: Chunk, p: nat, n: nat) { |c.Wtil| == |c.Z| && Sized(c.Wtil, n) && Sized(c.Z, p) }

  method Plus(a: Vector, b: Vector) returns (c: Vector)
    requires |a| == |b|
    ensures |c| == |a| && forall k :: 0 <= k < |a| ==> c[k] == a[k] + b[k]
  {
    c := [];
    for k := 0 to |a|
      invariant |c| == k && forall i :: 0 <= i < k ==> c[i] == a[i] + b[i]
    {
      c := c + [a[k] + b[k]];
    }
  }

  method Difference(a: Vector, b: Vector) returns (c: Vector)
    requires |a| == |b|
    ensures |c| == |a| && forall k :: 0 <= k < |a| ==> c[k] == a[k] - b[k]
  {
    c := [];
    for k := 0 to |a|
      invariant |c| == k && forall i :: 0 <= i < k ==> c[i] == a[i] - b[i]
    {
      c := c + [a[k] - b[k]];
    }
  }

  class IMVJ {
    const setup: Setup
    const p: nat := setup.p
    const n: nat := setup.n

    var matrixV: Matrix
    var matrixW: Matrix
    var Wtil: Matrix
    var resetLS: bool
    var oldInvJacobian: Matrix
    var invJacobian: Matrix
    var chunks: seq<Chunk>
    var firstIteration: bool
    var firstTimeWindow: bool

    // history
    ghost var stepColumns: nat
    ghost var stale: nat

    ghost function View(): State
      reads this
    {
      State(matrixV, matrixW, Wtil, resetLS, oldInvJacobian, invJacobian, chunks, firstIteration, firstTimeWindow,
            stepColumns, stale)
    }

    ghost predicate Valid()
      reads this
    {
      && setup.maxColumns > 0 && Shaped(setup, View())
      && |oldInvJacobian| == |invJacobian| == n && Sized(oldInvJacobian, p) && Sized(invJacobian, p)
      && forall q :: 0 <= q < |chunks| ==> ValidChunk(chunks[q], p, n)
    }

    constructor (setup: Setup)
      requires setup.maxColumns > 0
      ensures Valid() && this.setup == setup && View() == Initial(setup)
    {
      this.setup := setup;
      matrixV, matrixW, Wtil, resetLS, chunks := [], [], [], false, [];
      oldInvJacobian := Zeros(setup.n, setup.p);
      invJacobian := Zeros(setup.n, setup.p);
      firstIteration, firstTimeWindow := true, true;
      stepColumns, stale := 0, 0;
    }

    /** The previous Jacobian times a vector; in restart mode factor by factor. */
    method PreviousTimes(v: Vector) returns (r: Vector)
      requires Valid() && |v| == p
      ensures |r| == n && forall k :: 0 <= k < n ==> r[k] == Times(Previous(setup, View()), Vec(v), 0, p)(k)
    {
      if setup.mode != Restart {
        r := RowsTimes(oldInvJacobian, v, p);
        return;
      }
      r := seq(n, _ => 0.0);
      for q := 0 to |chunks|
        invariant |r| == n && forall k :: 0 <= k < n ==> r[k] == ChunksTimes(chunks[..q], Vec(v), p, k)
      {
        var Zv := RowsTimes(chunks[q].Z, v, p);
        var part := ColumnsTimes(chunks[q].Wtil, Zv, n);
        assert chunks[..q + 1][..q] == chunks[..q];
        forall k | 0 <= k < n
          ensures part[k] == Dot(Column(Entries(chunks[q].Wtil), k), Times(Entries(chunks[q].Z), Vec(v), 0, p), 0,
                                 |chunks[q].Wtil|)
        {
          DotSame(Column(Entries(chunks[q].Wtil), k), Column(Entries(chunks[q].Wtil), k), Vec(Zv),
                  Times(Entries(chunks[q].Z), Vec(v), 0, p), 0, |Zv|);
        }
        r := Plus(r, part);
      }
      assert chunks[..|chunks|] == chunks;
      forall k | 0 <= k < n ensures r[k] == Times(Previous(setup, View()), Vec(v), 0, p)(k) {
        ChunksRepresentJacobian(chunks, Vec(v), p, k);
      }
    }

    /** A new first column, or a shift when the matrix may not grow; used for V, W and Wtil. */
    method SetFirstColumn(A: Matrix, v: Vector) returns (B: Matrix)
      requires setup.maxColumns > 0
      ensures B == SetFirst(setup, A, v)
    {
      if |A| != setup.maxColumns && |A| <= setup.rows {
        B := AppendFront(A, v);
      } else {
        B := ShiftSetFirst(A, v);
      }
    }

    /** A new column of V and W and, unless the Jacobian is always built, the one of Wtil that goes with it; nothing
        in the first iteration of a window. */
    method UpdateDifferenceMatrices(v: Vector, w: Vector)
      requires Valid() && |v| == p && |w| == n
      modifies this`matrixV, this`matrixW, this`Wtil
      ensures Valid() && View() == (if firstIteration then old(View()) else Add(setup, old(View()), v, w))
      ensures old(Current(setup, View())) ==> Current(setup, View())
    {
      if firstIteration {
        return;
      }
      AddShaped(setup, View(), v, w);
      if setup.mode != AlwaysBuild {
        if !resetLS && Wtil == Explicit(setup, View()) { AddExplicit(setup, View(), v, w); }
        var wtil := PreviousTimes(v);
        wtil := Difference(w, wtil);
        assert wtil == WtilColumn(Previous(setup, View()), p, n, v, w);
        Wtil := SetFirstColumn(Wtil, wtil);
      }
      matrixV := SetFirstColumn(matrixV, v);
      matrixW := SetFirstColumn(matrixW, w);
    }

    /** A column that the filter has found; `ok` is the assertion that Wtil has more than one. */
    method RemoveMatrixColumn(k: nat) returns (ok: bool)
      requires Valid() && |matrixV| > 1 && k < |matrixV|
      modifies this`matrixV, this`matrixW, this`Wtil
      ensures Valid() && (old(Current(setup, View())) ==> Current(setup, View()))
      ensures ok <==> old(|Wtil|) > 1
      ensures ok <==> setup.mode != AlwaysBuild || stepColumns > 1
      ensures View() == if ok then Remove(setup, old(View()), k) else old(View())
    {
      ok := |Wtil| > 1;
      if !ok {
        return;
      }
      RemoveShaped(setup, View(), k);
      RemoveExplicit(setup, View(), k);
      if !resetLS && setup.mode != AlwaysBuild {
        Wtil := RemoveColumnFromMatrix(Wtil, k);
      }
      matrixV := RemoveColumnFromMatrix(matrixV, k);
      matrixW := RemoveColumnFromMatrix(matrixW, k);
    }

    /** Removes the columns at the given positions, the last one first, as long as the assertion holds. */
    method ApplyFilter(del: seq<nat>) returns (ok: bool)
      requires Valid() && LeavesOne(del, |matrixV|)
      modifies this`matrixV, this`matrixW, this`Wtil
      ensures Valid() && (ok <==> RemovalsAsserted(setup, old(View()), del))
      ensures ok ==> View() == RemoveAll(setup, old(View()), del)
    {
      ok := true;
      ghost var start := View();
      assert del[..|del|] == del;
      for i := |del| downto 0
        invariant Valid() && LeavesOne(del[..i], |matrixV|)
        invariant RemoveAll(setup, View(), del[..i]) == RemoveAll(setup, start, del)
        invariant RemovalsAsserted(setup, View(), del[..i]) <==> RemovalsAsserted(setup, start, del)
      {
        assert del[..i + 1][..i] == del[..i];
        RemoveShaped(setup, View(), del[i]);
        ok := RemoveMatrixColumn(del[i]);
        if !ok {
          return;
        }
      }
      assert del[..0] == [];
    }

    method BuildWtil()
      requires Valid()
      modifies this`Wtil, this`resetLS
      ensures View() == old(View()).(Wtil := Explicit(setup, old(View())), reset := false)
    {
      var A := [];
      for c := 0 to |matrixV|
        invariant View() == old(View()) && A == WtilOf(Previous(setup, View()), p, n, matrixV[..c], matrixW[..c])
      {
        var JV := PreviousTimes(matrixV[c]);
        var column := Difference(matrixW[c], JV);
        assert column == WtilColumn(Previous(setup, View()), p, n, matrixV[c], matrixW[c]);
        A := A + [column];
      }
      assert matrixV[..|matrixV|] == matrixV && matrixW[..|matrixW|] == matrixW;
      Wtil := A;
      resetLS := false;
    }

    /** The step with the factors; Wtil is rebuilt if it is marked as outdated, and deleted afterwards if the columns
        only serve the first step of the window. */
    method ComputeNewtonUpdateEfficient(Z: Matrix, residuals: Vector) returns (x: Vector)
      requires Valid() && setup.mode != AlwaysBuild && |Z| == |matrixV| && Sized(Z, p) && |residuals| == p
      modifies this`Wtil, this`resetLS
      ensures x == StepOf(setup, old(View()), Z, Negated(residuals))
      ensures old(Current(setup, View())) ==>
                x == NewtonUpdate(Previous(setup, View()), p, n, matrixV, matrixW, Z, Negated(residuals))
      ensures old(Current(setup, View())) && LeftInverseOf(Z, matrixV, p) ==>
                ObeysSecantLaw(Previous(setup, View()), p, n, matrixV, matrixW, Z, residuals, x)
      ensures var t := AfterStep(setup, old(View()), Z);
              if DeletionPending(setup, t) then View() == t.(Wtil := [], reset := true) else View() == t && Valid()
    {
      if LeftInverseOf(Z, matrixV, p) {
        StepObeysSecantLaw(Previous(setup, View()), p, n, matrixV, matrixW, Z, residuals);
      }
      if resetLS { BuildWtil(); }
      var negative := Negated(residuals);
      x := FactoredStep(Z, negative);
      if firstIteration && setup.reused == 0 && !setup.force {
        Wtil := [];
        resetLS := true;
      }
    }

    /** [J_prev * (-res)] + [Wtil * [Z * (-res)]] */
    method FactoredStep(Z: Matrix, negative: Vector) returns (x: Vector)
      requires Valid() && |Z| == |Wtil| && Sized(Z, p) && |negative| == p
      ensures x == StepWith(Previous(setup, View()), p, n, Wtil, Z, negative)
    {
      var rtil := RowsTimes(Z, negative, p);
      var tmp := ColumnsTimes(Wtil, rtil, n);
      x := PreviousTimes(negative);
      x := Plus(x, tmp);
      forall k | 0 <= k < n
        ensures x[k] == Times(Updated(Previous(setup, View()), Wtil, Z), Vec(negative), 0, p)(k)
      {
        EfficientIsExplicit(Previous(setup, View()), Wtil, Z, Vec(negative), p, k);
        DotSame(Column(Entries(Wtil), k), Column(Entries(Wtil), k),
                Vec(rtil), Times(Entries(Z), Vec(negative), 0, p), 0, |rtil|);
      }
    }

    /** Wtil Z + J, multiplied out. */
    method BuildJacobian(Z: Matrix)
      requires |oldInvJacobian| == n && Sized(oldInvJacobian, p)
      requires Sized(Wtil, n) && setup.mode != Restart && |Z| == |Wtil| && Sized(Z, p)
      modifies this`invJacobian
      ensures invJacobian == Built(setup, old(View()), Wtil, Z)
    {
      var M := [];
      ghost var J := Built(setup, View(), Wtil, Z);
      for i := 0 to n
        invariant |M| == i && forall a :: 0 <= a < i ==> M[a] == J[a]
        invariant |oldInvJacobian| == n && Sized(oldInvJacobian, p)
      {
        var row := JacobianRow(Z, i);
        M := M + [row];
      }
      invJacobian := M;
    }

    method JacobianRow(Z: Matrix, i: nat) returns (row: Vector)
      requires |oldInvJacobian| == n && Sized(oldInvJacobian, p) && i < n
      requires Sized(Wtil, n) && setup.mode != Restart && |Z| == |Wtil| && Sized(Z, p)
      ensures |row| == p && forall j :: 0 <= j < p ==> row[j] == Updated(Previous(setup, View()), Wtil, Z)(i, j)
    {
      row := [];
      for j := 0 to p
        invariant |row| == j
        invariant forall b :: 0 <= b < j ==> row[b] == Updated(Previous(setup, View()), Wtil, Z)(i, b)
      {
        var sum := 0.0;
        for c := 0 to |Wtil|
          invariant sum == Dot(Column(Entries(Wtil), i), Column(Entries(Z), j), 0, c)
        {
          DotStep(Column(Entries(Wtil), i), Column(Entries(Z), j), 0, c + 1);
          sum := sum + Wtil[c][i] * Z[c][j];
        }
        assert Previous(setup, View())(i, j) == oldInvJacobian[i][j] && sum == Factors(Wtil, Z)(i, j);
        row := row + [oldInvJacobian[i][j] + sum];
      }
    }

    /** The step with the explicit Jacobian. */
    method ComputeNewtonUpdate(Z: Matrix, residuals: Vector) returns (x: Vector)
      requires Valid() && setup.mode == AlwaysBuild && |Z| == |matrixV| && Sized(Z, p) && |residuals| == p
      modifies this`Wtil, this`resetLS, this`invJacobian, this`stepColumns
      ensures Valid() && View() == AfterStep(setup, old(View()), Z)
      ensures x == NewtonUpdate(Previous(setup, View()), p, n, matrixV, matrixW, Z, Negated(residuals))
      ensures LeftInverseOf(Z, matrixV, p) ==>
                ObeysSecantLaw(Previous(setup, View()), p, n, matrixV, matrixW, Z, residuals, x)
    {
      if LeftInverseOf(Z, matrixV, p) {
        StepObeysSecantLaw(Previous(setup, View()), p, n, matrixV, matrixW, Z, residuals);
      }
      BuildWtil();
      BuildJacobian(Z);
      stepColumns := |matrixV|;
      var negative := Negated(residuals);
      x := RowsTimes(invJacobian, negative, p);
      ghost var J := Updated(Previous(setup, View()), Wtil, Z);
      forall k | 0 <= k < n ensures x[k] == Times(J, Vec(negative), 0, p)(k) {
        DotSame(Row(Entries(invJacobian), k), Row(J, k), Vec(negative), Vec(negative), 0, p);
      }
    }

    // ----- the calls of the acceleration -----

    method UpdateAndFilter(v: Vector, w: Vector, del: seq<nat>) returns (ok: bool)
      requires Valid() && |v| == p && |w| == n
      requires LeavesOne(del, |(if firstIteration then View() else Add(setup, View(), v, w)).V|)
      modifies this`matrixV, this`matrixW, this`Wtil
      ensures var grown := if firstIteration then old(View()) else Add(setup, old(View()), v, w);
              && (ok <==> RemovalsAsserted(setup, grown, del))
              && (ok ==> Valid() && View() == RemoveAll(setup, grown, del))
    {
      UpdateDifferenceMatrices(v, w);
      ok := ApplyFilter(del);
    }

    /** One iteration that has not converged; `ok` is the assertion of the filter, `x` the step if one is taken. */
    method PerformAcceleration(v: Vector, w: Vector, del: seq<nat>, Z: Matrix, residuals: Vector)
      returns (ok: bool, x: Vector)
      requires Valid() && Legal(setup, View(), Iterate(v, w, del, Z, residuals))
      modifies this
      ensures var s, e := old(View()), Iterate(v, w, del, Z, residuals);
              && (ok <==> RemovalsAsserted(setup, Grown(setup, s, e), Filtered(setup, s, e)))
              && |System(setup, s, e).V| == |System(setup, s, e).W|
              && (ok <==> Filtered(setup, s, e) == [] || setup.mode != AlwaysBuild || s.stepColumns > 1)
              && (ok ==> Valid() && View() == After(setup, s, e)) && (!ok ==> stepColumns == s.stepColumns)
              && (ok && s.first && (s.firstWindow || setup.force) ==> x == [] && View() == s.(first := false))
              && (ok && !(s.first && (s.firstWindow || setup.force)) ==>
                    && x == StepOf(setup, System(setup, s, e), Z, Negated(residuals))
                    && StepIsSecant(setup, System(setup, s, e), Z, residuals, x))
    {
      ghost var s, e := View(), Iterate(v, w, del, Z, residuals);
      AfterShaped(setup, s, e);
      FilterAsserted(setup, s, e);
      x := [];
      var relaxes := firstIteration && (firstTimeWindow || setup.force);
      ok := UpdateAndFilter(v, w, if relaxes then [] else del);
      if !ok {
        return;
      }
      if !relaxes {
        x := TakeStep(Z, residuals);
      }
      firstIteration := false;
    }

    /** The step in the mode that is set, and what is deleted after it. */
    method TakeStep(Z: Matrix, residuals: Vector) returns (x: Vector)
      requires Valid() && |Z| == |matrixV| && Sized(Z, p) && |residuals| == p
      modifies this
      ensures View() == PendingDeletion(setup, AfterStep(setup, old(View()), Z))
      ensures x == StepOf(setup, old(View()), Z, Negated(residuals))
      ensures StepIsSecant(setup, old(View()), Z, residuals, x)
      ensures oldInvJacobian == old(oldInvJacobian) && chunks == old(chunks)
      ensures |invJacobian| == n && Sized(invJacobian, p)
      ensures if old(firstIteration) && setup.reused == 0 && !setup.force
              then matrixV == [] && matrixW == [] && resetLS
              else matrixV == old(matrixV) && matrixW == old(matrixW) && !resetLS
    {
      if setup.mode == AlwaysBuild {
        x := ComputeNewtonUpdate(Z, residuals);
      } else {
        x := ComputeNewtonUpdateEfficient(Z, residuals);
      }
      if firstIteration && setup.reused == 0 && !setup.force {
        matrixV, matrixW := [], [];
        resetLS := true;
      }
    }

    /** The Jacobian for the next time window: stored as it was built last, built now, or one more pair of factors. */
    method StoreJacobian(Z: Matrix)
      requires Valid() && (setup.mode != AlwaysBuild ==> |Z| == |matrixV| && Sized(Z, p))
      modifies this`Wtil, this`resetLS, this`invJacobian, this`oldInvJacobian, this`chunks, this`stale
      ensures View() == Store(setup, old(View()), Z)
      ensures Valid() <==> (setup.mode == Restart ==> |old(Wtil)| == |Z|)
      ensures match setup.mode
              case AlwaysBuild => oldInvJacobian == old(invJacobian)
              case Efficient => oldInvJacobian == invJacobian && (resetLS <==> setup.reused > 0 || setup.force)
              case Restart => chunks == old(chunks) + [Chunk(old(Wtil), Z)]
      ensures setup.mode != AlwaysBuild && LeftInverseOf(Z, matrixV, p) ==>
                (StoredIsExplicit(setup, old(View()), Z) <==> Pushed(setup, old(View())) == Explicit(setup, old(View())))
      ensures setup.mode != AlwaysBuild && old(Current(setup, View())) && (setup.mode == Efficient || !old(resetLS)) ==>
                StoredIsExplicit(setup, old(View()), Z)
    {
      StoredShaped(setup, View(), Z);
      StoreFacts(setup, View(), Z);
      if setup.mode == Restart {
        PushFactors(Z);
      } else if setup.mode == Efficient {
        BuildAndKeep(Z);
      } else {
        oldInvJacobian := invJacobian;
      }
    }

    /** Wtil is pushed as it is, whether or not it is marked as outdated. */
    method PushFactors(Z: Matrix)
      requires Valid() && setup.mode == Restart && |Z| == |matrixV| && Sized(Z, p)
      modifies this`resetLS, this`chunks, this`stale
      ensures View() == Store(setup, old(View()), Z)
      ensures (forall q :: 0 <= q < |chunks| ==> ValidChunk(chunks[q], p, n)) <==> |Wtil| == |Z|
    {
      LastChunk(chunks, chunks + [Chunk(Wtil, Z)], Wtil, Z, p, n);
      stale := Staleness(setup, View(), Wtil);
      chunks := chunks + [Chunk(Wtil, Z)];
      if setup.reused > 0 || setup.force { resetLS := true; }
    }

    /** A Wtil that is marked as outdated is rebuilt. */
    method BuildAndKeep(Z: Matrix)
      requires Valid() && setup.mode == Efficient && |Z| == |matrixV| && Sized(Z, p)
      modifies this`Wtil, this`resetLS, this`invJacobian, this`oldInvJacobian, this`stale
      ensures View() == Store(setup, old(View()), Z)
    {
      stale := Staleness(setup, View(), Used(setup, View()));
      if resetLS { BuildWtil(); }
      BuildJacobian(Z);
      if setup.reused > 0 || setup.force { resetLS := true; }
      oldInvJacobian := invJacobian;
    }

    /** The columns of windows that are not reused any longer. */
    method RemoveOldColumns(count: nat)
      requires |matrixV| == |matrixW| && count <= |matrixV|
      modifies this`matrixV, this`matrixW
      ensures View() == DropColumns(setup, old(View()), count)
      ensures var kept := if setup.reused > 0 then |old(matrixV)| - count
                          else if setup.force then 0 else |old(matrixV)|;
              matrixV == old(matrixV)[..kept] && matrixW == old(matrixW)[..kept]
    {
      if setup.reused == 0 {
        if setup.force { matrixV, matrixW := [], []; }
        return;
      }
      for i := 0 to count
        invariant |matrixV| == |matrixW| == |old(matrixV)| - i
        invariant matrixV == old(matrixV)[..|old(matrixV)| - i] && matrixW == old(matrixW)[..|old(matrixW)| - i]
      {
        matrixV := RemoveColumnFromMatrix(matrixV, |matrixV| - 1);
        matrixW := RemoveColumnFromMatrix(matrixW, |matrixW| - 1);
      }
    }

    method CloseWindow(Z: Matrix, drop: nat)
      requires Valid() && (setup.mode != AlwaysBuild ==> |Z| == |matrixV| && Sized(Z, p)) && drop <= |matrixV|
      modifies this
      ensures View() == DropColumns(setup, Store(setup, old(View()), Z), drop).(
                          first := true, firstWindow := old(firstTimeWindow && firstIteration))
      ensures (setup.mode == Restart ==> |old(Wtil)| == |Z|) ==> Valid()
    {
      StoreShaped(setup, View(), Z, drop);
      StoreJacobian(Z);
      RemoveOldColumns(drop);
      firstTimeWindow := firstTimeWindow && firstIteration;
      firstIteration := true;
    }

    /** The end of a time window. */
    method IterationsConverged(v: Vector, w: Vector, del: seq<nat>, Z: Matrix, drop: nat) returns (ok: bool)
      requires Valid() && Legal(setup, View(), Converges(v, w, del, Z, drop))
      modifies this
      ensures var s, e := old(View()), Converges(v, w, del, Z, drop);
              && (ok <==> RemovalsAsserted(setup, Grown(setup, s, e), Filtered(setup, s, e)))
              && |System(setup, s, e).V| == |System(setup, s, e).W|
              && (ok ==> View() == After(setup, s, e))
              && (ok ==> firstIteration && (firstTimeWindow <==> s.firstWindow && s.first))
              && (ok && (setup.mode == Restart ==> |System(setup, s, e).Wtil| == |Z|) ==> Valid())
    {
      ghost var s, e := View(), Converges(v, w, del, Z, drop);
      AfterShaped(setup, s, e);
      ok := UpdateAndFilter(v, w, if setup.mode == AlwaysBuild then [] else del);
      if !ok {
        return;
      }
      CloseWindow(Z, drop);
    }
  }

  /** A step with a current Wtil, or one that builds the Jacobian, obeys the secant law. */
  ghost predicate StepIsSecant(l: Setup, s: State, Z: Matrix, residuals: Vector, x: Vector) {
    Current(l, s) && LeftInverseOf(Z, s.V, l.p) ==>
      ObeysSecantLaw(Previous(l, s), l.p, l.n, s.V, s.W, Z, residuals, x)
  }

  lemma StoreFacts(l: Setup, s: State, Z: Matrix)
    requires Shaped(l, s) && (l.mode != AlwaysBuild ==> |Z| == |s.V|)
    ensures l.mode != AlwaysBuild && LeftInverseOf(Z, s.V, l.p) ==>
              (StoredIsExplicit(l, s, Z) <==> Pushed(l, s) == Explicit(l, s))
    ensures l.mode != AlwaysBuild && Current(l, s) && (l.mode == Efficient || !s.reset) ==> StoredIsExplicit(l, s, Z)
  {
    if l.mode != AlwaysBuild {
      StoresUpdated(l, s, Z);
      if LeftInverseOf(Z, s.V, l.p) { StoredExplicitIff(l, s, Z); }
    }
  }

  lemma LastChunk(before: seq<Chunk>, chunks: seq<Chunk>, Wtil: Matrix, Z: Matrix, p: nat, n: nat)
    requires chunks == before + [Chunk(Wtil, Z)] && Sized(Wtil, n) && Sized(Z, p)
    requires forall q :: 0 <= q < |before| ==> ValidChunk(before[q], p, n)
    ensures (forall q :: 0 <= q < |chunks| ==> ValidChunk(chunks[q], p, n)) <==> |Wtil| == |Z|
  {
    assert chunks[|before|] == Chunk(Wtil, Z);
    assert forall q :: 0 <= q < |before| ==> chunks[q] == before[q];
  }
}
