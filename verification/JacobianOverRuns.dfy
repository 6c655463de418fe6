/** Over every run of the multi-vector method: the steps and stored Jacobians that are explicit, and the assertion of
    the filter. */
module JacobianOverRuns {
  import opened Sums
  import opened Matrices
  import opened ColumnMatrices
  import opened Jacobian
  import opened JacobianUpdates
  import opened JacobianRuns

  // ----- what is explicit -----

  /** The step is the one of the explicit method, whatever the residuals are. */
  ghost predicate StepIsExplicit(l: Setup, a: State, Z: Matrix)
    requires |a.V| == |a.W|
  {
    forall negative: Vector :: |negative| == l.p ==>
      StepOf(l, a, Z, negative) == NewtonUpdate(Previous(l, a), l.p, l.n, a.V, a.W, Z, negative)
  }

  /** The Jacobian for the next window is the updated one of the explicit method. */
  predicate StoredIsExplicit(l: Setup, a: State, Z: Matrix)
    requires |a.V| == |a.W|
  {
    && (l.mode == Restart ==> |a.Wtil| == |Z|)
    && SameJacobian(Previous(l, Store(l, a, Z)), Updated(Previous(l, a), Explicit(l, a), Z), l.n, l.p)
  }

  ghost predicate IsExplicit(l: Setup, s: State, e: Event) {
    var a := System(l, s, e);
    |a.V| == |a.W|
    && (e.Iterate? ==> Relaxes(l, s) || StepIsExplicit(l, a, e.Z))
    && (e.Converges? ==> StoredIsExplicit(l, a, e.Z))
  }

  // ----- shapes -----

  /** V and W have equally many columns, and Wtil as many unless it is marked as outdated, and never fewer; if the
      Jacobian is always built, Wtil has the columns of the last step. */
  predicate Shaped(l: Setup, s: State) {
    && |s.V| == |s.W| && Sized(s.V, l.p) && Sized(s.W, l.n) && Sized(s.Wtil, l.n)
    && if l.mode == AlwaysBuild then |s.Wtil| == s.stepColumns
       else |s.V| <= |s.Wtil| && (s.reset || |s.V| == |s.Wtil|)
  }

  lemma AddShaped(l: Setup, s: State, v: Vector, w: Vector)
    requires Shaped(l, s) && |v| == l.p && |w| == l.n && l.maxColumns > 0
    ensures Shaped(l, Add(l, s, v, w)) && Add(l, s, v, w).V != []
  {
  }

  /** The newest difference comes first; behind it all columns remain if there is room, and all but the last if not. */
  lemma AddTakesNewest(l: Setup, s: State, v: Vector, w: Vector)
    requires Shaped(l, s)
    ensures var c := |s.V|;
            var left := if (c != l.maxColumns && c <= l.rows) || c == 0 then c else c - 1;
            Add(l, s, v, w).V == [v] + s.V[..left] && Add(l, s, v, w).W == [w] + s.W[..left]
  {
    assert s.V[..|s.V|] == s.V && s.W[..|s.W|] == s.W;
  }

  lemma RemoveShaped(l: Setup, s: State, k: nat)
    requires Shaped(l, s) && k < |s.V|
    ensures Shaped(l, Remove(l, s, k)) && |Remove(l, s, k).V| == |s.V| - 1
  {
  }

  lemma {:induction false} RemoveAllShaped(l: Setup, s: State, del: seq<nat>)
    requires Shaped(l, s) && LeavesOne(del, |s.V|)
    ensures var a := RemoveAll(l, s, del);
            Shaped(l, a) && |a.V| == |s.V| - |del| && Previous(l, a) == Previous(l, s) && a.reset == s.reset
    ensures var a := RemoveAll(l, s, del);
            a == s.(V := a.V, W := a.W, Wtil := a.Wtil)
    decreases |del|
  {
    if del != [] {
      RemoveShaped(l, s, del[|del|-1]);
      RemoveAllShaped(l, Remove(l, s, del[|del|-1]), del[..|del|-1]);
    }
  }

  /** Exactly the reported columns are removed, from V, from W and from a Wtil that is kept up to date. */
  lemma {:induction false} RemoveAllRemoves(l: Setup, s: State, del: seq<nat>)
    ensures var a := RemoveAll(l, s, del);
            && a.V == Without(s.V, del) && a.W == Without(s.W, del)
            && a.Wtil == if s.reset || l.mode == AlwaysBuild then s.Wtil else Without(s.Wtil, del)
    decreases |del|
  {
    if del != [] { RemoveAllRemoves(l, Remove(l, s, del[|del|-1]), del[..|del|-1]); }
  }

  lemma SystemShaped(l: Setup, s: State, e: Event)
    requires Shaped(l, s) && Legal(l, s, e) && l.maxColumns > 0
    ensures Shaped(l, System(l, s, e))
  {
    if !s.first { AddShaped(l, s, e.v, e.w); }
    RemoveAllShaped(l, Grown(l, s, e), Filtered(l, s, e));
  }

  /** The columns a step works with, or the Jacobian is stored with: the newest difference in front of those before,
      except in the first iteration of a window, without the columns the filter reports; nothing is filtered when the
      iteration relaxes, or when a window converges and the Jacobian is always built. */
  lemma SystemColumns(l: Setup, s: State, e: Event)
    requires Shaped(l, s)
    ensures var c := |s.V|;
            var left := if (c != l.maxColumns && c <= l.rows) || c == 0 then c else c - 1;
            var relaxes := s.first && (s.firstWindow || l.force);
            var removed := if (if e.Iterate? then relaxes else l.mode == AlwaysBuild) then [] else e.del;
            && System(l, s, e).V == Without(if s.first then s.V else [e.v] + s.V[..left], removed)
            && System(l, s, e).W == Without(if s.first then s.W else [e.w] + s.W[..left], removed)
  {
    AddTakesNewest(l, s, e.v, e.w);
    RemoveAllRemoves(l, Grown(l, s, e), Filtered(l, s, e));
  }

  lemma AfterShaped(l: Setup, s: State, e: Event)
    requires Shaped(l, s) && Legal(l, s, e) && l.maxColumns > 0
    ensures |System(l, s, e).V| == |System(l, s, e).W| && Shaped(l, After(l, s, e))
  {
    SystemShaped(l, s, e);
    if e.Converges? { StoreShaped(l, System(l, s, e), e.Z, e.drop); }
  }

  lemma StoreShaped(l: Setup, a: State, Z: Matrix, drop: nat)
    requires Shaped(l, a) && drop <= |a.V|
    ensures Shaped(l, DropColumns(l, Store(l, a, Z), drop))
  {
    StoredShaped(l, a, Z);
    DropShaped(l, Store(l, a, Z), drop);
  }

  lemma StoredShaped(l: Setup, a: State, Z: Matrix)
    requires Shaped(l, a)
    ensures var t := Store(l, a, Z);
            Shaped(l, t) && t.V == a.V && t.W == a.W && (l.mode != AlwaysBuild && (l.reused > 0 || l.force) ==> t.reset)
  {
  }

  lemma DropShaped(l: Setup, t: State, drop: nat)
    requires Shaped(l, t) && drop <= |t.V| && (l.mode != AlwaysBuild && (l.reused > 0 || l.force) ==> t.reset)
    ensures Shaped(l, DropColumns(l, t, drop))
  {
  }

  lemma PrefixIsLegal(l: Setup, events: seq<Event>, i: nat)
    requires LegalRun(l, events) && i <= |events|
    ensures LegalRun(l, events[..i])
  {
    forall j | 0 <= j < i ensures Legal(l, Run(l, events[..i][..j]), events[..i][j]) {
      assert events[..i][..j] == events[..j];
    }
  }

  lemma {:induction false} RunShaped(l: Setup, events: seq<Event>)
    requires LegalRun(l, events)
    ensures Shaped(l, Run(l, events))
    decreases |events|
  {
    if events != [] {
      var n := |events| - 1;
      PrefixIsLegal(l, events, n);
      RunShaped(l, events[..n]);
      AfterShaped(l, Run(l, events[..n]), events[n]);
    }
  }

  // ----- the assertion of the filter -----

  lemma {:induction false} RemovalsHold(l: Setup, s: State, del: seq<nat>)
    requires Shaped(l, s) && LeavesOne(del, |s.V|)
    ensures RemovalsAsserted(l, s, del) <==> del == [] || l.mode != AlwaysBuild || s.stepColumns > 1
    decreases |del|
  {
    if del != [] {
      RemoveShaped(l, s, del[|del|-1]);
      RemovalsHold(l, Remove(l, s, del[|del|-1]), del[..|del|-1]);
    }
  }

  lemma FilterAsserted(l: Setup, s: State, e: Event)
    requires Shaped(l, s) && Legal(l, s, e) && l.maxColumns > 0
    ensures RemovalsAsserted(l, Grown(l, s, e), Filtered(l, s, e))
            <==> Filtered(l, s, e) == [] || l.mode != AlwaysBuild || s.stepColumns > 1
  {
    if !s.first { AddShaped(l, s, e.v, e.w); }
    RemovalsHold(l, Grown(l, s, e), Filtered(l, s, e));
  }

  /** Over every run: the filter meets a Wtil of more than one column at each removal exactly if nothing is removed,
      the Jacobian is not always built, or V had more than one column in the last step. */
  lemma FilterAssertionIff(l: Setup, events: seq<Event>, i: nat)
    requires LegalRun(l, events) && i < |events|
    ensures var s, e := Run(l, events[..i]), events[i];
            RemovalsAsserted(l, Grown(l, s, e), Filtered(l, s, e))
            <==> Filtered(l, s, e) == [] || l.mode != AlwaysBuild || s.stepColumns > 1
  {
    PrefixIsLegal(l, events, i);
    RunShaped(l, events[..i]);
    FilterAsserted(l, Run(l, events[..i]), events[i]);
  }

  // ----- explicit exactly if the Wtil used is W - J V -----

  lemma StepExplicitIff(l: Setup, a: State, Z: Matrix)
    requires Shaped(l, a) && (l.mode == AlwaysBuild || a.reset || |a.V| == |a.Wtil|)
    requires |Z| == |a.V| && LeftInverseOf(Z, a.V, l.p)
    ensures StepIsExplicit(l, a, Z) <==> Used(l, a) == Explicit(l, a)
  {
    StepIsExplicitIff(Previous(l, a), l.p, l.n, a.V, a.W, Used(l, a), Z);
  }

  lemma RestartStores(l: Setup, a: State, Z: Matrix)
    requires l.mode == Restart && |a.V| == |a.W|
    ensures Previous(l, Store(l, a, Z)) == Updated(Previous(l, a), a.Wtil, Z)
  {
    var chunks := a.chunks + [Chunk(a.Wtil, Z)];
    assert chunks[..|chunks|-1] == a.chunks;
  }

  /** The Wtil that goes into the stored Jacobian. */
  function Pushed(l: Setup, a: State): Matrix
    requires |a.V| == |a.W|
  {
    if l.mode == Restart then a.Wtil else Used(l, a)
  }

  lemma StoresUpdated(l: Setup, a: State, Z: Matrix)
    requires l.mode != AlwaysBuild && |a.V| == |a.W|
    ensures SameJacobian(Previous(l, Store(l, a, Z)), Updated(Previous(l, a), Pushed(l, a), Z), l.n, l.p)
  {
    if l.mode == Restart { RestartStores(l, a, Z); }
  }

  lemma SameJacobians(A: (int, int) -> real, B: (int, int) -> real, C: (int, int) -> real, n: nat, p: nat)
    requires SameJacobian(A, B, n, p)
    ensures SameJacobian(A, C, n, p) <==> SameJacobian(B, C, n, p)
  {
    if SameJacobian(A, C, n, p) {
      forall i, j | 0 <= i < n && 0 <= j < p ensures B(i, j) == C(i, j) { assert A(i, j) == B(i, j) && A(i, j) == C(i, j); }
    }
    if SameJacobian(B, C, n, p) {
      forall i, j | 0 <= i < n && 0 <= j < p ensures A(i, j) == C(i, j) { assert A(i, j) == B(i, j) && B(i, j) == C(i, j); }
    }
  }

  lemma StoredExplicitIff(l: Setup, a: State, Z: Matrix)
    requires Shaped(l, a) && l.mode != AlwaysBuild && |Z| == |a.V| && LeftInverseOf(Z, a.V, l.p)
    ensures StoredIsExplicit(l, a, Z) <==> Pushed(l, a) == Explicit(l, a)
  {
    StoresUpdated(l, a, Z);
    if |Pushed(l, a)| == |Z| {
      UpdateIsExplicitIff(Previous(l, a), l.p, l.n, a.V, a.W, Pushed(l, a), Z);
      SameJacobians(Previous(l, Store(l, a, Z)), Updated(Previous(l, a), Pushed(l, a), Z),
                    Updated(Previous(l, a), Explicit(l, a), Z), l.n, l.p);
    }
  }

  /** If the Jacobian is always built, every step of every run is the explicit one. */
  lemma AlwaysBuiltStepsAreExplicit(l: Setup, events: seq<Event>, i: nat)
    requires LegalRun(l, events) && i < |events| && l.mode == AlwaysBuild && events[i].Iterate?
    ensures IsExplicit(l, Run(l, events[..i]), events[i])
  {
    PrefixIsLegal(l, events, i);
    RunShaped(l, events[..i]);
    var s, e := Run(l, events[..i]), events[i];
    SystemShaped(l, s, e);
    if !Relaxes(l, s) { StepExplicitIff(l, System(l, s, e), e.Z); }
  }

  /** A convergence right after a step, with room for its column: the Jacobian that an always-building method keeps is
      the explicit one exactly if it already maps the newest difference of the residuals to that of the values. */
  lemma KeptIsExplicitIff(l: Setup, s: State, step: Event, v: Vector, w: Vector, Z: Matrix,
                          N: (int, int) -> real, nextN: (int, int) -> real)
    requires Shaped(l, s) && Legal(l, s, step) && l.maxColumns > 0 && l.mode == AlwaysBuild
    requires step.Iterate? && !Relaxes(l, s) && !DeletionPending(l, s) && Spanned(step.Z, N, System(l, s, step).V, l.p)
    requires |v| == l.p && |System(l, s, step).V| == |System(l, s, step).W|
    requires var t := After(l, s, step);
             && |t.V| != l.maxColumns && |t.V| <= l.rows && |Z| == |t.V| + 1
             && LeftInverseOf(Z, [v] + t.V, l.p) && Spanned(Z, nextN, [v] + t.V, l.p)
    ensures var t := After(l, s, step);
            var a := Add(l, t, v, w);
            && |a.V| == |a.W|
            && (StoredIsExplicit(l, a, Z)
                <==> forall k :: 0 <= k < l.n ==> Times(Entries(t.built), Vec(v), 0, l.p)(k) == Entry(w, k))
  {
    var a0, t := System(l, s, step), After(l, s, step);
    SystemShaped(l, s, step);
    RemovedOnly(l, s, step);
    var J, B := Previous(l, a0), Updated(Previous(l, a0), Explicit(l, a0), step.Z);
    NewestDifferenceIff(J, l.p, l.n, a0.V, a0.W, step.Z, N, v, w, Z, nextN);
    var a := Add(l, t, v, w);
    SameJacobians(Entries(t.built), B, Updated(J, Explicit(l, a), Z), l.n, l.p);
    forall k | 0 <= k < l.n ensures Times(Entries(t.built), Vec(v), 0, l.p)(k) == Times(B, Vec(v), 0, l.p)(k) {
      SameTimes(Entries(t.built), B, l.n, l.p, Vec(v), k);
    }
  }

  /** Adding and removing columns leaves everything else alone. */
  lemma RemovedOnly(l: Setup, s: State, e: Event)
    requires Shaped(l, s) && Legal(l, s, e) && l.maxColumns > 0
    ensures var a := System(l, s, e); a == s.(V := a.V, W := a.W, Wtil := a.Wtil)
  {
    if !s.first { AddShaped(l, s, e.v, e.w); }
    RemoveAllShaped(l, Grown(l, s, e), Filtered(l, s, e));
  }
}
