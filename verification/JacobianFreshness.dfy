/** Over every run of the multi-vector method: when the Wtil at hand is W - J V, and so which steps and which stored
    Jacobians are the explicit ones. */
module JacobianFreshness {
  import opened Matrices
  import opened ColumnMatrices
  import opened Jacobian
  import opened JacobianUpdates
  import opened JacobianRuns
  import opened JacobianOverRuns

  // ----- adding and removing columns -----

  lemma AddExplicit(l: Setup, s: State, v: Vector, w: Vector)
    requires Shaped(l, s) && l.mode != AlwaysBuild && s.Wtil == Explicit(l, s)
    ensures |Add(l, s, v, w).V| == |Add(l, s, v, w).W| && Add(l, s, v, w).Wtil == Explicit(l, Add(l, s, v, w))
  {
    var grows := |s.V| != l.maxColumns && |s.V| <= l.rows;
    var V, W := if grows then s.V else DropLast(s.V), if grows then s.W else DropLast(s.W);
    WtilOfFront(Previous(l, s), l.p, l.n, V, W, v, w);
    WtilOfFront(Previous(l, s), l.p, l.n, s.V, s.W, v, w);
  }

  lemma RemoveExplicit(l: Setup, s: State, k: nat)
    requires |s.V| == |s.W| && k < |s.V|
    ensures |Remove(l, s, k).V| == |Remove(l, s, k).W| && Explicit(l, Remove(l, s, k)) == RemoveAt(Explicit(l, s), k)
  {
  }

  // ----- Wtil as a multiple of W - J V -----

  function Scaled(A: Matrix, f: real): (m: Matrix)
    ensures |m| == |A|
  {
    seq(|A|, c requires 0 <= c < |A| => ScaledColumn(A[c], f))
  }

  function ScaledColumn(v: Vector, f: real): (r: Vector)
    ensures |r| == |v|
  {
    seq(|v|, k requires 0 <= k < |v| => f * v[k])
  }

  lemma ScaledOnce(A: Matrix)
    ensures Scaled(A, 1.0) == A
  {
    forall c | 0 <= c < |A| ensures Scaled(A, 1.0)[c] == A[c] { assert ScaledColumn(A[c], 1.0) == A[c]; }
  }

  lemma ScaledRemoved(A: Matrix, f: real, k: nat)
    requires k < |A|
    ensures Scaled(RemoveAt(A, k), f) == RemoveAt(Scaled(A, f), k)
  {
  }

  /** A matrix is its own multiple by a factor of zero or less only if it is zero. */
  lemma OwnMultiple(A: Matrix, f: real, n: nat)
    requires Sized(A, n) && f <= 0.0
    ensures A == Scaled(A, f) <==> Vanishes(A, n)
  {
    if A == Scaled(A, f) {
      forall c, k | 0 <= c < |A| && 0 <= k < n ensures At(A, c, k) == 0.0 {
        assert A[c] == ScaledColumn(A[c], f);
        OnlyZero(A[c][k], f);
      }
    }
    if Vanishes(A, n) {
      forall c | 0 <= c < |A| ensures A[c] == Scaled(A, f)[c] {
        forall k | 0 <= k < n ensures A[c][k] == ScaledColumn(A[c], f)[k] { assert At(A, c, k) == 0.0; }
      }
    }
  }

  lemma OnlyZero(a: real, f: real)
    requires a == f * a && f <= 0.0
    ensures a == 0.0
  {
    assert (1.0 - f) * a == 0.0;
  }

  lemma OneLess(f: real, a: real)
    ensures f * a - a == (f - 1.0) * a
  {
  }

  /** A Jacobian that was updated with a multiple of what it lacks lacks one multiple less. */
  lemma LacksOneLess(J: (int, int) -> real, next: (int, int) -> real, p: nat, n: nat, V: Matrix, W: Matrix,
                     Wtil: Matrix, Z: Matrix, f: real)
    requires Fitting(p, n, V, W, Wtil, Z) && SameJacobian(next, Updated(J, Wtil, Z), n, p)
    requires WtilOf(J, p, n, V, W) == Scaled(Wtil, f)
    ensures WtilOf(next, p, n, V, W) == Scaled(Wtil, f - 1.0)
  {
    var left := WtilOf(next, p, n, V, W);
    forall c | 0 <= c < |V| ensures left[c] == Scaled(Wtil, f - 1.0)[c] {
      assert WtilOf(J, p, n, V, W)[c] == Scaled(Wtil, f)[c];
      forall k | 0 <= k < n ensures left[c][k] == ScaledColumn(Wtil[c], f - 1.0)[k] {
        LackedEntry(J, next, p, n, V, W, Wtil, Z, f, c, k);
      }
    }
  }

  lemma LackedEntry(J: (int, int) -> real, next: (int, int) -> real, p: nat, n: nat, V: Matrix, W: Matrix,
                    Wtil: Matrix, Z: Matrix, f: real, c: nat, k: nat)
    requires Fitting(p, n, V, W, Wtil, Z) && SameJacobian(next, Updated(J, Wtil, Z), n, p) && c < |V| && k < n
    requires WtilColumn(J, p, n, V[c], W[c]) == ScaledColumn(Wtil[c], f)
    ensures WtilColumn(next, p, n, V[c], W[c])[k] == ScaledColumn(Wtil[c], f - 1.0)[k]
  {
    SameTimes(next, Updated(J, Wtil, Z), n, p, Vec(V[c]), k);
    UpdatedTimesColumn(J, V, Wtil, Z, p, c, k);
    assert WtilColumn(J, p, n, V[c], W[c])[k] == f * Wtil[c][k];
    OneLess(f, Wtil[c][k]);
  }

  // ----- settings that mark Wtil as outdated -----

  /** Wtil is W - J V unless it is marked as outdated. */
  predicate Current(l: Setup, s: State) {
    |s.V| == |s.W| && (l.mode == AlwaysBuild || s.reset || s.Wtil == Explicit(l, s))
  }

  lemma {:induction false} RemoveAllCurrent(l: Setup, s: State, del: seq<nat>)
    requires Shaped(l, s) && Current(l, s) && LeavesOne(del, |s.V|)
    ensures Current(l, RemoveAll(l, s, del))
    decreases |del|
  {
    if del != [] {
      RemoveShaped(l, s, del[|del|-1]);
      RemoveExplicit(l, s, del[|del|-1]);
      RemoveAllCurrent(l, Remove(l, s, del[|del|-1]), del[..|del|-1]);
    }
  }

  lemma SystemCurrent(l: Setup, s: State, e: Event)
    requires Shaped(l, s) && Current(l, s) && Legal(l, s, e) && l.maxColumns > 0
    ensures Shaped(l, System(l, s, e)) && Current(l, System(l, s, e))
  {
    SystemShaped(l, s, e);
    if !s.first {
      AddShaped(l, s, e.v, e.w);
      if l.mode != AlwaysBuild && !s.reset { AddExplicit(l, s, e.v, e.w); }
    }
    RemoveAllCurrent(l, Grown(l, s, e), Filtered(l, s, e));
  }

  lemma AfterCurrent(l: Setup, s: State, e: Event)
    requires Shaped(l, s) && Current(l, s) && Legal(l, s, e) && l.maxColumns > 0 && (l.reused > 0 || l.force)
    ensures |System(l, s, e).V| == |System(l, s, e).W| && Current(l, After(l, s, e))
  {
    SystemCurrent(l, s, e);
    if e.Converges? {
      StoredShaped(l, System(l, s, e), e.Z);
      DropShaped(l, Store(l, System(l, s, e), e.Z), e.drop);
    }
  }

  lemma {:induction false} RunCurrent(l: Setup, events: seq<Event>)
    requires LegalRun(l, events) && (l.reused > 0 || l.force)
    ensures Shaped(l, Run(l, events)) && Current(l, Run(l, events))
    decreases |events|
  {
    RunShaped(l, events);
    if events != [] {
      var n := |events| - 1;
      PrefixIsLegal(l, events, n);
      RunCurrent(l, events[..n]);
      AfterCurrent(l, Run(l, events[..n]), events[n]);
    }
  }

  /** A step with a current Wtil is explicit; a stored Jacobian is if Wtil is current or rebuilt. */
  lemma CurrentIsExplicit(l: Setup, s: State, e: Event)
    requires Shaped(l, s) && Current(l, s) && Legal(l, s, e) && l.maxColumns > 0 && l.mode != AlwaysBuild
    ensures var a := System(l, s, e);
            && |a.V| == |a.W|
            && (IsExplicit(l, s, e)
                <==> (e.Converges? && l.mode == Restart && a.reset ==> a.Wtil == Explicit(l, a)))
  {
    var a := System(l, s, e);
    SystemCurrent(l, s, e);
    if e.Converges? {
      StoredExplicitIff(l, a, e.Z);
    } else if !Relaxes(l, s) {
      StepExplicitIff(l, a, e.Z);
    }
  }

  /** With time windows reused or with forced relaxation, and without restart: every step and every stored Jacobian
      of every run is the explicit one. */
  lemma EfficientIsAlwaysExplicit(l: Setup, events: seq<Event>, i: nat)
    requires LegalRun(l, events) && i < |events| && l.mode == Efficient && (l.reused > 0 || l.force)
    ensures IsExplicit(l, Run(l, events[..i]), events[i])
  {
    PrefixIsLegal(l, events, i);
    RunCurrent(l, events[..i]);
    CurrentIsExplicit(l, Run(l, events[..i]), events[i]);
  }

  /** A window has converged, and since then no quasi-Newton step was taken. */
  predicate AwaitsStep(l: Setup, events: seq<Event>) {
    events != [] &&
    var n := |events| - 1;
    events[n].Converges? || (Relaxes(l, Run(l, events[..n])) && AwaitsStep(l, events[..n]))
  }

  lemma {:induction false} OutdatedIff(l: Setup, events: seq<Event>)
    requires LegalRun(l, events) && l.mode != AlwaysBuild && (l.reused > 0 || l.force)
    ensures Run(l, events).reset <==> AwaitsStep(l, events)
    decreases |events|
  {
    if events != [] {
      var n := |events| - 1;
      PrefixIsLegal(l, events, n);
      OutdatedIff(l, events[..n]);
      RunShaped(l, events[..n]);
      ResetAfter(l, Run(l, events[..n]), events[n]);
    }
  }

  lemma ResetAfter(l: Setup, s: State, e: Event)
    requires Shaped(l, s) && Legal(l, s, e) && l.maxColumns > 0 && l.mode != AlwaysBuild && (l.reused > 0 || l.force)
    ensures |System(l, s, e).V| == |System(l, s, e).W|
    ensures After(l, s, e).reset <==> e.Converges? || (Relaxes(l, s) && s.reset)
  {
    SystemShaped(l, s, e);
    SystemReset(l, s, e);
  }

  lemma SystemReset(l: Setup, s: State, e: Event)
    requires Shaped(l, s) && Legal(l, s, e) && l.maxColumns > 0
    ensures System(l, s, e).reset == s.reset
  {
    if !s.first { AddShaped(l, s, e.v, e.w); }
    RemoveAllShaped(l, Grown(l, s, e), Filtered(l, s, e));
  }

  /** In restart mode every step is still the explicit one, and a stored Jacobian is exactly if its window has taken
      a quasi-Newton step, is the first one, or happens to find a Wtil that is W - J V. */
  lemma RestartIsExplicitIff(l: Setup, events: seq<Event>, i: nat)
    requires LegalRun(l, events) && i < |events| && l.mode == Restart && (l.reused > 0 || l.force)
    ensures var a := System(l, Run(l, events[..i]), events[i]);
            && |a.V| == |a.W|
            && (IsExplicit(l, Run(l, events[..i]), events[i])
                <==> events[i].Iterate? || !AwaitsStep(l, events[..i]) || a.Wtil == Explicit(l, a))
  {
    var s, e := Run(l, events[..i]), events[i];
    PrefixIsLegal(l, events, i);
    RunCurrent(l, events[..i]);
    OutdatedIff(l, events[..i]);
    SystemCurrent(l, s, e);
    SystemReset(l, s, e);
    CurrentIsExplicit(l, s, e);
  }

  /** So all is explicit over a whole run exactly if each window after the first takes a quasi-Newton step or happens
      to find a Wtil that is W - J V. */
  lemma RestartRunsAreExplicitIff(l: Setup, events: seq<Event>)
    requires LegalRun(l, events) && l.mode == Restart && (l.reused > 0 || l.force)
    ensures (forall i :: 0 <= i < |events| ==> IsExplicit(l, Run(l, events[..i]), events[i]))
            <==> (forall i :: 0 <= i < |events| && events[i].Converges? && AwaitsStep(l, events[..i]) ==>
                    HasCurrent(l, System(l, Run(l, events[..i]), events[i])))
  {
    forall i | 0 <= i < |events|
      ensures IsExplicit(l, Run(l, events[..i]), events[i])
              <==> (events[i].Converges? && AwaitsStep(l, events[..i]) ==>
                      HasCurrent(l, System(l, Run(l, events[..i]), events[i])))
    {
      RestartIsExplicitIff(l, events, i);
    }
  }

  predicate HasCurrent(l: Setup, a: State) { |a.V| == |a.W| && a.Wtil == Explicit(l, a) }

  /** A window after which all columns are kept. */
  lemma KeepsColumns(l: Setup, s: State, e: Event)
    requires l.mode == Restart && l.reused > 0 && e.Converges? && e.drop == 0
    requires |System(l, s, e).V| == |System(l, s, e).W|
    ensures var a, t := System(l, s, e), After(l, s, e);
            && t.V == a.V && t.W == a.W && t.Wtil == a.Wtil && t.first && t.reset
            && Previous(l, t) == Updated(Previous(l, a), a.Wtil, e.Z)
  {
    RestartStores(l, System(l, s, e), e.Z);
  }

  lemma NothingLacks(l: Setup, s: State, e: Event)
    requires Shaped(l, s) && Legal(l, s, e) && l.maxColumns > 0
    requires l.mode == Restart && l.reused > 0 && e.Converges? && e.drop == 0 && IsExplicit(l, s, e)
    ensures |System(l, s, e).V| == |System(l, s, e).W|
    ensures var t := After(l, s, e); |t.V| == |t.W| && Explicit(l, t) == Scaled(t.Wtil, 0.0)
  {
    var a := System(l, s, e);
    SystemShaped(l, s, e);
    KeepsColumns(l, s, e);
    StoredExplicitIff(l, a, e.Z);
    ScaledOnce(a.Wtil);
    LacksOneLess(Previous(l, a), Updated(Previous(l, a), a.Wtil, e.Z), l.p, l.n, a.V, a.W, a.Wtil, e.Z, 1.0);
  }

  /** At the start of a window that lacks nothing. */
  lemma AtOnceIsExplicitIff(l: Setup, t: State, e: Event)
    requires Shaped(l, t) && Legal(l, t, e) && l.maxColumns > 0 && l.mode == Restart
    requires t.first && e.Converges? && e.del == [] && Explicit(l, t) == Scaled(t.Wtil, 0.0)
    ensures IsExplicit(l, t, e) <==> Vanishes(t.Wtil, l.n)
  {
    assert System(l, t, e) == t;
    StoredExplicitIff(l, t, e.Z);
    OwnMultiple(t.Wtil, 0.0, l.n);
  }

  lemma RunAfter(l: Setup, events: seq<Event>, i: nat)
    requires LegalRun(l, events) && 0 < i <= |events|
    ensures var s, e := Run(l, events[..i-1]), events[i-1];
            && Shaped(l, s) && Legal(l, s, e) && |System(l, s, e).V| == |System(l, s, e).W|
            && Run(l, events[..i]) == After(l, s, e) && Shaped(l, After(l, s, e))
  {
    assert events[..i][..i-1] == events[..i-1];
    PrefixIsLegal(l, events, i - 1);
    RunShaped(l, events[..i-1]);
    AfterShaped(l, Run(l, events[..i-1]), events[i-1]);
  }

  /** A second window that converges at once, with all columns kept, finds such a Wtil exactly if it is zero. */
  lemma NextWindowAtOnce(l: Setup, events: seq<Event>, i: nat)
    requires LegalRun(l, events) && 0 < i < |events| && l.mode == Restart && l.reused > 0
    requires events[i-1].Converges? && events[i-1].drop == 0 && events[i].Converges? && events[i].del == []
    requires IsExplicit(l, Run(l, events[..i-1]), events[i-1])
    ensures IsExplicit(l, Run(l, events[..i]), events[i]) <==> Vanishes(Run(l, events[..i]).Wtil, l.n)
  {
    var before := Run(l, events[..i-1]);
    RunAfter(l, events, i);
    NothingLacks(l, before, events[i-1]);
    KeepsColumns(l, before, events[i-1]);
    AtOnceIsExplicitIff(l, Run(l, events[..i]), events[i]);
  }
}
