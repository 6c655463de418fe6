/** Over every run of the multi-vector method in its default setting, in which no time window is reused and no
    relaxation forced: the first iteration of every later window works with a Wtil that the changed Jacobian has made
    outdated. */
module JacobianDefault {
  import opened Matrices
  import opened Jacobian
  import opened JacobianUpdates
  import opened JacobianRuns
  import opened JacobianOverRuns
  import opened JacobianFreshness

  /** The first iteration of a window after the first works with the columns of the window before. */
  predicate AtWindowStart(s: State) { s.first && !s.firstWindow }

  /** The multiple of Wtil that W - J V is: Wtil itself, except at the start of a later window, where each window that
      has converged since takes one away. */
  function Lag(s: State): real { if AtWindowStart(s) then 1.0 - s.stale as real else 1.0 }

  predicate IsMultiple(l: Setup, a: State, f: real) {
    |a.V| == |a.W| == |a.Wtil| && Explicit(l, a) == Scaled(a.Wtil, f)
  }

  predicate Lagging(l: Setup, s: State) {
    && IsMultiple(l, s, Lag(s)) && (AtWindowStart(s) ==> s.stale >= 1)
    && (s.reset ==> !s.firstWindow && if s.first then |s.V| <= 1 else s.V == [])
    && (s.first && s.firstWindow ==> s.V == [])
    && (l.mode == Efficient && s.first ==> !s.reset)
  }

  predicate Default(l: Setup) { l.maxColumns > 0 && l.mode != AlwaysBuild && l.reused == 0 && !l.force }

  lemma {:induction false} RemoveAllMultiple(l: Setup, s: State, del: seq<nat>, f: real)
    requires Shaped(l, s) && l.mode != AlwaysBuild && LeavesOne(del, |s.V|) && (s.reset ==> del == [])
    requires IsMultiple(l, s, f)
    ensures IsMultiple(l, RemoveAll(l, s, del), f)
    decreases |del|
  {
    if del != [] {
      var k := del[|del|-1];
      RemoveShaped(l, s, k);
      RemoveExplicit(l, s, k);
      ScaledRemoved(s.Wtil, f, k);
      RemoveAllMultiple(l, Remove(l, s, k), del[..|del|-1], f);
    }
  }

  lemma GrownMultiple(l: Setup, s: State, e: Event)
    requires Shaped(l, s) && Lagging(l, s) && Legal(l, s, e) && Default(l)
    ensures Shaped(l, Grown(l, s, e)) && IsMultiple(l, Grown(l, s, e), Lag(s))
    ensures s.reset ==> |Grown(l, s, e).V| <= 1
  {
    if !s.first {
      ScaledOnce(s.Wtil);
      AddShaped(l, s, e.v, e.w);
      AddExplicit(l, s, e.v, e.w);
      ScaledOnce(Grown(l, s, e).Wtil);
    }
  }

  lemma SystemMultiple(l: Setup, s: State, e: Event)
    requires Shaped(l, s) && Lagging(l, s) && Legal(l, s, e) && Default(l)
    ensures var a := System(l, s, e);
            && Shaped(l, a) && IsMultiple(l, a, Lag(s)) && (a.reset ==> |a.V| <= 1)
            && a == s.(V := a.V, W := a.W, Wtil := a.Wtil)
  {
    GrownMultiple(l, s, e);
    RemoveAllShaped(l, Grown(l, s, e), Filtered(l, s, e));
    RemoveAllMultiple(l, Grown(l, s, e), Filtered(l, s, e), Lag(s));
  }

  // ----- one event -----

  /** Whether the Wtil at hand is used as it is, and so makes the step or the stored Jacobian explicit only if it is
      zero. */
  predicate UsesOutdated(l: Setup, s: State, e: Event) {
    AtWindowStart(s) && !(e.Iterate? && s.reset)
  }

  lemma MultipleIsExplicit(l: Setup, a: State, f: real)
    requires Shaped(l, a) && IsMultiple(l, a, f)
    ensures f == 1.0 ==> a.Wtil == Explicit(l, a)
    ensures f <= 0.0 ==> (a.Wtil == Explicit(l, a) <==> Vanishes(a.Wtil, l.n))
  {
    ScaledOnce(a.Wtil);
    if f <= 0.0 { OwnMultiple(a.Wtil, f, l.n); }
  }

  lemma LaggingIsExplicitIff(l: Setup, s: State, e: Event)
    requires Shaped(l, s) && Lagging(l, s) && Legal(l, s, e) && Default(l)
    ensures IsExplicit(l, s, e) <==> !UsesOutdated(l, s, e) || Vanishes(System(l, s, e).Wtil, l.n)
  {
    var a := System(l, s, e);
    SystemMultiple(l, s, e);
    MultipleIsExplicit(l, a, Lag(s));
    if e.Converges? {
      StoredExplicitIff(l, a, e.Z);
    } else if !Relaxes(l, s) {
      StepExplicitIff(l, a, e.Z);
    }
  }

  // ----- what every event keeps -----

  lemma NoColumns(l: Setup, t: State, f: real)
    requires t.V == t.W == t.Wtil == []
    ensures IsMultiple(l, t, f)
  {
    assert Explicit(l, t) == [] && Scaled(t.Wtil, f) == [];
  }

  lemma IterateLags(l: Setup, s: State, e: Event)
    requires Shaped(l, s) && Lagging(l, s) && Legal(l, s, e) && Default(l) && e.Iterate?
    ensures |System(l, s, e).V| == |System(l, s, e).W| && Lagging(l, After(l, s, e))
  {
    var a := System(l, s, e);
    SystemMultiple(l, s, e);
    var t := After(l, s, e);
    if s.first {
      NoColumns(l, t, 1.0);
    } else {
      MultipleIsExplicit(l, a, 1.0);
      ScaledOnce(a.Wtil);
    }
  }

  lemma StoreLags(l: Setup, s: State, a: State, Z: Matrix)
    requires Default(l) && Shaped(l, a) && IsMultiple(l, a, Lag(s)) && |Z| == |a.V| && LeftInverseOf(Z, a.V, l.p)
    requires a.stale == s.stale && a.reset == s.reset && (AtWindowStart(s) ==> s.stale >= 1)
    requires l.mode == Efficient && s.first ==> !s.reset
    ensures var t := Store(l, a, Z);
            t.stale >= 1 && t.V == a.V && t.W == a.W && t.Wtil == a.Wtil && IsMultiple(l, t, 1.0 - t.stale as real)
  {
    var t := Store(l, a, Z);
    MultipleIsExplicit(l, a, Lag(s));
    StoresUpdated(l, a, Z);
    var f := if a.Wtil == Explicit(l, a) then 1.0 else Lag(s);
    ScaledOnce(a.Wtil);
    assert Pushed(l, a) == a.Wtil;
    LacksOneLess(Previous(l, a), Previous(l, t), l.p, l.n, a.V, a.W, a.Wtil, Z, f);
  }

  lemma ConvergesLags(l: Setup, s: State, e: Event)
    requires Shaped(l, s) && Lagging(l, s) && Legal(l, s, e) && Default(l) && e.Converges?
    ensures |System(l, s, e).V| == |System(l, s, e).W| && Lagging(l, After(l, s, e))
  {
    var a := System(l, s, e);
    SystemMultiple(l, s, e);
    StoreLags(l, s, a, e.Z);
    if s.first && s.firstWindow { NoColumns(l, After(l, s, e), 1.0); }
  }

  lemma {:induction false} RunLags(l: Setup, events: seq<Event>)
    requires LegalRun(l, events) && Default(l)
    ensures Shaped(l, Run(l, events)) && Lagging(l, Run(l, events))
    decreases |events|
  {
    RunShaped(l, events);
    if events == [] {
      NoColumns(l, Initial(l), 1.0);
    } else {
      var n := |events| - 1;
      var s, e := Run(l, events[..n]), events[n];
      PrefixIsLegal(l, events, n);
      RunLags(l, events[..n]);
      if e.Iterate? { IterateLags(l, s, e); } else { ConvergesLags(l, s, e); }
    }
  }

  // ----- over every run -----

  /** In the default setting everything is explicit except at the start of a later window, where a step or a stored
      Jacobian that takes Wtil as it is is explicit exactly if Wtil is zero. */
  lemma DefaultIsExplicitIff(l: Setup, events: seq<Event>, i: nat)
    requires LegalRun(l, events) && i < |events| && Default(l)
    ensures var s, e := Run(l, events[..i]), events[i];
            && (IsExplicit(l, s, e) <==> !UsesOutdated(l, s, e) || Vanishes(System(l, s, e).Wtil, l.n))
            && (l.mode == Efficient ==> (UsesOutdated(l, s, e) <==> AtWindowStart(s)))
  {
    PrefixIsLegal(l, events, i);
    RunLags(l, events[..i]);
    LaggingIsExplicitIff(l, Run(l, events[..i]), events[i]);
  }
}
