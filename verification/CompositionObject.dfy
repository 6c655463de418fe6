/** The composed coupling scheme as an object, proved against the steps of its specification. */
module CompositionObject {
  import opened Scheme
  import opened Composition

  class CompositionalCouplingScheme {
    var implicitScheme: Sub
    var explicitSchemes: seq<Sub>
    var explicitOnHold: bool
    var activeSchemes: seq<Which>

    ghost function View(): State
      reads this
    {
      State(implicitScheme, explicitSchemes, explicitOnHold, activeSchemes)
    }

    constructor (impl: Sub, expl: seq<Sub>)
      ensures View() == State(impl, expl, false, Active(false, |expl|))
    {
      implicitScheme, explicitSchemes, explicitOnHold := impl, expl, false;
      activeSchemes := [Implicit] + seq(|expl|, i requires 0 <= i < |expl| => Explicit(i));
    }

    method UpdateActiveSchemes()
      modifies this`activeSchemes
      ensures activeSchemes == Active(explicitOnHold, |explicitSchemes|)
    {
      activeSchemes := [Implicit];
      if explicitOnHold {
        return;
      }
      for i := 0 to |explicitSchemes|
        invariant activeSchemes == [Implicit] + AllExplicit(i)
      {
        activeSchemes := activeSchemes + [Explicit(i)];
      }
    }

    method AddComputedTime(dt: int) returns (atWindowEnd: bool)
      modifies this
      ensures View() == Composition.AddComputedTime(old(View()), dt)
      ensures atWindowEnd <==>
                || old(implicitScheme).AddTime(dt).AtEnd()
                || (!old(explicitOnHold) && exists i :: 0 <= i < |explicitSchemes| && explicitSchemes[i].AtEnd())
    {
      ghost var s := View();
      implicitScheme := implicitScheme.AddTime(dt);
      var implicitAtWindowEnd := implicitScheme.AtEnd();
      if explicitOnHold {
        return implicitAtWindowEnd;
      }
      var explicitAtWindowEnd := false;
      for i := 0 to |explicitSchemes|
        invariant implicitScheme == s.impl.AddTime(dt)
        invariant |explicitSchemes| == |s.expl| && View() == s.(impl := implicitScheme, expl := explicitSchemes)
        invariant forall k :: 0 <= k < i ==> explicitSchemes[k] == s.expl[k].AddTime(dt)
        invariant forall k :: i <= k < |s.expl| ==> explicitSchemes[k] == s.expl[k]
        invariant explicitAtWindowEnd <==> exists k :: 0 <= k < i && explicitSchemes[k].AtEnd()
      {
        var moved := explicitSchemes[i].AddTime(dt);
        explicitSchemes := explicitSchemes[i := moved];
        explicitAtWindowEnd := explicitAtWindowEnd || moved.AtEnd();
      }
      assert explicitSchemes == seq(|s.expl|, i requires 0 <= i < |s.expl| => s.expl[i].AddTime(dt));
      if implicitAtWindowEnd {
        explicitOnHold := true;
        UpdateActiveSchemes();
      }
      return implicitAtWindowEnd || explicitAtWindowEnd;
    }

    method FirstExchange()
      modifies this`implicitScheme, this`explicitSchemes
      ensures View() == Composition.FirstExchange(old(View()))
    {
      implicitScheme := implicitScheme.First();
      if explicitOnHold {
        return;
      }
      FirstExchangeOfExplicit();
    }

    method FirstExchangeOfExplicit()
      modifies this`explicitSchemes
      ensures explicitSchemes
              == seq(|old(explicitSchemes)|,
                     i requires 0 <= i < |old(explicitSchemes)| => old(explicitSchemes)[i].First())
    {
      for i := 0 to |explicitSchemes|
        invariant |explicitSchemes| == |old(explicitSchemes)|
        invariant forall k :: 0 <= k < |explicitSchemes| ==>
                    explicitSchemes[k] == if k < i then old(explicitSchemes)[k].First() else old(explicitSchemes)[k]
      {
        explicitSchemes := explicitSchemes[i := explicitSchemes[i].First()];
      }
    }

    method SecondExchangeOfExplicit()
      modifies this`explicitSchemes
      ensures explicitSchemes
              == seq(|old(explicitSchemes)|,
                     i requires 0 <= i < |old(explicitSchemes)| => old(explicitSchemes)[i].Second(true))
    {
      for i := 0 to |explicitSchemes|
        invariant |explicitSchemes| == |old(explicitSchemes)|
        invariant forall k :: 0 <= k < |explicitSchemes| ==>
                    explicitSchemes[k]
                    == if k < i then old(explicitSchemes)[k].Second(true) else old(explicitSchemes)[k]
      {
        explicitSchemes := explicitSchemes[i := explicitSchemes[i].Second(true)];
      }
    }

    /** `converged` is what the implicit scheme finds out in its exchange. */
    method SecondExchange(converged: bool)
      requires explicitSchemes != []
      modifies this
      ensures View() == Composition.SecondExchange(old(View()), converged)
    {
      implicitScheme := implicitScheme.Second(converged);
      var iterating := implicitScheme.clock.Time() < explicitSchemes[0].clock.Time();
      if iterating {
        return;
      }
      FirstExchangeOfExplicit();
      SecondExchangeOfExplicit();
      explicitOnHold := false;
      UpdateActiveSchemes();
    }

    method IsTimeWindowComplete() returns (complete: bool)
      requires ValidActive(View())
      ensures complete == SomeComplete(View())
    {
      complete := false;
      for i := 0 to |activeSchemes|
        invariant complete <==> exists k :: 0 <= k < i && SchemeOf(View(), activeSchemes[k]).complete
      {
        var sub := if activeSchemes[i].Implicit? then implicitScheme else explicitSchemes[activeSchemes[i].index];
        complete := complete || sub.complete;
      }
    }

    /** The smallest step that any active scheme allows. */
    method GetNextTimeStepMaxSize() returns (m: int)
      requires ValidActive(View()) && |activeSchemes| > 0
      ensures m == SmallestLimit(View(), |activeSchemes|)
      ensures forall k :: 0 <= k < |activeSchemes| ==> m <= SchemeOf(View(), activeSchemes[k]).NextTimeStepMaxSize()
      ensures exists k :: 0 <= k < |activeSchemes| && m == SchemeOf(View(), activeSchemes[k]).NextTimeStepMaxSize()
    {
      ghost var which := SmallestIsAttained(View(), |activeSchemes|);
      forall k | 0 <= k < |activeSchemes|
        ensures SmallestLimit(View(), |activeSchemes|) <= SchemeOf(View(), activeSchemes[k]).NextTimeStepMaxSize()
      {
        SmallestIsBelow(View(), |activeSchemes|, k);
      }
      m := 0;
      for i := 0 to |activeSchemes|
        invariant i > 0 ==> m == SmallestLimit(View(), i)
      {
        var sub := if activeSchemes[i].Implicit? then implicitScheme else explicitSchemes[activeSchemes[i].index];
        var size := sub.NextTimeStepMaxSize();
        m := if i == 0 then size else Min(m, size);
      }
    }
  }
}
