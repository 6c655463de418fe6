/** One implicit coupling scheme composed with explicit ones.  While the implicit scheme iterates, the
    explicit ones are on hold.

    Of a sub-scheme only its clock, its counters and the number of its data exchanges matter here. */
module Composition {
  import opened Scheme

  datatype Sub = Sub(clock: Clock, size: int, maxTime: int, maxWindows: int, windows: int, complete: bool,
                     firsts: nat, seconds: nat) {
    predicate Ongoing() { (maxWindows >= windows || maxWindows == UNDEFINED) && !clock.ReachedEnd(maxTime) }

    predicate AtEnd() { clock.ReachedEndOfWindow(maxTime, size) }

    function NextTimeStepMaxSize(): int { if Ongoing() then clock.UntilWindowEnd(maxTime, size) else 0 }

    function AddTime(dt: int): Sub { this.(clock := clock.ProgressBy(dt)) }

    /** `firstExchange`: data is exchanged at the end of a window only. */
    function First(): Sub {
      var s := this.(complete := false);
      if AtEnd() then s.(windows := windows + 1, firsts := firsts + 1) else s
    }

    function Second(converged: bool): Sub {
      if !AtEnd() then this
      else if converged then this.(complete := true, clock := clock.CompleteTimeWindow(size), seconds := seconds + 1)
      else this.(windows := windows - 1, clock := clock.ResetProgress(), seconds := seconds + 1)
    }
  }

  function StartOf(size: int, maxTime: int, maxWindows: int): Sub {
    Sub(Clock(0, 0), size, maxTime, maxWindows, 1, false, 0, 0)
  }

  datatype Which = Implicit | Explicit(index: nat)

  datatype State = State(impl: Sub, expl: seq<Sub>, onHold: bool, active: seq<Which>)

  function AllExplicit(n: nat): seq<Which> { seq(n, i requires 0 <= i < n => Explicit(i)) }

  /** `updateActiveSchemes` */
  function Active(onHold: bool, n: nat): seq<Which> { [Implicit] + if onHold then [] else AllExplicit(n) }

  function SchemeOf(s: State, w: Which): Sub
    requires w.Explicit? ==> w.index < |s.expl|
  {
    if w.Implicit? then s.impl else s.expl[w.index]
  }

  predicate ValidActive(s: State) {
    forall i :: 0 <= i < |s.active| ==> (s.active[i].Explicit? ==> s.active[i].index < |s.expl|)
  }

  /** The smallest of the maximal steps of the active schemes. */
  function SmallestLimit(s: State, n: nat): int
    requires ValidActive(s) && 0 < n <= |s.active|
  {
    var last := SchemeOf(s, s.active[n - 1]).NextTimeStepMaxSize();
    if n == 1 then last else Min(SmallestLimit(s, n - 1), last)
  }

  // ----- one step of the solver -----

  function AddComputedTime(s: State, dt: int): State {
    var impl := s.impl.AddTime(dt);
    if s.onHold then s.(impl := impl)
    else
      var t := s.(impl := impl, expl := seq(|s.expl|, i requires 0 <= i < |s.expl| => s.expl[i].AddTime(dt)));
      if impl.AtEnd() then t.(onHold := true, active := Active(true, |s.expl|)) else t
  }

  function FirstExchange(s: State): State {
    var t := s.(impl := s.impl.First());
    if s.onHold then t else t.(expl := seq(|s.expl|, i requires 0 <= i < |s.expl| => s.expl[i].First()))
  }

  predicate Iterating(s: State)
    requires s.expl != []
  {
    s.impl.clock.Time() < s.expl[0].clock.Time()
  }

  function SecondExchange(s: State, converged: bool): State
    requires s.expl != []
  {
    var t := s.(impl := s.impl.Second(converged));
    if Iterating(t) then t
    else t.(expl := seq(|s.expl|, i requires 0 <= i < |s.expl| => s.expl[i].First().Second(true)),
            onHold := false, active := Active(false, |s.expl|))
  }

  function Step(s: State, dt: int, converged: bool): State
    requires s.expl != []
  {
    SecondExchange(FirstExchange(AddComputedTime(s, dt)), converged)
  }

  // ----- compatible window sizes -----

  /** Explicit window sizes are `factors[i]` times the implicit one, and all schemes end together. */
  datatype Setup = Setup(size: int, factors: seq<nat>, maxTime: int, maxWindows: int, explicitWindows: seq<int>)

  predicate Compatible(c: Setup) {
    && c.size > 0 && c.factors != [] && |c.factors| == |c.explicitWindows| && (c.maxTime == UNDEFINED || c.maxTime > 0)
    && forall i :: 0 <= i < |c.factors| ==>
         && c.factors[i] > 0
         && if c.maxWindows == UNDEFINED then c.explicitWindows[i] == UNDEFINED
            else c.explicitWindows[i] > 0 && c.maxWindows == c.explicitWindows[i] * c.factors[i]
  }

  function Initial(c: Setup): State
    requires |c.factors| == |c.explicitWindows|
  {
    State(StartOf(c.size, c.maxTime, c.maxWindows),
          seq(|c.factors|, i requires 0 <= i < |c.factors| =>
                StartOf(c.factors[i] * c.size, c.maxTime, c.explicitWindows[i])),
          false, Active(false, |c.factors|))
  }

  predicate Finished(s: Sub) { s.maxTime != UNDEFINED && s.clock.start == s.maxTime }

  /** Length of the current window, which the end of the simulation may cut off. */
  function Length(s: Sub): int { if s.maxTime == UNDEFINED then s.size else Min(s.size, s.maxTime - s.clock.start) }

  predicate ImplicitInv(c: Setup, s: Sub) {
    && s.size == c.size && s.maxTime == c.maxTime && s.maxWindows == c.maxWindows && s.windows >= 1
    && if Finished(s) then s.clock.progress == 0
       else s.clock.start == (s.windows - 1) * c.size && (c.maxTime == UNDEFINED || s.clock.start < c.maxTime)
            && 0 <= s.clock.progress < Length(s)
  }

  /** An explicit scheme whose clock shows `time`; it has exchanged data once per window that is over. */
  predicate ExplicitInv(c: Setup, i: nat, impl: Sub, e: Sub, time: int)
    requires i < |c.factors| == |c.explicitWindows|
  {
    var m := c.factors[i];
    && e.size == m * c.size && e.maxTime == c.maxTime && e.maxWindows == c.explicitWindows[i]
    && e.windows >= 1 && e.firsts == e.seconds == e.windows - 1
    && e.clock.Time() == time
    && if Finished(impl)
       then e.clock == Clock(c.maxTime, 0) && (e.windows - 2) * e.size < c.maxTime <= (e.windows - 1) * e.size
       else e.clock.start == (e.windows - 1) * e.size && (e.windows - 1) * m <= impl.windows - 1 < e.windows * m
  }

  /** The end of the implicit window while the explicit schemes are on hold, otherwise its time. */
  function ClockOf(s: State): int { if s.onHold then s.impl.clock.start + Length(s.impl) else s.impl.clock.Time() }

  /** At every step boundary: on hold means that the explicit schemes wait at the end of the current
      implicit window; otherwise all clocks agree. */
  predicate Inv(c: Setup, s: State) {
    && Compatible(c) && |s.expl| == |c.factors| && s.active == Active(s.onHold, |s.expl|)
    && ImplicitInv(c, s.impl) && (s.onHold ==> !Finished(s.impl))
    && forall i :: 0 <= i < |s.expl| ==>
         ExplicitInv(c, i, s.impl, s.expl[i], ClockOf(s))
  }

  // ----- arithmetic of the windows -----

  /** The explicit window ends a positive number of implicit windows after the start of the implicit window. */
  lemma WindowsNest(d: int, m: nat, c: int, e: int)
    requires d > 0 && e * m <= c < (e + 1) * m
    ensures e * (m * d) <= c * d && c * d + d <= e * (m * d) + m * d
    ensures c * d + d == e * (m * d) + m * d <==> c + 1 == (e + 1) * m
  {
    var left := (e + 1) * m - c;
    assert left * d == e * (m * d) + m * d - c * d;
    assert (c - e * m) * d == c * d - e * (m * d);
    assert left >= 1 && (left > 1 ==> left * d > d);
  }

  lemma NextMultiple(c: int, e: int, m: nat)
    requires e * m <= c < (e + 1) * m
    ensures c + 1 != (e + 1) * m ==> e * m <= c + 1 < (e + 1) * m
    ensures c + 1 == (e + 1) * m && m > 0 ==> (e + 1) * m <= c + 1 < (e + 2) * m
  {
  }

  /** An explicit scheme is at the end of its window only if the implicit one is. */
  lemma ExplicitEnds(c: Setup, i: nat, impl: Sub, e: Sub, time: int)
    requires Compatible(c) && i < |c.factors| && ImplicitInv(c, impl) && !Finished(impl)
    requires ExplicitInv(c, i, impl, e, e.clock.Time())
    requires impl.clock.start <= time <= impl.clock.start + Length(impl)
    ensures var ends := e.(clock := Clock(e.clock.start, time - e.clock.start)).AtEnd();
            && (ends ==> time == impl.clock.start + Length(impl))
            && (time == impl.clock.start + Length(impl) ==>
                  (ends <==> time == c.maxTime || impl.windows == e.windows * c.factors[i]))
  {
    WindowsNest(c.size, c.factors[i], impl.windows - 1, e.windows - 1);
  }

  // ----- legal steps -----

  lemma {:induction false} SmallestIsBelow(s: State, n: nat, k: nat)
    requires ValidActive(s) && k < n <= |s.active|
    ensures SmallestLimit(s, n) <= SchemeOf(s, s.active[k]).NextTimeStepMaxSize()
  {
    if k < n - 1 { SmallestIsBelow(s, n - 1, k); }
  }

  lemma {:induction false} SmallestIsAttained(s: State, n: nat) returns (k: nat)
    requires ValidActive(s) && 0 < n <= |s.active|
    ensures k < n && SmallestLimit(s, n) == SchemeOf(s, s.active[k]).NextTimeStepMaxSize()
  {
    var last := SchemeOf(s, s.active[n - 1]).NextTimeStepMaxSize();
    if n == 1 || last < SmallestLimit(s, n - 1) {
      k := n - 1;
    } else {
      k := SmallestIsAttained(s, n - 1);
    }
  }

  lemma InvActive(c: Setup, s: State)
    requires Inv(c, s)
    ensures ValidActive(s) && |s.active| > 0
  {
  }

  predicate LegalStep(s: State, dt: int)
    requires ValidActive(s) && |s.active| > 0
  {
    s.impl.Ongoing() && 0 < dt <= SmallestLimit(s, |s.active|)
  }

  lemma Cancels(a: int, b: int, m: nat)
    ensures a * m < b * m ==> a < b
  {
    if a >= b { assert (a - b) * m >= 0; }
  }

  /** While the implicit scheme goes on the explicit ones do too. */
  lemma ExplicitOngoing(c: Setup, i: nat, impl: Sub, e: Sub, time: int)
    requires Compatible(c) && i < |c.factors| && ImplicitInv(c, impl) && impl.Ongoing()
    requires ExplicitInv(c, i, impl, e, time)
    requires time == impl.clock.Time()
    ensures e.Ongoing()
  {
    assert !Finished(impl);
    if c.maxWindows != UNDEFINED {
      Cancels(e.windows - 1, c.explicitWindows[i], c.factors[i]);
    }
  }

  /** A step that the composed scheme allows is legal for every scheme that receives it. */
  lemma LegalForAll(c: Setup, s: State, dt: int)
    requires Inv(c, s) && ValidActive(s) && |s.active| > 0 && LegalStep(s, dt)
    ensures s.impl.Ongoing() && dt <= s.impl.NextTimeStepMaxSize()
    ensures !s.onHold ==> forall i :: 0 <= i < |s.expl| ==> s.expl[i].Ongoing() && dt <= s.expl[i].NextTimeStepMaxSize()
  {
    SmallestIsBelow(s, |s.active|, 0);
    if !s.onHold {
      forall i | 0 <= i < |s.expl| ensures s.expl[i].Ongoing() && dt <= s.expl[i].NextTimeStepMaxSize() {
        SmallestIsBelow(s, |s.active|, i + 1);
        ExplicitOngoing(c, i, s.impl, s.expl[i], s.impl.clock.Time());
      }
    }
  }

  /** An explicit scheme never allows less than the implicit one. */
  lemma ExplicitAllowsMore(c: Setup, i: nat, impl: Sub, e: Sub)
    requires Compatible(c) && i < |c.factors| && ImplicitInv(c, impl) && impl.Ongoing()
    requires ExplicitInv(c, i, impl, e, impl.clock.Time())
    ensures e.NextTimeStepMaxSize() >= impl.NextTimeStepMaxSize() == Length(impl) - impl.clock.progress > 0
  {
    ExplicitOngoing(c, i, impl, e, impl.clock.Time());
    WindowsNest(c.size, c.factors[i], impl.windows - 1, e.windows - 1);
  }

  /** The composed scheme allows exactly what is left of the implicit window. */
  lemma LimitIsRestOfWindow(c: Setup, s: State)
    requires Inv(c, s) && ValidActive(s) && |s.active| > 0 && s.impl.Ongoing()
    ensures SmallestLimit(s, |s.active|) == Length(s.impl) - s.impl.clock.progress
    ensures forall dt: int :: LegalStep(s, dt) <==> 0 < dt <= Length(s.impl) - s.impl.clock.progress
  {
    SmallestIsBelow(s, |s.active|, 0);
    var k := SmallestIsAttained(s, |s.active|);
    if k > 0 { ExplicitAllowsMore(c, k - 1, s.impl, s.expl[k - 1]); }
  }

  // ----- what a step does to each scheme -----

  /** The implicit scheme after a step. */
  function ImplicitStep(s: Sub, dt: int, converged: bool): Sub { s.AddTime(dt).First().Second(converged) }

  /** Where the implicit clock stands after a legal step. */
  lemma ImplicitAdvances(c: Setup, s: Sub, dt: int)
    requires Compatible(c) && ImplicitInv(c, s) && s.Ongoing() && 0 < dt <= s.NextTimeStepMaxSize()
    ensures !Finished(s) && s.clock.Time() + dt <= s.clock.start + Length(s)
    ensures s.AddTime(dt).AtEnd() <==> s.clock.Time() + dt == s.clock.start + Length(s)
  {
  }

  lemma ImplicitCompletes(c: Setup, s: Sub, dt: int)
    requires Compatible(c) && ImplicitInv(c, s) && s.Ongoing() && 0 < dt <= s.NextTimeStepMaxSize()
    requires s.AddTime(dt).AtEnd()
    ensures var t := ImplicitStep(s, dt, true);
            ImplicitInv(c, t) && t.clock == Clock(s.clock.start + Length(s), 0) && t.windows == s.windows + 1
  {
    ImplicitAdvances(c, s, dt);
    OneMore(s.windows - 1, c.size);
  }

  lemma ImplicitKeeps(c: Setup, s: Sub, dt: int, converged: bool)
    requires Compatible(c) && ImplicitInv(c, s) && s.Ongoing() && 0 < dt <= s.NextTimeStepMaxSize()
    ensures !Finished(s) && s.clock.Time() + dt <= s.clock.start + Length(s)
    ensures s.AddTime(dt).AtEnd() <==> s.clock.Time() + dt == s.clock.start + Length(s)
    ensures var t := ImplicitStep(s, dt, converged);
            && ImplicitInv(c, t)
            && (!s.AddTime(dt).AtEnd() ==> t == s.AddTime(dt).(complete := false))
            && (s.AddTime(dt).AtEnd() && !converged ==> t == s.(clock := s.clock.ResetProgress(), complete := false,
                                                             firsts := s.firsts + 1, seconds := s.seconds + 1))
            && (s.AddTime(dt).AtEnd() && converged ==>
                  t.clock == Clock(s.clock.start + Length(s), 0) && t.windows == s.windows + 1)
            && (t.complete <==> s.AddTime(dt).AtEnd() && converged)
  {
    ImplicitAdvances(c, s, dt);
    if s.AddTime(dt).AtEnd() && converged { ImplicitCompletes(c, s, dt); }
  }

  lemma OneMore(a: int, d: int)
    ensures (a + 1) * d == a * d + d
  {
  }

  /** An explicit scheme that shows the end of the implicit window ends its own window there, or has to wait
      for a later implicit window. */
  lemma ExplicitSecond(c: Setup, i: nat, impl: Sub, e: Sub)
    requires Compatible(c) && i < |c.factors| && ImplicitInv(c, impl) && !Finished(impl)
    requires ExplicitInv(c, i, impl, e, impl.clock.start + Length(impl))
    ensures var end, f := impl.clock.start + Length(impl), e.First().Second(true);
            && f.size == e.size && f.maxTime == e.maxTime && f.maxWindows == e.maxWindows
            && if end == c.maxTime || impl.windows == e.windows * c.factors[i]
               then f.clock == Clock(end, 0) && f.windows == f.firsts + 1 == f.seconds + 1 == e.windows + 1
               else f == e.(complete := false)
  {
    ExplicitEnds(c, i, impl, e, impl.clock.start + Length(impl));
    WindowsNest(c.size, c.factors[i], impl.windows - 1, e.windows - 1);
    assert e.clock == Clock(e.clock.start, impl.clock.start + Length(impl) - e.clock.start);
  }

  /** All schemes that exchange data at the end of an implicit window that has converged. */
  predicate Converging(c: Setup, i: nat, impl: Sub, e: Sub, next: Sub) {
    && Compatible(c) && i < |c.factors| && ImplicitInv(c, impl) && !Finished(impl)
    && ExplicitInv(c, i, impl, e, impl.clock.start + Length(impl))
    && ImplicitInv(c, next) && next.clock == Clock(impl.clock.start + Length(impl), 0)
    && next.windows == impl.windows + 1
  }

  lemma CatchesUpAtTheEnd(c: Setup, i: nat, impl: Sub, e: Sub, next: Sub)
    requires Converging(c, i, impl, e, next) && next.clock.start == c.maxTime
    ensures ExplicitInv(c, i, next, e.First().Second(true), next.clock.Time())
  {
    ExplicitSecond(c, i, impl, e);
    WindowsNest(c.size, c.factors[i], impl.windows - 1, e.windows - 1);
    OneMore(e.windows - 1, e.size);
  }

  lemma CatchesUpBeforeTheEnd(c: Setup, i: nat, impl: Sub, e: Sub, next: Sub)
    requires Converging(c, i, impl, e, next) && next.clock.start != c.maxTime
    ensures ExplicitInv(c, i, next, e.First().Second(true), next.clock.Time())
  {
    ExplicitSecond(c, i, impl, e);
    NextMultiple(impl.windows - 1, e.windows - 1, c.factors[i]);
    WindowsNest(c.size, c.factors[i], impl.windows - 1, e.windows - 1);
    OneMore(e.windows - 1, e.size);
  }

  lemma ExplicitCatchesUp(c: Setup, i: nat, impl: Sub, e: Sub, next: Sub)
    requires Converging(c, i, impl, e, next)
    ensures ExplicitInv(c, i, next, e.First().Second(true), next.clock.Time())
  {
    if next.clock.start == c.maxTime { CatchesUpAtTheEnd(c, i, impl, e, next); }
    else { CatchesUpBeforeTheEnd(c, i, impl, e, next); }
  }

  /** In the middle of an implicit window an explicit scheme exchanges nothing, however often it is asked to. */
  lemma ExplicitMoves(c: Setup, i: nat, impl: Sub, e: Sub, dt: int)
    requires Compatible(c) && i < |c.factors| && ImplicitInv(c, impl) && !Finished(impl) && dt > 0
    requires ExplicitInv(c, i, impl, e, impl.clock.Time()) && impl.clock.Time() + dt <= impl.clock.start + Length(impl)
    ensures ExplicitInv(c, i, impl, e.AddTime(dt), impl.clock.Time() + dt)
    ensures impl.clock.Time() + dt < impl.clock.start + Length(impl) ==>
              e.AddTime(dt).First().First().Second(true) == e.AddTime(dt).(complete := false)
  {
    ExplicitEnds(c, i, impl, e, impl.clock.Time() + dt);
    assert e.AddTime(dt) == e.(clock := Clock(e.clock.start, impl.clock.Time() + dt - e.clock.start));
  }

  // ----- every step keeps the clocks in order -----

  lemma MiddleStepOnHold(c: Setup, s: State, dt: int, converged: bool)
    requires Inv(c, s) && ValidActive(s) && |s.active| > 0 && |s.expl| > 0 && LegalStep(s, dt)
    requires !s.impl.AddTime(dt).AtEnd()
    requires s.onHold
    ensures Step(s, dt, converged) == s.(impl := s.impl.AddTime(dt).(complete := false))
    ensures Inv(c, Step(s, dt, converged))
  {
    LegalForAll(c, s, dt);
    ImplicitKeeps(c, s.impl, dt, converged);
    assert ExplicitInv(c, 0, s.impl, s.expl[0], s.impl.clock.start + Length(s.impl));
  }

  lemma MiddleStepTogether(c: Setup, s: State, dt: int, converged: bool)
    requires Inv(c, s) && ValidActive(s) && |s.active| > 0 && |s.expl| > 0 && LegalStep(s, dt)
    requires !s.impl.AddTime(dt).AtEnd()
    requires !s.onHold
    ensures Step(s, dt, converged) ==
            s.(impl := s.impl.AddTime(dt).(complete := false),
               expl := seq(|s.expl|, i requires 0 <= i < |s.expl| => s.expl[i].AddTime(dt).(complete := false)))
    ensures Inv(c, Step(s, dt, converged))
  {
    LegalForAll(c, s, dt);
    ImplicitKeeps(c, s.impl, dt, converged);
    forall i | 0 <= i < |s.expl|
      ensures ExplicitInv(c, i, s.impl, s.expl[i].AddTime(dt), s.impl.clock.Time() + dt)
      ensures s.expl[i].AddTime(dt).First().First().Second(true) == s.expl[i].AddTime(dt).(complete := false)
    {
      ExplicitMoves(c, i, s.impl, s.expl[i], dt);
    }
    assert FirstExchange(AddComputedTime(s, dt)).expl[0].clock.Time() == s.impl.clock.Time() + dt;
  }

  lemma EndStep(c: Setup, s: State, dt: int, converged: bool)
    requires Inv(c, s) && ValidActive(s) && |s.active| > 0 && |s.expl| > 0 && LegalStep(s, dt)
    requires s.impl.AddTime(dt).AtEnd()
    ensures Inv(c, Step(s, dt, converged)) && Step(s, dt, converged).onHold == !converged
  {
    LegalForAll(c, s, dt);
    ImplicitKeeps(c, s.impl, dt, converged);
    var t := FirstExchange(AddComputedTime(s, dt));
    var end := s.impl.clock.start + Length(s.impl);
    forall i | 0 <= i < |s.expl|
      ensures ExplicitInv(c, i, s.impl, t.expl[i], end)
    {
      if !s.onHold { ExplicitMoves(c, i, s.impl, s.expl[i], dt); }
    }
    assert t.expl[0].clock.Time() == end;
    var impl := t.impl.Second(converged);
    if converged {
      forall i | 0 <= i < |s.expl|
        ensures ExplicitInv(c, i, impl, t.expl[i].First().Second(true), impl.clock.Time())
      {
        ExplicitCatchesUp(c, i, s.impl, t.expl[i], impl);
      }
    }
  }

  lemma StepKeeps(c: Setup, s: State, dt: int, converged: bool)
    requires Inv(c, s) && ValidActive(s) && |s.active| > 0 && |s.expl| > 0 && LegalStep(s, dt)
    ensures Inv(c, Step(s, dt, converged))
    ensures Step(s, dt, converged).onHold == if s.impl.AddTime(dt).AtEnd() then !converged else s.onHold
  {
    if s.impl.AddTime(dt).AtEnd() { EndStep(c, s, dt, converged); }
    else if s.onHold { MiddleStepOnHold(c, s, dt, converged); }
    else { MiddleStepTogether(c, s, dt, converged); }
  }

  /** `isTimeWindowComplete` asks the active schemes. */
  predicate SomeComplete(s: State)
    requires ValidActive(s)
  {
    exists k :: 0 <= k < |s.active| && SchemeOf(s, s.active[k]).complete
  }

  /** A step completes a window exactly if it ends the implicit window and that converges. */
  lemma CompleteIff(c: Setup, s: State, dt: int, converged: bool)
    requires Inv(c, s) && ValidActive(s) && |s.active| > 0 && |s.expl| > 0 && LegalStep(s, dt)
    ensures ValidActive(Step(s, dt, converged))
    ensures SomeComplete(Step(s, dt, converged)) <==> s.impl.AddTime(dt).AtEnd() && converged
  {
    LegalForAll(c, s, dt);
    StepKeeps(c, s, dt, converged);
    ImplicitKeeps(c, s.impl, dt, converged);
    var t := Step(s, dt, converged);
    if t.impl.complete { assert SchemeOf(t, t.active[0]).complete; }
    if !s.impl.AddTime(dt).AtEnd() {
      if s.onHold { MiddleStepOnHold(c, s, dt, converged); } else { MiddleStepTogether(c, s, dt, converged); }
    }
  }

  /** The comparison of two clocks in `secondExchange` finds out whether the implicit scheme is iterating:
      it is true exactly if the explicit schemes are on hold and the window has not just converged. */
  lemma ClocksTellIterating(c: Setup, s: State, dt: int, converged: bool)
    requires Inv(c, s) && ValidActive(s) && |s.active| > 0 && |s.expl| > 0 && LegalStep(s, dt)
    ensures var t := FirstExchange(AddComputedTime(s, dt));
            Iterating(t.(impl := t.impl.Second(converged))) <==> t.onHold && !(s.impl.AddTime(dt).AtEnd() && converged)
  {
    LegalForAll(c, s, dt);
    ImplicitKeeps(c, s.impl, dt, converged);
    assert ExplicitInv(c, 0, s.impl, s.expl[0], ClockOf(s));
  }

  // ----- whole runs -----

  datatype Event = Event(dt: int, converged: bool)

  /** The state after some steps, or `None` if one of them was not legal. */
  datatype Reached = None | Some(s: State)

  function Run(c: Setup, events: seq<Event>): Reached
    requires |c.factors| == |c.explicitWindows| > 0
    decreases |events|
  {
    if events == [] then Some(Initial(c))
    else
      var r := Run(c, events[..|events|-1]);
      var e := events[|events|-1];
      if r.Some? && ValidActive(r.s) && |r.s.active| > 0 && |r.s.expl| > 0 && LegalStep(r.s, e.dt)
      then Some(Step(r.s, e.dt, e.converged)) else None
  }

  lemma {:induction false} RunKeeps(c: Setup, events: seq<Event>)
    requires Compatible(c)
    ensures Run(c, events).Some? ==> Inv(c, Run(c, events).s)
    decreases |events|
  {
    if events == [] {
      var s := Initial(c);
      forall i | 0 <= i < |s.expl| ensures ExplicitInv(c, i, s.impl, s.expl[i], 0) {
        assert s.expl[i].size == c.factors[i] * c.size;
      }
    } else {
      var before, e := events[..|events|-1], events[|events|-1];
      RunKeeps(c, before);
      var r := Run(c, before);
      if Run(c, events).Some? { StepKeeps(c, r.s, e.dt, e.converged); }
    }
  }

  /** Over every run: on hold means that every explicit scheme shows the end of the implicit window and that this
      is later than the implicit time; otherwise all clocks agree. */
  lemma ClocksAgree(c: Setup, events: seq<Event>, i: nat)
    requires Compatible(c) && Run(c, events).Some? && i < |Run(c, events).s.expl|
    ensures var s := Run(c, events).s;
            && (s.onHold ==> s.expl[i].clock.Time() == s.impl.clock.start + Length(s.impl) > s.impl.clock.Time())
            && (!s.onHold ==> s.expl[i].clock.Time() == s.impl.clock.Time())
  {
    RunKeeps(c, events);
    var s := Run(c, events).s;
    assert ExplicitInv(c, i, s.impl, s.expl[i], ClockOf(s));
  }

  lemma CountOfExchanges(c: Setup, i: nat, impl: Sub, e: Sub, time: int)
    requires Compatible(c) && i < |c.factors| && ImplicitInv(c, impl) && ExplicitInv(c, i, impl, e, time)
    ensures e.firsts == e.seconds && e.size == c.factors[i] * c.size
    ensures e.clock.start == if c.maxTime == UNDEFINED then e.firsts * e.size else Min(e.firsts * e.size, c.maxTime)
  {
    if !Finished(impl) { WindowsNest(c.size, c.factors[i], impl.windows - 1, e.windows - 1); }
  }

  /** Over every run an explicit scheme has made both exchanges once for each of its windows that is over:
      after `k` exchanges it starts at the end of its `k`-th window. */
  lemma ExchangesOncePerWindow(c: Setup, events: seq<Event>, i: nat)
    requires Compatible(c) && Run(c, events).Some? && i < |c.factors|
    ensures i < |Run(c, events).s.expl|
    ensures var e := Run(c, events).s.expl[i];
            && e.firsts == e.seconds && e.size == c.factors[i] * c.size
            && e.clock.start == if c.maxTime == UNDEFINED then e.firsts * e.size else Min(e.firsts * e.size, c.maxTime)
  {
    RunKeeps(c, events);
    var s := Run(c, events).s;
    CountOfExchanges(c, i, s.impl, s.expl[i], ClockOf(s));
  }

  lemma EndTogether(c: Setup, i: nat, impl: Sub, e: Sub)
    requires Compatible(c) && i < |c.factors| && ImplicitInv(c, impl) && ExplicitInv(c, i, impl, e, impl.clock.Time())
    ensures impl.Ongoing() <==> e.Ongoing()
  {
    if impl.Ongoing() {
      ExplicitOngoing(c, i, impl, e, impl.clock.Time());
    } else if !Finished(impl) {
      Cancels(c.explicitWindows[i], e.windows, c.factors[i]);
    }
  }

  /** After the end no further step is allowed. */
  lemma NoStepAfterTheEnd(c: Setup, s: State)
    requires Inv(c, s) && ValidActive(s) && |s.active| > 0 && !s.impl.Ongoing()
    ensures SmallestLimit(s, |s.active|) == 0
  {
    var k := SmallestIsAttained(s, |s.active|);
    if k > 0 { EndTogether(c, k - 1, s.impl, s.expl[k - 1]); }
  }

  /** Over every run all schemes end together, unless the explicit ones are on hold: after the last window or at the
      maximum time. */
  lemma SchemesEndTogether(c: Setup, events: seq<Event>, i: nat)
    requires Compatible(c) && Run(c, events).Some? && i < |Run(c, events).s.expl|
    ensures var s := Run(c, events).s;
            && (s.impl.Ongoing() <==> (c.maxWindows != UNDEFINED ==> s.impl.windows <= c.maxWindows)
                                      && (c.maxTime != UNDEFINED ==> s.impl.clock.Time() < c.maxTime))
            && (!s.onHold ==> (s.impl.Ongoing() <==> s.expl[i].Ongoing()))
  {
    RunKeeps(c, events);
    var s := Run(c, events).s;
    if !s.onHold { EndTogether(c, i, s.impl, s.expl[i]); }
  }

  /** The assertion of `addComputedTime` and of `secondExchange`: every scheme that receives a step is still
      going on and may take it, and an iterating implicit scheme finds the explicit ones on hold. */
  lemma AssertionsHold(c: Setup, events: seq<Event>, dt: int, converged: bool)
    requires Compatible(c) && Run(c, events).Some?
    ensures var s := Run(c, events).s;
            && ValidActive(s) && |s.active| > 0 && |s.expl| > 0
            && (LegalStep(s, dt) ==>
                  && s.impl.Ongoing() && dt <= s.impl.NextTimeStepMaxSize()
                  && (!s.onHold ==> forall i :: 0 <= i < |s.expl| ==>
                        s.expl[i].Ongoing() && dt <= s.expl[i].NextTimeStepMaxSize())
                  && var t := FirstExchange(AddComputedTime(s, dt));
                     Iterating(t.(impl := t.impl.Second(converged))) ==> t.onHold)
  {
    RunKeeps(c, events);
    var s := Run(c, events).s;
    InvActive(c, s);
    if LegalStep(s, dt) {
      LegalForAll(c, s, dt);
      ClocksTellIterating(c, s, dt, converged);
    }
  }

  /** Compatible sizes are needed: an explicit window that ends inside an implicit one makes its first
      exchange twice. */
  lemma WindowEndingInsideExchangesTwice(s: State, dt: int, converged: bool, i: nat)
    requires i < |s.expl| && !s.onHold && s.impl.clock.Time() == s.expl[0].clock.Time()
    requires !s.impl.AddTime(dt).AtEnd() && s.expl[i].AddTime(dt).AtEnd()
    ensures var e := Step(s, dt, converged).expl[i];
            e.firsts == s.expl[i].firsts + 2 && e.seconds == s.expl[i].seconds + 1
  {
    assert FirstExchange(AddComputedTime(s, dt)).expl[0].clock.Time() == s.expl[0].clock.Time() + dt;
    var e := s.expl[i].AddTime(dt);
    assert e.First().AtEnd() && e.First().First().AtEnd();
  }
}
