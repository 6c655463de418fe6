/** Which differences the matrices V and W hold, said with the history of the calls alone: the newest ones, as many
    as the column limit and the limit on reused windows allow. */
module QuasiNewtonDifferences {
  import opened ColumnMatrices
  import opened QuasiNewton
  import opened QuasiNewtonColumns

  // ----- the differences a run has seen -----

  function WindowsDone(events: seq<Event>): nat {
    if events == [] then 0
    else WindowsDone(events[..|events|-1]) + if events[|events|-1].Converges? then 1 else 0
  }

  /** Iterations since the current window began. */
  function IterationsDone(events: seq<Event>): nat {
    if events == [] || events[|events|-1].Converges? then 0 else IterationsDone(events[..|events|-1]) + 1
  }

  /** All differences so far, the newest first; the first call of a window has nothing to compare with. */
  function Differences(events: seq<Event>): seq<Column> {
    if events == [] then []
    else
      var before := events[..|events|-1];
      var n := IterationsDone(before);
      if n == 0 then Differences(before) else [Column(WindowsDone(before), n)] + Differences(before)
  }

  lemma RemoveColumnsFrame(s: State, del: seq<nat>)
    ensures var r := RemoveColumns(s, del); r == s.(counts := r.counts, V := r.V, W := r.W)
    ensures RemoveColumns(s, del).V == Without(s.V, del)
    decreases |del|
  {
    if del != [] { RemoveColumnsFrame(RemoveColumn(s, del[|del|-1]), del[..|del|-1]); }
  }

  lemma {:induction false} PositionOverRuns(l: Limits, events: seq<Event>)
    ensures var s := Run(l, events);
            && s.window == WindowsDone(events) && s.iteration == IterationsDone(events)
            && (s.first <==> IterationsDone(events) == 0)
    decreases |events|
  {
    if events != [] {
      var before := events[..|events|-1];
      PositionOverRuns(l, before);
      var s, e := Run(l, before), events[|events|-1];
      if e.Iterate? && !Relaxes(l, s) { SystemFrame(l, s, e.independent, e.newQR, e.del); }
    }
  }

  lemma SystemFrame(l: Limits, s: State, independent: bool, newQR: bool, del: seq<nat>)
    ensures var a := System(l, s, independent, newQR, del);
            a.first == s.first && a.firstWindow == s.firstWindow && a.window == s.window && a.iteration == s.iteration
  {
    var a := Update(l, s, independent);
    var b := if Restores(l, a)
             then a.(counts := a.backup.counts, V := a.backup.V, W := a.backup.W, Q := a.backup.V) else a;
    RemoveColumnsFrame(if newQR && !l.filter.QR2? then b.(Q := b.V) else b, del);
  }

  // ----- one update -----

  /** The newest difference comes first; behind it all columns remain if there is room, and all but the last if not. */
  lemma UpdateTakesNewest(l: Limits, s: State, independent: bool)
    requires ValidLimits(l) && Inv(l, s) && !s.first
    ensures var room := |s.V| < l.maxColumns && |s.V| <= l.rows;
            var t := Update(l, s, independent);
            t.V == [Column(s.window, s.iteration)] + s.V[..if room then |s.V| else |s.V| - 1] && t.W == t.V
  {
    var c := Column(s.window, s.iteration);
    assert s.V[..|s.V|] == s.V;
    if s.V != [] { assert DropLast([c] + s.V) == [c] + s.V[..|s.V| - 1]; }
  }

  // ----- how many are kept -----

  /** The windows of the columns, apart from the given one. */
  function PastWindows(d: seq<Column>, window: nat): set<nat> {
    set i | 0 <= i < |d| && d[i].window != window :: d[i].window
  }

  /** As many columns as the limit and the unknowns allow, from at most so many windows besides the current one. */
  predicate Fits(l: Limits, reused: nat, d: seq<Column>, window: nat) {
    |d| <= l.maxColumns && |d| <= l.rows + 1 && |PastWindows(d, window)| <= reused
  }

  /** `V` holds the newest of the differences `d`, and not even one more would fit. */
  predicate LongestFitting(l: Limits, reused: nat, V: seq<Column>, d: seq<Column>, window: nat) {
    && V <= d && Fits(l, reused, V, window)
    && (V == d || !Fits(l, reused, d[..|V| + 1], window))
  }

  /** Without reuse the columns of the last window are kept for the first iteration of the next one only, and not at
      all if that one relaxes. */
  function WindowsKept(l: Limits, first: bool): nat {
    if l.reused == 0 && first && !l.force then 1 else l.reused
  }

  /** What holds between two calls, where `d` are the differences so far. */
  predicate Keeps(l: Limits, s: State, d: seq<Column>) {
    && LongestFitting(l, WindowsKept(l, s.first), s.V, d, s.window)
    && NewestFirst(d, s.window)
    && (s.first ==> forall i :: 0 <= i < |d| ==> d[i].window < s.window)
    && (s.first && s.firstWindow ==> d == [])
  }

  lemma PastOfCons(c: Column, d: seq<Column>)
    ensures PastWindows([c] + d, c.window) == PastWindows(d, c.window)
  {
    var e := [c] + d;
    assert e[0] == c && forall i :: 0 <= i < |d| ==> e[i + 1] == d[i];
    assert forall i :: 0 < i < |e| ==> e[i] == d[i - 1];
    forall w | w in PastWindows(d, c.window) ensures w in PastWindows(e, c.window) {
      var i :| 0 <= i < |d| && d[i].window != c.window && d[i].window == w;
      assert e[i + 1].window == w;
    }
  }

  lemma PastIsMonotone(d: seq<Column>, e: seq<Column>, window: nat)
    requires d <= e
    ensures |PastWindows(d, window)| <= |PastWindows(e, window)|
  {
    assert PastWindows(d, window) <= PastWindows(e, window);
    SmallerSet(PastWindows(d, window), PastWindows(e, window));
  }

  lemma SmallerSet(a: set<nat>, b: set<nat>)
    requires a <= b
    ensures |a| <= |b|
  {
    assert b == a + (b - a);
  }

  lemma UpdateLongest(l: Limits, reused: nat, V: seq<Column>, d: seq<Column>, c: Column)
    requires LongestFitting(l, reused, V, d, c.window) && l.maxColumns > 0
    ensures var room := |V| < l.maxColumns && |V| <= l.rows;
            LongestFitting(l, reused, [c] + V[..if room then |V| else |V| - 1], [c] + d, c.window)
  {
    var room := |V| < l.maxColumns && |V| <= l.rows;
    var T := V[..if room then |V| else |V| - 1];
    PastOfCons(c, T);
    assert [c] + T <= [c] + d;
    PastIsMonotone(T, V, c.window);
    if V != d {
      assert ([c] + d)[..|V| + 2] == [c] + d[..|V| + 1];
      PastOfCons(c, d[..|V| + 1]);
    } else if room {
      assert T == d;
    }
  }

  /** The list of differences after one more call. */
  function Extended(s: State, d: seq<Column>): seq<Column> {
    if s.first then d else [Column(s.window, s.iteration)] + d
  }

  lemma UpdateKeepsNewest(l: Limits, s: State, independent: bool, d: seq<Column>)
    requires ValidLimits(l) && Inv(l, s) && Keeps(l, s, d)
    ensures Keeps(l, Update(l, s, independent), Extended(s, d))
  {
    if !s.first {
      UpdateTakesNewest(l, s, independent);
      UpdateLongest(l, WindowsKept(l, false), s.V, d, Column(s.window, s.iteration));
    }
  }

  lemma NothingKept(l: Limits, d: seq<Column>, window: nat)
    requires forall i :: 0 <= i < |d| ==> d[i].window < window
    ensures LongestFitting(l, 0, [], d, window)
  {
    if d != [] {
      var e := d[..1];
      assert e[0].window in PastWindows(e, window);
    }
  }

  /** The first iteration of a window deletes the columns of the previous one if none are reused. */
  lemma AcceleratedColumns(l: Limits, s: State, independent: bool, newQR: bool, del: seq<nat>)
    requires ValidLimits(l) && Inv(l, s) && l.filter.NoFilter?
    ensures var t := Accelerate(l, s, independent, newQR, del);
            && t.V == (if !s.first then Update(l, s, independent).V
                       else if l.reused == 0 && !Relaxes(l, s) then [] else s.V)
            && !t.first && t.firstWindow == s.firstWindow && t.window == s.window
  {
    if !Relaxes(l, s) { NothingToRestore(l, s, independent); }
  }

  lemma IterateKeepsNewest(l: Limits, s: State, independent: bool, newQR: bool, del: seq<nat>, d: seq<Column>)
    requires ValidLimits(l) && Inv(l, s) && l.filter.NoFilter? && Keeps(l, s, d)
    ensures Keeps(l, Accelerate(l, s, independent, newQR, del), Extended(s, d))
  {
    AcceleratedColumns(l, s, independent, newQR, del);
    UpdateKeepsNewest(l, s, independent, d);
    if s.first && l.reused == 0 { NothingKept(l, d, s.window); }
  }

  // ----- the end of a window -----

  lemma {:induction false} RunsCountWindows(V: seq<Column>, window: nat)
    requires NewestFirst(V, window)
    ensures |Runs(V)| == |PastWindows(V, window + 1)|
  {
    if V != [] {
      var v, T := V[0], V[1..];
      assert NewestFirst(T, window);
      RunsCountWindows(T, window);
      assert V == [v] + T;
      RunsOfCons(v, T);
      RunsTotal(T);
      PastOfFront(v, T, window + 1);
      FrontIsNew(v, T, window + 1);
    }
  }

  /** The front column belongs to the windows behind it only if it belongs to the first of them. */
  lemma FrontIsNew(v: Column, T: seq<Column>, next: nat)
    requires v.window < next && NewestFirst(T, v.window)
    ensures v.window in PastWindows(T, next) <==> T != [] && T[0].window == v.window
  {
  }

  lemma PastOfFront(v: Column, T: seq<Column>, window: nat)
    requires v.window != window
    ensures PastWindows([v] + T, window) == PastWindows(T, window) + {v.window}
  {
    var V := [v] + T;
    assert V[0] == v && forall i :: 0 < i < |V| ==> V[i] == T[i - 1];
    forall w | w in PastWindows(T, window) ensures w in PastWindows(V, window) {
      var i :| 0 <= i < |T| && T[i].window != window && T[i].window == w;
      assert V[i + 1].window == w;
    }
  }

  lemma PastOfNextWindow(d: seq<Column>, window: nat)
    requires NewestFirst(d, window)
    ensures PastWindows(d, window + 1)
            == PastWindows(d, window) + if d != [] && d[0].window == window then {window} else {}
  {
    if d != [] && d[0].window == window { assert window in PastWindows(d, window + 1); }
  }

  /** The columns still fit when their window has become a past one. */
  lemma NextWindowKeeps(l: Limits, kept: nat, next: nat, V: seq<Column>, d: seq<Column>, window: nat)
    requires NewestFirst(d, window) && LongestFitting(l, kept, V, d, window) && |Runs(V)| <= next
    requires next == kept || (next == kept + 1 && V != [] && V[0].window == window)
    ensures LongestFitting(l, next, V, d, window + 1)
  {
    RunsCountWindows(V, window);
    if V != d { PastOfNextWindow(d[..|V| + 1], window); }
  }

  /** Without its oldest window the rest fits, and one more column would be one of that window. */
  lemma OldestWindowGoes(l: Limits, kept: nat, V: seq<Column>, d: seq<Column>, window: nat)
    requires NewestFirst(d, window) && LongestFitting(l, kept, V, d, window) && |Runs(V)| > kept && V != []
    ensures LongestFitting(l, kept, Shortened(V, Runs(V)[|Runs(V)|-1]), d, window + 1)
  {
    RunsTotal(V);
    TotalOfLast(Runs(V));
    var n := Runs(V)[|Runs(V)|-1];
    OneWindowMore(V, window);
    ShortenedWindows(V, window, n);
    ShortenedWindows(V, window, n - 1);
    assert Shortened(V, n - 1) == d[..|Shortened(V, n)| + 1];
  }

  lemma OneWindowMore(V: seq<Column>, window: nat)
    requires NewestFirst(V, window)
    ensures |Runs(V)| <= |PastWindows(V, window)| + 1
  {
    RunsCountWindows(V, window);
    PastOfNextWindow(V, window);
  }

  /** Removing the columns of the oldest window leaves one window less, removing fewer of them none. */
  lemma ShortenedWindows(V: seq<Column>, window: nat, n: nat)
    requires NewestFirst(V, window) && V != [] && Runs(V) != [] && n <= Runs(V)[|Runs(V)|-1] && n <= |V|
    ensures |PastWindows(Shortened(V, n), window + 1)| == |Runs(V)| - if n == Runs(V)[|Runs(V)|-1] then 1 else 0
  {
    ShortenedRuns(V, n);
    ShortenedNewestFirst(V, n, window);
    RunsCountWindows(Shortened(V, n), window);
  }

  lemma TruncateKeepsNewest(l: Limits, s: State, d: seq<Column>)
    requires Keeps(l, s, d) && s.counts == Runs(s.V) && (!s.first ==> s.V != [] && s.V[0].window == s.window)
    ensures LongestFitting(l, WindowsKept(l, true), Truncate(l, s).V, d, s.window + 1)
  {
    assert WindowsKept(l, s.first) == l.reused || l.reused == 0;
    if l.reused == 0 {
      WithoutReuse(l, s, d);
    } else {
      WithReuse(l, s.V, d, s.window);
      assert Truncate(l, s).V == if |s.counts| > l.reused then Shortened(s.V, s.counts[|s.counts|-1]) else s.V;
    }
  }

  lemma WithReuse(l: Limits, V: seq<Column>, d: seq<Column>, window: nat)
    requires l.reused > 0 && LongestFitting(l, l.reused, V, d, window) && NewestFirst(d, window)
    ensures var runs := Runs(V);
            LongestFitting(l, l.reused, if |runs| > l.reused then Shortened(V, runs[|runs|-1]) else V, d, window + 1)
  {
    if |Runs(V)| > l.reused {
      OldestWindowGoes(l, l.reused, V, d, window);
    } else {
      NextWindowKeeps(l, l.reused, l.reused, V, d, window);
    }
  }

  lemma WithoutReuse(l: Limits, s: State, d: seq<Column>)
    requires Keeps(l, s, d) && l.reused == 0 && (!s.first ==> s.V != [] && s.V[0].window == s.window)
    ensures LongestFitting(l, WindowsKept(l, true), if l.force then [] else s.V, d, s.window + 1)
  {
    if l.force {
      NothingKept(l, d, s.window + 1);
    } else {
      OneWindow(l, s, d);
      NextWindowKeeps(l, WindowsKept(l, s.first), 1, s.V, d, s.window);
    }
  }

  lemma OneWindow(l: Limits, s: State, d: seq<Column>)
    requires Keeps(l, s, d) && l.reused == 0 && !l.force
    ensures |Runs(s.V)| <= 1
  {
    RunsCountWindows(s.V, s.window);
    PastOfNextWindow(s.V, s.window);
  }

  lemma ConvergeKeepsNewest(l: Limits, s: State, independent: bool, d: seq<Column>)
    requires ValidLimits(l) && Inv(l, s) && Keeps(l, s, d) && Encodes(s.counts, s.V, s.window)
    ensures Keeps(l, Converge(l, s, independent), Extended(s, d))
  {
    UpdateKeepsNewest(l, s, independent, d);
    UpdateEncodes(l, s, independent);
    UpdateKeeps(l, s, independent);
    if !s.first { UpdateTakesNewest(l, s, independent); }
    var a, b := Update(l, s, independent), Completed(l, s, independent);
    RunsTotal(a.V);
    NextWindowKeepsNewest(l, b, Truncate(l, b), Extended(s, d), a.firstWindow);
  }

  lemma NextWindowKeepsNewest(l: Limits, b: State, t: State, d: seq<Column>, firstWindow: bool)
    requires Keeps(l, b.(firstWindow := firstWindow), d) && b.counts == Runs(b.V) && t == Truncate(l, b)
    requires (!b.first ==> b.V != [] && b.V[0].window == b.window) && b.firstWindow == (firstWindow && b.first)
    ensures Keeps(l, t.(counts := [0] + t.counts, first := true, window := b.window + 1, iteration := 0), d)
  {
    TruncateKeepsNewest(l, b.(firstWindow := firstWindow), d);
  }

  lemma StepKeepsNewest(l: Limits, s: State, e: Event, d: seq<Column>)
    requires ValidLimits(l) && Inv(l, s) && l.filter.NoFilter? && Keeps(l, s, d) && Encodes(s.counts, s.V, s.window)
    ensures Keeps(l, Step(l, s, e), Extended(s, d))
  {
    match e
    case Iterate(independent, newQR, del) => IterateKeepsNewest(l, s, independent, newQR, del, d);
    case Converges(independent) => ConvergeKeepsNewest(l, s, independent, d);
  }

  /** Over every run without a filter V and W hold the newest differences: as many as the column limit and the unknowns
      allow, and from as many past windows as are reused, but no fewer. */
  lemma {:induction false} KeepsTheNewest(l: Limits, events: seq<Event>)
    requires ValidLimits(l) && LegalRun(l, events) && l.filter.NoFilter?
    ensures var s := Run(l, events);
            && LongestFitting(l, WindowsKept(l, s.first), s.V, Differences(events), WindowsDone(events)) && s.W == s.V
            && Keeps(l, s, Differences(events))
    decreases |events|
  {
    PositionOverRuns(l, events);
    RunKeeps(l, events);
    if events != [] {
      var before := events[..|events|-1];
      PrefixIsLegal(l, events, |events| - 1);
      KeepsTheNewest(l, before);
      EncodingOverRuns(l, before);
      RunKeeps(l, before);
      PositionOverRuns(l, before);
      StepKeepsNewest(l, Run(l, before), events[|events|-1], Differences(before));
    }
  }

  /** If all differences fit, none is missing. */
  lemma NothingIsDropped(l: Limits, events: seq<Event>)
    requires ValidLimits(l) && LegalRun(l, events) && l.filter.NoFilter?
    requires Fits(l, WindowsKept(l, Run(l, events).first), Differences(events), WindowsDone(events))
    ensures Run(l, events).V == Run(l, events).W == Differences(events)
  {
    KeepsTheNewest(l, events);
    var s := Run(l, events);
    LongestIsAll(l, WindowsKept(l, s.first), s.V, Differences(events), WindowsDone(events));
  }

  lemma LongestIsAll(l: Limits, kept: nat, V: seq<Column>, d: seq<Column>, window: nat)
    requires LongestFitting(l, kept, V, d, window) && Fits(l, kept, d, window)
    ensures V == d
  {
    if V != d { PastIsMonotone(d[..|V| + 1], d, window); }
  }

  predicate Newer(a: Column, b: Column) {
    a.window > b.window || (a.window == b.window && a.iteration > b.iteration)
  }

  /** Strictly ordered, all before `next`. */
  predicate Descends(d: seq<Column>, next: Column) {
    && (forall i :: 0 <= i < |d| ==> Newer(next, d[i]))
    && forall i, j :: 0 <= i < j < |d| ==> Newer(d[i], d[j])
  }

  lemma FrontDescends(c: Column, d: seq<Column>, next: Column)
    requires Descends(d, c) && Newer(next, c)
    ensures Descends([c] + d, next)
  {
    var e := [c] + d;
    assert forall i :: 0 < i < |e| ==> e[i] == d[i - 1];
  }

  /** The list of differences is strictly ordered, by windows and within a window by iterations. */
  lemma {:induction false} DifferencesDescend(events: seq<Event>)
    ensures Descends(Differences(events), Column(WindowsDone(events), IterationsDone(events)))
    decreases |events|
  {
    if events != [] {
      var before := events[..|events|-1];
      DifferencesDescend(before);
      var c := Column(WindowsDone(before), IterationsDone(before));
      var next := Column(WindowsDone(events), IterationsDone(events));
      FrontDescends(c, Differences(before), next);
    }
  }

  // ----- with a filter -----

  /** Elements of `d`, each at most once and the newest first. */
  predicate Selects(a: seq<Column>, d: seq<Column>) {
    && (forall i :: 0 <= i < |a| ==> a[i] in d)
    && forall i, j :: 0 <= i < j < |a| ==> Newer(a[i], a[j])
  }

  lemma RemovedSelects(a: seq<Column>, d: seq<Column>, k: nat)
    requires Selects(a, d)
    ensures Selects(RemoveAt(a, k), d)
  {
  }

  lemma {:induction false} WithoutSelects(a: seq<Column>, d: seq<Column>, del: seq<nat>)
    requires Selects(a, d)
    ensures Selects(Without(a, del), d)
    decreases |del|
  {
    if del != [] {
      RemovedSelects(a, d, del[|del|-1]);
      WithoutSelects(RemoveAt(a, del[|del|-1]), d, del[..|del|-1]);
    }
  }

  lemma FrontSelects(c: Column, a: seq<Column>, d: seq<Column>)
    requires Selects(a, d) && Descends(d, c)
    ensures Selects(a, [c] + d) && Selects([c] + a, [c] + d)
  {
    var e := [c] + d;
    assert e[0] == c && forall i :: 0 <= i < |d| ==> e[i + 1] == d[i];
    FrontDescendsOf(c, a);
  }

  lemma FrontDescendsOf(c: Column, a: seq<Column>)
    requires Descends(a, c)
    ensures forall i, j :: 0 <= i < j < |[c] + a| ==> Newer(([c] + a)[i], ([c] + a)[j])
  {
    FrontDescends(c, a, Column(c.window + 1, 0));
  }

  /** All that V, W and the decomposition hold are differences, in their order. */
  predicate Remembers(s: State, d: seq<Column>) { Selects(s.V, d) && s.V == s.W && Selects(s.Q, d) }

  lemma UpdateRemembers(l: Limits, s: State, independent: bool, d: seq<Column>)
    requires Remembers(s, d) && Descends(d, Column(s.window, s.iteration))
    ensures Remembers(Update(l, s, independent), Extended(s, d))
  {
    if !s.first {
      var c := Column(s.window, s.iteration);
      FrontSelects(c, s.V, d);
      FrontSelects(c, s.Q, d);
    }
  }

  lemma SystemRemembers(l: Limits, s: State, independent: bool, newQR: bool, del: seq<nat>, d: seq<Column>)
    requires ValidLimits(l) && Inv(l, s) && !Relaxes(l, s) && LegalEvent(l, s, Iterate(independent, newQR, del))
    requires Remembers(s, d) && Descends(d, Column(s.window, s.iteration))
    ensures Remembers(System(l, s, independent, newQR, del), Extended(s, d))
  {
    NothingToRestore(l, s, independent);
    UpdateKeeps(l, s, independent);
    UpdateRemembers(l, s, independent, d);
    var a := Update(l, s, independent);
    var b := if newQR && !l.filter.QR2? then a.(Q := a.V) else a;
    if !l.filter.NoFilter? {
      RemoveColumnsKeeps(l, b, del);
      WithoutSelects(b.V, Extended(s, d), del);
      WithoutSelects(b.Q, Extended(s, d), del);
    }
  }

  lemma ConvergeRemembers(l: Limits, s: State, independent: bool, d: seq<Column>)
    requires Remembers(s, d) && Descends(d, Column(s.window, s.iteration))
    ensures Remembers(Converge(l, s, independent), Extended(s, d))
  {
    UpdateRemembers(l, s, independent, d);
  }

  lemma LastStep(l: Limits, events: seq<Event>)
    requires ValidLimits(l) && LegalRun(l, events) && events != []
    ensures var s, e := Run(l, events[..|events|-1]), events[|events|-1];
            && Inv(l, s) && LegalEvent(l, s, e) && Run(l, events) == Step(l, s, e)
            && Differences(events) == Extended(s, Differences(events[..|events|-1]))
  {
    PrefixIsLegal(l, events, |events| - 1);
    RunKeeps(l, events[..|events|-1]);
    PositionOverRuns(l, events[..|events|-1]);
  }

  lemma StepRemembers(l: Limits, s: State, e: Event, d: seq<Column>)
    requires ValidLimits(l) && Inv(l, s) && LegalEvent(l, s, e) && Remembers(s, d)
    requires Descends(d, Column(s.window, s.iteration))
    ensures Remembers(Step(l, s, e), Extended(s, d))
  {
    match e
    case Converges(independent) => ConvergeRemembers(l, s, independent, d);
    case Iterate(independent, newQR, del) =>
      if !Relaxes(l, s) { SystemRemembers(l, s, independent, newQR, del, d); }
  }

  lemma LastRemembers(l: Limits, events: seq<Event>)
    requires ValidLimits(l) && LegalRun(l, events) && events != []
    requires Remembers(Run(l, events[..|events|-1]), Differences(events[..|events|-1]))
    ensures Remembers(Run(l, events), Differences(events))
  {
    LastStep(l, events);
    PositionOverRuns(l, events[..|events|-1]);
    DifferencesDescend(events[..|events|-1]);
    StepRemembers(l, Run(l, events[..|events|-1]), events[|events|-1], Differences(events[..|events|-1]));
  }

  /** With any filter V, W and the decomposition hold nothing but differences of the run, each at most once and
      the newest first. */
  lemma {:induction false} OnlyDifferences(l: Limits, events: seq<Event>)
    requires ValidLimits(l) && LegalRun(l, events)
    ensures Remembers(Run(l, events), Differences(events))
    decreases |events|
  {
    if events != [] {
      var before := events[..|events|-1];
      assert LegalRun(l, before) by { PrefixIsLegal(l, events, |events| - 1); }
      assert Remembers(Run(l, before), Differences(before)) by { OnlyDifferences(l, before); }
      LastRemembers(l, events);
    }
  }
}
