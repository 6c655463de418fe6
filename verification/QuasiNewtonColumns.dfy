/** Which columns the quasi-Newton matrices hold: the QR decomposition against V, and the counters
    against the windows the columns come from. */
module QuasiNewtonColumns {
  import opened ColumnMatrices
  import opened QuasiNewton

  // ----- the QR decomposition decomposes V -----

  predicate Aligned(s: State) { s.Q == s.V }

  /** An update keeps the decomposition aligned exactly if the new column is independent and the
      system is not yet square. */
  lemma UpdateAligned(l: Limits, s: State, independent: bool)
    requires ValidLimits(l) && Inv(l, s) && Aligned(s) && !s.first
    ensures Aligned(Update(l, s, independent)) <==> independent && |s.V| < l.primaryRows
  {
    var t := Update(l, s, independent);
    if Accepts(l, s, independent) {
      assert Aligned(t);
    } else {
      assert |t.Q| < |t.V|;
    }
  }

  /** The second filter restores the alignment in every quasi-Newton step, and so does a new decomposition. */
  lemma SystemAligned(l: Limits, s: State, independent: bool, newQR: bool, del: seq<nat>)
    requires ValidLimits(l) && Inv(l, s) && !Relaxes(l, s) && LegalEvent(l, s, Iterate(independent, newQR, del))
    requires l.filter.QR2? || newQR || Aligned(Update(l, s, independent))
    ensures Aligned(System(l, s, independent, newQR, del))
  {
    NothingToRestore(l, s, independent);
    UpdateKeeps(l, s, independent);
    var a := Update(l, s, independent);
    if !l.filter.NoFilter? { RemoveColumnsKeeps(l, if newQR && !l.filter.QR2? then a.(Q := a.V) else a, del); }
  }

  /** Every column that is pushed finds room and is independent of the others. */
  predicate Independent(l: Limits, s: State, e: Event) { !s.first ==> e.independent && |s.V| < l.primaryRows }

  lemma StepAligned(l: Limits, s: State, e: Event)
    requires ValidLimits(l) && Inv(l, s) && LegalEvent(l, s, e) && Aligned(s) && Independent(l, s, e)
    ensures Aligned(Step(l, s, e))
  {
    if !s.first { UpdateAligned(l, s, e.independent); }
    match e
    case Iterate(independent, newQR, del) =>
      if !Relaxes(l, s) { SystemAligned(l, s, independent, newQR, del); }
    case Converges(independent) =>
  }

  lemma {:induction false} AlignedOverRuns(l: Limits, events: seq<Event>)
    requires ValidLimits(l) && LegalRun(l, events)
    requires forall i :: 0 <= i < |events| ==> Independent(l, Run(l, events[..i]), events[i])
    ensures Aligned(Run(l, events))
    decreases |events|
  {
    if events != [] {
      var before := events[..|events|-1];
      forall i | 0 <= i < |before|
        ensures LegalEvent(l, Run(l, before[..i]), before[i]) && Independent(l, Run(l, before[..i]), before[i])
      {
        assert before[..i] == events[..i];
      }
      AlignedOverRuns(l, before);
      RunKeeps(l, before);
      StepAligned(l, Run(l, before), events[|events|-1]);
    }
  }

  /** The decomposition decomposes V before an event and right after the update with its column. */
  predicate AlignedThrough(l: Limits, s: State, e: Event) { Aligned(s) && Aligned(Update(l, s, e.independent)) }

  lemma PrefixIsLegal(l: Limits, events: seq<Event>, n: nat)
    requires LegalRun(l, events) && n <= |events|
    ensures LegalRun(l, events[..n])
  {
    forall i | 0 <= i < n ensures LegalEvent(l, Run(l, events[..n][..i]), events[..n][i]) {
      assert events[..n][..i] == events[..i];
    }
  }

  /** The decomposition follows V through a whole run exactly if every column finds room and is independent. */
  lemma AlignedOverRunsIff(l: Limits, events: seq<Event>)
    requires ValidLimits(l) && LegalRun(l, events)
    ensures (forall i :: 0 <= i < |events| ==> AlignedThrough(l, Run(l, events[..i]), events[i]))
            <==> (forall i :: 0 <= i < |events| ==> Independent(l, Run(l, events[..i]), events[i]))
  {
    forall n: nat | n < |events|
      ensures Aligned(Run(l, events[..n])) ==>
                (AlignedThrough(l, Run(l, events[..n]), events[n]) <==> Independent(l, Run(l, events[..n]), events[n]))
      ensures (forall i :: 0 <= i < |events| ==> Independent(l, Run(l, events[..i]), events[i])) ==>
                Aligned(Run(l, events[..n]))
    {
      PrefixIsLegal(l, events, n);
      RunKeeps(l, events[..n]);
      var s := Run(l, events[..n]);
      if Aligned(s) && !s.first { UpdateAligned(l, s, events[n].independent); }
      if forall i :: 0 <= i < |events| ==> Independent(l, Run(l, events[..i]), events[i]) {
        forall i | 0 <= i < n ensures Independent(l, Run(l, events[..n][..i]), events[..n][i]) {
          assert events[..n][..i] == events[..i];
        }
        AlignedOverRuns(l, events[..n]);
      }
    }
  }

  /** With as many columns as unknowns one more is still appended to V, but not to the decomposition. */
  lemma SquareSystemOverflows()
    ensures var l := Limits(10, 0, false, NoFilter, 1, 1);
            var e := Iterate(true, false, []);
            ValidLimits(l) && LegalRun(l, [e, e, e]) && |Run(l, [e, e, e]).V| == 2 && |Run(l, [e, e, e]).Q| == 1
  {
    var l := Limits(10, 0, false, NoFilter, 1, 1);
    var e := Iterate(true, false, []);
    var s := Initial();
    assert [e, e, e][..2] == [e, e] && [e, e][..1] == [e] && [e][..0] == [];
    assert Run(l, [e]) == s.(first := false, iteration := 1);
    var t := Run(l, [e, e]);
    assert t.V == [Column(0, 1)] && t.Q == [Column(0, 1)] && t.counts == [1];
    assert Run(l, [e, e, e]) == Step(l, t, e);
  }

  // ----- the decomposition is never asked for a column it does not have -----

  predicate Shifts(l: Limits, s: State) { !s.first && !(Total(s.counts) != l.maxColumns && Total(s.counts) <= l.rows) }

  /** The decomposition after the new column was offered to it. */
  function Offered(l: Limits, s: State, independent: bool): seq<Column> {
    if Accepts(l, s, independent) then [Column(s.window, s.iteration)] + s.Q else s.Q
  }

  /** A shift deletes the last column of the decomposition, which asserts that there is one. */
  predicate ShiftAsserted(l: Limits, s: State, independent: bool) { Shifts(l, s) ==> Offered(l, s, independent) != [] }

  /** So does dropping a window, once for each of its columns. */
  predicate DropAsserted(l: Limits, s: State) {
    l.reused > 0 && |s.counts| > l.reused ==> s.counts[|s.counts|-1] <= |s.Q|
  }

  /** The assertion of a shift fails exactly if the decomposition is empty and refuses the new column too. */
  lemma ShiftAssertedIff(l: Limits, s: State, independent: bool)
    ensures ShiftAsserted(l, s, independent)
            <==> !Shifts(l, s) || s.Q != [] || (independent && l.primaryRows > 0)
  {
  }

  /** Over a run in which every column finds room and is independent both assertions hold. */
  lemma DeletionsOverRuns(l: Limits, events: seq<Event>, n: nat)
    requires ValidLimits(l) && LegalRun(l, events) && n < |events|
    requires forall i :: 0 <= i < |events| ==> Independent(l, Run(l, events[..i]), events[i])
    ensures var s, e := Run(l, events[..n]), events[n];
            ShiftAsserted(l, s, e.independent) && DropAsserted(l, Completed(l, s, e.independent))
  {
    AlignedBefore(l, events, n);
    assert Independent(l, Run(l, events[..n]), events[n]);
    AlignedDeletions(l, Run(l, events[..n]), events[n].independent);
  }

  lemma AlignedBefore(l: Limits, events: seq<Event>, n: nat)
    requires ValidLimits(l) && LegalRun(l, events) && n <= |events|
    requires forall i :: 0 <= i < |events| ==> Independent(l, Run(l, events[..i]), events[i])
    ensures Inv(l, Run(l, events[..n])) && Aligned(Run(l, events[..n]))
  {
    PrefixIsLegal(l, events, n);
    RunKeeps(l, events[..n]);
    forall i | 0 <= i < n ensures Independent(l, Run(l, events[..n][..i]), events[..n][i]) {
      assert events[..n][..i] == events[..i];
    }
    AlignedOverRuns(l, events[..n]);
  }

  lemma AlignedDeletions(l: Limits, s: State, independent: bool)
    requires ValidLimits(l) && Inv(l, s) && Aligned(s) && (!s.first ==> independent && |s.V| < l.primaryRows)
    ensures ShiftAsserted(l, s, independent) && DropAsserted(l, Completed(l, s, independent))
  {
    if !s.first { UpdateAligned(l, s, independent); }
    assert Completed(l, s, independent).Q == Completed(l, s, independent).V;
    AssertionsHold(l, s, independent);
  }

  /** With one column allowed and two dependent ones in a row the second shift finds the decomposition empty. */
  lemma DependentColumnsEmptyIt()
    ensures var l := Limits(1, 0, false, NoFilter, 2, 2);
            var e := Iterate(false, false, []);
            && ValidLimits(l) && LegalRun(l, [e, e, e]) && !ShiftAsserted(l, Run(l, [e, e]), e.independent)
  {
    var l := Limits(1, 0, false, NoFilter, 2, 2);
    var e := Iterate(false, false, []);
    assert [e, e, e][..2] == [e, e] && [e, e][..1] == [e] && [e][..0] == [];
    assert Run(l, [e]) == Initial().(first := false, iteration := 1);
    assert Run(l, [e, e]).Q == [] && Total(Run(l, [e, e]).counts) == 1;
  }

  // ----- the counters are the run-length encoding of the windows -----

  /** The lengths of the runs of columns from the same window. */
  function Runs(V: seq<Column>): seq<nat> {
    if V == [] then []
    else
      var rest := Runs(V[1..]);
      if |V| > 1 && V[1].window == V[0].window then Increment(rest) else [1] + rest
  }

  /** The newest columns come first, and none is newer than the current window. */
  predicate NewestFirst(V: seq<Column>, window: nat) {
    && (forall i :: 0 <= i < |V| ==> V[i].window <= window)
    && forall i, j :: 0 <= i < j < |V| ==> V[i].window >= V[j].window
  }

  predicate Encodes(counts: seq<nat>, V: seq<Column>, window: nat) {
    && NewestFirst(V, window) && WithoutEmptyFront(counts) == Runs(V)
    && (counts != [] && counts[0] == 0 ==> V == [] || V[0].window < window)
    && (counts != [] && counts[0] > 0 ==> V != [] && V[0].window == window)
  }

  lemma {:induction false} RunsTotal(V: seq<Column>)
    ensures Total(Runs(V)) == |V| && (V != [] ==> Runs(V) != []) && forall i :: 0 <= i < |Runs(V)| ==> Runs(V)[i] > 0
  {
    if V != [] { RunsTotal(V[1..]); }
  }

  lemma PushEncodes(counts: seq<nat>, V: seq<Column>, c: Column)
    requires counts != [] && Encodes(counts, V, c.window)
    ensures Encodes(Increment(counts), [c] + V, c.window)
  {
    var W := [c] + V;
    assert W[1..] == V;
    RunsTotal(V);
  }

  lemma RunsOfCons(v: Column, T: seq<Column>)
    ensures Runs([v] + T) == if T != [] && T[0].window == v.window then Increment(Runs(T)) else [1] + Runs(T)
  {
    assert ([v] + T)[1..] == T;
  }

  lemma DecrementBehind(r: seq<nat>)
    requires r != [] && forall i :: 0 <= i < |r| ==> r[i] > 0
    ensures Decrement([1] + r) == [1] + Decrement(r)
    ensures Decrement(Increment(r)) == if r == [1] then [1] else Increment(Decrement(r))
  {
  }

  lemma {:induction false} RunsOfDropLast(V: seq<Column>)
    requires V != []
    ensures Runs(DropLast(V)) == Decrement(Runs(V))
  {
    var v, T := V[0], V[1..];
    assert V == [v] + T;
    RunsOfCons(v, T);
    if T == [] {
      assert DropLast(V) == [];
    } else {
      RunsTotal(T);
      RunsOfDropLast(T);
      RunsTotal(DropLast(T));
      assert DropLast(V) == [v] + DropLast(T);
      RunsOfCons(v, DropLast(T));
      DecrementBehind(Runs(T));
    }
  }

  lemma PopEncodes(counts: seq<nat>, V: seq<Column>, window: nat)
    requires V != [] && counts != [] && counts[0] > 0 && Encodes(counts, V, window)
    ensures |V| > 1 ==> Encodes(Decrement(counts), DropLast(V), window)
  {
    RunsTotal(V);
    RunsOfDropLast(V);
  }

  lemma UpdateEncodes(l: Limits, s: State, independent: bool)
    requires ValidLimits(l) && Inv(l, s) && Encodes(s.counts, s.V, s.window)
    ensures var t := Update(l, s, independent); Encodes(t.counts, t.V, t.window)
  {
    if !s.first {
      var c := Column(s.window, s.iteration);
      PushEncodes(s.counts, s.V, c);
      if !(Total(s.counts) != l.maxColumns && Total(s.counts) <= l.rows) {
        assert s.V != [];
        PopEncodes(Increment(s.counts), [c] + s.V, s.window);
      }
    }
  }

  /** The last counter less `n`, or no last counter. */
  function LessLast(r: seq<nat>, n: nat): seq<nat>
    requires r != [] && n <= r[|r|-1]
  {
    if n == r[|r|-1] then DropLast(r) else r[|r|-1 := r[|r|-1] - n]
  }

  lemma LessByOne(r: seq<nat>, n: nat)
    requires r != [] && 1 < n <= r[|r|-1]
    ensures Decrement(r) != [] && n - 1 <= Decrement(r)[|Decrement(r)|-1]
    ensures LessLast(Decrement(r), n - 1) == LessLast(r, n)
  {
  }

  lemma {:induction false} ShortenedRuns(V: seq<Column>, n: nat)
    requires V != [] && n <= |V| && Runs(V) != [] && n <= Runs(V)[|Runs(V)|-1]
    ensures Runs(Shortened(V, n)) == LessLast(Runs(V), n)
  {
    RunsTotal(V);
    if n == 0 {
      assert Shortened(V, 0) == V;
    } else {
      RunsOfDropLast(V);
      if n == 1 {
        assert Shortened(V, 1) == DropLast(V);
      } else {
        RunsTotal(DropLast(V));
        LessByOne(Runs(V), n);
        ShortenedRuns(DropLast(V), n - 1);
        assert Shortened(DropLast(V), n - 1) == Shortened(V, n);
      }
    }
  }

  lemma ShortenedNewestFirst(V: seq<Column>, n: nat, window: nat)
    requires NewestFirst(V, window) && n <= |V|
    ensures NewestFirst(Shortened(V, n), window)
  {
  }

  lemma TruncateEncodes(l: Limits, s: State)
    requires s.counts == Runs(s.V) && NewestFirst(s.V, s.window)
    ensures var t := Truncate(l, s); t.counts == Runs(t.V) && NewestFirst(t.V, s.window)
  {
    RunsTotal(s.V);
    if l.reused > 0 && |s.counts| > l.reused {
      TotalOfLast(s.counts);
      ShortenedRuns(s.V, s.counts[|s.counts|-1]);
      ShortenedNewestFirst(s.V, s.counts[|s.counts|-1], s.window);
    }
  }

  lemma ConvergeEncodes(l: Limits, s: State, independent: bool)
    requires ValidLimits(l) && Inv(l, s) && Encodes(s.counts, s.V, s.window)
    ensures var t := Converge(l, s, independent); Encodes(t.counts, t.V, t.window)
  {
    UpdateEncodes(l, s, independent);
    UpdateKeeps(l, s, independent);
    CompletedEncodes(l, s, independent);
    TruncateEncodes(l, Completed(l, s, independent));
  }

  lemma CompletedEncodes(l: Limits, s: State, independent: bool)
    requires var a := Update(l, s, independent); Encodes(a.counts, a.V, a.window)
    ensures var b := Completed(l, s, independent); b.counts == Runs(b.V) && NewestFirst(b.V, b.window)
  {
    RunsTotal(Update(l, s, independent).V);
  }

  lemma StepEncodes(l: Limits, s: State, e: Event)
    requires ValidLimits(l) && Inv(l, s) && l.filter.NoFilter? && Encodes(s.counts, s.V, s.window)
    ensures var t := Step(l, s, e); Encodes(t.counts, t.V, t.window)
  {
    match e
    case Converges(independent) => ConvergeEncodes(l, s, independent);
    case Iterate(independent, newQR, del) =>
      if !Relaxes(l, s) {
        NothingToRestore(l, s, independent);
        UpdateEncodes(l, s, independent);
        var a := System(l, s, independent, newQR, del);
        assert a.V == Update(l, s, independent).V && a.counts == Update(l, s, independent).counts
               && a.window == s.window;
      }
  }

  /** Without a filter the counters are the run-length encoding of the windows of the columns, apart from
      a zero for the current window when it has no column yet. */
  lemma {:induction false} EncodingOverRuns(l: Limits, events: seq<Event>)
    requires ValidLimits(l) && LegalRun(l, events) && l.filter.NoFilter?
    ensures var s := Run(l, events); Encodes(s.counts, s.V, s.window)
    decreases |events|
  {
    if events != [] {
      var before := events[..|events|-1];
      forall i | 0 <= i < |before| ensures LegalEvent(l, Run(l, before[..i]), before[i]) {
        assert before[..i] == events[..i];
      }
      EncodingOverRuns(l, before);
      RunKeeps(l, before);
      var s, e := Run(l, before), events[|events|-1];
      StepEncodes(l, s, e);
    }
  }

  /** A first run of length one is followed by another window. */
  lemma FirstRun(T: seq<Column>)
    requires T != []
    ensures Runs(T) != [] && (Runs(T)[0] == 1 <==> |T| == 1 || T[1].window != T[0].window)
  {
    RunsTotal(T);
    RunsTotal(T[1..]);
  }

  lemma RemoveCountBehind(r: seq<nat>, k: nat)
    requires r != [] && r[0] > 0
    ensures RemoveCount([1] + r, k + 1) == [1] + RemoveCount(r, k)
    ensures RemoveCount(Increment(r), k + 1) == if r[0] == 1
            && k == 0 then [1] + r[1..] else Increment(RemoveCount(r, k))
  {
    assert ([1] + r)[1..] == r;
    assert Increment(r)[1..] == r[1..];
  }

  /** Removing one column anywhere. */
  lemma {:induction false} RunsOfRemoveAt(V: seq<Column>, window: nat, k: nat)
    requires NewestFirst(V, window) && k < |V|
    ensures Runs(RemoveAt(V, k)) == RemoveCount(Runs(V), k)
    decreases |V|
  {
    var v, T := V[0], V[1..];
    assert V == [v] + T;
    RunsOfCons(v, T);
    RunsTotal(T);
    if k == 0 {
      assert RemoveAt(V, 0) == T;
    } else {
      var rest := RemoveAt(T, k - 1);
      assert NewestFirst(T, window);
      RunsOfRemoveAt(T, window, k - 1);
      FirstRun(T);
      assert RemoveAt(V, k) == [v] + rest;
      RunsOfCons(v, rest);
      RemoveCountBehind(Runs(T), k - 1);
      assert V[1] == T[0] && (|T| > 1 ==> V[2] == T[1]);
      RestContinues(v, T, k - 1);
    }
  }

  /** Whether the first run goes on when a column behind it is removed. */
  lemma RestContinues(v: Column, T: seq<Column>, k: nat)
    requires k < |T| && T[0].window <= v.window && (|T| > 1 ==> T[1].window <= T[0].window)
    ensures var rest := RemoveAt(T, k);
            (rest != [] && rest[0].window == v.window)
            <==> (T[0].window == v.window && (k > 0 || (|T| > 1 && T[1].window == T[0].window)))
  {
    var rest := RemoveAt(T, k);
    if k > 0 {
      assert rest[0] == T[0];
    } else {
      assert rest == T[1..];
      if |T| > 1 { assert rest[0] == T[1]; }
    }
  }

  /** When a filter removes a column the counters go on encoding the windows, unless it was the only column
      of the current window: its counter disappears too, and the next column is counted for an older window. */
  lemma FilterKeepsEncoding(counts: seq<nat>, V: seq<Column>, window: nat, k: nat)
    requires counts != [] && Encodes(counts, V, window) && |V| > 1 && k < |V|
    ensures Encodes(RemoveCount(counts, k), RemoveAt(V, k), window) <==> !(k == 0 && counts[0] == 1)
  {
    RunsOfRemoveAt(V, window, k);
    RunsTotal(V);
    RunsTotal(RemoveAt(V, k));
  }
}
