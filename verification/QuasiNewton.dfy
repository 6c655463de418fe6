/** The bookkeeping of the quasi-Newton acceleration: which columns the matrices V and W and the QR
    decomposition hold, and how many of them belong to which time window. */
module QuasiNewton {
  import opened ColumnMatrices

  /** A column is known by the window and the iteration whose differences it holds. */
  datatype Column = Column(window: nat, iteration: nat)

  datatype Filter = NoFilter | QR1 | QR2

  /** `rows` counts the unknowns of all data, `primaryRows` those of the QR decomposition. */
  datatype Limits = Limits(maxColumns: nat, reused: nat, force: bool, filter: Filter, rows: nat, primaryRows: nat)

  datatype Backup = Backup(counts: seq<nat>, V: seq<Column>, W: seq<Column>)

  datatype State = State(
    counts: seq<nat>,
    V: seq<Column>,
    W: seq<Column>,
    Q: seq<Column>,
    first: bool,
    firstWindow: bool,
    backup: Backup,
    window: nat,
    iteration: nat)

  function Initial(): State { State([0], [], [], [], true, true, Backup([], [], []), 0, 0) }

  function Total(counts: seq<nat>): nat { if counts == [] then 0 else counts[0] + Total(counts[1..]) }

  // ----- one call at a time -----

  function Increment(counts: seq<nat>): seq<nat> { if counts == [] then [] else [counts[0] + 1] + counts[1..] }

  /** One column less in the oldest group; an empty group disappears. */
  function Decrement(counts: seq<nat>): seq<nat> {
    if counts == [] then []
    else if counts[|counts|-1] <= 1 then DropLast(counts)
    else counts[|counts|-1 := counts[|counts|-1] - 1]
  }

  /** The decomposition refuses a dependent column, and any column once it is square. */
  predicate Accepts(l: Limits, s: State, independent: bool) { independent && |s.Q| < l.primaryRows }

  function Update(l: Limits, s: State, independent: bool): State {
    if s.first then s
    else
      var c := Column(s.window, s.iteration);
      var pushed := if Accepts(l, s, independent) then [c] + s.Q else s.Q;
      if Total(s.counts) != l.maxColumns && Total(s.counts) <= l.rows then
        s.(counts := Increment(s.counts), V := [c] + s.V, W := [c] + s.W, Q := pushed)
      else
        s.(counts := Decrement(Increment(s.counts)), V := DropLast([c] + s.V), W := DropLast([c] + s.W),
           Q := DropLast(pushed))
  }

  /** One column less in the group that holds position `k`. */
  function RemoveCount(counts: seq<nat>, k: nat): seq<nat> {
    if counts == [] then []
    else if counts[0] > k then (if counts[0] == 1 then counts[1..] else [counts[0] - 1] + counts[1..])
    else [counts[0]] + RemoveCount(counts[1..], k - counts[0])
  }

  function RemoveColumn(s: State, k: nat): State {
    s.(counts := RemoveCount(s.counts, k), V := RemoveAt(s.V, k), W := RemoveAt(s.W, k))
  }

  /** Removes the columns at the given positions, the last one first. */
  function RemoveColumns(s: State, del: seq<nat>): State
    decreases |del|
  {
    if del == [] then s else RemoveColumns(RemoveColumn(s, del[|del|-1]), del[..|del|-1])
  }

  /** The first filter deletes from the decomposition it has, the second one builds it anew from V. */
  function Filtered(l: Limits, s: State, del: seq<nat>): State {
    if l.filter.NoFilter? then s
    else RemoveColumns(s, del).(Q := Without(if l.filter.QR1? then s.Q else s.V, del))
  }

  predicate Relaxes(l: Limits, s: State) { s.first && (s.firstWindow || l.force) }

  predicate Restores(l: Limits, s: State) { !s.firstWindow && Total(s.counts) < 1 && l.reused == 0 && !l.force }

  /** The system that the quasi-Newton step solves with. */
  function System(l: Limits, s: State, independent: bool, newQR: bool, del: seq<nat>): State {
    var a := Update(l, s, independent);
    var b := if Restores(l, a)
             then a.(counts := a.backup.counts, V := a.backup.V, W := a.backup.W, Q := a.backup.V) else a;
    Filtered(l, if newQR && !l.filter.QR2? then b.(Q := b.V) else b, del)
  }

  /** Without reuse the matrices serve the first iteration of the next window and are deleted then. */
  function PendingDeletion(l: Limits, s: State): State {
    if s.first && l.reused == 0 && !l.force then
      var kept := if Total(s.counts) > 0 then s.(backup := Backup(s.counts, s.V, s.W)) else s;
      if s.firstWindow then kept else kept.(counts := [0], V := [], W := [], Q := [])
    else s
  }

  function Accelerate(l: Limits, s: State, independent: bool, newQR: bool, del: seq<nat>): State {
    var a := if Relaxes(l, s) then s else PendingDeletion(l, System(l, s, independent, newQR, del));
    a.(first := false, iteration := s.iteration + 1)
  }

  function WithoutEmptyFront(counts: seq<nat>): seq<nat> {
    if counts != [] && counts[0] == 0 then counts[1..] else counts
  }

  /** The oldest window is dropped when more than `reused` windows are left. */
  function Truncate(l: Limits, s: State): State {
    if l.reused == 0 then (if l.force then s.(counts := [], V := [], W := [], Q := []) else s)
    else if |s.counts| > l.reused then
      var toRemove := s.counts[|s.counts|-1];
      s.(counts := DropLast(s.counts), V := Shortened(s.V, toRemove), W := Shortened(s.W, toRemove),
         Q := Shortened(s.Q, toRemove))
    else s
  }

  function Shortened<T>(s: seq<T>, n: nat): seq<T> { if n <= |s| then s[..|s|-n] else [] }

  /** The columns of the converged window are complete. */
  function Completed(l: Limits, s: State, independent: bool): State {
    var a := Update(l, s, independent);
    a.(counts := WithoutEmptyFront(WithoutEmptyFront(a.counts)), firstWindow := a.firstWindow && a.first)
  }

  /** `iterationsConverged` of the base and the least-squares class. */
  function Converge(l: Limits, s: State, independent: bool): State {
    var c := Truncate(l, Completed(l, s, independent));
    c.(counts := [0] + c.counts, first := true, window := s.window + 1, iteration := 0)
  }

  // ----- whole runs -----

  /** What the scheme calls: an iteration that did not converge, or one that did. */
  datatype Event = Iterate(independent: bool, newQR: bool, del: seq<nat>) | Converges(independent: bool)

  function Step(l: Limits, s: State, e: Event): State {
    match e
    case Iterate(independent, newQR, del) => Accelerate(l, s, independent, newQR, del)
    case Converges(independent) => Converge(l, s, independent)
  }

  function Run(l: Limits, events: seq<Event>): State {
    if events == [] then Initial() else Step(l, Run(l, events[..|events|-1]), events[|events|-1])
  }

  // ----- what every call keeps -----

  predicate ValidLimits(l: Limits) { l.maxColumns > 0 && l.primaryRows <= l.rows }

  predicate CountsMatch(counts: seq<nat>, V: seq<Column>) {
    && counts != [] && Total(counts) == |V|
    && forall i :: 0 < i < |counts| ==> counts[i] > 0
  }

  predicate Inv(l: Limits, s: State) {
    && CountsMatch(s.counts, s.V) && s.V == s.W && |s.V| <= l.maxColumns
    && (l.reused > 0 ==> |s.counts| <= l.reused + 1)
    && (s.first && s.firstWindow ==> s.V == [])
    && (s.first && !s.firstWindow && !(l.force && l.reused == 0) ==> s.V != [])
  }

  /** The positions a filter reports are ascending, and it keeps at least one column. */
  predicate LeavesOne(del: seq<nat>, n: nat) {
    |del| < n && (forall i :: 0 <= i < |del| ==> del[i] < n) && forall i, j :: 0 <= i < j < |del| ==> del[i] < del[j]
  }

  predicate LegalEvent(l: Limits, s: State, e: Event) {
    e.Iterate? && !Relaxes(l, s) && !l.filter.NoFilter? ==> LeavesOne(e.del, |Update(l, s, e.independent).V|)
  }

  lemma {:induction false} TotalOfAppended(a: seq<nat>, b: seq<nat>)
    ensures Total(a + b) == Total(a) + Total(b)
  {
    if a == [] { assert a + b == b; } else {
      assert (a + b)[1..] == a[1..] + b;
      TotalOfAppended(a[1..], b);
    }
  }

  lemma TotalOfLast(counts: seq<nat>)
    requires counts != []
    ensures Total(counts) == Total(DropLast(counts)) + counts[|counts|-1]
  {
    assert counts == DropLast(counts) + [counts[|counts|-1]];
    TotalOfAppended(DropLast(counts), [counts[|counts|-1]]);
  }

  lemma DecrementCounts(counts: seq<nat>)
    requires counts != [] && counts[|counts|-1] > 0
    ensures Total(Decrement(counts)) == Total(counts) - 1
  {
    TotalOfLast(counts);
    if counts[|counts|-1] > 1 {
      TotalOfLast(Decrement(counts));
      assert DropLast(Decrement(counts)) == DropLast(counts);
    }
  }

  lemma UpdateKeeps(l: Limits, s: State, independent: bool)
    requires ValidLimits(l) && Inv(l, s)
    ensures Inv(l, Update(l, s, independent))
    ensures !s.first ==> Update(l, s, independent).V != []
  {
    if !s.first {
      var more := Increment(s.counts);
      assert Total(more) == Total(s.counts) + 1;
      if !(Total(s.counts) != l.maxColumns && Total(s.counts) <= l.rows) {
        DecrementCounts(more);
        assert s.V != [];
      }
    }
  }

  lemma {:induction false} RemoveCountKeeps(counts: seq<nat>, k: nat)
    requires k < Total(counts) && forall i :: 0 < i < |counts| ==> counts[i] > 0
    ensures Total(RemoveCount(counts, k)) == Total(counts) - 1 && |RemoveCount(counts, k)| <= |counts|
    ensures forall i :: 0 < i < |RemoveCount(counts, k)| ==> RemoveCount(counts, k)[i] > 0
    ensures (forall i :: 0 <= i < |counts| ==> counts[i] > 0) ==>
              forall i :: 0 <= i < |RemoveCount(counts, k)| ==> RemoveCount(counts, k)[i] > 0
    decreases |counts|
  {
    if counts[0] <= k { RemoveCountKeeps(counts[1..], k - counts[0]); }
  }

  lemma {:induction false} RemoveColumnsKeeps(l: Limits, s: State, del: seq<nat>)
    requires CountsMatch(s.counts, s.V) && s.V == s.W && LeavesOne(del, |s.V|)
    ensures var r := RemoveColumns(s, del);
            && CountsMatch(r.counts, r.V) && r.V == r.W && r.V == Without(s.V, del)
            && |r.V| == |s.V| - |del| && |r.counts| <= |s.counts| && r == s.(counts := r.counts, V := r.V, W := r.W)
    decreases |del|
  {
    if del != [] {
      var last := del[|del|-1];
      RemoveCountKeeps(s.counts, last);
      RemoveColumnsKeeps(l, RemoveColumn(s, last), del[..|del|-1]);
    }
  }

  lemma FilteredKeeps(l: Limits, s: State, del: seq<nat>)
    requires Inv(l, s) && s.V != [] && (!l.filter.NoFilter? ==> LeavesOne(del, |s.V|))
    ensures Inv(l, Filtered(l, s, del)) && Filtered(l, s, del).V != []
  {
    if !l.filter.NoFilter? { RemoveColumnsKeeps(l, s, del); }
  }

  /** The matrices never have to be restored: whenever a quasi-Newton step begins they have columns. */
  lemma NothingToRestore(l: Limits, s: State, independent: bool)
    requires ValidLimits(l) && Inv(l, s) && !Relaxes(l, s)
    ensures Total(Update(l, s, independent).counts) > 0 && !Restores(l, Update(l, s, independent))
  {
    UpdateKeeps(l, s, independent);
  }

  lemma SystemKeeps(l: Limits, s: State, independent: bool, newQR: bool, del: seq<nat>)
    requires ValidLimits(l) && Inv(l, s) && !Relaxes(l, s)
    requires !l.filter.NoFilter? ==> LeavesOne(del, |Update(l, s, independent).V|)
    ensures var a := System(l, s, independent, newQR, del); Inv(l, a) && a.V != [] && Total(a.counts) > 0
  {
    NothingToRestore(l, s, independent);
    UpdateKeeps(l, s, independent);
    var a := Update(l, s, independent);
    FilteredKeeps(l, if newQR && !l.filter.QR2? then a.(Q := a.V) else a, del);
  }

  lemma TruncateKeeps(l: Limits, s: State)
    requires l.maxColumns > 0 && s.V == s.W && Total(s.counts) == |s.V| <= l.maxColumns
    requires forall i :: 0 <= i < |s.counts| ==> s.counts[i] > 0
    requires l.reused > 0 ==> |s.counts| <= l.reused + 1
    ensures var t := Truncate(l, s);
            && t.V == t.W && Total(t.counts) == |t.V| <= l.maxColumns
            && (forall i :: 0 <= i < |t.counts| ==> t.counts[i] > 0)
            && (l.reused > 0 ==> |t.counts| <= l.reused)
            && (s.V != [] && !(l.force && l.reused == 0) ==> t.V != [])
            && t.first == s.first && t.firstWindow == s.firstWindow
  {
    if l.reused > 0 && |s.counts| > l.reused {
      TotalOfLast(s.counts);
      assert Total(DropLast(s.counts)) >= DropLast(s.counts)[0];
    }
  }

  lemma ConvergeKeeps(l: Limits, s: State, independent: bool)
    requires ValidLimits(l) && Inv(l, s)
    ensures Inv(l, Converge(l, s, independent))
  {
    UpdateKeeps(l, s, independent);
    var a, b := Update(l, s, independent), Completed(l, s, independent);
    assert Total(b.counts) == Total(a.counts);
    TruncateKeeps(l, b);
    assert ([0] + Truncate(l, b).counts)[1..] == Truncate(l, b).counts;
  }

  lemma StepKeeps(l: Limits, s: State, e: Event)
    requires ValidLimits(l) && Inv(l, s) && LegalEvent(l, s, e)
    ensures Inv(l, Step(l, s, e))
  {
    match e
    case Iterate(independent, newQR, del) =>
      if !Relaxes(l, s) { SystemKeeps(l, s, independent, newQR, del); }
    case Converges(independent) => ConvergeKeeps(l, s, independent);
  }

  predicate LegalRun(l: Limits, events: seq<Event>) {
    forall i :: 0 <= i < |events| ==> LegalEvent(l, Run(l, events[..i]), events[i])
  }

  lemma {:induction false} RunKeeps(l: Limits, events: seq<Event>)
    requires ValidLimits(l) && LegalRun(l, events)
    ensures Inv(l, Run(l, events))
    decreases |events|
  {
    if events != [] {
      var before := events[..|events|-1];
      forall i | 0 <= i < |before| ensures LegalEvent(l, Run(l, before[..i]), before[i]) {
        assert before[..i] == events[..i];
      }
      RunKeeps(l, before);
      StepKeeps(l, Run(l, before), events[|events|-1]);
    }
  }

  // ----- the assertions of the code -----

  /** Before the matrices are updated they are equally wide and within the limit. */
  predicate UpdateAssertions(l: Limits, s: State) {
    !s.first ==> |s.V| == |s.W| && Total(s.counts) <= l.maxColumns && Total(s.counts) == |s.V|
  }

  /** Before the oldest window is dropped it has columns, and others remain. */
  predicate TruncateAssertions(l: Limits, s: State) {
    l.reused > 0 && |s.counts| > l.reused ==>
      && s.counts[|s.counts|-1] > 0 && |s.V| == |s.W|
      && Total(s.counts) > s.counts[|s.counts|-1]
  }

  lemma AssertionsHold(l: Limits, s: State, independent: bool)
    requires ValidLimits(l) && Inv(l, s)
    ensures UpdateAssertions(l, s)
    ensures TruncateAssertions(l, Completed(l, s, independent))
    ensures var b := Completed(l, s, independent); b.V == b.W && |b.V| == Total(b.counts)
  {
    UpdateKeeps(l, s, independent);
    var counts := Completed(l, s, independent).counts;
    if l.reused > 0 && |counts| > l.reused {
      TotalOfLast(counts);
      assert Total(DropLast(counts)) >= DropLast(counts)[0];
    }
  }

  /** Bookkeeping over every run: the counters add up to the columns of V and of W, which are the same
      differences and never too many; only the front counter can be zero; the assertions hold; and every
      quasi-Newton step solves with at least one column. */
  lemma BookkeepingOverRuns(l: Limits, events: seq<Event>)
    requires ValidLimits(l) && LegalRun(l, events)
    ensures var s := Run(l, events);
            && Total(s.counts) == |s.V| <= l.maxColumns && s.V == s.W
            && s.counts != [] && (forall i :: 0 < i < |s.counts| ==> s.counts[i] > 0)
            && UpdateAssertions(l, s)
    ensures forall independent: bool, newQR: bool, del: seq<nat> ::
              !Relaxes(l, Run(l, events)) && LegalEvent(l, Run(l, events), Iterate(independent, newQR, del)) ==>
                && System(l, Run(l, events), independent, newQR, del).V != []
                && !Restores(l, Update(l, Run(l, events), independent))
  {
    RunKeeps(l, events);
    var s := Run(l, events);
    AssertionsHold(l, s, false);
    forall independent: bool, newQR: bool, del: seq<nat> |
      !Relaxes(l, s) && LegalEvent(l, s, Iterate(independent, newQR, del))
      ensures System(l, s, independent, newQR, del).V != [] && !Restores(l, Update(l, s, independent))
    {
      SystemKeeps(l, s, independent, newQR, del);
      NothingToRestore(l, s, independent);
    }
  }

  /** After convergence at most `reused` windows remain besides the new one. */
  lemma ReuseLimit(l: Limits, events: seq<Event>, independent: bool)
    requires ValidLimits(l) && LegalRun(l, events) && l.reused > 0
    ensures var s := Converge(l, Run(l, events), independent); s.counts[0] == 0 && |s.counts| - 1 <= l.reused
  {
    RunKeeps(l, events);
    var s := Run(l, events);
    UpdateKeeps(l, s, independent);
    TruncateKeeps(l, Completed(l, s, independent));
  }
}
