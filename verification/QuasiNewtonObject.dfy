/** The quasi-Newton acceleration object, proved against the state machine of its bookkeeping. */
module QuasiNewtonObject {
  import opened ColumnMatrices
  import opened QuasiNewton
  import opened QuasiNewtonDifferences

  /** One step of the search for a counter. */
  lemma RemoveCountAt(counts: seq<nat>, i: nat, k: nat)
    requires i < |counts|
    ensures var found := counts[..i] + RemoveCount(counts[i..], k);
            if counts[i] > k
            then found == if counts[i] == 1 then counts[..i] + counts[i + 1..] else counts[i := counts[i] - 1]
            else found == counts[..i + 1] + RemoveCount(counts[i + 1..], k - counts[i])
  {
    var rest := counts[i..];
    assert rest[1..] == counts[i + 1..] && rest[0] == counts[i];
    if counts[i] > k {
      assert counts[i] != 1 ==> counts[..i] + ([rest[0] - 1] + rest[1..]) == counts[i := counts[i] - 1];
    } else {
      assert counts[..i] + ([rest[0]] + RemoveCount(rest[1..], k - rest[0]))
             == counts[..i + 1] + RemoveCount(rest[1..], k - rest[0]);
    }
  }

  class QNAcceleration {
    const limits: Limits

    var matrixCols: seq<nat>
    var matrixV: seq<Column>
    var matrixW: seq<Column>
    var qrV: seq<Column>
    var firstIteration: bool
    var firstTimeWindow: bool
    var matrixColsBackup: seq<nat>
    var matrixVBackup: seq<Column>
    var matrixWBackup: seq<Column>
    var tWindows: nat
    var its: nat

    ghost function View(): State
      reads this
    {
      State(matrixCols, matrixV, matrixW, qrV, firstIteration, firstTimeWindow,
            Backup(matrixColsBackup, matrixVBackup, matrixWBackup), tWindows, its)
    }

    ghost predicate Valid()
      reads this
    {
      ValidLimits(limits) && Inv(limits, View())
    }

    constructor (limits: Limits)
      requires ValidLimits(limits)
      ensures Valid() && this.limits == limits && View() == Initial()
    {
      this.limits := limits;
      matrixCols, matrixV, matrixW, qrV := [0], [], [], [];
      firstIteration, firstTimeWindow := true, true;
      matrixColsBackup, matrixVBackup, matrixWBackup := [], [], [];
      tWindows, its := 0, 0;
    }

    method GetLSSystemCols() returns (cols: nat)
      ensures cols == Total(matrixCols)
    {
      cols := 0;
      for i := 0 to |matrixCols|
        invariant Total(matrixCols) == cols + Total(matrixCols[i..])
      {
        cols := cols + matrixCols[i];
        assert matrixCols[i..][1..] == matrixCols[i + 1..];
      }
    }

    /** The decomposition refuses columns it cannot orthogonalize. */
    method PushFront(c: Column, independent: bool)
      modifies this`qrV
      ensures qrV == if Accepts(limits, old(View()), independent) then [c] + old(qrV) else old(qrV)
    {
      if independent && |qrV| < limits.primaryRows {
        qrV := [c] + qrV;
      }
    }

    method UpdateDifferenceMatrices(independent: bool)
      requires Valid()
      modifies this`matrixCols, this`matrixV, this`matrixW, this`qrV
      ensures Valid() && View() == Update(limits, old(View()), independent)
      ensures firstIteration ==> View() == old(View())
      ensures !firstIteration ==>
                var n := |old(matrixV)|;
                && matrixV == [Column(tWindows, its)]
                              + old(matrixV)[..if n < limits.maxColumns && n <= limits.rows then n else n - 1]
                && matrixW == matrixV
                && (independent && |old(qrV)| < limits.primaryRows && (|matrixV| > n || old(qrV) != []) ==>
                      qrV != [] && qrV[0] == matrixV[0])
    {
      if !firstIteration { UpdateTakesNewest(limits, View(), independent); }
      UpdateKeeps(limits, View(), independent);
      if firstIteration {
        return;
      }
      var cols := GetLSSystemCols();
      var columnLimitReached := cols == limits.maxColumns;
      var overdetermined := cols <= limits.rows;
      if !columnLimitReached && overdetermined {
        AppendColumn(independent);
      } else {
        ShiftColumns(independent);
      }
    }

    method AppendColumn(independent: bool)
      requires Valid() && !firstIteration && |matrixV| != limits.maxColumns && |matrixV| <= limits.rows
      modifies this`matrixCols, this`matrixV, this`matrixW, this`qrV
      ensures View() == Update(limits, old(View()), independent)
    {
      var c := Column(tWindows, its);
      matrixV := AppendFront(matrixV, c);
      matrixW := AppendFront(matrixW, c);
      PushFront(c, independent);
      matrixCols := matrixCols[0 := matrixCols[0] + 1];
    }

    method ShiftColumns(independent: bool)
      requires Valid() && !firstIteration && !(|matrixV| != limits.maxColumns && |matrixV| <= limits.rows)
      modifies this`matrixCols, this`matrixV, this`matrixW, this`qrV
      ensures View() == Update(limits, old(View()), independent)
    {
      var c := Column(tWindows, its);
      matrixV := ShiftSetFirst(matrixV, c);
      matrixW := ShiftSetFirst(matrixW, c);
      PushFront(c, independent);
      qrV := DropLast(qrV);
      CountShift();
      assert DropLast([c] + old(matrixV)) == [c] + DropLast(old(matrixV));
    }

    method CountShift()
      requires matrixCols != [] && (|matrixCols| > 1 ==> matrixCols[|matrixCols|-1] > 0)
      modifies this`matrixCols
      ensures matrixCols == Decrement(Increment(old(matrixCols)))
    {
      matrixCols := matrixCols[0 := matrixCols[0] + 1];
      var last := |matrixCols| - 1;
      matrixCols := matrixCols[last := matrixCols[last] - 1];
      if matrixCols[last] == 0 {
        matrixCols := matrixCols[..last];
      }
    }

    /** Finds the counter of the group that holds the column. */
    method CountRemoval(k: nat)
      requires k < Total(matrixCols)
      modifies this`matrixCols
      ensures matrixCols == RemoveCount(old(matrixCols), k)
    {
      var i, cols := 0, 0;
      while i < |matrixCols|
        invariant i <= |matrixCols| && matrixCols == old(matrixCols) && cols <= k
        invariant RemoveCount(matrixCols, k) == matrixCols[..i] + RemoveCount(matrixCols[i..], k - cols)
      {
        RemoveCountAt(matrixCols, i, k - cols);
        cols := cols + matrixCols[i];
        if cols > k {
          matrixCols := if matrixCols[i] == 1 then matrixCols[..i] + matrixCols[i + 1..]
                        else matrixCols[i := matrixCols[i] - 1];
          return;
        }
        i := i + 1;
      }
    }

    method RemoveMatrixColumn(k: nat)
      requires CountsMatch(matrixCols, matrixV) && matrixV == matrixW && |matrixV| > 1 && k < |matrixV|
      modifies this`matrixCols, this`matrixV, this`matrixW
      ensures View() == RemoveColumn(old(View()), k)
    {
      matrixV := RemoveColumnFromMatrix(matrixV, k);
      matrixW := RemoveColumnFromMatrix(matrixW, k);
      CountRemoval(k);
    }

    /** Removes columns from V and W, the last one first. */
    method RemoveMatrixColumns(del: seq<nat>)
      requires CountsMatch(matrixCols, matrixV) && matrixV == matrixW && LeavesOne(del, |matrixV|)
      modifies this`matrixCols, this`matrixV, this`matrixW
      ensures View() == RemoveColumns(old(View()), del)
    {
      ghost var s := View();
      var i := |del|;
      assert del[..i] == del;
      while i > 0
        invariant 0 <= i <= |del| && LeavesOne(del[..i], |matrixV|)
        invariant CountsMatch(matrixCols, matrixV) && matrixV == matrixW
        invariant RemoveColumns(View(), del[..i]) == RemoveColumns(s, del)
      {
        assert del[..i][..i - 1] == del[..i - 1] && del[..i][i - 1] == del[i - 1];
        RemoveColumnsKeeps(limits, View(), [del[i - 1]]);
        i := i - 1;
        RemoveMatrixColumn(del[i]);
      }
    }

    /** Removes the columns a filter has found. */
    method ApplyFilter(del: seq<nat>)
      requires Valid() && matrixV != [] && (!limits.filter.NoFilter? ==> LeavesOne(del, |matrixV|))
      modifies this`matrixCols, this`matrixV, this`matrixW, this`qrV
      ensures Valid() && View() == Filtered(limits, old(View()), del) && matrixV != []
      ensures !limits.filter.NoFilter? ==>
                && matrixV == Without(old(matrixV), del) && matrixW == Without(old(matrixW), del)
                && qrV == Without(if limits.filter.QR1? then old(qrV) else old(matrixV), del)
    {
      FilteredKeeps(limits, View(), del);
      if !limits.filter.NoFilter? { RemoveColumnsKeeps(limits, View(), del); }
      if limits.filter.NoFilter? {
        return;
      }
      var q := DeleteColumns(if limits.filter.QR1? then qrV else matrixV, del);
      RemoveMatrixColumns(del);
      qrV := q;
    }

    /** Everything up to the quasi-Newton step, which solves with the result. */
    method PrepareSystem(independent: bool, newQR: bool, del: seq<nat>)
      requires Valid() && !Relaxes(limits, View())
      requires !limits.filter.NoFilter? ==> LeavesOne(del, |Update(limits, View(), independent).V|)
      modifies this`matrixCols, this`matrixV, this`matrixW, this`qrV
      ensures Valid() && View() == System(limits, old(View()), independent, newQR, del)
      ensures matrixV != [] && Total(matrixCols) > 0
    {
      NothingToRestore(limits, View(), independent);
      SystemKeeps(limits, View(), independent, newQR, del);
      UpdateDifferenceMatrices(independent);
      var cols := GetLSSystemCols();
      if !firstTimeWindow && cols < 1 && limits.reused == 0 && !limits.force {
        // restoring the backup would follow, but the matrices are never empty here
        assert false;
      }
      if newQR && !limits.filter.QR2? {
        qrV := matrixV;
      }
      ApplyFilter(del);
    }

    method DeletePending()
      requires Total(matrixCols) > 0
      modifies this`matrixCols, this`matrixV, this`matrixW, this`qrV,
               this`matrixColsBackup, this`matrixVBackup, this`matrixWBackup
      ensures View() == PendingDeletion(limits, old(View()))
    {
      if firstIteration && limits.reused == 0 && !limits.force {
        matrixColsBackup, matrixVBackup, matrixWBackup := matrixCols, matrixV, matrixW;
        if !firstTimeWindow {
          matrixCols, matrixV, matrixW, qrV := [0], [], [], [];
        }
      }
    }

    method RelaxOrStep(independent: bool, newQR: bool, del: seq<nat>)
      requires Valid() && LegalEvent(limits, View(), Iterate(independent, newQR, del))
      modifies this`matrixCols, this`matrixV, this`matrixW, this`qrV,
               this`matrixColsBackup, this`matrixVBackup, this`matrixWBackup
      ensures var s := old(View());
              View() == if Relaxes(limits, s) then s
                        else PendingDeletion(limits, System(limits, s, independent, newQR, del))
    {
      if !(firstIteration && (firstTimeWindow || limits.force)) {
        PrepareSystem(independent, newQR, del);
        DeletePending();
      }
    }

    method PerformAcceleration(independent: bool, newQR: bool, del: seq<nat>)
      requires Valid() && LegalEvent(limits, View(), Iterate(independent, newQR, del))
      modifies this
      ensures Valid() && View() == Accelerate(limits, old(View()), independent, newQR, del)
    {
      StepKeeps(limits, View(), Iterate(independent, newQR, del));
      RelaxOrStep(independent, newQR, del);
      its := its + 1;
      firstIteration := false;
    }

    /** Drops the columns of the oldest window. */
    method RemoveOldest()
      requires matrixV == matrixW && matrixCols != [] && matrixCols[|matrixCols|-1] <= |matrixV|
      modifies this`matrixCols, this`matrixV, this`matrixW, this`qrV
      ensures var n := old(matrixCols)[|old(matrixCols)|-1];
              && matrixCols == DropLast(old(matrixCols)) && matrixV == Shortened(old(matrixV), n)
              && matrixW == Shortened(old(matrixW), n) && qrV == Shortened(old(qrV), n)
    {
      var toRemove := matrixCols[|matrixCols|-1];
      for i := 0 to toRemove
        invariant matrixCols == old(matrixCols) && matrixV == Shortened(old(matrixV), i)
        invariant matrixW == Shortened(old(matrixW), i) && qrV == Shortened(old(qrV), i)
      {
        matrixV := RemoveColumnFromMatrix(matrixV, |matrixV| - 1);
        matrixW := RemoveColumnFromMatrix(matrixW, |matrixW| - 1);
        qrV := DropLast(qrV);
      }
      matrixCols := matrixCols[..|matrixCols| - 1];
    }

    /** Keeps the columns of as many windows as shall be reused. */
    method LimitReuse()
      requires TruncateAssertions(limits, View()) && matrixV == matrixW && |matrixV| == Total(matrixCols)
      modifies this`matrixCols, this`matrixV, this`matrixW, this`qrV
      ensures View() == Truncate(limits, old(View()))
    {
      if limits.reused == 0 {
        if limits.force {
          matrixCols, matrixV, matrixW, qrV := [], [], [], [];
        }
      } else if |matrixCols| > limits.reused {
        RemoveOldest();
      }
    }

    method RemoveEmptyFront()
      modifies this`matrixCols
      ensures matrixCols == WithoutEmptyFront(old(matrixCols))
    {
      if matrixCols != [] && matrixCols[0] == 0 {
        matrixCols := matrixCols[1..];
      }
    }

    method CompleteWindow(independent: bool)
      requires Valid()
      modifies this`matrixCols, this`matrixV, this`matrixW, this`qrV, this`firstTimeWindow
      ensures View() == Completed(limits, old(View()), independent)
    {
      UpdateDifferenceMatrices(independent);
      RemoveEmptyFront();
      RemoveEmptyFront();
      if !firstIteration {
        firstTimeWindow := false;
      }
    }

    method OpenWindow()
      modifies this`matrixCols, this`firstIteration, this`its, this`tWindows
      ensures var s := old(View());
              View() == s.(counts := [0] + s.counts, first := true, window := s.window + 1, iteration := 0)
    {
      matrixCols := [0] + matrixCols;
      firstIteration := true;
      its := 0;
      tWindows := tWindows + 1;
    }

    method IterationsConverged(independent: bool)
      requires Valid()
      modifies this
      ensures Valid() && View() == Converge(limits, old(View()), independent)
    {
      ConvergeKeeps(limits, View(), independent);
      AssertionsHold(limits, View(), independent);
      CompleteWindow(independent);
      LimitReuse();
      OpenWindow();
    }
  }

  method DeleteColumns(Q: seq<Column>, del: seq<nat>) returns (R: seq<Column>)
    ensures R == Without(Q, del)
  {
    R := Q;
    var i := |del|;
    assert del[..i] == del;
    while i > 0
      invariant 0 <= i <= |del| && Without(R, del[..i]) == Without(Q, del)
    {
      assert del[..i][..i - 1] == del[..i - 1];
      i := i - 1;
      R := RemoveAt(R, del[i]);
    }
  }
}
