/** Matrices that grow and shrink by columns; a matrix is the sequence of its columns. */
module ColumnMatrices {

  function RemoveAt<T>(s: seq<T>, k: nat): seq<T> { if k < |s| then s[..k] + s[k+1..] else s }

  function DropLast<T>(s: seq<T>): seq<T> { if s == [] then [] else s[..|s|-1] }

  /** Removes the elements at the given positions, the last one first. */
  function Without<T>(s: seq<T>, del: seq<nat>): seq<T>
    decreases |del|
  {
    if del == [] then s else Without(RemoveAt(s, del[|del|-1]), del[..|del|-1])
  }

  predicate Ascending(del: seq<nat>, n: nat) {
    (forall i :: 0 <= i < |del| ==> del[i] < n) && forall i, j :: 0 <= i < j < |del| ==> del[i] < del[j]
  }

  /** How many of the positions lie before `i`. */
  function Below(del: seq<nat>, i: nat): nat {
    if del == [] then 0 else Below(del[..|del|-1], i) + if del[|del|-1] < i then 1 else 0
  }

  lemma {:induction false} AllBelow(del: seq<nat>, i: nat)
    requires forall k :: 0 <= k < |del| ==> del[k] < i
    ensures Below(del, i) == |del|
    decreases |del|
  {
    if del != [] { AllBelow(del[..|del|-1], i); }
  }

  lemma RemovedAt<T>(s: seq<T>, k: nat, i: nat)
    requires k < |s| && i < |s| && i != k
    ensures |RemoveAt(s, k)| == |s| - 1 && RemoveAt(s, k)[if i < k then i else i - 1] == s[i]
  {
  }

  lemma BeforeLast(del: seq<nat>, n: nat, i: nat)
    requires del != [] && Ascending(del, n) && i !in del
    ensures var before, last := del[..|del|-1], del[|del|-1];
            && last < n && i != last && Ascending(before, n - 1) && i !in before
            && (i > last ==> i - 1 !in before && Below(before, i - 1) == Below(before, i) == |before|)
            && Below(del, i) == Below(before, i) + if last < i then 1 else 0
  {
    var before, last := del[..|del|-1], del[|del|-1];
    assert forall j :: 0 <= j < |before| ==> before[j] == del[j] < last;
    if i > last {
      AllBelow(before, i);
      AllBelow(before, i - 1);
    }
  }

  /** Exactly the given positions are removed: every other element moves forward by the number of positions before
      it. */
  lemma {:induction false} OthersRemain<T>(s: seq<T>, del: seq<nat>, i: nat)
    requires Ascending(del, |s|) && i < |s| && i !in del
    ensures |Without(s, del)| == |s| - |del|
    ensures 0 <= i - Below(del, i) < |Without(s, del)| && Without(s, del)[i - Below(del, i)] == s[i]
    decreases |del|
  {
    if del != [] {
      var before, last := del[..|del|-1], del[|del|-1];
      BeforeLast(del, |s|, i);
      RemovedAt(s, last, i);
      OthersRemain(RemoveAt(s, last), before, if i < last then i else i - 1);
    }
  }

  method AppendFront<T>(A: seq<T>, v: T) returns (B: seq<T>)
    ensures B == [v] + A
  {
    B := A + [v];
    var i := |A|;
    while i > 0
      invariant 0 <= i <= |A| && |B| == |A| + 1
      invariant forall j :: 0 <= j <= i && j < |A| ==> B[j] == A[j]
      invariant B[i + 1..] == A[i..]
    {
      B := B[i := B[i - 1]];
      i := i - 1;
    }
    B := B[0 := v];
  }

  method ShiftSetFirst<T>(A: seq<T>, v: T) returns (B: seq<T>)
    requires A != []
    ensures B == [v] + DropLast(A)
  {
    B := A;
    var i := |A| - 1;
    while i > 0
      invariant 0 <= i < |A| && |B| == |A|
      invariant forall j :: 0 <= j <= i ==> B[j] == A[j]
      invariant B[i + 1..] == A[i..|A| - 1]
    {
      B := B[i := B[i - 1]];
      i := i - 1;
    }
    B := B[0 := v];
  }

  method RemoveColumnFromMatrix<T>(A: seq<T>, col: nat) returns (B: seq<T>)
    requires col < |A|
    ensures B == RemoveAt(A, col)
  {
    B := A;
    for j := col to |A| - 1
      invariant |B| == |A|
      invariant forall i :: 0 <= i < col || j <= i < |A| ==> B[i] == A[i]
      invariant B[col..j] == A[col + 1..j + 1]
    {
      assert A[col + 1..j + 2] == A[col + 1..j + 1] + [A[j + 1]];
      B := B[j := B[j + 1]];
      assert B[col..j + 1] == B[col..j] + [A[j + 1]];
    }
    B := B[..|A| - 1];
  }
}
