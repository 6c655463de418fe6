/** The ring connection of `size` ranks: every rank accepts a connection from the left and requests one to
    the right.  Both calls block until the two sides meet. */
module Ring {

  datatype Call = Accept | Request

  /** What `connectCircularComm` calls, in order. */
  function Calls(rank: nat, size: nat): seq<Call> {
    if size == 1 then [] else if rank % 2 == 0 then [Accept, Request] else [Request, Accept]
  }

  function Next(rank: nat, size: nat): (r: nat)
    requires rank < size
    ensures r < size
  {
    (rank + 1) % size
  }

  function Previous(rank: nat, size: nat): (r: nat)
    requires rank < size
    ensures r < size
  {
    (rank - 1 + size) % size
  }

  lemma ModuloOnce(x: nat, size: nat)
    requires x < size
    ensures (x + size) % size == x
  {
    var q := (x + size) / size - 1;
    assert q * size == x - (x + size) % size;
    assert (q >= 1 ==> q * size >= size) && (q <= -1 ==> q * size <= 0 - size);
  }

  lemma NextIs(i: nat, size: nat)
    requires i < size
    ensures Next(i, size) == if i + 1 == size then 0 else i + 1
  {
  }

  lemma PreviousIs(i: nat, size: nat)
    requires i < size
    ensures Previous(i, size) == if i == 0 then size - 1 else i - 1
  {
    if i > 0 { ModuloOnce(i - 1, size); }
  }

  /** Whom a rank requests from accepts from it, and whom it accepts from requests from it. */
  lemma NeighboursAgree(rank: nat, size: nat)
    requires rank < size
    ensures Next(Previous(rank, size), size) == rank && Previous(Next(rank, size), size) == rank
  {
    NextIs(rank, size);
    PreviousIs(rank, size);
    NextIs(Previous(rank, size), size);
    PreviousIs(Next(rank, size), size);
  }

  /** How many calls each rank has completed. */
  type State = seq<nat>

  predicate Valid(s: State) { forall i :: 0 <= i < |s| ==> s[i] <= |Calls(i, |s|)| }

  predicate AtCall(s: State, i: nat, c: Call)
    requires i < |s|
  {
    s[i] < |Calls(i, |s|)| && Calls(i, |s|)[s[i]] == c
  }

  /** Rank `i` requests the connection that its right neighbour accepts. */
  predicate Enabled(s: State, i: nat)
    requires i < |s|
  {
    AtCall(s, i, Request) && AtCall(s, Next(i, |s|), Accept)
  }

  function Meet(s: State, i: nat): (t: State)
    requires i < |s|
    ensures |t| == |s|
  {
    Counted(Counted(s, i), Next(i, |s|))
  }

  /** Rank `i` completes a call. */
  function Counted(s: State, i: nat): State
    requires i < |s|
  {
    s[i := s[i] + 1]
  }

  predicate Finished(s: State) { forall i :: 0 <= i < |s| ==> s[i] == |Calls(i, |s|)| }

  function Initial(size: nat): State { seq(size, i => 0) }

  datatype Reached = None | Some(s: State)

  /** The state after the ranks in `order` have met their right neighbours one after another, or `None` if
      two of them could not meet. */
  function Run(size: nat, order: seq<nat>): Reached {
    if order == [] then Some(Initial(size))
    else
      var r := Run(size, order[..|order|-1]);
      var i := order[|order|-1];
      if r.Some? && i < |r.s| && Enabled(r.s, i) then Some(Meet(r.s, i)) else None
  }

  // ----- both ends of a connection agree -----

  predicate Requested(s: State, i: nat)
    requires i < |s|
  {
    if i % 2 == 0 then s[i] == 2 else s[i] >= 1
  }

  predicate Accepted(s: State, i: nat)
    requires i < |s|
  {
    if i % 2 == 0 then s[i] >= 1 else s[i] == 2
  }

  predicate Inv(s: State) {
    && |s| >= 2
    && (forall i :: 0 <= i < |s| ==> s[i] <= 2)
    && forall i :: 0 <= i < |s| ==> (Requested(s, i) <==> Accepted(s, Next(i, |s|)))
  }

  lemma MeetKeeps(s: State, i: nat)
    requires Inv(s) && i < |s| && Enabled(s, i)
    ensures Inv(Meet(s, i)) && |Meet(s, i)| == |s|
  {
    var t := Meet(s, i);
    NextIs(i, |s|);
    forall k | 0 <= k < |s| ensures Requested(t, k) <==> Accepted(t, Next(k, |s|)) {
      NextIs(k, |s|);
    }
  }

  function Total(s: State): nat { if s == [] then 0 else Total(s[..|s|-1]) + s[|s|-1] }

  lemma {:induction false} TotalOfCounted(s: State, i: nat)
    requires i < |s|
    ensures Total(Counted(s, i)) == Total(s) + 1
  {
    if i == |s| - 1 {
      assert Counted(s, i)[..i] == s[..i];
    } else {
      assert Counted(s, i)[..|s|-1] == Counted(s[..|s|-1], i);
      TotalOfCounted(s[..|s|-1], i);
    }
  }

  lemma {:induction false} TotalOfConstant(s: State, c: nat)
    requires forall i :: 0 <= i < |s| ==> s[i] <= c
    ensures Total(s) <= c * |s|
    ensures Total(s) == c * |s| <==> forall i :: 0 <= i < |s| ==> s[i] == c
  {
    if s != [] {
      TotalOfConstant(s[..|s|-1], c);
      assert c * |s| == c * (|s| - 1) + c;
    }
  }

  lemma MeetCounts(s: State, i: nat)
    requires |s| >= 2 && i < |s|
    ensures Total(Meet(s, i)) == Total(s) + 2
  {
    TotalOfCounted(s, i);
    TotalOfCounted(Counted(s, i), Next(i, |s|));
  }

  lemma {:induction false} RunKeeps(size: nat, order: seq<nat>)
    requires size >= 2 && Run(size, order).Some?
    ensures var s := Run(size, order).s; Inv(s) && |s| == size && Total(s) == 2 * |order|
    decreases |order|
  {
    if order == [] {
      TotalOfConstant(Initial(size), 0);
    } else {
      var before, i := order[..|order|-1], order[|order|-1];
      RunKeeps(size, before);
      var s := Run(size, before).s;
      MeetKeeps(s, i);
      MeetCounts(s, i);
    }
  }

  // ----- no deadlock -----

  /** An odd rank that has not requested can meet its neighbour at once. */
  lemma OddCanRequest(s: State, i: nat)
    requires Inv(s) && i < |s| && i % 2 == 1 && s[i] == 0
    ensures Enabled(s, i)
  {
    NextIs(i, |s|);
  }

  /** Once all odd ranks have requested, an even rank that has accepted can request. */
  lemma EvenCanRequest(s: State, i: nat)
    requires Inv(s) && i < |s| && i % 2 == 0 && s[i] == 1
    requires forall k :: 0 <= k < |s| && k % 2 == 1 ==> s[k] >= 1
    ensures Enabled(s, i)
  {
    NextIs(i, |s|);
  }

  /** If nobody can request, every even rank has accepted. */
  lemma EvenHasAccepted(s: State, i: nat)
    requires Inv(s) && i < |s| && i % 2 == 0
    requires forall k :: 0 <= k < |s| && k % 2 == 1 ==> s[k] >= 1
    requires forall k :: 0 <= k < |s| && k % 2 == 0 ==> s[k] != 1
    ensures s[i] == 2
  {
    if i > 0 {
      NextIs(i - 1, |s|);
      assert Requested(s, i - 1);
    } else {
      var last := |s| - 1;
      NextIs(last, |s|);
      if last % 2 == 0 {
        NextIs(last - 1, |s|);
        assert Requested(s, last - 1);
      }
      assert Requested(s, last);
    }
  }

  lemma SomeoneCanMeet(s: State)
    requires Inv(s) && !Finished(s)
    ensures exists i :: 0 <= i < |s| && Enabled(s, i)
  {
    if i :| 0 <= i < |s| && i % 2 == 1 && s[i] == 0 {
      OddCanRequest(s, i);
    } else if i :| 0 <= i < |s| && i % 2 == 0 && s[i] == 1 {
      EvenCanRequest(s, i);
    } else {
      forall i | 0 <= i < |s| ensures s[i] == 2 {
        if i % 2 == 0 { EvenHasAccepted(s, i); } else {
          EvenHasAccepted(s, i - 1);
          NextIs(i - 1, |s|);
          assert Requested(s, i - 1);
        }
      }
      assert false;
    }
  }

  /** For every number of ranks and every order of meetings: as long as not all calls have returned two ranks
      can meet, and all calls have returned after exactly `size` meetings. */
  lemma RingConnects(size: nat, order: seq<nat>)
    requires size >= 2 && Run(size, order).Some?
    ensures var s := Run(size, order).s;
            && |s| == size && |order| <= size && (Finished(s) <==> |order| == size)
            && (!Finished(s) ==> exists i: nat :: i < size && Run(size, order + [i]).Some?)
  {
    RunKeeps(size, order);
    var s := Run(size, order).s;
    TotalOfConstant(s, 2);
    assert Finished(s) <==> forall i :: 0 <= i < |s| ==> s[i] == 2;
    if !Finished(s) {
      SomeoneCanMeet(s);
      var i: nat :| i < |s| && Enabled(s, i);
      assert (order + [i])[..|order|] == order;
      assert Run(size, order + [i]).Some?;
    }
  }
}
