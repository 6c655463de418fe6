/** Which local vertices a rank exchanges with which remote rank. */
module CommunicationMaps {

  predicate Ascending(s: seq<int>) { forall i, j :: 0 <= i < j < |s| ==> s[i] < s[j] }

  /** The positions below `n` of the elements of `a` that also occur in `b`, in order. */
  function Common(a: seq<int>, b: seq<int>, n: nat): (r: seq<nat>)
    requires n <= |a|
    ensures forall k :: 0 <= k < |r| ==> r[k] < n && a[r[k]] in b
  {
    if n == 0 then [] else Common(a, b, n - 1) + if a[n-1] in b then [n - 1] else []
  }

  /** Walks through two ascending sequences at once. */
  method SetIntersectionIndices(a: seq<int>, b: seq<int>) returns (r: seq<nat>)
    requires Ascending(a) && Ascending(b)
    ensures r == Common(a, b, |a|)
  {
    r := [];
    var i, j := 0, 0;
    while i < |a| && j < |b|
      invariant i <= |a| && j <= |b| && r == Common(a, b, i)
      invariant forall k, m :: 0 <= k < j && i <= m < |a| ==> b[k] < a[m]
    {
      if a[i] < b[j] {
        i := i + 1;
      } else {
        if !(b[j] < a[i]) {
          r := r + [i];
          i := i + 1;
        }
        j := j + 1;
      }
    }
    NothingMore(a, b, i, |a|);
  }

  lemma {:induction false} NothingMore(a: seq<int>, b: seq<int>, i: nat, n: nat)
    requires i <= n <= |a| && forall m :: i <= m < n ==> a[m] !in b
    ensures Common(a, b, n) == Common(a, b, i)
  {
    if i < n { NothingMore(a, b, i, n - 1); }
  }

  // ----- the map of one rank -----

  type Distribution = map<nat, seq<int>>

  predicate Sorted(d: Distribution) { forall r <- d :: Ascending(d[r]) }

  function Vertices(d: Distribution, rank: nat): seq<int> { if rank in d then d[rank] else [] }

  /** The local positions of the vertices shared with a remote rank. */
  function Shared(here: Distribution, there: Distribution, rank: nat, remote: nat): seq<nat> {
    Common(Vertices(here, rank), Vertices(there, remote), |Vertices(here, rank)|)
  }

  function CommunicationMap(here: Distribution, there: Distribution, rank: nat): map<nat, seq<nat>> {
    map remote | remote in there && Shared(here, there, rank, remote) != [] :: Shared(here, there, rank, remote)
  }

  method BuildCommunicationMap(here: Distribution, there: Distribution, rank: nat) returns (m: map<nat, seq<nat>>)
    requires Sorted(here) && Sorted(there)
    ensures m == CommunicationMap(here, there, rank)
  {
    m := map[];
    if rank !in here {
      return;
    }
    var mine := here[rank];
    var todo := there.Keys;
    while todo != {}
      invariant todo <= there.Keys
      invariant m == map r | r in there.Keys - todo && Shared(here, there, rank, r) != [] ::
                  Shared(here, there, rank, r)
    {
      var remote :| remote in todo;
      var vertices := there[remote];
      todo := todo - {remote};
      if mine == [] || vertices == [] || vertices[|vertices|-1] < mine[0] || vertices[0] > mine[|mine|-1] {
        Apart(mine, vertices, |mine|);
        continue;
      }
      var inters := SetIntersectionIndices(mine, vertices);
      if inters != [] {
        m := m[remote := inters];
      }
    }
  }

  /** The comparison of the bounds never drops a shared vertex. */
  lemma {:induction false} Apart(a: seq<int>, b: seq<int>, n: nat)
    requires Ascending(a) && Ascending(b) && n <= |a|
    requires a == [] || b == [] || b[|b|-1] < a[0] || b[0] > a[|a|-1]
    ensures Common(a, b, n) == []
  {
    if n > 0 { Apart(a, b, n - 1); }
  }

  // ----- both ends list the same vertices in the same order -----

  function Named(a: seq<int>, indices: seq<nat>): (r: seq<int>)
    requires forall k :: 0 <= k < |indices| ==> indices[k] < |a|
    ensures |r| == |indices|
  {
    seq(|indices|, k requires 0 <= k < |indices| => a[indices[k]])
  }

  lemma {:induction false} CommonAscends(a: seq<int>, b: seq<int>, n: nat)
    requires n <= |a|
    ensures Ascending(Common(a, b, n))
  {
    if n > 0 { CommonAscends(a, b, n - 1); }
  }

  lemma {:induction false} CommonComplete(a: seq<int>, b: seq<int>, n: nat, i: nat)
    requires i < n <= |a| && a[i] in b
    ensures i in Common(a, b, n)
  {
    if i < n - 1 { CommonComplete(a, b, n - 1, i); }
  }

  lemma NamedAscends(a: seq<int>, b: seq<int>)
    requires Ascending(a)
    ensures Ascending(Named(a, Common(a, b, |a|)))
    ensures forall g :: g in Named(a, Common(a, b, |a|)) <==> g in a && g in b
  {
    CommonAscends(a, b, |a|);
    var c := Common(a, b, |a|);
    forall g | g in a && g in b ensures g in Named(a, c) {
      var i :| 0 <= i < |a| && a[i] == g;
      CommonComplete(a, b, |a|, i);
      var k :| 0 <= k < |c| && c[k] == i;
      assert Named(a, c)[k] == g;
    }
  }

  /** An ascending sequence is determined by its elements. */
  lemma {:induction false} AscendingUnique(s: seq<int>, t: seq<int>)
    requires Ascending(s) && Ascending(t) && forall g :: g in s <==> g in t
    ensures s == t
  {
    assert (s != [] ==> s[|s|-1] in s) && (t != [] ==> t[|t|-1] in t);
    assert s != [] ==> s[|s|-1] in t;
    assert t != [] ==> t[|t|-1] in s;
    if s != [] {
      var a, b := s[..|s|-1], t[..|t|-1];
      var k :| 0 <= k < |s| && s[k] == t[|t|-1];
      var m :| 0 <= m < |t| && t[m] == s[|s|-1];
      assert s[|s|-1] == t[|t|-1];
      forall g ensures g in a <==> g in b {
        assert g in a <==> g in s && g != s[|s|-1];
        assert g in b <==> g in t && g != t[|t|-1];
      }
      AscendingUnique(a, b);
      assert s == a + [s[|s|-1]] && t == b + [t[|t|-1]];
    }
  }

  lemma SameVertices(a: seq<int>, b: seq<int>)
    requires Ascending(a) && Ascending(b)
    ensures Named(a, Common(a, b, |a|)) == Named(b, Common(b, a, |b|))
  {
    NamedAscends(a, b);
    NamedAscends(b, a);
    AscendingUnique(Named(a, Common(a, b, |a|)), Named(b, Common(b, a, |b|)));
  }

  lemma SameEntry(a: seq<int>, b: seq<int>, k: nat)
    requires Ascending(a) && Ascending(b) && k < |Common(b, a, |b|)|
    ensures k < |Common(a, b, |a|)| && a[Common(a, b, |a|)[k]] == b[Common(b, a, |b|)[k]]
  {
    SameVertices(a, b);
    assert Named(a, Common(a, b, |a|))[k] == Named(b, Common(b, a, |b|))[k];
  }

  /** Rank `p` lists rank `q` exactly when `q` lists `p`; the lists are equally long and their
      `k`-th entries name the same vertex. */
  lemma MapsAreSymmetric(here: Distribution, there: Distribution, p: nat, q: nat)
    requires Sorted(here) && Sorted(there) && p in here && q in there
    ensures q in CommunicationMap(here, there, p) <==> p in CommunicationMap(there, here, q)
    ensures q in CommunicationMap(here, there, p) ==>
              var mine, theirs := CommunicationMap(here, there, p)[q], CommunicationMap(there, here, q)[p];
              && |mine| == |theirs|
              && forall k :: 0 <= k < |mine| ==>
                   mine[k] < |here[p]| && theirs[k] < |there[q]| && here[p][mine[k]] == there[q][theirs[k]]
  {
    SameVertices(here[p], there[q]);
    var mine, theirs := Shared(here, there, p, q), Shared(there, here, q, p);
    forall k | 0 <= k < |mine| ensures here[p][mine[k]] == there[q][theirs[k]] {
      assert Named(here[p], mine)[k] == Named(there[q], theirs)[k];
    }
  }

  /** An acceptor waits for as many clients as connect to it. */
  lemma ClientsMatch(acceptors: Distribution, requesters: Distribution, p: nat)
    requires Sorted(acceptors) && Sorted(requesters) && p in acceptors
    ensures CommunicationMap(acceptors, requesters, p).Keys
            == set q | q in requesters && p in CommunicationMap(requesters, acceptors, q)
    ensures |CommunicationMap(acceptors, requesters, p)|
            == |set q | q in requesters && p in CommunicationMap(requesters, acceptors, q)|
  {
    forall q | q in requesters
      ensures q in CommunicationMap(acceptors, requesters, p) <==> p in CommunicationMap(requesters, acceptors, q)
    {
      MapsAreSymmetric(acceptors, requesters, p, q);
    }
    assert CommunicationMap(acceptors, requesters, p).Keys
        == set q | q in requesters && p in CommunicationMap(requesters, acceptors, q);
  }
}
