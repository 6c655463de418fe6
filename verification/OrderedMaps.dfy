/** Ordered maps as the sequence of their entries with strictly ascending ranks. */
module OrderedMaps {

  datatype Pair<T> = Pair(rank: int, value: T)

  predicate Ascending<T>(m: seq<Pair<T>>) { forall i, j :: 0 <= i < j < |m| ==> m[i].rank < m[j].rank }

  /** Inserts an entry unless its rank is already present. */
  function Emplace<T>(m: seq<Pair<T>>, e: Pair<T>): seq<Pair<T>> {
    if m == [] || e.rank < m[0].rank then [e] + m
    else if e.rank == m[0].rank then m
    else [m[0]] + Emplace(m[1..], e)
  }

  function EmplaceAll<T>(es: seq<Pair<T>>): seq<Pair<T>> {
    if es == [] then [] else Emplace(EmplaceAll(es[..|es|-1]), es[|es|-1])
  }

  lemma {:induction false} EmplaceAscends<T>(m: seq<Pair<T>>, e: Pair<T>)
    requires Ascending(m)
    ensures Ascending(Emplace(m, e))
    ensures forall i :: 0 <= i < |Emplace(m, e)| ==> Emplace(m, e)[i] == e || Emplace(m, e)[i] in m
  {
    if m != [] && e.rank > m[0].rank {
      EmplaceAscends(m[1..], e);
      assert m == [m[0]] + m[1..];
    }
  }

  lemma {:induction false} EmplaceAtEnd<T>(m: seq<Pair<T>>, e: Pair<T>)
    requires forall i :: 0 <= i < |m| ==> m[i].rank < e.rank
    ensures Emplace(m, e) == m + [e]
  {
    if m != [] {
      EmplaceAtEnd(m[1..], e);
      assert m == [m[0]] + m[1..];
    }
  }

  lemma {:induction false} EmplaceAllAscends<T>(es: seq<Pair<T>>)
    ensures Ascending(EmplaceAll(es))
  {
    if es != [] {
      EmplaceAllAscends(es[..|es|-1]);
      EmplaceAscends(EmplaceAll(es[..|es|-1]), es[|es|-1]);
    }
  }

  lemma {:induction false} EmplaceAllSorted<T>(es: seq<Pair<T>>)
    requires Ascending(es)
    ensures EmplaceAll(es) == es
  {
    if es != [] {
      var before, e := es[..|es|-1], es[|es|-1];
      EmplaceAllSorted(before);
      EmplaceAtEnd(before, e);
      assert es == before + [e];
    }
  }

  predicate HasRank<T>(m: seq<Pair<T>>, rank: int) { exists i :: 0 <= i < |m| && m[i].rank == rank }

  /** `p` is the first entry of its rank. */
  predicate IsFirst<T(==)>(es: seq<Pair<T>>, p: Pair<T>) {
    es != [] &&
    var before, e := es[..|es|-1], es[|es|-1];
    IsFirst(before, p) || (p == e && !HasRank(before, e.rank))
  }

  lemma HasRankCons<T>(x: Pair<T>, m: seq<Pair<T>>, rank: int)
    ensures HasRank([x] + m, rank) <==> x.rank == rank || HasRank(m, rank)
  {
    var c := [x] + m;
    if i :| 0 <= i < |m| && m[i].rank == rank { assert c[i + 1].rank == rank; }
    if i :| 0 <= i < |c| && c[i].rank == rank { assert i > 0 ==> m[i - 1].rank == rank; }
    assert c[0] == x;
  }

  lemma {:induction false} EmplaceHolds<T>(m: seq<Pair<T>>, e: Pair<T>, p: Pair<T>)
    requires Ascending(m)
    ensures p in Emplace(m, e) <==> p in m || (p == e && !HasRank(m, e.rank))
    ensures forall rank: int :: HasRank(Emplace(m, e), rank) <==> HasRank(m, rank) || rank == e.rank
  {
    forall rank: int ensures HasRank([e] + m, rank) <==> rank == e.rank || HasRank(m, rank) {
      HasRankCons(e, m, rank);
    }
    if m != [] && e.rank > m[0].rank {
      EmplaceHolds(m[1..], e, p);
      assert m == [m[0]] + m[1..];
      forall rank: int
        ensures HasRank(Emplace(m, e), rank) <==> HasRank(m, rank) || rank == e.rank
        ensures HasRank(m, rank) <==> rank == m[0].rank || HasRank(m[1..], rank)
      {
        HasRankCons(m[0], m[1..], rank);
        HasRankCons(m[0], Emplace(m[1..], e), rank);
      }
    }
  }

  lemma HasRankMore<T>(m: seq<Pair<T>>, x: Pair<T>, rank: int)
    ensures HasRank(m + [x], rank) <==> HasRank(m, rank) || x.rank == rank
  {
    var c := m + [x];
    if i :| 0 <= i < |m| && m[i].rank == rank { assert c[i].rank == rank; }
    assert c[|m|] == x;
  }

  /** Exactly the first entry of every rank is kept. */
  lemma {:induction false} FirstEntriesAreKept<T>(es: seq<Pair<T>>, p: Pair<T>)
    ensures p in EmplaceAll(es) <==> IsFirst(es, p)
    ensures forall rank: int :: HasRank(EmplaceAll(es), rank) <==> HasRank(es, rank)
  {
    if es != [] {
      var before, e := es[..|es|-1], es[|es|-1];
      EmplaceAllAscends(before);
      EmplaceHolds(EmplaceAll(before), e, p);
      FirstEntriesAreKept(before, p);
      assert es == before + [e];
      forall rank: int ensures HasRank(es, rank) <==> HasRank(before, rank) || rank == e.rank {
        HasRankMore(before, e, rank);
      }
    }
  }

  lemma EmplaceLast<T>(es: seq<Pair<T>>, e: Pair<T>, rest: seq<Pair<T>>)
    ensures EmplaceAll(es + [e]) == Emplace(EmplaceAll(es), e)
    ensures es + ([e] + rest) == (es + [e]) + rest
  {
    assert (es + [e])[..|es|] == es;
  }
}
