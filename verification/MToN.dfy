/** Exchange of distributed data between the ranks of two participants: directly from rank to rank, and
    through one global array on the primary ranks. */
module MToN {
  import opened Sums
  import opened CommunicationMaps
  import opened Blocks

  // ----- the common specification -----

  /** Rank `r`'s share of position `d` of vertex `g`. */
  function RankShare(d: Distribution, items: seq<seq<real>>, dim: nat, g: int, k: int): int -> real {
    r => if 0 <= r < |items| then Spread(items[r], Vertices(d, r), dim, g, k) else 0.0
  }

  /** Position `k` of global vertex `g`: the sum over all ranks that hold the vertex. */
  function Global(d: Distribution, items: seq<seq<real>>, dim: nat, g: int, k: int): real {
    Sum(RankShare(d, items, dim, g, k), 0, |items|)
  }

  /** The items of each rank hold a block for each of its vertices. */
  predicate Carries(d: Distribution, items: seq<seq<real>>, dim: nat) {
    forall r :: 0 <= r < |items| ==> |items[r]| >= |Vertices(d, r)| * dim
  }

  predicate Ranks(d: Distribution, n: nat) { forall r <- d :: r < n }

  // ----- one pair of ranks -----

  lemma PickedBlock(x: seq<real>, indices: seq<int>, dim: nat, k: nat, d: nat)
    requires d < dim && k < |indices|
    ensures At(Picked(x, indices, dim), k * dim + d) == At(x, indices[k] * dim + d)
  {
    BlockFits(k, |indices|, dim);
    BlockOf(k, dim, k * dim + d);
  }

  lemma SpreadOfOne(src: seq<real>, indices: seq<int>, dim: nat, v: int, d: int, k: nat)
    requires Ascending(indices) && k < |indices| && indices[k] == v
    ensures Spread(src, indices, dim, v, d) == At(src, k * dim + d)
  {
    SumOne(Share(src, indices, dim, v, d), k, 0, |indices|);
  }

  lemma SpreadOfNone(src: seq<real>, indices: seq<int>, dim: nat, v: int, d: int)
    requires v !in indices
    ensures Spread(src, indices, dim, v, d) == 0.0
  {
    SumZero(Share(src, indices, dim, v, d), 0, |indices|);
  }

  lemma PickedSpread(x: seq<real>, from: seq<int>, to: seq<int>, a: seq<int>, dim: nat, v: nat, d: nat, k: nat)
    requires Ascending(to) && Ascending(a) && d < dim && k < |from| == |to| && to[k] == v && 0 <= from[k] < |a|
    ensures Spread(Picked(x, from, dim), to, dim, v, d) == Spread(x, a, dim, a[from[k]], d)
  {
    PickedBlock(x, from, dim, k, d);
    SpreadOfOne(Picked(x, from, dim), to, dim, v, d, k);
    SpreadOfOne(x, a, dim, a[from[k]], d, from[k]);
  }

  /** The picked blocks of the shared vertices spread to the same values as all blocks of the sender. */
  lemma PairAgrees(a: seq<int>, b: seq<int>, x: seq<real>, dim: nat, v: nat, d: nat)
    requires Ascending(a) && Ascending(b) && d < dim && v < |b|
    ensures Spread(Picked(x, Common(a, b, |a|), dim), Common(b, a, |b|), dim, v, d) == Spread(x, a, dim, b[v], d)
  {
    var i, j := Common(a, b, |a|), Common(b, a, |b|);
    if b[v] in a {
      CommonComplete(b, a, |b|, v);
      CommonAscends(b, a, |b|);
      SameVertices(a, b);
      var k :| 0 <= k < |j| && j[k] == v;
      SameEntry(a, b, k);
      PickedSpread(x, i, j, a, dim, v, d, k);
    } else {
      SpreadOfNone(Picked(x, i, dim), j, dim, v, d);
      SpreadOfNone(x, a, dim, b[v], d);
    }
  }

  // ----- point to point -----

  datatype Mapping = Mapping(remote: nat, indices: seq<nat>)

  /** The entries of a communication map in the order of the remote ranks. */
  function MappingsOf(m: map<nat, seq<nat>>, n: nat): seq<Mapping> {
    if n == 0 then [] else MappingsOf(m, n - 1) + if n - 1 in m then [Mapping(n - 1, m[n - 1])] else []
  }

  function Incoming(mappings: seq<Mapping>, arriving: map<nat, seq<real>>, dim: nat, v: int, d: int): int -> real {
    m => if 0 <= m < |mappings| && mappings[m].remote in arriving
         then Spread(arriving[mappings[m].remote], mappings[m].indices, dim, v, d) else 0.0
  }

  /** What one rank sends to another. */
  function Sent(here: Distribution, there: Distribution, items: seq<real>, dim: nat, rank: nat, remote: nat): seq<real>
    requires dim > 0
  {
    Picked(items, Shared(here, there, rank, remote), dim)
  }

  class PointToPoint {
    const rank: nat
    var mappings: seq<Mapping>

    constructor (rank: nat)
      ensures this.rank == rank && mappings == []
    {
      this.rank, mappings := rank, [];
    }

    /** Builds the mappings; `remoteRanks` bounds the ranks of the other participant. */
    method Connect(here: Distribution, there: Distribution, remoteRanks: nat)
      requires Sorted(here) && Sorted(there) && Ranks(there, remoteRanks)
      modifies this
      ensures mappings == MappingsOf(CommunicationMap(here, there, rank), remoteRanks)
    {
      var m := BuildCommunicationMap(here, there, rank);
      mappings := [];
      for r := 0 to remoteRanks
        invariant mappings == MappingsOf(m, r)
      {
        if r in m {
          mappings := mappings + [Mapping(r, m[r])];
        }
      }
    }

    method Send(items: seq<real>, dim: nat) returns (messages: map<nat, seq<real>>)
      requires dim > 0
      requires items != [] ==>
                 forall m, i :: 0 <= m < |mappings| && 0 <= i < |mappings[m].indices| ==>
                   Fits(mappings[m].indices[i], dim, |items|)
      requires forall m, k :: 0 <= m < k < |mappings| ==> mappings[m].remote != mappings[k].remote
      ensures items == [] ==> messages == map[]
      ensures items != [] ==> messages.Keys == set m | 0 <= m < |mappings| :: mappings[m].remote
      ensures items != [] ==>
                forall m :: 0 <= m < |mappings| ==>
                  messages[mappings[m].remote] == Picked(items, mappings[m].indices, dim)
    {
      messages := map[];
      if mappings == [] || items == [] {
        return;
      }
      for m := 0 to |mappings|
        invariant messages.Keys == set k | 0 <= k < m :: mappings[k].remote
        invariant forall k :: 0 <= k < m ==> messages[mappings[k].remote] == Picked(items, mappings[k].indices, dim)
      {
        var buffer := PushBlocks(items, mappings[m].indices, dim);
        messages := messages[mappings[m].remote := buffer];
      }
    }

    method Receive(items: array<real>, dim: nat, arriving: map<nat, seq<real>>)
      requires dim > 0
      requires forall m :: 0 <= m < |mappings| ==>
                 mappings[m].remote in arriving && |arriving[mappings[m].remote]| == |mappings[m].indices| * dim
      requires forall m, i :: 0 <= m < |mappings| && 0 <= i < |mappings[m].indices| ==>
                 Fits(mappings[m].indices[i], dim, items.Length)
      modifies items
      ensures mappings == [] ==> items[..] == old(items[..])
      ensures mappings != [] ==>
                forall q :: 0 <= q < items.Length ==>
                  items[q] == Sum(Incoming(mappings, arriving, dim, q / dim, q % dim), 0, |mappings|)
    {
      if mappings == [] || items.Length == 0 {
        return;
      }
      for q := 0 to items.Length
        invariant forall k :: 0 <= k < q ==> items[k] == 0.0
      {
        items[q] := 0.0;
      }
      for m := 0 to |mappings|
        invariant forall q :: 0 <= q < items.Length ==>
                    items[q] == Sum(Incoming(mappings, arriving, dim, q / dim, q % dim), 0, m)
      {
        AddToIndirectBlocks(arriving[mappings[m].remote], mappings[m].indices, dim, items);
      }
    }
  }

  lemma {:induction false} MappingsFacts(m: map<nat, seq<nat>>, n: nat)
    ensures forall k :: 0 <= k < |MappingsOf(m, n)| ==>
              var e := MappingsOf(m, n)[k]; e.remote < n && e.remote in m && e.indices == m[e.remote]
    ensures forall j, k :: 0 <= j < k < |MappingsOf(m, n)| ==> MappingsOf(m, n)[j].remote != MappingsOf(m, n)[k].remote
    ensures forall r <- m :: r < n ==> Mapping(r, m[r]) in MappingsOf(m, n)
  {
    if n > 0 { MappingsFacts(m, n - 1); }
  }

  /** One more rank in the list of mappings. */
  lemma OneMoreMapping(before: seq<Mapping>, e: Mapping, arriving: map<nat, seq<real>>, dim: nat, v: int, d: int)
    ensures Sum(Incoming(before + [e], arriving, dim, v, d), 0, |before| + 1)
            == Sum(Incoming(before, arriving, dim, v, d), 0, |before|)
               + if e.remote in arriving then Spread(arriving[e.remote], e.indices, dim, v, d) else 0.0
  {
    SumSame(Incoming(before + [e], arriving, dim, v, d), Incoming(before, arriving, dim, v, d), 0, |before|);
  }

  /** The sum over all mappings is the sum over all ranks. */
  lemma {:induction false} MappingsCoverRanks(m: map<nat, seq<nat>>, n: nat, arriving: map<nat, seq<real>>, dim: nat,
                                              v: int, d: int,
                                              share: int -> real)
    requires forall r :: 0 <= r < n ==>
               share(r) == if r in m && r in arriving then Spread(arriving[r], m[r], dim, v, d) else 0.0
    ensures Sum(Incoming(MappingsOf(m, n), arriving, dim, v, d), 0, |MappingsOf(m, n)|) == Sum(share, 0, n)
  {
    if n > 0 {
      var r := n - 1;
      MappingsCoverRanks(m, r, arriving, dim, v, d, share);
      assert Sum(share, 0, n) == Sum(share, 0, r) + share(r);
      if r in m {
        OneMoreMapping(MappingsOf(m, r), Mapping(r, m[r]), arriving, dim, v, d);
        assert MappingsOf(m, n) == MappingsOf(m, r) + [Mapping(r, m[r])];
      } else {
        assert MappingsOf(m, n) == MappingsOf(m, r);
      }
    }
  }

  lemma ShareOfRank(senders: Distribution, receivers: Distribution, items: seq<seq<real>>, dim: nat, rank: nat, r: nat,
                    v: nat, d: nat)
    requires Sorted(senders) && Sorted(receivers) && r < |items|
    requires rank in receivers && v < |receivers[rank]| && d < dim
    ensures var m := CommunicationMap(receivers, senders, rank);
            RankShare(senders, items, dim, receivers[rank][v], d)(r)
            == if r in m then Spread(Sent(senders, receivers, items[r], dim, r, rank), m[r], dim, v, d) else 0.0
  {
    var a, b := Vertices(senders, r), receivers[rank];
    PairAgrees(a, b, items[r], dim, v, d);
    if r !in CommunicationMap(receivers, senders, rank) {
      assert Common(b, a, |b|) == [];
      SpreadOfNone(Picked(items[r], Common(a, b, |a|), dim), Common(b, a, |b|), dim, v, d);
    }
  }

  /** A rank that has a mapping receives the sum over all ranks that hold its vertices. */
  lemma PointToPointReceives(senders: Distribution, receivers: Distribution, items: seq<seq<real>>, dim: nat, rank: nat,
                             arriving: map<nat, seq<real>>, v: nat, d: nat)
    requires Sorted(senders) && Sorted(receivers) && Ranks(senders, |items|)
    requires rank in receivers && v < |receivers[rank]| && d < dim
    requires forall r <- CommunicationMap(receivers, senders, rank) ::
               r in arriving && r < |items| && arriving[r] == Sent(senders, receivers, items[r], dim, r, rank)
    ensures var mappings := MappingsOf(CommunicationMap(receivers, senders, rank), |items|);
            Sum(Incoming(mappings, arriving, dim, v, d), 0, |mappings|)
            == Global(senders, items, dim, receivers[rank][v], d)
  {
    var m := CommunicationMap(receivers, senders, rank);
    var share := RankShare(senders, items, dim, receivers[rank][v], d);
    forall r | 0 <= r < |items|
      ensures share(r) == if r in m && r in arriving then Spread(arriving[r], m[r], dim, v, d) else 0.0
    {
      ShareOfRank(senders, receivers, items, dim, rank, r, v, d);
    }
    MappingsCoverRanks(m, |items|, arriving, dim, v, d, share);
  }

  // ----- gather and scatter -----

  /** All vertices are numbered below `n`. */
  predicate Within(d: Distribution, n: nat) { forall r, i :: r in d && 0 <= i < |d[r]| ==> 0 <= d[r][i] < n }

  /** What the secondary rank `r` sends has the size the primary rank reads from it. */
  predicate MessageFits(d: Distribution, items: seq<seq<real>>, dim: nat, r: nat)
    requires r < |items|
  {
    |items[r]| == |Vertices(d, r)| * dim
  }

  predicate MessagesFit(d: Distribution, items: seq<seq<real>>, dim: nat) {
    forall r: nat :: 0 < r < |items| ==> MessageFits(d, items, dim, r)
  }

  lemma AllFit(indices: seq<int>, n: nat, dim: nat)
    requires forall i :: 0 <= i < |indices| ==> 0 <= indices[i] < n
    ensures forall i :: 0 <= i < |indices| ==> Fits(indices[i], dim, n * dim)
  {
    forall i | 0 <= i < |indices| ensures Fits(indices[i], dim, n * dim) { BlockFits(indices[i], n, dim); }
  }

  /** `items[0]` belongs to the primary rank and may be longer than needed, the others are what the secondary ranks
      send to it; `ok` says whether every message has the size it is read with. */
  method Gather(d: Distribution, items: seq<seq<real>>, dim: nat, vertices: nat) returns (ok: bool, global: array<real>)
    requires 0 in d && items != [] && dim > 0 && Within(d, vertices) && |items[0]| >= |d[0]| * dim
    ensures ok <==> MessagesFit(d, items, dim)
    ensures fresh(global) && global.Length == vertices * dim
    ensures ok ==> forall q :: 0 <= q < global.Length ==> global[q] == Global(d, items, dim, q / dim, q % dim)
  {
    global := new real[vertices * dim](_ => 0.0);
    AllFit(d[0], vertices, dim);
    AddToIndirectBlocks(items[0], d[0], dim, global);
    ok := true;
    for r := 1 to |items|
      invariant forall k: nat :: 0 < k < r ==> MessageFits(d, items, dim, k)
      invariant forall q :: 0 <= q < global.Length ==>
        global[q] == Sum(RankShare(d, items, dim, q / dim, q % dim), 0, r)
    {
      if |items[r]| != (if r in d then |d[r]| else 0) * dim {
        ok := false;
        assert !MessageFits(d, items, dim, r);
        return;
      }
      if r !in d || d[r] == [] {
        continue;
      }
      AllFit(d[r], vertices, dim);
      AddToIndirectBlocks(items[r], d[r], dim, global);
    }
  }

  /** The primary rank keeps its own part at the beginning of its buffer; a rank without vertices is sent nothing. */
  method Scatter(d: Distribution, global: seq<real>, dim: nat, vertices: nat, ranks: nat, own: array<real>)
    returns (messages: map<nat, seq<real>>)
    requires ranks > 0
    requires 0 in d && dim > 0 && Within(d, vertices) && |global| == vertices * dim && own.Length >= |d[0]| * dim
    modifies own
    ensures own[..] == Picked(global, d[0], dim) + old(own[..])[|d[0]| * dim..]
    ensures messages == map r: nat | 0 < r < ranks && r in d && d[r] != [] :: Picked(global, d[r], dim)
  {
    AllFit(d[0], vertices, dim);
    CopyFromIndirectBlocks(global, d[0], dim, own);
    messages := map[];
    for r: nat := 1 to ranks
      invariant own[..] == Picked(global, d[0], dim) + old(own[..])[|d[0]| * dim..]
      invariant messages.Keys == set k: nat | 0 < k < r && k in d && d[k] != []
      invariant forall k <- messages :: messages[k] == Picked(global, d[k], dim)
    {
      if r !in d || d[r] == [] {
        continue;
      }
      AllFit(d[r], vertices, dim);
      var values := new real[|d[r]| * dim];
      CopyFromIndirectBlocks(global, d[r], dim, values);
      messages := messages[r := values[..]];
    }
  }

  // ----- the two agree -----

  /** Every entry of a buffer of a rank with vertices `b` is the sum over all ranks that hold its vertex. */
  predicate Delivered(d: Distribution, items: seq<seq<real>>, dim: nat, b: seq<int>, result: seq<real>)
    requires dim > 0
  {
    && |result| >= |b| * dim
    && forall v, k {:trigger Slot(v, k, dim)} :: 0 <= v < |b| && 0 <= k < dim ==>
         At(result, Slot(v, k, dim)) == Global(d, items, dim, b[v], k)
  }

  function Slot(v: int, k: int, dim: nat): int { v * dim + k }

  /** What is scattered from the gathered array is what is to be delivered. */
  lemma GatherScatterDelivers(d: Distribution, items: seq<seq<real>>, dim: nat, vertices: nat, global: seq<real>,
                              b: seq<int>)
    requires dim > 0 && |global| == vertices * dim && forall i :: 0 <= i < |b| ==> 0 <= b[i] < vertices
    requires forall q :: 0 <= q < |global| ==> global[q] == Global(d, items, dim, q / dim, q % dim)
    ensures Delivered(d, items, dim, b, Picked(global, b, dim))
  {
    forall v, k | 0 <= v < |b| && 0 <= k < dim
      ensures At(Picked(global, b, dim), Slot(v, k, dim)) == Global(d, items, dim, b[v], k)
    {
      PickedBlock(global, b, dim, v, k);
      BlockFits(b[v], vertices, dim);
      BlockOf(b[v], dim, b[v] * dim + k);
    }
  }

  lemma BothExchangesAgree(d: Distribution, items: seq<seq<real>>, dim: nat, b: seq<int>, s: seq<real>, t: seq<real>)
    requires dim > 0 && Delivered(d, items, dim, b, s) && Delivered(d, items, dim, b, t)
    ensures s[..|b| * dim] == t[..|b| * dim]
  {
    forall q | 0 <= q < |b| * dim ensures s[q] == t[q] {
      EntryIsSlot(q, |b|, dim);
      assert At(s, Slot(q / dim, q % dim, dim)) == At(t, Slot(q / dim, q % dim, dim));
    }
  }

  lemma EntryIsSlot(q: nat, n: nat, dim: nat)
    requires dim > 0 && q < n * dim
    ensures 0 <= q / dim < n && Slot(q / dim, q % dim, dim) == q
  {
    if q / dim >= n { Multiples(q / dim - n, dim); }
  }

  /** A vertex that one rank holds arrives with the values of that rank. */
  lemma OwnerDelivers(d: Distribution, items: seq<seq<real>>, dim: nat, b: seq<int>, result: seq<real>, v: nat, k: nat,
                      r: nat, i: nat)
    requires dim > 0 && Sorted(d) && Delivered(d, items, dim, b, result) && v < |b| && k < dim && r < |items|
    requires i < |Vertices(d, r)| && Vertices(d, r)[i] == b[v]
    requires forall other: nat :: other < |items| && other != r ==> b[v] !in Vertices(d, other)
    ensures At(result, Slot(v, k, dim)) == At(items[r], Slot(i, k, dim))
  {
    var share := RankShare(d, items, dim, b[v], k);
    forall other | 0 <= other < |items| && other != r ensures share(other) == 0.0 {
      SpreadOfNone(items[other], Vertices(d, other), dim, b[v], k);
    }
    SumOne(share, r, 0, |items|);
    SpreadOfOne(items[r], Vertices(d, r), dim, b[v], k, i);
    assert Slot(v, k, dim) == v * dim + k;
  }

  /** A vertex that no rank holds arrives as zero. */
  lemma NobodyDelivers(d: Distribution, items: seq<seq<real>>, dim: nat, b: seq<int>, result: seq<real>, v: nat, k: nat)
    requires dim > 0 && Delivered(d, items, dim, b, result) && v < |b| && k < dim
    requires forall r: nat :: r < |items| ==> b[v] !in Vertices(d, r)
    ensures At(result, Slot(v, k, dim)) == 0.0
  {
    var share := RankShare(d, items, dim, b[v], k);
    forall r | 0 <= r < |items| ensures share(r) == 0.0 {
      SpreadOfNone(items[r], Vertices(d, r), dim, b[v], k);
    }
    SumZero(share, 0, |items|);
    assert Slot(v, k, dim) == v * dim + k;
  }

  // ----- whole exchanges -----

  /** All indices of a connected rank lie within its buffer. */
  lemma ConnectionFits(here: Distribution, there: Distribution, rank: nat, n: nat, dim: nat, length: nat)
    requires length >= |Vertices(here, rank)| * dim
    ensures var mappings := MappingsOf(CommunicationMap(here, there, rank), n);
            forall m, i :: 0 <= m < |mappings| && 0 <= i < |mappings[m].indices| ==>
              Fits(mappings[m].indices[i], dim, length)
  {
    var mappings := MappingsOf(CommunicationMap(here, there, rank), n);
    MappingsFacts(CommunicationMap(here, there, rank), n);
    forall m, i | 0 <= m < |mappings| && 0 <= i < |mappings[m].indices|
      ensures Fits(mappings[m].indices[i], dim, length)
    {
      BlockFits(mappings[m].indices[i], |Vertices(here, rank)|, dim);
    }
  }

  /** One sending rank connects and sends; `message` is what it sends to `rank`. */
  method SendFrom(senders: Distribution, receivers: Distribution, items: seq<real>, dim: nat, r: nat, rank: nat,
                  receiverRanks: nat)
    returns (sends: bool, message: seq<real>)
    requires Sorted(senders) && Sorted(receivers) && Ranks(receivers, receiverRanks) && rank in receivers && dim > 0
    requires |items| >= |Vertices(senders, r)| * dim
    ensures sends <==> r in senders && r in CommunicationMap(receivers, senders, rank)
    ensures sends ==> message == Sent(senders, receivers, items, dim, r, rank)
  {
    var m := CommunicationMap(senders, receivers, r);
    var p := new PointToPoint(r);
    p.Connect(senders, receivers, receiverRanks);
    ConnectionFits(senders, receivers, r, receiverRanks, dim, |items|);
    MappingsFacts(m, receiverRanks);
    var messages := p.Send(items, dim);
    if r in senders { MapsAreSymmetric(senders, receivers, r, rank); }
    sends := rank in messages;
    if rank in m {
      assert Mapping(rank, m[rank]) in p.mappings;
      BlockFits(0, |Vertices(senders, r)|, dim);
    }
    if sends { message := messages[rank]; } else { message := []; }
  }

  /** What arrives at a rank when all ranks of the other side have connected and sent their items. */
  method CollectSends(senders: Distribution, receivers: Distribution, items: seq<seq<real>>, dim: nat, rank: nat,
                      receiverRanks: nat)
    returns (arriving: map<nat, seq<real>>)
    requires Sorted(senders) && Sorted(receivers) && Ranks(senders, |items|) && Ranks(receivers, receiverRanks)
    requires Carries(senders, items, dim) && dim > 0 && rank in receivers
    ensures arriving.Keys == CommunicationMap(receivers, senders, rank).Keys
    ensures forall r <- arriving :: r < |items| && arriving[r] == Sent(senders, receivers, items[r], dim, r, rank)
  {
    arriving := map[];
    for r := 0 to |items|
      invariant arriving.Keys == set k: nat | k < r && k in CommunicationMap(receivers, senders, rank)
      invariant forall k <- arriving :: k < |items| && arriving[k] == Sent(senders, receivers, items[k], dim, k, rank)
    {
      var sends, message := SendFrom(senders, receivers, items[r], dim, r, rank, receiverRanks);
      if sends { arriving := arriving[r := message]; }
    }
  }

  lemma BuffersFit(senders: Distribution, receivers: Distribution, items: seq<seq<real>>, dim: nat, rank: nat,
                   arriving: map<nat, seq<real>>)
    requires Sorted(senders) && Sorted(receivers) && rank in receivers && dim > 0
    requires arriving.Keys == CommunicationMap(receivers, senders, rank).Keys
    requires forall r <- arriving :: r < |items| && arriving[r] == Sent(senders, receivers, items[r], dim, r, rank)
    ensures var mappings := MappingsOf(CommunicationMap(receivers, senders, rank), |items|);
            forall m :: 0 <= m < |mappings| ==>
              mappings[m].remote in arriving && |arriving[mappings[m].remote]| == |mappings[m].indices| * dim
  {
    MappingsFacts(CommunicationMap(receivers, senders, rank), |items|);
    forall r <- arriving ensures |arriving[r]| == |CommunicationMap(receivers, senders, rank)[r]| * dim {
      SameVertices(senders[r], receivers[rank]);
    }
  }

  /** The buffer of a rank after all ranks have connected and sent their items directly. */
  method PointToPointExchange(senders: Distribution, receivers: Distribution, items: seq<seq<real>>, dim: nat,
                              rank: nat,
                              receiverRanks: nat, buffer: array<real>)
    requires Sorted(senders) && Sorted(receivers) && Ranks(senders, |items|) && Ranks(receivers, receiverRanks)
    requires Carries(senders, items, dim) && dim > 0 && rank in receivers && buffer.Length >= |receivers[rank]| * dim
    modifies buffer
    ensures CommunicationMap(receivers, senders, rank) != map[] ==>
              Delivered(senders, items, dim, receivers[rank], buffer[..])
    ensures CommunicationMap(receivers, senders, rank) == map[] ==> buffer[..] == old(buffer[..])
  {
    ghost var m := CommunicationMap(receivers, senders, rank);
    var receiver := new PointToPoint(rank);
    receiver.Connect(receivers, senders, |items|);
    var arriving := CollectSends(senders, receivers, items, dim, rank, receiverRanks);
    BuffersFit(senders, receivers, items, dim, rank, arriving);
    ConnectionFits(receivers, senders, rank, |items|, dim, buffer.Length);
    MappingsFacts(m, |items|);
    receiver.Receive(buffer, dim, arriving);
    if m != map[] {
      var r :| r in m;
      assert Mapping(r, m[r]) in receiver.mappings;
      MappingsDeliver(senders, receivers, items, dim, rank, arriving, buffer[..]);
    }
  }

  lemma MappingsDeliver(senders: Distribution, receivers: Distribution, items: seq<seq<real>>, dim: nat, rank: nat,
                        arriving: map<nat, seq<real>>, result: seq<real>)
    requires Sorted(senders) && Sorted(receivers) && Ranks(senders, |items|) && dim > 0 && rank in receivers
    requires |result| >= |receivers[rank]| * dim && arriving.Keys == CommunicationMap(receivers, senders, rank).Keys
    requires forall r <- arriving :: r < |items| && arriving[r] == Sent(senders, receivers, items[r], dim, r, rank)
    requires var mappings := MappingsOf(CommunicationMap(receivers, senders, rank), |items|);
             forall q :: 0 <= q < |result| ==>
               result[q] == Sum(Incoming(mappings, arriving, dim, q / dim, q % dim), 0, |mappings|)
    ensures Delivered(senders, items, dim, receivers[rank], result)
  {
    forall v, k | 0 <= v < |receivers[rank]| && 0 <= k < dim
      ensures At(result, Slot(v, k, dim)) == Global(senders, items, dim, receivers[rank][v], k)
    {
      BlockFits(v, |receivers[rank]|, dim);
      BlockOf(v, dim, Slot(v, k, dim));
      PointToPointReceives(senders, receivers, items, dim, rank, arriving, v, k);
    }
  }

  /** A rank without a mapping shares no vertex, so zeros would be delivered; it keeps its buffer instead. */
  lemma WithoutMapping(senders: Distribution, receivers: Distribution, items: seq<seq<real>>, dim: nat, rank: nat,
                       buffer: seq<real>)
    requires Sorted(senders) && Sorted(receivers) && Ranks(senders, |items|) && dim > 0 && rank in receivers
    requires CommunicationMap(receivers, senders, rank) == map[] && |buffer| >= |receivers[rank]| * dim
    ensures Delivered(senders, items, dim, receivers[rank], buffer)
            <==> forall q :: 0 <= q < |receivers[rank]| * dim ==> buffer[q] == 0.0
  {
    var b := receivers[rank];
    forall v, k | 0 <= v < |b| && 0 <= k < dim ensures Global(senders, items, dim, b[v], k) == 0.0 {
      PointToPointReceives(senders, receivers, items, dim, rank, map[], v, k);
      MappingsFacts(map[], |items|);
    }
    forall v, k | 0 <= v < |b| && 0 <= k < dim ensures 0 <= Slot(v, k, dim) < |b| * dim { BlockFits(v, |b|, dim); }
    if Delivered(senders, items, dim, b, buffer) {
      forall q | 0 <= q < |b| * dim ensures buffer[q] == 0.0 {
        EntryIsSlot(q, |b|, dim);
        assert At(buffer, Slot(q / dim, q % dim, dim)) == Global(senders, items, dim, b[q / dim], q % dim);
      }
    }
  }

  /** A longer buffer is delivered at its beginning. */
  lemma DeliveredAtBeginning(d: Distribution, items: seq<seq<real>>, dim: nat, b: seq<int>, s: seq<real>,
                             rest: seq<real>)
    requires dim > 0 && |s| == |b| * dim && Delivered(d, items, dim, b, s)
    ensures Delivered(d, items, dim, b, s + rest)
  {
    forall v, k | 0 <= v < |b| && 0 <= k < dim
      ensures At(s + rest, Slot(v, k, dim)) == Global(d, items, dim, b[v], k)
    {
      BlockFits(v, |b|, dim);
      assert At(s, Slot(v, k, dim)) == Global(d, items, dim, b[v], k);
    }
  }

  /** The buffers of all ranks after one global array was gathered, sent to the other side and scattered. */
  method GatherScatterExchange(senders: Distribution, receivers: Distribution, items: seq<seq<real>>, dim: nat,
                               vertices: nat, receiverRanks: nat, own: array<real>)
    returns (ok: bool, messages: map<nat, seq<real>>)
    requires 0 in senders && 0 in receivers && items != [] && dim > 0 && receiverRanks > 0
    requires Within(senders, vertices) && Within(receivers, vertices) && |items[0]| >= |senders[0]| * dim
    requires own.Length >= |receivers[0]| * dim
    modifies own
    ensures ok <==> MessagesFit(senders, items, dim)
    ensures ok ==> Delivered(senders, items, dim, receivers[0], own[..])
    ensures ok ==> forall r <- receivers :: 0 < r < receiverRanks ==>
                     if receivers[r] == [] then r !in messages
                     else r in messages && Delivered(senders, items, dim, receivers[r], messages[r])
  {
    var global;
    ok, global := Gather(senders, items, dim, vertices);
    messages := map[];
    if ok {
      messages := Scatter(receivers, global[..], dim, vertices, receiverRanks, own);
      forall r <- receivers
        ensures Delivered(senders, items, dim, receivers[r], Picked(global[..], receivers[r], dim))
      {
        GatherScatterDelivers(senders, items, dim, vertices, global[..], receivers[r]);
      }
      DeliveredAtBeginning(senders, items, dim, receivers[0], Picked(global[..], receivers[0], dim),
                           old(own[..])[|receivers[0]| * dim..]);
    }
  }
}
