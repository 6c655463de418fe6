/** The wire format of bounding box maps. */
module SerializedBoundingBoxes {
  import opened OrderedMaps

  datatype Box = Box(min: seq<real>, max: seq<real>)

  type BoxMap = seq<Pair<Box>>

  /** `info` holds the number of boxes, their dimension and their ranks. */
  datatype Serialized = Serialized(info: seq<int>, coords: seq<real>)

  predicate ValidBox(b: Box, dims: int) { |b.min| == |b.max| == dims }

  /** All boxes have the same dimension. */
  predicate ValidMap(m: BoxMap, dims: int) {
    Ascending(m) && 2 <= dims <= 3 && forall i :: 0 <= i < |m| ==> m[i].rank >= 0 && ValidBox(m[i].value, dims)
  }

  // ----- the format -----

  function Ranks(m: BoxMap): (r: seq<int>)
    ensures |r| == |m|
  {
    seq(|m|, i requires 0 <= i < |m| => m[i].rank)
  }

  function Corners(m: BoxMap): seq<real> {
    if m == [] then [] else m[0].value.min + m[0].value.max + Corners(m[1..])
  }

  function Encode(m: BoxMap, dims: int): Serialized {
    if m == [] then Serialized([0], []) else Serialized([|m|, dims] + Ranks(m), Corners(m))
  }

  /** `assertValid` */
  predicate Valid(s: Serialized) {
    && s.info != []
    && if |s.info| == 1 then s.info[0] == 0 && s.coords == []
       else
         && s.info[0] + 2 == |s.info| && 2 <= s.info[1] <= 3
         && |s.coords| == s.info[0] * s.info[1] * 2
         && forall i :: 2 <= i < |s.info| ==> s.info[i] >= 0
  }

  /** The entries in the order in which they are read. */
  function Read(ranks: seq<int>, coords: seq<real>, dims: nat): seq<Pair<Box>> {
    if ranks == [] || |coords| < 2 * dims then []
    else [Pair(ranks[0], Box(coords[..dims], coords[dims..2 * dims]))] + Read(ranks[1..], coords[2 * dims..], dims)
  }

  function Decode(s: Serialized): BoxMap
    requires Valid(s)
  {
    if |s.info| == 1 then [] else EmplaceAll(Read(s.info[2..], s.coords, s.info[1]))
  }

  // ----- round trips -----

  predicate SameDims(m: BoxMap, dims: int) { forall i :: 0 <= i < |m| ==> ValidBox(m[i].value, dims) }

  lemma {:induction false} ReadCorners(m: BoxMap, dims: nat)
    requires SameDims(m, dims)
    ensures |Corners(m)| == |m| * dims * 2 && Read(Ranks(m), Corners(m), dims) == m
  {
    if m != [] {
      var b, rest := m[0].value, Corners(m[1..]);
      ReadCorners(m[1..], dims);
      assert |m| * dims * 2 == (|m| - 1) * dims * 2 + dims * 2;
      assert Ranks(m)[1..] == Ranks(m[1..]);
      assert Corners(m)[..dims] == b.min && Corners(m)[dims..2 * dims] == b.max && Corners(m)[2 * dims..] == rest;
    }
  }

  lemma CornersCons(e: Pair<Box>, m: BoxMap)
    ensures Corners([e] + m) == e.value.min + e.value.max + Corners(m) && Ranks([e] + m) == [e.rank] + Ranks(m)
  {
    assert ([e] + m)[1..] == m;
  }

  lemma OneBoxLess(n: nat, dims: nat)
    requires n > 0
    ensures n * dims * 2 - 2 * dims == (n - 1) * dims * 2 >= 0
  {
    assert n * dims == (n - 1) * dims + dims;
  }

  lemma {:induction false} CornersRead(ranks: seq<int>, coords: seq<real>, dims: nat)
    requires dims > 0 && |coords| == |ranks| * dims * 2
    ensures var m := Read(ranks, coords, dims); SameDims(m, dims) && Ranks(m) == ranks && Corners(m) == coords
  {
    if ranks != [] {
      OneBoxLess(|ranks|, dims);
      var e := Pair(ranks[0], Box(coords[..dims], coords[dims..2 * dims]));
      var rest := Read(ranks[1..], coords[2 * dims..], dims);
      CornersRead(ranks[1..], coords[2 * dims..], dims);
      CornersCons(e, rest);
      assert Read(ranks, coords, dims) == [e] + rest;
      assert coords[..dims] + coords[dims..2 * dims] + coords[2 * dims..] == coords;
    }
  }

  lemma RoundTrip(m: BoxMap, dims: nat)
    requires ValidMap(m, dims)
    ensures Valid(Encode(m, dims)) && Decode(Encode(m, dims)) == m
  {
    if m != [] {
      ReadCorners(m, dims);
      assert Encode(m, dims).info[2..] == Ranks(m);
      EmplaceAllSorted(m);
    }
  }

  /** What the entries of valid content encode to, in the order in which they are read. */
  lemma ReadEncodes(s: Serialized)
    requires Valid(s) && |s.info| > 1
    ensures var dims, ranks := s.info[1], s.info[2..];
            var m := Read(ranks, s.coords, dims);
            && |m| == |ranks| && Ranks(m) == ranks && (m != [] ==> Encode(m, dims) == s)
  {
    var dims, ranks := s.info[1], s.info[2..];
    CornersRead(ranks, s.coords, dims);
    assert s.info == [|ranks|, dims] + ranks;
  }

  lemma SameRanksAscend(m: BoxMap, n: BoxMap)
    requires Ranks(m) == Ranks(n) && Ascending(n)
    ensures Ascending(m)
  {
    forall i, j | 0 <= i < j < |m| ensures m[i].rank < m[j].rank {
      assert Ranks(m)[i] == Ranks(n)[i] && Ranks(m)[j] == Ranks(n)[j];
    }
  }

  /** Valid content is what its map encodes to exactly if its ranks ascend and it is not an empty map with
      a dimension. */
  lemma Canonical(s: Serialized)
    requires Valid(s)
    ensures |s.info| == 1 ==> Encode(Decode(s), 0) == s
    ensures |s.info| > 1 ==>
              (Encode(Decode(s), s.info[1]) == s <==> |s.info| > 2 && Ascending(Read(s.info[2..], s.coords, s.info[1])))
  {
    if |s.info| > 1 {
      var m, d := Read(s.info[2..], s.coords, s.info[1]), Decode(s);
      ReadEncodes(s);
      EmplaceAllAscends(m);
      if Ascending(m) { EmplaceAllSorted(m); }
      if Encode(d, s.info[1]) == s {
        assert d != [] ==> Ranks(d) == s.info[2..];
        if d != [] { SameRanksAscend(m, d); }
      }
    }
  }

  // ----- what the content is -----

  /** All minima of a box come before its maxima, one box after another. */
  lemma {:induction false} CornerLayout(m: BoxMap, dims: nat, i: nat, d: nat)
    requires SameDims(m, dims) && i < |m| && d < dims
    ensures var c, at := Corners(m), i * dims * 2;
            && at + dims + d < |c| == |m| * dims * 2
            && c[at + d] == m[i].value.min[d] && c[at + dims + d] == m[i].value.max[d]
  {
    ReadCorners(m, dims);
    var b, rest := m[0].value, m[1..];
    if i > 0 {
      CornerLayout(rest, dims, i - 1, d);
      OneBoxLess(i, dims);
      var at := (i - 1) * dims * 2;
      assert Corners(m) == (b.min + b.max) + Corners(rest);
      assert Corners(m)[2 * dims + (at + d)] == Corners(rest)[at + d];
      assert Corners(m)[2 * dims + (at + dims + d)] == Corners(rest)[at + dims + d];
    }
  }

  /** Boxes of two or three dimensions with ranks that are not negative. */
  predicate ValidBoxes(m: seq<Pair<Box>>, dims: int) {
    2 <= dims <= 3 && forall i :: 0 <= i < |m| ==> m[i].rank >= 0 && ValidBox(m[i].value, dims)
  }

  /** Valid content is exactly what some boxes are written as, or the content of an empty map without a dimension. */
  lemma ValidIff(s: Serialized)
    ensures Valid(s) <==>
              || s == Serialized([0], [])
              || exists m: seq<Pair<Box>>, dims: nat ::
                   ValidBoxes(m, dims) && s == Serialized([|m|, dims] + Ranks(m), Corners(m))
  {
    if Valid(s) && |s.info| > 1 {
      var dims, ranks := s.info[1], s.info[2..];
      var m := Read(ranks, s.coords, dims);
      ReadEncodes(s);
      CornersRead(ranks, s.coords, dims);
      forall i | 0 <= i < |m| ensures m[i].rank >= 0 { assert m[i].rank == Ranks(m)[i] == s.info[2 + i]; }
      assert s.info == [|m|, dims] + Ranks(m);
      assert ValidBoxes(m, dims);
    }
    if m: seq<Pair<Box>>, dims: nat :| ValidBoxes(m, dims) && s == Serialized([|m|, dims] + Ranks(m), Corners(m)) {
      ReadCorners(m, dims);
      forall i | 2 <= i < |s.info| ensures s.info[i] >= 0 { assert s.info[i] == m[i - 2].rank; }
    }
  }

  /** Decoding takes the first box of every rank. */
  lemma DecodeTakesFirst(s: Serialized, m: seq<Pair<Box>>, dims: nat, e: Pair<Box>)
    requires ValidBoxes(m, dims) && s == Serialized([|m|, dims] + Ranks(m), Corners(m))
    ensures Valid(s) && (e in Decode(s) <==> IsFirst(m, e)) && Ascending(Decode(s))
  {
    ValidIff(s);
    ReadCorners(m, dims);
    assert s.info[2..] == Ranks(m);
    FirstEntriesAreKept(m, e);
    EmplaceAllAscends(m);
  }

  // ----- encoder and decoder -----

  lemma {:induction false} CornersMore(m: BoxMap, e: Pair<Box>)
    ensures Corners(m + [e]) == Corners(m) + (e.value.min + e.value.max)
  {
    if m == [] {
      assert [] + [e] == [e] && [e][1..] == [];
    } else {
      CornersMore(m[1..], e);
      assert (m + [e])[1..] == m[1..] + [e];
    }
  }

  method Serialize(m: BoxMap) returns (s: Serialized)
    requires m != [] ==> ValidMap(m, |m[0].value.min|)
    ensures s == Encode(m, if m == [] then 0 else |m[0].value.min|)
  {
    if m == [] {
      return Serialized([0], []);
    }
    var dims := |m[0].value.min|;
    var info, coords := [|m|, dims], [];
    for i := 0 to |m|
      invariant info == [|m|, dims] + Ranks(m[..i]) && coords == Corners(m[..i])
    {
      assert m[..i + 1] == m[..i] + [m[i]];
      CornersMore(m[..i], m[i]);
      info := info + [m[i].rank];
      coords := coords + m[i].value.min + m[i].value.max;
    }
    assert m[..|m|] == m;
    s := Serialized(info, coords);
  }

  /** The box with the given interleaved bounds. */
  function FromBounds(bounds: seq<real>): Box {
    Box(seq(|bounds| / 2, d requires 0 <= d < |bounds| / 2 => bounds[2 * d]),
        seq(|bounds| / 2, d requires 0 <= d < |bounds| / 2 => bounds[2 * d + 1]))
  }

  /** Minima and maxima are interleaved before the box is built. */
  method ReadBox(coords: seq<real>, first: nat, dims: nat) returns (b: Box)
    requires first + 2 * dims <= |coords|
    ensures b == Box(coords[first..first + dims], coords[first + dims..first + 2 * dims])
  {
    var buffer := [];
    for d := 0 to dims
      invariant |buffer| == 2 * d
      invariant forall k :: 0 <= k < d ==>
        buffer[2 * k] == coords[first + k] && buffer[2 * k + 1] == coords[first + dims + k]
    {
      buffer := buffer + [coords[first + d], coords[first + d + dims]];
    }
    b := FromBounds(buffer);
  }

  method ToBoundingBoxMap(s: Serialized) returns (m: BoxMap)
    requires Valid(s)
    ensures m == Decode(s)
  {
    if |s.info| == 1 {
      return [];
    }
    var size, dims := s.info[0], s.info[1];
    ghost var all, done := Read(s.info[2..], s.coords, dims), [];
    var coordIter := 0;
    m := [];
    for entry := 0 to size
      invariant coordIter == entry * dims * 2 <= |s.coords|
      invariant done + Read(s.info[2 + entry..], s.coords[coordIter..], dims) == all && m == EmplaceAll(done)
    {
      Remaining(entry, size, dims);
      var b := ReadBox(s.coords, coordIter, dims);
      var e := Pair(s.info[2 + entry], b);
      ReadNext(s.info, 2 + entry, s.coords, coordIter, dims);
      coordIter := coordIter + dims * 2;
      EmplaceLast(done, e, Read(s.info[3 + entry..], s.coords[coordIter..], dims));
      m := Emplace(m, e);
      done := done + [e];
    }
    assert done == all;
  }

  lemma Remaining(entry: nat, size: nat, dims: nat)
    requires entry < size
    ensures entry * dims * 2 + dims * 2 == (entry + 1) * dims * 2 <= size * dims * 2
  {
    assert (size - entry - 1) * dims >= 0;
  }

  lemma ReadNext(info: seq<int>, r: nat, coords: seq<real>, c: nat, dims: nat)
    requires r < |info| && c + 2 * dims <= |coords|
    ensures Read(info[r..], coords[c..], dims)
            == [Pair(info[r], Box(coords[c..c + dims], coords[c + dims..c + 2 * dims]))]
               + Read(info[r + 1..], coords[c + dims * 2..], dims)
  {
    var rest := coords[c..];
    assert rest[..dims] == coords[c..c + dims] && rest[dims..2 * dims] == coords[c + dims..c + 2 * dims];
    assert rest[2 * dims..] == coords[c + dims * 2..] && info[r..][1..] == info[r + 1..];
  }
}
