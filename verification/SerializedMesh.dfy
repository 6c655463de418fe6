/** The wire format of meshes, and adding a serialized mesh to an existing one. */
module SerializedMesh {

  /** The ID of a vertex is its position in the mesh. */
  datatype Vertex = Vertex(coords: seq<real>, globalIndex: int)

  /** Edges, triangles and tetrahedra are the IDs of their vertices in ascending order. */
  datatype MeshData = MeshData(vertices: seq<Vertex>, edges: seq<seq<int>>, triangles: seq<seq<int>>,
                               tetrahedra: seq<seq<int>>)

  datatype Serialized = Serialized(sizes: seq<int>, ids: seq<int>, coords: seq<real>)

  // ----- sequences of blocks -----

  function Flat<T>(xs: seq<seq<T>>): seq<T> { if xs == [] then [] else xs[0] + Flat(xs[1..]) }

  function Chunks<T>(c: seq<T>, k: nat): seq<seq<T>> {
    if k == 0 || |c| < k then [] else [c[..k]] + Chunks(c[k..], k)
  }

  predicate Uniform<T>(xs: seq<seq<T>>, k: nat) { forall i :: 0 <= i < |xs| ==> |xs[i]| == k }

  lemma {:induction false} ChunksOfFlat<T>(xs: seq<seq<T>>, k: nat)
    requires Uniform(xs, k) && k > 0
    ensures Chunks(Flat(xs), k) == xs && |Flat(xs)| == |xs| * k
  {
    if xs != [] {
      ChunksOfFlat(xs[1..], k);
      assert Flat(xs)[..k] == xs[0] && Flat(xs)[k..] == Flat(xs[1..]);
      assert |xs| * k == (|xs| - 1) * k + k;
    }
  }

  lemma {:induction false} ChunksAreUniform<T>(c: seq<T>, k: nat)
    requires k > 0
    ensures Uniform(Chunks(c, k), k)
    ensures |Chunks(c, k)| * k <= |c| < |Chunks(c, k)| * k + k
  {
    if |c| >= k {
      ChunksAreUniform(c[k..], k);
      var n := |Chunks(c[k..], k)|;
      assert (n + 1) * k == n * k + k;
    }
  }

  // ----- vertices of elements -----

  /** The first position of an ID. */
  function Position(ids: seq<int>, id: int): nat {
    if ids == [] || ids[0] == id then 0 else 1 + Position(ids[1..], id)
  }

  function Insert(s: seq<int>, x: int): seq<int> {
    if s == [] || x <= s[0] then [x] + s else [s[0]] + Insert(s[1..], x)
  }

  /** Elements order their vertices when they are created. */
  function Ordered(s: seq<int>): seq<int> { if s == [] then [] else Insert(Ordered(s[1..]), s[0]) }

  predicate Ascending(s: seq<int>) { forall i, j :: 0 <= i < j < |s| ==> s[i] <= s[j] }

  lemma {:induction false} OrderedIsIdentity(s: seq<int>)
    requires Ascending(s)
    ensures Ordered(s) == s
  {
    if s != [] { OrderedIsIdentity(s[1..]); }
  }

  /** An element with the positions of its vertices, counted from `first`. */
  function Renumbered(element: seq<int>, locals: seq<int>, first: nat): seq<int> {
    Ordered(seq(|element|, j requires 0 <= j < |element| => first + Position(locals, element[j])))
  }

  function AllRenumbered(elements: seq<seq<int>>, locals: seq<int>, first: nat): seq<seq<int>> {
    seq(|elements|, i requires 0 <= i < |elements| => Renumbered(elements[i], locals, first))
  }

  // ----- the format -----

  predicate ValidElements(es: seq<seq<int>>, k: nat, n: nat) {
    Uniform(es, k) && forall i :: 0 <= i < |es| ==> Ascending(es[i]) && forall j :: 0 <= j < k ==> 0 <= es[i][j] < n
  }

  predicate ValidMesh(m: MeshData, dims: nat) {
    && 0 < dims <= 3 && (forall i :: 0 <= i < |m.vertices| ==> |m.vertices[i].coords| == dims)
    && ValidElements(m.edges, 2, |m.vertices|) && ValidElements(m.triangles, 3, |m.vertices|)
    && ValidElements(m.tetrahedra, 4, |m.vertices|)
  }

  predicate HasConnectivity(m: MeshData) { m.edges != [] || m.triangles != [] || m.tetrahedra != [] }

  function Coords(m: MeshData): seq<seq<real>> {
    seq(|m.vertices|, i requires 0 <= i < |m.vertices| => m.vertices[i].coords)
  }

  function Globals(m: MeshData): seq<int> {
    seq(|m.vertices|, i requires 0 <= i < |m.vertices| => m.vertices[i].globalIndex)
  }

  /** Global index and ID of every vertex. */
  function IdPairs(m: MeshData): seq<seq<int>> {
    seq(|m.vertices|, i requires 0 <= i < |m.vertices| => [m.vertices[i].globalIndex, i])
  }

  function Encode(m: MeshData, dims: nat): Serialized {
    var sizes := [dims, |m.vertices|, |m.edges|, |m.triangles|, |m.tetrahedra|];
    if m.vertices == [] then Serialized(sizes, [], [])
    else
      Serialized(sizes,
                 if HasConnectivity(m) then Flat(IdPairs(m)) + Flat(m.edges) + Flat(m.triangles) + Flat(m.tetrahedra)
                 else Globals(m),
                 Flat(Coords(m)))
  }

  predicate Connected(s: Serialized)
    requires |s.sizes| == 5
  {
    s.sizes[2] + s.sizes[3] + s.sizes[4] > 0
  }

  /** The pairs of global index and ID of the vertices. */
  function Pairs(s: Serialized): seq<seq<int>>
    requires |s.sizes| == 5 && 0 <= 2 * s.sizes[1] <= |s.ids|
  {
    Chunks(s.ids[..2 * s.sizes[1]], 2)
  }

  function Locals(s: Serialized): (r: seq<int>)
    requires |s.sizes| == 5 && 0 <= 2 * s.sizes[1] <= |s.ids|
  {
    var p := Pairs(s);
    ChunksAreUniform(s.ids[..2 * s.sizes[1]], 2);
    seq(|p|, i requires 0 <= i < |p| => p[i][1])
  }

  /** `assertValid`, for counts that are not negative. */
  predicate Valid(s: Serialized) {
    && |s.sizes| == 5 && 0 < s.sizes[0] <= 3 && (forall i :: 1 <= i < 5 ==> s.sizes[i] >= 0)
    && if s.sizes[1] == 0 then !Connected(s) && s.ids == [] && s.coords == []
       else
         && s.sizes[1] * s.sizes[0] == |s.coords|
         && if Connected(s) then
              && |s.ids| == 2 * s.sizes[1] + 2 * s.sizes[2] + 3 * s.sizes[3] + 4 * s.sizes[4]
              && (forall i, j :: 0 <= i < j < |Locals(s)| ==> Locals(s)[i] != Locals(s)[j])
              && forall k :: 2 * s.sizes[1] <= k < |s.ids| ==> s.ids[k] in Locals(s)
            else |s.ids| == s.sizes[1]
  }

  // ----- the mesh a valid message stands for, with IDs counted from `first` -----

  function Decode(s: Serialized, first: nat): MeshData
    requires Valid(s)
  {
    if s.sizes[1] == 0 then MeshData([], [], [], [])
    else
      var n, xs := s.sizes[1], Chunks(s.coords, s.sizes[0]);
      if !Connected(s) then
        MeshData(seq(n, i requires 0 <= i < n => Vertex(Block(xs, i), s.ids[i])), [], [], [])
      else
        var edge, triangle, tetrahedron := 2 * n, 2 * n + 2 * s.sizes[2], 2 * n + 2 * s.sizes[2] + 3 * s.sizes[3];
        MeshData(seq(n, i requires 0 <= i < n => Vertex(Block(xs, i), Id(Block(Pairs(s), i), 0))),
                 AllRenumbered(Chunks(s.ids[edge..triangle], 2), Locals(s), first),
                 AllRenumbered(Chunks(s.ids[triangle..tetrahedron], 3), Locals(s), first),
                 AllRenumbered(Chunks(s.ids[tetrahedron..], 4), Locals(s), first))
  }

  function Block<T>(xs: seq<seq<T>>, i: int): seq<T> { if 0 <= i < |xs| then xs[i] else [] }

  function Id(s: seq<int>, i: int): int { if 0 <= i < |s| then s[i] else 0 }

  function Shifted(elements: seq<seq<int>>, n0: nat): seq<seq<int>> {
    seq(|elements|, i requires 0 <= i < |elements| =>
      seq(|elements[i]|, j requires 0 <= j < |elements[i]| => n0 + elements[i][j]))
  }

  /** A copy of a mesh with all IDs increased. */
  function Copy(m: MeshData, n0: nat): MeshData {
    MeshData(m.vertices, Shifted(m.edges, n0), Shifted(m.triangles, n0), Shifted(m.tetrahedra, n0))
  }

  // ----- adding an encoded mesh appends a copy -----

  lemma {:induction false} PositionOfPosition(locals: seq<int>, start: int, id: int)
    requires (forall i :: 0 <= i < |locals| ==> locals[i] == start + i) && start <= id < start + |locals|
    ensures Position(locals, id) == id - start
  {
    if id != start { PositionOfPosition(locals[1..], start + 1, id); }
  }

  lemma RenumberedByPosition(es: seq<seq<int>>, locals: seq<int>, k: nat, n: nat, first: nat)
    requires ValidElements(es, k, n) && |locals| == n && forall i :: 0 <= i < n ==> locals[i] == i
    ensures AllRenumbered(es, locals, first) == Shifted(es, first)
  {
    forall i | 0 <= i < |es| ensures Renumbered(es[i], locals, first) == Shifted(es, first)[i] {
      var e := es[i];
      forall j | 0 <= j < |e| ensures Position(locals, e[j]) == e[j] { PositionOfPosition(locals, 0, e[j]); }
      var moved := seq(|e|, j requires 0 <= j < |e| => first + Position(locals, e[j]));
      OrderedIsIdentity(moved);
      assert moved == Shifted(es, first)[i];
    }
  }

  /** The parts of the encoded IDs. */
  lemma EncodedParts(m: MeshData, dims: nat)
    requires ValidMesh(m, dims) && HasConnectivity(m)
    ensures var s := Encode(m, dims);
            var n := |m.vertices|;
            var edge, triangle, tetrahedron := 2 * n, 2 * n + 2 * |m.edges|, 2 * n + 2 * |m.edges| + 3 * |m.triangles|;
            && m.vertices != [] && |s.ids| == tetrahedron + 4 * |m.tetrahedra|
            && s.ids[..edge] == Flat(IdPairs(m)) && s.ids[edge..triangle] == Flat(m.edges)
            && s.ids[triangle..tetrahedron] == Flat(m.triangles) && s.ids[tetrahedron..] == Flat(m.tetrahedra)
            && Pairs(s) == IdPairs(m) && Locals(s) == seq(n, i => i)
  {
    ElementsNeedVertices(m.edges, 2, |m.vertices|);
    ElementsNeedVertices(m.triangles, 3, |m.vertices|);
    ElementsNeedVertices(m.tetrahedra, 4, |m.vertices|);
    ChunksOfFlat(IdPairs(m), 2);
    ChunksOfFlat(m.edges, 2);
    ChunksOfFlat(m.triangles, 3);
    ChunksOfFlat(m.tetrahedra, 4);
    FourParts(Flat(IdPairs(m)), Flat(m.edges), Flat(m.triangles), Flat(m.tetrahedra));
  }

  lemma ElementsNeedVertices(es: seq<seq<int>>, k: nat, n: nat)
    requires ValidElements(es, k, n) && k > 0
    ensures es != [] ==> n > 0
  {
    if es != [] { assert 0 <= es[0][0] < n; }
  }

  lemma FourParts(a: seq<int>, b: seq<int>, c: seq<int>, d: seq<int>)
    ensures var s := a + b + c + d;
            && s[..|a|] == a && s[|a|..|a| + |b|] == b
            && s[|a| + |b|..|a| + |b| + |c|] == c && s[|a| + |b| + |c|..] == d
  {
  }

  lemma {:induction false} ElementsOfFlat(es: seq<seq<int>>, k: nat, n: nat)
    requires ValidElements(es, k, n)
    ensures forall id :: id in Flat(es) ==> 0 <= id < n
  {
    if es != [] {
      var first, rest := es[0], es[1..];
      ElementsOfFlat(rest, k, n);
      assert forall j :: 0 <= j < |first| ==> 0 <= first[j] < n;
      assert Flat(es) == first + Flat(rest);
      forall id | id in Flat(es) ensures 0 <= id < n {
        assert id in first || id in Flat(rest);
      }
    }
  }

  /** The vertices of encoded elements are vertices of the mesh. */
  lemma EncodedIdsAreKnown(m: MeshData, dims: nat)
    requires ValidMesh(m, dims) && HasConnectivity(m)
    ensures var s := Encode(m, dims);
            2 * |m.vertices| <= |s.ids| && forall k :: 2 * |m.vertices| <= k < |s.ids| ==> s.ids[k] in Locals(s)
  {
    var s, n := Encode(m, dims), |m.vertices|;
    EncodedParts(m, dims);
    ElementsOfFlat(m.edges, 2, n);
    ElementsOfFlat(m.triangles, 3, n);
    ElementsOfFlat(m.tetrahedra, 4, n);
    ChunksOfFlat(IdPairs(m), 2);
    TailWithin(Flat(IdPairs(m)), Flat(m.edges), Flat(m.triangles), Flat(m.tetrahedra), n);
    forall k | 2 * n <= k < |s.ids| ensures s.ids[k] in Locals(s) {
      assert Locals(s)[s.ids[k]] == s.ids[k];
    }
  }

  lemma TailWithin(a: seq<int>, b: seq<int>, c: seq<int>, d: seq<int>, n: nat)
    requires forall id :: id in b || id in c || id in d ==> 0 <= id < n
    ensures forall k :: |a| <= k < |a + b + c + d| ==> 0 <= (a + b + c + d)[k] < n
  {
    forall k | |a| <= k < |a + b + c + d| ensures 0 <= (a + b + c + d)[k] < n {
      var i := k - |a|;
      if i < |b| { assert b[i] in b; }
      else if i < |b| + |c| { assert c[i - |b|] in c; }
      else { assert d[i - |b| - |c|] in d; }
    }
  }

  lemma EncodedIsValid(m: MeshData, dims: nat)
    requires ValidMesh(m, dims)
    ensures Valid(Encode(m, dims))
  {
    var n := |m.vertices|;
    ElementsNeedVertices(m.edges, 2, n);
    ElementsNeedVertices(m.triangles, 3, n);
    ElementsNeedVertices(m.tetrahedra, 4, n);
    ChunksOfFlat(Coords(m), dims);
    if HasConnectivity(m) {
      EncodedParts(m, dims);
      EncodedIdsAreKnown(m, dims);
    }
  }

  /** Decoding an encoded mesh gives an isomorphic copy: the same vertices, and every element with its vertices
      renumbered. */
  lemma RoundTrip(m: MeshData, dims: nat, first: nat)
    requires ValidMesh(m, dims)
    ensures Valid(Encode(m, dims)) && Decode(Encode(m, dims), first) == Copy(m, first)
  {
    EncodedIsValid(m, dims);
    var s, n := Encode(m, dims), |m.vertices|;
    ElementsNeedVertices(m.edges, 2, n);
    ElementsNeedVertices(m.triangles, 3, n);
    ElementsNeedVertices(m.tetrahedra, 4, n);
    ChunksOfFlat(Coords(m), dims);
    if HasConnectivity(m) {
      EncodedParts(m, dims);
      ConnectedRoundTrip(m, dims, first);
    }
  }

  lemma ConnectedRoundTrip(m: MeshData, dims: nat, first: nat)
    requires ValidMesh(m, dims) && HasConnectivity(m) && Valid(Encode(m, dims))
    ensures Decode(Encode(m, dims), first) == Copy(m, first)
  {
    var s, n := Encode(m, dims), |m.vertices|;
    EncodedParts(m, dims);
    ChunksOfFlat(Coords(m), dims);
    ChunksOfFlat(m.edges, 2);
    ChunksOfFlat(m.triangles, 3);
    ChunksOfFlat(m.tetrahedra, 4);
    RenumberedByPosition(m.edges, Locals(s), 2, n, first);
    RenumberedByPosition(m.triangles, Locals(s), 3, n, first);
    RenumberedByPosition(m.tetrahedra, Locals(s), 4, n, first);
    assert Decode(s, first).vertices == m.vertices;
  }

  // ----- what the content is -----

  lemma {:induction false} FlatAt<T>(xs: seq<seq<T>>, k: nat, i: nat, j: nat)
    requires Uniform(xs, k) && i < |xs| && j < k
    ensures 0 <= i * k + j < |Flat(xs)| == |xs| * k && Flat(xs)[i * k + j] == xs[i][j]
  {
    ChunksOfFlat(xs, k);
    assert |xs| * k == (|xs| - 1) * k + k;
    if i > 0 {
      FlatAt(xs[1..], k, i - 1, j);
      assert i * k == (i - 1) * k + k;
      assert Flat(xs)[k + ((i - 1) * k + j)] == Flat(xs[1..])[(i - 1) * k + j];
    }
  }

  /** The coordinates of a vertex are together. */
  lemma CoordinateLayout(m: MeshData, dims: nat, i: nat, d: nat)
    requires ValidMesh(m, dims) && i < |m.vertices| && d < dims
    ensures var s := Encode(m, dims);
            && s.sizes == [dims, |m.vertices|, |m.edges|, |m.triangles|, |m.tetrahedra|]
            && 0 <= i * dims + d < |s.coords| == |m.vertices| * dims
            && s.coords[i * dims + d] == m.vertices[i].coords[d]
  {
    FlatAt(Coords(m), dims, i, d);
  }

  /** With connectivity the global index of a vertex comes before its ID, otherwise the global indices alone are
      written. */
  lemma IdLayout(m: MeshData, dims: nat, i: nat)
    requires ValidMesh(m, dims) && i < |m.vertices|
    ensures var ids := Encode(m, dims).ids;
            if HasConnectivity(m) then
              2 * i + 1 < |ids| && ids[2 * i] == m.vertices[i].globalIndex && ids[2 * i + 1] == i
            else |ids| == |m.vertices| && ids[i] == m.vertices[i].globalIndex
  {
    if HasConnectivity(m) {
      FlatAt(IdPairs(m), 2, i, 0);
      FlatAt(IdPairs(m), 2, i, 1);
      EncodedParts(m, dims);
      var ids := Encode(m, dims).ids;
      assert ids[..2 * |m.vertices|][2 * i] == ids[2 * i] && ids[..2 * |m.vertices|][2 * i + 1] == ids[2 * i + 1];
    }
  }

  lemma PartAt(c: seq<int>, begin: nat, end: nat, es: seq<seq<int>>, k: nat, e: nat, j: nat)
    requires begin <= end <= |c| && c[begin..end] == Flat(es) && Uniform(es, k) && e < |es| && j < k
    ensures 0 <= e * k + j < end - begin && c[begin + (e * k + j)] == es[e][j]
  {
    FlatAt(es, k, e, j);
    assert c[begin..end][e * k + j] == c[begin + (e * k + j)];
  }

  /** Behind the vertices follow the edges, the triangles and the tetrahedra with the IDs of their vertices. */
  lemma ElementLayout(m: MeshData, dims: nat, e: nat, j: nat)
    requires ValidMesh(m, dims) && HasConnectivity(m)
    ensures var s := Encode(m, dims);
            var edge := 2 * |m.vertices|;
            var triangle := edge + 2 * |m.edges|;
            var tetrahedron := triangle + 3 * |m.triangles|;
            && |s.ids| == tetrahedron + 4 * |m.tetrahedra|
            && (e < |m.edges| && j < 2 ==>
                  edge + (e * 2 + j) < triangle && s.ids[edge + (e * 2 + j)] == m.edges[e][j])
            && (e < |m.triangles| && j < 3 ==>
                  triangle + (e * 3 + j) < tetrahedron && s.ids[triangle + (e * 3 + j)] == m.triangles[e][j])
            && (e < |m.tetrahedra| && j < 4 ==>
                  tetrahedron + (e * 4 + j) < |s.ids| && s.ids[tetrahedron + (e * 4 + j)] == m.tetrahedra[e][j])
  {
    EncodedParts(m, dims);
    var c := Encode(m, dims).ids;
    var edge := 2 * |m.vertices|;
    var triangle := edge + 2 * |m.edges|;
    var tetrahedron := triangle + 3 * |m.triangles|;
    assert c[tetrahedron..|c|] == c[tetrahedron..];
    if e < |m.edges| && j < 2 { PartAt(c, edge, triangle, m.edges, 2, e, j); }
    if e < |m.triangles| && j < 3 { PartAt(c, triangle, tetrahedron, m.triangles, 3, e, j); }
    if e < |m.tetrahedra| && j < 4 { PartAt(c, tetrahedron, |c|, m.tetrahedra, 4, e, j); }
  }

  // ----- what is added -----

  /** Every element of `copies` has the same vertices as that of `elements`, found at their new IDs. */
  predicate RefersTo(copies: seq<seq<int>>, all: seq<Vertex>, elements: seq<seq<int>>, vertices: seq<Vertex>) {
    && |copies| == |elements|
    && forall e, j :: 0 <= e < |elements| && 0 <= j < |elements[e]| ==>
         && |copies[e]| == |elements[e]| && 0 <= copies[e][j] < |all| && 0 <= elements[e][j] < |vertices|
         && all[copies[e][j]] == vertices[elements[e][j]]
  }

  lemma ShiftedRefersTo(es: seq<seq<int>>, k: nat, vertices: seq<Vertex>, before: seq<Vertex>)
    requires ValidElements(es, k, |vertices|)
    ensures RefersTo(Shifted(es, |before|), before + vertices, es, vertices)
  {
    var all, copies := before + vertices, Shifted(es, |before|);
    forall e, j | 0 <= e < |es| && 0 <= j < |es[e]|
      ensures |copies[e]| == |es[e]| && 0 <= copies[e][j] < |all| && 0 <= es[e][j] < |vertices|
      ensures all[copies[e][j]] == vertices[es[e][j]]
    {
      assert copies[e][j] == |before| + es[e][j];
    }
  }

  /** When an encoded mesh is added behind the vertices `before`, its elements connect the new copies of the vertices
      they connected. */
  lemma ElementsReferToCopies(m: MeshData, dims: nat, before: seq<Vertex>)
    requires ValidMesh(m, dims)
    ensures Valid(Encode(m, dims))
    ensures var d := Decode(Encode(m, dims), |before|);
            && d.vertices == m.vertices
            && RefersTo(d.edges, before + d.vertices, m.edges, m.vertices)
            && RefersTo(d.triangles, before + d.vertices, m.triangles, m.vertices)
            && RefersTo(d.tetrahedra, before + d.vertices, m.tetrahedra, m.vertices)
  {
    RoundTrip(m, dims, |before|);
    ShiftedRefersTo(m.edges, 2, m.vertices, before);
    ShiftedRefersTo(m.triangles, 3, m.vertices, before);
    ShiftedRefersTo(m.tetrahedra, 4, m.vertices, before);
  }

  lemma {:induction false} InsertKeeps(s: seq<int>, x: int)
    ensures multiset(Insert(s, x)) == multiset(s) + multiset{x}
  {
    if s != [] && x > s[0] {
      InsertKeeps(s[1..], x);
      assert s == [s[0]] + s[1..];
    }
  }

  lemma {:induction false} InsertSorts(s: seq<int>, x: int)
    requires Ascending(s)
    ensures Ascending(Insert(s, x)) && forall low: int ::
              low <= x && (forall i :: 0 <= i < |s| ==> low <= s[i]) ==> AllFrom(Insert(s, x), low)
  {
    if s != [] && x > s[0] {
      var rest := s[1..];
      InsertSorts(rest, x);
      assert AllFrom(Insert(rest, x), s[0]);
    }
  }

  predicate AllFrom(s: seq<int>, low: int) { forall i :: 0 <= i < |s| ==> low <= s[i] }

  /** Elements hold the same vertices in ascending order. */
  lemma {:induction false} OrderedSorts(s: seq<int>)
    ensures Ascending(Ordered(s)) && multiset(Ordered(s)) == multiset(s)
  {
    if s != [] {
      OrderedSorts(s[1..]);
      InsertSorts(Ordered(s[1..]), s[0]);
      InsertKeeps(Ordered(s[1..]), s[0]);
      assert s == [s[0]] + s[1..];
    }
  }
}
