/** The encoder and the decoder of meshes as they push to and read from buffers. */
module SerializedMeshObject {
  import opened SerializedMesh

  class Mesh {
    const dims: nat
    var vertices: seq<Vertex>
    var edges: seq<seq<int>>
    var triangles: seq<seq<int>>
    var tetrahedra: seq<seq<int>>

    ghost function View(): MeshData
      reads this
    {
      MeshData(vertices, edges, triangles, tetrahedra)
    }

    constructor (dims: nat)
      ensures this.dims == dims && View() == MeshData([], [], [], [])
    {
      this.dims := dims;
      vertices, edges, triangles, tetrahedra := [], [], [], [];
    }

    method CreateVertex(coords: seq<real>, globalIndex: int) returns (id: int)
      requires |coords| == dims
      modifies this`vertices
      ensures vertices == old(vertices) + [Vertex(coords, globalIndex)] && id == |old(vertices)|
    {
      id := |vertices|;
      vertices := vertices + [Vertex(coords, globalIndex)];
    }
  }

  // ----- serialize -----

  lemma {:induction false} FlatMore<T>(xs: seq<seq<T>>, x: seq<T>)
    ensures Flat(xs + [x]) == Flat(xs) + x
  {
    if xs == [] {
      assert [] + [x] == [x] && [x][1..] == [];
    } else {
      FlatMore(xs[1..], x);
      assert (xs + [x])[1..] == xs[1..] + [x];
    }
  }

  method PushElements(ids: seq<int>, elements: seq<seq<int>>) returns (r: seq<int>)
    ensures r == ids + Flat(elements)
  {
    r := ids;
    for i := 0 to |elements|
      invariant r == ids + Flat(elements[..i])
    {
      FlatMore(elements[..i], elements[i]);
      assert elements[..i + 1] == elements[..i] + [elements[i]];
      r := r + elements[i];
    }
    assert elements[..|elements|] == elements;
  }

  /** Coordinates and IDs of the vertices; the local IDs are interleaved only if there is connectivity. */
  method PushVertices(m: MeshData, connected: bool) returns (ids: seq<int>, coords: seq<real>)
    ensures ids == if connected then Flat(IdPairs(m)) else Globals(m)
    ensures coords == Flat(Coords(m))
  {
    ids, coords := [], [];
    for i := 0 to |m.vertices|
      invariant coords == Flat(Coords(m)[..i])
      invariant ids == if connected then Flat(IdPairs(m)[..i]) else Globals(m)[..i]
    {
      FlatMore(Coords(m)[..i], m.vertices[i].coords);
      assert Coords(m)[..i + 1] == Coords(m)[..i] + [m.vertices[i].coords];
      FlatMore(IdPairs(m)[..i], [m.vertices[i].globalIndex, i]);
      assert IdPairs(m)[..i + 1] == IdPairs(m)[..i] + [[m.vertices[i].globalIndex, i]];
      coords := coords + m.vertices[i].coords;
      ids := ids + [m.vertices[i].globalIndex];
      if connected {
        ids := ids + [i];
      }
    }
    assert Coords(m)[..|m.vertices|] == Coords(m) && IdPairs(m)[..|m.vertices|] == IdPairs(m);
  }

  method Serialize(m: MeshData, dims: nat) returns (s: Serialized)
    requires ValidMesh(m, dims)
    ensures s == Encode(m, dims)
  {
    var sizes := [dims, |m.vertices|, |m.edges|, |m.triangles|, |m.tetrahedra|];
    if |m.vertices| == 0 {
      return Serialized(sizes, [], []);
    }
    var connected := m.edges != [] || m.triangles != [] || m.tetrahedra != [];
    var ids, coords := PushVertices(m, connected);
    if connected {
      ids := PushElements(ids, m.edges);
      ids := PushElements(ids, m.triangles);
      ids := PushElements(ids, m.tetrahedra);
    }
    s := Serialized(sizes, ids, coords);
  }

  // ----- add to a mesh -----

  /** The local IDs of the first `i` vertices with the IDs of their copies. */
  function Known(locals: seq<int>, first: nat, i: nat): map<int, int>
    requires i <= |locals|
  {
    map id | id in locals[..i] :: first + Position(locals, id)
  }

  lemma {:induction false} PositionBounds(locals: seq<int>, i: nat)
    requires i < |locals| && forall k :: 0 <= k < i ==> locals[k] != locals[i]
    ensures Position(locals, locals[i]) == i
  {
    if i > 0 {
      assert locals[1..][i - 1] == locals[i];
      PositionBounds(locals[1..], i - 1);
    }
  }

  lemma OneBlockBack(i: nat, k: nat)
    requires i > 0
    ensures 0 <= (i - 1) * k && i * k == (i - 1) * k + k
  {
  }

  lemma SliceOfRest<T>(c: seq<T>, k: nat, a: nat, b: nat)
    requires b == a + k && b + k <= |c|
    ensures c[k..][a..a + k] == c[b..b + k]
  {
  }

  lemma {:induction false} ChunkAt<T>(c: seq<T>, k: nat, i: nat)
    requires k > 0 && i * k + k <= |c|
    ensures i < |Chunks(c, k)| && Chunks(c, k)[i] == c[i * k..i * k + k]
  {
    if i > 0 {
      OneBlockBack(i, k);
      var rest := c[k..];
      ChunkAt(rest, k, i - 1);
      SliceOfRest(c, k, (i - 1) * k, i * k);
    }
  }

  method LookUp(element: seq<int>, known: map<int, int>, ghost locals: seq<int>, ghost first: nat) returns (r: seq<int>)
    requires known == Known(locals, first, |locals|) && forall j :: 0 <= j < |element| ==> element[j] in locals
    ensures r == Renumbered(element, locals, first)
  {
    assert locals[..|locals|] == locals;
    forall j | 0 <= j < |element| ensures element[j] in known {
      assert element[j] in Known(locals, first, |locals|);
    }
    r := Ordered(seq(|element|, j requires 0 <= j < |element| => known[element[j]]));
    assert seq(|element|, j requires 0 <= j < |element| => known[element[j]])
        == seq(|element|, j requires 0 <= j < |element| => first + Position(locals, element[j]));
  }

  /** The elements with `k` vertices that begin between `begin` and `end`. */
  method CreateElements(ids: seq<int>, begin: nat, end: nat, k: nat, known: map<int, int>, ghost locals: seq<int>,
                        ghost first: nat)
    returns (created: seq<seq<int>>)
    requires k > 0 && begin <= end <= |ids| && (end - begin) % k == 0
    requires known == Known(locals, first, |locals|) && forall i :: begin <= i < end ==> ids[i] in locals
    ensures created == AllRenumbered(Chunks(ids[begin..end], k), locals, first)
  {
    created := [];
    ghost var done := [];
    var idx := begin;
    while idx != end
      invariant begin <= idx <= end && (end - idx) % k == 0
      invariant done + Chunks(ids[idx..end], k) == Chunks(ids[begin..end], k)
      invariant created == AllRenumbered(done, locals, first)
    {
      StepFits(end - idx, k);
      var element := ids[idx..idx + k];
      var r := LookUp(element, known, locals, first);
      ghost var rest := ids[idx..end];
      assert rest[..k] == element && rest[k..] == ids[idx + k..end];
      assert done + ([element] + Chunks(ids[idx + k..end], k)) == (done + [element]) + Chunks(ids[idx + k..end], k);
      assert AllRenumbered(done + [element], locals, first) == AllRenumbered(done, locals, first) + [r];
      done := done + [element];
      created := created + [r];
      idx := idx + k;
    }
    assert done == Chunks(ids[begin..end], k);
  }

  lemma StepFits(n: nat, k: nat)
    requires k > 0 && n % k == 0 && n > 0
    ensures n >= k && (n - k) % k == 0
  {
    assert n == (n / k) * k;
    assert n - k == (n / k - 1) * k;
    Modulo(n / k - 1, k);
  }

  lemma Modulo(q: int, k: nat)
    requires k > 0
    ensures (q * k) % k == 0
  {
    var r, d := (q * k) % k, (q * k) / k;
    assert (q - d) * k == r;
    assert (q - d >= 1 ==> (q - d) * k >= k) && (q - d <= -1 ==> (q - d) * k < 0);
  }

  lemma KnownMore(locals: seq<int>, first: nat, i: nat)
    requires i < |locals| && forall j, k :: 0 <= j < k < |locals| ==> locals[j] != locals[k]
    ensures locals[i] !in Known(locals, first, i)
    ensures Known(locals, first, i + 1) == Known(locals, first, i)[locals[i] := first + i]
  {
    PositionBounds(locals, i);
    assert locals[..i + 1] == locals[..i] + [locals[i]];
  }

  lemma CoordsOf(s: Serialized, i: nat)
    requires Valid(s) && i < s.sizes[1]
    ensures var dim := s.sizes[0];
            0 <= i * dim && i * dim + dim == (i + 1) * dim <= |s.coords|
            && Block(Chunks(s.coords, dim), i) == s.coords[i * dim..i * dim + dim]
  {
    var dim, n := s.sizes[0], s.sizes[1];
    assert (n - i - 1) * dim >= 0;
    ChunkAt(s.coords, dim, i);
  }

  lemma PairAt(ids: seq<int>, n: nat, i: nat)
    requires 2 * n <= |ids| && i < n
    ensures var pairs := Chunks(ids[..2 * n], 2); |pairs| == n && pairs[i] == [ids[2 * i], ids[2 * i + 1]]
  {
    ChunksAreUniform(ids[..2 * n], 2);
    ChunkAt(ids[..2 * n], 2, i);
  }

  lemma PairOf(s: Serialized, i: nat)
    requires Valid(s) && Connected(s) && i < s.sizes[1]
    ensures Block(Pairs(s), i) == [s.ids[2 * i], s.ids[2 * i + 1]] && |Locals(s)| == s.sizes[1]
    ensures Locals(s)[i] == s.ids[2 * i + 1]
  {
    PairAt(s.ids, s.sizes[1], i);
  }

  /** Vertex `i` of a message. */
  lemma VertexOf(s: Serialized, first: nat, i: nat)
    requires Valid(s) && i < s.sizes[1]
    ensures var dim := s.sizes[0];
            && 0 <= i * dim && i * dim + dim <= |s.coords| && 2 * i + 1 < 2 * s.sizes[1]
            && (if Connected(s) then 2 * s.sizes[1] else s.sizes[1]) <= |s.ids|
            && |Decode(s, first).vertices| == s.sizes[1]
            && Decode(s, first).vertices[i]
               == Vertex(s.coords[i * dim..i * dim + dim], if Connected(s) then s.ids[2 * i] else s.ids[i])
  {
    CoordsOf(s, i);
    if Connected(s) { PairOf(s, i); }
  }

  /** The first `i` vertices of a message were appended after `first` others, and their local IDs are known. */
  ghost predicate Added(s: Serialized, before: seq<Vertex>, i: nat, vertices: seq<Vertex>, known: map<int, int>)
    requires Valid(s)
  {
    var d := Decode(s, |before|).vertices;
    && i <= |d| && vertices == before + d[..i]
    && (Connected(s) && s.sizes[1] > 0 ==> i <= |Locals(s)| && known == Known(Locals(s), |before|, i))
  }

  lemma AddedNext(s: Serialized, before: seq<Vertex>, i: nat, vertices: seq<Vertex>, known: map<int, int>)
    requires Valid(s) && i < s.sizes[1] && Added(s, before, i, vertices, known)
    ensures Connected(s) ==> 2 * i + 1 < |s.ids|
    ensures Added(s, before, i + 1, vertices + [Decode(s, |before|).vertices[i]],
                  if Connected(s) then known[s.ids[2 * i + 1] := |before| + i] else known)
  {
    VertexOf(s, |before|, i);
    var d := Decode(s, |before|).vertices;
    assert d[..i + 1] == d[..i] + [d[i]];
    if Connected(s) {
      PairOf(s, i);
      KnownMore(Locals(s), |before|, i);
    }
  }

  lemma AddedNone(s: Serialized, before: seq<Vertex>)
    requires Valid(s) && s.sizes[1] > 0
    ensures Added(s, before, 0, before, map[])
  {
  }

  lemma AddedAll(s: Serialized, before: seq<Vertex>, vertices: seq<Vertex>, known: map<int, int>)
    requires Valid(s) && s.sizes[1] > 0 && Added(s, before, s.sizes[1], vertices, known)
    ensures vertices == before + Decode(s, |before|).vertices
    ensures Connected(s) ==> known == Known(Locals(s), |before|, |Locals(s)|)
  {
    VertexOf(s, |before|, 0);
    if Connected(s) { PairOf(s, 0); }
    assert Decode(s, |before|).vertices[..s.sizes[1]] == Decode(s, |before|).vertices;
  }

  /** Creates one vertex and remembers which local ID became which vertex. */
  method AddVertex(s: Serialized, mesh: Mesh, connected: bool, i: nat, known: map<int, int>, ghost before: seq<Vertex>)
    returns (more: map<int, int>)
    requires Valid(s) && i < s.sizes[1] && s.sizes[0] == mesh.dims && connected == Connected(s)
    requires Added(s, before, i, mesh.vertices, known) && |mesh.vertices| == |before| + i
    modifies mesh`vertices
    ensures Added(s, before, i + 1, mesh.vertices, more) && |mesh.vertices| == |before| + i + 1
  {
    var dim := s.sizes[0];
    VertexOf(s, |before|, i);
    AddedNext(s, before, i, mesh.vertices, known);
    var id := mesh.CreateVertex(s.coords[i * dim..i * dim + dim], if connected then s.ids[2 * i] else s.ids[i]);
    more := known;
    if connected {
      more := known[s.ids[2 * i + 1] := id];
    }
  }

  method AddVertices(s: Serialized, mesh: Mesh, connected: bool) returns (known: map<int, int>)
    requires Valid(s) && s.sizes[1] > 0 && s.sizes[0] == mesh.dims && connected == Connected(s)
    modifies mesh`vertices
    ensures mesh.vertices == old(mesh.vertices) + Decode(s, |old(mesh.vertices)|).vertices
    ensures connected ==> known == Known(Locals(s), |old(mesh.vertices)|, |Locals(s)|)
  {
    ghost var before := mesh.vertices;
    known := map[];
    AddedNone(s, before);
    for i := 0 to s.sizes[1]
      invariant Added(s, before, i, mesh.vertices, known) && |mesh.vertices| == |before| + i
    {
      known := AddVertex(s, mesh, connected, i, known, before);
    }
    AddedAll(s, before, mesh.vertices, known);
  }

  /** Where the elements of a message begin and end. */
  lemma Offsets(s: Serialized)
    requires Valid(s) && s.sizes[1] > 0 && Connected(s)
    ensures var edge := 2 * s.sizes[1];
            var triangle := 2 * s.sizes[1] + 2 * s.sizes[2];
            var tetrahedron := 2 * s.sizes[1] + 2 * s.sizes[2] + 3 * s.sizes[3];
            && 0 <= edge <= triangle <= tetrahedron <= |s.ids|
            && (triangle - edge) % 2 == 0 && (tetrahedron - triangle) % 3 == 0 && (|s.ids| - tetrahedron) % 4 == 0
            && forall i :: edge <= i < |s.ids| ==> s.ids[i] in Locals(s)
  {
    Modulo(s.sizes[2], 2);
    Modulo(s.sizes[3], 3);
    Modulo(s.sizes[4], 4);
  }

  /** Creates all elements of a message. */
  method AddElements(s: Serialized, mesh: Mesh, known: map<int, int>, ghost first: nat)
    requires Valid(s) && s.sizes[1] > 0 && Connected(s) && known == Known(Locals(s), first, |Locals(s)|)
    modifies mesh`edges, mesh`triangles, mesh`tetrahedra
    ensures var d := Decode(s, first);
            && mesh.edges == old(mesh.edges) + d.edges && mesh.triangles == old(mesh.triangles) + d.triangles
            && mesh.tetrahedra == old(mesh.tetrahedra) + d.tetrahedra
  {
    Offsets(s);
    ghost var locals := Locals(s);
    var offsetEdge := 2 * s.sizes[1];
    var offsetTriangle := offsetEdge + 2 * s.sizes[2];
    var offsetTetrahedron := offsetTriangle + 3 * s.sizes[3];
    var edges := CreateElements(s.ids, offsetEdge, offsetTriangle, 2, known, locals, first);
    var triangles := CreateElements(s.ids, offsetTriangle, offsetTetrahedron, 3, known, locals, first);
    var tetrahedra := CreateElements(s.ids, offsetTetrahedron, |s.ids|, 4, known, locals, first);
    assert s.ids[offsetTetrahedron..|s.ids|] == s.ids[offsetTetrahedron..];
    mesh.edges := mesh.edges + edges;
    mesh.triangles := mesh.triangles + triangles;
    mesh.tetrahedra := mesh.tetrahedra + tetrahedra;
  }

  /** A valid message is appended to the mesh with its IDs counted on from the vertices already there. */
  method AddToMesh(s: Serialized, mesh: Mesh)
    requires Valid(s) && s.sizes[0] == mesh.dims
    modifies mesh
    ensures var d := Decode(s, |old(mesh.vertices)|);
            mesh.View() == MeshData(old(mesh.vertices) + d.vertices, old(mesh.edges) + d.edges,
                                    old(mesh.triangles) + d.triangles, old(mesh.tetrahedra) + d.tetrahedra)
  {
    if s.sizes[1] == 0 {
      return;
    }
    ghost var n0 := |mesh.vertices|;
    var connected := s.sizes[2] + s.sizes[3] + s.sizes[4] > 0;
    var known := AddVertices(s, mesh, connected);
    if connected {
      AddElements(s, mesh, known, n0);
    }
  }
}
