/** The mesh written for each model of a level: its own short lists of vertices and textures, and faces that refer to them. */
module BspMesh {
  import opened Options
  import opened DemoMessages
  import opened BspFaces

  /** A texture coordinate, as the two fractions that are written. */
  datatype Uv = Uv(s: real, width: nat, t: real, height: nat)

  datatype Indices = Indices(a: nat, b: nat, c: nat)

  datatype MeshFace = MeshFace(corners: Indices, texture: nat)

  datatype UvMap = UvMap(uvs: seq<Uv>, faces: seq<Indices>)

  /** A mesh2 object. */
  datatype Mesh = Mesh(vertices: seq<Vertex>, textures: seq<nat>, faces: seq<MeshFace>, uv: Option<UvMap>)

  /** `index` says where in `slots` a number is. So no number is there twice. */
  ghost predicate Inverse(slots: seq<nat>, index: map<nat, nat>) {
    && (forall i :: 0 <= i < |slots| ==> slots[i] in index && index[slots[i]] == i)
    && (forall x :: x in index ==> index[x] < |slots| && slots[index[x]] == x)
  }

  function Add(slots: seq<nat>, x: nat): seq<nat> {
    if x in slots then slots else slots + [x]
  }

  /** The vertices of one mesh: a list, and a map from the level's vertex numbers to places in it. */
  class VertexTable {
    var list: seq<Vertex>
    var vertexMap: map<nat, nat>
    /** The level's number of each vertex. */
    ghost var slots: seq<nat>

    ghost predicate Valid(b: Bsp)
      reads this
    {
      Inverse(slots, vertexMap) && AreVertices(b, slots, list)
    }

    constructor (b: Bsp)
      ensures Valid(b) && slots == []
    {
      list, vertexMap, slots := [], map[], [];
    }

    /** remapVertex */
    method Remap(b: Bsp, v: nat) returns (slot: nat)
      requires Valid(b) && v < |b.vertices|
      modifies this
      ensures Valid(b)
      ensures slots == Add(old(slots), v)
      ensures slot < |slots| && slots[slot] == v
    {
      if v in vertexMap {
        return vertexMap[v];
      }
      slot := |list|;
      list := list + [b.vertices[v]];
      vertexMap := vertexMap[v := slot];
      slots := slots + [v];
    }
  }

  ghost predicate AreVertices(b: Bsp, slots: seq<nat>, list: seq<Vertex>) {
    |list| == |slots| && forall i :: 0 <= i < |slots| ==> slots[i] < |b.vertices| && list[i] == b.vertices[slots[i]]
  }

  ghost predicate AllGood(b: Bsp, ts: seq<Triangle>) {
    forall i :: 0 <= i < |ts| ==> TriangleOf(b, ts[i])
  }

  function TextureOf(b: Bsp, t: Triangle): nat
    requires t.face.texInfo < |b.texInfos|
  {
    b.texInfos[t.face.texInfo].texture
  }

  /** Through the table the local triangle has the corners that `t` has in the level. */
  ghost predicate Denotes(slots: seq<nat>, local: Triangle, t: Triangle) {
    && local.face == t.face
    && local.a < |slots| && slots[local.a] == t.a
    && local.b < |slots| && slots[local.b] == t.b
    && local.c < |slots| && slots[local.c] == t.c
  }

  ghost predicate AllDenote(slots: seq<nat>, locals: seq<Triangle>, ts: seq<Triangle>) {
    |locals| == |ts| && forall i :: 0 <= i < |ts| ==> Denotes(slots, locals[i], ts[i])
  }

  predicate Uses(t: Triangle, v: nat) {
    v == t.a || v == t.b || v == t.c
  }

  ghost predicate UsedIn(ts: seq<Triangle>, v: nat) {
    exists i :: 0 <= i < |ts| && Uses(ts[i], v)
  }

  /** Every slot is used by a triangle. */
  ghost predicate NoWaste(slots: seq<nat>, ts: seq<Triangle>) {
    forall v :: v in slots ==> UsedIn(ts, v)
  }

  ghost predicate Textured(b: Bsp, textures: seq<nat>, ts: seq<Triangle>)
    requires AllGood(b, ts)
  {
    && (forall i :: 0 <= i < |ts| ==> TextureOf(b, ts[i]) in textures)
    && (forall x :: x in textures ==> exists i :: 0 <= i < |ts| && TextureOf(b, ts[i]) == x)
  }

  /** The corners of one triangle, rewritten in place. */
  method RemapTriangle(b: Bsp, table: VertexTable, triangles: array<Triangle>, n: nat)
    requires table.Valid(b) && n < triangles.Length && TriangleOf(b, triangles[n])
    modifies table, triangles
    ensures table.Valid(b)
    ensures var t := old(triangles[n]); table.slots == Add(Add(Add(old(table.slots), t.a), t.b), t.c)
    ensures Denotes(table.slots, triangles[n], old(triangles[n]))
    ensures forall j :: 0 <= j < triangles.Length && j != n ==> triangles[j] == old(triangles[j])
  {
    var v := table.Remap(b, triangles[n].a);
    triangles[n] := triangles[n].(a := v);
    v := table.Remap(b, triangles[n].b);
    triangles[n] := triangles[n].(b := v);
    v := table.Remap(b, triangles[n].c);
    triangles[n] := triangles[n].(c := v);
  }

  lemma DenotesMore(slots: seq<nat>, more: seq<nat>, local: Triangle, t: Triangle)
    requires Denotes(slots, local, t) && slots <= more
    ensures Denotes(more, local, t)
  {
  }

  /** The loop over the triangles: afterwards their corners are places in the short list of vertices. */
  method Compact(b: Bsp, triangles: array<Triangle>) returns (list: seq<Vertex>, ghost slots: seq<nat>)
    requires forall i :: 0 <= i < triangles.Length ==> TriangleOf(b, triangles[i])
    modifies triangles
    ensures AreVertices(b, slots, list)
    ensures AllDenote(slots, triangles[..], old(triangles[..]))
    ensures NoWaste(slots, old(triangles[..]))
    ensures exists index :: Inverse(slots, index)
  {
    var table := new VertexTable(b);
    ghost var ts := triangles[..];
    for n := 0 to triangles.Length
      invariant fresh(table) && table.Valid(b)
      invariant forall j :: 0 <= j < n ==> Denotes(table.slots, triangles[j], ts[j])
      invariant forall j :: n <= j < triangles.Length ==> triangles[j] == ts[j]
      invariant NoWaste(table.slots, ts[..n])
    {
      ghost var before := table.slots;
      assert triangles[n] == ts[n];
      RemapTriangle(b, table, triangles, n);
      forall j | 0 <= j < n
        ensures Denotes(table.slots, triangles[j], ts[j])
      {
        DenotesMore(before, table.slots, triangles[j], ts[j]);
      }
      StillNoWaste(before, ts, n);
    }
    assert ts[..triangles.Length] == ts;
    return table.list, table.slots;
  }

  lemma StillNoWaste(slots: seq<nat>, ts: seq<Triangle>, n: nat)
    requires n < |ts| && NoWaste(slots, ts[..n])
    ensures NoWaste(Add(Add(Add(slots, ts[n].a), ts[n].b), ts[n].c), ts[..n + 1])
  {
    forall v | v in Add(Add(Add(slots, ts[n].a), ts[n].b), ts[n].c)
      ensures UsedIn(ts[..n + 1], v)
    {
      if v in slots {
        var i :| 0 <= i < n && Uses(ts[..n][i], v);
        assert Uses(ts[..n + 1][i], v);
      } else {
        assert Uses(ts[..n + 1][n], v);
      }
    }
  }

  /** The other map of the same loop: from the level's textures to the mesh's, with its inverse. */
  method CollectTextures(b: Bsp, triangles: seq<Triangle>) returns (mipTexMap: map<nat, nat>, localMipTex: seq<nat>)
    requires AllGood(b, triangles)
    ensures Inverse(localMipTex, mipTexMap)
    ensures Textured(b, localMipTex, triangles)
  {
    mipTexMap, localMipTex := map[], [];
    for n := 0 to |triangles|
      invariant Inverse(localMipTex, mipTexMap) && |mipTexMap| == |localMipTex|
      invariant forall i :: 0 <= i < n ==> TextureOf(b, triangles[i]) in localMipTex
      invariant forall x :: x in localMipTex ==> exists i :: 0 <= i < n && TextureOf(b, triangles[i]) == x
    {
      var oldMipTex := TextureOf(b, triangles[n]);
      if oldMipTex !in mipTexMap {
        var newMipTex := |mipTexMap|;
        mipTexMap := mipTexMap[oldMipTex := newMipTex];
        localMipTex := localMipTex + [oldMipTex];
      }
    }
  }

  // Texture coordinates

  function DotProduct(v: Vertex, w: Vertex): real {
    v.x * w.x + v.y * w.y + v.z * w.z
  }

  function UvAt(b: Bsp, t: Triangle, v: Vertex): Uv
    requires t.face.texInfo < |b.texInfos| && TextureOf(b, t) < |b.mipTexs|
  {
    var ti := b.texInfos[t.face.texInfo];
    var mip := b.mipTexs[ti.texture];
    Uv(DotProduct(v, ti.vectorS) + ti.distS, mip.width, DotProduct(v, ti.vectorT) + ti.distT, mip.height)
  }

  /** The texture's two vectors, with their offsets, applied to the vertex, over the texture's width and height. */
  predicate IsUvAt(b: Bsp, t: Triangle, v: Vertex, uv: Uv)
    requires t.face.texInfo < |b.texInfos| && TextureOf(b, t) < |b.mipTexs|
  {
    var ti := b.texInfos[t.face.texInfo];
    && uv.s == v.x * ti.vectorS.x + v.y * ti.vectorS.y + v.z * ti.vectorS.z + ti.distS
    && uv.t == v.x * ti.vectorT.x + v.y * ti.vectorT.y + v.z * ti.vectorT.z + ti.distT
    && uv.width == b.mipTexs[ti.texture].width && uv.height == b.mipTexs[ti.texture].height
  }

  lemma UvAtIs(b: Bsp, t: Triangle, v: Vertex)
    requires t.face.texInfo < |b.texInfos| && TextureOf(b, t) < |b.mipTexs|
    ensures IsUvAt(b, t, v, UvAt(b, t, v))
  {
  }

  /** The three texture coordinates that face `i` of the mesh refers to are those of the level's triangle `t`. */
  ghost predicate UvOf(b: Bsp, uv: UvMap, i: nat, t: Triangle)
    requires TriangleOf(b, t) && i < |uv.faces|
  {
    var f := uv.faces[i];
    && f.a < |uv.uvs| && IsUvAt(b, t, b.vertices[t.a], uv.uvs[f.a])
    && f.b < |uv.uvs| && IsUvAt(b, t, b.vertices[t.b], uv.uvs[f.b])
    && f.c < |uv.uvs| && IsUvAt(b, t, b.vertices[t.c], uv.uvs[f.c])
  }

  lemma LocalUvs(b: Bsp, list: seq<Vertex>, slots: seq<nat>, local: Triangle, t: Triangle)
    requires AreVertices(b, slots, list) && Denotes(slots, local, t) && TriangleOf(b, t)
    ensures UvAt(b, local, list[local.a]) == UvAt(b, t, b.vertices[t.a])
    ensures UvAt(b, local, list[local.b]) == UvAt(b, t, b.vertices[t.b])
    ensures UvAt(b, local, list[local.c]) == UvAt(b, t, b.vertices[t.c])
  {
  }

  method ThreeUvs(b: Bsp, list: seq<Vertex>, local: Triangle, ghost slots: seq<nat>, ghost t: Triangle) returns (uvs: seq<Uv>)
    requires AreVertices(b, slots, list) && Denotes(slots, local, t) && TriangleOf(b, t)
    ensures uvs == Uvs(b, t)
  {
    uvs := [UvAt(b, local, list[local.a]), UvAt(b, local, list[local.b]), UvAt(b, local, list[local.c])];
    LocalUvs(b, list, slots, local, t);
  }

  function Uvs(b: Bsp, t: Triangle): (uvs: seq<Uv>)
    requires TriangleOf(b, t)
    ensures |uvs| == 3
  {
    [UvAt(b, t, b.vertices[t.a]), UvAt(b, t, b.vertices[t.b]), UvAt(b, t, b.vertices[t.c])]
  }

  method ListUvs(b: Bsp, list: seq<Vertex>, locals: seq<Triangle>, ghost slots: seq<nat>, ghost ts: seq<Triangle>) returns (uvs: seq<Uv>)
    requires AreVertices(b, slots, list) && AllDenote(slots, locals, ts) && AllGood(b, ts)
    ensures |uvs| == 3 * |ts|
    ensures forall i :: 0 <= i < |ts| ==> uvs[3 * i..3 * i + 3] == Uvs(b, ts[i])
  {
    uvs := [];
    for i := 0 to |locals|
      invariant |uvs| == 3 * i
      invariant forall j :: 0 <= j < i ==> uvs[3 * j..3 * j + 3] == Uvs(b, ts[j])
    {
      assert Denotes(slots, locals[i], ts[i]);
      var three := ThreeUvs(b, list, locals[i], slots, ts[i]);
      ghost var before := uvs;
      uvs := uvs + three;
      assert uvs[3 * i..3 * i + 3] == three;
      assert forall j :: 0 <= j < i ==> uvs[3 * j..3 * j + 3] == before[3 * j..3 * j + 3];
    }
  }

  method UvIndices(n: nat) returns (faces: seq<Indices>)
    ensures |faces| == n && forall i :: 0 <= i < n ==> faces[i] == Indices(3 * i, 3 * i + 1, 3 * i + 2)
  {
    faces := [];
    for i := 0 to n
      invariant |faces| == i && forall j :: 0 <= j < i ==> faces[j] == Indices(3 * j, 3 * j + 1, 3 * j + 2)
    {
      faces := faces + [Indices(i * 3, i * 3 + 1, i * 3 + 2)];
    }
  }

  ghost predicate IsUvMap(b: Bsp, ts: seq<Triangle>, uv: UvMap)
    requires AllGood(b, ts)
  {
    && |uv.faces| == |ts| && |uv.uvs| == 3 * |ts|
    && forall i :: 0 <= i < |ts| ==> uv.faces[i] == Indices(3 * i, 3 * i + 1, 3 * i + 2) && UvOf(b, uv, i, ts[i])
  }

  method MapTextures(b: Bsp, list: seq<Vertex>, locals: seq<Triangle>, ghost slots: seq<nat>, ghost ts: seq<Triangle>) returns (uv: UvMap)
    requires AreVertices(b, slots, list) && AllDenote(slots, locals, ts) && AllGood(b, ts)
    ensures IsUvMap(b, ts, uv)
  {
    var uvs := ListUvs(b, list, locals, slots, ts);
    var faces := UvIndices(|locals|);
    uv := UvMap(uvs, faces);
    forall i | 0 <= i < |ts|
      ensures UvOf(b, uv, i, ts[i])
    {
      var three := uvs[3 * i..3 * i + 3];
      assert three[0] == uvs[3 * i] && three[1] == uvs[3 * i + 1] && three[2] == uvs[3 * i + 2];
      UvAtIs(b, ts[i], b.vertices[ts[i].a]);
      UvAtIs(b, ts[i], b.vertices[ts[i].b]);
      UvAtIs(b, ts[i], b.vertices[ts[i].c]);
    }
  }

  // The mesh

  /** Face `f` of the mesh is the triangle `t` of the level, with its texture. */
  ghost predicate Shows(b: Bsp, mesh: Mesh, f: MeshFace, t: Triangle)
    requires TriangleOf(b, t)
  {
    && f.corners.a < |mesh.vertices| && mesh.vertices[f.corners.a] == b.vertices[t.a]
    && f.corners.b < |mesh.vertices| && mesh.vertices[f.corners.b] == b.vertices[t.b]
    && f.corners.c < |mesh.vertices| && mesh.vertices[f.corners.c] == b.vertices[t.c]
    && f.texture < |mesh.textures| && mesh.textures[f.texture] == b.texInfos[t.face.texInfo].texture
  }

  /** The mesh shows the triangles one by one, each with its own texture coordinates. */
  ghost predicate IsMeshOf(b: Bsp, ts: seq<Triangle>, mesh: Mesh)
    requires AllGood(b, ts)
  {
    && |mesh.faces| == |ts|
    && (forall i :: 0 <= i < |ts| ==> Shows(b, mesh, mesh.faces[i], ts[i]))
    && (mesh.uv.Some? ==> IsUvMap(b, ts, mesh.uv.value))
  }

  /** Each vertex in use is in the mesh once, nothing else is, and the faces refer to vertices by way of the slots. */
  ghost predicate IsCompact(b: Bsp, ts: seq<Triangle>, mesh: Mesh, slots: seq<nat>)
    requires AllGood(b, ts)
  {
    && AreVertices(b, slots, mesh.vertices)
    && (exists index :: Inverse(slots, index))
    && NoWaste(slots, ts)
    && (exists index :: Inverse(mesh.textures, index))
    && Textured(b, mesh.textures, ts)
    && |mesh.faces| == |ts|
    && forall i :: 0 <= i < |ts| ==> AtSlots(slots, mesh.faces[i].corners, ts[i])
  }

  ghost predicate AtSlots(slots: seq<nat>, c: Indices, t: Triangle) {
    && c.a < |slots| && slots[c.a] == t.a
    && c.b < |slots| && slots[c.b] == t.b
    && c.c < |slots| && slots[c.c] == t.c
  }

  ghost predicate IsFaceOf(b: Bsp, slots: seq<nat>, textures: seq<nat>, f: MeshFace, t: Triangle)
    requires TriangleOf(b, t)
  {
    AtSlots(slots, f.corners, t) && f.texture < |textures| && textures[f.texture] == TextureOf(b, t)
  }

  /** A face, with its corners and its texture found through the tables. */
  function FaceFor(b: Bsp, tri: Triangle, mipTexMap: map<nat, nat>, ghost textures: seq<nat>, ghost slots: seq<nat>,
                   ghost t: Triangle): (f: MeshFace)
    requires Denotes(slots, tri, t) && TriangleOf(b, t)
    requires Inverse(textures, mipTexMap) && TextureOf(b, t) in textures
    ensures IsFaceOf(b, slots, textures, f, t)
  {
    MeshFace(Indices(tri.a, tri.b, tri.c), mipTexMap[TextureOf(b, tri)])
  }

  method ListFaces(b: Bsp, triangles: seq<Triangle>, mipTexMap: map<nat, nat>, ghost localMipTex: seq<nat>, ghost slots: seq<nat>,
                   ghost ts: seq<Triangle>) returns (faces: seq<MeshFace>)
    requires AllDenote(slots, triangles, ts) && AllGood(b, ts)
    requires Inverse(localMipTex, mipTexMap) && Textured(b, localMipTex, ts)
    ensures |faces| == |ts|
    ensures forall i :: 0 <= i < |ts| ==> IsFaceOf(b, slots, localMipTex, faces[i], ts[i])
  {
    faces := [];
    for i := 0 to |triangles|
      invariant |faces| == i
      invariant forall j :: 0 <= j < i ==> IsFaceOf(b, slots, localMipTex, faces[j], ts[j])
    {
      faces := faces + [FaceFor(b, triangles[i], mipTexMap, localMipTex, slots, ts[i])];
    }
  }

  lemma FaceIsShown(b: Bsp, ts: seq<Triangle>, mesh: Mesh, slots: seq<nat>, i: nat)
    requires AllGood(b, ts) && AreVertices(b, slots, mesh.vertices) && i < |ts| == |mesh.faces|
    requires IsFaceOf(b, slots, mesh.textures, mesh.faces[i], ts[i])
    ensures Shows(b, mesh, mesh.faces[i], ts[i])
  {
  }

  method BuildMesh(b: Bsp, ts: seq<Triangle>, withTextures: bool) returns (mesh: Mesh, ghost slots: seq<nat>)
    requires AllGood(b, ts)
    ensures IsMeshOf(b, ts, mesh)
    ensures IsCompact(b, ts, mesh, slots)
    ensures mesh.uv.Some? <==> withTextures
  {
    var triangles := new Triangle[|ts|](i requires 0 <= i < |ts| => ts[i]);
    assert triangles[..] == ts;
    var list;
    list, slots := Compact(b, triangles);
    var mipTexMap, localMipTex := CollectTextures(b, ts);
    var uv := None;
    if withTextures {
      var m := MapTextures(b, list, triangles[..], slots, ts);
      uv := Some(m);
    }
    var faces := ListFaces(b, triangles[..], mipTexMap, localMipTex, slots, ts);
    mesh := Mesh(list, localMipTex, faces, uv);
    forall i | 0 <= i < |ts|
      ensures Shows(b, mesh, faces[i], ts[i])
    {
      FaceIsShown(b, ts, mesh, slots, i);
    }
  }

  /** POVTriangleMesh: a mesh for every model that has triangles, or nothing at all, and no error, if one of them fails. */
  method PovTriangleMesh(b: Bsp, withTextures: bool) returns (out: seq<Option<Mesh>>)
    requires WellFormed(b)
    ensures !AllDrawn(b) ==> out == []
    ensures AllDrawn(b) ==> |out| == |b.models| && forall m :: 0 <= m < |out| ==> IsOutput(b, m, withTextures, out[m])
  {
    out := [];
    for m := 0 to |b.models|
      invariant |out| == m
      invariant forall k :: 0 <= k < m ==> !Fails(b, k) && IsOutput(b, k, withTextures, out[k])
    {
      var triangles := MakeTriangles(b, m);
      if triangles.None? {
        return [];
      }
      ModelIsGood(b, m);
      if triangles.value == [] {
        out := out + [None];
        continue;
      }
      var mesh, slots := BuildMesh(b, triangles.value, withTextures);
      out := out + [Some(mesh)];
    }
  }

  lemma ModelIsGood(b: Bsp, m: nat)
    requires WellFormed(b) && !Fails(b, m)
    ensures AllGood(b, ModelTriangles(b, m).value)
  {
    TrianglesAreGood(b, m, |b.faces|);
  }

  ghost predicate IsOutput(b: Bsp, m: nat, withTextures: bool, out: Option<Mesh>)
    requires WellFormed(b)
  {
    && !Fails(b, m)
    && var ts := ModelTriangles(b, m).value;
    && AllGood(b, ts)
    && if ts == [] then out == None else
       out.Some? && IsMeshOf(b, ts, out.value) && (exists slots :: IsCompact(b, ts, out.value, slots)) &&
       (out.value.uv.Some? <==> withTextures)
  }

  // Outlines

  function MeshBoundary(faces: seq<MeshFace>, i: nat, j: nat): int {
    if faces == [] then 0
    else
      var c := faces[|faces| - 1].corners;
      MeshBoundary(faces[..|faces| - 1], i, j) + Pass(c.a, c.b, i, j) + Pass(c.b, c.c, i, j) + Pass(c.c, c.a, i, j)
  }

  /** Between any two of its vertices the mesh has the boundary that the triangles of the level have. */
  lemma {:induction false} CompactionKeepsOutline(ts: seq<Triangle>, faces: seq<MeshFace>, slots: seq<nat>,
                                                  index: map<nat, nat>, i: nat, j: nat)
    requires Inverse(slots, index) && i < |slots| && j < |slots|
    requires |faces| == |ts| && forall k :: 0 <= k < |ts| ==> AtSlots(slots, faces[k].corners, ts[k])
    ensures MeshBoundary(faces, i, j) == Boundary(ts, slots[i], slots[j])
  {
    if ts != [] {
      var k := |ts| - 1;
      CompactionKeepsOutline(ts[..k], faces[..k], slots, index, i, j);
      assert AtSlots(slots, faces[k].corners, ts[k]);
    }
  }
}
