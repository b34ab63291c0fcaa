/** The faces of a Quake level and how the faces of one of its models become triangles. */
module BspFaces {
  import opened Options
  import opened DemoMessages
  import opened Shares

  datatype Edge = Edge(from: nat, to: nat)

  datatype Face = Face(firstLedge: nat, ledges: nat, texInfo: nat)

  datatype TexInfo = TexInfo(vectorS: Vertex, distS: real, vectorT: Vertex, distT: real, texture: nat)

  datatype MipTex = MipTex(name: string, width: nat, height: nat)

  datatype Model = Model(firstFace: nat, faces: nat)

  datatype Bsp = Bsp(
    vertices: seq<Vertex>,
    edges: seq<Edge>,
    ledges: seq<int>,
    faces: seq<Face>,
    texInfos: seq<TexInfo>,
    mipTexs: seq<MipTex>,
    models: seq<Model>)

  datatype Triangle = Triangle(face: Face, a: nat, b: nat, c: nat)

  /** All indices point at something; the source would crash on others. */
  ghost predicate WellFormed(b: Bsp) {
    && (forall i :: 0 <= i < |b.edges| ==> b.edges[i].from < |b.vertices| && b.edges[i].to < |b.vertices|)
    && GoodLedges(b, b.ledges)
    && (forall i :: 0 <= i < |b.faces| ==> b.faces[i].firstLedge + b.faces[i].ledges <= |b.ledges|)
    && (forall i :: 0 <= i < |b.faces| ==> b.faces[i].texInfo < |b.texInfos|)
    && (forall i :: 0 <= i < |b.texInfos| ==> b.texInfos[i].texture < |b.mipTexs|)
  }

  // Signed ledges

  predicate HasEdge(b: Bsp, e: int) {
    -|b.edges| < e < |b.edges|
  }

  predicate GoodLedges(b: Bsp, es: seq<int>) {
    forall i :: 0 <= i < |es| ==> HasEdge(b, es[i])
  }

  /** Where a ledge starts: a negative one goes along its edge backwards. */
  function Start(b: Bsp, e: int): (v: nat)
    requires HasEdge(b, e)
  {
    if e < 0 then b.edges[-e].to else b.edges[e].from
  }

  function End(b: Bsp, e: int): (v: nat)
    requires HasEdge(b, e)
  {
    if e < 0 then b.edges[-e].from else b.edges[e].to
  }

  ghost predicate IsFace(b: Bsp, f: Face) {
    WellFormed(b) && f in b.faces
  }

  function Ledges(b: Bsp, f: Face): (es: seq<int>)
    requires IsFace(b, f)
    ensures |es| == f.ledges
  {
    seq(f.ledges, i requires 0 <= i < f.ledges => b.ledges[f.firstLedge + i])
  }

  ghost predicate HasZeroLedge(b: Bsp, f: Face)
    requires IsFace(b, f)
  {
    exists i :: 0 <= i < f.ledges && Ledges(b, f)[i] == 0
  }

  lemma LedgesAreGood(b: Bsp, f: Face)
    requires IsFace(b, f)
    ensures GoodLedges(b, Ledges(b, f))
  {
  }

  function Corner(b: Bsp, f: Face, i: nat): (v: nat)
    requires IsFace(b, f) && i < f.ledges
  {
    Start(b, b.ledges[f.firstLedge + i])
  }

  /** The vertices that the ledges start at. */
  function Corners(b: Bsp, f: Face): (vs: seq<nat>)
    requires IsFace(b, f)
    ensures |vs| == f.ledges
  {
    seq(f.ledges, i requires 0 <= i < f.ledges => Corner(b, f, i))
  }

  lemma CornerIsGood(b: Bsp, f: Face, i: nat)
    requires IsFace(b, f) && i < f.ledges
    ensures Corners(b, f)[i] < |b.vertices|
  {
    var e := b.ledges[f.firstLedge + i];
    assert HasEdge(b, e);
  }

  function Fan(f: Face, vs: seq<nat>): (ts: seq<Triangle>)
    ensures |ts| == if |vs| < 2 then 0 else |vs| - 2
  {
    seq(if |vs| < 2 then 0 else |vs| - 2, i requires 0 <= i < |vs| - 2 => Triangle(f, vs[0], vs[i + 1], vs[i + 2]))
  }

  // The boundary of a fan

  /** How often the edge u-v is passed forwards, less how often it is passed backwards, in going from x to y. */
  function Pass(x: nat, y: nat, u: nat, v: nat): int {
    (if x == u && y == v then 1 else 0) - (if x == v && y == u then 1 else 0)
  }

  function Around(t: Triangle, u: nat, v: nat): int {
    Pass(t.a, t.b, u, v) + Pass(t.b, t.c, u, v) + Pass(t.c, t.a, u, v)
  }

  /** The boundary of a set of triangles: what remains of their edges when opposite ones cancel. */
  function Boundary(ts: seq<Triangle>, u: nat, v: nat): int {
    if ts == [] then 0 else Boundary(ts[..|ts| - 1], u, v) + Around(ts[|ts| - 1], u, v)
  }

  /** The edges of an open path, with opposite ones cancelled. */
  function Path(vs: seq<nat>, u: nat, v: nat): int {
    if |vs| < 2 then 0 else Path(vs[..|vs| - 1], u, v) + Pass(vs[|vs| - 2], vs[|vs| - 1], u, v)
  }

  /** A fan is bounded by its corners in order and the way back to the first, for any number of corners. */
  lemma {:induction false} FanBoundary(f: Face, vs: seq<nat>, u: nat, v: nat)
    requires |vs| > 0
    ensures Boundary(Fan(f, vs), u, v) == Path(vs, u, v) + Pass(vs[|vs| - 1], vs[0], u, v)
  {
    var n := |vs|;
    if n > 2 {
      var vs' := vs[..n - 1];
      assert Fan(f, vs)[..n - 3] == Fan(f, vs');
      FanBoundary(f, vs', u, v);
    } else if n == 2 {
      assert Path(vs[..1], u, v) == 0;
    }
  }

  /** The signed edges of a face, with opposite ones cancelled. */
  function LedgeSum(b: Bsp, es: seq<int>, u: nat, v: nat): int
    requires GoodLedges(b, es)
  {
    if es == [] then 0
    else
      var e := es[|es| - 1];
      LedgeSum(b, es[..|es| - 1], u, v)
      + if e < 0 then Pass(b.edges[-e].to, b.edges[-e].from, u, v) else Pass(b.edges[e].from, b.edges[e].to, u, v)
  }

  /** Each ledge ends where the next one starts. */
  ghost predicate IsChain(b: Bsp, es: seq<int>)
    requires GoodLedges(b, es)
  {
    forall i :: 0 < i < |es| ==> End(b, es[i - 1]) == Start(b, es[i])
  }

  ghost predicate IsClosed(b: Bsp, f: Face)
    requires IsFace(b, f)
  {
    var es := Ledges(b, f);
    LedgesAreGood(b, f);
    IsChain(b, es) && (es != [] ==> End(b, es[|es| - 1]) == Start(b, es[0]))
  }

  lemma {:induction false} ChainIsPath(b: Bsp, es: seq<int>, vs: seq<nat>, u: nat, v: nat)
    requires GoodLedges(b, es)
    requires IsChain(b, es) && es != [] && |vs| == |es|
    requires forall i :: 0 <= i < |es| ==> vs[i] == Start(b, es[i])
    ensures LedgeSum(b, es, u, v) == Path(vs, u, v) + Pass(vs[|vs| - 1], End(b, es[|es| - 1]), u, v)
  {
    var k := |es| - 1;
    if k > 0 {
      ChainIsPath(b, es[..k], vs[..k], u, v);
    } else {
      assert LedgeSum(b, es[..k], u, v) == 0;
    }
  }

  /** Drawing a face as a fan keeps its outline, edge by edge and with its direction. */
  lemma OutlineIsKept(b: Bsp, f: Face, u: nat, v: nat)
    requires IsFace(b, f) && IsClosed(b, f)
    ensures GoodLedges(b, Ledges(b, f))
    ensures Boundary(Fan(f, Corners(b, f)), u, v) == LedgeSum(b, Ledges(b, f), u, v)
    ensures |Fan(f, Corners(b, f))| == if f.ledges < 2 then 0 else f.ledges - 2
  {
    LedgesAreGood(b, f);
    var es := Ledges(b, f);
    if es != [] {
      ChainIsPath(b, es, Corners(b, f), u, v);
      FanBoundary(f, Corners(b, f), u, v);
    }
  }

  // Which faces belong to a model

  const TWO_TO_32 := 0x1_0000_0000

  /** The sum is one of 32 bits. */
  function FacesEnd(m: Model): nat {
    (m.firstFace + m.faces) % TWO_TO_32
  }

  predicate Covers(m: Model, fn: nat) {
    m.firstFace <= fn < FacesEnd(m)
  }

  /** These are the model's own faces, unless the sum does not fit 32 bits; then they are none. */
  lemma CoversOwnFaces(m: Model, fn: nat)
    requires m.firstFace < 0x1_0000_0000 && m.faces < 0x1_0000_0000
    ensures Covers(m, fn) <==> m.firstFace <= fn < m.firstFace + m.faces && m.firstFace + m.faces < 0x1_0000_0000
  {
  }

  predicate IsTrigger(b: Bsp, f: Face)
    requires IsFace(b, f)
  {
    b.mipTexs[b.texInfos[f.texInfo].texture].name == "trigger"
  }

  ghost predicate InOther(b: Bsp, m: nat, fn: nat) {
    exists nm :: 0 <= nm < |b.models| && nm != m && Covers(b.models[nm], fn)
  }

  /** Model `m` is drawn with face `fn`. */
  ghost predicate Draws(b: Bsp, m: nat, fn: nat)
    requires WellFormed(b) && fn < |b.faces|
  {
    !InOther(b, m, fn) && !IsTrigger(b, b.faces[fn])
  }

  ghost function Coverers(b: Bsp, fn: nat): set<nat> {
    set m | 0 <= m < |b.models| && Covers(b.models[m], fn)
  }

  ghost function Drawers(b: Bsp, fn: nat): set<nat>
    requires WellFormed(b) && fn < |b.faces|
  {
    set m | 0 <= m < |b.models| && Draws(b, m, fn)
  }

  /**
   A face is drawn by the model that has it if just one does. A face that no model has is drawn by all of them, and
   one that several have by none. Triggers are never drawn.
   */
  lemma WhoDraws(b: Bsp, fn: nat, m: nat)
    requires WellFormed(b) && fn < |b.faces| && m < |b.models|
    ensures Draws(b, m, fn) <==>
      && b.mipTexs[b.texInfos[b.faces[fn].texInfo].texture].name != "trigger"
      && (Coverers(b, fn) == {} || Coverers(b, fn) == {m})
  {
    var has := Coverers(b, fn);
    if InOther(b, m, fn) {
      var nm :| 0 <= nm < |b.models| && nm != m && Covers(b.models[nm], fn);
      assert nm in has;
    } else {
      assert forall nm :: nm in has ==> nm == m;
      assert m !in has ==> has == {};
    }
  }

  /** So a face is drawn exactly once if just one model has it, or none of just one. */
  lemma DrawnOnce(b: Bsp, fn: nat)
    requires WellFormed(b) && fn < |b.faces| && !IsTrigger(b, b.faces[fn])
    ensures |Drawers(b, fn)| == 1 <==> |Coverers(b, fn)| == 1 || (Coverers(b, fn) == {} && |b.models| == 1)
  {
    var has, draws := Coverers(b, fn), Drawers(b, fn);
    forall m | 0 <= m < |b.models|
      ensures m in draws <==> has == {} || has == {m}
    {
      WhoDraws(b, fn, m);
    }
    if |has| == 1 {
      var k :| k in has;
      OnlyOne(has, k);
      assert draws == {k};
    } else if has == {} {
      if |b.models| == 0 {
        assert draws == {};
      } else if |b.models| == 1 {
        assert draws == {0};
      } else {
        assert {0, 1} <= draws;
        if |draws| == 1 {
          OnlyOne(draws, 0);
        }
      }
    } else {
      assert draws == {};
    }
  }

  lemma OnlyOne<T>(s: set<T>, x: T)
    requires |s| == 1 && x in s
    ensures s == {x}
  {
    assert |s - {x}| == 0;
    assert s == {x} + (s - {x});
  }

  /** A level with one face, a triangle, and the given models and ledges. */
  function OneFace(models: seq<Model>, ledges: seq<int>): Bsp {
    Bsp([ORIGIN, ORIGIN, ORIGIN], [Edge(0, 0), Edge(0, 1), Edge(1, 2), Edge(2, 0)], ledges, [Face(0, |ledges|, 0)],
        [TexInfo(ORIGIN, 0.0, ORIGIN, 0.0, 0)], [MipTex("wall", 64, 64)], models)
  }

  lemma OneFaceIsGood(models: seq<Model>, ledges: seq<int>)
    requires forall i :: 0 <= i < |ledges| ==> -4 < ledges[i] < 4
    ensures WellFormed(OneFace(models, ledges)) && !IsTrigger(OneFace(models, ledges), Face(0, |ledges|, 0))
  {
  }

  /** If neither of two models has the face, both are drawn with it. */
  lemma UncoveredIsDrawnTwice()
    ensures WellFormed(OneFace([Model(0, 0), Model(1, 0)], [1, 2, 3]))
    ensures forall m: nat :: m < 2 ==> Draws(OneFace([Model(0, 0), Model(1, 0)], [1, 2, 3]), m, 0)
  {
    var b := OneFace([Model(0, 0), Model(1, 0)], [1, 2, 3]);
    OneFaceIsGood(b.models, b.ledges);
    assert Coverers(b, 0) == {};
    forall m: nat | m < 2
      ensures Draws(b, m, 0)
    {
      WhoDraws(b, 0, m);
    }
  }

  /** If both have it, neither is. */
  lemma SharedIsNotDrawn()
    ensures WellFormed(OneFace([Model(0, 1), Model(0, 1)], [1, 2, 3]))
    ensures forall m: nat :: m < 2 ==> !Draws(OneFace([Model(0, 1), Model(0, 1)], [1, 2, 3]), m, 0)
  {
    var b := OneFace([Model(0, 1), Model(0, 1)], [1, 2, 3]);
    OneFaceIsGood(b.models, b.ledges);
    assert 0 in Coverers(b, 0) && 1 in Coverers(b, 0);
    forall m: nat | m < 2
      ensures !Draws(b, m, 0)
    {
      WhoDraws(b, 0, m);
    }
  }

  /** Each face belongs to exactly one model. */
  ghost predicate Partitioned(b: Bsp) {
    forall fn :: 0 <= fn < |b.faces| ==> |Coverers(b, fn)| == 1
  }

  // The triangles of a model

  /** The face is one of those that the model is drawn with, and makes that fail. */
  ghost predicate CannotDraw(b: Bsp, m: nat, fn: nat)
    requires WellFormed(b) && fn < |b.faces|
  {
    Draws(b, m, fn) && HasZeroLedge(b, b.faces[fn])
  }

  ghost predicate Fails(b: Bsp, m: nat)
    requires WellFormed(b)
  {
    exists fn :: 0 <= fn < |b.faces| && CannotDraw(b, m, fn)
  }

  ghost function Fans(b: Bsp): (parts: seq<seq<Triangle>>)
    requires WellFormed(b)
    ensures |parts| == |b.faces|
  {
    seq(|b.faces|, fn requires 0 <= fn < |b.faces| => Fan(b.faces[fn], Corners(b, b.faces[fn])))
  }

  ghost function Owners(b: Bsp): (owners: seq<set<nat>>)
    requires WellFormed(b)
    ensures |owners| == |b.faces|
    ensures forall fn, m :: 0 <= fn < |b.faces| && m in owners[fn] ==> m < |b.models|
  {
    seq(|b.faces|, fn requires 0 <= fn < |b.faces| => Drawers(b, fn))
  }

  /** The fans of the faces that the model is drawn with, in order, or an error. */
  ghost function ModelTriangles(b: Bsp, m: nat): Option<seq<Triangle>>
    requires WellFormed(b)
  {
    if Fails(b, m) then None else Some(Collect(Fans(b), Owners(b), m, |b.faces|))
  }

  /** All indices of a triangle are good. */
  ghost predicate TriangleOf(b: Bsp, t: Triangle) {
    && t.a < |b.vertices| && t.b < |b.vertices| && t.c < |b.vertices|
    && t.face.texInfo < |b.texInfos| && b.texInfos[t.face.texInfo].texture < |b.mipTexs|
  }

  lemma FanIsGood(b: Bsp, fn: nat, t: Triangle)
    requires WellFormed(b) && fn < |b.faces| && t in Fans(b)[fn]
    ensures TriangleOf(b, t)
  {
    var f := b.faces[fn];
    var i :| 0 <= i < |Fan(f, Corners(b, f))| && Fan(f, Corners(b, f))[i] == t;
    CornerIsGood(b, f, 0);
    CornerIsGood(b, f, i + 1);
    CornerIsGood(b, f, i + 2);
  }

  lemma {:induction false} TrianglesAreGood(b: Bsp, m: nat, k: nat)
    requires WellFormed(b) && k <= |b.faces|
    ensures forall t :: t in Collect(Fans(b), Owners(b), m, k) ==> TriangleOf(b, t)
  {
    if k > 0 {
      TrianglesAreGood(b, m, k - 1);
      forall t | t in Fans(b)[k - 1]
        ensures TriangleOf(b, t)
      {
        FanIsGood(b, k - 1, t);
      }
    }
  }

  /** How many times `t` occurs in the triangles of the first `n` models together. */
  ghost function Drawn(b: Bsp, n: nat, t: Triangle): nat
    requires WellFormed(b) && forall m :: 0 <= m < n ==> !Fails(b, m)
  {
    if n == 0 then 0 else Drawn(b, n - 1, t) + Count(ModelTriangles(b, n - 1).value, t)
  }

  lemma {:induction false} DrawnIsOutput(b: Bsp, n: nat, t: Triangle)
    requires WellFormed(b) && forall m :: 0 <= m < n ==> !Fails(b, m)
    ensures Drawn(b, n, t) == Output(Fans(b), Owners(b), n, t)
  {
    if n > 0 {
      DrawnIsOutput(b, n - 1, t);
    }
  }

  ghost predicate AllDrawn(b: Bsp)
    requires WellFormed(b)
  {
    forall m :: 0 <= m < |b.models| ==> !Fails(b, m)
  }

  /** No triangle is lost and none is made up: each face gives its own to every model that it is drawn with. */
  lemma LevelIsConserved(b: Bsp, t: Triangle)
    requires WellFormed(b) && AllDrawn(b)
    ensures Drawn(b, |b.models|, t) == Input(Fans(b), Owners(b), |b.faces|, t)
  {
    DrawnIsOutput(b, |b.models|, t);
    Conservation(Fans(b), Owners(b), |b.models|, t);
  }

  /** The triangles of all faces but the triggers, once each. */
  ghost function Level(b: Bsp, k: nat): seq<Triangle>
    requires WellFormed(b) && k <= |b.faces|
  {
    if k == 0 then []
    else if IsTrigger(b, b.faces[k - 1]) then Level(b, k - 1)
    else Level(b, k - 1) + Fans(b)[k - 1]
  }

  lemma OwnersIfPartitioned(b: Bsp, fn: nat)
    requires WellFormed(b) && Partitioned(b) && fn < |b.faces|
    ensures |Owners(b)[fn]| == if IsTrigger(b, b.faces[fn]) then 0 else 1
  {
    if IsTrigger(b, b.faces[fn]) {
      assert Drawers(b, fn) == {};
    } else {
      DrawnOnce(b, fn);
    }
  }

  lemma {:induction false} LevelIsOwned(b: Bsp, k: nat)
    requires WellFormed(b) && Partitioned(b) && k <= |b.faces|
    ensures Owned(Fans(b), Owners(b), k) == Level(b, k)
  {
    if k > 0 {
      LevelIsOwned(b, k - 1);
      OwnersIfPartitioned(b, k - 1);
    }
  }

  /** If the models share out the faces, the models together are exactly the level. */
  lemma EachFaceOnce(b: Bsp, t: Triangle)
    requires WellFormed(b) && AllDrawn(b) && Partitioned(b)
    ensures Drawn(b, |b.models|, t) == Count(Level(b, |b.faces|), t)
  {
    LevelIsConserved(b, t);
    forall fn | 0 <= fn < |b.faces|
      ensures |Owners(b)[fn]| <= 1
    {
      OwnersIfPartitioned(b, fn);
    }
    EachPartOnce(Fans(b), Owners(b), |b.faces|, t);
    LevelIsOwned(b, |b.faces|);
  }

  /** A level whose two models have a face each, the second of them with a ledge 0. */
  const BROKEN :=
    Bsp([ORIGIN, ORIGIN, ORIGIN], [Edge(0, 0), Edge(0, 1), Edge(1, 2), Edge(2, 0)], [1, 2, 3, 0], [Face(0, 3, 0), Face(3, 1, 0)],
        [TexInfo(ORIGIN, 0.0, ORIGIN, 0.0, 0)], [MipTex("wall", 64, 64)], [Model(0, 1), Model(1, 1)])

  /** Its first model could be drawn, but its second one fails. */
  lemma LedgeZeroFails()
    ensures WellFormed(BROKEN) && !Fails(BROKEN, 0) && Fails(BROKEN, 1)
  {
    var b := BROKEN;
    assert WellFormed(b);
    assert Covers(b.models[0], 0) && Covers(b.models[1], 1);
    assert InOther(b, 0, 1);
    assert Ledges(b, b.faces[1])[0] == 0;
    assert !InOther(b, 1, 1);
    assert CannotDraw(b, 1, 1);
    assert forall i :: 0 <= i < 3 ==> Ledges(b, b.faces[0])[i] != 0;
    assert !CannotDraw(b, 0, 0) && !CannotDraw(b, 0, 1);
  }

  // The source's loops

  method FacesToSkip(b: Bsp, model: nat) returns (skipFace: map<nat, bool>)
    ensures forall fn: nat :: fn in skipFace <==> InOther(b, model, fn)
  {
    skipFace := map[];
    for nm := 0 to |b.models|
      invariant forall fn: nat :: fn in skipFace <==> exists k :: 0 <= k < nm && k != model && Covers(b.models[k], fn)
    {
      var m := b.models[nm];
      ghost var before := skipFace;
      var n := m.firstFace;
      while n < FacesEnd(m)
        invariant forall fn: nat :: fn in skipFace <==> fn in before || (nm != model && Covers(m, fn) && fn < n)
      {
        if nm != model {
          skipFace := skipFace[n := true];
        }
        n := n + 1;
      }
    }
  }

  /** A positive ledge starts where its edge does, and a negative one where its edge ends. */
  predicate StartsAt(b: Bsp, e: int, v: nat) {
    && (e > 0 ==> e < |b.edges| && v == b.edges[e].from)
    && (e < 0 ==> -e < |b.edges| && v == b.edges[-e].to)
  }

  lemma ZeroLedge(b: Bsp, f: Face)
    requires IsFace(b, f)
    ensures HasZeroLedge(b, f) <==> exists i :: f.firstLedge <= i < f.firstLedge + f.ledges && b.ledges[i] == 0
  {
    if i :| f.firstLedge <= i < f.firstLedge + f.ledges && b.ledges[i] == 0 {
      assert Ledges(b, f)[i - f.firstLedge] == 0;
    }
    if HasZeroLedge(b, f) {
      var i :| 0 <= i < f.ledges && Ledges(b, f)[i] == 0;
      assert b.ledges[f.firstLedge + i] == 0;
    }
  }

  method FaceVertices(b: Bsp, f: Face) returns (vs: Option<seq<nat>>)
    requires IsFace(b, f)
    ensures vs == if HasZeroLedge(b, f) then None else Some(Corners(b, f))
    ensures vs.None? <==> exists i :: f.firstLedge <= i < f.firstLedge + f.ledges && b.ledges[i] == 0
    ensures vs.Some? ==>
      && |vs.value| == f.ledges
      && forall i :: 0 <= i < f.ledges ==> StartsAt(b, b.ledges[f.firstLedge + i], vs.value[i])
  {
    ZeroLedge(b, f);
    var corners: seq<nat> := [];
    var es := Ledges(b, f);
    for i := 0 to |es|
      invariant forall j :: 0 <= j < i ==> es[j] != 0
      invariant corners == Corners(b, f)[..i]
    {
      var e := b.ledges[f.firstLedge + i];
      assert e == es[i];
      if e == 0 {
        return None;
      }
      var from, to;
      if e < 0 {
        e := -e;
        to, from := b.edges[e].from, b.edges[e].to;
      } else {
        from, to := b.edges[e].from, b.edges[e].to;
      }
      assert from == Corner(b, f, i);
      corners := corners + [from];
    }
    assert Corners(b, f)[..|es|] == Corners(b, f);
    forall j | 0 <= j < f.ledges ensures StartsAt(b, b.ledges[f.firstLedge + j], corners[j]) {
      assert es[j] != 0 && HasEdge(b, es[j]);
      assert corners[j] == Corner(b, f, j);
    }
    return Some(corners);
  }

  /** makeTriangles */
  method MakeTriangles(b: Bsp, model: nat) returns (tris: Option<seq<Triangle>>)
    requires WellFormed(b) && model < |b.models|
    ensures tris == ModelTriangles(b, model)
  {
    var skipFace := FacesToSkip(b, model);
    var ts: seq<Triangle> := [];
    for fn := 0 to |b.faces|
      invariant forall j :: 0 <= j < fn ==> !CannotDraw(b, model, j)
      invariant ts == Collect(Fans(b), Owners(b), model, fn)
    {
      var f := b.faces[fn];
      if fn in skipFace || IsTrigger(b, f) {
        continue;
      }
      var vs := FaceVertices(b, f);
      if vs.None? {
        assert CannotDraw(b, model, fn);
        return None;
      }
      var fan := FanTriangles(f, vs.value);
      ts := ts + fan;
    }
    return Some(ts);
  }

  method FanTriangles(f: Face, vs: seq<nat>) returns (ts: seq<Triangle>)
    ensures ts == Fan(f, vs)
  {
    ts := [];
    var i := 0;
    while i < |vs| - 2
      invariant i <= |Fan(f, vs)| && ts == Fan(f, vs)[..i]
    {
      ts := ts + [Triangle(f, vs[0], vs[i + 1], vs[i + 2])];
      i := i + 1;
    }
  }
}
