/** From the ledges of a level to the mesh of one of its models: the outline of every face survives all the way. */
module BspOutline {
  import opened Shares
  import opened BspFaces
  import opened BspMesh

  /** The signed edges of the first `k` faces that the model is drawn with, with opposite ones cancelled. */
  ghost function DrawnLedges(b: Bsp, m: nat, k: nat, u: nat, v: nat): int
    requires WellFormed(b) && k <= |b.faces|
  {
    if k == 0 then 0
    else DrawnLedges(b, m, k - 1, u, v) + if Draws(b, m, k - 1) then FaceLedges(b, k - 1, u, v) else 0
  }

  ghost function FaceLedges(b: Bsp, fn: nat, u: nat, v: nat): int
    requires WellFormed(b) && fn < |b.faces|
  {
    LedgesAreGood(b, b.faces[fn]);
    LedgeSum(b, Ledges(b, b.faces[fn]), u, v)
  }

  /** The ledges of all faces that the model is drawn with form loops. */
  ghost predicate AllClosed(b: Bsp, m: nat)
    requires WellFormed(b)
  {
    forall fn :: 0 <= fn < |b.faces| && Draws(b, m, fn) ==> IsClosed(b, b.faces[fn])
  }

  lemma {:induction false} BoundaryJoined(s: seq<Triangle>, t: seq<Triangle>, u: nat, v: nat)
    ensures Boundary(s + t, u, v) == Boundary(s, u, v) + Boundary(t, u, v)
  {
    if t == [] {
      assert s + t == s;
    } else {
      var k := |t| - 1;
      assert (s + t)[..|s| + k] == s + t[..k];
      BoundaryJoined(s, t[..k], u, v);
    }
  }

  lemma FanOutline(b: Bsp, fn: nat, u: nat, v: nat)
    requires WellFormed(b) && fn < |b.faces| && IsClosed(b, b.faces[fn])
    ensures Boundary(Fans(b)[fn], u, v) == FaceLedges(b, fn, u, v)
  {
    OutlineIsKept(b, b.faces[fn], u, v);
  }

  /** Joining fans adds their outlines. */
  lemma {:induction false} CollectedOutline(b: Bsp, m: nat, k: nat, u: nat, v: nat)
    requires WellFormed(b) && k <= |b.faces| && m < |b.models| && AllClosed(b, m)
    ensures Boundary(Collect(Fans(b), Owners(b), m, k), u, v) == DrawnLedges(b, m, k, u, v)
  {
    if k > 0 {
      CollectedOutline(b, m, k - 1, u, v);
      if Draws(b, m, k - 1) {
        FanOutline(b, k - 1, u, v);
        BoundaryJoined(Collect(Fans(b), Owners(b), m, k - 1), Fans(b)[k - 1], u, v);
      }
    }
  }

  /**
   Between any two of its vertices, the mesh of a model has exactly the
   uncancelled ledges of the faces that the model is drawn with, as often as
   they occur and in their direction.
   */
  lemma MeshOutline(b: Bsp, m: nat, mesh: Mesh, slots: seq<nat>, i: nat, j: nat)
    requires WellFormed(b) && m < |b.models| && !Fails(b, m) && AllClosed(b, m)
    requires AllGood(b, ModelTriangles(b, m).value) && IsCompact(b, ModelTriangles(b, m).value, mesh, slots)
    requires i < |slots| && j < |slots|
    ensures MeshBoundary(mesh.faces, i, j) == DrawnLedges(b, m, |b.faces|, slots[i], slots[j])
  {
    var index :| Inverse(slots, index);
    CompactionKeepsOutline(ModelTriangles(b, m).value, mesh.faces, slots, index, i, j);
    CollectedOutline(b, m, |b.faces|, slots[i], slots[j]);
  }

  lemma {:induction false} UnusedHasNoEdges(ts: seq<Triangle>, u: nat, v: nat)
    requires forall i :: 0 <= i < |ts| ==> !Uses(ts[i], u) || !Uses(ts[i], v)
    ensures Boundary(ts, u, v) == 0
  {
    if ts != [] {
      UnusedHasNoEdges(ts[..|ts| - 1], u, v);
      assert !Uses(ts[|ts| - 1], u) || !Uses(ts[|ts| - 1], v);
    }
  }

  /** And no ledge is left over at vertices that are not in the mesh. */
  lemma NothingIsLeftOut(b: Bsp, m: nat, mesh: Mesh, slots: seq<nat>, u: nat, v: nat)
    requires WellFormed(b) && m < |b.models| && !Fails(b, m) && AllClosed(b, m)
    requires AllGood(b, ModelTriangles(b, m).value) && IsCompact(b, ModelTriangles(b, m).value, mesh, slots)
    requires u !in slots || v !in slots
    ensures DrawnLedges(b, m, |b.faces|, u, v) == 0
  {
    var ts := ModelTriangles(b, m).value;
    CollectedOutline(b, m, |b.faces|, u, v);
    forall i | 0 <= i < |ts|
      ensures !Uses(ts[i], u) || !Uses(ts[i], v)
    {
      assert AtSlots(slots, mesh.faces[i].corners, ts[i]);
    }
    UnusedHasNoEdges(ts, u, v);
  }
}
