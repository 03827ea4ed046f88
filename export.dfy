/** The STL export of downloadSTL (script.js): which meshes are exported, where
    their vertices end up, and the errors reported instead of a file.  A mesh is
    given by the vertices of its triangles in the coordinates of the model group
    (the library's triangulation with the mesh's own transform applied); the binary
    STL encoding and the download link are not modelled. */
module Export {
  import opened Geometry

  /** The meshes downloadSTL can see: whether the scene exists, the preview scale,
      and the vertices of the plate, the buildings, the roads and the walls. */
  datatype ExportInput = ExportInput(
    loaded: bool,
    scale: real,
    plate: Option<seq<Vec3>>,
    buildings: seq<seq<Vec3>>,
    roads: seq<seq<Vec3>>,
    walls: seq<seq<Vec3>>)

  /** A mesh of the export group and whether it is moved down after the transform. */
  datatype Part = Part(vertices: seq<Vec3>, sink: bool)

  datatype ExportResult =
    | NotLoaded
    | NothingToExport
    | MergeFailed
    | Stl(vertices: seq<Vec3>)

  /** How far the buildings and roads are moved down into the plate. */
  const SinkAmount: real := 0.1

  function PlateParts(e: ExportInput): seq<Part> {
    if e.plate.Some? then [Part(e.plate.value, false)] else []
  }

  function GroupParts(meshes: seq<seq<Vec3>>): (r: seq<Part>)
    ensures |r| == |meshes|
  {
    seq(|meshes|, i requires 0 <= i < |meshes| => Part(meshes[i], true))
  }

  /** The meshes of the export group in traversal order: the plate, then the
      children of the buildings group, then those of the roads group.  The walls are
      never added. */
  function ExportParts(e: ExportInput): (r: seq<Part>)
    ensures |r| == |PlateParts(e)| + |e.buildings| + |e.roads|
  {
    PlateParts(e) + GroupParts(e.buildings) + GroupParts(e.roads)
  }

  /** Exactly the plate is left where it is; every building and road is sunk, and
      each part keeps the vertices of its mesh. */
  lemma ExportPartsSelection(e: ExportInput)
    ensures var parts := ExportParts(e); var n := |PlateParts(e)|;
      && (forall i :: 0 <= i < |parts| ==> (parts[i].sink <==> i >= n))
      && (e.plate.Some? ==> parts[0].vertices == e.plate.value)
      && (forall i :: 0 <= i < |e.buildings| ==> parts[n + i].vertices == e.buildings[i])
      && (forall i :: 0 <= i < |e.roads| ==> parts[n + |e.buildings| + i].vertices == e.roads[i])
  {
  }

  /** A vertex after the export group's transform (the preview scale, copied) and,
      for a sunk part, the translation by -0.1 in y. */
  function Place(v: Vec3, scale: real, sink: bool): Vec3 {
    Vec3(scale * v.x, scale * v.y - (if sink then SinkAmount else 0.0), scale * v.z)
  }

  function PlacedGeometry(p: Part, scale: real): (r: seq<Vec3>)
    ensures |r| == |p.vertices|
  {
    seq(|p.vertices|, k requires 0 <= k < |p.vertices| => Place(p.vertices[k], scale, p.sink))
  }

  function PlacedGeometries(parts: seq<Part>, scale: real): (r: seq<seq<Vec3>>)
    ensures |r| == |parts|
  {
    seq(|parts|, i requires 0 <= i < |parts| => PlacedGeometry(parts[i], scale))
  }

  /** A sunk vertex lies exactly 0.1 below where the same vertex of a part that is
      not sunk is placed, at the same x and z. */
  lemma SinkOffset(v: Vec3, scale: real)
    ensures var down := Place(v, scale, true); var level := Place(v, scale, false);
      down.x == level.x && down.z == level.z && level.y - down.y == SinkAmount
  {
  }

  /** The traversal of downloadSTL: each mesh's vertices transformed and, when its
      parent is the buildings or roads group, sunk, pushed in order. */
  method CollectGeometries(parts: seq<Part>, scale: real) returns (geometriesToMerge: seq<seq<Vec3>>)
    ensures geometriesToMerge == PlacedGeometries(parts, scale)
  {
    geometriesToMerge := [];
    for i := 0 to |parts|
      invariant geometriesToMerge == PlacedGeometries(parts[..i], scale)
    {
      var geom := PlacedGeometry(parts[i], scale);
      geometriesToMerge := geometriesToMerge + [geom];
    }
    assert parts[..|parts|] == parts;
  }

  /** mergeBufferGeometries on non-indexed geometries: the vertex lists one after the
      other. */
  function Merge(gs: seq<seq<Vec3>>): seq<Vec3> {
    if |gs| == 0 then [] else Merge(gs[..|gs| - 1]) + gs[|gs| - 1]
  }

  lemma {:induction false} MergeAppend(a: seq<seq<Vec3>>, b: seq<seq<Vec3>>)
    ensures Merge(a + b) == Merge(a) + Merge(b)
  {
    if |b| == 0 {
      assert a + b == a;
    } else {
      assert (a + b)[..|a + b| - 1] == a + b[..|b| - 1];
      MergeAppend(a, b[..|b| - 1]);
    }
  }

  /** Where geometry j starts in the merged list. */
  function Offset(gs: seq<seq<Vec3>>, j: nat): nat
    requires j <= |gs|
  {
    |Merge(gs[..j])|
  }

  /** The merge keeps every vertex: vertex k of geometry j is at Offset(gs, j) + k. */
  lemma MergeIndex(gs: seq<seq<Vec3>>, j: nat, k: nat)
    requires j < |gs| && k < |gs[j]|
    ensures Offset(gs, j) + k < |Merge(gs)|
    ensures Merge(gs)[Offset(gs, j) + k] == gs[j][k]
  {
    assert gs == gs[..j + 1] + gs[j + 1..];
    MergeAppend(gs[..j + 1], gs[j + 1..]);
    assert gs[..j + 1][..j] == gs[..j];
  }

  /** The two rotations of downloadSTL, rotateX(-pi/2) then rotateX(pi), each given
      by its cosine and sine. */
  function FlipForPrint(v: Vec3): (r: Vec3)
    ensures r == Vec3(v.x, -v.z, v.y)
  {
    RotateX(RotateX(v, 0.0, -1.0), -1.0, 0.0)
  }

  /** The net rotation is a quarter turn about x: the up axis of the scene becomes
      the z axis of the print, the scene's z becomes -y, and a rotation keeps
      distances. */
  lemma FlipIsQuarterTurn(u: Vec3, v: Vec3)
    ensures FlipForPrint(u).z == u.y
    ensures SqDist3(FlipForPrint(u), FlipForPrint(v)) == SqDist3(u, v)
    ensures FlipForPrint(FlipForPrint(FlipForPrint(FlipForPrint(u)))) == u
  {
  }

  function FlipAll(vs: seq<Vec3>): (r: seq<Vec3>)
    ensures |r| == |vs|
  {
    seq(|vs|, i requires 0 <= i < |vs| => FlipForPrint(vs[i]))
  }

  /** The smallest corner of the bounding box of a non-empty vertex list. */
  function BoxMin(vs: seq<Vec3>): Vec3
    requires |vs| > 0
  {
    if |vs| == 1 then vs[0]
    else
      var m := BoxMin(vs[..|vs| - 1]);
      var v := vs[|vs| - 1];
      Vec3(Min(m.x, v.x), Min(m.y, v.y), Min(m.z, v.z))
  }

  /** The largest corner of the bounding box of a non-empty vertex list. */
  function BoxMax(vs: seq<Vec3>): Vec3
    requires |vs| > 0
  {
    if |vs| == 1 then vs[0]
    else
      var m := BoxMax(vs[..|vs| - 1]);
      var v := vs[|vs| - 1];
      Vec3(Max(m.x, v.x), Max(m.y, v.y), Max(m.z, v.z))
  }

  /** BoxMin and BoxMax bound every vertex. */
  lemma {:induction false} BoxBounds(vs: seq<Vec3>)
    requires |vs| > 0
    ensures forall i :: 0 <= i < |vs| ==>
      && BoxMin(vs).x <= vs[i].x <= BoxMax(vs).x
      && BoxMin(vs).y <= vs[i].y <= BoxMax(vs).y
      && BoxMin(vs).z <= vs[i].z <= BoxMax(vs).z
  {
    if |vs| > 1 {
      var init := vs[..|vs| - 1];
      BoxBounds(init);
      assert forall i :: 0 <= i < |init| ==> vs[i] == init[i];
    }
  }

  /** The bounds are tight: each face of the box touches a vertex. */
  lemma {:induction false} BoxTight(vs: seq<Vec3>)
    requires |vs| > 0
    ensures exists i :: 0 <= i < |vs| && vs[i].x == BoxMin(vs).x
    ensures exists i :: 0 <= i < |vs| && vs[i].y == BoxMin(vs).y
    ensures exists i :: 0 <= i < |vs| && vs[i].z == BoxMin(vs).z
    ensures exists i :: 0 <= i < |vs| && vs[i].x == BoxMax(vs).x
    ensures exists i :: 0 <= i < |vs| && vs[i].y == BoxMax(vs).y
    ensures exists i :: 0 <= i < |vs| && vs[i].z == BoxMax(vs).z
  {
    if |vs| > 1 {
      var init := vs[..|vs| - 1];
      var n := |vs| - 1;
      BoxTight(init);
      var a1 :| 0 <= a1 < |init| && init[a1].x == BoxMin(init).x;
      var a2 :| 0 <= a2 < |init| && init[a2].y == BoxMin(init).y;
      var a3 :| 0 <= a3 < |init| && init[a3].z == BoxMin(init).z;
      var b1 :| 0 <= b1 < |init| && init[b1].x == BoxMax(init).x;
      var b2 :| 0 <= b2 < |init| && init[b2].y == BoxMax(init).y;
      var b3 :| 0 <= b3 < |init| && init[b3].z == BoxMax(init).z;
      assert vs[a1] == init[a1] && vs[a2] == init[a2] && vs[a3] == init[a3];
      assert vs[b1] == init[b1] && vs[b2] == init[b2] && vs[b3] == init[b3];
      assert BoxMin(vs).x == vs[a1].x || BoxMin(vs).x == vs[n].x;
      assert BoxMin(vs).y == vs[a2].y || BoxMin(vs).y == vs[n].y;
      assert BoxMin(vs).z == vs[a3].z || BoxMin(vs).z == vs[n].z;
      assert BoxMax(vs).x == vs[b1].x || BoxMax(vs).x == vs[n].x;
      assert BoxMax(vs).y == vs[b2].y || BoxMax(vs).y == vs[n].y;
      assert BoxMax(vs).z == vs[b3].z || BoxMax(vs).z == vs[n].z;
    } else {
      assert vs[0] == BoxMin(vs) && vs[0] == BoxMax(vs);
    }
  }

  /** The centre of the bounding box; Box3.getCenter gives the origin for an empty
      box. */
  function BoxCenter(vs: seq<Vec3>): Vec3 {
    if |vs| == 0 then Vec3(0.0, 0.0, 0.0)
    else
      var lo := BoxMin(vs);
      var hi := BoxMax(vs);
      Vec3((lo.x + hi.x) / 2.0, (lo.y + hi.y) / 2.0, (lo.z + hi.z) / 2.0)
  }

  function Minus(v: Vec3, c: Vec3): Vec3 {
    Vec3(v.x - c.x, v.y - c.y, v.z - c.z)
  }

  /** translate(-c.x, -c.y, -c.z) on every vertex. */
  function Shift(vs: seq<Vec3>, c: Vec3): (r: seq<Vec3>)
    ensures |r| == |vs|
  {
    seq(|vs|, i requires 0 <= i < |vs| => Minus(vs[i], c))
  }

  /** Moving every vertex moves the bounding box by the same amount. */
  lemma {:induction false} ShiftBox(vs: seq<Vec3>, c: Vec3)
    requires |vs| > 0
    ensures BoxMin(Shift(vs, c)) == Minus(BoxMin(vs), c)
    ensures BoxMax(Shift(vs, c)) == Minus(BoxMax(vs), c)
  {
    if |vs| > 1 {
      var init := vs[..|vs| - 1];
      ShiftBox(init, c);
      assert Shift(vs, c)[..|vs| - 1] == Shift(init, c);
    }
  }

  /** The recentring of downloadSTL: translate by minus the bounding-box centre. */
  function Recentred(vs: seq<Vec3>): seq<Vec3> {
    Shift(vs, BoxCenter(vs))
  }

  /** After recentring, the bounding box is centred on the origin: on every axis its
      low face is the negation of its high face.  Recentring an empty list changes
      nothing. */
  lemma RecentredIsCentred(vs: seq<Vec3>)
    ensures |vs| == 0 ==> Recentred(vs) == []
    ensures |vs| > 0 ==>
      var lo := BoxMin(Recentred(vs)); var hi := BoxMax(Recentred(vs));
      lo.x == -hi.x && lo.y == -hi.y && lo.z == -hi.z
  {
    if |vs| > 0 {
      ShiftBox(vs, BoxCenter(vs));
    }
  }

  /** downloadSTL: NotLoaded without a scene, NothingToExport when the export group
      holds no mesh, MergeFailed when the library's merge fails (mergeOk, decided by
      code that is not modelled), else the merged, rotated and recentred vertices. */
  function ExportOf(e: ExportInput, mergeOk: bool): ExportResult {
    if !e.loaded then NotLoaded
    else
      var parts := ExportParts(e);
      if |parts| == 0 then NothingToExport
      else if !mergeOk then MergeFailed
      else Stl(Recentred(FlipAll(Merge(PlacedGeometries(parts, e.scale)))))
  }

  /** The errors come in the order of the checks of downloadSTL, and there is a
      mesh exactly when a plate, a building or a road exists. */
  lemma ExportOutcomes(e: ExportInput, mergeOk: bool)
    ensures ExportOf(e, mergeOk).NotLoaded? <==> !e.loaded
    ensures ExportOf(e, mergeOk).NothingToExport? <==>
      e.loaded && e.plate.None? && e.buildings == [] && e.roads == []
    ensures ExportOf(e, mergeOk).MergeFailed? <==>
      e.loaded && (e.plate.Some? || e.buildings != [] || e.roads != []) && !mergeOk
    ensures ExportOf(e, mergeOk).Stl? <==>
      e.loaded && (e.plate.Some? || e.buildings != [] || e.roads != []) && mergeOk
  {
  }

  /** The walls never reach the file: any walls give the same result. */
  lemma WallsIgnored(e: ExportInput, otherWalls: seq<seq<Vec3>>, mergeOk: bool)
    ensures ExportOf(e.(walls := otherWalls), mergeOk) == ExportOf(e, mergeOk)
  {
    assert ExportParts(e.(walls := otherWalls)) == ExportParts(e);
  }

  /** Every vertex of every exported mesh is in the file, where it was placed, then
      rotated and moved by the same centre as all the others. */
  lemma ExportedVertex(e: ExportInput, mergeOk: bool, j: nat, k: nat)
    requires ExportOf(e, mergeOk).Stl?
    requires j < |ExportParts(e)| && k < |ExportParts(e)[j].vertices|
    ensures var parts := ExportParts(e);
      var gs := PlacedGeometries(parts, e.scale);
      var out := ExportOf(e, mergeOk).vertices;
      && Offset(gs, j) + k < |out|
      && out[Offset(gs, j) + k]
         == Minus(FlipForPrint(Place(parts[j].vertices[k], e.scale, parts[j].sink)), BoxCenter(FlipAll(Merge(gs))))
  {
    var gs := PlacedGeometries(ExportParts(e), e.scale);
    MergeIndex(gs, j, k);
  }

  /** The number of vertices in the file is the total over the exported meshes. */
  lemma {:induction false} MergeSize(gs: seq<seq<Vec3>>, parts: seq<Part>, scale: real)
    requires gs == PlacedGeometries(parts, scale)
    ensures |Merge(gs)| == VertexCount(parts)
  {
    if |parts| > 0 {
      assert gs[..|gs| - 1] == PlacedGeometries(parts[..|parts| - 1], scale);
      MergeSize(gs[..|gs| - 1], parts[..|parts| - 1], scale);
    }
  }

  function VertexCount(parts: seq<Part>): nat {
    if |parts| == 0 then 0 else VertexCount(parts[..|parts| - 1]) + |parts[|parts| - 1].vertices|
  }

  /** Two vertices at the same height, one sunk and one not, are 0.1 apart in z
      once rotated and moved by the same centre. */
  lemma SinkGap(v0: Vec3, vb: Vec3, scale: real, c: Vec3)
    requires v0.y == vb.y
    ensures Minus(FlipForPrint(Place(v0, scale, false)), c).z - Minus(FlipForPrint(Place(vb, scale, true)), c).z == SinkAmount
  {
  }

  /** A building or road vertex at the height of a plate vertex ends up exactly 0.1
      lower than that plate vertex in the print, whatever the preview scale. */
  lemma SinkIntoPlate(e: ExportInput, mergeOk: bool, k: nat, b: nat, m: nat)
    requires ExportOf(e, mergeOk).Stl? && e.plate.Some?
    requires 0 < b < |ExportParts(e)|
    requires k < |ExportParts(e)[0].vertices| && m < |ExportParts(e)[b].vertices|
    requires ExportParts(e)[b].vertices[m].y == ExportParts(e)[0].vertices[k].y
    ensures var gs := PlacedGeometries(ExportParts(e), e.scale);
      var out := ExportOf(e, mergeOk).vertices;
      && Offset(gs, 0) + k < |out| && Offset(gs, b) + m < |out|
      && out[Offset(gs, 0) + k].z - out[Offset(gs, b) + m].z == SinkAmount
  {
    var parts := ExportParts(e);
    ExportPartsSelection(e);
    ExportedVertex(e, mergeOk, 0, k);
    ExportedVertex(e, mergeOk, b, m);
    SinkGap(parts[0].vertices[k], parts[b].vertices[m], e.scale, BoxCenter(FlipAll(Merge(PlacedGeometries(parts, e.scale)))));
  }

  /** downloadSTL as a sequence of steps: the checks, the traversal, the merge, the
      two rotations and the recentring. */
  method DownloadStl(e: ExportInput, mergeOk: bool) returns (r: ExportResult)
    ensures r == ExportOf(e, mergeOk)
  {
    if !e.loaded {
      return NotLoaded;
    }
    var parts := ExportParts(e);
    var geometriesToMerge := CollectGeometries(parts, e.scale);
    if |geometriesToMerge| == 0 {
      return NothingToExport;
    }
    if !mergeOk {
      return MergeFailed;
    }
    var mergedGeometry := Merge(geometriesToMerge);
    mergedGeometry := FlipAll(mergedGeometry);
    var center := BoxCenter(mergedGeometry);
    mergedGeometry := Shift(mergedGeometry, center);
    return Stl(mergedGeometry);
  }
}
