/** The building rules of processPolygon (script.js): the footprint rings in the
    plane of the shape, their clipping and cleaning, the height rule, and where the
    extruded solid stands.  The triangulation done by ExtrudeGeometry is not part of
    this model: a building is the record of what is handed to it. */
module Buildings {
  import opened Geometry
  import opened Projection
  import opened PolygonClip
  import opened RingClean

  // ---------------------------------------------------------------------------
  // The height rule

  /** A JavaScript number as the height rule can meet one: a finite value or NaN. */
  datatype JsNumber = Num(value: real) | NaN

  /** The two tags the height rule reads.  levels is None when building:levels is
      absent or the empty string (both falsy), and otherwise the number the tag
      converts to in the multiplication (NaN for text such as "2;3"); height is
      parseFloat of the height tag (NaN when it is absent or does not parse). */
  datatype HeightTags = HeightTags(levels: Option<JsNumber>, height: JsNumber)

  const MinBuildingHeight: real := 12.0
  const MaxBuildingHeight: real := 25.0
  const LevelHeight: real := 3.5
  const DefaultHeight: real := 15.0

  /** a * b with a possibly NaN. */
  function JsMul(a: JsNumber, b: real): JsNumber {
    match a
    case NaN => NaN
    case Num(x) => Num(x * b)
  }

  /** a || b: b when a is falsy (0 or NaN). */
  function JsOr(a: JsNumber, b: JsNumber): JsNumber {
    if a == Num(0.0) || a == NaN then b else a
  }

  /** Math.min and Math.max: NaN as soon as one argument is NaN. */
  function JsMin(a: JsNumber, b: JsNumber): JsNumber {
    if a == NaN || b == NaN then NaN else Num(Min(a.value, b.value))
  }

  function JsMax(a: JsNumber, b: JsNumber): JsNumber {
    if a == NaN || b == NaN then NaN else Num(Max(a.value, b.value))
  }

  /** The height expression of processPolygon as written: levels * 3.5 when the
      levels tag is truthy, else parseFloat(height) || 15, then clamped to [12, 25]
      with Math.max and Math.min. */
  function ResolveHeightAsWritten(t: HeightTags): (r: JsNumber)
    ensures r == NaN || MinBuildingHeight <= r.value <= MaxBuildingHeight
  {
    var h := match t.levels
      case Some(l) => JsMul(l, LevelHeight)
      case None => JsOr(t.height, Num(DefaultHeight));
    JsMax(Num(MinBuildingHeight), JsMin(h, Num(MaxBuildingHeight)))
  }

  /** A levels tag that is present but not a number ("2;3", "two") makes the height
      NaN: the clamp does not catch it, and the NaN goes on into the extrusion depth,
      into the maximum height of drawFeatures and so into the walls. */
  lemma NonNumericLevelsGiveNaN(height: JsNumber)
    ensures ResolveHeightAsWritten(HeightTags(Some(NaN), height)) == NaN
  {
  }

  /** Math.max(12, Math.min(h, 25)) on a number. */
  function Clamp(h: real): (r: real)
    ensures MinBuildingHeight <= r <= MaxBuildingHeight
    ensures MinBuildingHeight <= h <= MaxBuildingHeight ==> r == h
    ensures h < MinBuildingHeight ==> r == MinBuildingHeight
    ensures h > MaxBuildingHeight ==> r == MaxBuildingHeight
  {
    Max(MinBuildingHeight, Min(h, MaxBuildingHeight))
  }

  /** The height before the clamp, with a levels tag that is not a number treated as
      absent, so that the height tag and then the default of 15 apply. */
  function RawHeight(t: HeightTags): real {
    match t.levels
    case Some(Num(l)) => l * LevelHeight
    case _ =>
      match t.height
      case Num(h) => if h == 0.0 then DefaultHeight else h
      case NaN => DefaultHeight
  }

  /** The height of a building: always within [12, 25]. */
  function ResolveHeight(t: HeightTags): (r: real)
    ensures MinBuildingHeight <= r <= MaxBuildingHeight
  {
    Clamp(RawHeight(t))
  }

  /** Wherever the expression as written yields a number it yields ResolveHeight. */
  lemma ResolveHeightAgrees(t: HeightTags)
    requires t.levels != Some(NaN)
    ensures ResolveHeightAsWritten(t) == Num(ResolveHeight(t))
  {
  }

  /** With no usable levels tag and a missing, unparseable or zero height tag the
      height is 15. */
  lemma ResolveHeightDefault(t: HeightTags)
    requires t.levels == None || t.levels == Some(NaN)
    requires t.height == NaN || t.height == Num(0.0)
    ensures ResolveHeight(t) == DefaultHeight
  {
  }

  /** A numeric levels tag wins over the height tag: levels * 3.5, clamped. */
  lemma ResolveHeightFromLevels(l: real, height: JsNumber)
    ensures ResolveHeight(HeightTags(Some(Num(l)), height)) == Clamp(l * LevelHeight)
    ensures MinBuildingHeight <= l * LevelHeight <= MaxBuildingHeight ==>
      ResolveHeight(HeightTags(Some(Num(l)), height)) == l * LevelHeight
  {
  }

  /** Without a levels tag a non-zero height tag is used, clamped. */
  lemma ResolveHeightFromTag(h: real)
    requires h != 0.0
    ensures ResolveHeight(HeightTags(None, Num(h))) == Clamp(h)
  {
  }

  // ---------------------------------------------------------------------------
  // Rings

  /** new THREE.Vector2(vec.x, -vec.z): a scene point in the plane of the shape. */
  function ShapePoint(v: Vec3): Vec2 {
    Vec2(v.x, -v.z)
  }

  /** A GeoJSON ring projected into the plane of the shape. */
  function ShapeRing(ring: seq<Position>, center: LatLng, t: Trig): (r: seq<Vec2>)
    ensures |r| == |ring|
    ensures forall i :: 0 <= i < |ring| ==>
      r[i].x == ProjectPosition(ring[i], center, t).x && r[i].y == -ProjectPosition(ring[i], center, t).z
  {
    seq(|ring|, i requires 0 <= i < |ring| => ShapePoint(ProjectPosition(ring[i], center, t)))
  }

  /** A ring after clipPolygon against the clip bounds (minZ and maxZ as the y
      bounds) and cleanShapePoints with the default tolerance. */
  function ClippedRing(ring: seq<Vec2>, w: Window): seq<Vec2> {
    CleanedRing(ClippedPolygon(ring, w.minX, w.maxX, w.minZ, w.maxZ), DefaultTolerance)
  }

  /** A point of the shape plane inside the clip bounds. */
  predicate InBounds(p: Vec2, w: Window) {
    PolygonClip.InWindow(p, w.minX, w.maxX, w.minZ, w.maxZ)
  }

  /** Every point of a clipped and cleaned ring lies inside the clip bounds. */
  lemma ClippedRingInBounds(ring: seq<Vec2>, w: Window)
    ensures forall k :: 0 <= k < |ClippedRing(ring, w)| ==> InBounds(ClippedRing(ring, w)[k], w)
  {
    var clipped := ClippedPolygon(ring, w.minX, w.maxX, w.minZ, w.maxZ);
    ClippedPolygonInWindow(ring, w.minX, w.maxX, w.minZ, w.maxZ);
    if |clipped| >= 2 {
      var idx := CleanedRingSelects(clipped, DefaultTolerance);
      forall k | 0 <= k < |ClippedRing(ring, w)| ensures InBounds(ClippedRing(ring, w)[k], w) {
        assert ClippedRing(ring, w)[k] == clipped[idx[k]];
      }
    }
  }

  /** A ring with every vertex inside the clip bounds is only cleaned. */
  lemma ClippedRingInside(ring: seq<Vec2>, w: Window)
    requires forall p :: p in ring ==> InBounds(p, w)
    ensures ClippedRing(ring, w) == CleanedRing(ring, DefaultTolerance)
  {
    ClippedPolygonIdentity(ring, w.minX, w.maxX, w.minZ, w.maxZ);
  }

  /** Each hole clipped and cleaned, in order. */
  function ClippedRings(holes: seq<seq<Vec2>>, w: Window): (rs: seq<seq<Vec2>>)
    ensures |rs| == |holes|
  {
    seq(|holes|, i requires 0 <= i < |holes| => ClippedRing(holes[i], w))
  }

  /** The rings that still have 3 or more points, in order. */
  function KeptRings(rs: seq<seq<Vec2>>): seq<seq<Vec2>> {
    if |rs| == 0 then []
    else KeptRings(rs[..|rs| - 1]) + (if |rs[|rs| - 1]| >= 3 then [rs[|rs| - 1]] else [])
  }

  /** The holes of processPolygon that survive: each hole clipped and cleaned, kept
      when it still has 3 or more points, in their original order. */
  function KeptHoles(holes: seq<seq<Vec2>>, w: Window): seq<seq<Vec2>> {
    KeptRings(ClippedRings(holes, w))
  }

  /** The kept rings are some of the rings, at most as many, each of 3 or more points. */
  lemma {:induction false} KeptRingsShape(rs: seq<seq<Vec2>>)
    ensures |KeptRings(rs)| <= |rs|
    ensures forall i :: 0 <= i < |KeptRings(rs)| ==> |KeptRings(rs)[i]| >= 3 && KeptRings(rs)[i] in rs
  {
    if |rs| > 0 {
      var init := rs[..|rs| - 1];
      KeptRingsShape(init);
      forall r | r in init ensures r in rs {
        var j :| 0 <= j < |init| && init[j] == r;
        assert rs[j] == r;
      }
    }
  }

  /** When every ring has 3 or more points, all are kept. */
  lemma {:induction false} KeptRingsAll(rs: seq<seq<Vec2>>)
    requires forall i :: 0 <= i < |rs| ==> |rs[i]| >= 3
    ensures KeptRings(rs) == rs
  {
    if |rs| > 0 {
      var init := rs[..|rs| - 1];
      forall i | 0 <= i < |init| ensures |init[i]| >= 3 {
        assert init[i] == rs[i];
      }
      KeptRingsAll(init);
      assert init + [rs[|rs| - 1]] == rs;
    }
  }

  /** idx lists, in increasing order, exactly the rings of rs with 3 or more points,
      and kept is those rings in that order. */
  predicate RingSelection(rs: seq<seq<Vec2>>, kept: seq<seq<Vec2>>, idx: seq<nat>) {
    && |idx| == |kept|
    && (forall i :: 0 <= i < |idx| ==> idx[i] < |rs| && kept[i] == rs[idx[i]])
    && (forall i, j :: 0 <= i < j < |idx| ==> idx[i] < idx[j])
    && (forall j :: 0 <= j < |rs| ==> (j in idx <==> |rs[j]| >= 3))
  }

  /** Each ring is kept exactly when it has 3 or more points, whatever the other
      rings are, and the kept rings stay in their order. */
  lemma {:induction false} KeptRingsSelect(rs: seq<seq<Vec2>>) returns (idx: seq<nat>)
    ensures RingSelection(rs, KeptRings(rs), idx)
  {
    if |rs| == 0 {
      idx := [];
    } else {
      var init := rs[..|rs| - 1];
      var prev := KeptRingsSelect(init);
      var n := |rs| - 1;
      var kept := KeptRings(rs);
      assert forall j :: 0 <= j < n ==> init[j] == rs[j];
      if |rs[n]| >= 3 {
        idx := prev + [n];
        assert kept == KeptRings(init) + [rs[n]];
        forall i | 0 <= i < |idx| ensures idx[i] < |rs| && kept[i] == rs[idx[i]] {
          if i < |prev| {
            assert idx[i] == prev[i] && kept[i] == KeptRings(init)[i];
          }
        }
        forall j | 0 <= j < |rs| ensures j in idx <==> |rs[j]| >= 3 {
          if j < n {
            assert j in prev <==> |init[j]| >= 3;
            assert j in idx <==> j in prev;
          } else {
            assert idx[|prev|] == j;
          }
        }
      } else {
        idx := prev;
        assert kept == KeptRings(init);
        forall j | 0 <= j < |rs| ensures j in idx <==> |rs[j]| >= 3 {
          if j < n {
            assert j in prev <==> |init[j]| >= 3;
          }
        }
      }
    }
  }

  /** Each hole is kept exactly when it still has 3 or more points after clipping and
      cleaning, whatever happens to the other holes, and the kept holes stay in their
      order. */
  lemma KeptHolesSelect(holes: seq<seq<Vec2>>, w: Window) returns (idx: seq<nat>)
    ensures |idx| == |KeptHoles(holes, w)|
    ensures forall i :: 0 <= i < |idx| ==> idx[i] < |holes| && KeptHoles(holes, w)[i] == ClippedRing(holes[idx[i]], w)
    ensures forall i, j :: 0 <= i < j < |idx| ==> idx[i] < idx[j]
    ensures forall j :: 0 <= j < |holes| ==> (j in idx <==> |ClippedRing(holes[j], w)| >= 3)
  {
    var rs := ClippedRings(holes, w);
    idx := KeptRingsSelect(rs);
    assert forall j :: 0 <= j < |holes| ==> rs[j] == ClippedRing(holes[j], w);
  }

  /** The kept holes are at most as many as the holes, and each has 3 or more
      points, all inside the clip bounds. */
  lemma KeptHolesShape(holes: seq<seq<Vec2>>, w: Window)
    ensures |KeptHoles(holes, w)| <= |holes|
    ensures forall i :: 0 <= i < |KeptHoles(holes, w)| ==> |KeptHoles(holes, w)[i]| >= 3
    ensures forall i, k :: 0 <= i < |KeptHoles(holes, w)| && 0 <= k < |KeptHoles(holes, w)[i]| ==>
      InBounds(KeptHoles(holes, w)[i][k], w)
  {
    var rs := ClippedRings(holes, w);
    KeptRingsShape(rs);
    forall i, k | 0 <= i < |KeptRings(rs)| && 0 <= k < |KeptRings(rs)[i]|
      ensures InBounds(KeptRings(rs)[i][k], w)
    {
      var j :| 0 <= j < |rs| && rs[j] == KeptRings(rs)[i];
      ClippedRingInBounds(holes[j], w);
    }
  }

  /** No hole is dropped that still has 3 points: when every hole keeps 3 or more,
      the kept holes are all of them, clipped and cleaned, in order. */
  lemma KeptHolesAll(holes: seq<seq<Vec2>>, w: Window)
    requires forall i :: 0 <= i < |holes| ==> |ClippedRing(holes[i], w)| >= 3
    ensures |KeptHoles(holes, w)| == |holes|
    ensures forall i :: 0 <= i < |holes| ==> KeptHoles(holes, w)[i] == ClippedRing(holes[i], w)
  {
    KeptRingsAll(ClippedRings(holes, w));
  }

  // ---------------------------------------------------------------------------
  // The solid

  /** What processPolygon extrudes: the outline and holes of the shape, the
      extrusion depth (the height) and the y of the mesh, which is rotated by -pi/2
      about x. */
  datatype Extrusion = Extrusion(outline: seq<Vec2>, holes: seq<seq<Vec2>>, depth: real, baseY: real)

  /** The scene point of the shape point p raised by d along the extrusion: the
      rotation by -pi/2 about x (cosine 0, sine -1), then the mesh position. */
  function ExtrusionPoint(e: Extrusion, p: Vec2, d: real): Vec3 {
    var r := RotateX(Vec3(p.x, p.y, d), 0.0, -1.0);
    Vec3(r.x, r.y + e.baseY, r.z)
  }

  /** The rotation stands the extrusion upright: depth becomes height above the base,
      and a shape point taken from a scene point comes back to that point's x and z.
      So the building rises from its map footprint, from baseY to baseY + depth. */
  lemma ExtrusionUpright(e: Extrusion, v: Vec3, d: real)
    ensures ExtrusionPoint(e, ShapePoint(v), d) == Vec3(v.x, e.baseY + d, v.z)
  {
  }

  /** processPolygon without the Three.js calls: no mesh when the clipped and cleaned
      outer ring has fewer than 3 points, else the extrusion of that ring with its
      kept holes, of the resolved height, standing at plateThickness / 2. */
  function BuildingMesh(outer: seq<Vec2>, holes: seq<seq<Vec2>>, tags: HeightTags, w: Window, plateThickness: real)
    : Option<Extrusion>
  {
    var outline := ClippedRing(outer, w);
    if |outline| < 3 then None
    else Some(Extrusion(outline, KeptHoles(holes, w), ResolveHeight(tags), plateThickness / 2.0))
  }

  /** The height processPolygon returns with its mesh: 0 when there is none. */
  function MeshHeight(m: Option<Extrusion>): real {
    match m
    case None => 0.0
    case Some(e) => e.depth
  }

  /** There is a mesh exactly when the clipped, cleaned outline has 3 or more points;
      it lies inside the clip bounds, stands on the top face of the plate, and its
      height is in [12, 25]; without a mesh the height is 0. */
  lemma BuildingMeshShape(outer: seq<Vec2>, holes: seq<seq<Vec2>>, tags: HeightTags, w: Window, plateThickness: real)
    ensures var m := BuildingMesh(outer, holes, tags, w, plateThickness);
      && (m.Some? <==> |ClippedRing(outer, w)| >= 3)
      && (m.None? ==> MeshHeight(m) == 0.0)
      && (m.Some? ==>
        && |m.value.outline| >= 3
        && (forall k :: 0 <= k < |m.value.outline| ==> InBounds(m.value.outline[k], w))
        && m.value.holes == KeptHoles(holes, w)
        && m.value.baseY == plateThickness / 2.0
        && MeshHeight(m) == ResolveHeight(tags)
        && MinBuildingHeight <= MeshHeight(m) <= MaxBuildingHeight)
  {
    ClippedRingInBounds(outer, w);
  }

  /** Holes that clip away do not take the building with them: the mesh depends on
      the outer ring alone for its existence. */
  lemma HolesDoNotDropBuilding(outer: seq<Vec2>, holes: seq<seq<Vec2>>, tags: HeightTags, w: Window, plateThickness: real)
    ensures BuildingMesh(outer, holes, tags, w, plateThickness).Some? <==> BuildingMesh(outer, [], tags, w, plateThickness).Some?
  {
  }
}
