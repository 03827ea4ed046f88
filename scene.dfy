/** The preview scene (script.js): the groups that init3DPreview creates and that
    drawFeatures, processPolygon, processLineString and createWalls fill.  Meshes are
    recorded by what is handed to Three.js (an extrusion, a road box, a box), not
    by their triangles. */
module Scene {
  import opened Geometry
  import opened Projection
  import opened PolygonClip
  import opened RingClean
  import opened PolylineClip
  import opened Buildings
  import opened Roads
  import opened Walls
  import opened Export

  /** A GeoJSON polygon: its outer ring, then its holes. */
  datatype Polygon = Polygon(outer: seq<Position>, holes: seq<seq<Position>>)

  datatype FeatureGeometry =
    | PolygonGeometry(polygon: Polygon)
    | MultiPolygonGeometry(polygons: seq<Polygon>)
    | LineStringGeometry(coords: seq<Position>)
    | OtherGeometry

  /** A GeoJSON feature as drawFeatures reads it: its geometry (null is None),
      whether its building and highway properties are truthy, and its height tags. */
  datatype Feature = Feature(geometry: Option<FeatureGeometry>, building: bool, highway: bool, tags: HeightTags)

  /** What every feature is drawn with: the map centre and its trigonometry, the
      clip bounds and the plate thickness. */
  datatype DrawContext = DrawContext(center: LatLng, trig: Trig, bounds: Window, plateThickness: real)

  /** The hole rings of a polygon in the plane of the shape. */
  function HoleRings(p: Polygon, ctx: DrawContext): (r: seq<seq<Vec2>>)
    ensures |r| == |p.holes|
  {
    seq(|p.holes|, i requires 0 <= i < |p.holes| => ShapeRing(p.holes[i], ctx.center, ctx.trig))
  }

  /** The mesh processPolygon makes for one polygon, if any. */
  function PolygonMesh(p: Polygon, tags: HeightTags, ctx: DrawContext): Option<Extrusion> {
    BuildingMesh(ShapeRing(p.outer, ctx.center, ctx.trig), HoleRings(p, ctx), tags, ctx.bounds, ctx.plateThickness)
  }

  /** The meshes made for a list of polygons, in order. */
  function MeshesOf(ps: seq<Polygon>, tags: HeightTags, ctx: DrawContext): seq<Extrusion> {
    if |ps| == 0 then []
    else
      var m := PolygonMesh(ps[|ps| - 1], tags, ctx);
      MeshesOf(ps[..|ps| - 1], tags, ctx) + (if m.Some? then [m.value] else [])
  }

  /** The polygons drawFeatures hands to processPolygon for a feature: one for a
      building Polygon, each member of a building MultiPolygon, none otherwise. */
  function FeaturePolygons(f: Feature): seq<Polygon> {
    if f.geometry.None? || !f.building then []
    else
      match f.geometry.value
      case PolygonGeometry(p) => [p]
      case MultiPolygonGeometry(ps) => ps
      case _ => []
  }

  /** A feature drawn as a road: a LineString with a truthy highway property that is
      not a building. */
  predicate IsRoad(f: Feature) {
    f.geometry.Some? && !f.building && f.highway && f.geometry.value.LineStringGeometry?
  }

  function FeatureMeshes(fs: seq<Feature>, ctx: DrawContext): seq<Extrusion> {
    if |fs| == 0 then []
    else
      var f := fs[|fs| - 1];
      FeatureMeshes(fs[..|fs| - 1], ctx) + MeshesOfFeature(f, ctx)
  }

  /** The meshes drawn for one feature. */
  function MeshesOfFeature(f: Feature, ctx: DrawContext): seq<Extrusion> {
    MeshesOf(FeaturePolygons(f), f.tags, ctx)
  }

  function FeatureRoadBoxes(fs: seq<Feature>, ctx: DrawContext): seq<RoadBox> {
    if |fs| == 0 then []
    else
      var f := fs[|fs| - 1];
      FeatureRoadBoxes(fs[..|fs| - 1], ctx) + FeatureRoads(f, ctx)
  }

  /** The road boxes drawn for one feature. */
  function FeatureRoads(f: Feature, ctx: DrawContext): seq<RoadBox> {
    if IsRoad(f) then LineStringBoxes(f.geometry.value.coords, ctx.center, ctx.trig, ctx.bounds, ctx.plateThickness) else []
  }

  /** One more feature adds its meshes and boxes, and runs the maximum on over its
      meshes. */
  lemma FeatureStep(fs: seq<Feature>, i: nat, ctx: DrawContext)
    requires i < |fs|
    ensures FeatureMeshes(fs[..i + 1], ctx) == FeatureMeshes(fs[..i], ctx) + MeshesOfFeature(fs[i], ctx)
    ensures FeatureRoadBoxes(fs[..i + 1], ctx) == FeatureRoadBoxes(fs[..i], ctx) + FeatureRoads(fs[i], ctx)
    ensures MaxDepth(FeatureMeshes(fs[..i + 1], ctx)) == RunningMax(MaxDepth(FeatureMeshes(fs[..i], ctx)), MeshesOfFeature(fs[i], ctx))
  {
    assert fs[..i + 1][..i] == fs[..i];
    RunningMaxAppend(0.0, FeatureMeshes(fs[..i], ctx), MeshesOfFeature(fs[i], ctx));
  }

  /** One more polygon adds its mesh, if it makes one, and runs the maximum on over
      that mesh's height. */
  lemma PolygonStep(ps: seq<Polygon>, j: nat, tags: HeightTags, ctx: DrawContext, start: real)
    requires j < |ps|
    ensures var m := PolygonMesh(ps[j], tags, ctx);
      var prev := MeshesOf(ps[..j], tags, ctx);
      && MeshesOf(ps[..j + 1], tags, ctx) == prev + (if m.Some? then [m.value] else [])
      && RunningMax(start, MeshesOf(ps[..j + 1], tags, ctx))
         == (if m.Some? then Max(RunningMax(start, prev), m.value.depth) else RunningMax(start, prev))
  {
    assert ps[..j + 1][..j] == ps[..j];
    var m := PolygonMesh(ps[j], tags, ctx);
    var prev := MeshesOf(ps[..j], tags, ctx);
    if m.Some? {
      assert (prev + [m.value])[..|prev|] == prev;
    } else {
      assert prev + [] == prev;
    }
  }

  /** Concatenation is associative; stated once for all element types, so that the
      loops appending to a group need not compare meshes element by element. */
  lemma AppendAssoc<T>(a: seq<T>, b: seq<T>, c: seq<T>)
    ensures (a + b) + c == a + (b + c)
  {
  }

  /** The empty sequence is a left unit of concatenation; generic for the same
      reason as AppendAssoc. */
  lemma EmptyAppend<T>(a: seq<T>)
    ensures [] + a == a
  {
  }

  /** A running maximum from start: Math.max with each mesh's height in turn. */
  function RunningMax(start: real, ms: seq<Extrusion>): real {
    if |ms| == 0 then start else Max(RunningMax(start, ms[..|ms| - 1]), ms[|ms| - 1].depth)
  }

  /** The maximum height of drawFeatures: the running maximum from 0. */
  function MaxDepth(ms: seq<Extrusion>): real {
    RunningMax(0.0, ms)
  }

  /** Running on over more meshes is running on from where the first ones left off. */
  lemma {:induction false} RunningMaxAppend(start: real, a: seq<Extrusion>, b: seq<Extrusion>)
    ensures RunningMax(start, a + b) == RunningMax(RunningMax(start, a), b)
  {
    if |b| > 0 {
      assert (a + b)[..|a + b| - 1] == a + b[..|b| - 1];
      RunningMaxAppend(start, a, b[..|b| - 1]);
    } else {
      assert a + b == a;
    }
  }

  /** For meshes of non-negative height the running maximum is the greatest height,
      and 0 when there is no mesh. */
  lemma {:induction false} MaxDepthIsMax(ms: seq<Extrusion>)
    requires forall i :: 0 <= i < |ms| ==> ms[i].depth >= 0.0
    ensures forall i :: 0 <= i < |ms| ==> ms[i].depth <= MaxDepth(ms)
    ensures |ms| == 0 ==> MaxDepth(ms) == 0.0
    ensures |ms| > 0 ==> exists i :: 0 <= i < |ms| && MaxDepth(ms) == ms[i].depth
  {
    if |ms| > 0 {
      var init := ms[..|ms| - 1];
      assert forall i :: 0 <= i < |init| ==> init[i] == ms[i];
      var n := |ms| - 1;
      MaxDepthIsMax(init);
      assert MaxDepth(ms) == Max(MaxDepth(init), ms[n].depth);
      if |init| > 0 && MaxDepth(init) >= ms[n].depth {
        var i :| 0 <= i < |init| && MaxDepth(init) == init[i].depth;
        assert MaxDepth(ms) == ms[i].depth;
      } else {
        assert MaxDepth(ms) == ms[n].depth;
      }
    }
  }

  /** A mesh as processPolygon makes it: inside the clip bounds, on the plate, and
      between 12 and 25 high. */
  predicate GoodMesh(m: Extrusion, ctx: DrawContext) {
    && |m.outline| >= 3
    && (forall k :: 0 <= k < |m.outline| ==> InBounds(m.outline[k], ctx.bounds))
    && m.baseY == ctx.plateThickness / 2.0
    && MinBuildingHeight <= m.depth <= MaxBuildingHeight
  }

  lemma {:induction false} MeshesOfGood(ps: seq<Polygon>, tags: HeightTags, ctx: DrawContext)
    ensures forall i :: 0 <= i < |MeshesOf(ps, tags, ctx)| ==> GoodMesh(MeshesOf(ps, tags, ctx)[i], ctx)
    ensures |MeshesOf(ps, tags, ctx)| <= |ps|
  {
    if |ps| > 0 {
      var p := ps[|ps| - 1];
      MeshesOfGood(ps[..|ps| - 1], tags, ctx);
      BuildingMeshShape(ShapeRing(p.outer, ctx.center, ctx.trig), HoleRings(p, ctx), tags, ctx.bounds, ctx.plateThickness);
    }
  }

  /** Every building drawFeatures makes is a good mesh. */
  lemma {:induction false} FeatureMeshesGood(fs: seq<Feature>, ctx: DrawContext)
    ensures forall i :: 0 <= i < |FeatureMeshes(fs, ctx)| ==> GoodMesh(FeatureMeshes(fs, ctx)[i], ctx)
  {
    if |fs| > 0 {
      var f := fs[|fs| - 1];
      FeatureMeshesGood(fs[..|fs| - 1], ctx);
      MeshesOfGood(FeaturePolygons(f), f.tags, ctx);
    }
  }

  /** The value drawFeatures returns: 0 when no mesh was made, else the height of the
      tallest building, which is between 12 and 25. */
  lemma MaxHeightBounds(fs: seq<Feature>, ctx: DrawContext)
    ensures var ms := FeatureMeshes(fs, ctx); var h := MaxDepth(ms);
      && (|ms| == 0 <==> h == 0.0)
      && (|ms| > 0 ==> MinBuildingHeight <= h <= MaxBuildingHeight && exists i :: 0 <= i < |ms| && h == ms[i].depth)
      && (forall i :: 0 <= i < |ms| ==> ms[i].depth <= h)
  {
    var ms := FeatureMeshes(fs, ctx);
    FeatureMeshesGood(fs, ctx);
    MaxDepthIsMax(ms);
  }

  /** Features are dispatched by kind: a feature without geometry draws nothing, a
      building never draws a road, and a feature that is not a building never draws
      a building. */
  lemma Dispatch(f: Feature, ctx: DrawContext)
    ensures f.geometry.None? ==> FeatureMeshes([f], ctx) == [] && FeatureRoadBoxes([f], ctx) == []
    ensures f.building ==> FeatureRoadBoxes([f], ctx) == []
    ensures !f.building ==> FeatureMeshes([f], ctx) == []
    ensures f.building && f.geometry.Some? && f.geometry.value.PolygonGeometry? ==>
      FeatureMeshes([f], ctx) == MeshesOf([f.geometry.value.polygon], f.tags, ctx)
    ensures f.building && f.geometry.Some? && f.geometry.value.MultiPolygonGeometry? ==>
      FeatureMeshes([f], ctx) == MeshesOf(f.geometry.value.polygons, f.tags, ctx)
    ensures f.geometry.Some? && !f.building && f.highway && f.geometry.value.LineStringGeometry? ==>
      FeatureRoadBoxes([f], ctx) == LineStringBoxes(f.geometry.value.coords, ctx.center, ctx.trig, ctx.bounds, ctx.plateThickness)
  {
    assert [f][..0] == [];
  }

  /** The walls that init3DPreview builds rise exactly to the top of the tallest
      building and no building reaches above them. */
  lemma WallsCoverBuildings(fs: seq<Feature>, ctx: DrawContext, width: real, depth: real)
    ensures var ms := FeatureMeshes(fs, ctx);
      var walls := CreateWalls(width, depth, MaxDepth(ms), ctx.plateThickness, WallThickness);
      && (forall i, j :: 0 <= i < |ms| && 0 <= j < 4 ==> ms[i].baseY + ms[i].depth <= TopY(walls[j]))
      && (|ms| > 0 ==> exists i :: 0 <= i < |ms| && ms[i].baseY + ms[i].depth == TopY(walls[0]))
  {
    var ms := FeatureMeshes(fs, ctx);
    MaxHeightBounds(fs, ctx);
    FeatureMeshesGood(fs, ctx);
    WallsSpan(width, depth, MaxDepth(ms), ctx.plateThickness, WallThickness);
  }

  /** The for-loop over the holes in processPolygon: clip and clean each hole and
      keep it when it still has 3 or more points. */
  /** The mesh-building part of processPolygon: project the outer ring, clip and
      clean it, give up below 3 points, else clip the holes and extrude with the
      resolved height at plateThickness / 2. */
  method MakeBuildingMesh(polygon: Polygon, tags: HeightTags, ctx: DrawContext) returns (mesh: Option<Extrusion>)
    ensures mesh == PolygonMesh(polygon, tags, ctx)
  {
    var w := ctx.bounds;
    var outerRing := ShapeRing(polygon.outer, ctx.center, ctx.trig);
    var clippedOuterRing := ClipOuter(outerRing, w);
    if |clippedOuterRing| < 3 {
      return None;
    }
    var holes := ClipHoles(HoleRings(polygon, ctx), w);
    var height := ResolveHeight(tags);
    mesh := Some(Extrusion(clippedOuterRing, holes, height, ctx.plateThickness / 2.0));
  }

  /** The outer ring of processPolygon clipped to the bounds and cleaned. */
  method ClipOuter(outerRing: seq<Vec2>, w: Window) returns (clippedOuterRing: seq<Vec2>)
    ensures clippedOuterRing == ClippedRing(outerRing, w)
  {
    clippedOuterRing := ClipPolygon(outerRing, w.minX, w.maxX, w.minZ, w.maxZ);
    clippedOuterRing := CleanShapePoints(clippedOuterRing, DefaultTolerance);
  }

  method ClipHoles(holeRings: seq<seq<Vec2>>, w: Window) returns (holes: seq<seq<Vec2>>)
    ensures holes == KeptHoles(holeRings, w)
  {
    ghost var rs := ClippedRings(holeRings, w);
    holes := [];
    for i := 0 to |holeRings|
      invariant holes == KeptRings(rs[..i])
    {
      assert rs[..i + 1][..i] == rs[..i];
      var clippedHoleRing := ClipPolygon(holeRings[i], w.minX, w.maxX, w.minZ, w.maxZ);
      clippedHoleRing := CleanShapePoints(clippedHoleRing, DefaultTolerance);
      assert clippedHoleRing == rs[i];
      if |clippedHoleRing| >= 3 {
        holes := holes + [clippedHoleRing];
      }
    }
    assert rs[..|holeRings|] == rs;
  }

  /** selectedBounds: the corners of the map overlay and the map centre. */
  datatype SelectedBounds = SelectedBounds(topLeft: LatLng, bottomRight: LatLng, center: LatLng)

  /** The ground under the selection: the projected corners' extents and the
      centred clip window spanning them. */
  datatype Ground = Ground(width: real, depth: real, window: Window)

  function GroundOf(selected: SelectedBounds, trig: Trig): (g: Ground)
    ensures g.width >= 0.0 && g.depth >= 0.0
    ensures g.window.maxX - g.window.minX == g.width && g.window.maxZ - g.window.minZ == g.depth
    ensures g.window.minX == -g.window.maxX && g.window.minZ == -g.window.maxZ
  {
    var corner1 := LatLonToVector3(selected.topLeft.lat, selected.topLeft.lng, selected.center, trig);
    var corner2 := LatLonToVector3(selected.bottomRight.lat, selected.bottomRight.lng, selected.center, trig);
    Ground(Abs(corner1.x - corner2.x), Abs(corner1.z - corner2.z), ClipWindow(corner1, corner2))
  }

  /** The three.* state that the preview builds. */
  class PreviewScene {
    /** Whether the renderer and the model group exist (three.renderer, three.modelGroup). */
    var loaded: bool
    var basePlate: Option<Box>
    var buildings: seq<Extrusion>
    var roads: seq<RoadBox>
    var walls: seq<Box>
    /** The uniform scale of the model group. */
    var scale: real

    /** A built preview always has its plate. */
    predicate Valid()
      reads this
    {
      loaded ==> basePlate.Some?
    }

    constructor ()
      ensures Valid()
      ensures !loaded && basePlate == None && buildings == [] && roads == [] && walls == [] && scale == 1.0
    {
      loaded := false;
      basePlate := None;
      buildings := [];
      roads := [];
      walls := [];
      scale := 1.0;
    }

    /** processPolygon: clip and clean the outer ring; give up with height 0 when
        fewer than 3 points remain; else clip and clean the holes and add the
        extrusion to the buildings group. */
    method ProcessPolygon(polygon: Polygon, tags: HeightTags, ctx: DrawContext) returns (hasMesh: bool, height: real)
      modifies this
      ensures var m := PolygonMesh(polygon, tags, ctx);
        && hasMesh == m.Some? && height == MeshHeight(m)
        && buildings == old(buildings) + (if m.Some? then [m.value] else [])
      ensures loaded == old(loaded) && basePlate == old(basePlate) && roads == old(roads)
        && walls == old(walls) && scale == old(scale)
    {
      var mesh := MakeBuildingMesh(polygon, tags, ctx);
      if mesh.None? {
        return false, 0.0;
      }
      buildings := buildings + [mesh.value];
      return true, mesh.value.depth;
    }

    /** The body of the inner for-loop of processLineString for one chain: a box for
        every segment at least 0.1 long, added to the roads group. */
    method AddChainBoxes(segmentPoints: seq<Vec3>, plateThickness: real)
      modifies this
      ensures roads == old(roads) + BoxesOfChain(segmentPoints, plateThickness)
      ensures loaded == old(loaded) && basePlate == old(basePlate) && buildings == old(buildings)
        && walls == old(walls) && scale == old(scale)
    {
      if |segmentPoints| < 2 {
        return;
      }
      for i := 0 to |segmentPoints| - 1
        invariant roads == old(roads) + ChainBoxes(segmentPoints, i, plateThickness)
        invariant loaded == old(loaded) && basePlate == old(basePlate) && buildings == old(buildings)
          && walls == old(walls) && scale == old(scale)
      {
        var p1 := segmentPoints[i];
        var p2 := segmentPoints[i + 1];
        if TooShort(p1, p2) {
          continue;
        }
        var position := Lerp3(p1, p2, 0.5).(y := plateThickness / 2.0 + StreetHeight / 2.0);
        roads := roads + [RoadBox(StreetWidth, StreetHeight, SqDist3(p1, p2), position, Vec3(p2.x, position.y, p2.z))];
      }
    }

    /** processLineString: project the coordinates, clip the polyline, and box the
        segments of every chain. */
    method ProcessLineString(coords: seq<Position>, ctx: DrawContext)
      modifies this
      ensures roads == old(roads) + LineStringBoxes(coords, ctx.center, ctx.trig, ctx.bounds, ctx.plateThickness)
      ensures loaded == old(loaded) && basePlate == old(basePlate) && buildings == old(buildings)
        && walls == old(walls) && scale == old(scale)
    {
      var w := ctx.bounds;
      var points := ProjectCoords(coords, ctx.center, ctx.trig);
      if |points| < 2 {
        return;
      }
      var clippedSegments := ClipPolyline(points, w.minX, w.maxX, w.minZ, w.maxZ);
      if |clippedSegments| == 0 {
        return;
      }
      AddChainsBoxes(clippedSegments, ctx.plateThickness);
    }

    /** The outer for-loop of processLineString: the boxes of every chain, in order. */
    method AddChainsBoxes(chains: seq<seq<Vec3>>, plateThickness: real)
      modifies this
      ensures roads == old(roads) + BoxesOfChains(chains, plateThickness)
      ensures loaded == old(loaded) && basePlate == old(basePlate) && buildings == old(buildings)
        && walls == old(walls) && scale == old(scale)
    {
      for s := 0 to |chains|
        invariant roads == old(roads) + BoxesOfChains(chains[..s], plateThickness)
        invariant loaded == old(loaded) && basePlate == old(basePlate) && buildings == old(buildings)
          && walls == old(walls) && scale == old(scale)
      {
        assert chains[..s + 1][..s] == chains[..s];
        AddChainBoxes(chains[s], plateThickness);
      }
      assert chains[..|chains|] == chains;
    }

    /** The body of the forEach of drawFeatures for one feature: its polygons to
        processPolygon, keeping the running maximum of the heights of the meshes
        made, or its line to processLineString. */
    method DrawFeature(feature: Feature, ctx: DrawContext, maxHeight: real) returns (newMaxHeight: real)
      modifies this
      ensures buildings == old(buildings) + MeshesOfFeature(feature, ctx)
      ensures roads == old(roads) + FeatureRoads(feature, ctx)
      ensures newMaxHeight == RunningMax(maxHeight, MeshesOfFeature(feature, ctx))
      ensures loaded == old(loaded) && basePlate == old(basePlate) && walls == old(walls) && scale == old(scale)
    {
      newMaxHeight := maxHeight;
      var polygons := FeaturePolygons(feature);
      for j := 0 to |polygons|
        invariant buildings == old(buildings) + MeshesOf(polygons[..j], feature.tags, ctx)
        invariant newMaxHeight == RunningMax(maxHeight, MeshesOf(polygons[..j], feature.tags, ctx))
        invariant loaded == old(loaded) && basePlate == old(basePlate) && roads == old(roads)
          && walls == old(walls) && scale == old(scale)
      {
        ghost var m := PolygonMesh(polygons[j], feature.tags, ctx);
        PolygonStep(polygons, j, feature.tags, ctx, maxHeight);
        AppendAssoc(old(buildings), MeshesOf(polygons[..j], feature.tags, ctx), if m.Some? then [m.value] else []);
        var hasMesh, height := ProcessPolygon(polygons[j], feature.tags, ctx);
        if hasMesh {
          newMaxHeight := Max(newMaxHeight, height);
        }
      }
      assert polygons[..|polygons|] == polygons;
      if IsRoad(feature) {
        ProcessLineString(feature.geometry.value.coords, ctx);
      }
    }

    /** drawFeatures: dispatch every feature and return the maximum height of the
        meshes made. */
    method DrawFeatures(features: seq<Feature>, ctx: DrawContext) returns (maxHeight: real)
      modifies this
      ensures buildings == old(buildings) + FeatureMeshes(features, ctx)
      ensures roads == old(roads) + FeatureRoadBoxes(features, ctx)
      ensures maxHeight == MaxDepth(FeatureMeshes(features, ctx))
      ensures loaded == old(loaded) && basePlate == old(basePlate) && walls == old(walls) && scale == old(scale)
    {
      maxHeight := 0.0;
      for i := 0 to |features|
        invariant buildings == old(buildings) + FeatureMeshes(features[..i], ctx)
        invariant roads == old(roads) + FeatureRoadBoxes(features[..i], ctx)
        invariant maxHeight == MaxDepth(FeatureMeshes(features[..i], ctx))
        invariant loaded == old(loaded) && basePlate == old(basePlate) && walls == old(walls) && scale == old(scale)
      {
        FeatureStep(features, i, ctx);
        AppendAssoc(old(buildings), FeatureMeshes(features[..i], ctx), MeshesOfFeature(features[i], ctx));
        AppendAssoc(old(roads), FeatureRoadBoxes(features[..i], ctx), FeatureRoads(features[i], ctx));
        maxHeight := DrawFeature(features[i], ctx, maxHeight);
      }
      assert features[..|features|] == features;
    }

    /** createWalls: add the four walls to the walls group. */
    method CreateWalls(width: real, depth: real, contentHeight: real, plateThickness: real, wallThickness: real)
      modifies this
      ensures walls == old(walls) + Walls.CreateWalls(width, depth, contentHeight, plateThickness, wallThickness)
      ensures loaded == old(loaded) && basePlate == old(basePlate) && buildings == old(buildings)
        && roads == old(roads) && scale == old(scale)
    {
      var all := Walls.CreateWalls(width, depth, contentHeight, plateThickness, wallThickness);
      for k := 0 to 4
        invariant walls == old(walls) + all[..k]
        invariant loaded == old(loaded) && basePlate == old(basePlate) && buildings == old(buildings)
          && roads == old(roads) && scale == old(scale)
      {
        walls := walls + [all[k]];
      }
      assert all[..4] == all;
    }

    /** init3DPreview: nothing when there is no data or the preview exists already;
        otherwise fresh groups, the clip window from the projected corners, the plate,
        the features, the walls up to the tallest building, and the scale factor
        from the model's bounding box (initialSizeX, initialSizeZ, measured by the
        library). */
    method Init3DPreview(geoJsonData: Option<seq<Feature>>, selected: SelectedBounds, trig: Trig,
                         initialSizeX: real, initialSizeZ: real)
      requires Valid()
      modifies this
      ensures Valid()
      ensures old(loaded) || geoJsonData.None? ==>
        loaded == old(loaded) && basePlate == old(basePlate) && buildings == old(buildings)
        && roads == old(roads) && walls == old(walls) && scale == old(scale)
      ensures !old(loaded) && geoJsonData.Some? ==>
        BuiltFrom(geoJsonData.value, selected, trig, initialSizeX, initialSizeZ)
    {
      if geoJsonData.None? || loaded {
        return;
      }
      Build(geoJsonData.value, selected, trig, initialSizeX, initialSizeZ);
    }

    /** The state init3DPreview leaves behind when it builds from `features`: loaded, a
        plate spanning the selection, the features' meshes and boxes, walls up to the
        tallest building, and the scale for the initial view. */
    predicate BuiltFrom(features: seq<Feature>, selected: SelectedBounds, trig: Trig,
                        initialSizeX: real, initialSizeZ: real)
      reads this
    {
      var g := GroundOf(selected, trig);
      var ctx := DrawContext(selected.center, trig, g.window, PlateThickness);
      && loaded
      && basePlate == Some(BasePlate(g.width, g.depth, PlateThickness))
      && buildings == FeatureMeshes(features, ctx)
      && roads == FeatureRoadBoxes(features, ctx)
      && walls == Walls.CreateWalls(g.width, g.depth, MaxDepth(FeatureMeshes(features, ctx)), PlateThickness, WallThickness)
      && scale == ScaleFactor(initialSizeX, initialSizeZ)
    }

    /** The building half of init3DPreview, on a scene not yet
        loaded. */
    method Build(features: seq<Feature>, selected: SelectedBounds, trig: Trig,
                 initialSizeX: real, initialSizeZ: real)
      modifies this
      ensures BuiltFrom(features, selected, trig, initialSizeX, initialSizeZ)
    {
      loaded := true;
      buildings := [];
      roads := [];
      walls := [];
      var ground := GroundOf(selected, trig);
      var plateThickness := PlateThickness;
      basePlate := Some(BasePlate(ground.width, ground.depth, plateThickness));
      var ctx := DrawContext(selected.center, trig, ground.window, plateThickness);
      var maxHeight := DrawFeatures(features, ctx);
      EmptyAppend(FeatureMeshes(features, ctx));
      EmptyAppend(FeatureRoadBoxes(features, ctx));
      CreateWalls(ground.width, ground.depth, maxHeight, plateThickness, WallThickness);
      EmptyAppend(Walls.CreateWalls(ground.width, ground.depth, maxHeight, plateThickness, WallThickness));
      scale := ScaleFactor(initialSizeX, initialSizeZ);
    }

    /** What downloadSTL sees of this scene: the library's triangulation of each kind
        of mesh (with the mesh's own transform) is a parameter. */
    function ExportInputOf(plateMesh: Box -> seq<Vec3>, buildingMesh: Extrusion -> seq<Vec3>,
                           roadMesh: RoadBox -> seq<Vec3>, wallMesh: Box -> seq<Vec3>): (e: ExportInput)
      reads this
      ensures e.loaded == loaded && e.scale == scale && (e.plate.Some? <==> basePlate.Some?)
      ensures |e.buildings| == |buildings| && |e.roads| == |roads| && |e.walls| == |walls|
    {
      ExportInput(loaded, scale,
        if basePlate.Some? then Some(plateMesh(basePlate.value)) else None,
        seq(|buildings|, i requires 0 <= i < |buildings| reads this => buildingMesh(buildings[i])),
        seq(|roads|, i requires 0 <= i < |roads| reads this => roadMesh(roads[i])),
        seq(|walls|, i requires 0 <= i < |walls| reads this => wallMesh(walls[i])))
    }

    /** downloadSTL on this scene, with the export group scaled by the preview's own
        scale. */
    method DownloadStl(plateMesh: Box -> seq<Vec3>, buildingMesh: Extrusion -> seq<Vec3>,
                       roadMesh: RoadBox -> seq<Vec3>, wallMesh: Box -> seq<Vec3>, mergeOk: bool)
      returns (r: ExportResult)
      ensures r == ExportOf(ExportInputOf(plateMesh, buildingMesh, roadMesh, wallMesh), mergeOk)
    {
      r := Export.DownloadStl(ExportInputOf(plateMesh, buildingMesh, roadMesh, wallMesh), mergeOk);
    }
  }

  /** Once init3DPreview has built the scene, the plate is always there, so the
      export fails only when the merge does. */
  lemma LoadedSceneExports(scene: PreviewScene, plateMesh: Box -> seq<Vec3>, buildingMesh: Extrusion -> seq<Vec3>,
                           roadMesh: RoadBox -> seq<Vec3>, wallMesh: Box -> seq<Vec3>, mergeOk: bool)
    requires scene.Valid() && scene.loaded
    ensures ExportOf(scene.ExportInputOf(plateMesh, buildingMesh, roadMesh, wallMesh), mergeOk).Stl? <==> mergeOk
  {
    ExportOutcomes(scene.ExportInputOf(plateMesh, buildingMesh, roadMesh, wallMesh), mergeOk);
  }
}
