# Geometry core of a map-to-STL web tool, in Dafny

The tool turns a rectangle chosen on a map into a small 3D model for printing. The
model has a base plate, the buildings as extrusions, the roads as boxes, and four
walls around it. This project models the geometry of `script.js` that does this
and proves its properties. Coordinates are `real` throughout.

The computation runs in this order:

1. **Projection.** `latLonToVector3` projects latitude and longitude onto a local
   plane. The factor π/180 and the cosine of the centre latitude are parameters
   (`Projection`).
2. **Clipping and cleaning.** Building rings are clipped to the plate with
   Sutherland–Hodgman (`clipPolygon`, module `PolygonClip`). Points nearer than a
   tolerance are then dropped (`cleanShapePoints`, module `RingClean`). Roads are
   cut with Cohen–Sutherland into chains that lie inside the plate (`clipPolyline`,
   module `PolylineClip`).
3. **Meshes.** `processPolygon` resolves the height and builds the extrusion
   (`Buildings`). `processLineString` builds one box per segment (`Roads`).
   `createWalls` builds the four walls, and `init3DPreview` builds the clip window,
   the plate and the scale factor (`Walls`).
4. **The preview.** The preview is a class, `Scene.PreviewScene`, whose fields are
   the groups that `init3DPreview`, `drawFeatures`, `processPolygon`,
   `processLineString` and `createWalls` fill. Each method is proved against a
   function of its inputs (`FeatureMeshes`, `LineStringBoxes`, …). Lemmas prove what
   the source promises about those functions.
5. **The export.** `downloadSTL` selects the parts, sinks some of them, merges
   them, rotates them and re-centres them (`Export`).

Library geometry enters as parameters: the triangulation of a mesh, the bounding
box of the preview group, and whether the merge succeeds.

## Model

| member | source | states |
|---|---|---|
| Projection.LatLonToVector3 | script.js:477-485 | the projected point lies on the ground plane y = 0 |
| Projection.ProjectPosition | script.js:602 | computes `latLonToVector3(p[1], p[0], center)` for a GeoJSON position as a value (no contract of its own; see `CenterAtOrigin`, `Offsets`, `Orientation`, `Buildings.ShapeRing`) |
| Projection.CenterAtOrigin | script.js:477-485 | the map centre projects to the origin |
| Projection.Offsets | script.js:477-485 | the offset between two projected points depends only on the differences in latitude and longitude |
| Projection.Orientation | script.js:477-485 | with positive parameters, north means smaller z and east means larger x |
| Projection.NorthSmallerZ | script.js:477-485 | with a positive degree factor, a point of greater latitude has a smaller z, whatever the longitudes |
| Projection.EastLargerX | script.js:477-485 | with a positive degree factor and positive cosine of the centre latitude, a point of greater longitude has a larger x, whatever the latitudes |
| PolygonClip.ClipEdges | script.js:707-712 | four edges, each with direction ±1 |
| PolygonClip.Inside | script.js:720-721 | computes a pass's inside test `p[axis] * dir <= val * dir` as a value (no contract of its own; see `InsideMeans`, `InWindowIffInsideAll`) |
| PolygonClip.CrossPoint | script.js:732-737 | computes getIntersection's point as a value: the parameter t of the clip line along S–E for the pass's axis, applied to both coordinates (no contract of its own; see `CrossPointOnLine`, `Intersection`) |
| PolygonClip.AxisRatio | script.js:735 | computes getIntersection's `t` as a value: the ratio along S–E that reaches the clip value, on x for an x edge and on y otherwise (no contract of its own; see `CrossPointOnX`, `CrossPointOnY`) |
| PolygonClip.Emit | script.js:720-727 | computes what one step of a pass pushes as a value: the intersection when S and E are on different sides, then E when E is inside (no contract of its own; see `EmitKeepsSide`, `ClipPassLoop`) |
| PolygonClip.ClipPass | script.js:717-729 | computes one half-plane pass over a ring as a value, S starting at the last vertex and trailing E (no contract of its own; see `ClipPassLoop`, `ClippedPolygonInWindow`) |
| PolygonClip.ClipRing | script.js:713-730 | computes the passes in turn as a value, an empty intermediate list ending the clipping (no contract of its own; see `ClipRingBeyond`, `ClipRingEmpty`, `ClippedPolygonIdentity`) |
| PolygonClip.ClippedPolygon | script.js:705-738 | computes clipPolygon as a value: the four passes in turn, stopping at an empty list (no contract of its own; see the `ClippedPolygon…` lemmas and `ClipPolygon`) |
| PolygonClip.InsideMeans | script.js:719-720 | the `S[axis]*dir <= val*dir` test is ≤ for dir 1 and ≥ for dir −1, so boundary points count as inside |
| PolygonClip.InWindowIffInsideAll | script.js:707-720 | a point is inside all four edges exactly when it lies in the closed window |
| PolygonClip.Intersection | script.js:722-737 | called only when S and E lie on opposite sides, so the divisor is nonzero; the point lies on the clip line and between S and E |
| PolygonClip.CrossPointOnLine | script.js:732-737 | when the clip value lies between the axis coordinates of S and E, the computed point is on the clip line and within the ranges of S and E on both axes |
| PolygonClip.CrossPointOnX | script.js:732-737 | for a clip line x = val between S.x and E.x, the point has x = val and lies within the ranges of S and E |
| PolygonClip.CrossPointOnY | script.js:732-737 | for a clip line y = val between S.y and E.y, the point has y = val and lies within the ranges of S and E |
| PolygonClip.ClippedPolygonInWindow | script.js:705-738 | every output point lies in [minX,maxX]×[minY,maxY] |
| PolygonClip.ClippedPolygonIdentity | script.js:705-738 | a ring whose vertices are all inside comes back unchanged, in the same order |
| PolygonClip.ClippedPolygonBeyond | script.js:713-729 | a ring wholly beyond any one of the four clip edges gives [] |
| PolygonClip.ClipRingBeyond | script.js:713-729 | a ring wholly beyond any one of the edges gives [], since the later passes stop at the empty list |
| PolygonClip.ClipRingEmpty | script.js:716 | an empty ring stays empty (`break` on an empty input list) |
| PolygonClip.ClipPassLoop | script.js:713-730 | the inner loop of one pass, S trailing one vertex behind E, computes `ClipPass` |
| PolygonClip.PassStep | script.js:720-727 | the pushes of one step append exactly `Emit(S, E, edge)` to the output list |
| PolygonClip.ClipPolygon | script.js:705-738 | the four passes with their loops compute `ClippedPolygon`; the result is in the window, and equals the input when every vertex is inside |
| RingClean.DistanceComparisons | script.js:580-586 | comparing squared distances with tolerance² decides `distanceTo > tol` and `distanceTo < tol` exactly |
| RingClean.Scan | script.js:578-582 | the kept points start with the first point, and each is more than tol from the one kept before it |
| RingClean.ScanSelects | script.js:578-582 | the kept points are the input at increasing indices from 0, and every skipped point is within tol of the last kept one |
| RingClean.CleanedRingShort | script.js:577 | fewer than 2 points are returned unchanged |
| RingClean.CleanedRing | script.js:576-591 | computes cleanShapePoints as a value: the scan, then the closing point dropped when near the first (no contract of its own; see `CleanedRingShape`, `CleanedRingSelects`) |
| RingClean.CleanedRingShape | script.js:576-591 | starts with the first point, a prefix of the scan, spacing kept; the last point is dropped exactly when it is closer than tol to the first |
| RingClean.CleanedRingSelects | script.js:576-591 | the output is an order-preserving selection of the input that starts with its first point |
| RingClean.CleanShapePoints | script.js:576-591 | the push/pop loop computes `CleanedRing` |
| PolylineClip.ComputeOutCode | script.js:746-753 | the meaning of each bit, including the else-if (RIGHT only when not LEFT, TOP only when not BOTTOM); code 0 ⟺ inside the closed window |
| PolylineClip.OutcodeOut | script.js:770 | computes `outcode1 \|\| outcode2` as a value (no contract of its own; see `HandledBoundary`, `ClipStepWithin`) |
| PolylineClip.HandledBoundary | script.js:768-794 | the point moved has the handled bit, the other point does not, and the divisor is nonzero |
| PolylineClip.Crossing | script.js:768-783 | the crossing chosen by the highest flag of `outcodeOut` lies on the ground line through p1 and p2 |
| PolylineClip.CrossAtZ | script.js:770-775 | the point where the line meets z = v has z = v and lies on the ground line through p1 and p2 |
| PolylineClip.CrossAtX | script.js:776-781 | the point where the line meets x = v has x = v and lies on the ground line through p1 and p2 |
| PolylineClip.ClipStep | script.js:784-792 | computes one pass of the else-branch as a value: the end point named by outcodeOut moved to the crossing, its y kept (no contract of its own; see `ClipStepWithin`, `OrderedStepShrinks`, `ClipStepProgress`) |
| PolylineClip.CrossingOnSegment | script.js:770-783 | for a well-formed window, the computed crossing lies between the two end points |
| PolylineClip.ClipStepWithin | script.js:768-793 | after a step both points lie on the original segment: inside its bounding box and, in the ground plane (x, z), on its line; y is carried along |
| PolylineClip.DisorderedStepRejects | script.js:766-793 | a step on an axis whose minimum exceeds its maximum leads to rejection next time round |
| PolylineClip.OrderedStepShrinks | script.js:768-793 | on an ordered axis the new `outcode1 \| outcode2` has the handled flag cleared and no flag the old one lacked, so fewer ordered flags |
| PolylineClip.ClipStepProgress | script.js:762-794 | every step strictly decreases a bounded measure, so the `while (true)` loop ends for every window |
| PolylineClip.StepsOrdered | script.js:762-794 | with both axes of the window in order, the loop moves an end point at most once per flag of `outcode1 \| outcode2` |
| PolylineClip.ClipSegmentSteps | script.js:762-794 | for every window the loop takes its else-branch at most four times per segment |
| PolylineClip.ClipSegment | script.js:762-794 | an accepted segment lies in the window and on the original segment (inside its bounding box and, in the ground plane, on its line), and keeps the end points' y |
| PolylineClip.ClipSegmentInside | script.js:763-765 | a segment that is already inside is accepted as is |
| PolylineClip.ClipSegmentBeyond | script.js:766-767 | a segment with both ends beyond the same boundary is rejected |
| PolylineClip.ClipSegmentIdempotent | script.js:762-794 | clipping an accepted segment again gives it back |
| PolylineClip.ClipSegmentLoop | script.js:758-794 | the loop over the cloned end points and their outcodes computes `ClipSegment` |
| PolylineClip.ChainsAfterInWindow | script.js:795-810 | every chain built so far has at least 2 points, all in the window |
| PolylineClip.AddSegment | script.js:795-810 | computes one iteration's effect on the chains: a rejection closes the open chain; an accepted part extends it when it starts at its end, else starts a new one (no contract of its own; see `AddSegmentInWindow`) |
| PolylineClip.ChainsAfter | script.js:756-811 | computes clipPolyline's closed chains and open chain after the first n segments as a value (no contract of its own; see `ChainsAfterInWindow`, `ChainsAfterInside`) |
| PolylineClip.Finish | script.js:812 | computes the final push of a non-empty open chain as a value (no contract of its own; see `ClippedPolylineInWindow`, `ClippedPolylineIdentity`) |
| PolylineClip.ClippedPolyline | script.js:740-815 | computes clipPolyline as a value (no contract of its own; see the `ClippedPolyline…` lemmas and `ClipPolyline`) |
| PolylineClip.ClippedPolylineInWindow | script.js:740-815 | every returned chain has at least 2 points, all inside the closed window |
| PolylineClip.ClippedPolylineShort | script.js:756-812 | fewer than 2 points give no chains |
| PolylineClip.ChainsAfterInside | script.js:795-804 | when every point is inside, the chains built so far are one open chain: the prefix of the input |
| PolylineClip.ClippedPolylineIdentity | script.js:740-815 | a polyline of 2 or more points lying inside comes back as exactly one chain equal to the input |
| PolylineClip.ClippedPolylineIdempotent | script.js:740-815 | clipping any returned chain again gives that chain alone |
| PolylineClip.ClippedPolylineBeyond | script.js:766-810 | a polyline wholly beyond one boundary gives no chains |
| PolylineClip.ClipPolyline | script.js:740-815 | the loops, with `currentSegment` and `clippedPolylines` mutated, compute `ClippedPolyline`; every chain lies in the window |
| PolylineClip.ExtendChains | script.js:795-810 | the accept and reject branches update `clippedPolylines` and `currentSegment` exactly as `AddSegment` does on the chains they stand for |
| Buildings.NonNumericLevelsGiveNaN | script.js:640-643 | as written, a non-numeric `building:levels` tag gives NaN (see Findings) |
| Buildings.ResolveHeightAsWritten | script.js:637-643 | the height expression as written, over JavaScript numbers: NaN, or a number in [12, 25] |
| Buildings.JsMul | script.js:641 | computes JavaScript `*` on a number that may be NaN as a value (no contract of its own; see `NonNumericLevelsGiveNaN`, `ResolveHeightAsWritten`) |
| Buildings.JsOr | script.js:642 | computes JavaScript `a \|\| b` on numbers as a value: b when a is 0 or NaN (no contract of its own; see `ResolveHeightAsWritten`, `ResolveHeightAgrees`) |
| Buildings.JsMin | script.js:643 | computes `Math.min` as a value: NaN as soon as one argument is NaN (no contract of its own; see `NonNumericLevelsGiveNaN`) |
| Buildings.JsMax | script.js:643 | computes `Math.max` as a value: NaN as soon as one argument is NaN (no contract of its own; see `NonNumericLevelsGiveNaN`) |
| Buildings.Clamp | script.js:643 | the result lies in [12, 25] and is the identity inside that range |
| Buildings.RawHeight | script.js:640-642 | computes the height before the clamp under the corrected rule as a value, a non-numeric levels tag treated as absent (no contract of its own; see `ResolveHeight`, `ResolveHeightAgrees`, `ResolveHeightDefault`, `ResolveHeightFromLevels`, `ResolveHeightFromTag`) |
| Buildings.ResolveHeight | script.js:637-643 | the height always lies in [12, 25] |
| Buildings.ResolveHeightAgrees | script.js:640-643 | whenever the levels tag is numeric or absent, this equals the source's expression, NaN cases of the height tag included |
| Buildings.ResolveHeightDefault | script.js:642 | with no usable tag the height is 15 (`\|\| 15` also replaces 0 and NaN) |
| Buildings.ResolveHeightFromLevels | script.js:640-643 | numeric levels give 3.5 m per level, clamped |
| Buildings.ResolveHeightFromTag | script.js:642-643 | without levels, a nonzero height tag is used, clamped |
| Buildings.ShapeRing | script.js:601-604 | one shape point per coordinate, the scene's z negated |
| Buildings.ShapePoint | script.js:603 | computes `new THREE.Vector2(vec.x, -vec.z)` as a value (no contract of its own; see `ShapeRing`, `ExtrusionUpright`) |
| Buildings.ClippedRing | script.js:606-613 | computes a ring after clipPolygon against the clip bounds and cleanShapePoints as a value (no contract of its own; see `ClippedRingInBounds`, `ClippedRingInside`) |
| Buildings.ClippedRingInBounds | script.js:606-613 | the clipped, cleaned ring lies in the clip bounds |
| Buildings.ClippedRingInside | script.js:606-613 | for a ring inside the bounds only the cleaning acts |
| Buildings.BuildingMesh | script.js:606-653 | computes processPolygon's mesh: none below 3 outline points, else the clipped outline, the kept holes, the corrected height and base y plateThickness / 2 (no contract of its own; see `BuildingMeshShape`) |
| Buildings.KeptRings | script.js:619-636 | computes the rings that keep 3 or more points, in order, as a value (no contract of its own; see `KeptRingsShape`, `KeptRingsSelect`, `KeptRingsAll`) |
| Buildings.KeptHoles | script.js:619-636 | computes the holes processPolygon adds, each clipped and cleaned and kept at 3 or more points, as a value (no contract of its own; see `KeptHolesShape`, `KeptHolesSelect`, `KeptHolesAll`, `Scene.ClipHoles`) |
| Buildings.KeptRingsShape | script.js:631-635 | the rings kept are some of the rings, no more of them, each with 3 or more points |
| Buildings.KeptRingsSelect | script.js:631-635 | the kept rings are exactly the rings of 3 or more points, in their original order: an increasing list of indices picks them, and an index is picked if and only if its ring has at least 3 points |
| Buildings.KeptRingsAll | script.js:631-635 | the special case of `KeptRingsSelect` where every ring has at least 3 points: all are kept, in order |
| Buildings.KeptHolesShape | script.js:619-636 | kept holes are no more than the holes, have at least 3 points each, and lie in the bounds |
| Buildings.KeptHolesSelect | script.js:619-636 | the kept holes are, in order, the clipped and cleaned holes of 3 or more points: an increasing list of indices picks them, and a hole is picked if and only if its clipped ring keeps at least 3 points |
| Buildings.KeptHolesAll | script.js:619-636 | when every hole keeps 3 or more points, all holes are kept, clipped and cleaned, in order |
| Buildings.ExtrusionPoint | script.js:652-653 | computes the scene point of a shape point raised by d, after the −π/2 rotation about x and the mesh position, as a value (no contract of its own; see `ExtrusionUpright`) |
| Buildings.MeshHeight | script.js:615-658 | computes the height processPolygon returns as a value: 0 with no mesh, else the mesh's depth (no contract of its own; see `Scene.PolygonStep`, `Scene.PreviewScene.ProcessPolygon`) |
| Buildings.ExtrusionUpright | script.js:601-653 | the rotation by −π/2 brings a shape point back above its scene point, at height baseY + d |
| Buildings.BuildingMeshShape | script.js:615-653 | there is a mesh exactly when the outline keeps 3 or more points; it rests on the plate top with height in [12, 25] (with the corrected height rule, see Findings) |
| Buildings.HolesDoNotDropBuilding | script.js:615-636 | holes never decide whether a building is made |
| Roads.TooShortMeans | script.js:687-688 | the squared test agrees with `length < 0.1` |
| Roads.TooShort | script.js:687-688 | computes the `length < 0.1` test on the squared length as a value (no contract of its own; see `TooShortMeans`) |
| Roads.SegmentBox | script.js:690-696 | a 6 × 2 box of squared length \|p1p2\|², centred at the ground midpoint, resting on the plate top, looking at p2 at its own height |
| Roads.SegmentBoxSpans | script.js:690-696 | the box is centred half-way along the segment and reaches exactly to both ends |
| Roads.ChainBoxes | script.js:684-701 | computes the boxes of a chain's first n segments as a value, short segments skipped (no contract of its own; see `ChainBoxesSelect`, `ChainBoxesAll`) |
| Roads.ChainBoxesSelect | script.js:684-701 | every segment at least 0.1 long gets a box and no other does: the boxes of the first n segments are those of the long ones, in increasing order of segment |
| Roads.ChainBoxesAll | script.js:684-701 | without short segments, there is one box per segment, in order |
| Roads.BoxesOfChain | script.js:683-701 | computes one chain's boxes as a value, none for a chain under 2 points (no contract of its own; see `ChainBoxesSelect`, `LineStringBoxesGood`) |
| Roads.BoxesOfChains | script.js:682-702 | computes the boxes of the chains, in order, as a value (no contract of its own; see `LineStringBoxesGood`, `LineStringBoxesBeyond`) |
| Roads.ProjectCoords | script.js:668 | computes the LineString's points, each projected by latLonToVector3, as a value (no contract of its own; see `Projection.ProjectPosition`, `LineStringBoxesGood`) |
| Roads.LineStringBoxes | script.js:661-703 | computes processLineString's boxes: project, give up below 2 points, clip, box every chain (no contract of its own; see `LineStringBoxesGood`, `LineStringBoxesBeyond`) |
| Roads.LineStringBoxesGood | script.js:661-703 | every box is 6 wide and 2 high, at least 0.1 long, rests on the plate, and is centred inside the window |
| Roads.LineStringBoxesBeyond | script.js:668-678 | a road wholly beyond one boundary gives no boxes |
| Walls.CreateWalls | script.js:487-527 | four walls |
| Walls.WallsSpan | script.js:494-519 | every wall reaches from the bottom of the plate to contentHeight above its top |
| Walls.WallsFrame | script.js:498-519 | the walls stand flush against the four edges of the plate, outside it |
| Walls.ClipWindow | script.js:322-368 | the clip window is symmetric about the origin and well formed, with extents \|Δx\| and \|Δz\| |
| Walls.PlateCoversWindow | script.js:363-377 | the plate covers the clip window exactly |
| Walls.BasePlate | script.js:374-377 | computes the worldWidth × plateThickness × worldDepth plate at the origin as a value (no contract of its own; see `PlateCoversWindow`) |
| Walls.ScaleFactor | script.js:388-391 | the scale is positive; it makes the larger extent 200 when that extent is positive, and is 1 otherwise |
| Walls.ScaledExtents | script.js:388-391 | scaled, the larger extent is 200 and neither extent exceeds it |
| Scene.MaxDepthIsMax | script.js:531-551 | the running `Math.max` is the greatest height, and 0 with no mesh |
| Scene.RunningMax | script.js:531-553 | computes `maxHeight = Math.max(maxHeight, height)` over meshes in turn as a value (no contract of its own; see `RunningMaxAppend`, `MaxDepthIsMax`) |
| Scene.MaxDepth | script.js:531-553 | computes drawFeatures' maxHeight, the running maximum from 0, as a value (no contract of its own; see `MaxDepthIsMax`, `MaxHeightBounds`) |
| Scene.FeatureMeshes | script.js:529-574 | computes the meshes drawFeatures makes, feature by feature in order (no contract of its own; see `MeshesOfGood`, `MaxHeightBounds`, `DrawFeatures`) |
| Scene.HoleRings | script.js:619-623 | computes the hole rings in the plane of the shape as a value; ensures one ring per hole (no contract of its own; see `ClipHoles`) |
| Scene.PolygonMesh | script.js:544-558 | computes the mesh processPolygon makes for one polygon as a value (no contract of its own; see `MeshesOfGood`, `PolygonStep`) |
| Scene.MeshesOf | script.js:544-558 | computes the meshes made for a list of polygons, in order, as a value (no contract of its own; see `MeshesOfGood`, `PolygonStep`) |
| Scene.FeaturePolygons | script.js:539-562 | computes the polygons processFunc is called on as a value: one for a building Polygon, each of a building MultiPolygon, none otherwise (no contract of its own; see `Dispatch`) |
| Scene.IsRoad | script.js:539-562 | computes the road test as a value: a LineString with a truthy highway property, not a building (no contract of its own; see `Dispatch`) |
| Scene.FeatureRoadBoxes | script.js:559-570 | computes the boxes processLineString makes for every road feature, in order, as a value (no contract of its own; see `Scene.PreviewScene.DrawFeatures`) |
| Scene.RunningMaxAppend | script.js:551 | running on over more meshes continues from where the first meshes left off |
| Scene.MeshesOfGood | script.js:544-558 | every mesh made for a feature's polygons is in bounds, on the plate, and 12–25 high (with the corrected height rule) |
| Scene.MaxHeightBounds | script.js:529-574 | `drawFeatures` returns 0 exactly when no mesh was made, otherwise the greatest height, which lies in [12, 25] (with the corrected height rule) |
| Scene.Dispatch | script.js:539-570 | no geometry draws nothing, a building never draws a road, and a feature that is not a building never draws a building; a building Polygon draws its one polygon's mesh, a building MultiPolygon the meshes of its polygons, and a highway LineString that is not a building exactly `LineStringBoxes` of its coordinates |
| Scene.WallsCoverBuildings | script.js:383-384 | the walls rise exactly to the top of the tallest building (heights from the corrected height rule) |
| Scene.ClipHoles | script.js:619-636 | the hole loop computes `KeptHoles` |
| Scene.ClipOuter | script.js:607-614 | clipping then cleaning the outer ring computes `ClippedRing` |
| Scene.MakeBuildingMesh | script.js:601-653 | processPolygon's mesh computation yields exactly `PolygonMesh`: none when the clipped outer ring keeps fewer than 3 points, else the extrusion with its kept holes and resolved height |
| Scene.GroundOf | script.js:312-368 | the selection's ground: non-negative width and depth from the projected corners, and a clip window centred on the origin spanning exactly that width and depth |
| Scene.PreviewScene.constructor | script.js:5-17 | the initial state of `three`: no preview, no plate, empty groups and scale 1 (destroy3DPreview returns to it at script.js:437-449; the groups are created at script.js:300-303), satisfying `Valid` (a built preview has its plate) |
| Scene.PreviewScene.ProcessPolygon | script.js:593-659 | adds at most one extrusion, and reports whether it did and with what height (with the corrected height rule) |
| Scene.PreviewScene.AddChainBoxes | script.js:683-701 | adds the boxes of one chain |
| Scene.PreviewScene.AddChainsBoxes | script.js:682-702 | adds the boxes of every chain, in order |
| Scene.PreviewScene.ProcessLineString | script.js:661-703 | adds exactly `LineStringBoxes` to the roads group |
| Scene.PolygonStep | script.js:543-552 | one more polygon appends its mesh, if any, and raises the running maximum by that mesh's height only |
| Scene.PreviewScene.DrawFeature | script.js:539-571 | one feature: its meshes, its road boxes, and the running maximum |
| Scene.PreviewScene.DrawFeatures | script.js:529-574 | adds every feature's meshes and boxes and returns `MaxDepth` of the meshes (with the corrected height rule) |
| Scene.PreviewScene.CreateWalls | script.js:521-526 | adds the four walls to the walls group |
| Scene.PreviewScene.Init3DPreview | script.js:287-391 | does nothing when there is no data or a preview exists; otherwise leaves the `BuiltFrom` state (plate, buildings, roads, walls up to the tallest building with the corrected height rule, scale); keeps `Valid` |
| Scene.PreviewScene.Build | script.js:300-392 | from an unloaded scene, leaves exactly the `BuiltFrom` state: loaded, a plate spanning the selected corners, every feature's meshes and boxes, walls up to the tallest building (corrected height rule), and the initial scale |
| Scene.PreviewScene.BuiltFrom | script.js:300-392 | computes, as a state predicate, what init3DPreview leaves: loaded, the plate of the selection, the features' meshes and boxes, walls up to `MaxDepth`, and the initial scale (no contract of its own; see `Build`, `Init3DPreview`) |
| Scene.PreviewScene.ExportInputOf | script.js:826-840 | the export sees the loaded state, the preview scale, and one mesh per plate, building, road and wall |
| Scene.PreviewScene.DownloadStl | script.js:817-911 | the export of this scene computes `ExportOf` of its meshes |
| Scene.LoadedSceneExports | script.js:818-880 | in a scene kept `Valid` by its methods, once the preview is built the plate exists, so the export fails only when the merge does |
| Export.ExportParts | script.js:826-838 | the plate, buildings and roads are exported, the walls are not |
| Export.PlateParts | script.js:826-828 | computes the plate's part, not sunk, when there is a plate, as a value (no contract of its own; see `ExportPartsSelection`) |
| Export.GroupParts | script.js:829-838 | computes one sunk part per mesh of a group as a value; ensures one part per mesh (no contract of its own; see `ExportPartsSelection`) |
| Export.ExportPartsSelection | script.js:826-869 | only the plate is left unsunk; buildings and roads are sunk; each part keeps its mesh's vertices |
| Export.SinkOffset | script.js:862-869 | a sunk vertex lies exactly 0.1 below the unsunk placement, after the scale |
| Export.PlacedGeometry | script.js:856-869 | computes a part's vertices after the world matrix and the sink as a value; ensures one vertex per vertex (no contract of its own; see `SinkOffset`, `ExportedVertex`) |
| Export.CollectGeometries | script.js:845-872 | the traversal pushes the placed geometries in order |
| Export.Place | script.js:849-869 | computes a vertex after the world matrix (the scale) and, for a sunk part, the −0.1 translation (no contract of its own; see `SinkOffset`) |
| Export.Merge | script.js:882-885 | computes the merge: the geometries' vertices one after another (no contract of its own; see `MergeIndex`, `MergeSize`) |
| Export.MergeIndex | script.js:882-885 | the merge keeps every vertex, at the offset of its geometry |
| Export.FlipForPrint | script.js:890-891 | the two rotations net to (x, y, z) → (x, −z, y) |
| Export.FlipIsQuarterTurn | script.js:890-891 | up becomes the print's z, distances are kept, and four turns are the identity |
| Export.FlipAll | script.js:890-891 | computes the two rotations on every vertex as a value; ensures the length is kept (no contract of its own; see `FlipIsQuarterTurn`, `ExportedVertex`) |
| Export.BoxMin | script.js:892 | computes the low corner of the bounding box as a value (no contract of its own; see `BoxBounds`, `BoxTight`) |
| Export.BoxMax | script.js:892 | computes the high corner of the bounding box as a value (no contract of its own; see `BoxBounds`, `BoxTight`) |
| Export.BoxBounds | script.js:892 | the bounding box bounds every vertex |
| Export.BoxTight | script.js:892 | every face of the bounding box touches a vertex |
| Export.ShiftBox | script.js:895 | translating moves the bounding box by the same amount |
| Export.BoxCenter | script.js:893-894 | computes the bounding box's centre as a value, the origin for an empty list (no contract of its own; see `RecentredIsCentred`) |
| Export.Shift | script.js:895 | computes `translate(-c.x, -c.y, -c.z)` on every vertex as a value; ensures the length is kept (no contract of its own; see `ShiftBox`) |
| Export.Recentred | script.js:892-895 | computes the recentring by minus the bounding-box centre as a value (no contract of its own; see `RecentredIsCentred`) |
| Export.RecentredIsCentred | script.js:892-895 | after the translation the bounding box is centred on the origin |
| Export.ExportOutcomes | script.js:818-886 | NotLoaded without a scene, NothingToExport without a mesh, MergeFailed when the merge fails, else a file; each an if-and-only-if |
| Export.ExportOf | script.js:817-895 | computes downloadSTL's outcome (no contract of its own; see `ExportOutcomes`, `ExportedVertex`, `RecentredIsCentred`) |
| Export.WallsIgnored | script.js:826 | changing the walls never changes the export |
| Export.ExportedVertex | script.js:845-895 | every exported vertex is placed (scale, sink), rotated and shifted by the common centre |
| Export.MergeSize | script.js:845-885 | the file holds as many vertices as the exported meshes together |
| Export.SinkGap | script.js:849-869 | of two vertices at the same height, the sunk one ends up exactly 0.1 lower after the rotation and the common shift |
| Export.SinkIntoPlate | script.js:840-869 | a building or road vertex level with a plate vertex ends up exactly 0.1 lower in the print, whatever the scale |
| Export.DownloadStl | script.js:817-895 | the sequence of checks, traversal, merge, rotations and recentring computes `ExportOf` |

## Left out

- User interface, Leaflet map, geolocation, search, messages, the loader and page
  switching. These are display and I/O.
- Rendering: camera framing, lights and shadows, orbit controls, `animate3D`,
  `onWindowResize`. They do not affect the model's geometry.
- `destroy3DPreview`. It resets the state to that of the constructor and clears the
  data, which is a parameter here.
- `changeModelColor`, `resetModelColor` and `originalColors`. They are display-only.
- Library geometry is not modelled:
  - `ExtrudeGeometry` triangulation and `BoxGeometry` vertices;
  - the rotation that `lookAt` gives a road box, which is recorded as its target
    point;
  - `Box3.setFromObject`, whose size is a parameter of the scale factor;
  - `mergeBufferGeometries`, whose success is a parameter;
  - `STLExporter` binary encoding;
  - the Blob and the download link.
  
  Meshes are recorded by the records handed to the library. The export works on
  vertex lists that a parameter supplies for each mesh.
- `Math.cos` and π are parameters. IEEE rounding, infinities and −0 are not
  modelled; the only non-finite value modelled is NaN, in the height rule.
- Buildings.BuildingMesh: uses the corrected height rule `Buildings.ResolveHeight`, not
  `Buildings.ResolveHeightAsWritten`. For a non-numeric `building:levels` tag (see
  Findings) the source gives a NaN extrusion depth, a NaN `maxHeight` and NaN wall
  heights; the model gives a height in [12, 25]. The same holds for everything built
  on it: `Scene.MeshesOfGood`, `Scene.MaxHeightBounds`, `Scene.WallsCoverBuildings`,
  `Scene.PreviewScene.ProcessPolygon`, `Scene.PreviewScene.DrawFeatures` and
  `Scene.PreviewScene.Build`, `Scene.PreviewScene.Init3DPreview`. For numeric or absent tags the two rules agree
  (`Buildings.ResolveHeightAgrees`).
- Roads.SegmentBox: records the squared length rather than the length, because
  Dafny reals have no square root. `Roads.TooShortMeans` relates the two.
- The `three.renderer` and `three.modelGroup` checks are one flag, `loaded`. The
  source sets both together.
- `polygonCoords[0]` of an empty polygon would throw. `Scene.Polygon` always has an
  outer ring.
- The export copies the preview's scale (script.js:840); the model does the same.

## Findings

| source | as written | input that shows it | evidently intended | confidence | as-written member | corrected member |
|---|---|---|---|---|---|---|
| script.js:640-643 | `levels ? levels * 3.5 : parseFloat(height) \|\| 15`, then `Math.max(12, Math.min(h, 25))` | `building:levels = "2;3"` (a truthy non-number): `"2;3" * 3.5` is NaN; `Math.min` and `Math.max` pass NaN through, so the extrusion depth, `maxHeight` and the walls become NaN | a height in [12, 25] for every tag, falling back to the height tag and then 15 | not executed | Buildings.NonNumericLevelsGiveNaN | Buildings.ResolveHeight |
