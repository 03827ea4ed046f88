/** The fixed parts of the model: the base plate, the four walls of createWalls,
    and the clip window and scale factor of init3DPreview (script.js). */
module Walls {
  import opened Geometry

  /** A mesh of BoxGeometry(width, height, depth) centred at position. */
  datatype Box = Box(width: real, height: real, depth: real, position: Vec3)

  function BottomY(b: Box): real { b.position.y - b.height / 2.0 }
  function TopY(b: Box): real { b.position.y + b.height / 2.0 }
  function LowX(b: Box): real { b.position.x - b.width / 2.0 }
  function HighX(b: Box): real { b.position.x + b.width / 2.0 }
  function LowZ(b: Box): real { b.position.z - b.depth / 2.0 }
  function HighZ(b: Box): real { b.position.z + b.depth / 2.0 }

  const PlateThickness: real := 5.0
  const WallThickness: real := 3.0
  /** The size, in model units, that the larger ground extent is scaled to. */
  const TargetSize: real := 200.0

  /** The base plate: worldWidth x plateThickness x worldDepth, centred at the origin. */
  function BasePlate(worldWidth: real, worldDepth: real, plateThickness: real): Box {
    Box(worldWidth, plateThickness, worldDepth, Vec3(0.0, 0.0, 0.0))
  }

  /** createWalls: front, back, left and right walls, contentHeight + plateThickness
      high and centred at contentHeight / 2. */
  function CreateWalls(width: real, depth: real, contentHeight: real, plateThickness: real, wallThickness: real)
    : (walls: seq<Box>)
    ensures |walls| == 4
  {
    var wallHeight := contentHeight + plateThickness;
    var wallYPosition := contentHeight / 2.0;
    var front := Box(width + wallThickness * 2.0, wallHeight, wallThickness,
      Vec3(0.0, wallYPosition, depth / 2.0 + wallThickness / 2.0));
    var back := Box(width + wallThickness * 2.0, wallHeight, wallThickness,
      Vec3(0.0, wallYPosition, -(depth / 2.0) - wallThickness / 2.0));
    var left := Box(wallThickness, wallHeight, depth,
      Vec3(-(width / 2.0) - wallThickness / 2.0, wallYPosition, 0.0));
    var right := Box(wallThickness, wallHeight, depth,
      Vec3(width / 2.0 + wallThickness / 2.0, wallYPosition, 0.0));
    [front, back, left, right]
  }

  /** Every wall reaches from the bottom face of the plate to contentHeight above
      its top face, so the walls rise exactly as high as the tallest building when
      contentHeight is the maximum building height. */
  lemma WallsSpan(width: real, depth: real, contentHeight: real, plateThickness: real, wallThickness: real)
    ensures var walls := CreateWalls(width, depth, contentHeight, plateThickness, wallThickness);
      var plate := BasePlate(width, depth, plateThickness);
      forall i :: 0 <= i < 4 ==>
        && walls[i].height == contentHeight + plateThickness
        && walls[i].position.y == contentHeight / 2.0
        && BottomY(walls[i]) == BottomY(plate)
        && TopY(walls[i]) == TopY(plate) + contentHeight
  {
  }

  /** The walls stand flush against the four edges of the plate, outside it: the
      front and back walls cover the plate's width plus both side walls, the side
      walls cover its depth, and the walls sit at x = +-(width/2 + t/2) and
      z = +-(depth/2 + t/2). */
  lemma WallsFrame(width: real, depth: real, contentHeight: real, plateThickness: real, wallThickness: real)
    ensures var walls := CreateWalls(width, depth, contentHeight, plateThickness, wallThickness);
      var plate := BasePlate(width, depth, plateThickness);
      var front := walls[0]; var back := walls[1]; var left := walls[2]; var right := walls[3];
      && front.position.z == depth / 2.0 + wallThickness / 2.0 && back.position.z == -(depth / 2.0 + wallThickness / 2.0)
      && left.position.x == -(width / 2.0 + wallThickness / 2.0) && right.position.x == width / 2.0 + wallThickness / 2.0
      && LowZ(front) == HighZ(plate) && HighZ(back) == LowZ(plate)
      && HighX(left) == LowX(plate) && LowX(right) == HighX(plate)
      && LowZ(left) == LowZ(plate) && HighZ(left) == HighZ(plate)
      && LowZ(right) == LowZ(plate) && HighZ(right) == HighZ(plate)
      && LowX(front) == LowX(left) && HighX(front) == HighX(right)
      && LowX(back) == LowX(left) && HighX(back) == HighX(right)
  {
  }

  /** The clip window of init3DPreview: half the world extent either side of the
      origin along x and z. */
  function ClipWindow(corner1: Vec3, corner2: Vec3): (w: Window)
    ensures w.minX == -w.maxX && w.minZ == -w.maxZ
    ensures WellFormed(w)
    ensures w.maxX - w.minX == Abs(corner1.x - corner2.x) && w.maxZ - w.minZ == Abs(corner1.z - corner2.z)
  {
    var worldWidth := Abs(corner1.x - corner2.x);
    var worldDepth := Abs(corner1.z - corner2.z);
    Window(-worldWidth / 2.0, worldWidth / 2.0, -worldDepth / 2.0, worldDepth / 2.0)
  }

  function Abs(a: real): real {
    if a < 0.0 then -a else a
  }

  /** The plate covers the clip window exactly. */
  lemma PlateCoversWindow(corner1: Vec3, corner2: Vec3, plateThickness: real)
    ensures var w := ClipWindow(corner1, corner2);
      var plate := BasePlate(Abs(corner1.x - corner2.x), Abs(corner1.z - corner2.z), plateThickness);
      LowX(plate) == w.minX && HighX(plate) == w.maxX && LowZ(plate) == w.minZ && HighZ(plate) == w.maxZ
  {
  }

  /** The preview scale factor: 200 over the larger ground extent of the model, or 1
      when that extent is not positive. */
  function ScaleFactor(sizeX: real, sizeZ: real): (s: real)
    ensures s > 0.0
    ensures Max(sizeX, sizeZ) > 0.0 ==> s * Max(sizeX, sizeZ) == TargetSize
    ensures Max(sizeX, sizeZ) <= 0.0 ==> s == 1.0
  {
    var maxInitialDim := Max(sizeX, sizeZ);
    if maxInitialDim > 0.0 then TargetSize / maxInitialDim else 1.0
  }

  /** Scaled by the factor, the larger ground extent becomes 200 and the other at
      most 200. */
  lemma ScaledExtents(sizeX: real, sizeZ: real)
    requires sizeX >= 0.0 && sizeZ >= 0.0 && Max(sizeX, sizeZ) > 0.0
    ensures var s := ScaleFactor(sizeX, sizeZ);
      Max(s * sizeX, s * sizeZ) == TargetSize && s * sizeX <= TargetSize && s * sizeZ <= TargetSize
  {
    var s := ScaleFactor(sizeX, sizeZ);
    if sizeX >= sizeZ {
      assert s * sizeX == TargetSize;
      MulNonneg(s, sizeX - sizeZ);
      assert s * sizeX - s * sizeZ == s * (sizeX - sizeZ);
    } else {
      assert s * sizeZ == TargetSize;
      MulNonneg(s, sizeZ - sizeX);
      assert s * sizeZ - s * sizeX == s * (sizeZ - sizeX);
    }
  }
}
