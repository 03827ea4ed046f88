/** The road boxes of processLineString (script.js): one box per consecutive pair of
    points of each clipped chain that is at least 0.1 long.  The length is kept
    squared (Dafny has no square root): a box of length L is recorded with
    lengthSq = L * L.  The orientation that lookAt gives the box is recorded as the
    point it looks at. */
module Roads {
  import opened Geometry
  import opened PolylineClip
  import opened Projection

  const StreetWidth: real := 6.0
  const StreetHeight: real := 2.0
  /** Segments shorter than this are skipped. */
  const MinSegmentLength: real := 0.1

  /** A road mesh: BoxGeometry(width, height, length) at position, turned with
      lookAt(target). */
  datatype RoadBox = RoadBox(width: real, height: real, lengthSq: real, position: Vec3, target: Vec3)

  /** length < 0.1 for the length d >= 0 of a segment, decided on its square. */
  predicate TooShort(p1: Vec3, p2: Vec3) {
    SqDist3(p1, p2) < MinSegmentLength * MinSegmentLength
  }

  /** The squared test agrees with the test on the length itself. */
  lemma TooShortMeans(p1: Vec3, p2: Vec3, d: real)
    requires d >= 0.0 && d * d == SqDist3(p1, p2)
    ensures TooShort(p1, p2) <==> d < MinSegmentLength
  {
    if d < MinSegmentLength { SquareLess(d, MinSegmentLength); } else { SquareAtMost(MinSegmentLength, d); }
  }

  /** The box for the segment p1-p2: centred at the midpoint, lifted so that it sits
      on the plate, and looking at p2 at its own height. */
  function SegmentBox(p1: Vec3, p2: Vec3, plateThickness: real): (b: RoadBox)
    ensures b.width == StreetWidth && b.height == StreetHeight && b.lengthSq == SqDist3(p1, p2)
    ensures b.position.y - b.height / 2.0 == plateThickness / 2.0 && b.target.y == b.position.y
    ensures b.position.x == (p1.x + p2.x) / 2.0 && b.position.z == (p1.z + p2.z) / 2.0
    ensures b.target.x == p2.x && b.target.z == p2.z
  {
    var mid := Lerp3(p1, p2, 0.5);
    var y := plateThickness / 2.0 + StreetHeight / 2.0;
    RoadBox(StreetWidth, StreetHeight, SqDist3(p1, p2), mid.(y := y), Vec3(p2.x, y, p2.z))
  }

  /** The inner for-loop of processLineString over one chain: the boxes of the first
      n segments. */
  function ChainBoxes(chain: seq<Vec3>, n: nat, plateThickness: real): seq<RoadBox>
    requires n == 0 || n < |chain|
  {
    if n == 0 then []
    else
      var p1 := chain[n - 1];
      var p2 := chain[n];
      ChainBoxes(chain, n - 1, plateThickness) + (if TooShort(p1, p2) then [] else [SegmentBox(p1, p2, plateThickness)])
  }

  /** All boxes of one chain; a chain of fewer than 2 points gives none. */
  function BoxesOfChain(chain: seq<Vec3>, plateThickness: real): seq<RoadBox> {
    if |chain| < 2 then [] else ChainBoxes(chain, |chain| - 1, plateThickness)
  }

  /** The boxes of the chains, in order. */
  function BoxesOfChains(chains: seq<seq<Vec3>>, plateThickness: real): seq<RoadBox> {
    if |chains| == 0 then []
    else BoxesOfChains(chains[..|chains| - 1], plateThickness) + BoxesOfChain(chains[|chains| - 1], plateThickness)
  }

  /** The coordinates of a LineString, each projected by latLonToVector3. */
  function ProjectCoords(coords: seq<Position>, center: LatLng, t: Trig): seq<Vec3> {
    seq(|coords|, i requires 0 <= i < |coords| => ProjectPosition(coords[i], center, t))
  }

  /** processLineString without the Three.js calls: project the coordinates, clip
      the polyline, and box every long enough segment of every chain. */
  function LineStringBoxes(coords: seq<Position>, center: LatLng, t: Trig, w: Window, plateThickness: real): seq<RoadBox> {
    var points := ProjectCoords(coords, center, t);
    if |points| < 2 then [] else BoxesOfChains(ClippedPolyline(points, w), plateThickness)
  }

  /** A box as processLineString builds it from a segment of a chain in the window:
      6 wide and 2 high, at least 0.1 long, resting on the top face of the plate, and
      centred inside the window. */
  predicate GoodBox(b: RoadBox, w: Window, plateThickness: real) {
    && b.width == StreetWidth && b.height == StreetHeight
    && b.lengthSq >= MinSegmentLength * MinSegmentLength
    && b.position.y - b.height / 2.0 == plateThickness / 2.0
    && b.target.y == b.position.y
    && PolylineClip.InWindow(b.position, w)
  }

  /** The midpoint of two points of the window lies in the window. */
  lemma MidpointInWindow(p1: Vec3, p2: Vec3, w: Window)
    requires PolylineClip.InWindow(p1, w) && PolylineClip.InWindow(p2, w)
    ensures PolylineClip.InWindow(Lerp3(p1, p2, 0.5), w)
  {
  }

  /** When both ends are at the same height the box reaches exactly from p1 to p2:
      half its length is the ground distance from its centre to the point it looks
      at, and its centre is that far from p1 as well. */
  lemma SegmentBoxSpans(p1: Vec3, p2: Vec3, plateThickness: real)
    requires p1.y == p2.y
    ensures var b := SegmentBox(p1, p2, plateThickness);
      && 4.0 * SqDist3(b.position, b.target) == b.lengthSq
      && 4.0 * SqDist3(b.position, Vec3(p1.x, b.position.y, p1.z)) == b.lengthSq
  {
    var dx := p2.x - p1.x;
    var dz := p2.z - p1.z;
    var b := SegmentBox(p1, p2, plateThickness);
    assert b.position.x - p2.x == -(dx / 2.0) && b.position.z - p2.z == -(dz / 2.0);
    assert b.position.x - p1.x == dx / 2.0 && b.position.z - p1.z == dz / 2.0;
  }

  lemma {:induction false} ChainBoxesGood(chain: seq<Vec3>, n: nat, w: Window, plateThickness: real)
    requires n == 0 || n < |chain|
    requires forall k :: 0 <= k < |chain| ==> PolylineClip.InWindow(chain[k], w)
    ensures |ChainBoxes(chain, n, plateThickness)| <= n
    ensures forall i :: 0 <= i < |ChainBoxes(chain, n, plateThickness)| ==> GoodBox(ChainBoxes(chain, n, plateThickness)[i], w, plateThickness)
  {
    if n > 0 {
      ChainBoxesGood(chain, n - 1, w, plateThickness);
      MidpointInWindow(chain[n - 1], chain[n], w);
    }
  }

  /** For a chain whose segments are all at least 0.1 long there is one box per
      segment, in order. */
  lemma {:induction false} ChainBoxesAll(chain: seq<Vec3>, n: nat, plateThickness: real)
    requires n == 0 || n < |chain|
    requires forall k :: 0 <= k < n ==> !TooShort(chain[k], chain[k + 1])
    ensures ChainBoxes(chain, n, plateThickness) == seq(n, k requires 0 <= k < n && k + 1 < |chain| => SegmentBox(chain[k], chain[k + 1], plateThickness))
  {
    if n > 0 {
      ChainBoxesAll(chain, n - 1, plateThickness);
    }
  }

  /** idx lists, in increasing order, exactly the segments among the first n of the
      chain that are at least 0.1 long, and the boxes of those n segments are the
      boxes of the listed ones. */
  predicate LongSelection(chain: seq<Vec3>, n: nat, plateThickness: real, idx: seq<nat>)
    requires n == 0 || n < |chain|
  {
    var boxes := ChainBoxes(chain, n, plateThickness);
    && |idx| == |boxes|
    && (forall i :: 0 <= i < |idx| ==>
         && idx[i] < n && idx[i] + 1 < |chain|
         && !TooShort(chain[idx[i]], chain[idx[i] + 1])
         && boxes[i] == SegmentBox(chain[idx[i]], chain[idx[i] + 1], plateThickness))
    && (forall i, j :: 0 <= i < j < |idx| ==> idx[i] < idx[j])
    && (forall k :: 0 <= k < n && k + 1 < |chain| && !TooShort(chain[k], chain[k + 1]) ==> k in idx)
  }

  /** Every long enough segment gets a box and no other does, in the order of the
      segments. */
  lemma {:induction false} ChainBoxesSelect(chain: seq<Vec3>, n: nat, plateThickness: real) returns (idx: seq<nat>)
    requires n == 0 || n < |chain|
    ensures LongSelection(chain, n, plateThickness, idx)
  {
    if n == 0 {
      idx := [];
    } else {
      var prev := ChainBoxesSelect(chain, n - 1, plateThickness);
      if TooShort(chain[n - 1], chain[n]) {
        idx := prev;
        ShortSegmentSelect(chain, n, plateThickness, prev);
      } else {
        idx := prev + [n - 1];
        LongSegmentSelect(chain, n, plateThickness, prev);
      }
    }
  }

  /** A short segment adds no box, and the selection stays as it was. */
  lemma ShortSegmentSelect(chain: seq<Vec3>, n: nat, plateThickness: real, prev: seq<nat>)
    requires 0 < n < |chain| && TooShort(chain[n - 1], chain[n])
    requires LongSelection(chain, n - 1, plateThickness, prev)
    ensures LongSelection(chain, n, plateThickness, prev)
  {
    var before := ChainBoxes(chain, n - 1, plateThickness);
    var boxes := ChainBoxes(chain, n, plateThickness);
    assert boxes == before;
  }

  /** A long segment adds its box, and its index joins the selection. */
  lemma LongSegmentSelect(chain: seq<Vec3>, n: nat, plateThickness: real, prev: seq<nat>)
    requires 0 < n < |chain| && !TooShort(chain[n - 1], chain[n])
    requires LongSelection(chain, n - 1, plateThickness, prev)
    ensures LongSelection(chain, n, plateThickness, prev + [n - 1])
  {
    var before := ChainBoxes(chain, n - 1, plateThickness);
    var boxes := ChainBoxes(chain, n, plateThickness);
    var box := SegmentBox(chain[n - 1], chain[n], plateThickness);
    var idx := prev + [n - 1];
    assert boxes == before + [box];
    forall i | 0 <= i < |idx|
      ensures idx[i] < n && idx[i] + 1 < |chain| && !TooShort(chain[idx[i]], chain[idx[i] + 1])
        && boxes[i] == SegmentBox(chain[idx[i]], chain[idx[i] + 1], plateThickness)
    {
      if i < |prev| {
        assert idx[i] == prev[i] && boxes[i] == before[i];
      } else {
        assert idx[i] == n - 1 && boxes[i] == box;
      }
    }
    forall k | 0 <= k < n && k + 1 < |chain| && !TooShort(chain[k], chain[k + 1]) ensures k in idx {
      if k < n - 1 {
        assert k in prev;
      } else {
        assert idx[|prev|] == k;
      }
    }
  }

  lemma {:induction false} BoxesOfChainsGood(chains: seq<seq<Vec3>>, w: Window, plateThickness: real)
    requires forall i, k :: 0 <= i < |chains| && 0 <= k < |chains[i]| ==> PolylineClip.InWindow(chains[i][k], w)
    ensures forall i :: 0 <= i < |BoxesOfChains(chains, plateThickness)| ==> GoodBox(BoxesOfChains(chains, plateThickness)[i], w, plateThickness)
  {
    if |chains| > 0 {
      var last := chains[|chains| - 1];
      BoxesOfChainsGood(chains[..|chains| - 1], w, plateThickness);
      if |last| >= 2 {
        ChainBoxesGood(last, |last| - 1, w, plateThickness);
      }
    }
  }

  /** Every box processLineString makes is 6 wide and 2 high, at least 0.1 long,
      rests on the plate, and is centred inside the clip window. */
  lemma LineStringBoxesGood(coords: seq<Position>, center: LatLng, t: Trig, w: Window, plateThickness: real)
    ensures var boxes := LineStringBoxes(coords, center, t, w, plateThickness);
      forall i :: 0 <= i < |boxes| ==> GoodBox(boxes[i], w, plateThickness)
  {
    var points := ProjectCoords(coords, center, t);
    if |points| >= 2 {
      var chains := ClippedPolyline(points, w);
      ClippedPolylineInWindow(points, w);
      BoxesOfChainsGood(chains, w, plateThickness);
    }
  }

  /** A road entirely outside the window on one side gives no boxes. */
  lemma LineStringBoxesBeyond(coords: seq<Position>, center: LatLng, t: Trig, w: Window, plateThickness: real, flag: OutCode)
    requires flag == Left || flag == Right || flag == Bottom || flag == Top
    requires forall k :: 0 <= k < |coords| ==> ComputeOutCode(ProjectPosition(coords[k], center, t), w) & flag != 0
    ensures LineStringBoxes(coords, center, t, w, plateThickness) == []
  {
    var points := ProjectCoords(coords, center, t);
    ClippedPolylineBeyond(points, w, flag);
  }
}
