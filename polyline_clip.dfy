/** Cohen-Sutherland clipping of a road polyline against the working window on the
    ground plane (clipPolyline and its nested computeOutCode, script.js).  Points are
    scene points; only x and z are clipped, y is carried along. */
module PolylineClip {
  import opened Geometry

  /** A region code: a set of the four flags below. */
  type OutCode = bv4

  const Inside: OutCode := 0
  const Left: OutCode := 1
  const Right: OutCode := 2
  const Bottom: OutCode := 4
  const Top: OutCode := 8

  predicate InWindow(p: Vec3, w: Window) {
    w.minX <= p.x <= w.maxX && w.minZ <= p.z <= w.maxZ
  }

  /** computeOutCode: one flag for the side of each axis the point lies beyond.  A
      point left of minX is never also flagged right of maxX, and likewise for z. */
  function ComputeOutCode(p: Vec3, w: Window): (code: OutCode)
    ensures code == Inside <==> InWindow(p, w)
    ensures code & Left != 0 <==> p.x < w.minX
    ensures code & Right != 0 <==> !(p.x < w.minX) && p.x > w.maxX
    ensures code & Bottom != 0 <==> p.z < w.minZ
    ensures code & Top != 0 <==> !(p.z < w.minZ) && p.z > w.maxZ
  {
    var h: OutCode := if p.x < w.minX then Left else if p.x > w.maxX then Right else Inside;
    var v: OutCode := if p.z < w.minZ then Bottom else if p.z > w.maxZ then Top else Inside;
    h | v
  }

  /** The number of flags set in a code. */
  function Bits(c: OutCode): nat {
    (if c & Left != 0 then 1 else 0) + (if c & Right != 0 then 1 else 0)
    + (if c & Bottom != 0 then 1 else 0) + (if c & Top != 0 then 1 else 0)
  }

  /** q lies in the axis-aligned box spanned by a and b. */
  predicate Within(q: Vec3, a: Vec3, b: Vec3) {
    Between(q.x, a.x, b.x) && Between(q.y, a.y, b.y) && Between(q.z, a.z, b.z)
  }

  lemma WithinTrans(q: Vec3, a: Vec3, b: Vec3, p1: Vec3, p2: Vec3)
    requires Within(q, a, b) && Within(a, p1, p2) && Within(b, p1, p2)
    ensures Within(q, p1, p2)
  {
  }

  /** q lies on the line through a and b in the ground plane (x, z).  Together with
      Within, q lies on the ground segment from a to b. */
  predicate OnGroundLine(q: Vec3, a: Vec3, b: Vec3) {
    (q.x - a.x) * (b.z - a.z) == (q.z - a.z) * (b.x - a.x)
  }

  /** A point of the segment a-b, where a and b lie on the segment p1-p2, lies on the
      line of p1-p2; the box alone decides it when a and b coincide on the ground. */
  lemma OnGroundLineTrans(q: Vec3, a: Vec3, b: Vec3, p1: Vec3, p2: Vec3)
    requires Within(q, a, b) && OnGroundLine(q, a, b)
    requires OnGroundLine(a, p1, p2) && OnGroundLine(b, p1, p2)
    ensures OnGroundLine(q, p1, p2)
  {
    var d1 := p2.x - p1.x;
    var d2 := p2.z - p1.z;
    if a.x == b.x && a.z == b.z {
      assert q.x == a.x && q.z == a.z;
    } else {
      var u1 := a.x - p1.x;
      var u2 := a.z - p1.z;
      var y1 := b.x - a.x;
      var y2 := b.z - a.z;
      var x1 := q.x - a.x;
      var x2 := q.z - a.z;
      assert Cross(u1, u2, d1, d2) == 0.0;
      assert Cross(u1 + y1, u2 + y2, d1, d2) == 0.0;
      assert Cross(u1 + y1, u2 + y2, d1, d2) == Cross(u1, u2, d1, d2) + Cross(y1, y2, d1, d2);
      assert Cross(x1, x2, y1, y2) == 0.0;
      ParallelTrans(x1, x2, y1, y2, d1, d2);
      assert Cross(x1 + u1, x2 + u2, d1, d2) == Cross(x1, x2, d1, d2) + Cross(u1, u2, d1, d2);
    }
  }

  /** Neither end of the segment is in the window, yet the segment is not trivially
      rejected: the case in which the loop of clipPolyline moves an end point. */
  predicate NeedsClip(p1: Vec3, p2: Vec3, w: Window) {
    var o1 := ComputeOutCode(p1, w);
    var o2 := ComputeOutCode(p2, w);
    o1 | o2 != 0 && o1 & o2 == 0
  }

  /** The end point that is moved: outcode1 || outcode2. */
  function OutcodeOut(p1: Vec3, p2: Vec3, w: Window): OutCode {
    var o1 := ComputeOutCode(p1, w);
    if o1 != 0 then o1 else ComputeOutCode(p2, w)
  }

  /** The point (x, z) where the line through p1 and p2 meets the boundary that the
      highest flag of outcodeOut names, in the order TOP, BOTTOM, RIGHT, LEFT; the
      formula is always based at p1, and the point lies on the ground line of p1-p2. */
  function Crossing(p1: Vec3, p2: Vec3, w: Window): (r: (real, real))
    requires NeedsClip(p1, p2, w)
    ensures (r.0 - p1.x) * (p2.z - p1.z) == (r.1 - p1.z) * (p2.x - p1.x)
  {
    var out := OutcodeOut(p1, p2, w);
    if out & Top != 0 then CrossAtZ(p1, p2, w.maxZ)
    else if out & Bottom != 0 then CrossAtZ(p1, p2, w.minZ)
    else if out & Right != 0 then CrossAtX(p1, p2, w.maxX)
    else
      // out is not Inside, so its LEFT flag is the one set
      CrossAtX(p1, p2, w.minX)
  }

  /** Where the line through p1 and p2 meets the boundary z = v: the x of the
      two-point formula based at p1, and v; a point of the ground line of p1-p2. */
  function CrossAtZ(p1: Vec3, p2: Vec3, v: real): (r: (real, real))
    requires p1.z != p2.z
    ensures r.1 == v
    ensures (r.0 - p1.x) * (p2.z - p1.z) == (r.1 - p1.z) * (p2.x - p1.x)
  {
    LineAtOnLine(p1.x, p2.x, p1.z, p2.z, v);
    (LineAt(p1.x, p2.x, p1.z, p2.z, v), v)
  }

  /** Where the line through p1 and p2 meets the boundary x = v: v, and the z of the
      two-point formula based at p1; a point of the ground line of p1-p2. */
  function CrossAtX(p1: Vec3, p2: Vec3, v: real): (r: (real, real))
    requires p1.x != p2.x
    ensures r.0 == v
    ensures (r.0 - p1.x) * (p2.z - p1.z) == (r.1 - p1.z) * (p2.x - p1.x)
  {
    LineAtOnLine(p1.z, p2.z, p1.x, p2.x, v);
    (v, LineAt(p1.z, p2.z, p1.x, p2.x, v))
  }

  /** One pass of the else-branch of the loop: the end point named by outcodeOut is
      moved to the crossing, keeping its y. */
  function ClipStep(p1: Vec3, p2: Vec3, w: Window): (r: (Vec3, Vec3))
    requires NeedsClip(p1, p2, w)
  {
    var (x, z) := Crossing(p1, p2, w);
    if OutcodeOut(p1, p2, w) == ComputeOutCode(p1, w) then (p1.(x := x, z := z), p2)
    else (p1, p2.(x := x, z := z))
  }

  /** The flag a step handles: the highest of outcodeOut in the order the branches
      test them. */
  function Handled(p1: Vec3, p2: Vec3, w: Window): OutCode {
    var out := OutcodeOut(p1, p2, w);
    if out & Top != 0 then Top else if out & Bottom != 0 then Bottom
    else if out & Right != 0 then Right else Left
  }

  /** The handled flag is set in exactly one end point, the one that is moved; the end
      points differ along the handled axis, and when that axis of the window is in order
      the boundary lies between them. */
  lemma HandledBoundary(p1: Vec3, p2: Vec3, w: Window)
    requires NeedsClip(p1, p2, w)
    ensures var o1 := ComputeOutCode(p1, w); var o2 := ComputeOutCode(p2, w);
      var h := Handled(p1, p2, w); var out := OutcodeOut(p1, p2, w);
      && out & h != 0
      && (if out == o1 then o2 & h == 0 else o1 & h == 0)
      && (h == Top ==> p1.z != p2.z && (w.minZ <= w.maxZ ==> Between(w.maxZ, p1.z, p2.z)))
      && (h == Bottom ==> p1.z != p2.z && (w.minZ <= w.maxZ ==> Between(w.minZ, p1.z, p2.z)))
      && (h == Right ==> p1.x != p2.x && (w.minX <= w.maxX ==> Between(w.maxX, p1.x, p2.x)))
      && (h == Left ==> p1.x != p2.x && (w.minX <= w.maxX ==> Between(w.minX, p1.x, p2.x)))
  {
    var o1 := ComputeOutCode(p1, w);
    var o2 := ComputeOutCode(p2, w);
    var out := OutcodeOut(p1, p2, w);
    assert out == o1 || out == o2;
    assert out != 0 && o1 & o2 == 0;
    assert out & Top == 0 && out & Bottom == 0 && out & Right == 0 ==> out & Left != 0;
  }

  /** The crossing lies in the segment's box when the window is well formed. */
  lemma CrossingOnSegment(p1: Vec3, p2: Vec3, w: Window)
    requires WellFormed(w) && NeedsClip(p1, p2, w)
    ensures var (x, z) := Crossing(p1, p2, w); Between(x, p1.x, p2.x) && Between(z, p1.z, p2.z)
  {
    HandledBoundary(p1, p2, w);
  }

  /** A point whose ground coordinates satisfy the line equation of a-b is on that
      ground line. */
  lemma MovedOnGroundLine(q: Vec3, x: real, z: real, a: Vec3, b: Vec3)
    requires q.x == x && q.z == z
    requires (x - a.x) * (b.z - a.z) == (z - a.z) * (b.x - a.x)
    ensures OnGroundLine(q, a, b)
  {
  }

  /** A point with ground coordinates in the box of a-b and the height of a or b is
      within a-b. */
  lemma MovedWithin(q: Vec3, x: real, z: real, a: Vec3, b: Vec3)
    requires q.x == x && q.z == z && (q.y == a.y || q.y == b.y)
    requires Between(x, a.x, b.x) && Between(z, a.z, b.z)
    ensures Within(q, a, b)
  {
  }

  /** Both points after a step lie on the segment before it: in its box and, on the
      ground, on its line. */
  lemma ClipStepWithin(p1: Vec3, p2: Vec3, w: Window)
    requires WellFormed(w) && NeedsClip(p1, p2, w)
    ensures var (q1, q2) := ClipStep(p1, p2, w); Within(q1, p1, p2) && Within(q2, p1, p2)
    ensures var (q1, q2) := ClipStep(p1, p2, w); OnGroundLine(q1, p1, p2) && OnGroundLine(q2, p1, p2)
  {
    var (x, z) := Crossing(p1, p2, w);
    CrossingOnSegment(p1, p2, w);
    assert OnGroundLine(p1, p1, p2);
    assert OnGroundLine(p2, p1, p2) by {
      assert (p2.x - p1.x) * (p2.z - p1.z) == (p2.z - p1.z) * (p2.x - p1.x);
    }
    if OutcodeOut(p1, p2, w) == ComputeOutCode(p1, w) {
      var q := p1.(x := x, z := z);
      MovedOnGroundLine(q, x, z, p1, p2);
      MovedWithin(q, x, z, p1, p2);
      assert ClipStep(p1, p2, w) == (q, p2);
      assert Within(q, p1, p2) && OnGroundLine(q, p1, p2);
    } else {
      var q := p2.(x := x, z := z);
      MovedOnGroundLine(q, x, z, p1, p2);
      MovedWithin(q, x, z, p1, p2);
      assert ClipStep(p1, p2, w) == (p1, q);
      assert Within(q, p1, p2) && OnGroundLine(q, p1, p2);
    }
  }

  /** The flags of a code along the axes whose window bounds are in order. */
  function OrderedBits(c: OutCode, w: Window): nat {
    (if w.minX <= w.maxX then (if c & Left != 0 then 1 else 0) + (if c & Right != 0 then 1 else 0) else 0)
    + (if w.minZ <= w.maxZ then (if c & Bottom != 0 then 1 else 0) + (if c & Top != 0 then 1 else 0) else 0)
  }

  /** What is left for the loop of clipPolyline to do with the segment p1-p2: nothing
      once it accepts or rejects, else one more than the flags set along ordered axes. */
  function Work(p1: Vec3, p2: Vec3, w: Window): nat {
    if NeedsClip(p1, p2, w) then 1 + OrderedBits(ComputeOutCode(p1, w) | ComputeOutCode(p2, w), w) else 0
  }

  /** The step works along an axis whose window bounds are out of order. */
  predicate DisorderedStep(p1: Vec3, p2: Vec3, w: Window) {
    var h := Handled(p1, p2, w);
    if h == Top || h == Bottom then w.minZ > w.maxZ else w.minX > w.maxX
  }

  /** Along an axis whose bounds are out of order every point is flagged on one side or
      the other, and a step along it moves the end point to the side the other end
      point is on, so the next test rejects the segment. */
  lemma DisorderedStepRejects(p1: Vec3, p2: Vec3, w: Window)
    requires NeedsClip(p1, p2, w)
    requires DisorderedStep(p1, p2, w)
    ensures var (q1, q2) := ClipStep(p1, p2, w); ComputeOutCode(q1, w) & ComputeOutCode(q2, w) != 0
  {
    HandledBoundary(p1, p2, w);
  }

  /** Along an axis whose bounds are in order, a step clears the handled flag and the
      crossing, lying between the end points along every ordered axis, raises no new
      flag there. */
  lemma OrderedStepShrinks(p1: Vec3, p2: Vec3, w: Window)
    requires NeedsClip(p1, p2, w)
    requires !DisorderedStep(p1, p2, w)
    ensures var (q1, q2) := ClipStep(p1, p2, w);
      var c := ComputeOutCode(q1, w) | ComputeOutCode(q2, w);
      var u := ComputeOutCode(p1, w) | ComputeOutCode(p2, w);
      c & Handled(p1, p2, w) == 0 && c & !u == 0
    ensures var (q1, q2) := ClipStep(p1, p2, w);
      OrderedBits(ComputeOutCode(q1, w) | ComputeOutCode(q2, w), w) < OrderedBits(ComputeOutCode(p1, w) | ComputeOutCode(p2, w), w)
  {
    var o1 := ComputeOutCode(p1, w);
    var o2 := ComputeOutCode(p2, w);
    var u := o1 | o2;
    var out := OutcodeOut(p1, p2, w);
    var h := Handled(p1, p2, w);
    var (q1, q2) := ClipStep(p1, p2, w);
    var c1 := ComputeOutCode(q1, w);
    var c2 := ComputeOutCode(q2, w);
    HandledBoundary(p1, p2, w);
    var moved := if out == o1 then c1 else c2;
    var other := if out == o1 then c2 else c1;
    assert other == (if out == o1 then o2 else o1);
    assert moved & h == 0;
    var mask: OutCode := (if w.minX <= w.maxX then Left | Right else 0) | (if w.minZ <= w.maxZ then Bottom | Top else 0);
    assert moved & !u == 0;
    assert moved & mask & !u == 0;
    assert u & h != 0 && h & mask != 0 && (c1 | c2) & h == 0;
    MaskedBitsShrink(c1 | c2, u, mask, w);
  }

  lemma MaskedBitsShrink(a: OutCode, b: OutCode, mask: OutCode, w: Window)
    requires mask == (if w.minX <= w.maxX then Left | Right else 0) | (if w.minZ <= w.maxZ then Bottom | Top else 0)
    requires a & mask & !b == 0 && a & mask != b & mask
    ensures OrderedBits(a, w) < OrderedBits(b, w)
  {
  }

  /** Every step of the loop leaves strictly less work, so the loop ends whatever the
      window; ClipSegmentSteps bounds it by four steps. */
  lemma ClipStepProgress(p1: Vec3, p2: Vec3, w: Window)
    requires NeedsClip(p1, p2, w)
    ensures var (q1, q2) := ClipStep(p1, p2, w); Work(q1, q2, w) < Work(p1, p2, w)
  {
    if DisorderedStep(p1, p2, w) {
      DisorderedStepRejects(p1, p2, w);
    } else {
      OrderedStepShrinks(p1, p2, w);
    }
  }

  /** The number of times the loop of clipPolyline takes its else-branch (moves an
      end point) for p1-p2 before it accepts or rejects. */
  function Steps(p1: Vec3, p2: Vec3, w: Window): nat
    decreases Work(p1, p2, w)
  {
    if !NeedsClip(p1, p2, w) then 0
    else
      ClipStepProgress(p1, p2, w);
      var (q1, q2) := ClipStep(p1, p2, w);
      1 + Steps(q1, q2, w)
  }

  lemma {:induction false} StepsAtMostWork(p1: Vec3, p2: Vec3, w: Window)
    ensures Steps(p1, p2, w) <= Work(p1, p2, w)
    decreases Work(p1, p2, w)
  {
    if NeedsClip(p1, p2, w) {
      ClipStepProgress(p1, p2, w);
      var (q1, q2) := ClipStep(p1, p2, w);
      StepsAtMostWork(q1, q2, w);
    }
  }

  /** With both axes of the window in order, every step clears a flag for good. */
  lemma {:induction false} StepsOrdered(p1: Vec3, p2: Vec3, w: Window)
    requires w.minX <= w.maxX && w.minZ <= w.maxZ
    ensures Steps(p1, p2, w) <= OrderedBits(ComputeOutCode(p1, w) | ComputeOutCode(p2, w), w)
    decreases Work(p1, p2, w)
  {
    if NeedsClip(p1, p2, w) {
      ClipStepProgress(p1, p2, w);
      OrderedStepShrinks(p1, p2, w);
      var (q1, q2) := ClipStep(p1, p2, w);
      StepsOrdered(q1, q2, w);
    }
  }

  /** The loop of clipPolyline moves an end point at most four times per segment,
      whatever the window: once per flag when both axes are in order, and at most
      three times otherwise, the first step along a disordered axis being the last. */
  lemma ClipSegmentSteps(p1: Vec3, p2: Vec3, w: Window)
    ensures Steps(p1, p2, w) <= 4
  {
    if w.minX <= w.maxX && w.minZ <= w.maxZ {
      StepsOrdered(p1, p2, w);
    } else {
      StepsAtMostWork(p1, p2, w);
    }
  }

  /** An end point in the window means the window is well formed. */
  lemma InWindowWellFormed(p: Vec3, w: Window)
    requires InWindow(p, w)
    ensures WellFormed(w)
  {
  }

  /** What the loop of clipPolyline decides for one segment: reject it, or accept the
      part from start to end. */
  datatype SegmentClip = Rejected | Accepted(start: Vec3, end: Vec3)

  /** The inner while-loop of clipPolyline for the segment p1-p2.  An accepted part
      lies in the window and on the segment (in its box and, on the ground, on its
      line), and keeps the heights of the end points. */
  function ClipSegment(p1: Vec3, p2: Vec3, w: Window): (r: SegmentClip)
    ensures r.Accepted? ==> InWindow(r.start, w) && InWindow(r.end, w)
    ensures r.Accepted? ==> Within(r.start, p1, p2) && Within(r.end, p1, p2)
    ensures r.Accepted? ==> OnGroundLine(r.start, p1, p2) && OnGroundLine(r.end, p1, p2)
    ensures r.Accepted? ==> r.start.y == p1.y && r.end.y == p2.y
    decreases Work(p1, p2, w)
  {
    var o1 := ComputeOutCode(p1, w);
    var o2 := ComputeOutCode(p2, w);
    if o1 | o2 == 0 then Accepted(p1, p2)
    else if o1 & o2 != 0 then Rejected
    else
      ClipStepProgress(p1, p2, w);
      var (q1, q2) := ClipStep(p1, p2, w);
      var r := ClipSegment(q1, q2, w);
      if r.Accepted? then
        InWindowWellFormed(r.start, w);
        ClipStepWithin(p1, p2, w);
        WithinTrans(r.start, q1, q2, p1, p2);
        WithinTrans(r.end, q1, q2, p1, p2);
        OnGroundLineTrans(r.start, q1, q2, p1, p2);
        OnGroundLineTrans(r.end, q1, q2, p1, p2);
        r
      else r
  }

  /** A segment with both ends in the window is accepted whole. */
  lemma ClipSegmentInside(p1: Vec3, p2: Vec3, w: Window)
    requires InWindow(p1, w) && InWindow(p2, w)
    ensures ClipSegment(p1, p2, w) == Accepted(p1, p2)
  {
  }

  /** A segment whose ends lie beyond the same boundary is rejected at once. */
  lemma ClipSegmentBeyond(p1: Vec3, p2: Vec3, w: Window)
    requires (p1.x < w.minX && p2.x < w.minX) || (p1.x > w.maxX && p2.x > w.maxX && w.minX <= w.maxX)
      || (p1.z < w.minZ && p2.z < w.minZ) || (p1.z > w.maxZ && p2.z > w.maxZ && w.minZ <= w.maxZ)
    ensures ClipSegment(p1, p2, w) == Rejected
  {
  }

  /** Clipping the accepted part again changes nothing. */
  lemma ClipSegmentIdempotent(p1: Vec3, p2: Vec3, w: Window)
    requires ClipSegment(p1, p2, w).Accepted?
    ensures var r := ClipSegment(p1, p2, w); ClipSegment(r.start, r.end, w) == r
  {
    var r := ClipSegment(p1, p2, w);
    ClipSegmentInside(r.start, r.end, w);
  }

  /** The output of clipPolyline while it runs: the chains already pushed and the
      chain being built (currentSegment). */
  datatype Chains = Chains(closed: seq<seq<Vec3>>, current: seq<Vec3>)

  /** One iteration of the for-loop of clipPolyline, given the loop's verdict on the
      segment.  A rejected segment ends the current chain; an accepted one extends it
      when it starts where the chain ends, and otherwise starts a new chain. */
  function AddSegment(c: Chains, s: SegmentClip): Chains {
    match s
    case Rejected =>
      if |c.current| > 0 then Chains(c.closed + [c.current], []) else c
    case Accepted(a, b) =>
      var c' := if |c.current| > 0 && c.current[|c.current| - 1] != a then Chains(c.closed + [c.current], []) else c;
      Chains(c'.closed, (if |c'.current| == 0 then [a] else c'.current) + [b])
  }

  /** The state of clipPolyline after its first n segments. */
  function ChainsAfter(polyline: seq<Vec3>, w: Window, n: nat): Chains
    requires n == 0 || n < |polyline|
  {
    if n == 0 then Chains([], [])
    else AddSegment(ChainsAfter(polyline, w, n - 1), ClipSegment(polyline[n - 1], polyline[n], w))
  }

  /** The number of segments of a polyline. */
  function Segments(polyline: seq<Vec3>): nat {
    if |polyline| == 0 then 0 else |polyline| - 1
  }

  /** The chains when the loop is done, the last one pushed if it is not empty. */
  function Finish(c: Chains): seq<seq<Vec3>> {
    c.closed + (if |c.current| > 0 then [c.current] else [])
  }

  /** clipPolyline(polyline, minX, maxX, minZ, maxZ) as a value. */
  function ClippedPolyline(polyline: seq<Vec3>, w: Window): seq<seq<Vec3>> {
    Finish(ChainsAfter(polyline, w, Segments(polyline)))
  }

  /** A chain of at least two points, all of them in the window. */
  predicate ChainInWindow(chain: seq<Vec3>, w: Window) {
    |chain| >= 2 && forall k :: 0 <= k < |chain| ==> InWindow(chain[k], w)
  }

  predicate ChainsInWindow(c: Chains, w: Window) {
    && (forall i :: 0 <= i < |c.closed| ==> ChainInWindow(c.closed[i], w))
    && (|c.current| == 0 || ChainInWindow(c.current, w))
  }

  lemma AddSegmentInWindow(c: Chains, s: SegmentClip, w: Window)
    requires ChainsInWindow(c, w)
    requires s.Accepted? ==> InWindow(s.start, w) && InWindow(s.end, w)
    ensures ChainsInWindow(AddSegment(c, s), w)
  {
  }

  lemma {:induction false} ChainsAfterInWindow(polyline: seq<Vec3>, w: Window, n: nat)
    requires n == 0 || n < |polyline|
    ensures ChainsInWindow(ChainsAfter(polyline, w, n), w)
  {
    if n > 0 {
      ChainsAfterInWindow(polyline, w, n - 1);
      AddSegmentInWindow(ChainsAfter(polyline, w, n - 1), ClipSegment(polyline[n - 1], polyline[n], w), w);
    }
  }

  /** Every chain clipPolyline returns has at least two points, all in the window. */
  lemma ClippedPolylineInWindow(polyline: seq<Vec3>, w: Window)
    ensures forall i :: 0 <= i < |ClippedPolyline(polyline, w)| ==> ChainInWindow(ClippedPolyline(polyline, w)[i], w)
  {
    ChainsAfterInWindow(polyline, w, Segments(polyline));
  }

  /** A polyline of fewer than two points gives no chains. */
  lemma ClippedPolylineShort(polyline: seq<Vec3>, w: Window)
    requires |polyline| < 2
    ensures ClippedPolyline(polyline, w) == []
  {
  }

  lemma {:induction false} ChainsAfterInside(polyline: seq<Vec3>, w: Window, n: nat)
    requires 1 <= n < |polyline|
    requires forall k :: 0 <= k < |polyline| ==> InWindow(polyline[k], w)
    ensures ChainsAfter(polyline, w, n) == Chains([], polyline[..n + 1])
  {
    ClipSegmentInside(polyline[n - 1], polyline[n], w);
    if n > 1 {
      ChainsAfterInside(polyline, w, n - 1);
      assert polyline[..n] + [polyline[n]] == polyline[..n + 1];
    } else {
      assert polyline[..2] == [polyline[0], polyline[1]];
    }
  }

  /** A polyline of two or more points inside the window comes back whole, as one chain. */
  lemma ClippedPolylineIdentity(polyline: seq<Vec3>, w: Window)
    requires |polyline| >= 2
    requires forall k :: 0 <= k < |polyline| ==> InWindow(polyline[k], w)
    ensures ClippedPolyline(polyline, w) == [polyline]
  {
    ChainsAfterInside(polyline, w, |polyline| - 1);
    assert polyline[..|polyline|] == polyline;
  }

  /** Clipping a returned chain again returns it unchanged. */
  lemma ClippedPolylineIdempotent(polyline: seq<Vec3>, w: Window)
    ensures forall i :: 0 <= i < |ClippedPolyline(polyline, w)| ==>
      ClippedPolyline(ClippedPolyline(polyline, w)[i], w) == [ClippedPolyline(polyline, w)[i]]
  {
    var r := ClippedPolyline(polyline, w);
    ClippedPolylineInWindow(polyline, w);
    forall i | 0 <= i < |r| ensures ClippedPolyline(r[i], w) == [r[i]] {
      ClippedPolylineIdentity(r[i], w);
    }
  }

  lemma {:induction false} ChainsAfterBeyond(polyline: seq<Vec3>, w: Window, flag: OutCode, n: nat)
    requires n == 0 || n < |polyline|
    requires flag == Left || flag == Right || flag == Bottom || flag == Top
    requires forall k :: 0 <= k < |polyline| ==> ComputeOutCode(polyline[k], w) & flag != 0
    ensures ChainsAfter(polyline, w, n) == Chains([], [])
  {
    if n > 0 {
      ChainsAfterBeyond(polyline, w, flag, n - 1);
      assert ComputeOutCode(polyline[n - 1], w) & ComputeOutCode(polyline[n], w) != 0;
    }
  }

  /** A polyline whose points all lie beyond one boundary gives no chains. */
  lemma ClippedPolylineBeyond(polyline: seq<Vec3>, w: Window, flag: OutCode)
    requires flag == Left || flag == Right || flag == Bottom || flag == Top
    requires forall k :: 0 <= k < |polyline| ==> ComputeOutCode(polyline[k], w) & flag != 0
    ensures ClippedPolyline(polyline, w) == []
  {
    ChainsAfterBeyond(polyline, w, flag, Segments(polyline));
  }

  /** The while(true) loop of clipPolyline on copies p1, p2 of one segment's end
      points: it either accepts, leaving the clipped end points in p1 and p2, or
      rejects the segment. */
  method ClipSegmentLoop(s1: Vec3, s2: Vec3, minX: real, maxX: real, minZ: real, maxZ: real)
    returns (accept: bool, p1: Vec3, p2: Vec3)
    ensures accept ==> ClipSegment(s1, s2, Window(minX, maxX, minZ, maxZ)) == Accepted(p1, p2)
    ensures !accept ==> ClipSegment(s1, s2, Window(minX, maxX, minZ, maxZ)) == Rejected
  {
    var w := Window(minX, maxX, minZ, maxZ);
    p1, p2 := s1, s2;
    var outcode1 := ComputeOutCode(p1, w);
    var outcode2 := ComputeOutCode(p2, w);
    accept := false;
    while true
      invariant outcode1 == ComputeOutCode(p1, w) && outcode2 == ComputeOutCode(p2, w)
      invariant ClipSegment(p1, p2, w) == ClipSegment(s1, s2, w)
      decreases Work(p1, p2, w)
    {
      if outcode1 | outcode2 == 0 {
        accept := true;
        break;
      } else if outcode1 & outcode2 != 0 {
        break;
      } else {
        ClipStepProgress(p1, p2, w);
        var outcodeOut := if outcode1 != 0 then outcode1 else outcode2;
        var (x, z) := Crossing(p1, p2, w);
        if outcodeOut == outcode1 {
          p1 := p1.(x := x, z := z);
          outcode1 := ComputeOutCode(p1, w);
        } else {
          p2 := p2.(x := x, z := z);
          outcode2 := ComputeOutCode(p2, w);
        }
      }
    }
  }

  /** clipPolyline: for each segment, run the Cohen-Sutherland loop on copies of its
      end points, then extend, close or start a chain. */
  /** One turn of the loop of clipPolyline after the segment is clipped: a rejection
      closes the open chain, and an accepted part p1-p2 extends it when it starts at
      its last point, else starts a new chain. */
  method ExtendChains(closed: seq<seq<Vec3>>, current: seq<Vec3>, accept: bool, p1: Vec3, p2: Vec3)
    returns (clippedPolylines: seq<seq<Vec3>>, currentSegment: seq<Vec3>)
    ensures Chains(clippedPolylines, currentSegment)
      == AddSegment(Chains(closed, current), if accept then Accepted(p1, p2) else Rejected)
  {
    clippedPolylines, currentSegment := closed, current;
    if accept {
      if |currentSegment| > 0 && currentSegment[|currentSegment| - 1] != p1 {
        clippedPolylines := clippedPolylines + [currentSegment];
        currentSegment := [];
      }
      if |currentSegment| == 0 {
        currentSegment := currentSegment + [p1];
      }
      currentSegment := currentSegment + [p2];
    } else {
      if |currentSegment| > 0 {
        clippedPolylines := clippedPolylines + [currentSegment];
        currentSegment := [];
      }
    }
  }

  method ClipPolyline(polyline: seq<Vec3>, minX: real, maxX: real, minZ: real, maxZ: real)
    returns (clippedPolylines: seq<seq<Vec3>>)
    ensures clippedPolylines == ClippedPolyline(polyline, Window(minX, maxX, minZ, maxZ))
    ensures forall i :: 0 <= i < |clippedPolylines| ==> ChainInWindow(clippedPolylines[i], Window(minX, maxX, minZ, maxZ))
  {
    var w := Window(minX, maxX, minZ, maxZ);
    clippedPolylines := [];
    var currentSegment: seq<Vec3> := [];
    var i := 0;
    while i < |polyline| - 1
      invariant i <= Segments(polyline)
      invariant Chains(clippedPolylines, currentSegment) == ChainsAfter(polyline, w, i)
    {
      var accept, p1, p2 := ClipSegmentLoop(polyline[i], polyline[i + 1], minX, maxX, minZ, maxZ);
      ghost var seg := if accept then Accepted(p1, p2) else Rejected;
      assert ChainsAfter(polyline, w, i + 1) == AddSegment(Chains(clippedPolylines, currentSegment), seg);
      clippedPolylines, currentSegment := ExtendChains(clippedPolylines, currentSegment, accept, p1, p2);
      i := i + 1;
    }
    if |currentSegment| > 0 {
      clippedPolylines := clippedPolylines + [currentSegment];
    }
    ClippedPolylineInWindow(polyline, w);
  }
}
