/** Sutherland-Hodgman clipping of a footprint ring against the axis-aligned
    working window (clipPolygon and its nested getIntersection, script.js). */
module PolygonClip {
  import opened Geometry

  datatype Axis = AxisX | AxisY

  /** One half-plane pass: the points p with p[axis] * dir <= val * dir are inside. */
  datatype ClipEdge = ClipEdge(axis: Axis, val: real, dir: real)

  predicate ValidEdge(e: ClipEdge) {
    e.dir == 1.0 || e.dir == -1.0
  }

  function Coord(p: Vec2, a: Axis): real {
    match a
    case AxisX => p.x
    case AxisY => p.y
  }

  /** The inside test of a pass; a point on the clip line is inside. */
  predicate Inside(p: Vec2, e: ClipEdge) {
    Coord(p, e.axis) * e.dir <= e.val * e.dir
  }

  /** The four passes, in the order the source runs them: y >= minY, x <= maxX,
      y <= maxY, x >= minX. */
  function ClipEdges(minX: real, maxX: real, minY: real, maxY: real): (edges: seq<ClipEdge>)
    ensures |edges| == 4
    ensures forall k :: 0 <= k < 4 ==> ValidEdge(edges[k])
  {
    [ClipEdge(AxisY, minY, -1.0), ClipEdge(AxisX, maxX, 1.0),
     ClipEdge(AxisY, maxY, 1.0), ClipEdge(AxisX, minX, -1.0)]
  }

  predicate InWindow(p: Vec2, minX: real, maxX: real, minY: real, maxY: real) {
    minX <= p.x <= maxX && minY <= p.y <= maxY
  }

  /** The inside test of a valid pass is the plain comparison it stands for. */
  lemma InsideMeans(p: Vec2, e: ClipEdge)
    requires ValidEdge(e)
    ensures Inside(p, e) <==> (if e.dir == 1.0 then Coord(p, e.axis) <= e.val else Coord(p, e.axis) >= e.val)
  {
  }

  /** A point is in the window exactly when it is inside all four passes. */
  lemma InWindowIffInsideAll(p: Vec2, minX: real, maxX: real, minY: real, maxY: real)
    ensures var edges := ClipEdges(minX, maxX, minY, maxY);
      InWindow(p, minX, maxX, minY, maxY) <==> (forall k :: 0 <= k < 4 ==> Inside(p, edges[k]))
  {
    var edges := ClipEdges(minX, maxX, minY, maxY);
    InsideMeans(p, edges[0]);
    InsideMeans(p, edges[1]);
    InsideMeans(p, edges[2]);
    InsideMeans(p, edges[3]);
  }

  /** The point of getIntersection: the parameter t of the clip line along S-E
      for the pass's axis, applied to both coordinates. */
  function CrossPoint(S: Vec2, E: Vec2, e: ClipEdge): Vec2
    requires Coord(S, e.axis) != Coord(E, e.axis)
  {
    var dx := E.x - S.x;
    var dy := E.y - S.y;
    var t := AxisRatio(S, E, e);
    Vec2(S.x + t * dx, S.y + t * dy)
  }

  /** The t of getIntersection: the ratio along S-E that reaches the clip line,
      measured on the pass's axis. */
  function AxisRatio(S: Vec2, E: Vec2, e: ClipEdge): real
    requires Coord(S, e.axis) != Coord(E, e.axis)
  {
    if e.axis == AxisX then Ratio(e.val, S.x, E.x) else Ratio(e.val, S.y, E.y)
  }

  /** Points on opposite sides of a clip line differ on its axis, and the line's
      value lies between their coordinates. */
  lemma OppositeSides(S: Vec2, E: Vec2, e: ClipEdge)
    requires ValidEdge(e) && Inside(S, e) != Inside(E, e)
    ensures Coord(S, e.axis) != Coord(E, e.axis) && Between(e.val, Coord(S, e.axis), Coord(E, e.axis))
  {
    InsideMeans(S, e);
    InsideMeans(E, e);
  }

  /** Along a segment whose first coordinate runs from s1 to e1 past v, the ratio
      that locates v reaches v on that coordinate and stays within the range of the
      other. */
  lemma CrossOnSegment(v: real, s1: real, e1: real, s2: real, e2: real)
    requires s1 != e1 && Between(v, s1, e1)
    ensures var t := Ratio(v, s1, e1);
      s1 + t * (e1 - s1) == v && Between(s1 + t * (e1 - s1), s1, e1) && Between(s2 + t * (e2 - s2), s2, e2)
  {
    var t := Ratio(v, s1, e1);
    RatioInUnit(v, s1, e1);
    RatioBack(v, s1, e1);
    LerpBetween(s2, e2, t);
  }

  /** When S and E lie on opposite sides of the clip line, the cross point is on the
      line and within the coordinate ranges of S-E. */
  lemma CrossPointOnLine(S: Vec2, E: Vec2, e: ClipEdge)
    requires Coord(S, e.axis) != Coord(E, e.axis) && Between(e.val, Coord(S, e.axis), Coord(E, e.axis))
    ensures var r := CrossPoint(S, E, e);
      Coord(r, e.axis) == e.val && Between(r.x, S.x, E.x) && Between(r.y, S.y, E.y)
  {
    if e.axis == AxisX {
      CrossPointOnX(S, E, e);
    } else {
      CrossPointOnY(S, E, e);
    }
  }

  /** CrossPointOnLine for a clip line x = val. */
  lemma CrossPointOnX(S: Vec2, E: Vec2, e: ClipEdge)
    requires e.axis == AxisX && S.x != E.x && Between(e.val, S.x, E.x)
    ensures var r := CrossPoint(S, E, e);
      r.x == e.val && Between(r.x, S.x, E.x) && Between(r.y, S.y, E.y)
  {
    assert AxisRatio(S, E, e) == Ratio(e.val, S.x, E.x);
    CrossOnSegment(e.val, S.x, E.x, S.y, E.y);
  }

  /** CrossPointOnLine for a clip line y = val. */
  lemma CrossPointOnY(S: Vec2, E: Vec2, e: ClipEdge)
    requires e.axis == AxisY && S.y != E.y && Between(e.val, S.y, E.y)
    ensures var r := CrossPoint(S, E, e);
      r.y == e.val && Between(r.x, S.x, E.x) && Between(r.y, S.y, E.y)
  {
    assert AxisRatio(S, E, e) == Ratio(e.val, S.y, E.y);
    CrossOnSegment(e.val, S.y, E.y, S.x, E.x);
  }

  /** getIntersection: the point where segment S-E meets the clip line of e.  The
      caller only asks when S and E lie on opposite sides, so the divisor is non-zero;
      the point lies exactly on the clip line and within the coordinate ranges of S-E. */
  function Intersection(S: Vec2, E: Vec2, e: ClipEdge): (r: Vec2)
    requires ValidEdge(e) && Inside(S, e) != Inside(E, e)
    ensures Coord(r, e.axis) == e.val
    ensures Between(r.x, S.x, E.x) && Between(r.y, S.y, E.y)
  {
    OppositeSides(S, E, e);
    CrossPointOnLine(S, E, e);
    CrossPoint(S, E, e)
  }

  /** What one step of a pass emits for the edge S -> E of the ring. */
  function Emit(S: Vec2, E: Vec2, e: ClipEdge): seq<Vec2>
    requires ValidEdge(e)
  {
    if Inside(E, e) then
      (if !Inside(S, e) then [Intersection(S, E, e)] else []) + [E]
    else if Inside(S, e) then
      [Intersection(S, E, e)]
    else
      []
  }

  /** The start point S of step i: the previous vertex, wrapping round to the last one. */
  function Prev(ring: seq<Vec2>, i: nat): Vec2
    requires i < |ring|
  {
    if i == 0 then ring[|ring| - 1] else ring[i - 1]
  }

  /** The output list of a pass after its first k steps. */
  function PassPrefix(ring: seq<Vec2>, e: ClipEdge, k: nat): seq<Vec2>
    requires ValidEdge(e) && k <= |ring|
  {
    if k == 0 then [] else PassPrefix(ring, e, k - 1) + Emit(Prev(ring, k - 1), ring[k - 1], e)
  }

  /** One complete half-plane pass over a ring. */
  function ClipPass(ring: seq<Vec2>, e: ClipEdge): seq<Vec2>
    requires ValidEdge(e)
  {
    PassPrefix(ring, e, |ring|)
  }

  /** The passes in turn; an empty intermediate ring ends the clipping early. */
  function ClipRing(ring: seq<Vec2>, edges: seq<ClipEdge>): seq<Vec2>
    requires forall k :: 0 <= k < |edges| ==> ValidEdge(edges[k])
    decreases |edges|
  {
    if |edges| == 0 then ring
    else if |ring| == 0 then []
    else ClipRing(ClipPass(ring, edges[0]), edges[1..])
  }

  /** clipPolygon(subject, minX, maxX, minY, maxY) as a value. */
  function ClippedPolygon(subject: seq<Vec2>, minX: real, maxX: real, minY: real, maxY: real): seq<Vec2> {
    ClipRing(subject, ClipEdges(minX, maxX, minY, maxY))
  }

  // ---------------------------------------------------------------------------
  // Properties of one pass

  /** Everything a step emits is inside the pass's half-plane. */
  lemma EmitInside(S: Vec2, E: Vec2, e: ClipEdge)
    requires ValidEdge(e)
    ensures forall p :: p in Emit(S, E, e) ==> Inside(p, e)
  {
    if Inside(E, e) != Inside(S, e) {
      var r := Intersection(S, E, e);
      InsideMeans(r, e);
    }
  }

  /** A coordinate-wise point between two points that are both inside (or both
      strictly outside) a valid half-plane is inside (strictly outside) it too. */
  lemma BetweenKeepsSide(r: Vec2, S: Vec2, E: Vec2, h: ClipEdge)
    requires ValidEdge(h)
    requires Between(r.x, S.x, E.x) && Between(r.y, S.y, E.y)
    ensures Inside(S, h) && Inside(E, h) ==> Inside(r, h)
    ensures !Inside(S, h) && !Inside(E, h) ==> !Inside(r, h)
  {
    InsideMeans(r, h);
    InsideMeans(S, h);
    InsideMeans(E, h);
    BetweenBounds(Coord(r, h.axis), Coord(S, h.axis), Coord(E, h.axis), h.val);
  }

  /** A step keeps whatever side of another half-plane h both of its endpoints are on. */
  lemma EmitKeepsSide(S: Vec2, E: Vec2, e: ClipEdge, h: ClipEdge, inside: bool)
    requires ValidEdge(e) && ValidEdge(h)
    requires Inside(S, h) == inside && Inside(E, h) == inside
    ensures forall p :: p in Emit(S, E, e) ==> Inside(p, h) == inside
  {
    if Inside(E, e) != Inside(S, e) {
      var r := Intersection(S, E, e);
      BetweenKeepsSide(r, S, E, h);
    }
  }

  lemma {:induction false} PassPrefixInside(ring: seq<Vec2>, e: ClipEdge, k: nat)
    requires ValidEdge(e) && k <= |ring|
    ensures forall p :: p in PassPrefix(ring, e, k) ==> Inside(p, e)
  {
    if k > 0 {
      PassPrefixInside(ring, e, k - 1);
      EmitInside(Prev(ring, k - 1), ring[k - 1], e);
    }
  }

  lemma {:induction false} PassPrefixKeepsSide(ring: seq<Vec2>, e: ClipEdge, h: ClipEdge, inside: bool, k: nat)
    requires ValidEdge(e) && ValidEdge(h) && k <= |ring|
    requires forall p :: p in ring ==> Inside(p, h) == inside
    ensures forall p :: p in PassPrefix(ring, e, k) ==> Inside(p, h) == inside
  {
    if k > 0 {
      PassPrefixKeepsSide(ring, e, h, inside, k - 1);
      assert Prev(ring, k - 1) in ring;
      EmitKeepsSide(Prev(ring, k - 1), ring[k - 1], e, h, inside);
    }
  }

  /** A pass over a ring lying wholly inside its half-plane changes nothing. */
  lemma {:induction false} PassPrefixIdentity(ring: seq<Vec2>, e: ClipEdge, k: nat)
    requires ValidEdge(e) && k <= |ring|
    requires forall p :: p in ring ==> Inside(p, e)
    ensures PassPrefix(ring, e, k) == ring[..k]
  {
    if k > 0 {
      PassPrefixIdentity(ring, e, k - 1);
      assert Prev(ring, k - 1) in ring;
      assert ring[..k] == ring[..k - 1] + [ring[k - 1]];
    }
  }

  /** A pass over a ring lying wholly beyond its clip line emits nothing. */
  lemma {:induction false} PassPrefixBeyond(ring: seq<Vec2>, e: ClipEdge, k: nat)
    requires ValidEdge(e) && k <= |ring|
    requires forall p :: p in ring ==> !Inside(p, e)
    ensures PassPrefix(ring, e, k) == []
  {
    if k > 0 {
      PassPrefixBeyond(ring, e, k - 1);
      assert Prev(ring, k - 1) in ring;
    }
  }

  // ---------------------------------------------------------------------------
  // Properties of the four passes

  lemma {:induction false} ClipRingKeepsSide(ring: seq<Vec2>, edges: seq<ClipEdge>, h: ClipEdge, inside: bool)
    requires forall k :: 0 <= k < |edges| ==> ValidEdge(edges[k])
    requires ValidEdge(h)
    requires forall p :: p in ring ==> Inside(p, h) == inside
    ensures forall p :: p in ClipRing(ring, edges) ==> Inside(p, h) == inside
    decreases |edges|
  {
    if |edges| > 0 && |ring| > 0 {
      PassPrefixKeepsSide(ring, edges[0], h, inside, |ring|);
      ClipRingKeepsSide(ClipPass(ring, edges[0]), edges[1..], h, inside);
    }
  }

  /** Every point that survives all passes is inside every pass's half-plane. */
  lemma {:induction false} ClipRingInside(ring: seq<Vec2>, edges: seq<ClipEdge>, j: nat)
    requires forall k :: 0 <= k < |edges| ==> ValidEdge(edges[k])
    requires j < |edges|
    ensures forall p :: p in ClipRing(ring, edges) ==> Inside(p, edges[j])
    decreases |edges|
  {
    if |ring| > 0 {
      var next := ClipPass(ring, edges[0]);
      if j == 0 {
        PassPrefixInside(ring, edges[0], |ring|);
        ClipRingKeepsSide(next, edges[1..], edges[0], true);
      } else {
        ClipRingInside(next, edges[1..], j - 1);
      }
    }
  }

  lemma {:induction false} ClipRingIdentity(ring: seq<Vec2>, edges: seq<ClipEdge>)
    requires forall k :: 0 <= k < |edges| ==> ValidEdge(edges[k])
    requires forall p, k :: p in ring && 0 <= k < |edges| ==> Inside(p, edges[k])
    ensures ClipRing(ring, edges) == ring
    decreases |edges|
  {
    if |edges| > 0 && |ring| > 0 {
      PassPrefixIdentity(ring, edges[0], |ring|);
      assert ring[..|ring|] == ring;
      ClipRingIdentity(ring, edges[1..]);
    }
  }

  lemma {:induction false} ClipRingBeyond(ring: seq<Vec2>, edges: seq<ClipEdge>, j: nat)
    requires forall k :: 0 <= k < |edges| ==> ValidEdge(edges[k])
    requires j < |edges|
    requires forall p :: p in ring ==> !Inside(p, edges[j])
    ensures ClipRing(ring, edges) == []
    decreases |edges|
  {
    if |ring| > 0 {
      var next := ClipPass(ring, edges[0]);
      if j == 0 {
        PassPrefixBeyond(ring, edges[0], |ring|);
        assert next == [];
        ClipRingEmpty(edges[1..]);
      } else {
        PassPrefixKeepsSide(ring, edges[0], edges[j], false, |ring|);
        ClipRingBeyond(next, edges[1..], j - 1);
      }
    }
  }

  lemma ClipRingEmpty(edges: seq<ClipEdge>)
    requires forall k :: 0 <= k < |edges| ==> ValidEdge(edges[k])
    ensures ClipRing([], edges) == []
  {
  }

  // ---------------------------------------------------------------------------
  // clipPolygon

  /** Every point returned lies in the closed window [minX, maxX] x [minY, maxY]. */
  lemma ClippedPolygonInWindow(subject: seq<Vec2>, minX: real, maxX: real, minY: real, maxY: real)
    ensures forall p :: p in ClippedPolygon(subject, minX, maxX, minY, maxY) ==> InWindow(p, minX, maxX, minY, maxY)
  {
    var edges := ClipEdges(minX, maxX, minY, maxY);
    var out := ClippedPolygon(subject, minX, maxX, minY, maxY);
    ClipRingInside(subject, edges, 0);
    ClipRingInside(subject, edges, 1);
    ClipRingInside(subject, edges, 2);
    ClipRingInside(subject, edges, 3);
    forall p | p in out ensures InWindow(p, minX, maxX, minY, maxY) {
      InWindowIffInsideAll(p, minX, maxX, minY, maxY);
    }
  }

  /** A ring whose every vertex is in the window (boundary included) comes back unchanged. */
  lemma ClippedPolygonIdentity(subject: seq<Vec2>, minX: real, maxX: real, minY: real, maxY: real)
    requires forall p :: p in subject ==> InWindow(p, minX, maxX, minY, maxY)
    ensures ClippedPolygon(subject, minX, maxX, minY, maxY) == subject
  {
    var edges := ClipEdges(minX, maxX, minY, maxY);
    forall p, k | p in subject && 0 <= k < 4 ensures Inside(p, edges[k]) {
      InWindowIffInsideAll(p, minX, maxX, minY, maxY);
    }
    ClipRingIdentity(subject, edges);
  }

  /** A ring lying entirely beyond one clip line clips to the empty ring. */
  lemma ClippedPolygonBeyond(subject: seq<Vec2>, minX: real, maxX: real, minY: real, maxY: real)
    requires (forall p :: p in subject ==> p.y < minY) || (forall p :: p in subject ==> p.x > maxX)
          || (forall p :: p in subject ==> p.y > maxY) || (forall p :: p in subject ==> p.x < minX)
    ensures ClippedPolygon(subject, minX, maxX, minY, maxY) == []
  {
    var edges := ClipEdges(minX, maxX, minY, maxY);
    var j: nat :| j < 4 && (forall p :: p in subject ==> !Inside(p, edges[j])) by {
      if forall p :: p in subject ==> p.y < minY {
        forall p | p in subject ensures !Inside(p, edges[0]) { InsideMeans(p, edges[0]); }
      } else if forall p :: p in subject ==> p.x > maxX {
        forall p | p in subject ensures !Inside(p, edges[1]) { InsideMeans(p, edges[1]); }
      } else if forall p :: p in subject ==> p.y > maxY {
        forall p | p in subject ensures !Inside(p, edges[2]) { InsideMeans(p, edges[2]); }
      } else {
        forall p | p in subject ensures !Inside(p, edges[3]) { InsideMeans(p, edges[3]); }
      }
    }
    ClipRingBeyond(subject, edges, j);
  }

  /** One pass of clipPolygon: walk the ring with S trailing one vertex behind E and
      push what each step emits. */
  /** The body of the inner loop of clipPolygon for the edge S -> E: the intersection
      when exactly one of them is inside, before E when E is. */
  method PassStep(outputList: seq<Vec2>, S: Vec2, E: Vec2, edge: ClipEdge) returns (r: seq<Vec2>)
    requires ValidEdge(edge)
    ensures r == outputList + Emit(S, E, edge)
  {
    r := outputList;
    var sInside := Inside(S, edge);
    var eInside := Inside(E, edge);
    if eInside {
      if !sInside {
        r := r + [Intersection(S, E, edge)];
      }
      r := r + [E];
    } else if sInside {
      r := r + [Intersection(S, E, edge)];
    }
  }

  method ClipPassLoop(inputList: seq<Vec2>, edge: ClipEdge) returns (outputList: seq<Vec2>)
    requires ValidEdge(edge) && |inputList| > 0
    ensures outputList == ClipPass(inputList, edge)
  {
    outputList := [];
    var S := inputList[|inputList| - 1];
    var i := 0;
    while i < |inputList|
      invariant 0 <= i <= |inputList|
      invariant outputList == PassPrefix(inputList, edge, i)
      invariant i < |inputList| ==> S == Prev(inputList, i)
    {
      var E := inputList[i];
      outputList := PassStep(outputList, S, E, edge);
      assert PassPrefix(inputList, edge, i + 1) == PassPrefix(inputList, edge, i) + Emit(S, E, edge);
      S := E;
      i := i + 1;
    }
  }

  /** clipPolygon: the four passes, each rebuilding the output list; an empty list
      ends the clipping. */
  method ClipPolygon(subject: seq<Vec2>, minX: real, maxX: real, minY: real, maxY: real)
    returns (outputList: seq<Vec2>)
    ensures outputList == ClippedPolygon(subject, minX, maxX, minY, maxY)
    ensures forall p :: p in outputList ==> InWindow(p, minX, maxX, minY, maxY)
    ensures (forall p :: p in subject ==> InWindow(p, minX, maxX, minY, maxY)) ==> outputList == subject
  {
    var clipEdges := ClipEdges(minX, maxX, minY, maxY);
    outputList := subject;
    var k := 0;
    while k < 4
      invariant 0 <= k <= 4
      invariant ClipRing(outputList, clipEdges[k..]) == ClippedPolygon(subject, minX, maxX, minY, maxY)
    {
      var edge := clipEdges[k];
      var inputList := outputList;
      if |inputList| == 0 {
        outputList := [];
        break;
      }
      outputList := ClipPassLoop(inputList, edge);
      assert clipEdges[k..][1..] == clipEdges[k + 1..];
      k := k + 1;
    }
    ClippedPolygonInWindow(subject, minX, maxX, minY, maxY);
    if forall p :: p in subject ==> InWindow(p, minX, maxX, minY, maxY) {
      ClippedPolygonIdentity(subject, minX, maxX, minY, maxY);
    }
  }
}
