/** Removal of near-duplicate vertices from a clipped ring (cleanShapePoints,
    script.js).  Vector2.distanceTo is replaced by squared distances: for a
    distance d >= 0, "d > tol" and "d < tol" are decided exactly by FartherThan and
    CloserThan below, whatever the sign of tol. */
module RingClean {
  import opened Geometry

  /** The default tolerance of cleanShapePoints. */
  const DefaultTolerance: real := 0.1

  /** distanceTo(p, q) > tol. */
  predicate FartherThan(p: Vec2, q: Vec2, tol: real) {
    tol < 0.0 || SqDist2(p, q) > tol * tol
  }

  /** distanceTo(p, q) < tol. */
  predicate CloserThan(p: Vec2, q: Vec2, tol: real) {
    tol > 0.0 && SqDist2(p, q) < tol * tol
  }

  /** The two predicates decide the comparisons of the true (non-negative) distance d. */
  lemma DistanceComparisons(p: Vec2, q: Vec2, d: real, tol: real)
    requires d >= 0.0 && d * d == SqDist2(p, q)
    ensures FartherThan(p, q, tol) <==> d > tol
    ensures CloserThan(p, q, tol) <==> d < tol
  {
    SquareComparisons(d, SqDist2(p, q), tol);
  }

  lemma SquareComparisons(d: real, sq: real, tol: real)
    requires d >= 0.0 && d * d == sq
    ensures (tol < 0.0 || sq > tol * tol) <==> d > tol
    ensures (tol > 0.0 && sq < tol * tol) <==> d < tol
  {
    if tol >= 0.0 {
      if d > tol { SquareLess(tol, d); } else { SquareAtMost(d, tol); }
      if d < tol { SquareLess(d, tol); } else { SquareAtMost(tol, d); }
    }
  }

  function Last(s: seq<Vec2>): Vec2
    requires |s| > 0
  {
    s[|s| - 1]
  }

  /** The kept list after the for-loop of cleanShapePoints has looked at every point
      of `points`: the first point, then each point farther than tol from the point
      kept before it. */
  function Scan(points: seq<Vec2>, tol: real): (r: seq<Vec2>)
    requires |points| > 0
    ensures 1 <= |r| <= |points| && r[0] == points[0]
    ensures forall k :: 0 < k < |r| ==> FartherThan(r[k], r[k - 1], tol)
    decreases |points|
  {
    if |points| == 1 then [points[0]]
    else
      var kept := Scan(points[..|points| - 1], tol);
      if FartherThan(points[|points| - 1], Last(kept), tol) then kept + [points[|points| - 1]] else kept
  }

  /** cleanShapePoints(points, tol) as a value. */
  function CleanedRing(points: seq<Vec2>, tol: real): seq<Vec2> {
    if |points| < 2 then points
    else
      var kept := Scan(points, tol);
      if |kept| > 1 && CloserThan(kept[0], Last(kept), tol) then kept[..|kept| - 1] else kept
  }

  /** idx lists, in increasing order and starting at 0, positions of `points` whose
      points make up `kept`. */
  ghost predicate SelectedAt(points: seq<Vec2>, kept: seq<Vec2>, idx: seq<nat>) {
    && |idx| == |kept| && |idx| > 0 && idx[0] == 0
    && (forall k :: 0 <= k < |idx| ==> idx[k] < |points| && kept[k] == points[idx[k]])
    && (forall a, b :: 0 <= a < b < |idx| ==> idx[a] < idx[b])
  }

  /** The position after the gap that follows the k-th selected position. */
  ghost function GapEnd(idx: seq<nat>, k: nat, n: nat): nat
    requires k < |idx|
  {
    if k + 1 < |idx| then idx[k + 1] else n
  }

  /** Every position that idx skips holds a point within tol of the last selected
      point before it. */
  ghost predicate SkipsOnlyNear(points: seq<Vec2>, idx: seq<nat>, tol: real) {
    forall k, j :: 0 <= k < |idx| && idx[k] < j < GapEnd(idx, k, |points|) && j < |points| && idx[k] < |points| ==>
      !FartherThan(points[j], points[idx[k]], tol)
  }

  /** The kept points are an order-preserving selection of the input, starting at
      its first point; each dropped point is within tol of the last point kept
      before it.  The indices of the kept points are returned as the witness. */
  lemma {:induction false} ScanSelects(points: seq<Vec2>, tol: real) returns (idx: seq<nat>)
    requires |points| > 0
    ensures SelectedAt(points, Scan(points, tol), idx)
    ensures SkipsOnlyNear(points, idx, tol)
    decreases |points|
  {
    if |points| == 1 {
      idx := [0];
    } else {
      var n := |points| - 1;
      var init := points[..n];
      var prev := ScanSelects(init, tol);
      SelectionLift(points, Scan(init, tol), prev, tol);
      if FartherThan(points[n], Last(Scan(init, tol)), tol) {
        idx := prev + [n];
        SelectionAppend(points, Scan(init, tol), prev, tol);
      } else {
        idx := prev;
      }
    }
  }

  /** A selection from all but the last point is a selection from all points; the gaps
      it skips keep their property, the final gap now reaching the last point
      (which the lemma does not speak for). */
  lemma SelectionLift(points: seq<Vec2>, kept: seq<Vec2>, idx: seq<nat>, tol: real)
    requires |points| > 1
    requires SelectedAt(points[..|points| - 1], kept, idx)
    requires SkipsOnlyNear(points[..|points| - 1], idx, tol)
    ensures SelectedAt(points, kept, idx)
    ensures forall k, j :: 0 <= k < |idx| && idx[k] < j < GapEnd(idx, k, |points| - 1) ==>
      !FartherThan(points[j], points[idx[k]], tol)
  {
    var init := points[..|points| - 1];
    forall k, j | 0 <= k < |idx| && idx[k] < j < GapEnd(idx, k, |points| - 1)
      ensures !FartherThan(points[j], points[idx[k]], tol)
    {
      assert init[j] == points[j] && init[idx[k]] == points[idx[k]];
    }
    forall k | 0 <= k < |idx| ensures kept[k] == points[idx[k]] {
      assert init[idx[k]] == points[idx[k]];
    }
  }

  /** Appending the last position to a selection of the first |points| - 1 points. */
  lemma SelectionAppend(points: seq<Vec2>, kept: seq<Vec2>, idx: seq<nat>, tol: real)
    requires |points| > 1
    requires SelectedAt(points, kept, idx)
    requires idx[|idx| - 1] < |points| - 1
    requires forall k, j :: 0 <= k < |idx| && idx[k] < j < GapEnd(idx, k, |points| - 1) ==>
      !FartherThan(points[j], points[idx[k]], tol)
    ensures SelectedAt(points, kept + [points[|points| - 1]], idx + [|points| - 1])
    ensures SkipsOnlyNear(points, idx + [|points| - 1], tol)
  {
    var n := |points| - 1;
    var idx' := idx + [n];
    var kept' := kept + [points[n]];
    forall k | 0 <= k < |idx'| ensures idx'[k] < |points| && kept'[k] == points[idx'[k]] {
      if k < |idx| { assert idx'[k] == idx[k] && kept'[k] == kept[k]; }
    }
    forall a, b | 0 <= a < b < |idx'| ensures idx'[a] < idx'[b] {
      assert idx'[a] == idx[a];
      if b < |idx| { assert idx'[b] == idx[b]; } else { assert idx[a] <= idx[|idx| - 1]; }
    }
    assert SelectedAt(points, kept', idx');
    forall k, j | 0 <= k < |idx'| && idx'[k] < j < GapEnd(idx', k, |points|) && j < |points| && idx'[k] < |points|
      ensures !FartherThan(points[j], points[idx'[k]], tol)
    {
      assert k < |idx|;
      assert idx'[k] == idx[k] && GapEnd(idx', k, |points|) == GapEnd(idx, k, n);
    }
  }

  /** Fewer than two points come back unchanged. */
  lemma CleanedRingShort(points: seq<Vec2>, tol: real)
    requires |points| < 2
    ensures CleanedRing(points, tol) == points
  {
  }

  /** For two or more points the result is the kept list, minus its last point exactly
      when that point is closer than tol to the first point; it still starts with the
      first input point and keeps every vertex more than tol from its predecessor. */
  lemma CleanedRingShape(points: seq<Vec2>, tol: real)
    requires |points| >= 2
    ensures var kept := Scan(points, tol); var r := CleanedRing(points, tol);
      && 1 <= |r| <= |points|
      && r[0] == points[0]
      && r <= kept
      && (forall k :: 0 < k < |r| ==> FartherThan(r[k], r[k - 1], tol))
      && (|r| < |kept| <==> |kept| > 1 && CloserThan(points[0], Last(kept), tol))
      && |kept| - 1 <= |r|
  {
  }

  /** The cleaned ring is an order-preserving selection of the input points that
      starts with the first one. */
  lemma CleanedRingSelects(points: seq<Vec2>, tol: real) returns (idx: seq<nat>)
    requires |points| >= 2
    ensures SelectedAt(points, CleanedRing(points, tol), idx)
  {
    var all := ScanSelects(points, tol);
    CleanedRingShape(points, tol);
    idx := all[..|CleanedRing(points, tol)|];
  }

  /** cleanShapePoints: push the points that are far enough from the last kept one,
      then pop the last kept point if it nearly closes onto the first. */
  method CleanShapePoints(points: seq<Vec2>, tolerance: real) returns (cleaned: seq<Vec2>)
    ensures cleaned == CleanedRing(points, tolerance)
  {
    if |points| < 2 {
      return points;
    }
    cleaned := [points[0]];
    for i := 1 to |points|
      invariant cleaned == Scan(points[..i], tolerance)
    {
      assert points[..i + 1][..i] == points[..i];
      if FartherThan(points[i], cleaned[|cleaned| - 1], tolerance) {
        cleaned := cleaned + [points[i]];
      }
    }
    assert points[..|points|] == points;
    if |cleaned| > 1 && CloserThan(cleaned[0], cleaned[|cleaned| - 1], tolerance) {
      cleaned := cleaned[..|cleaned| - 1];
    }
  }
}
