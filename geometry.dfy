/** Points and the small facts about straight-line interpolation that every
    clipping routine relies on.  Coordinates are real numbers: the model does not
    follow IEEE rounding. */
module Geometry {

  datatype Option<T> = None | Some(value: T)

  /** A THREE.Vector2: the 2-D points of a building footprint. */
  datatype Vec2 = Vec2(x: real, y: real)

  /** A THREE.Vector3: scene points (y is up, z points south). */
  datatype Vec3 = Vec3(x: real, y: real, z: real)

  /** The clip bounds [minX, maxX] x [minZ, maxZ] of the working area on the ground
      plane (clipBounds).  Building footprints are clipped against it in their own
      (x, y) plane, using minZ and maxZ as the y bounds. */
  datatype Window = Window(minX: real, maxX: real, minZ: real, maxZ: real)

  /** A window whose bounds are in order. */
  predicate WellFormed(w: Window) {
    w.minX <= w.maxX && w.minZ <= w.maxZ
  }

  /** The square of Vector2.distanceTo. */
  function SqDist2(p: Vec2, q: Vec2): (d: real)
    ensures d >= 0.0
  {
    SqNonneg(p.x - q.x);
    SqNonneg(p.y - q.y);
    (p.x - q.x) * (p.x - q.x) + (p.y - q.y) * (p.y - q.y)
  }

  /** The square of Vector3.distanceTo. */
  function SqDist3(p: Vec3, q: Vec3): (d: real)
    ensures d >= 0.0
  {
    SqNonneg(p.x - q.x);
    SqNonneg(p.y - q.y);
    SqNonneg(p.z - q.z);
    (p.x - q.x) * (p.x - q.x) + (p.y - q.y) * (p.y - q.y) + (p.z - q.z) * (p.z - q.z)
  }

  /** v lies on the closed interval spanned by a and b (in either order). */
  predicate Between(v: real, a: real, b: real) {
    (a <= v <= b) || (b <= v <= a)
  }

  /** Math.max and Math.min on numbers (no NaN). */
  function Max(a: real, b: real): real {
    if a >= b then a else b
  }

  function Min(a: real, b: real): real {
    if a <= b then a else b
  }

  /** Applying the rotation matrix of Matrix4.makeRotationX(theta), given its cosine c
      and sine s. */
  function RotateX(v: Vec3, c: real, s: real): Vec3 {
    Vec3(v.x, v.y * c - v.z * s, v.y * s + v.z * c)
  }

  /** Vector3.lerp(q, t): the point a fraction t of the way from p to q. */
  function Lerp3(p: Vec3, q: Vec3, t: real): Vec3 {
    Vec3(p.x + (q.x - p.x) * t, p.y + (q.y - p.y) * t, p.z + (q.z - p.z) * t)
  }

  lemma MulPos(a: real, b: real)
    requires a > 0.0 && b > 0.0
    ensures a * b > 0.0
  {
  }

  lemma MulNegPos(a: real, b: real)
    requires a < 0.0 && b > 0.0
    ensures a * b < 0.0
  {
  }

  lemma MulNonneg(a: real, b: real)
    requires a >= 0.0 && b >= 0.0
    ensures a * b >= 0.0
  {
  }

  lemma SqNonneg(a: real)
    ensures a * a >= 0.0
  {
    if a < 0.0 {
      MulPos(-a, -a);
      assert (-a) * (-a) == a * a;
    }
  }

  lemma DiffOfSquares(a: real, b: real)
    ensures (a - b) * (a + b) == a * a - b * b
  {
  }

  lemma SquareLess(a: real, b: real)
    requires 0.0 <= a < b
    ensures a * a < b * b
  {
    MulPos(b - a, b + a);
    DiffOfSquares(b, a);
  }

  lemma SquareAtMost(a: real, b: real)
    requires 0.0 <= a <= b
    ensures a * a <= b * b
  {
    MulNonneg(b - a, b + a);
    DiffOfSquares(b, a);
  }

  /** The ratio that locates v on [b1, b2]: (v - b1) / (b2 - b1). */
  function Ratio(v: real, b1: real, b2: real): real
    requires b1 != b2
  {
    (v - b1) / (b2 - b1)
  }

  /** When v lies between b1 and b2, the ratio that locates v on [b1, b2] is in [0, 1]. */
  lemma RatioInUnit(v: real, b1: real, b2: real)
    requires b1 != b2 && Between(v, b1, b2)
    ensures 0.0 <= Ratio(v, b1, b2) <= 1.0
  {
    var d := b2 - b1;
    var n := v - b1;
    var t := n / d;
    assert t * d == n;
    if d > 0.0 {
      if t < 0.0 { MulNegPos(t, d); }
      if t > 1.0 { MulPos(t - 1.0, d); assert (t - 1.0) * d == t * d - d; }
    } else {
      if t > 1.0 { MulPos(t - 1.0, -d); assert (t - 1.0) * (-d) == d - t * d; }
    }
  }

  /** The ratio that locates v on [b1, b2] leads back to v. */
  lemma RatioBack(v: real, b1: real, b2: real)
    requires b1 != b2
    ensures b1 + Ratio(v, b1, b2) * (b2 - b1) == v
  {
  }

  /** A point a fraction t in [0, 1] of the way from a1 to a2 lies between them. */
  lemma LerpBetween(a1: real, a2: real, t: real)
    requires 0.0 <= t <= 1.0
    ensures Between(a1 + t * (a2 - a1), a1, a2)
  {
    if a1 <= a2 {
      MulNonneg(t, a2 - a1);
      MulNonneg(1.0 - t, a2 - a1);
      assert (1.0 - t) * (a2 - a1) == (a2 - a1) - t * (a2 - a1);
    } else {
      MulNonneg(t, a1 - a2);
      MulNonneg(1.0 - t, a1 - a2);
      assert (1.0 - t) * (a1 - a2) == (a1 - a2) - t * (a1 - a2);
      assert t * (a1 - a2) == -(t * (a2 - a1));
    }
  }

  /** The two-point line formula's quotient is the ratio of v on [b1, b2] times the
      rise a2 - a1. */
  lemma LineFormulaRatio(a1: real, a2: real, b1: real, b2: real, v: real)
    requires b1 != b2
    ensures ((a2 - a1) * (v - b1)) / (b2 - b1) == Ratio(v, b1, b2) * (a2 - a1)
  {
    var c := a2 - a1;
    var d := b2 - b1;
    var q := (c * (v - b1)) / d;
    var t := Ratio(v, b1, b2);
    assert q * d == c * (v - b1);
    assert t * d == v - b1;
    assert (t * c) * d == c * (t * d);
    assert (q - t * c) * d == 0.0;
  }

  /** The coordinate that the two-point line formula
        a1 + ((a2 - a1) * (v - b1)) / (b2 - b1)
      yields at parameter value v lies between a1 and a2 whenever v lies between b1 and b2. */
  lemma LineFormulaBetween(a1: real, a2: real, b1: real, b2: real, v: real)
    requires b1 != b2
    ensures Between(v, b1, b2) ==> Between(a1 + ((a2 - a1) * (v - b1)) / (b2 - b1), a1, a2)
  {
    if Between(v, b1, b2) {
      var t := Ratio(v, b1, b2);
      var r := a1 + ((a2 - a1) * (v - b1)) / (b2 - b1);
      RatioInUnit(v, b1, b2);
      LineFormulaRatio(a1, a2, b1, b2, v);
      assert r == a1 + t * (a2 - a1);
      LerpBetween(a1, a2, t);
    }
  }

  /** The two-point line formula: the coordinate at parameter value v on the line
      through (b1, a1) and (b2, a2). */
  function LineAt(a1: real, a2: real, b1: real, b2: real, v: real): (r: real)
    requires b1 != b2
    ensures Between(v, b1, b2) ==> Between(r, a1, a2)
  {
    LineFormulaBetween(a1, a2, b1, b2, v);
    a1 + ((a2 - a1) * (v - b1)) / (b2 - b1)
  }

  /** The point the two-point line formula yields lies on the line through (b1, a1)
      and (b2, a2): its rise over the run from b1 is the line's. */
  lemma LineAtOnLine(a1: real, a2: real, b1: real, b2: real, v: real)
    requires b1 != b2
    ensures (LineAt(a1, a2, b1, b2, v) - a1) * (b2 - b1) == (v - b1) * (a2 - a1)
  {
    var t := Ratio(v, b1, b2);
    LineFormulaRatio(a1, a2, b1, b2, v);
    RatioBack(v, b1, b2);
    assert LineAt(a1, a2, b1, b2, v) - a1 == t * (a2 - a1);
    assert t * (b2 - b1) == v - b1;
    assert (t * (a2 - a1)) * (b2 - b1) == (t * (b2 - b1)) * (a2 - a1);
  }

  /** The cross product of the plane vectors (x1, z1) and (x2, z2); zero exactly when
      they are parallel. */
  function Cross(x1: real, z1: real, x2: real, z2: real): real {
    x1 * z2 - z1 * x2
  }

  /** Any three plane vectors x, y, d satisfy
      Cross(x, y) d + Cross(y, d) x + Cross(d, x) y == 0. */
  lemma CrossIdentity(x1: real, x2: real, y1: real, y2: real, d1: real, d2: real)
    ensures Cross(x1, x2, y1, y2) * d1 + Cross(y1, y2, d1, d2) * x1 + Cross(d1, d2, x1, x2) * y1 == 0.0
    ensures Cross(x1, x2, y1, y2) * d2 + Cross(y1, y2, d1, d2) * x2 + Cross(d1, d2, x1, x2) * y2 == 0.0
  {
  }

  /** A vector parallel to a non-zero vector that is parallel to d is parallel to d. */
  lemma ParallelTrans(x1: real, x2: real, y1: real, y2: real, d1: real, d2: real)
    requires Cross(x1, x2, y1, y2) == 0.0 && Cross(y1, y2, d1, d2) == 0.0
    requires y1 != 0.0 || y2 != 0.0
    ensures Cross(x1, x2, d1, d2) == 0.0
  {
    CrossIdentity(x1, x2, y1, y2, d1, d2);
    var c := Cross(d1, d2, x1, x2);
    assert c * y1 == 0.0 && c * y2 == 0.0;
    assert c == 0.0;
  }

  /** A value between two values that both satisfy a closed or open bound satisfies it too. */
  lemma BetweenBounds(v: real, a: real, b: real, bound: real)
    requires Between(v, a, b)
    ensures a <= bound && b <= bound ==> v <= bound
    ensures a >= bound && b >= bound ==> v >= bound
    ensures a < bound && b < bound ==> v < bound
    ensures a > bound && b > bound ==> v > bound
  {
  }
}
