/**
 The geometry of the game: the per-axis bounce-and-clamp step of the moving
 circle and the point-in-circle hit test. Positions, velocities and the
 canvas extent are reals; the floating-point rounding of the browser is not
 modelled.
 */
module Geometry {

  function Max(a: real, b: real): real { if a >= b then a else b }

  function Min(a: real, b: real): real { if a <= b then a else b }

  function Abs(a: real): real { if a >= 0.0 then a else -a }

  /** `Math.max(lo, Math.min(hi, v))`: the point of `[lo, hi]` nearest to `v`. */
  function Clamp(lo: real, hi: real, v: real): (r: real)
    ensures lo <= r
    ensures lo <= hi ==> r <= hi
    ensures lo <= v <= hi ==> r == v
  {
    Max(lo, Min(hi, v))
  }

  /** No point of `[lo, hi]` is closer to `v` than its clamp. */
  lemma ClampIsNearest(lo: real, hi: real, v: real, p: real)
    requires lo <= p <= hi
    ensures Abs(Clamp(lo, hi, v) - v) <= Abs(p - v)
  {
  }

  /** The circle of the given radius centred at `pos` reaches or crosses a wall of `[0, extent]`. */
  predicate Touches(pos: real, radius: real, extent: real)
  {
    pos - radius <= 0.0 || pos + radius >= extent
  }

  /** Position and velocity of the circle along one axis. */
  datatype Axis = Axis(pos: real, vel: real)

  /**
   One animation tick along one axis: move by the velocity, negate the
   velocity if the moved circle touches a wall, then clamp the centre into
   `[radius, extent - radius]`.
   */
  function AxisStep(pos: real, vel: real, radius: real, extent: real): (r: Axis)
    ensures radius <= r.pos
    ensures 2.0 * radius <= extent ==> r.pos <= extent - radius
    ensures Abs(r.vel) == Abs(vel)  // the speed is kept: a corollary of the next clause and the last
    ensures Touches(pos + vel, radius, extent) ==> r.vel == -vel
    ensures pos + vel - radius <= 0.0 ==> r.pos == radius
    ensures 2.0 * radius <= extent && pos + vel + radius >= extent ==> r.pos == extent - radius
    ensures !Touches(pos + vel, radius, extent) ==> r == Axis(pos + vel, vel)
  {
    var moved := pos + vel;
    var vel' := if Touches(moved, radius, extent) then -vel else vel;
    Axis(Clamp(radius, extent - radius, moved), vel')
  }

  /**
   A circle that starts inside the canvas and reaches a wall comes back
   with its velocity pointing away from that wall, however far the move
   overshot.
   */
  lemma ReflectionPointsInward(pos: real, vel: real, radius: real, extent: real)
    requires radius <= pos <= extent - radius
    ensures pos + vel - radius <= 0.0 ==> AxisStep(pos, vel, radius, extent).vel >= 0.0
    ensures pos + vel + radius >= extent ==> AxisStep(pos, vel, radius, extent).vel <= 0.0
  {
  }

  /** Square of the Euclidean distance between two points. */
  function SquaredDistance(px: real, py: real, qx: real, qy: real): (d: real)
    ensures d >= 0.0
  {
    (px - qx) * (px - qx) + (py - qy) * (py - qy)
  }

  /** The click at `(px, py)` lies on or inside the circle centred at `(cx, cy)`. */
  predicate WithinRadius(px: real, py: real, cx: real, cy: real, radius: real)
  {
    SquaredDistance(px, py, cx, cy) <= radius * radius
  }

  lemma SquareMonotonic(a: real, b: real)
    requires 0.0 <= a <= b
    ensures a * a <= b * b
  {
    assert a * a <= a * b;
    assert a * b <= b * b;
  }

  lemma SquareStrictlyMonotonic(a: real, b: real)
    requires 0.0 <= a < b
    ensures a * a < b * b
  {
    var aa, ab, bb := a * a, a * b, b * b;
    assert aa <= ab;
    assert ab < bb;
  }

  /**
   The squared test agrees with the test on the distance itself: for a
   non-negative radius and `dist` the (non-negative) square root of the
   squared distance, the click is a hit iff `dist <= radius`.
   */
  lemma HitIffDistanceAtMostRadius(px: real, py: real, cx: real, cy: real, radius: real, dist: real)
    requires 0.0 <= radius && 0.0 <= dist
    requires dist * dist == SquaredDistance(px, py, cx, cy)
    ensures WithinRadius(px, py, cx, cy, radius) <==> dist <= radius
  {
    if dist <= radius {
      SquareMonotonic(dist, radius);
    } else {
      SquareStrictlyMonotonic(radius, dist);
    }
  }

  /** The boundary counts: a click at any point of the circle's edge is a hit. */
  lemma BoundaryIsHit(px: real, py: real, cx: real, cy: real, radius: real)
    requires SquaredDistance(px, py, cx, cy) == radius * radius
    ensures WithinRadius(px, py, cx, cy, radius)
  {
  }
}
