/**
 One axis of the ball's motion: the constant-acceleration update over a
 sample interval and the guarded bounce off the two walls of that axis.
 Java `float` is modelled as `real`, so the facts below hold of the exact
 arithmetic the code approximates.
 */
module Physics {

  /** Ball radius in screen units (`RADIUS`). */
  const RADIUS: real := 150.0
  /** Scale from the integrated displacement to screen units (`COEFFICIENT`). */
  const COEFFICIENT: real := 1000.0
  /** A rebound divides the speed by this factor. */
  const DAMPING: real := 1.5

  /** Position and velocity of the ball along one axis. */
  datatype Axis = Axis(pos: real, vel: real)

  /** Constant-acceleration update over an interval of `dt` seconds, with the
      displacement scaled to screen units. */
  function Kinematic(a: Axis, acc: real, dt: real): (r: Axis)
    // the velocity changes by exactly the acceleration accumulated over dt
    ensures r.vel - a.vel == acc * dt
    // the displacement is the mean of the old and new velocity times dt:
    // the exact solution for a constant acceleration
    ensures r.pos - a.pos == COEFFICIENT * (a.vel + r.vel) / 2.0 * dt
    // with positive dt the velocity moves in the direction of the acceleration
    ensures dt > 0.0 ==> (r.vel > a.vel <==> acc > 0.0) && (r.vel < a.vel <==> acc < 0.0)
    // a ball at rest under no acceleration stays where it is
    ensures a.vel == 0.0 && acc == 0.0 ==> r == a
  {
    var d := a.vel * dt + acc * dt * dt / 2.0;
    Axis(a.pos + d * COEFFICIENT, a.vel + acc * dt)
  }

  /** The ball overlaps the low wall (left or top) and still moves toward it. */
  predicate OutwardAtLow(a: Axis) {
    a.pos - RADIUS < 0.0 && a.vel < 0.0
  }

  /** The ball overlaps the high wall (right or bottom, at `size`) and still
      moves toward it. */
  predicate OutwardAtHigh(a: Axis, size: int) {
    a.pos + RADIUS > size as real && a.vel > 0.0
  }

  /** The wall check of one axis: the low wall is tried first, the high wall
      only when the low one does not apply, and each fires only while the
      ball is moving outward. */
  function Rebound(a: Axis, size: int): (r: Axis)
    // low wall: the ball rests exactly on it and now moves inward, slower
    ensures OutwardAtLow(a) ==>
      r.pos == RADIUS && 0.0 < r.vel < -a.vel && r.vel * DAMPING == -a.vel
    // high wall: the ball rests exactly on it and now moves inward, slower
    ensures !OutwardAtLow(a) && OutwardAtHigh(a, size) ==>
      r.pos == size as real - RADIUS && a.vel > -r.vel > 0.0 && r.vel * DAMPING == -a.vel
    // otherwise, including a ball past a wall that already moves inward, nothing changes
    ensures !OutwardAtLow(a) && !OutwardAtHigh(a, size) ==> r == a
    // the velocity changes exactly when one of the guarded branches fires
    ensures r.vel != a.vel <==> OutwardAtLow(a) || OutwardAtHigh(a, size)
  {
    if OutwardAtLow(a) then
      Axis(RADIUS, -a.vel / DAMPING)
    else if OutwardAtHigh(a, size) then
      Axis(size as real - RADIUS, -a.vel / DAMPING)
    else
      a
  }

  /** On a surface at least one ball wide, a rebound leaves the ball on or
      between the walls whenever it fires, and a second wall check changes
      nothing: the ball that was just bounced moves inward. */
  lemma ReboundSettles(a: Axis, size: int)
    requires size as real >= 2.0 * RADIUS
    ensures OutwardAtLow(a) || OutwardAtHigh(a, size) ==>
      RADIUS <= Rebound(a, size).pos <= size as real - RADIUS
    ensures Rebound(Rebound(a, size), size) == Rebound(a, size)
  {
  }

  /** The bounce never changes the direction of a ball that already moves
      away from the wall it overlaps. */
  lemma InwardBallIsNotClamped(a: Axis, size: int)
    requires a.pos - RADIUS < 0.0 && a.vel >= 0.0
    requires a.pos + RADIUS <= size as real || a.vel <= 0.0
    ensures Rebound(a, size) == a
  {
  }
}
