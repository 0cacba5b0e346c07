/**
 The ball held by the accelerometer activity, lifted out of its instance
 fields into an immutable record: `Reset` is what a surface change does to
 it, and `Step` is what one accelerometer reading does to it.
 */
module AccBall {
  import opened JavaNum
  import opened Physics

  /** Centre position, velocity and the timestamp of the previous reading.
      A timestamp of 0 means that no baseline reading has been seen yet. */
  datatype Ball = Ball(x: real, y: real, vx: real, vy: real, t0: Int64)

  /** One accelerometer reading: the raw x and y values and its timestamp in
      nanoseconds. */
  datatype Sample = Sample(ax: real, ay: real, timestamp: Int64)

  /** The drawable surface size, in pixels. */
  datatype Surface = Surface(width: Int32, height: Int32)

  /** The new ball and whether the surface is to be redrawn. */
  datatype StepResult = StepResult(ball: Ball, redraw: bool)

  /** The integrator has no previous timestamp to measure an interval from. */
  predicate AwaitingBaseline(b: Ball) {
    b.t0 == 0
  }

  function Horizontal(b: Ball): Axis {
    Axis(b.x, b.vx)
  }

  function Vertical(b: Ball): Axis {
    Axis(b.y, b.vy)
  }

  /** The state left by a surface change: the ball centred with Java integer
      division, at rest, and waiting for a baseline reading. */
  function Reset(surface: Surface): (r: Ball)
    ensures surface.width >= 0 ==> 0.0 <= surface.width as real - 2.0 * r.x <= 1.0
    ensures surface.height >= 0 ==> 0.0 <= surface.height as real - 2.0 * r.y <= 1.0
    ensures surface.width < 0 ==> -1.0 <= surface.width as real - 2.0 * r.x <= 0.0
    ensures surface.height < 0 ==> -1.0 <= surface.height as real - 2.0 * r.y <= 0.0
    ensures r.x == r.x.Floor as real && r.y == r.y.Floor as real
    ensures r.vx == 0.0 && r.vy == 0.0
    ensures AwaitingBaseline(r)
  {
    Ball(HalfInt(surface.width) as real, HalfInt(surface.height) as real, 0.0, 0.0, 0)
  }

  /** The interval in seconds between the previous timestamp and `timestamp`,
      taken as a Java `long` difference before it becomes fractional. */
  function Elapsed(t0: Int64, timestamp: Int64): (dt: real)
    ensures 0 <= t0 && 0 <= timestamp ==> dt * 1_000_000_000.0 == (timestamp - t0) as real
    ensures 0 <= t0 && 0 <= timestamp ==> (dt > 0.0 <==> timestamp > t0)
  {
    LongSub(timestamp, t0) as real / 1_000_000_000.0
  }

  /** The ball after the kinematic update of one reading and before the
      walls are checked. The device's x reading is negated, its y reading is
      used as it is. */
  function Drift(b: Ball, s: Sample): (r: Ball)
    ensures r.t0 == s.timestamp
    ensures Elapsed(b.t0, s.timestamp) > 0.0 ==>
      && (r.vx < b.vx <==> s.ax > 0.0) && (r.vx > b.vx <==> s.ax < 0.0)
      && (r.vy > b.vy <==> s.ay > 0.0) && (r.vy < b.vy <==> s.ay < 0.0)
    ensures s.ax == 0.0 && b.vx == 0.0 ==> r.x == b.x && r.vx == 0.0
    ensures s.ay == 0.0 && b.vy == 0.0 ==> r.y == b.y && r.vy == 0.0
  {
    var dt := Elapsed(b.t0, s.timestamp);
    var h := Kinematic(Horizontal(b), -s.ax, dt);
    var v := Kinematic(Vertical(b), s.ay, dt);
    Ball(h.pos, v.pos, h.vel, v.vel, s.timestamp)
  }

  /** One accelerometer reading. The first reading after a reset only records
      its timestamp; every later one moves the ball, bounces it off the walls
      of each axis separately, and asks for a redraw. */
  function Step(b: Ball, s: Sample, surface: Surface): (r: StepResult)
    ensures r.ball.t0 == s.timestamp
    ensures r.redraw <==> !AwaitingBaseline(b)
    ensures AwaitingBaseline(b) ==>
      r.ball.x == b.x && r.ball.y == b.y && r.ball.vx == b.vx && r.ball.vy == b.vy
    ensures AwaitingBaseline(r.ball) <==> s.timestamp == 0
  {
    if AwaitingBaseline(b) then
      StepResult(b.(t0 := s.timestamp), false)
    else
      var d := Drift(b, s);
      var h := Rebound(Horizontal(d), surface.width);
      var v := Rebound(Vertical(d), surface.height);
      StepResult(Ball(h.pos, v.pos, h.vel, v.vel, s.timestamp), true)
  }

  /** The x axis of a moving step: the ball is clamped to the left wall at
      exactly RADIUS, or to the right wall at exactly width - RADIUS, with its
      velocity reversed and shrunk, only while it moves outward; otherwise it
      keeps the kinematic update. */
  lemma StepHorizontal(b: Ball, s: Sample, surface: Surface)
    requires !AwaitingBaseline(b)
    ensures var d := Drift(b, s); var r := Step(b, s, surface).ball;
      && (d.x - RADIUS < 0.0 && d.vx < 0.0 ==>
            r.x == RADIUS && 0.0 < r.vx < -d.vx && r.vx * DAMPING == -d.vx)
      && (!(d.x - RADIUS < 0.0 && d.vx < 0.0) && d.x + RADIUS > surface.width as real && d.vx > 0.0 ==>
            r.x == surface.width as real - RADIUS && d.vx > -r.vx > 0.0 && r.vx * DAMPING == -d.vx)
      && (!(d.x - RADIUS < 0.0 && d.vx < 0.0) && !(d.x + RADIUS > surface.width as real && d.vx > 0.0) ==>
            r.x == d.x && r.vx == d.vx)
  {
  }

  /** The y axis of a moving step, against the top wall and the bottom wall
      at the surface height. */
  lemma StepVertical(b: Ball, s: Sample, surface: Surface)
    requires !AwaitingBaseline(b)
    ensures var d := Drift(b, s); var r := Step(b, s, surface).ball;
      && (d.y - RADIUS < 0.0 && d.vy < 0.0 ==>
            r.y == RADIUS && 0.0 < r.vy < -d.vy && r.vy * DAMPING == -d.vy)
      && (!(d.y - RADIUS < 0.0 && d.vy < 0.0) && d.y + RADIUS > surface.height as real && d.vy > 0.0 ==>
            r.y == surface.height as real - RADIUS && d.vy > -r.vy > 0.0 && r.vy * DAMPING == -d.vy)
      && (!(d.y - RADIUS < 0.0 && d.vy < 0.0) && !(d.y + RADIUS > surface.height as real && d.vy > 0.0) ==>
            r.y == d.y && r.vy == d.vy)
  {
  }

  /** The x outcome of a step depends on nothing of the y axis (position,
      velocity, reading, height) and the y outcome on nothing of the x axis. */
  lemma StepAxesIndependent(b1: Ball, b2: Ball, s1: Sample, s2: Sample, surface1: Surface, surface2: Surface)
    requires b1.t0 == b2.t0 && s1.timestamp == s2.timestamp
    ensures b1.x == b2.x && b1.vx == b2.vx && s1.ax == s2.ax && surface1.width == surface2.width ==>
      Horizontal(Step(b1, s1, surface1).ball) == Horizontal(Step(b2, s2, surface2).ball)
    ensures b1.y == b2.y && b1.vy == b2.vy && s1.ay == s2.ay && surface1.height == surface2.height ==>
      Vertical(Step(b1, s1, surface1).ball) == Vertical(Step(b2, s2, surface2).ball)
  {
  }

  /** The first reading after a surface change leaves the ball centred and
      at rest and draws nothing; the integrator then measures intervals from
      that reading, unless its timestamp is the sentinel 0. */
  lemma FirstReadingAfterReset(surface: Surface, s: Sample)
    ensures var r := Step(Reset(surface), s, surface);
      && !r.redraw
      && r.ball == Reset(surface).(t0 := s.timestamp)
      && (s.timestamp != 0 ==> !AwaitingBaseline(r.ball))
  {
  }
}
