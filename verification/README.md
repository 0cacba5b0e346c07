# AccBall motion step in Dafny

AccBall is a one-screen Android app. It draws a ball on a transparent
surface and rolls it with the accelerometer. All of its logic sits in two
callbacks of `MainActivity`:

- `surfaceChanged` records the surface size, centres the ball, stops it,
  and clears the timestamp of the previous reading.
- `onSensorChanged` turns one accelerometer reading into a new position
  and velocity, bounces the ball off the walls, and redraws.

This project takes those instance fields out into an immutable record,
`AccBall.Ball(x, y, vx, vy, t0)`. The two callbacks become pure functions
over that record:

- `AccBall.Reset(surface)` models `surfaceChanged`.
- `AccBall.Step(ball, sample, surface)` models `onSensorChanged`. It
  returns the new ball and whether a redraw is requested.

The integrator has two states. It is awaiting a baseline when `t0 == 0`.
The first reading in that state only records its timestamp. Every later
reading is integrating, until a reading with timestamp 0 returns the
integrator to awaiting a baseline. An integrating reading:

1. negates the device's x reading and keeps its y reading;
2. measures the interval since the previous reading;
3. applies the constant-acceleration update, scaled by `COEFFICIENT = 1000`;
4. runs a wall check on each axis.

The wall check clamps the ball to exactly `RADIUS = 150` or `size - RADIUS`.
It divides the velocity by `-1.5`. It fires only while the ball overlaps a
wall and still moves outward.

Modules:

- `JavaNum`: Java `int` and `long`. It covers the `long` timestamp
  difference, which wraps around, and `int / 2`, which truncates toward zero.
- `Physics`: one axis. This is the kinematic update and the guarded rebound.
- `AccBall`: the ball record, `Reset`, `Step`, and lemmas about one step.
- `Session`: the activity as a whole. Its state is the ball plus the
  surface-size fields. It handles a sequence of surface changes and readings
  in order. Lemmas by induction cover such sequences.

Java `float` is modelled as `real`, and the `int` surface size becomes a
`real` exactly where the code converts it to `float`. The branch
conditions, the clamp targets and the sign of a rebounded velocity in the
contracts do not depend on rounding. Some facts hold of the real-valued
model only, and single precision can break them:

- `Physics.Kinematic`'s mean-velocity identity, and its
  `r.vel - a.vel == acc * dt`. A tiny `acc * dt` can be absorbed into a
  large velocity.
- The exact damping equation `r.vel * DAMPING == -a.vel` of
  `Physics.Rebound`, `AccBall.StepHorizontal` and `AccBall.StepVertical`.
  The quotient `-v / 1.5f` is rounded.
- The strict sign equivalences of `Physics.Kinematic` and `AccBall.Drift`.
  A tiny `acc * dt` can be absorbed into a large velocity.
- The strict shrink `|r.vel| < |vel|` of `Physics.Rebound`, `AccBall.StepHorizontal`
  and `AccBall.StepVertical`. `-v / 1.5` rounds back to `v`'s magnitude for
  the smallest subnormal.
- The `Session.BallCanLeaveTheSurface` trace values.

The wall check does not keep the ball within
`RADIUS <= x <= width - RADIUS`. A wall fires only while the ball moves
outward. So a ball that crosses a wall within one interval, but is already
moving back, stays outside. `Session.BallCanLeaveTheSurface` exhibits a
concrete trace: the ball ends at `x = -350` on a 1000-pixel-wide surface.

## Model

| member | source | states |
|---|---|---|
| JavaNum.LongSub | app/src/main/java/com/example/accball/MainActivity.java:86 | the timestamp difference is Java `long` subtraction: congruent to the exact difference modulo 2^64, and equal to it when it does not overflow (always for two non-negative timestamps, in either order) |
| JavaNum.HalfInt | app/src/main/java/com/example/accball/MainActivity.java:160-161 | `int / 2` truncates toward zero: the remainder `n - 2r` is 0 or 1 for non-negative sizes and 0 or -1 for negative ones |
| Physics.Kinematic | app/src/main/java/com/example/accball/MainActivity.java:91-100 | the velocity gains `acc * dt`; the displacement is `COEFFICIENT` times the mean of old and new velocity times `dt`; with `dt > 0` the velocity moves in the direction of the acceleration; a ball at rest with no acceleration does not move |
| Physics.Rebound | app/src/main/java/com/example/accball/MainActivity.java:103-109 | low wall first: when `pos - RADIUS < 0` and `vel < 0`, the position becomes exactly `RADIUS` and the velocity is positive, smaller in magnitude, and exactly `-vel/1.5`. Otherwise, when `pos + RADIUS > size` and `vel > 0`, the position becomes exactly `size - RADIUS` and the velocity is negative, smaller, and exactly `-vel/1.5`. Otherwise nothing changes. The velocity changes if and only if one guarded branch fires |
| Physics.ReboundSettles | app/src/main/java/com/example/accball/MainActivity.java:103-116 | on a surface at least `2 * RADIUS` wide, a fired rebound leaves the ball between the walls, and a second wall check changes nothing |
| Physics.InwardBallIsNotClamped | app/src/main/java/com/example/accball/MainActivity.java:103-116 | a ball overlapping the low wall whose velocity already points inward is neither clamped nor reflected |
| AccBall.Reset | app/src/main/java/com/example/accball/MainActivity.java:154-167 | the ball is centred on each axis with truncating integer division (so `size - 2x` is 0 or 1 for non-negative sizes, and `x` is whole); the velocity is zero; the integrator awaits a baseline |
| AccBall.Elapsed | app/src/main/java/com/example/accball/MainActivity.java:86-88 | for non-negative timestamps, in any order, the interval is the nanosecond difference divided by 10^9 (zero or negative for duplicate or out-of-order readings), and it is positive exactly when the new timestamp is later |
| AccBall.Drift | app/src/main/java/com/example/accball/MainActivity.java:78-100 | the x reading is negated and the y reading is kept: over a positive interval, `vx` decreases exactly when the raw x reading is positive, and `vy` increases exactly when the raw y reading is positive. A zero reading leaves a resting axis in place. The previous-timestamp field becomes the reading's timestamp |
| AccBall.Step | app/src/main/java/com/example/accball/MainActivity.java:76-122 | `t0` becomes the reading's timestamp; a redraw is requested exactly when a baseline was already recorded; a baseline reading leaves `x, y, vx, vy` unchanged; the integrator awaits a baseline afterwards exactly when the timestamp is 0 |
| AccBall.StepHorizontal | app/src/main/java/com/example/accball/MainActivity.java:103-109 | in an integrating step the x axis is clamped to exactly `RADIUS`, or to exactly `width - RADIUS`, with the velocity reversed and shrunk by 1.5, only when the drifted ball overlaps that wall and moves outward; otherwise `x, vx` are the plain kinematic update |
| AccBall.StepVertical | app/src/main/java/com/example/accball/MainActivity.java:110-116 | the same for the y axis against the top wall and the bottom wall at `height` |
| AccBall.StepAxesIndependent | app/src/main/java/com/example/accball/MainActivity.java:91-116 | the x result depends only on `x`, `vx`, the x reading, the timestamps and the width. The y result depends only on `y`, `vy`, the y reading, the timestamps and the height |
| AccBall.FirstReadingAfterReset | app/src/main/java/com/example/accball/MainActivity.java:82-85 | the first reading after a reset draws nothing, leaves the ball centred and at rest, and records its timestamp as the baseline |
| Session.Handle | app/src/main/java/com/example/accball/MainActivity.java:154-167 | a surface change records the new size and leaves the integrator awaiting a baseline without drawing; a reading keeps the size, records its timestamp, and draws exactly when a baseline existed. The activity starts as `Session.Initial`, every field at its Java default of zero (lines 29-41), so a reading before the first surface change is taken as a baseline |
| Session.Replay | app/src/main/java/com/example/accball/MainActivity.java:76-122 | handling events in order draws at most one frame per reading |
| Session.EveryTimedReadingDraws | app/src/main/java/com/example/accball/MainActivity.java:82-119 | once a baseline exists, every reading with a nonzero timestamp draws a frame |
| Session.SurfaceChangeCostsOneFrame | app/src/main/java/com/example/accball/MainActivity.java:154-167 | after a surface change followed by n readings with nonzero timestamps, exactly n - 1 frames are drawn against the new size |
| Session.SurfaceChangeForgetsHistory | app/src/main/java/com/example/accball/MainActivity.java:154-167 | a surface change gives the same activity whatever came before it, namely the reset ball together with the new size, so repeating it with the same size is a no-op |
| Session.BaselineIsLastReading | app/src/main/java/com/example/accball/MainActivity.java:82-87 | after any run of readings, the recorded baseline is the timestamp of the last reading |
| Session.RestingBallStaysPut | app/src/main/java/com/example/accball/MainActivity.java:91-116 | a ball at rest that receives only zero readings keeps its exact position and zero velocity, wherever it is |
| Session.BallCanLeaveTheSurface | app/src/main/java/com/example/accball/MainActivity.java:103-116 | on a 1000 x 2000 surface, three readings after a reset (raw x readings 0, 20 and -2.5) take the ball through `x = 400` at `vx = -2` and leave it at `x = -350`, moving right at 0.5, after two frames: the wall check is no bound on the position |

## Left out

- `onCreate`: orientation lock, layout inflation, sensor lookup, surface
  format and bitmap decoding are platform set-up, not logic.
- `surfaceCreated` and `surfaceDestroyed`: sensor registration and
  unregistration are platform calls.
- `onAccuracyChanged`: its body is empty.
- The sensor-type check at line 77 is a guard over a platform object. Every
  modelled reading is an accelerometer reading.
- `drawCanvas`: locking the canvas and drawing the bitmap are external
  rendering. The model keeps only the boolean "redraw requested".
- IEEE-754 single precision: the `long`-to-`float` conversion of the
  interval, the division by 10^9, the division by `1.5f` in each rebound
  (lines 104, 107, 111 and 114), and the rounding of every product and sum
  are exact real arithmetic in the model.
- The `int`-to-`float` conversion of the surface size is exact in the model.
  This covers the centring at lines 160-161 and the wall comparisons and
  clamp targets at lines 106, 108, 113 and 115. `AccBall.Reset`'s "`size - 2x`
  is 0 or 1" is a fact of the real-valued model.
- No bound on the ball's position is claimed. The code gives none (see
  `Session.BallCanLeaveTheSurface`). Nothing is claimed for surfaces
  narrower than `2 * RADIUS`, except where a contract holds for every size.
