/**
 The activity as a whole: the ball together with the surface size fields,
 driven by a sequence of surface changes and accelerometer readings that
 arrive one at a time. Each redraw requested by a reading is one frame.
 */
module Session {
  import opened AccBall

  datatype Activity = Activity(ball: Ball, surface: Surface)

  datatype Event =
    | SensorChanged(sample: Sample)
    | SurfaceChanged(size: Surface)

  datatype Handled = Handled(activity: Activity, redraw: bool)

  /** The final activity of a replay and the number of frames it drew. */
  datatype Trace = Trace(final: Activity, frames: nat)

  /** The activity before any callback: every field holds its Java default of
      zero, so a reading that arrives before the first surface change is
      taken as a baseline. */
  const Initial: Activity := Activity(Ball(0.0, 0.0, 0.0, 0.0, 0), Surface(0, 0))

  /** A surface change records the new size and resets the ball for it; a
      reading steps the ball against the size last recorded. */
  function Handle(a: Activity, e: Event): (r: Handled)
    ensures e.SurfaceChanged? ==>
      && r.activity.surface == e.size
      && AwaitingBaseline(r.activity.ball) && !r.redraw
    ensures e.SensorChanged? ==>
      && r.activity.surface == a.surface
      && r.activity.ball.t0 == e.sample.timestamp
      && (r.redraw <==> !AwaitingBaseline(a.ball))
  {
    match e
    case SurfaceChanged(size) => Handled(Activity(Reset(size), size), false)
    case SensorChanged(s) =>
      var st := Step(a.ball, s, a.surface);
      Handled(Activity(st.ball, a.surface), st.redraw)
  }

  /** Number of readings in `events`. */
  function Readings(events: seq<Event>): nat {
    if events == [] then 0
    else (if events[0].SensorChanged? then 1 else 0) + Readings(events[1..])
  }

  /** The events handled in order from `a`. */
  function Replay(a: Activity, events: seq<Event>): (r: Trace)
    ensures r.frames <= Readings(events)
    ensures events == [] ==> r == Trace(a, 0)
    decreases |events|
  {
    if events == [] then Trace(a, 0)
    else
      var h := Handle(a, events[0]);
      var rest := Replay(h.activity, events[1..]);
      Trace(rest.final, rest.frames + if h.redraw then 1 else 0)
  }

  /** Every event is a reading whose timestamp is not the sentinel 0. */
  predicate TimedReadings(events: seq<Event>) {
    forall i :: 0 <= i < |events| ==> events[i].SensorChanged? && events[i].sample.timestamp != 0
  }

  /** Every event is a reading of zero on both axes. */
  predicate StillReadings(events: seq<Event>) {
    forall i :: 0 <= i < |events| ==>
      events[i].SensorChanged? && events[i].sample.ax == 0.0 && events[i].sample.ay == 0.0
  }

  /** Once a baseline is recorded, every reading with a real timestamp is
      drawn: no frame is lost after the first one. */
  lemma {:induction false} EveryTimedReadingDraws(a: Activity, events: seq<Event>)
    requires !AwaitingBaseline(a.ball)
    requires TimedReadings(events)
    ensures Replay(a, events).frames == |events|
    ensures Replay(a, events).final.surface == a.surface
    decreases |events|
  {
    if events != [] {
      var h := Handle(a, events[0]);
      assert TimedReadings(events[1..]) by {
        forall i | 0 <= i < |events[1..]|
          ensures events[1..][i].SensorChanged? && events[1..][i].sample.timestamp != 0
        {
          assert events[1..][i] == events[i + 1];
        }
      }
      EveryTimedReadingDraws(h.activity, events[1..]);
    }
  }

  /** After a surface change, exactly one reading (the baseline) goes
      undrawn, and the ball is stepped against the new size. */
  lemma SurfaceChangeCostsOneFrame(a: Activity, size: Surface, events: seq<Event>)
    requires events != []
    requires TimedReadings(events)
    ensures Replay(a, [SurfaceChanged(size)] + events).frames == |events| - 1
    ensures Replay(a, [SurfaceChanged(size)] + events).final.surface == size
  {
    var all := [SurfaceChanged(size)] + events;
    assert all[1..] == events;
    var reset := Activity(Reset(size), size);
    var base := Handle(reset, events[0]).activity;
    assert TimedReadings(events[1..]) by {
      forall i | 0 <= i < |events[1..]|
        ensures events[1..][i].SensorChanged? && events[1..][i].sample.timestamp != 0
      {
        assert events[1..][i] == events[i + 1];
      }
    }
    EveryTimedReadingDraws(base, events[1..]);
  }

  /** A surface change depends only on the new size: it forgets everything
      the activity held before, so repeating it with the same size changes
      nothing. */
  lemma SurfaceChangeForgetsHistory(a1: Activity, a2: Activity, size: Surface)
    ensures Handle(a1, SurfaceChanged(size)) == Handle(a2, SurfaceChanged(size))
    ensures var once := Handle(a1, SurfaceChanged(size));
      Handle(once.activity, SurfaceChanged(size)) == once
    ensures Handle(a1, SurfaceChanged(size)).activity == Activity(Reset(size), size)
  {
  }

  /** After a run of readings the integrator's baseline is the timestamp of
      the last one. */
  lemma {:induction false} BaselineIsLastReading(a: Activity, events: seq<Event>)
    requires events != []
    requires forall i :: 0 <= i < |events| ==> events[i].SensorChanged?
    ensures Replay(a, events).final.ball.t0 == events[|events| - 1].sample.timestamp
    decreases |events|
  {
    var h := Handle(a, events[0]);
    if |events| > 1 {
      var rest := events[1..];
      assert forall i :: 0 <= i < |rest| ==> rest[i] == events[i + 1];
      BaselineIsLastReading(h.activity, rest);
    }
  }

  /** A ball at rest stays exactly where it is for as long as the device
      reports no acceleration, wherever it is and whatever the timestamps. */
  lemma {:induction false} RestingBallStaysPut(a: Activity, events: seq<Event>)
    requires a.ball.vx == 0.0 && a.ball.vy == 0.0
    requires StillReadings(events)
    ensures var b := Replay(a, events).final.ball;
      b.x == a.ball.x && b.y == a.ball.y && b.vx == 0.0 && b.vy == 0.0
    decreases |events|
  {
    if events != [] {
      var h := Handle(a, events[0]);
      var rest := events[1..];
      assert StillReadings(rest) by {
        forall i | 0 <= i < |rest|
          ensures rest[i].SensorChanged? && rest[i].sample.ax == 0.0 && rest[i].sample.ay == 0.0
        {
          assert rest[i] == events[i + 1];
        }
      }
      if !AwaitingBaseline(a.ball) {
        var b := a.ball;
        var s := events[0].sample;
        var d := Drift(b, s);
        assert Horizontal(d) == Horizontal(b) && Vertical(d) == Vertical(b);
        assert h.activity.ball.x == b.x && h.activity.ball.vx == 0.0;
        assert h.activity.ball.y == b.y && h.activity.ball.vy == 0.0;
      }
      RestingBallStaysPut(h.activity, rest);
    }
  }

  /** The wall check is not a bound on the position: on a 1000 x 2000
      surface, a ball that is thrown left and then braked within one interval
      ends 350 pixels beyond the left edge, still moving right, and is left
      there because it is no longer moving outward. */
  lemma BallCanLeaveTheSurface()
    ensures var size := Surface(1000, 2000);
      var events := [SurfaceChanged(size),
                     SensorChanged(Sample(0.0, 0.0, 1_000_000_000)),
                     SensorChanged(Sample(20.0, 0.0, 1_100_000_000)),
                     SensorChanged(Sample(-2.5, 0.0, 2_100_000_000))];
      var t := Replay(Initial, events);
      t.final.ball.x == -350.0 && t.final.ball.vx == 0.5 && t.frames == 2
  {
    var size := Surface(1000, 2000);
    var s1 := Sample(0.0, 0.0, 1_000_000_000);
    var s2 := Sample(20.0, 0.0, 1_100_000_000);
    var s3 := Sample(-2.5, 0.0, 2_100_000_000);
    var b0 := Reset(size);
    assert b0 == Ball(500.0, 1000.0, 0.0, 0.0, 0);
    var b1 := Step(b0, s1, size).ball;
    assert Elapsed(b1.t0, s2.timestamp) == 0.1;
    var b2 := Step(b1, s2, size).ball;
    assert b2 == Ball(400.0, 1000.0, -2.0, 0.0, 1_100_000_000);
    assert Elapsed(b2.t0, s3.timestamp) == 1.0;
    var b3 := Step(b2, s3, size).ball;
    assert b3.x == -350.0 && b3.vx == 0.5;
    var events := [SurfaceChanged(size), SensorChanged(s1), SensorChanged(s2), SensorChanged(s3)];
    assert events[4..] == [] && events[3..][1..] == events[4..];
    assert events[2..][1..] == events[3..] && events[1..][1..] == events[2..];
    assert Replay(Activity(b2, size), events[3..]) == Trace(Activity(b3, size), 1);
    assert Replay(Activity(b1, size), events[2..]) == Trace(Activity(b3, size), 2);
    assert Replay(Activity(b0, size), events[1..]) == Trace(Activity(b3, size), 2);
  }
}
