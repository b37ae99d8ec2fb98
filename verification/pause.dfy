/** The pause estimate of a motion command (`calc_pause` in controller.py).

    The estimate assumes a trapezoidal velocity profile per axis: accelerate
    at a fixed firmware acceleration up to the feed-derived speed, cruise,
    decelerate, and takes the larger of the X and Y times.  The X and Y
    values fed in are the command's absolute target coordinates, not the
    distances moved.  Arithmetic is exact and nothing is clamped. */
module Pause {
  import opened Options
  import opened GcodeText

  /** The firmware acceleration, in distance units per second squared. */
  const Acceleration: real := 200.0

  function Abs(a: real): real {
    if a < 0.0 then -a else a
  }

  function Max(a: real, b: real): real {
    if a < b then b else a
  }

  /** The estimated duration of a move, or `None` where the Python code
      raises: a missing X, Y or feed (`abs(None)`, `None / 60`) or a zero
      feed (division by zero). */
  function CalcPause(g: Gcode): (r: Option<real>)
    ensures r.Some? <==> g.x.Some? && g.y.Some? && g.feed.Some? && g.feed.value != 0.0
  {
    if g.x.None? || g.y.None? || g.feed.None? || g.feed.value == 0.0 then None
    else
      var speed := g.feed.value / 60.0;
      Some(Max(AxisTime(Abs(g.x.value), speed), AxisTime(Abs(g.y.value), speed)))
  }

  /** The time one axis is estimated to need for distance `d` at `speed`:
      the cruise distance left after both ramps, at `speed`, plus the two
      ramp times. */
  function AxisTime(d: real, speed: real): (t: real)
    requires speed != 0.0
    ensures ProfileDistance(speed, t) == d
  {
    RampAlgebra(d, speed);
    var accelTime := speed / Acceleration;
    var accelDist := 0.5 * Acceleration * (accelTime * accelTime);
    var accelDistTotal := accelDist * 2.0;
    var middle := d - accelDistTotal;
    middle / speed + accelTime * 2.0
  }

  /** The distance covered in time `t` by a symmetric trapezoidal profile
      that ramps up to `speed` and back down at `Acceleration`: the area
      under the speed curve. */
  function ProfileDistance(speed: real, t: real): real
  {
    speed * t - speed * speed / Acceleration
  }

  /** The stepwise computation of `calc_pause` simplifies to |d|/v + v/A,
      and in that time the trapezoidal profile covers exactly d. */
  lemma RampAlgebra(d: real, speed: real)
    requires speed != 0.0
    ensures var accelTime := speed / Acceleration;
            var accelDistTotal := 0.5 * Acceleration * (accelTime * accelTime) * 2.0;
            && (d - accelDistTotal) / speed + accelTime * 2.0 == d / speed + speed / Acceleration
            && ProfileDistance(speed, d / speed + speed / Acceleration) == d
  {
    var accelTime := speed / Acceleration;
    var ramps := speed * speed / Acceleration;
    assert 0.5 * Acceleration * (accelTime * accelTime) * 2.0 == ramps;
    assert ramps / speed == speed / Acceleration;
    assert (d - ramps) / speed == d / speed - ramps / speed;
    assert speed * (d / speed) == d;
    assert speed * (speed / Acceleration) == ramps;
  }

  lemma AxisTimeClosedForm(d: real, speed: real)
    requires speed != 0.0
    ensures AxisTime(d, speed) == d / speed + speed / Acceleration
  {
    RampAlgebra(d, speed);
  }

  /** For a positive feed the estimate is the time the trapezoidal profile
      needs to cover the larger of |X| and |Y|: it is |d|/v + v/A for the
      farther axis, it is positive, and the profile covers exactly that
      distance in that time. */
  lemma PauseCoversFarthestAxis(g: Gcode)
    requires g.x.Some? && g.y.Some? && g.feed.Some? && g.feed.value > 0.0
    ensures var speed := g.feed.value / 60.0;
            var d := Max(Abs(g.x.value), Abs(g.y.value));
            && CalcPause(g) == Some(d / speed + speed / Acceleration)
            && CalcPause(g).value > 0.0
            && ProfileDistance(speed, CalcPause(g).value) == d
  {
    var speed := g.feed.value / 60.0;
    var ax, ay := Abs(g.x.value), Abs(g.y.value);
    AxisTimeClosedForm(ax, speed);
    AxisTimeClosedForm(ay, speed);
    var tx, ty := ax / speed + speed / Acceleration, ay / speed + speed / Acceleration;
    assert CalcPause(g) == Some(Max(tx, ty));
    assert ax <= ay <==> tx <= ty by {
      DivMonotone(ax, ay, speed);
    }
    var d := Max(ax, ay);
    var t := d / speed + speed / Acceleration;
    assert Max(tx, ty) == t;
    assert d / speed >= 0.0;
    assert speed * t == d + speed * speed / Acceleration;
  }

  /** The cruise phase is not clamped: the estimate falls below the two
      ramp times exactly when the farther axis is closer than the distance
      the two ramps alone would cover. */
  lemma ShortMoveNotClamped(g: Gcode)
    requires g.x.Some? && g.y.Some? && g.feed.Some? && g.feed.value > 0.0
    ensures var speed := g.feed.value / 60.0;
            var rampDistance := speed * speed / Acceleration;
            (CalcPause(g).value < 2.0 * (speed / Acceleration)
             <==> Max(Abs(g.x.value), Abs(g.y.value)) < rampDistance)
  {
    var speed := g.feed.value / 60.0;
    var d := Max(Abs(g.x.value), Abs(g.y.value));
    PauseCoversFarthestAxis(g);
    assert speed > 0.0;
    RampComparison(d, speed);
  }

  lemma ScaleStrict(a: real, b: real, k: real)
    requires k > 0.0
    ensures a < b <==> a * k < b * k
  {
    assert (b - a) * k == b * k - a * k;
  }

  lemma DivMonotone(a: real, b: real, k: real)
    requires k > 0.0
    ensures a / k <= b / k <==> a <= b
  {
    ScaleStrict(b / k, a / k, k);
    assert (a / k) * k == a;
    assert (b / k) * k == b;
  }

  lemma RampComparison(d: real, speed: real)
    requires speed > 0.0
    ensures d / speed < speed / Acceleration <==> d < speed * speed / Acceleration
  {
    var lhs, rhs := d / speed, speed / Acceleration;
    ScaleStrict(lhs, rhs, speed);
    assert lhs * speed == d;
    assert rhs * speed == speed * speed / Acceleration;
  }

  /** A 100-unit move at feed 6000 with acceleration 200: a half-second ramp
      each way covering 50 units in all, a half-second cruise, 1.5 seconds
      in total. */
  lemma PauseExample()
    ensures CalcPause(Gcode("G1", Some(100.0), Some(0.0), Some(6000.0))) == Some(1.5)
  {
    PauseCoversFarthestAxis(Gcode("G1", Some(100.0), Some(0.0), Some(6000.0)));
  }

  /** For the return-to-origin command (target 0,0 at feed 4000) the
      estimate is a third of a second: with no distance the negative cruise
      time cancels half of the ramp time.  The loop ends before that pause
      would be waited. */
  lemma HomePause()
    ensures CalcPause(Gcode("G1", Some(0.0), Some(0.0), Some(4000.0))) == Some(1.0 / 3.0)
  {
    PauseCoversFarthestAxis(Gcode("G1", Some(0.0), Some(0.0), Some(4000.0)));
  }
}
