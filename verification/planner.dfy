/** The boustrophedon raster planner of `DeviceWorker` (controller.py):
    the derivation of ranges, divisions and step sizes from the
    configuration, and one iteration of the scan loop as a pure transition
    `Step` from a scan state to the next state and the command it emits.

    Positions, ranges and steps are exact rationals (`real`), as in the
    Python code's `Fraction` arithmetic, so the equality tests that turn the
    primary axis over and end the scan are exact. */
module Planner {
  import opened Options
  import opened Axes
  import opened GcodeText

  /** The lower end of every axis (`range_min`). */
  const RangeMin: real := 0.0

  /** Feed rate of every scan move. */
  const ScanFeed: real := 6000.0

  /** Feed rate of the return to the origin after the scan. */
  const HomeFeed: real := 4000.0

  /** The command that ends a scan: back to the origin at `HomeFeed`. */
  const Home: Gcode := Gcode("G1", Some(0.0), Some(0.0), Some(HomeFeed))

  /** The derived scan parameters and the axis order: `pri` is swept back
      and forth, `sec` is stepped once per sweep. */
  datatype ScanConfig = ScanConfig(
    rangeMax: PerAxis<real>,
    divisions: PerAxis<int>,
    step: PerAxis<real>,
    pri: Axis,
    sec: Axis)

  /** Python raises `ZeroDivisionError` for a zero ratio component or a zero
      quality. */
  datatype SetupError = ZeroDivision

  /** The ratio `num/den` as an exact rational. */
  function Ratio(num: int, den: int): real
    requires den != 0
  {
    num as real / den as real
  }

  /** The constructor's derivations.  A non-zero range is kept; a zero range
      is the other range divided by the ratio.  Each axis gets its ratio
      component times `quality` divisions, and the step is the range over
      the divisions. */
  function Setup(xRange: real, yRange: real, ratioNum: int, ratioDen: int, quality: int, pri: Axis, sec: Axis)
    : (r: Result<ScanConfig, SetupError>)
    ensures r.Err? <==> ratioNum == 0 || ratioDen == 0 || quality == 0
    ensures r.Ok? ==>
      var c := r.value;
      var ratio := Ratio(ratioNum, ratioDen);
      && c.pri == pri && c.sec == sec
      && (xRange != 0.0 ==> c.rangeMax.x == xRange)
      && (xRange == 0.0 ==> c.rangeMax.x * ratio == yRange)
      && (yRange != 0.0 ==> c.rangeMax.y == yRange)
      && (yRange == 0.0 ==> c.rangeMax.y * ratio == xRange)
      && c.divisions == PerAxis(ratioNum * quality, ratioDen * quality)
      && (forall a :: c.rangeMax.Get(a) == c.divisions.Get(a) as real * c.step.Get(a))
  {
    if ratioDen == 0 then Err(ZeroDivision)
    else
      var ratio := Ratio(ratioNum, ratioDen);
      if ratio == 0.0 && (xRange == 0.0 || yRange == 0.0) then Err(ZeroDivision)
      else
        var rangeMax := PerAxis(
          if xRange != 0.0 then xRange else yRange / ratio,
          if yRange != 0.0 then yRange else xRange / ratio);
        var divisions := PerAxis(ratioNum * quality, ratioDen * quality);
        ProductZero(ratioNum, quality);
        ProductZero(ratioDen, quality);
        if divisions.x == 0 || divisions.y == 0 then Err(ZeroDivision)
        else
          var step := PerAxis(rangeMax.x / divisions.x as real, rangeMax.y / divisions.y as real);
          DivTimes(rangeMax.x, divisions.x as real);
          DivTimes(rangeMax.y, divisions.y as real);
          assert ratio != 0.0;
          DivTimes(yRange, ratio);
          DivTimes(xRange, ratio);
          Ok(ScanConfig(rangeMax, divisions, step, pri, sec))
  }

  lemma ProductZero(a: int, b: int)
    ensures a * b == 0 <==> a == 0 || b == 0
  {
    if a != 0 && b != 0 {
      if a > 0 && b > 0 { assert a * b >= b; }
      else if a > 0 { assert a * b <= b; }
      else if b > 0 { assert a * b <= a; }
      else { assert a * b >= -a; }
    }
  }

  lemma DivTimes(a: real, d: real)
    requires d != 0.0
    ensures a == d * (a / d) && a == (a / d) * d
  {
  }

  /** The per-iteration scan state: the position and direction of each axis,
      the first-iteration flag, the turnover flag, the completion flag, the
      `active` flag that keeps the loop running, and the sample count. */
  datatype ScanState = ScanState(
    pos: PerAxis<real>,
    dir: PerAxis<int>,
    init: bool,
    pathEnd: bool,
    complete: bool,
    active: bool,
    count: nat)

  /** The state when the loop starts after `activate()`: origin, both
      directions +1, first iteration pending. */
  const Start: ScanState := ScanState(PerAxis(0.0, 0.0), PerAxis(1, 1), true, false, false, true, 0)

  /** The scan command for a position.  The code builds it separately for
      each primary axis so that X and Y always carry the X and Y
      positions. */
  function MoveTo(c: ScanConfig, pos: PerAxis<real>): (g: Gcode)
    ensures c.pri != c.sec ==> g == Gcode("G1", Some(pos.x), Some(pos.y), Some(ScanFeed))
  {
    if c.pri == Y then Gcode("G1", Some(pos.Get(c.sec)), Some(pos.Get(c.pri)), Some(ScanFeed))
    else Gcode("G1", Some(pos.Get(c.pri)), Some(pos.Get(c.sec)), Some(ScanFeed))
  }

  /** The outcome of the end-of-sweep tests of one iteration: whether the
      scan is complete, the directions after any reversal, and whether the
      primary axis turned over. */
  datatype Checks = Checks(complete: bool, dir: PerAxis<int>, pathEnd: bool)

  /** The tests of one iteration, skipped on the first: completion when
      both axes stand at their maxima, otherwise a reversal of the primary
      direction to +1 at the lower end or to -1 at the maximum, which marks
      a turnover. */
  function RunChecks(c: ScanConfig, s: ScanState): (k: Checks)
    ensures s.complete ==> k.complete
    ensures k.complete && !s.complete ==>
              !s.init && s.pos.Get(c.pri) == c.rangeMax.Get(c.pri) && s.pos.Get(c.sec) == c.rangeMax.Get(c.sec)
    ensures c.pri != c.sec ==> k.dir.Get(c.sec) == s.dir.Get(c.sec)
    ensures k.pathEnd && !s.pathEnd ==>
              && !s.init && k.complete == s.complete
              && ((s.pos.Get(c.pri) == RangeMin && k.dir.Get(c.pri) == 1)
                  || (s.pos.Get(c.pri) == c.rangeMax.Get(c.pri) && k.dir.Get(c.pri) == -1))
  {
    var p, q := c.pri, c.sec;
    if s.init then Checks(s.complete, s.dir, s.pathEnd)
    else if s.pos.Get(p) == c.rangeMax.Get(p) && s.pos.Get(q) == c.rangeMax.Get(q) then Checks(true, s.dir, s.pathEnd)
    else if s.pos.Get(p) == RangeMin && s.dir.Get(p) != 1 then Checks(s.complete, s.dir.Set(p, 1), true)
    else if s.pos.Get(p) == c.rangeMax.Get(p) && s.dir.Get(p) != -1 then Checks(s.complete, s.dir.Set(p, -1), true)
    else Checks(s.complete, s.dir, s.pathEnd)
  }

  /** The move of one iteration: the secondary axis steps on a turnover,
      otherwise the primary axis steps unless the scan is complete. */
  function Advance(c: ScanConfig, pos: PerAxis<real>, k: Checks): (r: PerAxis<real>)
    ensures c.pri != c.sec ==> r.Get(c.pri) == pos.Get(c.pri) || r.Get(c.sec) == pos.Get(c.sec)
    ensures k.complete && !k.pathEnd ==> r == pos
  {
    var p, q := c.pri, c.sec;
    if k.pathEnd then pos.Set(q, pos.Get(q) + c.step.Get(q) * k.dir.Get(q) as real)
    else if !k.complete then pos.Set(p, pos.Get(p) + c.step.Get(p) * k.dir.Get(p) as real)
    else pos
  }

  /** One iteration of the scan loop while the worker is active.  A state
      marked complete emits the return to the origin and deactivates.
      Otherwise the tests run, one axis advances, and the command for the
      resulting position is emitted. */
  function Step(c: ScanConfig, s: ScanState): (r: (ScanState, Gcode))
    requires s.active
    ensures r.1 == Home <==> s.complete
    ensures r.0.active <==> !s.complete
    ensures !s.complete ==> !r.0.init && !r.0.pathEnd && r.0.count == s.count + 1
  {
    if s.complete then (s.(active := false), Home)
    else
      var k := RunChecks(c, s);
      var pos := Advance(c, s.pos, k);
      (ScanState(pos, k.dir, false, false, k.complete, true, s.count + 1), MoveTo(c, pos))
  }

  /** Up to `fuel` iterations of the loop, stopping once the worker is no
      longer active: the final state and the commands emitted, in order. */
  function Run(c: ScanConfig, s: ScanState, fuel: nat): (r: (ScanState, seq<Gcode>))
    ensures |r.1| <= fuel
    ensures |r.1| < fuel ==> !r.0.active
    decreases fuel
  {
    if fuel == 0 || !s.active then (s, [])
    else
      var (s1, g) := Step(c, s);
      var (s2, gs) := Run(c, s1, fuel - 1);
      (s2, [g] + gs)
  }

  /** An active state with fuel left takes one step and runs on. */
  lemma RunUnfold(c: ScanConfig, s: ScanState, fuel: nat)
    requires s.active && fuel > 0
    ensures var (s1, g) := Step(c, s);
            Run(c, s, fuel) == (Run(c, s1, fuel - 1).0, [g] + Run(c, s1, fuel - 1).1)
  {
  }

  /** Running for `a + b` iterations is running for `a` and then for `b`
      more from where the first run stopped. */
  lemma {:induction false} RunSplit(c: ScanConfig, s: ScanState, a: nat, b: nat)
    ensures var (s1, g1) := Run(c, s, a);
            var (s2, g2) := Run(c, s1, b);
            Run(c, s, a + b) == (s2, g1 + g2)
    decreases a
  {
    if a == 0 {
      assert [] + Run(c, s, b).1 == Run(c, s, b).1;
    } else if !s.active {
      assert Run(c, s, a) == (s, []);
      assert Run(c, s, b) == (s, []);
      assert Run(c, s, a + b) == (s, []);
      var none: seq<Gcode> := [];
      assert none + none == none;
    } else {
      var (s1, g) := Step(c, s);
      RunUnfold(c, s, a);
      RunUnfold(c, s, a + b);
      RunSplit(c, s1, a - 1, b);
      var (t1, h1) := Run(c, s1, a - 1);
      assert [g] + (h1 + Run(c, t1, b).1) == ([g] + h1) + Run(c, t1, b).1;
    }
  }

  /** A scan state whose directions are the code's: secondary +1, primary
      +1 or -1, and no turnover pending between iterations. */
  ghost predicate Disciplined(c: ScanConfig, s: ScanState)
  {
    && s.dir.Get(c.sec) == 1
    && (s.dir.Get(c.pri) == 1 || s.dir.Get(c.pri) == -1)
    && !s.pathEnd
  }

  /** The first iteration runs no completion or turnover test: the primary
      axis advances one step in the +1 direction, the secondary stays at
      the origin, and that position is commanded at the scan feed. */
  lemma FirstTick(c: ScanConfig)
    requires c.pri != c.sec
    ensures var (s, g) := Step(c, Start);
            && s.pos.Get(c.pri) == c.step.Get(c.pri)
            && s.pos.Get(c.sec) == 0.0
            && s.dir == Start.dir
            && !s.init && !s.complete && s.active && s.count == 1
            && g == Gcode("G1", Some(s.pos.x), Some(s.pos.y), Some(ScanFeed))
  {
  }

  /** After the first iteration the scan completes on a tick exactly when
      both axes stand at their maxima, and the completing tick moves
      nothing. */
  lemma CompletionTest(c: ScanConfig, s: ScanState)
    requires s.active && !s.complete && !s.init && !s.pathEnd
    ensures var (r, g) := Step(c, s);
            && (r.complete <==> s.pos.Get(c.pri) == c.rangeMax.Get(c.pri) && s.pos.Get(c.sec) == c.rangeMax.Get(c.sec))
            && (r.complete ==> r.pos == s.pos && r.dir == s.dir && r.active)
  {
  }

  /** The first iteration never completes. */
  lemma FirstTickNeverCompletes(c: ScanConfig, s: ScanState)
    requires s.active && !s.complete && s.init
    ensures !Step(c, s).0.complete
  {
  }

  /** The iteration after completion emits exactly the return to the origin
      at the home feed and deactivates the worker, so the run stops. */
  lemma HomeAfterComplete(c: ScanConfig, s: ScanState, fuel: nat)
    requires s.active && s.complete
    ensures var (r, g) := Step(c, s);
            g == Home && !r.active && r.pos == s.pos && r.count == s.count
    ensures fuel >= 1 ==> Run(c, s, fuel) == (s.(active := false), [Home])
  {
    if fuel >= 1 {
      var off := s.(active := false);
      assert Step(c, s) == (off, Home);
      assert Run(c, off, fuel - 1) == (off, []);
      assert [Home] + [] == [Home];
    }
  }

  /** Every command a scan tick emits carries the X and Y positions after
      the tick and the scan feed, whichever axis is primary; a completed
      state emits the return to the origin. */
  lemma EmittedCommand(c: ScanConfig, s: ScanState)
    requires s.active && c.pri != c.sec
    ensures var (r, g) := Step(c, s);
            g == if s.complete then Home else Gcode("G1", Some(r.pos.x), Some(r.pos.y), Some(ScanFeed))
  {
  }

  /** Each iteration moves at most one axis by one step.  A tick that
      reverses the primary direction (a turnover) moves only the secondary
      axis, by its step times its direction; any other tick that does not
      complete moves only the primary axis, by its step times its
      direction. */
  lemma OneAxisPerTick(c: ScanConfig, s: ScanState)
    requires s.active && !s.complete && !s.pathEnd && c.pri != c.sec
    ensures var (r, g) := Step(c, s);
            var p, q := c.pri, c.sec;
            && (r.dir.Get(p) != s.dir.Get(p) ==>
                  && r.pos.Get(q) == s.pos.Get(q) + c.step.Get(q) * s.dir.Get(q) as real
                  && r.pos.Get(p) == s.pos.Get(p))
            && (r.dir.Get(p) == s.dir.Get(p) && !r.complete ==>
                  && r.pos.Get(p) == s.pos.Get(p) + c.step.Get(p) * s.dir.Get(p) as real
                  && r.pos.Get(q) == s.pos.Get(q))
  {
  }

  /** Only the primary direction is ever reassigned, and only to +1 at the
      lower end or to -1 at the maximum; the secondary direction is never
      touched. */
  lemma DirectionChanges(c: ScanConfig, s: ScanState)
    requires s.active && c.pri != c.sec
    ensures var (r, g) := Step(c, s);
            && r.dir.Get(c.sec) == s.dir.Get(c.sec)
            && (r.dir.Get(c.pri) != s.dir.Get(c.pri) ==>
                  || (s.pos.Get(c.pri) == RangeMin && r.dir.Get(c.pri) == 1)
                  || (s.pos.Get(c.pri) == c.rangeMax.Get(c.pri) && r.dir.Get(c.pri) == -1))
  {
  }

  /** A run from the start state keeps the directions disciplined for ever:
      the secondary direction is +1 in every state the loop reaches. */
  lemma {:induction false} RunKeepsDirections(c: ScanConfig, s: ScanState, fuel: nat)
    requires c.pri != c.sec && Disciplined(c, s)
    ensures Disciplined(c, Run(c, s, fuel).0)
    decreases fuel
  {
    if fuel > 0 && s.active {
      var (s1, g) := Step(c, s);
      DirectionChanges(c, s);
      RunKeepsDirections(c, s1, fuel - 1);
    }
  }

  /** The secondary axis never reverses during a scan. */
  lemma SecondaryNeverReverses(c: ScanConfig, fuel: nat)
    requires c.pri != c.sec
    ensures Run(c, Start, fuel).0.dir.Get(c.sec) == 1
  {
    RunKeepsDirections(c, Start, fuel);
  }

  /** `k` whole steps of size `step`. */
  function Multiple(k: nat, step: real): real
  {
    k as real * step
  }

  /** A state of the first sweep when the primary maximum is never hit:
      still active, directions (+1, +1), the primary axis at a whole number
      of steps equal to the sample count, the secondary axis at the
      origin. */
  ghost predicate OutboundSweep(c: ScanConfig, s: ScanState)
  {
    && s.active && !s.complete && !s.pathEnd
    && s.dir == PerAxis(1, 1)
    && s.pos.Get(c.pri) == Multiple(s.count, c.step.Get(c.pri))
    && s.pos.Get(c.sec) == 0.0
  }

  lemma {:induction false} OutboundSweepForever(c: ScanConfig, s: ScanState, n: nat)
    requires c.pri != c.sec
    requires forall k: nat :: Multiple(k, c.step.Get(c.pri)) != c.rangeMax.Get(c.pri)
    requires OutboundSweep(c, s)
    ensures var (r, cmds) := Run(c, s, n);
            && |cmds| == n && OutboundSweep(c, r) && r.count == s.count + n
    decreases n
  {
    if n > 0 {
      var p := c.pri;
      assert s.pos.Get(p) != c.rangeMax.Get(p);
      assert RunChecks(c, s) == Checks(false, s.dir, false);
      var (s1, g) := Step(c, s);
      assert s1.pos.Get(p) == s.pos.Get(p) + c.step.Get(p) * 1 as real;
      assert s1.pos.Get(p) == Multiple(s.count + 1, c.step.Get(p));
      assert s1.pos.Get(c.sec) == 0.0;
      RunUnfold(c, s, n);
      OutboundSweepForever(c, s1, n - 1);
    }
  }

  /** When the primary maximum is not a whole number of primary steps, the
      completion and turnover tests never fire: the primary axis runs past
      its maximum for ever, the secondary axis never moves, and every
      iteration emits a command without the worker ever deactivating. */
  lemma MissedMaximumNeverStops(c: ScanConfig, n: nat)
    requires c.pri != c.sec
    requires forall k: nat :: Multiple(k, c.step.Get(c.pri)) != c.rangeMax.Get(c.pri)
    ensures var (r, cmds) := Run(c, Start, n);
            && |cmds| == n && r.active
            && r.pos.Get(c.pri) == n as real * c.step.Get(c.pri)
            && r.pos.Get(c.sec) == 0.0
  {
    assert Start.pos.Get(c.pri) == Multiple(0, c.step.Get(c.pri));
    assert Start.pos.Get(c.sec) == 0.0;
    OutboundSweepForever(c, Start, n);
  }

  /** A running state whose secondary axis stands at `j` whole secondary
      steps and still moves forward. */
  ghost predicate SecondaryOnGrid(c: ScanConfig, s: ScanState, j: nat)
  {
    && s.active && !s.complete && !s.pathEnd
    && s.dir.Get(c.sec) == 1
    && s.pos.Get(c.sec) == Multiple(j, c.step.Get(c.sec))
  }

  lemma {:induction false} SecondaryOffGridForever(c: ScanConfig, s: ScanState, j: nat, n: nat)
    requires c.pri != c.sec
    requires forall k: nat :: Multiple(k, c.step.Get(c.sec)) != c.rangeMax.Get(c.sec)
    requires SecondaryOnGrid(c, s, j)
    ensures var (r, cmds) := Run(c, s, n);
            && |cmds| == n && r.active && r.count == s.count + n
    decreases n
  {
    if n > 0 {
      var p, q := c.pri, c.sec;
      var k := RunChecks(c, s);
      assert s.pos.Get(q) != c.rangeMax.Get(q);
      assert !k.complete && k.dir.Get(q) == 1;
      var (s1, g) := Step(c, s);
      if k.pathEnd {
        assert s1.pos.Get(q) == Multiple(j, c.step.Get(q)) + c.step.Get(q) * 1 as real;
        assert s1.pos.Get(q) == Multiple(j + 1, c.step.Get(q));
        RunUnfold(c, s, n);
        SecondaryOffGridForever(c, s1, j + 1, n - 1);
      } else {
        assert s1.pos.Get(q) == s.pos.Get(q) by { assert q == Other(p); }
        RunUnfold(c, s, n);
        SecondaryOffGridForever(c, s1, j, n - 1);
      }
    }
  }

  /** When the secondary maximum is not a whole number of secondary steps,
      the completion test never fires: the scan keeps sweeping and turning
      over past the secondary maximum, and after any number n of
      iterations the worker is still active with n commands sent. */
  lemma MissedSecondaryNeverStops(c: ScanConfig, n: nat)
    requires c.pri != c.sec
    requires forall k: nat :: Multiple(k, c.step.Get(c.sec)) != c.rangeMax.Get(c.sec)
    ensures var (r, cmds) := Run(c, Start, n);
            && |cmds| == n && r.active && r.count == n
  {
    assert Start.pos.Get(c.sec) == Multiple(0, c.step.Get(c.sec));
    SecondaryOffGridForever(c, Start, 0, n);
  }
}
