/** Concrete configurations of the planner and what the general theorems
    say about them. */
module Scenarios {
  import opened Options
  import opened Axes
  import opened GcodeText
  import opened Planner
  import opened Raster
  import opened ScanTrace

  /** The default worker: x range 130, y range derived, ratio 4:3,
      quality 4, primary axis y.  The y range is 130 / (4/3) = 97.5, the
      divisions are 16 and 12, and both steps are 8.125. */
  lemma DefaultSetup()
    ensures var r := Setup(130.0, 0.0, 4, 3, 4, Y, X);
            && r.Ok?
            && r.value.rangeMax == PerAxis(130.0, 97.5)
            && r.value.divisions == PerAxis(16, 12)
            && r.value.step == PerAxis(8.125, 8.125)
  {
    var r := Setup(130.0, 0.0, 4, 3, 4, Y, X);
    assert r.value.rangeMax.y * Ratio(4, 3) == 130.0;
  }

  /** The default scan sweeps y (12 divisions) across 16 even x
      divisions: it commands every one of the 13 * 17 grid points other
      than the origin during the sweeps, then the corner again and the
      return home, 222 commands in all, and stops. */
  lemma DefaultScan()
    ensures var c := Setup(130.0, 0.0, 4, 3, 4, Y, X).value;
            var cmds := Run(c, Start, 222).1;
            && WellFormed(c)
            && PriDivs(c) == 12 && SecDivs(c) == 16
            && LastTick(PriDivs(c), SecDivs(c)) + 1 == 13 * 17
            && |cmds| == 222
            && !Run(c, Start, 222).0.active
            && (forall cell :: InGrid(12, 17, cell) && cell != Cell(0, 0) ==>
                  exists t :: 0 <= t < 220 && cmds[t] == MoveTo(c, Place(c, cell)))
            && cmds[220] == MoveTo(c, Place(c, Cell(12, 16)))
            && cmds[221] == Home
  {
    DefaultSetup();
    var c := Setup(130.0, 0.0, 4, 3, 4, Y, X).value;
    SetupWellFormed(130.0, 0.0, 4, 3, 4, Y, X);
    EvenCoversGrid(12, 16);
    WholeScan(c);
    forall cell | InGrid(12, 17, cell) && cell != Cell(0, 0)
      ensures exists t :: 0 <= t < 220 && Run(c, Start, 222).1[t] == MoveTo(c, Place(c, cell))
    {
      EvenScanVisitsEveryCell(c, cell);
    }
    DefaultTail(c);
  }

  /** The last two commands of a scan on 12 by 16 divisions: the far
      corner again, then home. */
  lemma DefaultTail(c: ScanConfig)
    requires WellFormed(c) && PriDivs(c) == 12 && SecDivs(c) == 16
    ensures var cmds := Run(c, Start, 222).1;
            && |cmds| == 222
            && cmds[220] == MoveTo(c, Place(c, Cell(12, 16)))
            && cmds[221] == Home
  {
    assert LastTick(12, 16) == 220;
    WholeScan(c);
  }

  /** x range 120, ratio 4:3, quality 3, x primary: the y range is 90,
      the divisions are 12 and 9, and both steps are 10. */
  lemma OddSetup()
    ensures var r := Setup(120.0, 0.0, 4, 3, 3, X, Y);
            && r.Ok?
            && r.value.rangeMax == PerAxis(120.0, 90.0)
            && r.value.divisions == PerAxis(12, 9)
            && r.value.step == PerAxis(10.0, 10.0)
  {
    var r := Setup(120.0, 0.0, 4, 3, 3, X, Y);
    assert r.value.rangeMax.y * Ratio(4, 3) == 120.0;
  }

  /** With 9 divisions of y, an odd number, the scan stops after the
      turnover onto the last row, so the point x = 0, y = 90 on that row
      is never commanded. */
  lemma OddScanExample()
    ensures var c := Setup(120.0, 0.0, 4, 3, 3, X, Y).value;
            var (r, cmds) := Run(c, Start, 119);
            && !r.active
            && forall t :: 0 <= t < |cmds| ==> cmds[t] != Gcode("G1", Some(0.0), Some(90.0), Some(ScanFeed))
  {
    var c := Setup(120.0, 0.0, 4, 3, 3, X, Y).value;
    SetupWellFormed(120.0, 0.0, 4, 3, 3, X, Y);
    OddSetup();
    assert LastTick(12, 9) + 2 == 119;
    OddScanSkipsLastRow(c, 0);
    OddCorner(c);
    var cmds := Run(c, Start, 119).1;
    var g := MoveTo(c, Place(c, Cell(0, 9)));
    assert forall t :: 0 <= t < |cmds| ==> cmds[t] != g;
  }

  /** The unvisited point is x = 0, y = 90. */
  lemma OddCorner(c: ScanConfig)
    requires c.pri == X && c.sec == Y && c.step.y == 10.0
    ensures MoveTo(c, Place(c, Cell(0, 9))) == Gcode("G1", Some(0.0), Some(90.0), Some(ScanFeed))
  {
    var p := Place(c, Cell(0, 9));
    assert p.Get(X) == 0.0 && p.Get(Y) == 90.0;
  }

  /** 2^49: the spacing of doubles in [8, 16) is 1 / Pow49. */
  const Pow49: real := 562949953421312.0

  /** 2^50: half that spacing is 1 / Pow50. */
  const Pow50: real := 1125899906842624.0

  /** The configuration Python builds for x range 130 (an `int`), ratio
      4:3, quality 3, x primary.  The derived y range and its step are
      exact `Fraction`s, but the x step is `130 / 12` evaluated as a float
      before it becomes a `Fraction`: the double 6098624495397547 / 2^49.
      The contract says it is the double nearest 130/12: it lies in the
      binade [8, 16), where doubles are 2^-49 apart, within half of that
      spacing of 130/12, and it is not 130/12 itself. */
  function FloatStepConfig(): (c: ScanConfig)
    ensures c.pri == X && c.sec == Y
    ensures c.rangeMax == PerAxis(130.0, 97.5) && c.divisions == PerAxis(12, 9)
    ensures c.step.y * 9.0 == 97.5
    ensures 8.0 <= c.step.x < 16.0
    ensures (c.step.x * Pow49).Floor as real == c.step.x * Pow49
    ensures -1.0 <= (c.step.x - 130.0 / 12.0) * Pow50 <= 1.0
    ensures c.step.x * 12.0 != 130.0
  {
    ScanConfig(PerAxis(130.0, 97.5), PerAxis(12, 9),
               PerAxis(6098624495397547.0 / Pow49, 97.5 / 9.0), X, Y)
  }

  /** With that float step the x position after k steps is never exactly
      130, so the turnover and completion tests never fire and the scan
      never stops: after any number n of iterations the worker is still
      active, n commands have gone out, and x has run to n steps, past
      130 from the thirteenth iteration on. */
  lemma FloatStepNeverStops(n: nat)
    ensures var c := FloatStepConfig();
            var (r, cmds) := Run(c, Start, n);
            && |cmds| == n && r.active
            && r.pos.x == n as real * c.step.x
            && r.pos.y == 0.0
  {
    var c := FloatStepConfig();
    forall k: nat
      ensures Multiple(k, c.step.Get(c.pri)) != c.rangeMax.Get(c.pri)
    {
      FloatStepMisses(k);
    }
    MissedMaximumNeverStops(c, n);
  }

  lemma FloatStepMisses(k: nat)
    ensures k as real * (6098624495397547.0 / Pow49) != 130.0
  {
  }

  /** With the constructor's default order, y primary and x secondary, the
      same float x step misses the secondary maximum instead: the sweeps
      turn over as usual, but x never equals 130, so the completion test
      never fires and the scan never stops. */
  lemma FloatSecondaryNeverStops(n: nat)
    ensures var c := FloatStepConfig().(pri := Y, sec := X);
            var (r, cmds) := Run(c, Start, n);
            && |cmds| == n && r.active
  {
    var c := FloatStepConfig().(pri := Y, sec := X);
    forall k: nat
      ensures Multiple(k, c.step.Get(c.sec)) != c.rangeMax.Get(c.sec)
    {
      FloatStepMisses(k);
    }
    MissedSecondaryNeverStops(c, n);
  }

  /** The exact model of the same configuration: the x step is the
      `Fraction` 130/12, and the scan stops after 119 iterations. */
  lemma ExactStepStops()
    ensures var c := Setup(130.0, 0.0, 4, 3, 3, X, Y).value;
            && c.step.x * 12.0 == 130.0
            && !Run(c, Start, 119).0.active
  {
    var c := Setup(130.0, 0.0, 4, 3, 3, X, Y).value;
    SetupWellFormed(130.0, 0.0, 4, 3, 3, X, Y);
    ExactSetup();
    ExactScanStops(c);
  }

  lemma ExactSetup()
    ensures var r := Setup(130.0, 0.0, 4, 3, 3, X, Y);
            && r.Ok? && r.value.divisions == PerAxis(12, 9) && r.value.pri == X && r.value.sec == Y
            && r.value.step.x * 12.0 == 130.0
  {
    var r := Setup(130.0, 0.0, 4, 3, 3, X, Y);
    assert r.value.rangeMax.x == 130.0;
  }

  lemma ExactScanStops(c: ScanConfig)
    requires WellFormed(c) && c.divisions == PerAxis(12, 9) && c.pri == X && c.sec == Y
    ensures !Run(c, Start, 119).0.active
  {
    assert LastTick(PriDivs(c), SecDivs(c)) + 2 == 119;
    WholeScan(c);
  }

  /** Both ranges zero is not rejected: every step is zero, the first
      iteration stays at the origin, the second finds both axes at their
      (zero) maxima and completes, and the third returns home. */
  lemma ZeroRangeScan(ratioNum: int, ratioDen: int, quality: int, pri: Axis, sec: Axis)
    requires ratioNum != 0 && ratioDen != 0 && quality != 0 && pri != sec
    ensures Setup(0.0, 0.0, ratioNum, ratioDen, quality, pri, sec).Ok?
    ensures var c := Setup(0.0, 0.0, ratioNum, ratioDen, quality, pri, sec).value;
            var origin := Gcode("G1", Some(0.0), Some(0.0), Some(ScanFeed));
            && Run(c, Start, 3).1 == [origin, origin, Home]
            && !Run(c, Start, 3).0.active
  {
    var c := Setup(0.0, 0.0, ratioNum, ratioDen, quality, pri, sec).value;
    assert c.step.x == 0.0 && c.step.y == 0.0;
    var (s1, g1) := Step(c, Start);
    assert s1.pos == PerAxis(0.0, 0.0);
    var (s2, g2) := Step(c, s1);
    assert s2.complete && s2.pos == PerAxis(0.0, 0.0);
    RunUnfold(c, Start, 3);
    RunUnfold(c, s1, 2);
    HomeAfterComplete(c, s2, 1);
  }
}
