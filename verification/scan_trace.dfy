/** The whole scan: from the start state the planner commands the cells of
    the boustrophedon order one per iteration, repeats the far corner on
    the iteration that detects completion, returns to the origin and
    stops.

    With an even number of secondary divisions the commanded cells are the
    whole grid; with an odd number the planner reaches the far corner on
    the turnover onto the last row, the completion test fires there, and
    the rest of that row is never commanded. */
module ScanTrace {
  import opened Options
  import opened Axes
  import opened GcodeText
  import opened Planner
  import opened Raster

  /** A configuration the scan theorems apply to: distinct axes, at least
      one division per axis, non-zero steps, and each maximum exactly its
      divisions times its step (as `Setup` guarantees). */
  ghost predicate WellFormed(c: ScanConfig)
  {
    && c.pri != c.sec
    && c.divisions.Get(c.pri) >= 1 && c.divisions.Get(c.sec) >= 1
    && c.step.Get(c.pri) != 0.0 && c.step.Get(c.sec) != 0.0
    && c.rangeMax.Get(c.pri) == c.divisions.Get(c.pri) as real * c.step.Get(c.pri)
    && c.rangeMax.Get(c.sec) == c.divisions.Get(c.sec) as real * c.step.Get(c.sec)
  }

  /** Divisions of the primary axis. */
  function PriDivs(c: ScanConfig): nat
    requires WellFormed(c)
  {
    c.divisions.Get(c.pri)
  }

  /** Divisions of the secondary axis. */
  function SecDivs(c: ScanConfig): nat
    requires WellFormed(c)
  {
    c.divisions.Get(c.sec)
  }

  /** The position of a grid cell: `i` primary steps and `j` secondary
      steps from the origin. */
  function Place(c: ScanConfig, cell: Cell): (pos: PerAxis<real>)
    requires c.pri != c.sec
    ensures pos.Get(c.pri) == cell.i as real * c.step.Get(c.pri)
    ensures pos.Get(c.sec) == cell.j as real * c.step.Get(c.sec)
  {
    PerAxis(0.0, 0.0).Set(c.pri, cell.i as real * c.step.Get(c.pri)).Set(c.sec, cell.j as real * c.step.Get(c.sec))
  }

  /** The primary direction while sweeping row `j`. */
  function RowDir(j: nat): int
  {
    if j % 2 == 0 then 1 else -1
  }

  /** The scan state after the iteration that commanded offset `k` of row
      `j` (tick j*(dP+1)+k, counting the start state as tick 0). */
  function GridState(c: ScanConfig, j: nat, k: nat): ScanState
    requires WellFormed(c) && k <= PriDivs(c)
  {
    ScanState(
      Place(c, RowCell(PriDivs(c), j, k)),
      PerAxis(1, 1).Set(c.pri, RowDir(j)),
      j == 0 && k == 0,
      false, false, true,
      RowTick(PriDivs(c), j, k))
  }

  lemma PerAxisEq<T>(c: ScanConfig, a: PerAxis<T>, b: PerAxis<T>)
    requires c.pri != c.sec
    requires a.Get(c.pri) == b.Get(c.pri) && a.Get(c.sec) == b.Get(c.sec)
    ensures a == b
  {
    assert c.sec == Other(c.pri);
  }

  lemma ScaleEq(a: int, b: int, s: real)
    requires s != 0.0
    ensures a as real * s == b as real * s <==> a == b
  {
    if a as real * s == b as real * s {
      assert (a - b) as real * s == 0.0;
    }
  }

  lemma AdvanceIndex(i: int, s: real, d: int)
    ensures i as real * s + s * d as real == (i + d) as real * s
  {
  }

  /** The start state is the grid state of tick 0. */
  lemma StartIsGridOrigin(c: ScanConfig)
    requires WellFormed(c)
    ensures Start == GridState(c, 0, 0)
  {
    PerAxisEq(c, Start.pos, Place(c, Cell(0, 0)));
    var d := PerAxis(1, 1).Set(c.pri, RowDir(0));
    assert d.Get(c.sec) == 1 by { assert c.sec == Other(c.pri); }
    assert d == PerAxis(1, 1) by { assert c.sec == Other(c.pri); }
  }

  /** A grid state before the last cell is not at the far corner. */
  lemma GridNotCorner(c: ScanConfig, j: nat, k: nat)
    requires WellFormed(c) && k <= PriDivs(c)
    requires RowTick(PriDivs(c), j, k) < LastTick(PriDivs(c), SecDivs(c))
    ensures var s := GridState(c, j, k);
            !(s.pos.Get(c.pri) == c.rangeMax.Get(c.pri) && s.pos.Get(c.sec) == c.rangeMax.Get(c.sec))
  {
    var dP, dS := PriDivs(c), SecDivs(c);
    CornerOnlyAtEnd(dP, dS, RowTick(dP, j, k));
    RowTickDivMod(dP, j, k);
    var cell := RowCell(dP, j, k);
    assert Boustro(dP, RowTick(dP, j, k)) == cell;
    ScaleEq(cell.i, dP, c.step.Get(c.pri));
    ScaleEq(j, dS, c.step.Get(c.sec));
  }

  /** The primary tests of a grid state depend only on its primary index. */
  lemma GridPrimaryTests(c: ScanConfig, j: nat, k: nat)
    requires WellFormed(c) && k <= PriDivs(c)
    ensures var s, cell := GridState(c, j, k), RowCell(PriDivs(c), j, k);
            && (s.pos.Get(c.pri) == RangeMin <==> cell.i == 0)
            && (s.pos.Get(c.pri) == c.rangeMax.Get(c.pri) <==> cell.i == PriDivs(c))
            && s.dir.Get(c.pri) == RowDir(j)
            && s.dir.Get(c.sec) == 1
  {
    var cell := RowCell(PriDivs(c), j, k);
    ScaleEq(cell.i, PriDivs(c), c.step.Get(c.pri));
    ScaleEq(cell.i, 0, c.step.Get(c.pri));
    assert c.sec == Other(c.pri);
  }

  /** A tick that runs the tests and finds neither completion nor a
      turnover moves the primary axis one step in its direction. */
  lemma SweepShape(c: ScanConfig, s: ScanState)
    requires c.pri != c.sec
    requires s.active && !s.complete && !s.init && !s.pathEnd
    requires !(s.pos.Get(c.pri) == c.rangeMax.Get(c.pri) && s.pos.Get(c.sec) == c.rangeMax.Get(c.sec))
    requires !(s.pos.Get(c.pri) == RangeMin && s.dir.Get(c.pri) != 1)
    requires !(s.pos.Get(c.pri) == c.rangeMax.Get(c.pri) && s.dir.Get(c.pri) != -1)
    ensures var (r, g) := Step(c, s);
            && r.pos.Get(c.pri) == s.pos.Get(c.pri) + c.step.Get(c.pri) * s.dir.Get(c.pri) as real
            && r.pos.Get(c.sec) == s.pos.Get(c.sec)
            && r == s.(pos := r.pos, count := s.count + 1)
            && g == MoveTo(c, r.pos)
  {
    assert RunChecks(c, s) == Checks(false, s.dir, false);
  }

  /** A tick that runs the tests at the lower end of a backward sweep or the
      upper end of a forward sweep, away from the far corner, reverses the
      primary direction and moves the secondary axis one step. */
  lemma TurnoverShape(c: ScanConfig, s: ScanState)
    requires c.pri != c.sec
    requires s.active && !s.complete && !s.init && !s.pathEnd && s.dir.Get(c.sec) == 1
    requires !(s.pos.Get(c.pri) == c.rangeMax.Get(c.pri) && s.pos.Get(c.sec) == c.rangeMax.Get(c.sec))
    requires || (s.pos.Get(c.pri) == RangeMin && s.dir.Get(c.pri) == -1)
             || (s.pos.Get(c.pri) == c.rangeMax.Get(c.pri) && s.dir.Get(c.pri) == 1)
    ensures var (r, g) := Step(c, s);
            && r.pos.Get(c.sec) == s.pos.Get(c.sec) + c.step.Get(c.sec)
            && r.pos.Get(c.pri) == s.pos.Get(c.pri)
            && r.dir.Get(c.pri) == -s.dir.Get(c.pri)
            && r.dir.Get(c.sec) == 1
            && r == s.(pos := r.pos, dir := r.dir, count := s.count + 1)
            && g == MoveTo(c, r.pos)
  {
    var k := RunChecks(c, s);
    assert k.pathEnd && !k.complete && k.dir.Get(c.sec) == 1;
  }

  /** The first iteration: one primary step from the origin. */
  lemma FirstGridStep(c: ScanConfig)
    requires WellFormed(c)
    ensures Step(c, GridState(c, 0, 0)) == (GridState(c, 0, 1), MoveTo(c, Place(c, RowCell(PriDivs(c), 0, 1))))
  {
    var s := GridState(c, 0, 0);
    var r := Step(c, s).0;
    assert RunChecks(c, s) == Checks(false, s.dir, false);
    assert r.pos.Get(c.pri) == 0.0 + c.step.Get(c.pri) * 1 as real;
    PerAxisEq(c, r.pos, Place(c, RowCell(PriDivs(c), 0, 1)));
  }

  /** At the end of a sweep (not the last): the primary direction reverses
      and the secondary axis takes one step. */
  lemma TurnoverGridStep(c: ScanConfig, j: nat)
    requires WellFormed(c)
    requires RowTick(PriDivs(c), j, PriDivs(c)) < LastTick(PriDivs(c), SecDivs(c))
    ensures Step(c, GridState(c, j, PriDivs(c))) == (GridState(c, j + 1, 0), MoveTo(c, Place(c, RowCell(PriDivs(c), j + 1, 0))))
  {
    var dP := PriDivs(c);
    var p, q := c.pri, c.sec;
    var s := GridState(c, j, dP);
    GridNotCorner(c, j, dP);
    GridPrimaryTests(c, j, dP);
    assert RowCell(dP, j + 1, 0).i == RowCell(dP, j, dP).i;
    TurnoverShape(c, s);
    var r := Step(c, s).0;
    TurnoverPlace(c, j);
    PerAxisEq(c, r.pos, Place(c, RowCell(dP, j + 1, 0)));
    PerAxisEq(c, r.dir, PerAxis(1, 1).Set(p, RowDir(j + 1))) by { assert q == Other(p); }
    assert RowTick(dP, j + 1, 0) == RowTick(dP, j, dP) + 1;
  }

  /** The first cell of the next row is the last cell of this row moved one
      secondary step. */
  lemma TurnoverPlace(c: ScanConfig, j: nat)
    requires WellFormed(c)
    ensures var here, there := Place(c, RowCell(PriDivs(c), j, PriDivs(c))), Place(c, RowCell(PriDivs(c), j + 1, 0));
            && there.Get(c.pri) == here.Get(c.pri)
            && there.Get(c.sec) == here.Get(c.sec) + c.step.Get(c.sec)
  {
    var dP := PriDivs(c);
    assert RowCell(dP, j + 1, 0).i == RowCell(dP, j, dP).i;
    AdvanceIndex(j, c.step.Get(c.sec), 1);
  }

  /** Inside a sweep: one primary step in the row's direction. */
  lemma SweepGridStep(c: ScanConfig, j: nat, k: nat)
    requires WellFormed(c) && k < PriDivs(c) && (j, k) != (0, 0)
    requires RowTick(PriDivs(c), j, k) < LastTick(PriDivs(c), SecDivs(c))
    ensures Step(c, GridState(c, j, k)) == (GridState(c, j, k + 1), MoveTo(c, Place(c, RowCell(PriDivs(c), j, k + 1))))
  {
    var dP := PriDivs(c);
    var s := GridState(c, j, k);
    GridNotCorner(c, j, k);
    GridPrimaryTests(c, j, k);
    SweepShape(c, s);
    var r := Step(c, s).0;
    SweepPlace(c, j, k);
    PerAxisEq(c, r.pos, Place(c, RowCell(dP, j, k + 1)));
  }

  /** The next cell of a sweep is this cell moved one primary step in the
      row's direction. */
  lemma SweepPlace(c: ScanConfig, j: nat, k: nat)
    requires WellFormed(c) && k < PriDivs(c)
    ensures var here, there := Place(c, RowCell(PriDivs(c), j, k)), Place(c, RowCell(PriDivs(c), j, k + 1));
            && there.Get(c.pri) == here.Get(c.pri) + c.step.Get(c.pri) * RowDir(j) as real
            && there.Get(c.sec) == here.Get(c.sec)
  {
    var dP := PriDivs(c);
    var cell := RowCell(dP, j, k);
    assert RowCell(dP, j, k + 1).i == cell.i + RowDir(j);
    AdvanceIndex(cell.i, c.step.Get(c.pri), RowDir(j));
  }

  /** One iteration before the last scan cell moves from one grid state to
      the next one in the boustrophedon order and commands its cell. */
  lemma GridStep(c: ScanConfig, j: nat, k: nat)
    requires WellFormed(c) && k <= PriDivs(c)
    requires RowTick(PriDivs(c), j, k) < LastTick(PriDivs(c), SecDivs(c))
    ensures var (j', k') := Next(PriDivs(c), j, k);
            Step(c, GridState(c, j, k)) == (GridState(c, j', k'), MoveTo(c, Place(c, RowCell(PriDivs(c), j', k'))))
  {
    if j == 0 && k == 0 {
      FirstGridStep(c);
    } else if k == PriDivs(c) {
      TurnoverGridStep(c, j);
    } else {
      SweepGridStep(c, j, k);
    }
  }

  /** The command for the cell reached at tick `n`. */
  function CommandAt(c: ScanConfig, n: nat): Gcode
    requires WellFormed(c)
  {
    MoveTo(c, Place(c, Boustro(PriDivs(c), n)))
  }

  /** From the state at the last scan cell: the next iteration completes and
      repeats the far-corner command, the one after returns to the origin
      and deactivates. */
  lemma FinalSteps(c: ScanConfig)
    requires WellFormed(c)
    ensures var dP, dS := PriDivs(c), SecDivs(c);
            var (r, cmds) := Run(c, GridState(c, dS, LastOffset(dP, dS)), 2);
            && cmds == [CommandAt(c, LastTick(dP, dS)), Home]
            && !r.active && r.count == LastTick(dP, dS) + 1
  {
    var dP, dS := PriDivs(c), SecDivs(c);
    var s := GridState(c, dS, LastOffset(dP, dS));
    var cell := RowCell(dP, dS, LastOffset(dP, dS));
    assert cell == Cell(dP, dS);
    LastCellIsCorner(dP, dS);
    ScaleEq(dP, dP, c.step.Get(c.pri));
    assert s.pos.Get(c.pri) == c.rangeMax.Get(c.pri) && s.pos.Get(c.sec) == c.rangeMax.Get(c.sec);
    CompletionTest(c, s);
    var (s1, g) := Step(c, s);
    assert s1.complete && s1.pos == s.pos;
    HomeAfterComplete(c, s1, 1);
    assert Run(c, s, 2) == (Run(c, s1, 1).0, [g] + Run(c, s1, 1).1);
  }

  /** From the grid state at tick n0 the loop commands the cells of ticks
      n0+1 .. LastTick in order, repeats the last one, returns home and
      stops, after which the sample count is LastTick + 1. */
  lemma {:induction false} RunFrom(c: ScanConfig, j: nat, k: nat)
    requires WellFormed(c) && k <= PriDivs(c)
    requires RowTick(PriDivs(c), j, k) <= LastTick(PriDivs(c), SecDivs(c))
    ensures var dP, dS := PriDivs(c), SecDivs(c);
            var n0, last := RowTick(dP, j, k), LastTick(dP, dS);
            var (r, cmds) := Run(c, GridState(c, j, k), last - n0 + 2);
            && |cmds| == last - n0 + 2
            && (forall t :: 0 <= t < last - n0 ==> cmds[t] == CommandAt(c, n0 + 1 + t))
            && cmds[last - n0] == CommandAt(c, last)
            && cmds[last - n0 + 1] == Home
            && !r.active && r.count == last + 1
    decreases LastTick(PriDivs(c), SecDivs(c)) - RowTick(PriDivs(c), j, k)
  {
    var dP, dS := PriDivs(c), SecDivs(c);
    var n0, last := RowTick(dP, j, k), LastTick(dP, dS);
    if n0 == last {
      RowTickOrder(dP, j, k, dS, LastOffset(dP, dS));
      RowTickOrder(dP, dS, LastOffset(dP, dS), j, k);
      assert j == dS && k == LastOffset(dP, dS);
      FinalSteps(c);
    } else {
      var (j', k') := Next(dP, j, k);
      NextIsNeighbour(dP, j, k);
      GridStep(c, j, k);
      RowTickDivMod(dP, j', k');
      var s, s1 := GridState(c, j, k), GridState(c, j', k');
      assert Step(c, s) == (s1, CommandAt(c, n0 + 1));
      var fuel := last - n0 + 2;
      RunUnfold(c, s, fuel);
      RunFrom(c, j', k');
      assert RowTick(dP, j', k') == n0 + 1;
      var rest := Run(c, s1, fuel - 1).1;
      ConsTrace(c, Run(c, s, fuel).1, rest, n0, last - n0 - 1);
    }
  }

  lemma ConsTrace(c: ScanConfig, cmds: seq<Gcode>, rest: seq<Gcode>, n0: nat, m: nat)
    requires WellFormed(c)
    requires cmds == [CommandAt(c, n0 + 1)] + rest && m <= |rest|
    requires forall t :: 0 <= t < m ==> rest[t] == CommandAt(c, n0 + 1 + 1 + t)
    ensures forall t :: 0 <= t < m + 1 ==> cmds[t] == CommandAt(c, n0 + 1 + t)
  {
    forall t | 0 <= t < m + 1
      ensures cmds[t] == CommandAt(c, n0 + 1 + t)
    {
      if t > 0 {
        assert cmds[t] == rest[t - 1];
      }
    }
  }

  /** The whole scan.  From the start state, with T the last tick, the loop
      emits exactly T + 2 commands and stops: the commands for the cells of
      ticks 1..T of the boustrophedon order, the far corner once more (the
      completing iteration), and the return to the origin.  The sample
      count is then T + 1. */
  lemma WholeScan(c: ScanConfig)
    requires WellFormed(c)
    ensures var last := LastTick(PriDivs(c), SecDivs(c));
            var (r, cmds) := Run(c, Start, last + 2);
            && |cmds| == last + 2
            && (forall t :: 0 <= t < last ==> cmds[t] == CommandAt(c, t + 1))
            && cmds[last] == MoveTo(c, Place(c, Cell(PriDivs(c), SecDivs(c))))
            && cmds[last + 1] == Home
            && !r.active && r.count == last + 1
  {
    StartIsGridOrigin(c);
    RunFrom(c, 0, 0);
    LastCellIsCorner(PriDivs(c), SecDivs(c));
  }

  /** Once the scan has stopped, more iterations emit nothing: the run from
      the start state with any fuel of at least T + 2 is the run of
      `WholeScan`. */
  lemma ScanStops(c: ScanConfig, fuel: nat)
    requires WellFormed(c)
    requires fuel >= LastTick(PriDivs(c), SecDivs(c)) + 2
    ensures Run(c, Start, fuel) == Run(c, Start, LastTick(PriDivs(c), SecDivs(c)) + 2)
  {
    var n := LastTick(PriDivs(c), SecDivs(c)) + 2;
    WholeScan(c);
    RunSplit(c, Start, n, fuel - n);
    var (s1, g1) := Run(c, Start, n);
    assert Run(c, s1, fuel - n) == (s1, []);
    assert g1 + [] == g1;
  }

  /** Distinct cells have distinct positions. */
  lemma PlaceInjective(c: ScanConfig, a: Cell, b: Cell)
    requires WellFormed(c)
    requires Place(c, a) == Place(c, b)
    ensures a == b
  {
    ScaleEq(a.i, b.i, c.step.Get(c.pri));
    ScaleEq(a.j, b.j, c.step.Get(c.sec));
  }

  /** Distinct scan positions give distinct scan commands. */
  lemma MoveToInjective(c: ScanConfig, a: PerAxis<real>, b: PerAxis<real>)
    requires c.pri != c.sec
    requires MoveTo(c, a) == MoveTo(c, b)
    ensures a == b
  {
  }

  /** No cell is commanded twice during the sweeps: the T scan commands
      before the completing iteration are pairwise distinct. */
  lemma ScanCommandsDistinct(c: ScanConfig)
    requires WellFormed(c)
    ensures var last := LastTick(PriDivs(c), SecDivs(c));
            var cmds := Run(c, Start, last + 2).1;
            && |cmds| == last + 2
            && forall t1, t2 :: 0 <= t1 < t2 < last ==> cmds[t1] != cmds[t2]
  {
    var dP, dS := PriDivs(c), SecDivs(c);
    var last := LastTick(dP, dS);
    var cmds := Run(c, Start, last + 2).1;
    WholeScan(c);
    RowTickOrder(dP, dS, LastOffset(dP, dS), dS + 1, 0);
    assert last < (dP + 1) * (dS + 1);
    forall t1, t2 | 0 <= t1 < t2 < last
      ensures cmds[t1] != cmds[t2]
    {
      CommandsDistinctAt(c, t1 + 1, t2 + 1);
    }
  }

  /** Two different ticks within the grid command different cells. */
  lemma CommandsDistinctAt(c: ScanConfig, n1: nat, n2: nat)
    requires WellFormed(c)
    requires n1 < n2 < (PriDivs(c) + 1) * (SecDivs(c) + 1)
    ensures CommandAt(c, n1) != CommandAt(c, n2)
  {
    var dP, dS := PriDivs(c), SecDivs(c);
    if CommandAt(c, n1) == CommandAt(c, n2) {
      MoveToInjective(c, Place(c, Boustro(dP, n1)), Place(c, Boustro(dP, n2)));
      PlaceInjective(c, Boustro(dP, n1), Boustro(dP, n2));
      BoustroInverse(dP, dS + 1, n1);
      BoustroInverse(dP, dS + 1, n2);
    }
  }

  /** With an even number of secondary divisions the scan commands every
      cell of the (dP+1) by (dS+1) grid other than the origin it starts
      from, each during the sweeps (before the completing iteration). */
  lemma EvenScanVisitsEveryCell(c: ScanConfig, cell: Cell)
    requires WellFormed(c) && SecDivs(c) % 2 == 0
    requires InGrid(PriDivs(c), SecDivs(c) + 1, cell) && cell != Cell(0, 0)
    ensures var last := LastTick(PriDivs(c), SecDivs(c));
            var cmds := Run(c, Start, last + 2).1;
            && |cmds| == last + 2
            && exists t :: 0 <= t < last && cmds[t] == MoveTo(c, Place(c, cell))
  {
    var dP, dS := PriDivs(c), SecDivs(c);
    var last := LastTick(dP, dS);
    WholeScan(c);
    EvenCoversGrid(dP, dS);
    var n := TickOf(dP, cell);
    assert Boustro(dP, n) == cell;
    assert n != 0 by {
      assert Boustro(dP, 0) == Cell(0, 0);
    }
    assert Run(c, Start, last + 2).1[n - 1] == CommandAt(c, n);
  }

  /** With an odd number of secondary divisions the last row is cut short:
      its far-corner cell is commanded, but none of its other dP cells ever
      is, and the scan still stops. */
  lemma OddScanSkipsLastRow(c: ScanConfig, i: int)
    requires WellFormed(c) && SecDivs(c) % 2 == 1 && 0 <= i < PriDivs(c)
    ensures var last := LastTick(PriDivs(c), SecDivs(c));
            var (r, cmds) := Run(c, Start, last + 2);
            && !r.active
            && forall t :: 0 <= t < |cmds| ==> cmds[t] != MoveTo(c, Place(c, Cell(i, SecDivs(c))))
  {
    var dP, dS := PriDivs(c), SecDivs(c);
    var last := LastTick(dP, dS);
    var cmds := Run(c, Start, last + 2).1;
    var target := MoveTo(c, Place(c, Cell(i, dS)));
    WholeScan(c);
    OddSkipsLastRow(dP, dS);
    forall t | 0 <= t < |cmds|
      ensures cmds[t] != target
    {
      if t < last {
        if cmds[t] == target {
          MoveToInjective(c, Place(c, Boustro(dP, t + 1)), Place(c, Cell(i, dS)));
          PlaceInjective(c, Boustro(dP, t + 1), Cell(i, dS));
        }
      } else if t == last {
        if cmds[t] == target {
          MoveToInjective(c, Place(c, Cell(dP, dS)), Place(c, Cell(i, dS)));
          PlaceInjective(c, Cell(dP, dS), Cell(i, dS));
        }
      } else {
        assert cmds[t] == Home;
      }
    }
  }

  /** The sample count when the scan stops, against the point count the
      constructor logs, (dP+1)*(dS+1): equal for an even number of
      secondary divisions, dP short of it for an odd number. */
  lemma SampleCount(c: ScanConfig)
    requires WellFormed(c)
    ensures var dP, dS := PriDivs(c), SecDivs(c);
            var r := Run(c, Start, LastTick(dP, dS) + 2).0;
            && (dS % 2 == 0 ==> r.count == (dP + 1) * (dS + 1))
            && (dS % 2 == 1 ==> r.count + dP == (dP + 1) * (dS + 1))
  {
    var dP, dS := PriDivs(c), SecDivs(c);
    WholeScan(c);
    if dS % 2 == 0 {
      EvenCoversGrid(dP, dS);
    } else {
      OddSkipsLastRow(dP, dS);
      assert (dP + 1) * (dS + 1) == (dP + 1) * dS + dP + 1;
    }
  }

  /** Valid ratio and quality, at least one non-zero range and two distinct
      axes give a configuration the scan theorems apply to. */
  lemma SetupWellFormed(xRange: real, yRange: real, ratioNum: int, ratioDen: int, quality: int, pri: Axis, sec: Axis)
    requires ratioNum > 0 && ratioDen > 0 && quality > 0
    requires xRange != 0.0 || yRange != 0.0
    requires pri != sec
    ensures Setup(xRange, yRange, ratioNum, ratioDen, quality, pri, sec).Ok?
    ensures WellFormed(Setup(xRange, yRange, ratioNum, ratioDen, quality, pri, sec).value)
  {
    var c := Setup(xRange, yRange, ratioNum, ratioDen, quality, pri, sec).value;
    var ratio := Ratio(ratioNum, ratioDen);
    assert ratio > 0.0;
    assert c.rangeMax.x != 0.0;
    assert c.rangeMax.y != 0.0;
    assert ratioNum * quality >= 1 && ratioDen * quality >= 1 by {
      MulAtLeastOne(ratioNum, quality);
      MulAtLeastOne(ratioDen, quality);
    }
    assert c.step.x != 0.0 && c.step.y != 0.0;
    assert c.sec == Other(c.pri);
  }

  lemma MulAtLeastOne(a: int, b: int)
    requires a >= 1 && b >= 1
    ensures a * b >= 1
  {
    MulLe(1, a, b);
  }

  /** A derived y range gives square cells; a derived x range does not: it
      is the y range divided (not multiplied) by the ratio, so its step is
      the y step divided by the ratio squared. */
  lemma DerivedStepSizes(xRange: real, yRange: real, ratioNum: int, ratioDen: int, quality: int, pri: Axis, sec: Axis)
    requires ratioNum > 0 && ratioDen > 0 && quality > 0
    ensures var c := Setup(xRange, yRange, ratioNum, ratioDen, quality, pri, sec).value;
            var ratio := Ratio(ratioNum, ratioDen);
            && (xRange != 0.0 && yRange == 0.0 ==> c.step.x == c.step.y)
            && (xRange == 0.0 && yRange != 0.0 ==> c.step.x * ratio * ratio == c.step.y)
  {
    var c := Setup(xRange, yRange, ratioNum, ratioDen, quality, pri, sec).value;
    var n, d, q := ratioNum as real, ratioDen as real, quality as real;
    assert (ratioNum * quality) as real == n * q;
    assert (ratioDen * quality) as real == d * q;
    if xRange != 0.0 && yRange == 0.0 {
      SquareCells(xRange, n, d, q);
    }
    if xRange == 0.0 && yRange != 0.0 {
      SkewedCells(yRange, n, d, q);
    }
  }

  lemma SquareCells(x: real, n: real, d: real, q: real)
    requires n > 0.0 && d > 0.0 && q > 0.0
    ensures (x / (n / d)) / (d * q) == x / (n * q)
  {
    assert x / (n / d) == x * d / n;
    assert (x * d / n) / (d * q) == x / (n * q);
  }

  lemma SkewedCells(y: real, n: real, d: real, q: real)
    requires n > 0.0 && d > 0.0 && q > 0.0
    ensures (y / (n / d)) / (n * q) * (n / d) * (n / d) == y / (d * q)
  {
    var r := n / d;
    assert (y / r) / (n * q) * r == y / (n * q) by {
      assert (y / r) / (n * q) * r == (y / r) * r / (n * q);
      assert (y / r) * r == y;
    }
    assert y / (n * q) * r == y / (d * q) by {
      assert y / (n * q) * (n / d) == (y * n) / (n * q * d);
      assert (y * n) / (n * q * d) == y / (q * d);
    }
  }
}
