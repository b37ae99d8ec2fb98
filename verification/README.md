# Raster planner and motion commands of the scanning robot controller

This project models the core of `controller.py`, the controller of a two-axis
scanning robot. It has two parts.

- **The boustrophedon raster planner of `DeviceWorker`.**
  - The constructor turns the configured ranges, the aspect ratio, the quality
    and the axis order into a per-axis range maximum, a number of divisions and
    a step size.
  - The body of `run` is a small state machine. Each iteration does four things:
    it tests for completion, it tests for a turnover of the primary axis, it
    advances one axis by one step, and it builds a `G1` motion command.
  - Once the scan is complete, one more iteration sends the machine back to
    the origin and deactivates the worker.
- **The `Gcode` class.**
  - It assembles the wire text of a command: a command word followed by
    optional X, Y and F words, joined by single spaces.
  - `calc_pause` estimates how long a move takes. It uses a trapezoidal
    velocity profile per axis with a fixed acceleration of 200 and returns
    the larger of the two axis times.

## How the model is built

Ranges, positions and steps are exact rationals (`real`), as in the Python
code's `Fraction` arithmetic. The equality tests that turn the primary axis
over and end the scan are therefore exact.

Python differs in one place. When a range is an `int`, Python computes its
step as a float before wrapping it in a `Fraction`. If that float is not
the exact quotient, the program never reaches the range maximum exactly and
never stops. `Setup` uses the exact step instead, and the whole-scan
theorems describe that exact-step behaviour. The float case is modelled
separately under "## Findings".

The files and what each holds:

| file | module | contents |
|---|---|---|
| `options.dfy` | `Options` | `Option` and `Result` |
| `axes.dfy` | `Axes` | the axes and a per-axis record that stands in for the code's `{'x': …, 'y': …}` dictionaries |
| `gcode_text.dfy` | `GcodeText` | the command, its tokens and text, a parser for the text, and the round trip between them |
| `pause.dfy` | `Pause` | `calc_pause` and its closed form |
| `planner.dfy` | `Planner` | the constructor's derivations as `Setup`; one loop iteration as the pure transition `Step`; `Run`, which iterates `Step` with a fuel bound |
| `raster.dfy` | `Raster` | the boustrophedon order on the integer grid of step indices, as a pure index computation |
| `scan_trace.dfy` | `ScanTrace` | the simulation between `Step` and that order, and from it the exact command sequence of a whole scan |
| `scenarios.dfy` | `Scenarios` | the default configuration and two edge configurations worked through |

The number-to-text conversion in `gencode` is `round(float(v), 4)` followed
by `str`. Here it is a parameter `render: real -> string`.

## Behaviour the model reproduces

These are behaviours of the code as written, and the model reproduces each
one.

- **The origin is never commanded during the scan** when the primary step is
  non-zero. The first iteration skips all tests and advances the primary axis
  at once.
- **The far corner is commanded twice.** The iteration that detects completion
  moves nothing and sends the far corner again at feed 6000. Only the
  iteration after it sends the return home: the command `G1` with X 0,
  Y 0 and feed 4000.
- **An odd number of secondary divisions cuts the last row short.**
  - Only the primary direction is ever reversed, and the secondary axis only
    ever steps forward.
  - With an even number of secondary divisions, every cell of the grid is
    visited.
  - With an odd number, the row before the last ends at the primary maximum.
    The turnover then lands on the far corner, so the completion test fires
    on the next iteration.
  - Every other point of the last row is never visited. With exact steps
    the scan still terminates.
- **A derived x range makes the cells non-square.** A derived range is the
  other range *divided* by the ratio.
  - When the y range is derived, the cells are square.
  - When the x range is derived (x = y / ratio), the x step is the y step
    divided by the square of the ratio.
- **Ranges that are both zero are accepted.** Every step is then zero. The scan
  commands the origin twice, returns home and stops.
- **Setup fails on zeros.** `Setup` fails exactly where Python raises
  `ZeroDivisionError`: a zero ratio component or a zero quality.

## Model

| member | source | states |
|---|---|---|
| Planner.Setup | controller.py:24-34 | Setup fails exactly when a ratio component or the quality is zero. Otherwise: a non-zero range is kept; a zero range times the ratio equals the other range; divisions are ratio component times quality; every range maximum is exactly divisions times step. |
| ScanTrace.SetupWellFormed | controller.py:24-34 | Positive ratio and quality, at least one non-zero range and distinct axes give at least one division and a non-zero step on each axis. |
| ScanTrace.DerivedStepSizes | controller.py:26-34 | A derived y range gives equal x and y steps. A derived x range gives x step times ratio squared equal to the y step. |
| Scenarios.DefaultSetup | controller.py:24-34 | x range 130, ratio 4:3 and quality 4 give the y range 97.5, divisions 16 and 12, and step 8.125 on both axes. |
| Scenarios.OddSetup | controller.py:24-34 | x range 120, ratio 4:3 and quality 3 give the y range 90, divisions 12 and 9, and step 10 on both axes. Python computes these steps exactly too. |
| Planner.RunChecks | controller.py:71-79 | The tests of one iteration never clear completion. They set it only after the first iteration and only with both axes at their maxima. They never touch the secondary direction. A new turnover happens only at the lower end with the primary direction set to +1, or at the maximum with it set to -1. |
| Planner.Advance | controller.py:80-87 | At most one axis moves. A completed iteration without a turnover moves nothing. |
| Planner.Step | controller.py:60-92 | An iteration emits the return home exactly when the state was complete, and the worker stays active exactly when it was not. Any other iteration clears the first-iteration and turnover flags and counts one sample. ScanTrace.WholeScan gives the full behaviour of iterated steps. |
| Planner.MoveTo | controller.py:89-92 | Whichever axis is primary, the scan command carries the x position as X, the y position as Y, and feed 6000. |
| Planner.Run | controller.py:60-65 | A run emits at most one command per iteration of fuel. It emits fewer only when the worker has been deactivated. |
| Planner.FirstTick | controller.py:53-92 | The first iteration runs no completion or turnover test. It moves the primary axis one step forward, leaves the secondary axis at 0 and the directions unchanged, and commands that position at feed 6000. |
| Planner.FirstTickNeverCompletes | controller.py:71-73 | The first iteration never sets completion. |
| Planner.CompletionTest | controller.py:71-87 | After the first iteration, completion is set exactly when both axes stand at their maxima. The completing iteration moves nothing and changes no direction. |
| Planner.HomeAfterComplete | controller.py:61-65 | The iteration after completion emits exactly the command `G1` with X 0, Y 0 and feed 4000, deactivates the worker, and does not count a sample. Any further run emits nothing more. |
| Planner.EmittedCommand | controller.py:61-92 | Every command emitted is either the return home, after completion, or the post-move X/Y position at feed 6000. |
| Planner.OneAxisPerTick | controller.py:80-87 | On a turnover only the secondary position changes, by step times direction. On any other non-completing iteration only the primary position changes, by step times direction. |
| Planner.DirectionChanges | controller.py:74-79 | The secondary direction is never reassigned. The primary direction changes only to +1 at the lower end or to -1 at the maximum. |
| Planner.RunKeepsDirections | controller.py:74-82 | From any state with secondary direction +1, primary direction ±1 and no pending turnover, every state a run reaches has the same properties. |
| Planner.SecondaryNeverReverses | controller.py:35-36 | Starting from directions (+1, +1), the secondary direction is +1 in every state the loop reaches. |
| ScanTrace.StartIsGridOrigin | controller.py:35-36 | The start state `Planner.Start` is the origin cell of the grid with both directions +1, before the first iteration. |
| ScanTrace.FirstGridStep | controller.py:71-92 | From the grid origin one iteration reaches the next cell of the boustrophedon order and commands it. |
| ScanTrace.SweepGridStep | controller.py:84-92 | Inside a sweep, one iteration moves to the next cell of the row in the row's direction and commands it. |
| ScanTrace.TurnoverGridStep | controller.py:74-83 | At the end of a sweep that is not the last, one iteration reverses the primary direction, moves one secondary step to the first cell of the next row, and commands it. |
| ScanTrace.GridStep | controller.py:71-92 | Before the last scan cell, every iteration moves from the grid state of tick n to that of tick n+1 and commands the cell of tick n+1. |
| ScanTrace.FinalSteps | controller.py:61-73 | From the last scan cell, the loop emits the far corner once more and then the return home, and stops with the sample count at last tick + 1. |
| ScanTrace.WholeScan | controller.py:60-92 | The whole scan from the start state, with T the last tick, is exactly T+2 commands. Commands 1..T are the cells of ticks 1..T of the boustrophedon order, then the far corner again, then home. The worker ends inactive with sample count T+1. |
| ScanTrace.ScanStops | controller.py:60-65 | Any fuel beyond T+2 iterations adds nothing: the scan terminates. |
| ScanTrace.ScanCommandsDistinct | controller.py:72-92 | The T commands of the sweeps are pairwise distinct, so no cell is commanded twice before completion. |
| ScanTrace.EvenScanVisitsEveryCell | controller.py:72-92 | With an even number of secondary divisions, every grid cell other than the origin is commanded during the sweeps. |
| ScanTrace.OddScanSkipsLastRow | controller.py:72-82 | With an odd number of secondary divisions, no cell of the last row other than the far corner is ever commanded, and the scan still stops. |
| ScanTrace.SampleCount | controller.py:42 | The final sample count equals the logged point count (dP+1)(dS+1) when the secondary divisions are even, and falls dP short of it when they are odd. |
| ScanTrace.PlaceInjective | controller.py:84-87 | Distinct grid cells are distinct positions, since the steps are non-zero. |
| ScanTrace.MoveToInjective | controller.py:89-92 | Distinct positions give distinct scan commands. |
| Raster.BoustroBijection | controller.py:72-87 | Over the first `rows` rows, the boustrophedon order and `TickOf` are mutually inverse between ticks and grid cells. |
| Raster.LastCellIsCorner | controller.py:72-73 | Whatever the parity, the last tick of the order is the far corner. |
| Raster.CornerOnlyAtEnd | controller.py:72-73 | The order reaches the far corner at no tick before the last. |
| Raster.EvenCoversGrid | controller.py:72-87 | With even secondary divisions, ticks 0..T are exactly the (dP+1)(dS+1) grid cells. |
| Raster.OddSkipsLastRow | controller.py:72-82 | With odd secondary divisions, T+1 = (dP+1)·dS+1, and the only cell of the last row reached is the one at the primary maximum. |
| Raster.NextIsNeighbour | controller.py:80-87 | Consecutive ticks are neighbouring cells: one primary step within a row, or one secondary step at the same primary index. |
| Scenarios.DefaultScan | controller.py:24-92 | The default configuration sweeps y over 16 even x divisions. It commands all 13·17 grid points except the origin, then the corner again (command 220 is the move to cell (12, 16)), then home (command 221): 222 commands, and then it stops. |
| Scenarios.OddScanExample | controller.py:72-82 | In that configuration, with x primary, the scan stops within 119 iterations and never commands the point X0 Y90 on the last row. |
| Scenarios.OddCorner | controller.py:89-92 | The cell (0, 9) of that configuration is commanded as X0 Y90 F6000. |
| Planner.MissedMaximumNeverStops | controller.py:72-87 | When the primary maximum is no whole number of primary steps, the scan never stops. After n iterations the worker is still active, n commands have gone out, the primary axis is at n steps and the secondary axis has not moved. |
| Scenarios.FloatStepConfig | controller.py:24-34 | The configuration Python builds for the `int` x range 130, ratio 4:3 and quality 3. Its x step is the double nearest 130/12: it lies in [8, 16), within half a double spacing of 130/12, and is not 130/12. |
| Scenarios.FloatStepNeverStops | controller.py:33-87 | With that float step the scan never stops. After any n iterations the worker is active with n commands sent, and x has run to n steps. |
| Planner.MissedSecondaryNeverStops | controller.py:72-82 | When the secondary maximum is no whole number of secondary steps, the scan never stops. Every primary sweep still turns over and moves the secondary axis one step on, but the completion test never fires: after n iterations the worker is active, with n commands sent and n samples counted. |
| Scenarios.FloatSecondaryNeverStops | controller.py:33-82 | The same float x step under the default order, y primary and x secondary: after any n iterations the worker is still active with n commands sent. |
| Scenarios.ExactStepStops | controller.py:24-92 | With the exact `Fraction` step 130/12, the same configuration stops within 119 iterations. |
| Scenarios.ZeroRangeScan | controller.py:26-73 | Both ranges zero is accepted. The scan emits the origin twice and then home, and the worker deactivates. |
| GcodeText.Tokens | controller.py:271-279 | The tokens are the command word followed by one word per present component. The X word, if present, is at position 1. The Y word follows it, and the F word follows the Y word. Each word is its letter followed by the rendered number. |
| GcodeText.Join | controller.py:280 | The joined text starts with the first word, followed by a space when more words follow. A single word is its own text. |
| GcodeText.Code | controller.py:271-284 | The text starts with the command word. It is exactly the command word when no component is present. |
| GcodeText.SplitJoin | controller.py:280 | Splitting the space-joined tokens at spaces gives the tokens back, when no token holds a space. |
| GcodeText.ParseCode | controller.py:271-284 | Reading the command text back recovers the command word and the rendered value of exactly the components that are present, in the order X, Y, F. |
| GcodeText.CodeInjective | controller.py:271-284 | Take a space-free renderer that gives different texts to the two commands' different component values. Then equal command texts mean equal commands. |
| Pause.CalcPause | controller.py:287-318 | An estimate exists exactly when X, Y and the feed are present and the feed is non-zero. In every other case Python raises. |
| Pause.AxisTime | controller.py:289-306 | For the time one axis is given, the trapezoidal velocity profile covers exactly that axis's distance. |
| Pause.AxisTimeClosedForm | controller.py:289-306 | One axis's time is \|d\|/v + v/A, where v = feed/60 and A = 200. |
| Pause.PauseCoversFarthestAxis | controller.py:287-318 | For a positive feed, the estimate is that closed form for the larger of \|X\| and \|Y\|. It is positive, and the trapezoidal profile covers exactly that distance in that time. |
| Pause.ShortMoveNotClamped | controller.py:294-306 | Nothing is clamped: the estimate is below the two ramp times exactly when the farther axis is closer than the distance the ramps cover. |
| Pause.PauseExample | controller.py:287-318 | X100 at F6000 gives 1.5 seconds. |
| Pause.HomePause | controller.py:287-318 | The return home (X0 Y0 F4000) gives 1/3 of a second. |

## Left out

- SerialWorker (controller.py:131-208): serial-port I/O.
- ServerWorker and MyTCPHandler (controller.py:212-258): network I/O.
- Threading and the outer `while not self.cancelled` loop.
  - The `cancel` and `activate` methods are left out as concurrency.
  - The queue hand-off in `gcode_exec`, the busy-wait for `ok` and `time.sleep(calc_pause)` are timing, not behaviour.
  - The model always starts a scan from `Start`. The Python code does not reset `cur_pos` and `cur_dir` when the worker is activated again, and that is not modelled.
- Logging and `print`: display-only output (controller.py:38-42, 307-316).
- `home_routine` and `begin_routine`: empty stubs.
- main.py: command-line and thread wiring, not part of this model.
- defaults_custom.h: firmware build constants, not part of this model. The only relevant one, the acceleration of 200, is the constant at controller.py:269.
- GcodeText.Code: the text of a number is the parameter `render`. `round(float(v), 4)` and Python's float-to-string conversion are not modelled.
- Planner.Setup: the step is computed exactly. Python divides an `int` range by an `int` division count as a float before wrapping it in a `Fraction` (controller.py:33-34).
  - Where that quotient is not exactly representable as a double, Python's range maximum is not exactly divisions times step.
  - If that axis is the primary one, the program never turns over and never terminates. Planner.MissedMaximumNeverStops and Scenarios.FloatStepNeverStops state this.
  - If it is the secondary one, as for an `int` x range under the default order y then x, the sweeps turn over as usual, the secondary axis runs past its maximum, and the program never completes. Planner.MissedSecondaryNeverStops and Scenarios.FloatSecondaryNeverStops state this.
  - `WellFormed`, ScanTrace.WholeScan and ScanTrace.ScanStops describe only the exact step. They do not cover such integer ranges.
  - For the default 130 / 16 = 8.125 the two agree exactly.
- Pause.CalcPause: every quantity is exact. Python computes `feed / 60`, `0.5 * A * t**2` and `middle_dist / (feed / 60)` in floating point (controller.py:289-301).
  - The result is a float, which can only agree with the exact value when that value is exactly representable as a double. X100 at F6000 gives 1.5 in both.
  - Elsewhere Python's value can differ in the last bits. The first default move X0 Y8.125 F6000 has the exact estimate 93/160, which is not exactly representable as a double.
- ScanTrace.WholeScan: the whole-scan theorems assume distinct primary and secondary axes. An order naming the same axis twice is still accepted by `Step` and `Run`, but it is not analysed.

## Findings

| source | as written | input that shows it | evidently intended | confidence | as-written member | corrected member |
|---|---|---|---|---|---|---|
| controller.py:33-34 | `Fraction(self.range_max['x'] / self.quality_divide['x'])` divides an `int` range by an `int` count in floating point. The `Fraction` then holds the rounded double, and the exact-equality tests at controller.py:72 and :77 never fire. | x range 130 (an `int`), ratio 4:3, quality 3, order x then y: step 6098624495397547/2^49 ≠ 130/12. x runs past 130 for ever and the scan never stops. Under the default order y then x, x instead runs past 130 between sweeps and the scan never completes (Scenarios.FloatSecondaryNeverStops). | The step is the exact quotient, as the surrounding `Fraction` arithmetic intends. The scan then turns over at 130 and stops. | medium, not executed | Scenarios.FloatStepNeverStops | Scenarios.ExactStepStops |
