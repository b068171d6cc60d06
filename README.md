# Fractal canopy and slider grid: a Dafny model

This project models the two pieces of the fractal-tree desktop application
that hold logic of their own, and proves what they promise.

- **Slider grid layout** (`sliders.dfy`, module `Sliders`).
  - `calc_max_num_columns` floor-divides the usable frame width by the width
    of one slider slot.
  - `calc_optimal_num_columns` rebalances the sliders over the rows. While the
    last row has room, it takes one column away, which moves one slider of
    each full row into the last row.
  - `column_sequence_generator` yields grid cells in row-major order. It is
    modelled as the class `ColumnSequence`, whose `Next` method resumes the
    generator.
  - `create_sliders` and `repopulate_sliders` put the i-th slider in the i-th
    cell. The Tk `Scale` widget is modelled as the class `Slider`, holding its
    data and its grid cell.
- **Fractal canopy** (`fractal_plot_funcs.dfy`, module `FractalPlot`, with the
  properties in `fractal_properties.dfy`, module `FractalProperties`).
  - `fractal_canopy` is the method `FractalCanopy`. It appends lines to a
    `Canvas`, which is modelled as the log of the lines created on it.
  - Its contract ties the log to the pure function `Strokes`. That function
    lists every stroke a call draws, in drawing order, together with its
    angle, its length and the `n_iters` of the call that drew it.
  - `cos`, `sin`, `radians` and `degrees` are kept abstract, as the fields of
    a `Trig` value. Nothing is assumed about them.
  - `Call` carries the function's parameters with the same defaults (200,
    10, -90, 2, 3, 2, True). A recursive call that leaves out a parameter
    therefore gets the default, as it does in the source.

Python's `//` and `%` round toward negative infinity. They are modelled as
`FloorDiv` and `FloorMod`, so negative operands behave as in Python.

The code goes beyond or against its docstring (fractal_plot_funcs.py:38) in
four places. The model follows the code:

- The docstring calls `angle_delta` the angle between the splits. In the code
  it is the whole spread from the leftmost to the rightmost split. Adjacent
  splits are `angle_delta / (n_splits - 1)` apart, so the two readings agree
  only for `n_splits == 2` (`LinSpaceEvenlySpaced`, `LinSpaceEnds`).
- The docstring does not say where a single split goes. In the code
  `np.linspace` then returns only the left end of the spread,
  `start_angle - angle_delta/2`, not the start angle (`FewSplits`).
- The trunk's recursive call (fractal_plot_funcs.py:60) passes only
  `n_iters`, `first_iter`, `n_splits` and `angle_delta`. So the caller's
  `init_length`, `start_angle` and `length_decay` do not reach past the
  trunk. The first branch level always starts at length 200, around -90
  degrees (`TrunkForwardsOnlyShape`, `FirstBranchLevel`).
- The branch calls (fractal_plot_funcs.py:85) never pass `length_decay`. So
  every level below the first branch level halves the length, whatever decay
  was asked for (`BranchStrokeLengths`, `TrunkStrokeLengths`).

## Model

| member | source | states |
|---|---|---|
| Sliders.FloorDiv | sliders.py:120 | Python's `//`: the quotient times the divisor lies within one divisor of the dividend, on the side given by the divisor's sign |
| Sliders.FloorMod | sliders.py:147 | Python's `%`: it completes `//` to the dividend and lies in [0, b) for b > 0 and in (b, 0] for b < 0 |
| Sliders.MaxNumColumns | sliders.py:118-122 | `None` (ZeroDivisionError) exactly when the slot width is zero; otherwise the largest count whose slots fit in the working width (for a negative slot width, the matching floor bound) |
| Sliders.MaxNumColumnsIsLargestFit | sliders.py:118-122 | for a positive slot width, k slots fit in the working width if and only if k ≤ the result |
| Sliders.OptimalColumns | sliders.py:137-156 | the closed form of the balanced column count: 1 when max is 0, n when n ≤ max, max when max divides n, ceil(n / (n // max + 1)) in the uneven case with max > 0, and max with max < 0; it is defined wherever the loop ends (its properties are in the lemmas below) |
| Sliders.RebalanceHangs | sliders.py:145-155 | the inputs on which the rebalancing loop never ends: a negative slot count that does not divide n, and whose loop guard holds on entry (each pass then keeps it true, see `RebalanceHangsForever`) |
| Sliders.CalcOptimalNumColumns | sliders.py:137-156 | the loop ends and returns the closed form `OptimalColumns`: 1 when max is 0, n when n ≤ max, max when max divides n, and otherwise ceil(n / (n // max + 1)); loop invariants: full rows × row width + last row = n, and empty = width − last row; each pass shrinks the gap by at least 2 |
| Sliders.FullRowsSign | sliders.py:146 | with more sliders than slots, a positive slot count gives at least one full row and a negative one gives none |
| Sliders.MoveColumnToLastRow | sliders.py:153-154 | one pass of the loop keeps every slider: full rows × width + last row stays n |
| Sliders.SettledColumns | sliders.py:152-156 | when the loop stops with f ≥ 1 full rows, the row width it reached is ceil(n / (f + 1)) |
| Sliders.OptimalColumnsIsFewestForSameRows | sliders.py:137-156 | for max ≥ 1 and n ≥ 1, the result lies in [1, max], is at most n, needs as many rows as max columns would, and every narrower grid needs more rows |
| Sliders.FewestWhenOneRow | sliders.py:139-140 | when n ≤ max, n columns make one row and any fewer make more |
| Sliders.FewestWhenEven | sliders.py:142-143 | when max divides n, max columns give n / max rows and any fewer give more |
| Sliders.FewestWhenUneven | sliders.py:145-156 | in the uneven case, ceil(n / (f + 1)) columns fit within max, need f + 1 rows like max columns, and any fewer need more |
| Sliders.RebalanceHangsForever | sliders.py:152-155 | on the negative slot counts `RebalanceHangs` names, the loop guard still holds after any number of passes, so the loop never ends |
| Sliders.NarrowFrameGivesNegativeColumns | sliders.py:118-143 | a working width from minus one slot width up to, but not including, zero gives -1 slots; for any number of sliders the balancing then returns -1 columns and does not hang |
| Sliders.CellAt | sliders.py:95-99 | the k-th generated cell: row ≥ 0, column in [0, num_columns), and row · num_columns + column == k |
| Sliders.CellAtRowMajor | sliders.py:95-99 | every generated cell has a column in [0, num_columns) and a row ≥ 0, and a later cell is in a later row, or in the same row and a later column, so no two cells coincide |
| Sliders.ColumnSequence.constructor | sliders.py:95 | a fresh generator starts at row 0, having yielded nothing |
| Sliders.ColumnSequence.Next | sliders.py:96-99 | the k-th call (from 0) yields cell (k div num_columns, k mod num_columns) |
| Sliders.Slider.constructor | sliders.py:62-87 | a new slider holds the given label, range, resolution and padding, and sits at the given cell |
| Sliders.Slider.Grid | sliders.py:58 | re-gridding moves the slider to the given cell |
| Sliders.CreateSliders | sliders.py:45-51 | one new slider per data tuple, in order, holding that tuple; the i-th slider is at the i-th generated cell; the sliders are distinct objects in distinct cells |
| Sliders.RepopulateSliders | sliders.py:54-58 | each slider ends in the cell generated for its last entry in the list; when the entries are distinct objects, no two share a cell |
| FractalPlot.LinSpace | fractal_plot_funcs.py:69 | `np.linspace(lo, hi, n)` has n samples |
| FractalPlot.Admissible | fractal_plot_funcs.py:41-85 | the calls that return normally (depth aside): `n_iters ≥ 1`, `n_splits ≥ 0` wherever `np.linspace` is reached (ValueError otherwise), and a non-zero `length_decay` where a branch call divides by it |
| FractalPlot.Angles | fractal_plot_funcs.py:66-69 | the split angles in degrees: `np.linspace` from start_angle − angle_delta/2 to start_angle + angle_delta/2 with n_splits samples |
| FractalPlot.EndPoint | fractal_plot_funcs.py:53-54 | the end of a line of the given length from a point at an angle in radians: (x + cos(angle)·length, y + sin(angle)·length), the same arithmetic as lines 78-79 |
| FractalPlot.Trunk | fractal_plot_funcs.py:50-57 | the trunk a first-iteration call draws: from (x, y) at rad(start_angle) with init_length |
| FractalPlot.Branch | fractal_plot_funcs.py:75-82 | the i-th branch a branch call draws: from (x, y) at rad of the i-th split angle with init_length |
| FractalPlot.TrunkChild | fractal_plot_funcs.py:60 | the trunk's recursive call: from the trunk's end, with n_iters − 1, first_iter False, and the caller's n_splits and angle_delta; init_length, start_angle and length_decay are the defaults 200, −90 and 2 |
| FractalPlot.BranchChild | fractal_plot_funcs.py:85 | a branch's recursive call: from the branch's end, with n_iters − 1, first_iter False, the caller's n_splits and angle_delta, the length divided by the caller's decay, and the branch angle converted back to degrees; length_decay is the default 2 |
| FractalPlot.Strokes | fractal_plot_funcs.py:41-85 | everything one call draws, in order: nothing when n_iters is 1, the trunk and then the trunk's call on the first iteration, and otherwise the branch loop (its properties are in `FractalProperties`) |
| FractalPlot.SplitStrokes | fractal_plot_funcs.py:72-85 | what the branch loop draws from the i-th angle on: each branch followed at once by everything its own call draws |
| FractalPlot.Canvas.CreateLine | fractal_plot_funcs.py:57 | appends exactly the segment (x0, y0)–(x1, y1) to the canvas log |
| FractalPlot.FractalCanopy | fractal_plot_funcs.py:41-85 | the canvas ends with exactly the lines of `Strokes` for the call appended, in drawing order; it needs `n_iters ≥ 1` (the recursion's decreasing measure) |
| FractalPlot.DrawBranch | fractal_plot_funcs.py:72-85 | one pass of the branch loop appends the i-th branch line and then everything the call from its end draws |
| FractalPlot.TrunkLines | fractal_plot_funcs.py:57-60 | a first-iteration call's lines are the trunk line followed by the lines of the call the trunk makes |
| FractalPlot.SplitLines | fractal_plot_funcs.py:82-85 | the branch loop's lines from the i-th angle on are the i-th branch line, the lines of its subtree, then the rest |
| FractalPlot.BranchPassLines | fractal_plot_funcs.py:82-85 | once the i-th branch line and its subtree's lines are on the canvas, the lines still to come are exactly those of the angles after the i-th |
| FractalProperties.StrokeCount | fractal_plot_funcs.py:41-85 | with n_iters = N and n_splits = s, a first-iteration call draws 1 + s + … + s^(N−2) strokes and a branch call draws s·(1 + … + s^(N−2)); N = 1 draws none |
| FractalProperties.GeomSumIsSumOfPowers | fractal_plot_funcs.py:41-85 | the stroke count's Horner form adds one power of s per level |
| FractalProperties.SplitCount | fractal_plot_funcs.py:72-85 | every angle from the i-th on contributes the same number of strokes, 1 + s + … + s^(N−2) |
| FractalProperties.DefaultCallDrawsThree | fractal_plot_funcs.py:5 | `fractal_canopy(canvas, x, y)` with every default draws a trunk and two branches |
| FractalProperties.SplitSuffix | fractal_plot_funcs.py:72-85 | what the loop draws from angle k on is the tail of what it draws from angle i ≤ k on |
| FractalProperties.BranchSizes | fractal_plot_funcs.py:72-85 | each branch with its subtree takes g ≥ 1 strokes, k·g of them come before the k-th branch, and its subtree has g − 1 |
| FractalProperties.BranchLayout | fractal_plot_funcs.py:72-85 | a branch call's stroke k·g is its k-th branch, leaving the call's own point (x, y); the g − 1 strokes after it are exactly what the call from that branch's end draws |
| FractalProperties.TrunkForwardsOnlyShape | fractal_plot_funcs.py:47-60 | a first-iteration call first draws the trunk from (x, y) to (x + cos(rad(start))·length, y + sin(rad(start))·length); everything after it is what a branch call from the trunk's end draws with length 200, start angle −90 and decay 2, and n_iters − 1 |
| FractalProperties.FirstBranchLevel | fractal_plot_funcs.py:60-69 | the k-th first-level branch leaves the trunk's end with length 200 at the k-th linspace angle over −90 ± angle_delta/2, whatever the caller's start angle and length |
| FractalProperties.BranchStrokeLengths | fractal_plot_funcs.py:72-85 | a branch call's own branches have its length L; a stroke m levels further down has length L / decay / 2^(m−1); every stroke's level is between 2 and n_iters |
| FractalProperties.SplitStrokeLengths | fractal_plot_funcs.py:72-85 | the same length law for what the branch loop draws from its i-th angle on |
| FractalProperties.TrunkStrokeLengths | fractal_plot_funcs.py:47-60 | a first-iteration call's trunk has the caller's length, and a stroke m levels below it has length 200 / 2^(m−1), whatever `init_length` and `length_decay` were passed |
| FractalProperties.StrokesConnected | fractal_plot_funcs.py:41-85 | the drawing is one tree: every stroke leaves the call's own point at its level, or the end of an earlier stroke one level up |
| FractalProperties.SplitConnected | fractal_plot_funcs.py:72-85 | the same connectivity for what the branch loop draws from its i-th angle on |
| FractalProperties.ConnectedUnderParent | fractal_plot_funcs.py:82-85 | a subtree hanging from a branch's end, with the branch put in front, is connected at the branch's start |
| FractalProperties.LinSpaceEnds | fractal_plot_funcs.py:66-69 | the split angles start at start − delta/2 and, with two or more splits, end at start + delta/2 |
| FractalProperties.LinSpaceEvenlySpaced | fractal_plot_funcs.py:66-69 | consecutive split angles are (right − left) / (n − 1) apart |
| FractalProperties.LinSpaceWithin | fractal_plot_funcs.py:66-69 | with left ≤ right every split angle lies between the two ends |
| FractalProperties.AnglesSymmetric | fractal_plot_funcs.py:66-69 | the i-th and the (n−1−i)-th split angles mirror each other about the start angle |
| FractalProperties.FewSplits | fractal_plot_funcs.py:66-69 | one split gives only the left end start − delta/2; two splits give exactly both ends |

## Left out

- mainwindow.py, zoom.py, draw_on_canvas.py and main.py are not part of this model. They hold window and widget setup, key and resize bindings, canvas pan and zoom, a demo drawing and the main loop.
- The `columnconfigure` weights set by `create_sliders` (sliders.py:42-43) are Tk calls. They have no effect on the placement and are not modelled.
- The Tk `Scale` widget is reduced to its data, its padding and its grid cell. Orientation, `sticky` and the widget's parent frame are not modelled.
- The values of `cos`, `sin`, `radians` and `degrees`, and NumPy's floating-point rounding, are not modelled. Coordinates, lengths and angles are exact reals, and trigonometry is an arbitrary `Trig` value.
- FractalPlot.FractalCanopy: `n_iters ≤ 0` is excluded by a precondition (`Admissible`). With `n_splits ≥ 1` the source then recurses until Python raises RecursionError. With `n_splits == 0` the branch loop is empty, so the call returns after drawing at most the trunk. The model does not cover that case.
- FractalPlot.FractalCanopy: Python's recursion limit is not modelled. Each tree level is one more nested call (fractal_plot_funcs.py:60 and 85), so the first root-to-leaf path is `n_iters` frames deep. With `n_splits ≥ 1` and `n_iters` near CPython's default limit of 1000 or above, the source raises RecursionError after drawing only part of the tree. The contract, and `StrokeCount`, describe only depths below that limit. No caller in this repository passes `n_iters`; the "Iterations" slider's range is 1 to 9 (mainwindow.py:77).
- FractalPlot.FractalCanopy: the ValueError `np.linspace` raises for a negative `n_splits` is excluded by a precondition. So is the ZeroDivisionError for `length_decay == 0` in a branch call.
- FractalPlot.DrawBranch: the body of the source's branch loop is modelled as a method of its own, which the loop calls.
- Sliders.CalcOptimalNumColumns: the negative slot counts on which the source's loop never ends (`RebalanceHangs`) are excluded by a precondition. `RebalanceHangsForever` shows that the loop never ends on them.
- Sliders.ColumnSequence.Next: requires `num_columns ≥ 1`. With fewer columns the generator's inner loop is empty, so `next()` never returns.
- Sliders.CreateSliders, Sliders.RepopulateSliders: require `num_columns ≥ 1` unless there are no sliders, for the same reason.
- Any caller that passes a frame width narrower than twice the frame padding, by at most one slot width, gets -1 slots and then -1 columns (`NarrowFrameGivesNegativeColumns`). With -1 columns, and given at least one slider, `create_sliders` and `repopulate_sliders` never return, because the first `next()` never yields. This application does not reach that hang along either of its paths, and its window code is not modelled. At startup it sets the window width to 1200 before measuring (mainwindow.py:45). On a resize to -1 columns, its handler first calls `columnconfigure` with index -1 (mainwindow.py:122-124), which Tk's grid refuses, before it gets to `repopulate_sliders` (mainwindow.py:126).
- Sliders.MaxNumColumns: Python's ZeroDivisionError for a zero slot width is the `None` result.
