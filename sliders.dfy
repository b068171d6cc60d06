/** Grid layout of the parameter sliders: how many slider slots fit in a row,
    how the sliders are rebalanced over the rows, the row-major stream of grid
    cells, and the placement of the i-th slider in the i-th cell. */
module Sliders {

  datatype Option<T> = None | Some(value: T)

  // ---------------------------------------------------------------------------
  // Python integer division
  // ---------------------------------------------------------------------------

  /** Python's `a // b`: the quotient rounded toward negative infinity. */
  function FloorDiv(a: int, b: int): (q: int)
    requires b != 0
    ensures b > 0 ==> q * b <= a < q * b + b
    ensures b < 0 ==> q * b + b < a <= q * b
  {
    if b > 0 then a / b else (-a) / (-b)
  }

  /** Python's `a % b`: the remainder that goes with `//`; it takes the sign of `b`. */
  function FloorMod(a: int, b: int): (m: int)
    requires b != 0
    ensures FloorDiv(a, b) * b + m == a
    ensures b > 0 ==> 0 <= m < b
    ensures b < 0 ==> b < m <= 0
  {
    a - FloorDiv(a, b) * b
  }

  /** The quotient rounded up; for `b > 0` it is `-((-a) // b)` in Python. It is
      also the number of rows a grid of `b` columns needs for `a` sliders. */
  function CeilDiv(a: int, b: int): (q: int)
    requires b > 0
    ensures (q - 1) * b < a <= q * b
  {
    (a + b - 1) / b
  }

  lemma CeilDivUnique(a: int, b: int, q: int)
    requires b > 0 && (q - 1) * b < a <= q * b
    ensures CeilDiv(a, b) == q
  {
    var c := CeilDiv(a, b);
    if c < q {
      assert c * b <= (q - 1) * b by { MulMonotone(c, q - 1, b); }
      assert false;
    } else if c > q {
      assert q * b <= (c - 1) * b by { MulMonotone(q, c - 1, b); }
      assert false;
    }
  }

  lemma MulMonotone(x: int, y: int, b: int)
    requires x <= y && b >= 0
    ensures x * b <= y * b
  {
    assert y * b - x * b == (y - x) * b;
  }

  /** If `k` rows of `b` hold fewer than `a` items, `a` items need more than `k` rows. */
  lemma CeilDivAbove(a: int, b: int, k: int)
    requires b > 0 && k * b < a
    ensures CeilDiv(a, b) > k
  {
    var q := CeilDiv(a, b);
    if q <= k {
      MulMonotone(q, k, b);
      assert false;
    }
  }

  // ---------------------------------------------------------------------------
  // calc_max_num_columns
  // ---------------------------------------------------------------------------

  /** How many slider slots fit in a row: the frame width less the frame's
      padding on both sides, floor-divided by a slider's minimal width plus its
      padding on both sides. `None` stands for Python's ZeroDivisionError when
      that slot width is zero. */
  function MaxNumColumns(frameWidth: int, sliderFrameXPadding: int,
                         minimalSliderWidth: int, eachSliderXPadding: int): (r: Option<int>)
    ensures r.None? <==> minimalSliderWidth + 2 * eachSliderXPadding == 0
    ensures r.Some? && minimalSliderWidth + 2 * eachSliderXPadding > 0 ==>
      var working := frameWidth - 2 * sliderFrameXPadding;
      var slot := minimalSliderWidth + 2 * eachSliderXPadding;
      r.value * slot <= working < (r.value + 1) * slot
    ensures r.Some? && minimalSliderWidth + 2 * eachSliderXPadding < 0 ==>
      var working := frameWidth - 2 * sliderFrameXPadding;
      var slot := minimalSliderWidth + 2 * eachSliderXPadding;
      (r.value + 1) * slot < working <= r.value * slot
  {
    var workingFrameWidth := frameWidth - 2 * sliderFrameXPadding;
    var eachSliderMinWidth := minimalSliderWidth + 2 * eachSliderXPadding;
    if eachSliderMinWidth == 0 then None
    else Some(FloorDiv(workingFrameWidth, eachSliderMinWidth))
  }

  /** With a positive slot width, the result is the largest number of slots
      whose combined width does not exceed the working width. */
  lemma MaxNumColumnsIsLargestFit(frameWidth: int, sliderFrameXPadding: int,
                                  minimalSliderWidth: int, eachSliderXPadding: int, k: int)
    requires minimalSliderWidth + 2 * eachSliderXPadding > 0
    ensures MaxNumColumns(frameWidth, sliderFrameXPadding, minimalSliderWidth, eachSliderXPadding).Some?
    ensures var max := MaxNumColumns(frameWidth, sliderFrameXPadding, minimalSliderWidth, eachSliderXPadding).value;
      k * (minimalSliderWidth + 2 * eachSliderXPadding) <= frameWidth - 2 * sliderFrameXPadding <==> k <= max
  {
    var slot := minimalSliderWidth + 2 * eachSliderXPadding;
    var working := frameWidth - 2 * sliderFrameXPadding;
    var max := MaxNumColumns(frameWidth, sliderFrameXPadding, minimalSliderWidth, eachSliderXPadding).value;
    if k <= max {
      MulMonotone(k, max, slot);
    } else {
      MulMonotone(max + 1, k, slot);
    }
  }

  // ---------------------------------------------------------------------------
  // calc_optimal_num_columns
  // ---------------------------------------------------------------------------

  /** The inputs on which the rebalancing loop never ends: a negative slot count
      whose floor quotient is negative and whose loop guard holds on entry (for
      example 3 sliders and -2 slots). Each pass then leaves the guard true. */
  predicate RebalanceHangs(numOfSliders: int, maxSlotsInRow: int)
  {
    maxSlotsInRow < 0 && numOfSliders > maxSlotsInRow &&
    FloorMod(numOfSliders, maxSlotsInRow) != 0 &&
    (maxSlotsInRow - FloorMod(numOfSliders, maxSlotsInRow)) - 1 >= FloorDiv(numOfSliders, maxSlotsInRow)
  }

  /** Closed form of the number of columns the rebalancing settles on. In the
      uneven case with `f = n // max` full rows, it is the fewest columns that
      still hold all the sliders in `f + 1` rows. */
  function OptimalColumns(numOfSliders: int, maxSlotsInRow: int): int
    requires !RebalanceHangs(numOfSliders, maxSlotsInRow)
  {
    if maxSlotsInRow == 0 then 1
    else if numOfSliders <= maxSlotsInRow then numOfSliders
    else if FloorMod(numOfSliders, maxSlotsInRow) == 0 then maxSlotsInRow
    else if maxSlotsInRow > 0 then CeilDiv(numOfSliders, FloorDiv(numOfSliders, maxSlotsInRow) + 1)
    else maxSlotsInRow
  }

  /** The rebalancing loop: move one column's worth of sliders from the full
      rows into the last row while the last row has room for them. */
  method CalcOptimalNumColumns(numOfSliders: int, maxSlotsInRow: int) returns (columns: int)
    requires !RebalanceHangs(numOfSliders, maxSlotsInRow)
    ensures columns == OptimalColumns(numOfSliders, maxSlotsInRow)
    ensures maxSlotsInRow == 0 ==> columns == 1
    ensures maxSlotsInRow != 0 && numOfSliders <= maxSlotsInRow ==> columns == numOfSliders
  {
    if maxSlotsInRow == 0 {
      return 1;
    } else if numOfSliders <= maxSlotsInRow {
      return numOfSliders;
    } else if FloorMod(numOfSliders, maxSlotsInRow) == 0 {
      return maxSlotsInRow;
    }
    FullRowsSign(numOfSliders, maxSlotsInRow);
    var numberOfFullRows := FloorDiv(numOfSliders, maxSlotsInRow);
    var numOfSlidersInLastRow := FloorMod(numOfSliders, maxSlotsInRow);
    var emptyPlaceInLastRow := maxSlotsInRow - numOfSlidersInLastRow;
    var slidersInARow := maxSlotsInRow;
    while emptyPlaceInLastRow - 1 >= numberOfFullRows
      invariant numberOfFullRows * slidersInARow + numOfSlidersInLastRow == numOfSliders
      invariant emptyPlaceInLastRow == slidersInARow - numOfSlidersInLastRow
      invariant numberOfFullRows >= 1 ==> emptyPlaceInLastRow >= 0
      invariant numberOfFullRows < 1 ==>
        emptyPlaceInLastRow - 1 < numberOfFullRows && slidersInARow == maxSlotsInRow
      decreases emptyPlaceInLastRow - numberOfFullRows
    {
      ghost var emptyBefore := emptyPlaceInLastRow;
      MoveColumnToLastRow(numberOfFullRows, slidersInARow, numOfSlidersInLastRow, numOfSliders);
      slidersInARow := slidersInARow - 1;
      numOfSlidersInLastRow := numOfSlidersInLastRow + numberOfFullRows;
      emptyPlaceInLastRow := slidersInARow - numOfSlidersInLastRow;
      // each pass shrinks the gap in the last row by at least two places
      assert emptyPlaceInLastRow <= emptyBefore - 2;
    }
    if maxSlotsInRow > 0 {
      SettledColumns(numOfSliders, numberOfFullRows, slidersInARow, numOfSlidersInLastRow);
    }
    return slidersInARow;
  }

  /** With more sliders than slots, a positive slot count leaves at least one
      full row and a negative one leaves none. */
  lemma FullRowsSign(n: int, max: int)
    requires max != 0 && n > max
    ensures max > 0 ==> FloorDiv(n, max) >= 1
    ensures max < 0 ==> FloorDiv(n, max) <= 0
  {
    var q := FloorDiv(n, max);
    if max > 0 && q < 1 {
      MulMonotone(q, 0, max);
    }
  }

  /** Taking one column away moves one slider of each full row to the last row. */
  lemma MoveColumnToLastRow(fullRows: int, inARow: int, inLastRow: int, n: int)
    requires fullRows * inARow + inLastRow == n
    ensures fullRows * (inARow - 1) + (inLastRow + fullRows) == n
  {
    assert fullRows * (inARow - 1) == fullRows * inARow - fullRows;
  }

  /** When the loop stops with f >= 1 full rows, fewer than f + 1 empty places
      in the last row, the row width it settled on is ceil(n / (f + 1)). */
  lemma SettledColumns(n: int, fullRows: int, inARow: int, inLastRow: int)
    requires fullRows >= 1 && fullRows * inARow + inLastRow == n
    requires 0 <= inARow - inLastRow < fullRows + 1
    ensures CeilDiv(n, fullRows + 1) == inARow
  {
    assert inARow * (fullRows + 1) == n + (inARow - inLastRow) by {
      assert inARow * (fullRows + 1) == fullRows * inARow + inARow;
    }
    assert (inARow - 1) * (fullRows + 1) == inARow * (fullRows + 1) - (fullRows + 1);
    CeilDivUnique(n, fullRows + 1, inARow);
  }

  /** For a positive slot count and at least one slider, the balanced column
      count lies in [1, max], never exceeds the number of sliders, keeps the
      number of rows the widest layout needs, and is the fewest columns that do. */
  lemma OptimalColumnsIsFewestForSameRows(numOfSliders: int, maxSlotsInRow: int)
    requires maxSlotsInRow >= 1 && numOfSliders >= 1
    ensures var c := OptimalColumns(numOfSliders, maxSlotsInRow);
      1 <= c <= maxSlotsInRow && c <= numOfSliders &&
      CeilDiv(numOfSliders, c) == CeilDiv(numOfSliders, maxSlotsInRow) &&
      forall fewer :: 1 <= fewer < c ==>
        CeilDiv(numOfSliders, fewer) > CeilDiv(numOfSliders, maxSlotsInRow)
  {
    var n, max := numOfSliders, maxSlotsInRow;
    if n <= max {
      FewestWhenOneRow(n, max);
    } else if FloorMod(n, max) == 0 {
      FewestWhenEven(n, max, FloorDiv(n, max));
    } else {
      FewestWhenUneven(n, max, FloorDiv(n, max));
    }
  }

  /** All sliders fit in one row: n columns, and fewer would need a second row. */
  lemma FewestWhenOneRow(n: int, max: int)
    requires 1 <= n <= max
    ensures CeilDiv(n, n) == 1 && CeilDiv(n, max) == 1
    ensures forall fewer :: 1 <= fewer < n ==> CeilDiv(n, fewer) > 1
  {
    CeilDivUnique(n, n, 1);
    CeilDivUnique(n, max, 1);
    forall fewer | 1 <= fewer < n ensures CeilDiv(n, fewer) > 1 {
      CeilDivAbove(n, fewer, 1);
    }
  }

  /** The sliders fill f rows of max exactly; fewer columns would need more rows. */
  lemma FewestWhenEven(n: int, max: int, f: int)
    requires max >= 1 && n > max && f * max == n
    ensures CeilDiv(n, max) == f
    ensures forall fewer :: 1 <= fewer < max ==> CeilDiv(n, fewer) > f
  {
    CeilDivUnique(n, max, f);
    assert f >= 1 by {
      if f < 1 {
        MulMonotone(f, 0, max);
      }
    }
    forall fewer | 1 <= fewer < max ensures CeilDiv(n, fewer) > f {
      assert f * fewer < f * max by {
        assert f * max - f * fewer == f * (max - fewer);
      }
      CeilDivAbove(n, fewer, f);
    }
  }

  /** The last of f + 1 rows is partly empty: c = ceil(n / (f + 1)) columns
      still need exactly f + 1 rows, no more than max, and fewer need more. */
  lemma FewestWhenUneven(n: int, max: int, f: int)
    requires max >= 1 && n > max && f * max < n < f * max + max
    ensures var c := CeilDiv(n, f + 1);
      1 <= c <= max && c <= n &&
      CeilDiv(n, c) == f + 1 && CeilDiv(n, max) == f + 1 &&
      forall fewer :: 1 <= fewer < c ==> CeilDiv(n, fewer) > f + 1
  {
    assert f >= 1 by {
      if f < 1 {
        MulMonotone(f, 0, max);
      }
    }
    // the widest layout needs f + 1 rows
    CeilDivUnique(n, max, f + 1);
    var c := CeilDiv(n, f + 1);
    UnevenColumnsFit(n, max, f, c);
    UnevenColumnsKeepRows(n, max, f, c);
    forall fewer | 1 <= fewer < c ensures CeilDiv(n, fewer) > f + 1 {
      MulMonotone(fewer, c - 1, f + 1);
      CeilDivAbove(n, fewer, f + 1);
    }
  }

  /** c = ceil(n / (f + 1)) lies in [1, min(max, n)], because max columns
      already hold n sliders in f + 1 rows. */
  lemma UnevenColumnsFit(n: int, max: int, f: int, c: int)
    requires max >= 1 && f >= 1 && n > max && f * max < n <= (f + 1) * max
    requires c == CeilDiv(n, f + 1)
    ensures 1 <= c <= max && c <= n
  {
    if c > max {
      MulMonotone(max, c - 1, f + 1);
    }
    if c < 1 {
      MulMonotone(c, 0, f + 1);
    }
    MulMonotone(1, f + 1, c - 1);
  }

  /** c columns need exactly f + 1 rows: c * f <= max * f < n <= c * (f + 1). */
  lemma UnevenColumnsKeepRows(n: int, max: int, f: int, c: int)
    requires 1 <= c <= max && f >= 1 && f * max < n
    requires (c - 1) * (f + 1) < n <= c * (f + 1)
    ensures CeilDiv(n, c) == f + 1
  {
    MulMonotone(c, max, f);
    assert f * c == c * f;
    assert (f + 1) * c == c * (f + 1);
    CeilDivUnique(n, c, f + 1);
  }

  /** On the inputs `RebalanceHangs` names, the loop guard still holds after any
      number of passes, so the source's loop does not end. */
  lemma {:induction false} RebalanceHangsForever(numOfSliders: int, maxSlotsInRow: int, passes: nat)
    requires RebalanceHangs(numOfSliders, maxSlotsInRow)
    ensures var full := FloorDiv(numOfSliders, maxSlotsInRow);
      var inARow := maxSlotsInRow - passes;
      var inLastRow := FloorMod(numOfSliders, maxSlotsInRow) + passes * full;
      (inARow - inLastRow) - 1 >= full
  {
    var full := FloorDiv(numOfSliders, maxSlotsInRow);
    var last := FloorMod(numOfSliders, maxSlotsInRow);
    assert full <= -1;
    if passes > 0 {
      RebalanceHangsForever(numOfSliders, maxSlotsInRow, passes - 1);
      assert passes * full == (passes - 1) * full + full;
    }
  }

  /** A frame narrower than twice its padding, by at most one slot width, has
      room for -1 slots, and the balancing then settles on -1 columns for any
      number of sliders, since every count is a multiple of -1. A column
      sequence over -1 columns never yields a cell. */
  lemma NarrowFrameGivesNegativeColumns(frameWidth: int, sliderFrameXPadding: int,
                                         minimalSliderWidth: int, eachSliderXPadding: int,
                                         numOfSliders: int)
    requires minimalSliderWidth + 2 * eachSliderXPadding > 0
    requires -(minimalSliderWidth + 2 * eachSliderXPadding) <= frameWidth - 2 * sliderFrameXPadding < 0
    requires numOfSliders >= 0
    ensures MaxNumColumns(frameWidth, sliderFrameXPadding, minimalSliderWidth, eachSliderXPadding) == Some(-1)
    ensures !RebalanceHangs(numOfSliders, -1) && OptimalColumns(numOfSliders, -1) == -1
  {
    var slot := minimalSliderWidth + 2 * eachSliderXPadding;
    var working := frameWidth - 2 * sliderFrameXPadding;
    var q := FloorDiv(working, slot);
    if q >= 0 {
      MulMonotone(0, q, slot);
    } else if q <= -2 {
      MulMonotone(q + 1, -1, slot);
    }
    assert FloorMod(numOfSliders, -1) == 0;
  }

  // ---------------------------------------------------------------------------
  // column_sequence_generator
  // ---------------------------------------------------------------------------

  datatype Cell = Cell(row: int, column: int)

  /** The k-th cell (from 0) of a row-major walk over `numColumns` columns. */
  function CellAt(k: nat, numColumns: int): (cell: Cell)
    requires numColumns >= 1
    ensures 0 <= cell.row && 0 <= cell.column < numColumns
    ensures cell.row * numColumns + cell.column == k
  {
    Cell(k / numColumns, k % numColumns)
  }

  /** Cells lie in the grid and come in strictly increasing row-major order:
      rows never decrease, and within a row the column grows. */
  lemma CellAtRowMajor(i: nat, j: nat, numColumns: int)
    requires numColumns >= 1 && i < j
    ensures 0 <= CellAt(i, numColumns).column < numColumns && 0 <= CellAt(i, numColumns).row
    ensures CellAt(i, numColumns).row < CellAt(j, numColumns).row ||
            (CellAt(i, numColumns).row == CellAt(j, numColumns).row &&
             CellAt(i, numColumns).column < CellAt(j, numColumns).column)
  {
    var n := numColumns;
    var qi, ri, qj, rj := i / n, i % n, j / n, j % n;
    assert i == qi * n + ri && j == qj * n + rj;
    if qj < qi {
      MulMonotone(qj + 1, qi, n);
      assert false;
    }
  }

  lemma DivModOfRowMajor(row: int, column: int, numColumns: int)
    requires numColumns >= 1 && row >= 0 && 0 <= column < numColumns
    ensures (row * numColumns + column) / numColumns == row
    ensures (row * numColumns + column) % numColumns == column
  {
    var k := row * numColumns + column;
    var q, r := k / numColumns, k % numColumns;
    assert q * numColumns + r == row * numColumns + column;
    if q < row {
      MulMonotone(q + 1, row, numColumns);
      assert false;
    } else if q > row {
      MulMonotone(row + 1, q, numColumns);
      assert false;
    }
  }

  /** The suspended generator: the cell it yields next. A non-positive column
      count makes the inner `for` empty, so the generator never yields. */
  class ColumnSequence {
    const numColumns: int
    var row: int
    var column: int
    ghost var yielded: nat

    ghost predicate Valid()
      reads this
    {
      numColumns >= 1 ==>
        0 <= row && 0 <= column < numColumns && row * numColumns + column == yielded
    }

    constructor (numColumns: int)
      ensures Valid() && this.numColumns == numColumns && yielded == 0
    {
      this.numColumns := numColumns;
      row, column := 0, 0;
      yielded := 0;
    }

    /** `next(column_sequence)`: the k-th call yields the k-th row-major cell. */
    method Next() returns (cell: Cell)
      requires Valid() && numColumns >= 1
      modifies this
      ensures Valid() && yielded == old(yielded) + 1
      ensures cell == CellAt(old(yielded), numColumns)
    {
      DivModOfRowMajor(row, column, numColumns);
      cell := Cell(row, column);
      column := column + 1;
      if column == numColumns {
        row, column := row + 1, 0;
      }
      yielded := yielded + 1;
    }
  }

  // ---------------------------------------------------------------------------
  // create_slider, create_sliders, repopulate_sliders
  // ---------------------------------------------------------------------------

  /** One tuple of slider data: label, range and resolution. */
  datatype SliderSpec = SliderSpec(labelText: string, from: real, to: real, resolution: real)

  /** A slider widget placed in the grid of the slider frame. */
  class Slider {
    const spec: SliderSpec
    const xPadding: int
    const yPadding: int
    var row: int
    var column: int

    function Placement(): Cell
      reads this
    {
      Cell(row, column)
    }

    /** `create_slider`: a slider with the given data, gridded at (row, column). */
    constructor (xPadding: int, yPadding: int, spec: SliderSpec, row: int, column: int)
      ensures this.spec == spec && this.xPadding == xPadding && this.yPadding == yPadding
      ensures Placement() == Cell(row, column)
    {
      this.spec := spec;
      this.xPadding, this.yPadding := xPadding, yPadding;
      this.row, this.column := row, column;
    }

    /** `grid(row=…, column=…)` on a slider already gridded: only its cell changes. */
    method Grid(row: int, column: int)
      modifies this
      ensures Placement() == Cell(row, column)
    {
      this.row, this.column := row, column;
    }
  }

  /** The i-th tuple of slider data becomes a new slider in the i-th cell. */
  method CreateSliders(slidersInitData: seq<SliderSpec>, numColumns: int, xPadding: int, yPadding: int)
    returns (sliders: seq<Slider>)
    requires numColumns >= 1 || slidersInitData == []
    ensures |sliders| == |slidersInitData|
    ensures forall i :: 0 <= i < |sliders| ==>
      fresh(sliders[i]) && sliders[i].spec == slidersInitData[i] &&
      sliders[i].xPadding == xPadding && sliders[i].yPadding == yPadding
    ensures forall i :: 0 <= i < |sliders| ==> sliders[i].Placement() == CellAt(i, numColumns)
    ensures forall i, j :: 0 <= i < j < |sliders| ==>
      sliders[i] != sliders[j] && sliders[i].Placement() != sliders[j].Placement()
  {
    var columnSequence := new ColumnSequence(numColumns);
    sliders := [];
    for i := 0 to |slidersInitData|
      invariant |sliders| == i
      invariant fresh(columnSequence) && columnSequence.Valid()
      invariant columnSequence.numColumns == numColumns && columnSequence.yielded == i
      invariant forall k :: 0 <= k < i ==>
        fresh(sliders[k]) && sliders[k].spec == slidersInitData[k] &&
        sliders[k].xPadding == xPadding && sliders[k].yPadding == yPadding &&
        sliders[k].Placement() == CellAt(k, numColumns)
      invariant forall k, l :: 0 <= k < l < i ==> sliders[k] != sliders[l]
    {
      var placement := columnSequence.Next();
      var slider := new Slider(xPadding, yPadding, slidersInitData[i], placement.row, placement.column);
      sliders := sliders + [slider];
    }
    forall i, j | 0 <= i < j < |sliders|
      ensures sliders[i].Placement() != sliders[j].Placement()
    {
      CellAtRowMajor(i, j, numColumns);
    }
  }

  /** No later entry of `sliders` is the same widget as entry `i`. */
  ghost predicate LastOccurrence(sliders: seq<Slider>, i: int)
  {
    0 <= i < |sliders| && forall j :: i < j < |sliders| ==> sliders[j] != sliders[i]
  }

  /** Re-grid the sliders for a new column count: the i-th slider moves to the
      i-th cell (a widget listed twice ends in the cell of its last entry). */
  method RepopulateSliders(sliders: seq<Slider>, numColumns: int)
    requires numColumns >= 1 || sliders == []
    modifies set s | s in sliders
    ensures forall i :: 0 <= i < |sliders| && LastOccurrence(sliders, i) ==>
      sliders[i].Placement() == CellAt(i, numColumns)
    ensures (forall i, j :: 0 <= i < j < |sliders| ==> sliders[i] != sliders[j]) ==>
      forall i, j :: 0 <= i < j < |sliders| ==> sliders[i].Placement() != sliders[j].Placement()
  {
    var columnSequence := new ColumnSequence(numColumns);
    for i := 0 to |sliders|
      invariant fresh(columnSequence) && columnSequence.Valid()
      invariant columnSequence.numColumns == numColumns && columnSequence.yielded == i
      invariant forall k :: 0 <= k < i && LastOccurrence(sliders[..i], k) ==>
        sliders[k].Placement() == CellAt(k, numColumns)
    {
      var placement := columnSequence.Next();
      sliders[i].Grid(placement.row, placement.column);
    }
    assert sliders[..|sliders|] == sliders;
    if forall i, j :: 0 <= i < j < |sliders| ==> sliders[i] != sliders[j] {
      forall i, j | 0 <= i < j < |sliders|
        ensures sliders[i].Placement() != sliders[j].Placement()
      {
        CellAtRowMajor(i, j, numColumns);
      }
    }
  }
}
