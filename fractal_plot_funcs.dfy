/** The recursive fractal canopy: the strokes one call of `fractal_canopy`
    draws, as a pure sequence, and the drawing method that appends their lines
    to a canvas. The trigonometry (cos, sin, degrees-to-radians and back) is
    kept abstract: it is passed in as a `Trig` value and nothing is assumed
    about it. */
module FractalPlot {

  datatype Point = Point(x: real, y: real)

  /** A line on the canvas, from `start` to `end`. */
  datatype Segment = Segment(start: Point, end: Point)

  /** The numeric functions the drawing uses: `np.cos`, `np.sin`, `np.radians`
      and `np.degrees`, each an arbitrary function on reals. */
  datatype Trig = Trig(cosFn: real -> real, sinFn: real -> real, radFn: real -> real, degFn: real -> real)
  {
    function Cos(r: real): real { cosFn(r) }
    function Sin(r: real): real { sinFn(r) }
    function Rad(degrees: real): real { radFn(degrees) }
    function Deg(radians: real): real { degFn(radians) }
  }

  const DefaultInitLength: real := 200.0
  const DefaultAngleDelta: real := 10.0
  const DefaultStartAngle: real := -90.0
  const DefaultNSplits: int := 2
  const DefaultNIters: int := 3
  const DefaultLengthDecay: real := 2.0

  /** The arguments of one call (the canvas aside), with the same defaults as
      the source, so that a call which omits an argument gets the default. */
  datatype Call = Call(x: real, y: real,
                       initLength: real := DefaultInitLength,
                       angleDelta: real := DefaultAngleDelta,
                       startAngle: real := DefaultStartAngle,
                       nSplits: int := DefaultNSplits,
                       nIters: int := DefaultNIters,
                       lengthDecay: real := DefaultLengthDecay,
                       firstIter: bool := true)

  /** One drawn line together with the call data that produced it: the angle in
      radians, the length, and the `n_iters` of the call that drew it. */
  datatype Stroke = Stroke(line: Segment, radians: real, length: real, nIters: int)

  /** A call reaches `np.linspace`: itself, or the call its trunk makes, is a branch call. */
  predicate ReachesSplit(c: Call)
  {
    c.nIters >= 3 || (c.nIters == 2 && !c.firstIter)
  }

  /** What the source needs of a call to return normally: `n_iters >= 1` (below
      that the base case is never met), `n_splits >= 0` where `np.linspace` is
      reached (it raises ValueError otherwise), and a non-zero `length_decay`
      where a branch call divides by it. */
  predicate Admissible(c: Call)
  {
    c.nIters >= 1 &&
    (ReachesSplit(c) ==> c.nSplits >= 0) &&
    (!c.firstIter && c.nIters >= 2 && c.nSplits >= 1 ==> c.lengthDecay != 0.0)
  }

  /** The i-th of `n` evenly spaced samples from `lo` to `hi`, both included;
      a single sample is `lo`. */
  function Sample(lo: real, hi: real, n: nat, i: nat): real
  {
    if n == 1 then lo else lo + (i as real) * ((hi - lo) / ((n - 1) as real))
  }

  /** `np.linspace(lo, hi, n)`. */
  function LinSpace(lo: real, hi: real, n: nat): (r: seq<real>)
    ensures |r| == n
  {
    seq(n, i requires 0 <= i < n => Sample(lo, hi, n, i))
  }

  /** The split angles of a branch call, in degrees. */
  function Angles(c: Call): seq<real>
    requires c.nSplits >= 0
  {
    LinSpace(c.startAngle - c.angleDelta / 2.0, c.startAngle + c.angleDelta / 2.0, c.nSplits)
  }

  /** The end of a line of the given length leaving `from` at angle `radians`. */
  function EndPoint(t: Trig, from: Point, radians: real, length: real): Point
  {
    Point(from.x + t.Cos(radians) * length, from.y + t.Sin(radians) * length)
  }

  /** The stroke from `from` at angle `radians` with the given length. */
  function Draw(t: Trig, from: Point, radians: real, length: real, nIters: int): Stroke
  {
    Stroke(Segment(from, EndPoint(t, from, radians, length)), radians, length, nIters)
  }

  /** The call the trunk makes: only `n_iters`, `first_iter`, `n_splits` and
      `angle_delta` are passed, so `init_length`, `start_angle` and
      `length_decay` fall back to their defaults. */
  function TrunkChild(c: Call, end: Point): (child: Call)
    ensures Point(child.x, child.y) == end && child.nIters == c.nIters - 1 && !child.firstIter
    ensures child.nSplits == c.nSplits && child.angleDelta == c.angleDelta
    ensures child.initLength == DefaultInitLength && child.startAngle == DefaultStartAngle &&
            child.lengthDecay == DefaultLengthDecay
  {
    Call(end.x, end.y, nIters := c.nIters - 1, firstIter := false,
         nSplits := c.nSplits, angleDelta := c.angleDelta)
  }

  /** The call a branch makes: `length_decay` is not passed, so it falls back
      to its default. */
  function BranchChild(t: Trig, c: Call, branch: Stroke): (child: Call)
    requires c.lengthDecay != 0.0
    ensures Point(child.x, child.y) == branch.line.end && child.nIters == c.nIters - 1 && !child.firstIter
    ensures child.nSplits == c.nSplits && child.angleDelta == c.angleDelta
    ensures child.initLength * c.lengthDecay == c.initLength && child.startAngle == t.Deg(branch.radians)
    ensures child.lengthDecay == DefaultLengthDecay
  {
    Call(branch.line.end.x, branch.line.end.y, nIters := c.nIters - 1, firstIter := false,
         initLength := c.initLength / c.lengthDecay, startAngle := t.Deg(branch.radians),
         nSplits := c.nSplits, angleDelta := c.angleDelta)
  }

  /** The trunk a first-iteration call draws: from its own point, at its start
      angle, with its initial length. */
  function Trunk(t: Trig, c: Call): Stroke
  {
    Draw(t, Point(c.x, c.y), t.Rad(c.startAngle), c.initLength, c.nIters)
  }

  /** The i-th branch a branch call draws: from its own point, at the i-th
      split angle, with its initial length. */
  function Branch(t: Trig, c: Call, i: nat): Stroke
    requires c.nSplits >= 0 && i < c.nSplits
  {
    Draw(t, Point(c.x, c.y), t.Rad(Sample(c.startAngle - c.angleDelta / 2.0, c.startAngle + c.angleDelta / 2.0, c.nSplits, i)), c.initLength, c.nIters)
  }

  /** Everything one call draws, in drawing order. */
  function Strokes(t: Trig, c: Call): seq<Stroke>
    requires Admissible(c)
    decreases c.nIters, 1, 0
  {
    if c.nIters == 1 then []
    else if c.firstIter then
      var trunk := Trunk(t, c);
      [trunk] + Strokes(t, TrunkChild(c, trunk.line.end))
    else SplitStrokes(t, c, 0)
  }

  /** What a branch call draws for its split angles from the i-th on: each
      branch, followed at once by everything its own call draws. */
  function SplitStrokes(t: Trig, c: Call, i: nat): seq<Stroke>
    requires Admissible(c) && c.nIters >= 2 && !c.firstIter && i <= c.nSplits
    decreases c.nIters, 0, c.nSplits - i
  {
    if i == c.nSplits then []
    else
      var branch := Branch(t, c, i);
      [branch] + Strokes(t, BranchChild(t, c, branch)) + SplitStrokes(t, c, i + 1)
  }

  /** The lines of a sequence of strokes, as the canvas receives them. */
  function Lines(strokes: seq<Stroke>): seq<Segment>
  {
    seq(|strokes|, k requires 0 <= k < |strokes| => strokes[k].line)
  }

  lemma LinesConcat(a: seq<Stroke>, b: seq<Stroke>)
    ensures Lines(a + b) == Lines(a) + Lines(b)
  {
  }

  // ---------------------------------------------------------------------------
  // The canvas and the drawing method
  // ---------------------------------------------------------------------------

  /** The drawing surface, seen as the log of lines created on it. */
  class Canvas {
    var lines: seq<Segment>

    constructor ()
      ensures lines == []
    {
      lines := [];
    }

    /** `create_line(x0, y0, x1, y1)`. */
    method CreateLine(x0: real, y0: real, x1: real, y1: real)
      modifies this
      ensures lines == old(lines) + [Segment(Point(x0, y0), Point(x1, y1))]
    {
      lines := lines + [Segment(Point(x0, y0), Point(x1, y1))];
    }
  }

  /** `fractal_canopy`: draws the tree on the canvas, recursively. The canvas
      ends up with exactly the lines of `Strokes` appended, in that order. */
  method FractalCanopy(canvas: Canvas, t: Trig, x: real, y: real,
                       initLength: real := DefaultInitLength, angleDelta: real := DefaultAngleDelta,
                       startAngle: real := DefaultStartAngle, nSplits: int := DefaultNSplits,
                       nIters: int := DefaultNIters, lengthDecay: real := DefaultLengthDecay,
                       firstIter: bool := true)
    requires Admissible(Call(x, y, initLength, angleDelta, startAngle, nSplits, nIters, lengthDecay, firstIter))
    modifies canvas
    ensures canvas.lines == old(canvas.lines) +
      Lines(Strokes(t, Call(x, y, initLength, angleDelta, startAngle, nSplits, nIters, lengthDecay, firstIter)))
    decreases nIters, 1
  {
    var c := Call(x, y, initLength, angleDelta, startAngle, nSplits, nIters, lengthDecay, firstIter);
    if nIters == 1 {
      return;
    } else if firstIter {
      var radians := t.Rad(startAngle);
      var end := EndPoint(t, Point(x, y), radians, initLength);
      ghost var trunk := Draw(t, Point(x, y), radians, initLength, nIters);
      assert TrunkChild(c, trunk.line.end) == Call(end.x, end.y, nIters := nIters - 1, firstIter := false,
                                                   nSplits := nSplits, angleDelta := angleDelta);
      canvas.CreateLine(x, y, end.x, end.y);
      FractalCanopy(canvas, t, end.x, end.y, nIters := nIters - 1, firstIter := false,
                    nSplits := nSplits, angleDelta := angleDelta);
      TrunkLines(t, c);
    } else {
      var leftAngle := startAngle - angleDelta / 2.0;
      var rightAngle := startAngle + angleDelta / 2.0;
      var angles := LinSpace(leftAngle, rightAngle, nSplits);
      assert angles == Angles(c);
      assert Strokes(t, c) == SplitStrokes(t, c, 0);
      for i := 0 to |angles|
        invariant canvas.lines + Lines(SplitStrokes(t, c, i)) == old(canvas.lines) + Lines(Strokes(t, c))
      {
        DrawBranch(canvas, t, c, i, angles[i]);
      }
    }
  }

  /** One pass of the branch loop of `fractal_canopy`: the branch line at the
      i-th split angle, then the whole call made from its end. */
  method DrawBranch(canvas: Canvas, t: Trig, c: Call, i: nat, angle: real)
    requires Admissible(c) && c.nIters >= 2 && !c.firstIter && i < c.nSplits && angle == Angles(c)[i]
    modifies canvas
    ensures canvas.lines + Lines(SplitStrokes(t, c, i + 1)) == old(canvas.lines) + Lines(SplitStrokes(t, c, i))
    decreases c.nIters, 0
  {
    var radians := t.Rad(angle);
    var end := EndPoint(t, Point(c.x, c.y), radians, c.initLength);
    ghost var branch := Draw(t, Point(c.x, c.y), radians, c.initLength, c.nIters);
    AngleAt(c, i);
    assert branch == Branch(t, c, i);
    ghost var child := BranchChild(t, c, branch);
    assert child == Call(end.x, end.y, nIters := c.nIters - 1, firstIter := false,
                  initLength := c.initLength / c.lengthDecay, startAngle := t.Deg(radians),
                  nSplits := c.nSplits, angleDelta := c.angleDelta);
    canvas.CreateLine(c.x, c.y, end.x, end.y);
    ghost var mid := canvas.lines;
    assert mid == old(canvas.lines) + [branch.line];
    FractalCanopy(canvas, t, end.x, end.y, nIters := c.nIters - 1, firstIter := false,
                  initLength := c.initLength / c.lengthDecay, startAngle := t.Deg(radians),
                  nSplits := c.nSplits, angleDelta := c.angleDelta);
    assert canvas.lines == old(canvas.lines) + [branch.line] + Lines(Strokes(t, child));
    BranchPassLines(t, c, i, old(canvas.lines), canvas.lines);
  }

  /** The i-th split angle is the i-th evenly spaced sample over the spread. */
  lemma AngleAt(c: Call, i: nat)
    requires c.nSplits >= 0 && i < c.nSplits
    ensures Angles(c)[i] == Sample(c.startAngle - c.angleDelta / 2.0, c.startAngle + c.angleDelta / 2.0, c.nSplits, i)
  {
  }

  /** After a log has had the i-th branch line and its subtree's lines appended,
      the lines still to come are those of the angles after the i-th. */
  lemma BranchPassLines(t: Trig, c: Call, i: nat, before: seq<Segment>, after: seq<Segment>)
    requires Admissible(c) && c.nIters >= 2 && !c.firstIter && i < c.nSplits
    requires var branch := Branch(t, c, i);
      after == before + [branch.line] + Lines(Strokes(t, BranchChild(t, c, branch)))
    ensures after + Lines(SplitStrokes(t, c, i + 1)) == before + Lines(SplitStrokes(t, c, i))
  {
    var branch := Branch(t, c, i);
    SplitLines(t, c, i);
    AppendRegroup(before, branch.line, Lines(Strokes(t, BranchChild(t, c, branch))), Lines(SplitStrokes(t, c, i + 1)));
  }

  lemma AppendRegroup<T>(done: seq<T>, s: T, sub: seq<T>, rest: seq<T>)
    ensures done + ([s] + sub + rest) == (done + [s] + sub) + rest
  {
  }

  lemma TrunkLines(t: Trig, c: Call)
    requires Admissible(c) && c.nIters >= 2 && c.firstIter
    ensures var trunk := Trunk(t, c);
      Lines(Strokes(t, c)) == [trunk.line] + Lines(Strokes(t, TrunkChild(c, trunk.line.end)))
  {
    var trunk := Trunk(t, c);
    LinesConcat([trunk], Strokes(t, TrunkChild(c, trunk.line.end)));
  }

  lemma SplitLines(t: Trig, c: Call, i: nat)
    requires Admissible(c) && c.nIters >= 2 && !c.firstIter && i < c.nSplits
    ensures var branch := Branch(t, c, i);
      Lines(SplitStrokes(t, c, i)) ==
      [branch.line] + Lines(Strokes(t, BranchChild(t, c, branch))) + Lines(SplitStrokes(t, c, i + 1))
  {
    var branch := Branch(t, c, i);
    var sub := Strokes(t, BranchChild(t, c, branch));
    var rest := SplitStrokes(t, c, i + 1);
    assert SplitStrokes(t, c, i) == [branch] + sub + rest;
    calc {
      Lines(SplitStrokes(t, c, i));
      Lines(([branch] + sub) + rest);
      { LinesConcat([branch] + sub, rest); }
      Lines([branch] + sub) + Lines(rest);
      { LinesConcat([branch], sub); }
      Lines([branch]) + Lines(sub) + Lines(rest);
    }
    assert Lines([branch]) == [branch.line];
  }
}
