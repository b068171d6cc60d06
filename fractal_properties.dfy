/** What the canopy drawing promises: how many strokes a call draws, where
    each branch and its subtree sit in the drawing order, how the strokes
    hang together, which lengths they get, and the shape of the split angles. */
module FractalProperties {
  import opened FractalPlot

  // ---------------------------------------------------------------------------
  // Counting
  // ---------------------------------------------------------------------------

  function Pow(s: int, k: nat): int
  {
    if k == 0 then 1 else s * Pow(s, k - 1)
  }

  /** 1 + s + ... + s^(k-1), in Horner form. */
  function GeomSum(s: int, k: nat): int
  {
    if k == 0 then 0 else 1 + s * GeomSum(s, k - 1)
  }

  /** The Horner form is the sum of the first k powers of s. */
  lemma {:induction false} GeomSumIsSumOfPowers(s: int, k: nat)
    ensures GeomSum(s, k + 1) == GeomSum(s, k) + Pow(s, k)
  {
    if k > 0 {
      GeomSumIsSumOfPowers(s, k - 1);
      calc {
        GeomSum(s, k + 1);
        1 + s * GeomSum(s, k);
        1 + s * (GeomSum(s, k - 1) + Pow(s, k - 1));
        { assert s * (GeomSum(s, k - 1) + Pow(s, k - 1)) == s * GeomSum(s, k - 1) + s * Pow(s, k - 1); }
        GeomSum(s, k) + Pow(s, k);
      }
    }
  }

  /** With a non-negative split count, every level adds at least one stroke. */
  lemma {:induction false} GeomSumPositive(s: int, k: nat)
    requires s >= 0 && k >= 1
    ensures GeomSum(s, k) >= 1
  {
    if k > 1 {
      GeomSumPositive(s, k - 1);
    }
  }

  /** A call with `n_iters == N` and `n_splits == s` draws 1 + s + ... + s^(N-2)
      strokes when it starts with a trunk, and s + s^2 + ... + s^(N-1) when it
      is a branch call; in particular `n_iters == 1` draws nothing. */
  lemma {:induction false} StrokeCount(t: Trig, c: Call)
    requires Admissible(c)
    ensures |Strokes(t, c)| ==
      if c.firstIter then GeomSum(c.nSplits, c.nIters - 1)
      else c.nSplits * GeomSum(c.nSplits, c.nIters - 1)
    decreases c.nIters, 1, 0
  {
    if c.nIters == 1 {
    } else if c.firstIter {
      StrokeCount(t, TrunkChild(c, Trunk(t, c).line.end));
    } else {
      SplitCount(t, c, 0);
    }
  }

  /** One branch with its subtree plus the remaining branches. */
  lemma CountStep(s: int, n: nat, i: int)
    requires n >= 2
    ensures 1 + s * GeomSum(s, n - 2) + (s - i - 1) * GeomSum(s, n - 1) == (s - i) * GeomSum(s, n - 1)
  {
    var g := GeomSum(s, n - 1);
    assert g == 1 + s * GeomSum(s, n - 2);
    assert (s - i - 1) * g + g == (s - i) * g;
  }

  /** The branches from the i-th on each contribute the same number of strokes. */
  lemma {:induction false} SplitCount(t: Trig, c: Call, i: nat)
    requires Admissible(c) && c.nIters >= 2 && !c.firstIter && i <= c.nSplits
    ensures |SplitStrokes(t, c, i)| == (c.nSplits - i) * GeomSum(c.nSplits, c.nIters - 1)
    decreases c.nIters, 0, c.nSplits - i
  {
    if i < c.nSplits {
      var branch := Branch(t, c, i);
      var child := BranchChild(t, c, branch);
      StrokeCount(t, child);
      SplitCount(t, c, i + 1);
      assert child.nSplits == c.nSplits && child.nIters == c.nIters - 1 && !child.firstIter;
      assert SplitStrokes(t, c, i) == [branch] + Strokes(t, child) + SplitStrokes(t, c, i + 1);
      CountStep(c.nSplits, c.nIters, i);
    }
  }

  /** The default call, `fractal_canopy(canvas, x, y)`, draws a trunk and two branches. */
  lemma DefaultCallDrawsThree(t: Trig, x: real, y: real)
    ensures |Strokes(t, Call(x, y))| == 3
  {
    StrokeCount(t, Call(x, y));
  }

  // ---------------------------------------------------------------------------
  // Layout: each branch is followed at once by its own subtree
  // ---------------------------------------------------------------------------

  lemma SuffixAfterPrefix<T>(head: seq<T>, rest: seq<T>, tail: seq<T>)
    requires |tail| <= |rest| && rest[|rest| - |tail|..] == tail
    ensures |tail| <= |head + rest| && (head + rest)[|head + rest| - |tail|..] == tail
  {
    assert (head + rest)[|head + rest| - |tail|..] == rest[|rest| - |tail|..];
  }

  lemma ElementsAt<T>(all: seq<T>, off: nat, x: T, sub: seq<T>, rest: seq<T>)
    requires off <= |all| && all[off..] == [x] + sub + rest
    ensures off + 1 + |sub| <= |all| && all[off] == x && all[off + 1 .. off + 1 + |sub|] == sub
  {
    assert all[off] == all[off..][0];
    assert all[off + 1 .. off + 1 + |sub|] == all[off..][1 .. 1 + |sub|];
  }

  /** What a branch call draws from its k-th split angle on is the tail of what
      it draws from any earlier split angle. */
  lemma {:induction false} SplitSuffix(t: Trig, c: Call, i: nat, k: nat)
    requires Admissible(c) && c.nIters >= 2 && !c.firstIter && i <= k <= c.nSplits
    ensures |SplitStrokes(t, c, k)| <= |SplitStrokes(t, c, i)|
    ensures SplitStrokes(t, c, i)[|SplitStrokes(t, c, i)| - |SplitStrokes(t, c, k)|..] == SplitStrokes(t, c, k)
    decreases k - i
  {
    if i < k {
      SplitSuffix(t, c, i + 1, k);
      var branch := Branch(t, c, i);
      var head := [branch] + Strokes(t, BranchChild(t, c, branch));
      assert SplitStrokes(t, c, i) == head + SplitStrokes(t, c, i + 1);
      SuffixAfterPrefix(head, SplitStrokes(t, c, i + 1), SplitStrokes(t, c, k));
    }
  }

  lemma OffsetOfBranch(s: int, k: int, g: int)
    ensures s * g - (s - k) * g == k * g
  {
  }

  /** The sizes behind the layout of a branch call: g >= 1 strokes per branch,
      k * g of them before the k-th branch, g - 1 in each branch's subtree. */
  lemma BranchSizes(t: Trig, c: Call, k: nat)
    requires Admissible(c) && c.nIters >= 2 && !c.firstIter && k < c.nSplits
    ensures var g := GeomSum(c.nSplits, c.nIters - 1);
      g >= 1 && |SplitStrokes(t, c, 0)| - |SplitStrokes(t, c, k)| == k * g &&
      |Strokes(t, BranchChild(t, c, Branch(t, c, k)))| == g - 1
  {
    var g := GeomSum(c.nSplits, c.nIters - 1);
    GeomSumPositive(c.nSplits, c.nIters - 1);
    SplitCount(t, c, 0);
    SplitCount(t, c, k);
    OffsetOfBranch(c.nSplits, k, g);
    var child := BranchChild(t, c, Branch(t, c, k));
    StrokeCount(t, child);
    assert child.nSplits == c.nSplits && child.nIters == c.nIters - 1 && !child.firstIter;
  }

  /** A branch call's k-th branch is stroke k * g of its drawing, where g >= 1
      is the size of one branch with its subtree, and the g - 1 strokes after
      it are exactly what the call made from that branch's end draws. */
  lemma BranchLayout(t: Trig, c: Call, k: nat)
    requires Admissible(c) && c.nIters >= 2 && !c.firstIter && k < c.nSplits
    ensures var g := GeomSum(c.nSplits, c.nIters - 1);
      var strokes := Strokes(t, c);
      g >= 1 && k * g + g <= |strokes| &&
      strokes[k * g] == Branch(t, c, k) && strokes[k * g].line.start == Point(c.x, c.y) &&
      strokes[k * g + 1 .. k * g + g] == Strokes(t, BranchChild(t, c, Branch(t, c, k)))
  {
    var g := GeomSum(c.nSplits, c.nIters - 1);
    var all := SplitStrokes(t, c, 0);
    var tail := SplitStrokes(t, c, k);
    assert Strokes(t, c) == all;
    SplitSuffix(t, c, 0, k);
    BranchSizes(t, c, k);
    var branch := Branch(t, c, k);
    var sub := Strokes(t, BranchChild(t, c, branch));
    var off := |all| - |tail|;
    assert off == k * g && |sub| == g - 1;
    assert tail == [branch] + sub + SplitStrokes(t, c, k + 1);
    ElementsAt(all, off, branch, sub, SplitStrokes(t, c, k + 1));
  }

  /** A first-iteration call draws its trunk from its own point at its start
      angle first; after it, it draws what a branch call from the trunk's end draws with the default length 200, start angle -90 and
      length decay 2: its own `init_length`, `start_angle` and `length_decay`
      do not reach past the trunk. */
  lemma TrunkForwardsOnlyShape(t: Trig, c: Call)
    requires Admissible(c) && c.firstIter && c.nIters >= 2
    ensures var end := Trunk(t, c).line.end;
      var strokes := Strokes(t, c);
      |strokes| >= 1 && strokes[0] == Trunk(t, c) &&
      strokes[0].line == Segment(Point(c.x, c.y),
                                 Point(c.x + t.Cos(t.Rad(c.startAngle)) * c.initLength,
                                       c.y + t.Sin(t.Rad(c.startAngle)) * c.initLength)) &&
      strokes[1..] == Strokes(t, Call(end.x, end.y, initLength := 200.0, startAngle := -90.0,
                                      lengthDecay := 2.0, nIters := c.nIters - 1,
                                      nSplits := c.nSplits, angleDelta := c.angleDelta,
                                      firstIter := false))
  {
    var end := Trunk(t, c).line.end;
    assert TrunkChild(c, end) == Call(end.x, end.y, initLength := 200.0, startAngle := -90.0,
                                      lengthDecay := 2.0, nIters := c.nIters - 1,
                                      nSplits := c.nSplits, angleDelta := c.angleDelta,
                                      firstIter := false);
  }

  /** The first branch level of a first-iteration call: its k-th branch leaves
      the trunk's end with length 200 at the k-th of `n_splits` angles spread
      evenly over -90 - angle_delta/2 .. -90 + angle_delta/2, whatever the
      caller's start angle and initial length were. */
  lemma FirstBranchLevel(t: Trig, c: Call, k: nat)
    requires Admissible(c) && c.firstIter && c.nIters >= 3 && k < c.nSplits
    ensures var g := GeomSum(c.nSplits, c.nIters - 2);
      var end := Trunk(t, c).line.end;
      var strokes := Strokes(t, c);
      g >= 1 && 1 + k * g < |strokes| &&
      strokes[1 + k * g] ==
        Draw(t, end, t.Rad(LinSpace(-90.0 - c.angleDelta / 2.0, -90.0 + c.angleDelta / 2.0, c.nSplits)[k]),
             200.0, c.nIters - 1)
  {
    var end := Trunk(t, c).line.end;
    var child := TrunkChild(c, end);
    var g := GeomSum(c.nSplits, c.nIters - 2);
    assert GeomSum(child.nSplits, child.nIters - 1) == g;
    BranchLayout(t, child, k);
    var sub := Strokes(t, child);
    var off := k * g;
    assert g >= 1 && off + g <= |sub| && sub[off] == Branch(t, child, k);
    assert Strokes(t, c) == [Trunk(t, c)] + sub;
    AfterHead(Trunk(t, c), sub, off);
    assert Point(child.x, child.y) == end;
  }

  lemma AfterHead<T>(x: T, rest: seq<T>, j: nat)
    requires j < |rest|
    ensures 1 + j < |[x] + rest| && ([x] + rest)[1 + j] == rest[j]
  {
  }

  // ---------------------------------------------------------------------------
  // Lengths: below the first branch level the decay is always the default 2
  // ---------------------------------------------------------------------------

  function Pow2(k: nat): (r: real)
    ensures r >= 1.0
  {
    if k == 0 then 1.0 else 2.0 * Pow2(k - 1)
  }

  /** Halving once more is one more power of two. */
  lemma HalveAgain(a: real, k: nat)
    ensures a / 2.0 / Pow2(k) == a / Pow2(k + 1)
  {
    assert Pow2(k + 1) == 2.0 * Pow2(k);
  }

  /** The lengths a branch call with initial length L and decay D draws: its
      own branches have length L; a stroke m levels further down has length
      L / D / 2^(m-1), because the calls below it are made without
      `length_decay` and so halve. Every stroke is drawn at a level between 2
      and the call's `n_iters`. */
  ghost predicate BranchLengths(strokes: seq<Stroke>, c: Call)
  {
    forall st :: st in strokes ==>
      2 <= st.nIters <= c.nIters &&
      (st.nIters == c.nIters ==> st.length == c.initLength) &&
      (st.nIters < c.nIters ==>
         (c.lengthDecay != 0.0 && st.length == c.initLength / c.lengthDecay / Pow2(c.nIters - 1 - st.nIters)))
  }

  lemma {:induction false} BranchStrokeLengths(t: Trig, c: Call)
    requires Admissible(c) && !c.firstIter
    ensures BranchLengths(Strokes(t, c), c)
    decreases c.nIters, 1, 0
  {
    if c.nIters >= 2 {
      SplitStrokeLengths(t, c, 0);
    }
  }

  lemma {:induction false} SplitStrokeLengths(t: Trig, c: Call, i: nat)
    requires Admissible(c) && c.nIters >= 2 && !c.firstIter && i <= c.nSplits
    ensures BranchLengths(SplitStrokes(t, c, i), c)
    decreases c.nIters, 0, c.nSplits - i
  {
    if i < c.nSplits {
      var branch := Branch(t, c, i);
      var child := BranchChild(t, c, branch);
      BranchStrokeLengths(t, child);
      SplitStrokeLengths(t, c, i + 1);
      forall st | st in Strokes(t, child)
        ensures 2 <= st.nIters < c.nIters && c.lengthDecay != 0.0 &&
          st.length == c.initLength / c.lengthDecay / Pow2(c.nIters - 1 - st.nIters)
      {
        if st.nIters < child.nIters {
          HalveAgain(c.initLength / c.lengthDecay, child.nIters - 1 - st.nIters);
        }
      }
      assert SplitStrokes(t, c, i) == [branch] + Strokes(t, child) + SplitStrokes(t, c, i + 1);
    }
  }

  /** The lengths a first-iteration call draws: the trunk has the caller's
      length, and a stroke m levels below it has length 200 / 2^(m-1), whatever
      `init_length` and `length_decay` the caller passed. */
  lemma TrunkStrokeLengths(t: Trig, c: Call)
    requires Admissible(c) && c.firstIter
    ensures forall st :: st in Strokes(t, c) ==>
      2 <= st.nIters <= c.nIters &&
      (st.nIters == c.nIters ==> st.length == c.initLength) &&
      (st.nIters < c.nIters ==> st.length == 200.0 / Pow2(c.nIters - 1 - st.nIters))
  {
    if c.nIters >= 2 {
      var child := TrunkChild(c, Trunk(t, c).line.end);
      BranchStrokeLengths(t, child);
      forall st | st in Strokes(t, child)
        ensures 2 <= st.nIters < c.nIters && st.length == 200.0 / Pow2(c.nIters - 1 - st.nIters)
      {
        if st.nIters < child.nIters {
          HalveAgain(200.0, child.nIters - 1 - st.nIters);
        }
      }
      assert Strokes(t, c) == [Trunk(t, c)] + Strokes(t, child);
    }
  }

  // ---------------------------------------------------------------------------
  // Connectivity
  // ---------------------------------------------------------------------------

  /** Stroke k starts at the end of an earlier stroke drawn one level up. */
  ghost predicate HasParent(strokes: seq<Stroke>, k: nat)
    requires k < |strokes|
  {
    exists j :: 0 <= j < k && strokes[j].line.end == strokes[k].line.start &&
                strokes[j].nIters == strokes[k].nIters + 1
  }

  /** Every stroke starts at `origin` as a stroke of level `n`, or at the end of
      an earlier stroke drawn one level up. */
  ghost predicate Connected(strokes: seq<Stroke>, origin: Point, n: int)
  {
    forall k :: 0 <= k < |strokes| ==>
      (strokes[k].line.start == origin && strokes[k].nIters == n) || HasParent(strokes, k)
  }

  lemma ParentAfterPrefix(a: seq<Stroke>, b: seq<Stroke>, k: nat)
    requires k < |b| && HasParent(b, k)
    ensures HasParent(a + b, |a| + k)
  {
    var j :| 0 <= j < k && b[j].line.end == b[k].line.start && b[j].nIters == b[k].nIters + 1;
    assert (a + b)[|a| + j] == b[j];
    assert (a + b)[|a| + k] == b[k];
  }

  lemma ParentBeforeSuffix(a: seq<Stroke>, b: seq<Stroke>, k: nat)
    requires k < |a| && HasParent(a, k)
    ensures HasParent(a + b, k)
  {
    var j :| 0 <= j < k && a[j].line.end == a[k].line.start && a[j].nIters == a[k].nIters + 1;
    assert (a + b)[j] == a[j];
    assert (a + b)[k] == a[k];
  }

  /** A stroke of `sub` that starts at the parent's end, one level down, or has
      a parent inside `sub`, has a parent once the parent stroke is put first. */
  lemma ParentOfChild(parent: Stroke, sub: seq<Stroke>, m: nat)
    requires m < |sub|
    requires (sub[m].line.start == parent.line.end && sub[m].nIters == parent.nIters - 1) || HasParent(sub, m)
    ensures HasParent([parent] + sub, m + 1)
  {
    if sub[m].line.start == parent.line.end && sub[m].nIters == parent.nIters - 1 {
      assert ([parent] + sub)[0] == parent;
      assert ([parent] + sub)[m + 1] == sub[m];
    } else {
      ParentAfterPrefix([parent], sub, m);
    }
  }

  lemma ConnectedUnderParent(parent: Stroke, sub: seq<Stroke>)
    requires Connected(sub, parent.line.end, parent.nIters - 1)
    ensures Connected([parent] + sub, parent.line.start, parent.nIters)
  {
    forall k | 0 <= k < |[parent] + sub|
      ensures (([parent] + sub)[k].line.start == parent.line.start && ([parent] + sub)[k].nIters == parent.nIters)
              || HasParent([parent] + sub, k)
    {
      if k > 0 {
        ParentOfChild(parent, sub, k - 1);
      }
    }
  }

  lemma ConnectedConcat(a: seq<Stroke>, b: seq<Stroke>, origin: Point, n: int)
    requires Connected(a, origin, n) && Connected(b, origin, n)
    ensures Connected(a + b, origin, n)
  {
    var all := a + b;
    forall k | 0 <= k < |all|
      ensures (all[k].line.start == origin && all[k].nIters == n) || HasParent(all, k)
    {
      if k < |a| {
        assert all[k] == a[k];
        if !(a[k].line.start == origin && a[k].nIters == n) {
          ParentBeforeSuffix(a, b, k);
        }
      } else {
        assert all[k] == b[k - |a|];
        if !(b[k - |a|].line.start == origin && b[k - |a|].nIters == n) {
          ParentAfterPrefix(a, b, k - |a|);
        }
      }
    }
  }

  /** The drawing is one connected tree: each stroke leaves the call's own point
      at the call's level, or leaves the end of an earlier stroke one level up. */
  lemma {:induction false} StrokesConnected(t: Trig, c: Call)
    requires Admissible(c)
    ensures Connected(Strokes(t, c), Point(c.x, c.y), c.nIters)
    decreases c.nIters, 1, 0
  {
    if c.nIters == 1 {
    } else if c.firstIter {
      var trunk := Trunk(t, c);
      var child := TrunkChild(c, trunk.line.end);
      StrokesConnected(t, child);
      assert Point(child.x, child.y) == trunk.line.end;
      ConnectedUnderParent(trunk, Strokes(t, child));
    } else {
      SplitConnected(t, c, 0);
    }
  }

  lemma {:induction false} SplitConnected(t: Trig, c: Call, i: nat)
    requires Admissible(c) && c.nIters >= 2 && !c.firstIter && i <= c.nSplits
    ensures Connected(SplitStrokes(t, c, i), Point(c.x, c.y), c.nIters)
    decreases c.nIters, 0, c.nSplits - i
  {
    if i < c.nSplits {
      var branch := Branch(t, c, i);
      var child := BranchChild(t, c, branch);
      StrokesConnected(t, child);
      assert Point(child.x, child.y) == branch.line.end;
      ConnectedUnderParent(branch, Strokes(t, child));
      SplitConnected(t, c, i + 1);
      ConnectedConcat([branch] + Strokes(t, child), SplitStrokes(t, c, i + 1), Point(c.x, c.y), c.nIters);
      assert SplitStrokes(t, c, i) == ([branch] + Strokes(t, child)) + SplitStrokes(t, c, i + 1);
    }
  }

  // ---------------------------------------------------------------------------
  // Split angles
  // ---------------------------------------------------------------------------

  /** `np.linspace` starts at `lo` and, with two or more samples, ends at `hi`. */
  lemma LinSpaceEnds(lo: real, hi: real, n: nat)
    requires n >= 1
    ensures LinSpace(lo, hi, n)[0] == lo
    ensures n >= 2 ==> LinSpace(lo, hi, n)[n - 1] == hi
  {
    if n >= 2 {
      var step := (hi - lo) / ((n - 1) as real);
      assert LinSpace(lo, hi, n)[n - 1] == lo + ((n - 1) as real) * step;
      assert ((n - 1) as real) * step == hi - lo;
    }
  }

  /** Consecutive samples are one step (hi - lo) / (n - 1) apart. */
  lemma LinSpaceEvenlySpaced(lo: real, hi: real, n: nat, i: nat)
    requires n >= 2 && i + 1 < n
    ensures LinSpace(lo, hi, n)[i + 1] - LinSpace(lo, hi, n)[i] == (hi - lo) / ((n - 1) as real)
  {
    var step := (hi - lo) / ((n - 1) as real);
    assert (((i + 1) as real) * step) - ((i as real) * step) == step;
  }

  /** With `lo <= hi` every sample lies between the two ends. */
  lemma LinSpaceWithin(lo: real, hi: real, n: nat, i: nat)
    requires lo <= hi && i < n
    ensures lo <= LinSpace(lo, hi, n)[i] <= hi
  {
    if n >= 2 {
      var step := (hi - lo) / ((n - 1) as real);
      assert LinSpace(lo, hi, n)[i] == lo + (i as real) * step;
      assert step >= 0.0;
      assert (i as real) * step <= ((n - 1) as real) * step;
      assert ((n - 1) as real) * step == hi - lo;
    }
  }

  /** The split angles of a branch call mirror each other about its start angle. */
  lemma AnglesSymmetric(c: Call, i: nat)
    requires c.nSplits >= 2 && i < c.nSplits
    ensures Angles(c)[i] + Angles(c)[c.nSplits - 1 - i] == 2.0 * c.startAngle
  {
    var n := c.nSplits;
    var lo, hi := c.startAngle - c.angleDelta / 2.0, c.startAngle + c.angleDelta / 2.0;
    var step := (hi - lo) / ((n - 1) as real);
    assert ((n - 1) as real) * step == hi - lo;
    assert (i as real) * step + ((n - 1 - i) as real) * step == ((n - 1) as real) * step;
  }

  /** One split goes to the left end of the spread, not to the start angle;
      two splits go to both ends. */
  lemma FewSplits(c: Call)
    requires c.nSplits == 1 || c.nSplits == 2
    ensures c.nSplits == 1 ==> Angles(c) == [c.startAngle - c.angleDelta / 2.0]
    ensures c.nSplits == 2 ==>
      Angles(c) == [c.startAngle - c.angleDelta / 2.0, c.startAngle + c.angleDelta / 2.0]
  {
    if c.nSplits == 2 {
      LinSpaceEnds(c.startAngle - c.angleDelta / 2.0, c.startAngle + c.angleDelta / 2.0, 2);
    }
  }
}
