/** The streaming piecewise-linear model: ranges are added one key at a time
    and a run ends exactly when no straight line stabs the next range too. */
module PiecewiseLinearModel {
  import opened Geometry
  import opened Corridor
  import opened ConvexHull
  import opened Feasibility

  const SIZE_MAX: nat := 0xFFFF_FFFF_FFFF_FFFF

  /** A `size_t`. */
  type Word = n: nat | n <= SIZE_MAX

  /** The range of a point that must be approximated within `epsilon`, saturated at the ends of `size_t`. */
  function ExactRange(epsilon: Word, x: int, y: Word): (r: Range)
    ensures r.lo <= y <= r.hi && y - epsilon <= r.lo && r.hi <= y + epsilon && 0 <= r.lo
    ensures r.lo == r.hi ==> epsilon == 0
  {
    Range(x,
          if y <= epsilon then 0 else y - epsilon,
          if y >= SIZE_MAX - epsilon then SIZE_MAX else y + epsilon)
  }

  /** The range of a point that comes with its own bounds; only saturation widens them. */
  function GivenRange(epsilon: Word, x: int, yLow: Word, yHigh: Word): (r: Range)
    ensures 0 <= r.lo <= yLow && yHigh <= r.hi
    ensures epsilon < yLow ==> r.lo == yLow
    ensures yHigh < SIZE_MAX - epsilon ==> r.hi == yHigh
  {
    Range(x,
          if yLow <= epsilon then 0 else yLow,
          if yHigh >= SIZE_MAX - epsilon then SIZE_MAX else yHigh)
  }

  datatype AddResult = Added | Rejected | NotIncreasing

  /** The result of a run: the two extreme lines `p0`-`p2` and `p1`-`p3`, or a
      single range given by `p0` and `p1`. */
  datatype CanonicalSegment =
    CanonicalSegment(p0: Point, p1: Point, p2: Point, p3: Point, first: int, y: nat)
  {
    predicate OnePoint() {
      p0 == p2 && p1 == p3
    }
  }

  ghost predicate Fits(cs: CanonicalSegment, run: seq<Range>) {
    && |run| > 0 && Ordered(run) && cs.first == run[0].x
    && (|run| == 1 ==>
          && cs.p0 == cs.p2 == End(Upper, run[0])
          && cs.p1 == cs.p3 == End(Lower, run[0]))
    && (|run| >= 2 ==>
          && LineStabs(cs.p0, cs.p2, run) && LineStabs(cs.p1, cs.p3, run)
          && AtMost(Minus(cs.p2, cs.p0), Minus(cs.p3, cs.p1))
          && IsEnd(Upper, cs.p0, run) && IsEnd(Lower, cs.p1, run)
          && IsEnd(Lower, cs.p2, run) && IsEnd(Upper, cs.p3, run))
  }

  // ---- what starts and what ends a run

  lemma TwoRangesLine(side: Side, a: Range, b: Range)
    requires a.x < b.x && a.lo <= a.hi && b.lo <= b.hi
    ensures LineStabs(End(Opposite(side), a), End(side, b), [a, b])
  {
    var p, q := End(Opposite(side), a), End(side, b);
    var s := Minus(q, p);
    OnLine(p, q);
    MulMono(a.lo, a.hi, s.dx);
    MulMono(b.lo, b.hi, s.dx);
    assert Within(s, p, a) && Within(s, p, b);
  }

  lemma TwoRangesDominate(side: Side, a: Range, b: Range, s1: Slope, s2: Slope)
    ensures Dominates(side, [End(side, a), End(side, b)], [a, b], s1, s2)
    ensures AreEnds(side, [End(side, a), End(side, b)], [a, b])
  {
    var run, c := [a, b], [End(side, a), End(side, b)];
    forall s: Slope, i | Between(s, s1, s2) && 0 <= i < |run| ensures Covered(side, s, End(side, run[i]), c) {
      assert Height(side, s, End(side, run[i])) <= Height(side, s, c[i]);
    }
    forall k | 0 <= k < |c| ensures IsEnd(side, c[k], run) {
      assert End(side, run[k]) == c[k];
    }
  }

  lemma TwoRangesHull(a: Range, b: Range)
    requires a.x < b.x && a.lo <= a.hi && b.lo <= b.hi
    ensures HullInv([a, b], [End(Lower, a), End(Lower, b)], [End(Upper, a), End(Upper, b)])
    ensures Stabbable([a, b])
  {
    var lc, uc := [End(Lower, a), End(Lower, b)], [End(Upper, a), End(Upper, b)];
    TwoRangesLine(Lower, a, b);
    TwoRangesLine(Upper, a, b);
    MulMono(b.lo - a.hi, b.hi - a.lo, b.x - a.x);
    TwoRangesDominate(Lower, a, b, MinSlope(lc, uc), MaxSlope(lc, uc));
    TwoRangesDominate(Upper, a, b, MinSlope(lc, uc), MaxSlope(lc, uc));
    LatticeLineStabs(uc[0], lc[1], [a, b]);
  }

  /** A range outside either extreme line leaves no line that stabs the run and it. */
  lemma OutsideBlocks(run: seq<Range>, r: Range, lc: seq<Point>, uc: seq<Point>)
    requires HullInv(run, lc, uc) && Ordered(run + [r])
    requires Less(Minus(End(Upper, r), Last(lc)), MinSlope(lc, uc))
          || Less(MaxSlope(lc, uc), Minus(End(Lower, r), Last(uc)))
    ensures !Stabbable(run + [r])
  {
    var all := run + [r];
    assert all[|run|] == r;
    assert lc[0] in lc && uc[0] in uc && Last(lc) in lc && Last(uc) in uc;
    EndsSurvive(Lower, lc, lc, run, r);
    EndsSurvive(Upper, uc, uc, run, r);
    assert IsEnd(Lower, Last(lc), run) && IsEnd(Upper, Last(uc), run);
    EndBefore(Lower, Last(lc), run, r);
    EndBefore(Upper, Last(uc), run, r);
    if Less(Minus(End(Upper, r), Last(lc)), MinSlope(lc, uc)) {
      BendsIsRank(Lower, uc[0], Last(lc), End(Upper, r));
      ObstructionBlocks(Lower, uc[0], Last(lc), End(Upper, r), all);
    } else {
      BendsIsRank(Upper, lc[0], Last(uc), End(Lower, r));
      ObstructionBlocks(Upper, lc[0], Last(uc), End(Lower, r), all);
    }
  }

  lemma NotOutside(side: Side, p: Point, q: Point, r: Point)
    requires p.x < q.x < r.x && !StrictRank(side, Minus(r, q), Minus(q, p))
    ensures Height(side, Minus(q, p), p) <= Height(side, Minus(q, p), r)
  {
    OnLine(p, q);
    HeightIsRank(side, Minus(q, p), q, r);
  }

  /** The high end is not below the flattest line, the low end not above the steepest. */
  lemma InsideBounds(run: seq<Range>, r: Range, lc: seq<Point>, uc: seq<Point>)
    requires HullInv(run, lc, uc) && Ordered(run + [r])
    requires !Less(Minus(End(Upper, r), Last(lc)), MinSlope(lc, uc))
    requires !Less(MaxSlope(lc, uc), Minus(End(Lower, r), Last(uc)))
    ensures NotCut(r, lc, uc)
  {
    assert IsEnd(Lower, lc[|lc| - 1], run) && IsEnd(Upper, uc[|uc| - 1], run);
    EndBefore(Lower, Last(lc), run, r);
    EndBefore(Upper, Last(uc), run, r);
    NotOutside(Lower, uc[0], Last(lc), End(Upper, r));
    NotOutside(Upper, lc[0], Last(uc), End(Lower, r));
  }

  /** The corners the model keeps: first and last points of the two chains. */
  function Rectangle(lc: seq<Point>, uc: seq<Point>): seq<Point>
    requires |lc| > 0 && |uc| > 0
  {
    [uc[0], lc[0], Last(lc), Last(uc)]
  }

  lemma ChainApproaches(side: Side, c: seq<Point>, run: seq<Range>, r: Range, p: Point)
    requires |c| > 0 && AreEnds(side, c, run) && Ordered(run + [r]) && p.x == r.x
    ensures Approaches(side, c, p) && Last(c).x < r.x
  {
    forall k | 0 <= k < |c| ensures c[k].x < r.x {
      assert IsEnd(side, c[k], run);
      EndBefore(side, c[k], run, r);
    }
  }

  lemma PushedApproaches(side: Side, c: seq<Point>, r: Range)
    requires Chain(side, c) && |c| >= 2 && Last(c) == End(side, r) && r.lo < r.hi
    ensures Approaches(side, c, End(Opposite(side), r))
  {
  }

  /** `r` does not lie outside the extreme lines: its high end is not below the
      flattest line and its low end is not above the steepest. */
  ghost predicate NotCut(r: Range, lc: seq<Point>, uc: seq<Point>)
    requires |lc| > 0 && |uc| > 0
  {
    && Offset(MinSlope(lc, uc), uc[0]) <= Offset(MinSlope(lc, uc), End(Upper, r))
    && Offset(MaxSlope(lc, uc), End(Lower, r)) <= Offset(MaxSlope(lc, uc), lc[0])
  }

  lemma HighEndInside(run: seq<Range>, r: Range, lc: seq<Point>, uc: seq<Point>)
    requires HullInv(run, lc, uc) && Ordered(run + [r]) && NotCut(r, lc, uc)
    requires !Less(Minus(End(Upper, r), lc[0]), MaxSlope(lc, uc))
    ensures HalfStep(run, r, lc, uc) && Approaches(Upper, uc, End(Lower, r))
  {
    assert IsEnd(Lower, lc[0], run);
    EndBefore(Lower, lc[0], run, r);
    NotOutsideNear(lc[0], MaxSlope(lc, uc), End(Upper, r));
    HighEndHarmless(run, r, lc, uc);
    ChainApproaches(Upper, uc, run, r, End(Lower, r));
  }

  lemma NotOutsideNear(p: Point, s: Slope, r: Point)
    requires p.x < r.x && !Less(Minus(r, p), s)
    ensures Offset(s, p) <= Offset(s, r)
  {
    HeightIsRank(Lower, s, p, r);
  }

  lemma LowEndInside(run: seq<Range>, r: Range, lc: seq<Point>, uc: seq<Point>)
    requires HalfStep(run, r, lc, uc)
    requires !Less(MinSlope(lc, uc), Minus(End(Lower, r), uc[0]))
    ensures HullInv(run + [r], lc, uc)
  {
    HeightIsRank(Lower, MinSlope(lc, uc), uc[0], End(Lower, r));
    LowEndHarmless(run, r, lc, uc);
  }

  // ---- the two halves of a step on the chains

  /** The high end of `r` lies below the steepest line: find the new tangent and
      put the high end on the upper hull. */
  method CutSteepest(ghost run: seq<Range>, r: Range, lower: seq<Point>, ls: nat, upper: seq<Point>, us: nat)
    returns (m: nat, pushed: seq<Point>)
    requires ls < |lower| && us < |upper| && HullInv(run, lower[ls..], upper[us..]) && Ordered(run + [r])
    requires NotCut(r, lower[ls..], upper[us..])
    requires Less(Minus(End(Upper, r), lower[ls]), Minus(Last(upper), lower[ls]))
    ensures m < |lower| && us < |pushed| && HalfStep(run, r, lower[m..], pushed[us..])
    ensures Rectangle(lower[m..], pushed[us..]) == [upper[us], lower[m], Last(lower), End(Upper, r)]
    ensures r.lo < r.hi ==> Approaches(Upper, pushed[us..], End(Lower, r))
  {
    ghost var lc, uc := lower[ls..], upper[us..];
    ChainApproaches(Lower, lc, run, r, End(Upper, r));
    ChainApproaches(Upper, uc, run, r, End(Upper, r));
    m := FindTangent(Lower, lower, ls, End(Upper, r));
    assert lower[m] == lc[m - ls] && lower[m..] == lc[m - ls..];
    assert Last(upper) == Last(uc);
    pushed := PushOnHull(Upper, upper, us, End(Upper, r));
    HighEndCuts(run, r, lc, uc, m - ls, pushed[us..]);
    if r.lo < r.hi { PushedApproaches(Upper, pushed[us..], r); }
  }

  lemma SliceEnds(s: seq<Point>, i: nat)
    requires i < |s|
    ensures s[i..][0] == s[i] && Last(s[i..]) == Last(s)
  {
  }

  /** The tangent from the low end to the upper chain, and the low end pushed on the lower one. */
  lemma FlattestHull(run: seq<Range>, r: Range, lower: seq<Point>, ls: nat, upper: seq<Point>, us: nat,
                     m: nat, pushed: seq<Point>)
    requires ls < |lower| && us <= m < |upper| && HalfStep(run, r, lower[ls..], upper[us..])
    requires Less(Minus(Last(lower), upper[us]), Minus(End(Lower, r), upper[us]))
    requires upper[m].x < r.x && Clears(Upper, Minus(End(Lower, r), upper[m]), End(Lower, r), upper[us..])
    requires ls < |pushed| && Pushed(Lower, lower[ls..], End(Lower, r), pushed[ls..])
    ensures HullInv(run + [r], pushed[ls..], upper[m..])
  {
    var lc, uc := lower[ls..], upper[us..];
    SliceEnds(lower, ls);
    SliceEnds(upper, us);
    assert uc[m - us] == upper[m] && uc[m - us..] == upper[m..];
    LowEndCuts(run, r, lc, uc, m - us, pushed[ls..]);
  }

  /** The low end of `r` lies above the flattest line: the mirror image. */
  method CutFlattest(ghost run: seq<Range>, r: Range, lower: seq<Point>, ls: nat, upper: seq<Point>, us: nat)
    returns (m: nat, pushed: seq<Point>)
    requires ls < |lower| && us < |upper| && HalfStep(run, r, lower[ls..], upper[us..])
    requires Less(Minus(Last(lower), upper[us]), Minus(End(Lower, r), upper[us]))
    requires Approaches(Upper, upper[us..], End(Lower, r))
    ensures m < |upper| && ls < |pushed| && HullInv(run + [r], pushed[ls..], upper[m..])
    ensures Rectangle(pushed[ls..], upper[m..]) == [upper[m], lower[ls], End(Lower, r), Last(upper)]
  {
    ChainApproaches(Lower, lower[ls..], run, r, End(Lower, r));
    SliceEnds(lower, ls);
    m := FindTangent(Upper, upper, us, End(Lower, r));
    pushed := PushOnHull(Lower, lower, ls, End(Lower, r));
    FlattestHull(run, r, lower, ls, upper, us, m, pushed);
    SliceEnds(upper, m);
    SliceEnds(pushed, ls);
  }

  lemma OneRangeStabbable(r: Range)
    requires r.lo <= r.hi
    ensures Ordered([r]) && Stabbable([r])
  {
    assert RealLineStabs(0.0, r.lo as real, [r]);
  }

  lemma OrderedExtend(run: seq<Range>, r: Range)
    requires Ordered(run) && r.lo <= r.hi && (|run| > 0 ==> run[|run| - 1].x < r.x)
    ensures Ordered(run + [r])
  {
  }

  /** The high end lies strictly below the steepest line and the low end
      strictly above the flattest. */
  predicate BothCut(r: Range, rectangle: seq<Point>)
    requires |rectangle| == 4
  {
    && Less(Minus(End(Upper, r), rectangle[1]), Minus(rectangle[3], rectangle[1]))
    && Less(Minus(rectangle[2], rectangle[0]), Minus(End(Lower, r), rectangle[0]))
  }

  ghost predicate AllExact(run: seq<Range>) {
    forall i | 0 <= i < |run| :: run[i].lo == run[i].hi
  }

  /** A run of single values fixes one line, so no range can be cut by both. */
  lemma ExactRunNeverCut(run: seq<Range>, r: Range, lc: seq<Point>, uc: seq<Point>)
    requires HullInv(run, lc, uc) && AllExact(run) && Ordered(run + [r]) && r.lo == r.hi
    ensures !BothCut(r, Rectangle(lc, uc))
  {
    var s1, s2, p := MinSlope(lc, uc), MaxSlope(lc, uc), End(Lower, r);
    if BothCut(r, Rectangle(lc, uc)) {
      var a, b := End(Lower, run[0]), End(Lower, run[1]);
      assert a == End(Upper, run[0]) && b == End(Upper, run[1]);
      assert Within(s1, uc[0], run[0]) && Within(s1, uc[0], run[1]);
      assert Within(s2, lc[0], run[0]) && Within(s2, lc[0], run[1]);
      HeightIsRank(Lower, s2, a, b);
      HeightIsRank(Upper, s2, a, b);
      HeightIsRank(Lower, s1, a, b);
      HeightIsRank(Upper, s1, a, b);
      SlopeTransitive(s2, Minus(b, a), s1);
      assert IsEnd(Lower, lc[0], run) && IsEnd(Upper, uc[0], run);
      EndBefore(Lower, lc[0], run, r);
      EndBefore(Upper, uc[0], run, r);
      var i :| 0 <= i < |run| && End(Lower, run[i]) == lc[0];
      assert Within(s1, uc[0], run[i]) && End(Upper, run[i]) == lc[0];
      HeightIsRank(Lower, s1, uc[0], p);
      HeightIsRank(Lower, s1, lc[0], p);
      SlopeTransitive(s1, Minus(p, lc[0]), s2);
    }
  }

  lemma HullFits(cs: CanonicalSegment, run: seq<Range>, lc: seq<Point>, uc: seq<Point>)
    requires HullInv(run, lc, uc) && cs.first == run[0].x
    requires [cs.p0, cs.p1, cs.p2, cs.p3] == Rectangle(lc, uc)
    ensures Fits(cs, run)
  {
    assert IsEnd(Lower, lc[0], run) && IsEnd(Lower, lc[|lc| - 1], run);
    assert IsEnd(Upper, uc[0], run) && IsEnd(Upper, uc[|uc| - 1], run);
    var f := [cs.p0, cs.p1, cs.p2, cs.p3];
    assert f[0] == cs.p0 && f[1] == cs.p1 && f[2] == cs.p2 && f[3] == cs.p3;
  }

  class OptimalPiecewiseLinearModel {
    const epsilon: Word
    var lower: seq<Point>
    var upper: seq<Point>
    var firstY: nat
    var firstX: int
    var lastX: int
    var lowerStart: nat
    var upperStart: nat
    var pointsInHull: nat
    var rectangle: seq<Point>

    /** The ranges accepted since the current run started. A rejection closes
        the run but leaves it readable through `GetSegment`. */
    ghost var run: seq<Range>

    ghost predicate Valid()
      reads this
    {
      && |rectangle| == 4 && Ordered(run)
      && (pointsInHull == |run| || (pointsInHull == 0 && |run| >= 2))
      && (|run| > 0 ==> firstX == run[0].x)
      && (pointsInHull > 0 ==> lastX == run[|run| - 1].x)
      && (|run| == 1 ==>
            && rectangle[0] == End(Upper, run[0]) && rectangle[1] == End(Lower, run[0])
            && lower == [End(Lower, run[0])] && upper == [End(Upper, run[0])]
            && lowerStart == upperStart == 0)
      && (|run| >= 2 ==>
            && Aligned() && HullInv(run, lower[lowerStart..], upper[upperStart..]))
    }

    /** The run a new range would extend. */
    ghost function Open(): seq<Range>
      reads this
    {
      if pointsInHull == 0 then [] else run
    }

    /** Both ends of the range would move an extreme line. */
    predicate StrictlyInside(r: Range)
      reads this
      requires |rectangle| == 4
    {
      pointsInHull >= 2 && BothCut(r, rectangle)
    }

    /** The starts and the rectangle agree with the two chains. */
    ghost predicate Aligned()
      reads this
    {
      && lowerStart < |lower| && upperStart < |upper|
      && rectangle == Rectangle(lower[lowerStart..], upper[upperStart..])
    }

    constructor (epsilon: Word)
      ensures Valid() && run == [] && pointsInHull == 0 && this.epsilon == epsilon
    {
      this.epsilon := epsilon;
      lower, upper, firstY, firstX, lastX := [], [], 0, 0, 0;
      lowerStart, upperStart, pointsInHull := 0, 0, 0;
      rectangle := [Point(0, 0), Point(0, 0), Point(0, 0), Point(0, 0)];
      run := [];
    }

    /** Takes the high end of `r` into account: if it lies below the steepest
        line, that line is replaced by the tangent from it. */
    method TakeHighEnd(r: Range)
      requires Aligned() && HullInv(run, lower[lowerStart..], upper[upperStart..]) && Ordered(run + [r])
      requires NotCut(r, lower[lowerStart..], upper[upperStart..])
      modifies this`lower, this`upper, this`lowerStart, this`rectangle
      ensures Aligned() && HalfStep(run, r, lower[lowerStart..], upper[upperStart..])
      ensures rectangle[0] == old(rectangle[0]) && rectangle[2] == old(rectangle[2])
      ensures r.lo < r.hi || !Less(Minus(End(Upper, r), old(rectangle[1])), Minus(old(rectangle[3]), old(rectangle[1])))
          ==> Approaches(Upper, upper[upperStart..], End(Lower, r))
    {
      var p1 := End(Upper, r);
      var slope2 := Minus(rectangle[3], rectangle[1]);
      if Less(Minus(p1, rectangle[1]), slope2) {
        var m, pushed := CutSteepest(run, r, lower, lowerStart, upper, upperStart);
        rectangle := rectangle[1 := lower[m]][3 := p1];
        lowerStart := m;
        upper := pushed;
      } else {
        HighEndInside(run, r, lower[lowerStart..], upper[upperStart..]);
      }
    }

    /** Takes the low end of `r` into account, the mirror image of `TakeHighEnd`. */
    method TakeLowEnd(r: Range)
      requires Aligned() && HalfStep(run, r, lower[lowerStart..], upper[upperStart..])
      requires Less(Minus(rectangle[2], rectangle[0]), Minus(End(Lower, r), rectangle[0]))
           ==> Approaches(Upper, upper[upperStart..], End(Lower, r))
      modifies this`lower, this`upper, this`upperStart, this`rectangle
      ensures Aligned() && HullInv(run + [r], lower[lowerStart..], upper[upperStart..])
    {
      var p2 := End(Lower, r);
      var slope1 := Minus(rectangle[2], rectangle[0]);
      if Less(slope1, Minus(p2, rectangle[0])) {
        NewFlattest(r);
      } else {
        LowEndInside(run, r, lower[lowerStart..], upper[upperStart..]);
      }
    }

    /** The flattest line becomes the tangent from the low end of `r`. */
    method NewFlattest(r: Range)
      requires Aligned() && HalfStep(run, r, lower[lowerStart..], upper[upperStart..])
      requires Less(Minus(rectangle[2], rectangle[0]), Minus(End(Lower, r), rectangle[0]))
      requires Approaches(Upper, upper[upperStart..], End(Lower, r))
      modifies this`lower, this`upperStart, this`rectangle
      ensures Aligned() && HullInv(run + [r], lower[lowerStart..], upper[upperStart..])
    {
      var m, pushed := CutFlattest(run, r, lower, lowerStart, upper, upperStart);
      rectangle := rectangle[0 := upper[m]][2 := End(Lower, r)];
      upperStart := m;
      lower := pushed;
    }

    method FirstRange(r: Range, nowY: nat)
      requires |rectangle| == 4 && r.lo <= r.hi && lastX == r.x
      modifies this
      ensures Valid() && run == [r] && pointsInHull == 1 && Stabbable(run)
      ensures firstY == nowY
    {
      var p1, p2 := End(Upper, r), End(Lower, r);
      firstX, firstY := r.x, nowY;
      rectangle := rectangle[0 := p1][1 := p2];
      lower, upper := [p2], [p1];
      lowerStart, upperStart := 0, 0;
      pointsInHull := 1;
      run := [r];
      OneRangeStabbable(r);
    }

    method SecondRange(r: Range)
      requires |rectangle| == 4 && |run| == 1 && r.lo <= r.hi && run[0].lo <= run[0].hi && run[0].x < r.x
      requires firstX == run[0].x && lastX == r.x && lowerStart == upperStart == 0
      requires rectangle[0] == End(Upper, run[0]) && rectangle[1] == End(Lower, run[0])
      requires lower == [End(Lower, run[0])] && upper == [End(Upper, run[0])]
      modifies this
      ensures Valid() && run == old(run) + [r] && pointsInHull == 2 && Stabbable(run)
      ensures firstY == old(firstY)
    {
      var p1, p2 := End(Upper, r), End(Lower, r);
      ghost var first := run[0];
      rectangle := rectangle[2 := p2][3 := p1];
      lower, upper := lower + [p2], upper + [p1];
      pointsInHull := 2;
      run := run + [r];
      TwoRangesHull(first, r);
      assert run == [first, r];
      assert lower[lowerStart..] == [End(Lower, first), End(Lower, r)];
      assert upper[upperStart..] == [End(Upper, first), End(Upper, r)];
    }

    /** The third and later ranges of a run: refuse the range if it lies outside
        either extreme line, otherwise narrow the two lines. */
    method Narrow(r: Range) returns (fits: bool)
      requires Aligned() && HullInv(run, lower[lowerStart..], upper[upperStart..]) && Ordered(run + [r])
      requires r.lo < r.hi || !BothCut(r, rectangle)
      modifies this`lower, this`upper, this`lowerStart, this`upperStart, this`rectangle
      ensures fits ==> Aligned() && HullInv(run + [r], lower[lowerStart..], upper[upperStart..])
      ensures !fits ==> unchanged(this)
      ensures fits <==> Stabbable(run + [r])
    {
      var slope1, slope2 := Minus(rectangle[2], rectangle[0]), Minus(rectangle[3], rectangle[1]);
      var outsideLine1 := Less(Minus(End(Upper, r), rectangle[2]), slope1);
      var outsideLine2 := Less(slope2, Minus(End(Lower, r), rectangle[3]));
      if outsideLine1 || outsideLine2 {
        OutsideBlocks(run, r, lower[lowerStart..], upper[upperStart..]);
        return false;
      }
      InsideBounds(run, r, lower[lowerStart..], upper[upperStart..]);
      TakeHighEnd(r);
      TakeLowEnd(r);
      LatticeLineStabs(rectangle[0], rectangle[2], run + [r]);
      return true;
    }

    /** Adds one range. The range joins the run if and only if some straight
        line stabs the whole run and the new range. */
    method AddRange(r: Range, nowY: nat) returns (result: AddResult)
      requires Valid() && r.lo <= r.hi && (r.lo < r.hi || r.x <= lastX || !StrictlyInside(r))
      modifies this
      ensures Valid()
      ensures result == NotIncreasing <==> old(pointsInHull > 0 && r.x <= lastX)
      ensures result == NotIncreasing ==> run == old(run) && pointsInHull == old(pointsInHull) && firstY == old(firstY)
      ensures result == Added ==> run == old(Open()) + [r] && pointsInHull == |run| && Stabbable(run)
      ensures result == Added ==> firstY == if old(pointsInHull) == 0 then nowY else old(firstY)
      ensures result == Rejected ==>
        && run == old(run) && firstY == old(firstY) && pointsInHull == 0 && old(pointsInHull) == |run| >= 2
        && !Stabbable(run + [r])
    {
      if pointsInHull > 0 && r.x <= lastX {
        return NotIncreasing;
      }
      lastX := r.x;
      if pointsInHull == 0 {
        FirstRange(r, nowY);
        return Added;
      }
      if pointsInHull == 1 {
        SecondRange(r);
        return Added;
      }
      result := AddFurther(r);
    }

    /** The third and later ranges of a run. */
    method AddFurther(r: Range) returns (result: AddResult)
      requires Aligned() && HullInv(run, lower[lowerStart..], upper[upperStart..]) && pointsInHull == |run|
      requires firstX == run[0].x && run[|run| - 1].x < r.x && lastX == r.x && r.lo <= r.hi && (r.lo < r.hi || !BothCut(r, rectangle))
      modifies this
      ensures Valid() && result != NotIncreasing && firstY == old(firstY)
      ensures result == Added ==> run == old(run) + [r] && pointsInHull == |run| && Stabbable(run)
      ensures result == Rejected ==>
        run == old(run) && pointsInHull == 0 && old(pointsInHull) == |run| >= 2 && !Stabbable(run + [r])
    {
      OrderedExtend(run, r);
      var fits := Narrow(r);
      if !fits {
        pointsInHull := 0;
        return Rejected;
      }
      pointsInHull := pointsInHull + 1;
      run := run + [r];
      return Added;
    }

    /** The `epsilon` overload: approximate `y` within `epsilon` at key `x`. */
    method AddPoint(x: int, y: Word) returns (result: AddResult)
      requires Valid() && (AllExact(run) || ExactRange(epsilon, x, y).lo < ExactRange(epsilon, x, y).hi)
      modifies this
      ensures Valid() && Outcome(ExactRange(epsilon, x, y), result, old(run), old(pointsInHull), old(lastX))
      ensures firstY == old(firstY)
    {
      var r := ExactRange(epsilon, x, y);
      if r.lo == r.hi && pointsInHull >= 2 && r.x > lastX {
        OrderedExtend(run, r);
        ExactRunNeverCut(run, r, lower[lowerStart..], upper[upperStart..]);
      }
      result := AddRange(r, firstY);
    }

    /** The overload for disk pages: the caller supplies the range around `nowY`. */
    method AddPointRange(x: int, yLow: Word, yHigh: Word, nowY: nat) returns (result: AddResult)
      requires Valid()
      requires var r := GivenRange(epsilon, x, yLow, yHigh); r.lo < r.hi || (r.lo == r.hi && AllExact(run))
      modifies this
      ensures Valid() && Outcome(GivenRange(epsilon, x, yLow, yHigh), result, old(run), old(pointsInHull), old(lastX))
      ensures result == Added ==> firstY == if old(pointsInHull) == 0 then nowY else old(firstY)
      ensures result != Added ==> firstY == old(firstY)
    {
      var r := GivenRange(epsilon, x, yLow, yHigh);
      if r.lo == r.hi && pointsInHull >= 2 && r.x > lastX {
        OrderedExtend(run, r);
        ExactRunNeverCut(run, r, lower[lowerStart..], upper[upperStart..]);
      }
      result := AddRange(r, nowY);
    }

    /** What adding the range `r` did, in terms of lines only. */
    ghost predicate Outcome(r: Range, result: AddResult, oldRun: seq<Range>, oldCount: nat, oldLast: int)
      reads this
    {
      var open := if oldCount == 0 then [] else oldRun;
      && (result == NotIncreasing <==> oldCount > 0 && r.x <= oldLast)
      && (result == NotIncreasing ==> run == oldRun && pointsInHull == oldCount)
      && (result == Added ==> run == open + [r] && pointsInHull == |run| && Stabbable(run))
      && (result == Rejected ==> run == oldRun && pointsInHull == 0 && oldCount >= 2 && !Stabbable(open + [r]))
    }

    method GetSegment() returns (cs: CanonicalSegment)
      requires Valid() && |run| > 0
      ensures Fits(cs, run) && cs.y == firstY
    {
      if pointsInHull == 1 {
        cs := CanonicalSegment(rectangle[0], rectangle[1], rectangle[0], rectangle[1], firstX, firstY);
      } else {
        cs := CanonicalSegment(rectangle[0], rectangle[1], rectangle[2], rectangle[3], firstX, firstY);
        if |run| >= 2 { HullFits(cs, run, lower[lowerStart..], upper[upperStart..]); }
      }
    }
  }
}
