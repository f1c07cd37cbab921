/** The real-number view of a fitted segment: its slope range, the intersection
    of its two extreme lines, and the lines through that point. */
module SegmentLines {
  import opened Geometry
  import opened Corridor
  import opened PiecewiseLinearModel

  /** The height at `x` of the line with slope `m` through the point `(px, py)`. */
  function Through(px: real, py: real, m: real, x: real): real {
    py + m * (x - px)
  }

  /** `get_slope_range`. */
  function SlopeRangeOf(cs: CanonicalSegment): (real, real)
    requires cs.OnePoint() || (cs.p0.x < cs.p2.x && cs.p1.x < cs.p3.x)
  {
    if cs.OnePoint() then (0.0, 1.0)
    else (SlopeValue(Minus(cs.p2, cs.p0)), SlopeValue(Minus(cs.p3, cs.p1)))
  }

  /** The signed area spanned by two directions. */
  function Area(s: Slope, t: Slope): real {
    s.dx as real * t.dy as real - s.dy as real * t.dx as real
  }

  /** `get_intersection`. */
  function Intersection(cs: CanonicalSegment): (real, real) {
    var s1, s2 := Minus(cs.p2, cs.p0), Minus(cs.p3, cs.p1);
    if cs.OnePoint() || s1.dy * s2.dx == s1.dx * s2.dy then (cs.p0.x as real, cs.p0.y as real)
    else
      AreaIsZero(s1, s2);
      var b := Area(Minus(cs.p1, cs.p0), s2) / Area(s1, s2);
      (cs.p0.x as real + b * s1.dx as real, cs.p0.y as real + b * s1.dy as real)
  }

  lemma AreaIsZero(s: Slope, t: Slope)
    ensures Area(s, t) == 0.0 <==> s.dy * t.dx == s.dx * t.dy
  {
    ProductAsReal(s.dx, t.dy);
    ProductAsReal(s.dy, t.dx);
  }

  // ---- the intersection lies on both extreme lines

  lemma OnFirstLine(p: Point, s: Slope, b: real)
    requires s.dx != 0
    ensures Through(p.x as real, p.y as real, SlopeValue(s), p.x as real + b * s.dx as real)
         == p.y as real + b * s.dy as real
  {
    assert SlopeValue(s) * s.dx as real == s.dy as real;
    assert SlopeValue(s) * (b * s.dx as real) == b * s.dy as real;
  }

  /** A point `(x, y)` is on the line through `p` of direction `s` when its displacement spans no area with `s`. */
  lemma OnLineByArea(p: Point, s: Slope, x: real, y: real)
    requires s.dx != 0 && (x - p.x as real) * s.dy as real == (y - p.y as real) * s.dx as real
    ensures y == Through(p.x as real, p.y as real, SlopeValue(s), x)
  {
    var u, v, w := x - p.x as real, y - p.y as real, s.dx as real;
    assert SlopeValue(s) * w == s.dy as real;
    assert (SlopeValue(s) * u) * w == v * w;
    CancelReal(SlopeValue(s) * u, v, w);
  }

  lemma CancelReal(a: real, b: real, w: real)
    requires a * w == b * w && w != 0.0
    ensures a == b
  {
    assert (a - b) * w == 0.0;
  }

  lemma MeetingPoint(ux: real, uy: real, vx: real, vy: real, dx: real, dy: real, b: real)
    requires ux * vy - uy * vx != 0.0 && b == (dx * vy - dy * vx) / (ux * vy - uy * vx)
    ensures (b * ux - dx) * vy == (b * uy - dy) * vx
  {
    var a := ux * vy - uy * vx;
    assert b * a == dx * vy - dy * vx;
    assert b * a == b * (ux * vy) - b * (uy * vx);
    assert (b * ux - dx) * vy == b * (ux * vy) - dx * vy;
    assert (b * uy - dy) * vx == b * (uy * vx) - dy * vx;
  }

  lemma IntersectionOnLines(cs: CanonicalSegment, run: seq<Range>)
    requires Fits(cs, run) && |run| >= 2
    ensures var (ix, iy), (lo, hi) := Intersection(cs), SlopeRangeOf(cs);
      && iy == Through(cs.p0.x as real, cs.p0.y as real, lo, ix)
      && iy == Through(cs.p1.x as real, cs.p1.y as real, hi, ix)
  {
    var s1, s2 := Minus(cs.p2, cs.p0), Minus(cs.p3, cs.p1);
    var (ix, iy) := Intersection(cs);
    if s1.dy * s2.dx == s1.dx * s2.dy {
      ParallelLines(cs, run);
    } else {
      AreaIsZero(s1, s2);
      var d := Minus(cs.p1, cs.p0);
      var b := Area(d, s2) / Area(s1, s2);
      OnFirstLine(cs.p0, s1, b);
      MeetingPoint(s1.dx as real, s1.dy as real, s2.dx as real, s2.dy as real, d.dx as real, d.dy as real, b);
      OnLineByArea(cs.p1, s2, ix, iy);
    }
  }

  /** Parallel extreme lines coincide. */
  lemma ParallelLines(cs: CanonicalSegment, run: seq<Range>)
    requires Fits(cs, run) && |run| >= 2
    requires var s1, s2 := Minus(cs.p2, cs.p0), Minus(cs.p3, cs.p1); s1.dy * s2.dx == s1.dx * s2.dy
    ensures cs.p0.y as real == Through(cs.p1.x as real, cs.p1.y as real, SlopeValue(Minus(cs.p3, cs.p1)), cs.p0.x as real)
  {
    ParallelOffsets(cs, run);
    LineAtByOffset(Minus(cs.p3, cs.p1), cs.p1, cs.p0);
  }

  lemma ParallelOffsets(cs: CanonicalSegment, run: seq<Range>)
    requires Fits(cs, run) && |run| >= 2
    requires var s1, s2 := Minus(cs.p2, cs.p0), Minus(cs.p3, cs.p1); s1.dy * s2.dx == s1.dx * s2.dy
    ensures cs.p1.x < cs.p3.x && Offset(Minus(cs.p3, cs.p1), cs.p0) == Offset(Minus(cs.p3, cs.p1), cs.p1)
  {
    var s2 := Minus(cs.p3, cs.p1);
    var i :| 0 <= i < |run| && End(Upper, run[i]) == cs.p0;
    var j :| 0 <= j < |run| && End(Lower, run[j]) == cs.p2;
    assert Within(s2, cs.p1, run[i]) && Within(s2, cs.p1, run[j]);
    SameOffset(cs.p0, cs.p2, s2);
  }

  lemma SameOffset(p: Point, q: Point, s: Slope)
    requires (q.y - p.y) * s.dx == (q.x - p.x) * s.dy
    ensures Offset(s, p) == Offset(s, q)
  {
    assert s.dx * q.y - s.dx * p.y == (q.y - p.y) * s.dx;
    assert s.dy * q.x - s.dy * p.x == (q.x - p.x) * s.dy;
  }

  // ---- every line between the extremes

  lemma BetweenLines(px: real, py: real, lo: real, m: real, hi: real, x: real)
    requires lo <= m <= hi
    ensures x >= px ==> Through(px, py, lo, x) <= Through(px, py, m, x) <= Through(px, py, hi, x)
    ensures x <= px ==> Through(px, py, hi, x) <= Through(px, py, m, x) <= Through(px, py, lo, x)
  {
    if x >= px {
      MulMonoReal(lo, m, x - px);
      MulMonoReal(m, hi, x - px);
    } else {
      MulMonoReal(lo, m, px - x);
      MulMonoReal(m, hi, px - x);
      assert lo * (x - px) == -(lo * (px - x)) && m * (x - px) == -(m * (px - x)) && hi * (x - px) == -(hi * (px - x));
    }
  }

  lemma MulMonoReal(a: real, b: real, c: real)
    requires a <= b && 0.0 <= c
    ensures a * c <= b * c
  {
  }

  lemma SameLine(px: real, py: real, m: real, qx: real, qy: real, x: real)
    requires qy == Through(px, py, m, qx)
    ensures Through(qx, qy, m, x) == Through(px, py, m, x)
  {
    assert m * (x - px) == m * (x - qx) + m * (qx - px);
  }

  lemma LineThroughMeeting(p: Point, q: Point, run: seq<Range>, i: nat, ix: real, iy: real)
    requires LineStabs(p, q, run) && i < |run|
    requires iy == Through(p.x as real, p.y as real, SlopeValue(Minus(q, p)), ix)
    ensures run[i].lo as real <= Through(ix, iy, SlopeValue(Minus(q, p)), run[i].x as real) <= run[i].hi as real
  {
    var m, x := SlopeValue(Minus(q, p)), run[i].x;
    LatticeLineStabs(p, q, run);
    SameLine(p.x as real, p.y as real, m, ix, iy, x as real);
    assert LineAt(Minus(q, p), p, x) == Through(p.x as real, p.y as real, m, x as real);
  }

  /** A line through the intersection whose slope is in the segment's range
      passes through every range the segment was fitted to. */
  lemma MergedLineStabs(cs: CanonicalSegment, run: seq<Range>, m: real, i: nat)
    requires Fits(cs, run) && |run| >= 2 && i < |run|
    requires SlopeRangeOf(cs).0 <= m <= SlopeRangeOf(cs).1
    ensures var (ix, iy) := Intersection(cs);
      run[i].lo as real <= Through(ix, iy, m, run[i].x as real) <= run[i].hi as real
  {
    var (ix, iy) := Intersection(cs);
    var (lo, hi) := SlopeRangeOf(cs);
    IntersectionOnLines(cs, run);
    LineThroughMeeting(cs.p0, cs.p2, run, i, ix, iy);
    LineThroughMeeting(cs.p1, cs.p3, run, i, ix, iy);
    BetweenLines(ix, iy, lo, m, hi, run[i].x as real);
  }

  lemma SlopeRangeProper(cs: CanonicalSegment, run: seq<Range>)
    requires Fits(cs, run)
    ensures cs.OnePoint() || (cs.p0.x < cs.p2.x && cs.p1.x < cs.p3.x)
    ensures SlopeRangeOf(cs).0 <= SlopeRangeOf(cs).1
  {
    if |run| >= 2 {
      var s1, s2 := Minus(cs.p2, cs.p0), Minus(cs.p3, cs.p1);
      ProductAsReal(s1.dy, s2.dx);
      ProductAsReal(s1.dx, s2.dy);
      DivideOrder(s1.dy as real, s1.dx as real, s2.dy as real, s2.dx as real);
    }
  }

  lemma DivideOrder(a: real, b: real, c: real, d: real)
    requires b > 0.0 && d > 0.0 && a * d <= b * c
    ensures a / b <= c / d
  {
  }
}
