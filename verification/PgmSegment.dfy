/** A segment of the PGM index: an exact slope with a rounded intercept, and how
    far its truncated prediction can be from the ranges it was fitted to. */
module PgmSegment {
  import opened Geometry
  import opened Corridor
  import opened PiecewiseLinearModel

  datatype Segment = Segment(key: int, slope: Slope, intercept: int)

  /** C++ integer division, which truncates towards zero. */
  function TruncDiv(n: int, d: int): int
    requires d > 0
  {
    if n >= 0 then n / d else -((-n) / d)
  }

  /** The height of the steepest line at `origin`, rounded half away from zero. */
  function RoundedIntercept(cs: CanonicalSegment, origin: int): int
    requires cs.p1.x < cs.p3.x
  {
    var s := Minus(cs.p3, cs.p1);
    var n := s.dy * (origin - cs.p1.x);
    var rounding := if n < 0 then -(s.dx / 2) else s.dx / 2;
    TruncDiv(n + rounding, s.dx) + cs.p1.y
  }

  function ToSegment(cs: CanonicalSegment): Segment
    requires cs.p1.x < cs.p3.x || cs.OnePoint()
  {
    if cs.OnePoint() then Segment(cs.first, Slope(1, 0), TruncDiv(cs.p0.y + cs.p1.y, 2))
    else Segment(cs.first, Minus(cs.p3, cs.p1), RoundedIntercept(cs, cs.first))
  }

  /** The prediction before it is clamped at zero. */
  function RawPrediction(seg: Segment, k: int): int
    requires seg.slope.dx > 0
  {
    TruncDiv(seg.slope.dy * (k - seg.key), seg.slope.dx) + seg.intercept
  }

  /** `Segment::operator()`. */
  function Predict(seg: Segment, k: int): nat
    requires seg.slope.dx > 0
  {
    var pos := RawPrediction(seg, k);
    if pos > 0 then pos else 0
  }

  ghost predicate WellFormed(seg: Segment) {
    seg.slope.dx > 0 && seg.slope.dy >= 0
  }

  // ---- arithmetic of truncation

  lemma TruncBounds(n: int, d: int)
    requires d > 0
    ensures n >= 0 ==> d * TruncDiv(n, d) <= n < d * TruncDiv(n, d) + d
    ensures n <= 0 ==> d * TruncDiv(n, d) - d < n <= d * TruncDiv(n, d)
  {
    if n >= 0 {
      assert n == d * (n / d) + n % d;
    } else {
      assert -n == d * ((-n) / d) + (-n) % d;
      assert d * -((-n) / d) == -(d * ((-n) / d));
    }
  }

  lemma SignFromProduct(d: int, z: int, e: int)
    requires d > 0 && d * z <= e
    ensures e < d ==> z <= 0
    ensures e < 0 ==> z < 0
  {
    if z > 0 { MulMono(1, z, d); }
    if z >= 0 { MulMono(0, z, d); }
  }

  lemma TruncMonotone(a: int, b: int, d: int)
    requires d > 0 && a <= b
    ensures TruncDiv(a, d) <= TruncDiv(b, d)
  {
    TruncBounds(a, d);
    TruncBounds(b, d);
    var z := TruncDiv(a, d) - TruncDiv(b, d);
    assert d * z == d * TruncDiv(a, d) - d * TruncDiv(b, d);
    if a >= 0 || b <= 0 {
      SignFromProduct(d, z, d - 1);
    } else {
      SignFromProduct(d, TruncDiv(a, d), d - 1);
      SignFromProduct(d, -TruncDiv(b, d), d - 1);
    }
  }

  /** The rounded intercept is within half a unit of the line. */
  lemma RoundingError(cs: CanonicalSegment, origin: int)
    requires cs.p1.x < cs.p3.x
    ensures var s := Minus(cs.p3, cs.p1);
      -s.dx <= 2 * (s.dx * (RoundedIntercept(cs, origin) - cs.p1.y) - s.dy * (origin - cs.p1.x)) <= s.dx
  {
    var s := Minus(cs.p3, cs.p1);
    var n := s.dy * (origin - cs.p1.x);
    var rounding := if n < 0 then -(s.dx / 2) else s.dx / 2;
    TruncBounds(n + rounding, s.dx);
    assert RoundedIntercept(cs, origin) - cs.p1.y == TruncDiv(n + rounding, s.dx);
  }

  lemma PredictionArithmetic(s: Slope, p: Point, first: int, r: Range, t: int, intercept: int)
    requires s.dx > 0 && Within(s, p, r)
    requires s.dx * t <= s.dy * (r.x - first) < s.dx * t + s.dx
    requires -s.dx <= 2 * (s.dx * (intercept - p.y) - s.dy * (first - p.x)) <= s.dx
    ensures r.lo - 1 <= t + intercept <= r.hi
  {
    var dx, dy := s.dx, s.dy;
    var e := dx * (intercept - p.y) - dy * (first - p.x);
    // dx * (t + intercept) is dx * p.y + dy * (r.x - p.x) + e, less the remainder of the truncation
    var above := dx * (t + intercept - r.hi);
    var below := dx * (r.lo - (t + intercept) - 1);
    var steps := dy * (r.x - first);
    assert steps == dy * r.x - dy * first;
    assert dy * (first - p.x) == dy * first - dy * p.x;
    assert dx * (intercept - p.y) == dx * intercept - dx * p.y;
    assert above == dx * t + dx * intercept - dx * r.hi;
    assert below == dx * r.lo - dx * t - dx * intercept - dx;
    assert above <= e && below <= -e;
    SignFromProduct(dx, t + intercept - r.hi, e);
    SignFromProduct(dx, r.lo - (t + intercept) - 1, -e);
  }

  /** A segment predicts at most one below and never above the range of any key it was fitted to. */
  lemma PredictionWithin(cs: CanonicalSegment, run: seq<Range>, i: nat)
    requires Fits(cs, run) && |run| >= 2 && i < |run| && cs.p1.y <= cs.p3.y
    ensures WellFormed(ToSegment(cs))
    ensures run[i].lo - 1 <= RawPrediction(ToSegment(cs), run[i].x) <= run[i].hi
  {
    var s, r, first := Minus(cs.p3, cs.p1), run[i], cs.first;
    assert Within(s, cs.p1, r);
    RoundingError(cs, first);
    MulMono(0, s.dy, r.x - first);
    TruncBounds(s.dy * (r.x - first), s.dx);
    PredictionArithmetic(s, cs.p1, first, r, TruncDiv(s.dy * (r.x - first), s.dx), RoundedIntercept(cs, first));
  }

  lemma InterceptWithin(cs: CanonicalSegment, r: Range)
    requires cs.p1.x < cs.p3.x && Within(Minus(cs.p3, cs.p1), cs.p1, r)
    ensures r.lo <= RoundedIntercept(cs, r.x) <= r.hi
  {
    var s := Minus(cs.p3, cs.p1);
    var v := RoundedIntercept(cs, r.x);
    RoundingError(cs, r.x);
    var e := s.dx * (v - cs.p1.y) - s.dy * (r.x - cs.p1.x);
    assert s.dy * (r.x - cs.p1.x) == s.dy * r.x - s.dy * cs.p1.x;
    assert s.dx * (v - cs.p1.y) == s.dx * v - s.dx * cs.p1.y;
    assert s.dx * (v - r.hi) == s.dx * v - s.dx * r.hi;
    assert s.dx * (r.lo - v) == s.dx * r.lo - s.dx * v;
    SignFromProduct(s.dx, v - r.hi, e);
    SignFromProduct(s.dx, r.lo - v, -e);
  }

  /** What an index needs to know about a segment and the ranges it covers. */
  ghost predicate Covers(seg: Segment, run: seq<Range>) {
    && |run| > 0 && WellFormed(seg) && seg.key == run[0].x
    && run[0].lo <= seg.intercept <= run[0].hi
    && (seg.slope.dy == 0 <==> |run| == 1)
    && forall i {:trigger RawPrediction(seg, run[i].x)} | 0 <= i < |run| ::
         run[i].lo - 1 <= RawPrediction(seg, run[i].x) <= run[i].hi
  }

  /** No later high end lies on or below an earlier low end. */
  ghost predicate Rising(run: seq<Range>) {
    && (forall i, j | 0 <= i <= j < |run| :: run[i].lo < run[j].hi)
    && (forall i | 0 <= i < |run| :: 0 <= run[i].lo)
  }

  lemma FitCovers(cs: CanonicalSegment, run: seq<Range>)
    requires Fits(cs, run) && Rising(run)
    ensures Covers(ToSegment(cs), run)
  {
    var seg := ToSegment(cs);
    if |run| == 1 {
      var v := TruncDiv(cs.p0.y + cs.p1.y, 2);
      assert seg == Segment(cs.first, Slope(1, 0), v);
      TruncBounds(cs.p0.y + cs.p1.y, 2);
      assert RawPrediction(seg, run[0].x) == v;
    } else {
      var i :| 0 <= i < |run| && End(Lower, run[i]) == cs.p1;
      var j :| 0 <= j < |run| && End(Upper, run[j]) == cs.p3;
      assert i < j;
      forall k | 0 <= k < |run| ensures run[k].lo - 1 <= RawPrediction(seg, run[k].x) <= run[k].hi {
        PredictionWithin(cs, run, k);
      }
      assert Within(Minus(cs.p3, cs.p1), cs.p1, run[0]);
      InterceptWithin(cs, run[0]);
    }
  }

  lemma PredictMonotone(seg: Segment, a: int, b: int)
    requires WellFormed(seg) && a <= b
    ensures RawPrediction(seg, a) <= RawPrediction(seg, b) && Predict(seg, a) <= Predict(seg, b)
  {
    MulMono(a - seg.key, b - seg.key, seg.slope.dy);
    TruncMonotone(seg.slope.dy * (a - seg.key), seg.slope.dy * (b - seg.key), seg.slope.dx);
  }
}
