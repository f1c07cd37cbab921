/** The finished radix spline: segment search, estimate and search bound, and
    what they promise for the keys it was built from. */
module RadixSpline {
  import opened Geometry
  import opened PiecewiseLinearModel
  import opened Pages
  import opened SplineCorridor
  import opened RadixTable

  datatype Spline = Spline(minKey: int, maxKey: int, maxY: Word, numShiftBits: nat, maxError: Word,
                           radixTable: seq<nat>, splinePoints: seq<Point>)

  // ---- which samples a list of spline points serves

  ghost predicate Climbs(spline: seq<Point>) {
    && Increasing(spline)
    && (forall i, j | 0 <= i <= j < |spline| :: 0 <= spline[i].y <= spline[j].y)
  }

  /** The segment that ends at or after the sample hits it. */
  ghost predicate Tracks(spline: seq<Point>, q: Sample) {
    && |spline| > 0 && spline[0].x <= q.x <= spline[|spline| - 1].x && Bounded(q)
    && forall i, j {:trigger spline[i], spline[j]} | 0 <= i && j == i + 1 < |spline| ::
         (spline[i].x < q.x <= spline[j].x ==> Hits(spline[i], spline[j], q))
  }

  /** The spline connects samples, from the first to the last of `done`, and tracks them all. */
  ghost predicate Tracked(spline: seq<Point>, done: seq<Sample>) {
    && |done| > 0 && |spline| > 0 && Climbs(spline)
    && spline[0] == At(done[0]) && spline[|spline| - 1] == At(done[|done| - 1])
    && forall k {:trigger Tracks(spline, done[k])} | 0 <= k < |done| :: Tracks(spline, done[k])
  }

  lemma TracksLonger(spline: seq<Point>, p: Point, q: Sample)
    requires Climbs(spline) && Tracks(spline, q) && spline[|spline| - 1].x < p.x
    ensures Tracks(spline + [p], q)
  {
  }

  lemma TracksLast(spline: seq<Point>, p: Point, q: Sample)
    requires Climbs(spline) && |spline| > 0 && Bounded(q) && spline[|spline| - 1].x < q.x <= p.x
    requires Hits(spline[|spline| - 1], p, q)
    ensures Tracks(spline + [p], q)
  {
  }

  /** Closing the open corridor at its candidate. */
  lemma CloseWindow(spline: seq<Point>, done: seq<Sample>, window: seq<Sample>, prev: Point, upper: Point, lower: Point)
    requires Tracked(spline, done) && OpenCorridor(spline[|spline| - 1], window, prev, upper, lower)
    ensures Tracked(spline + [prev], done + window)
  {
    var last, s, all := spline[|spline| - 1], spline + [prev], done + window;
    forall k | 0 <= k < |all| ensures Tracks(s, all[k]) {
      if k < |done| {
        assert Tracks(spline, done[k]);
        TracksLonger(spline, prev, done[k]);
      } else {
        CloseCorridor(last, window, prev, upper, lower, k - |done|);
        TracksLast(spline, prev, window[k - |done|]);
      }
    }
  }

  // ---- lookups

  /** The first spline point at or beyond the key. */
  function LowerBound(spline: seq<Point>, key: int): (t: nat)
    ensures t <= |spline|
    ensures t > 0 ==> spline[t - 1].x < key
    ensures forall i | t <= i < |spline| :: key <= spline[i].x
  {
    if spline == [] then 0
    else if spline[|spline| - 1].x < key then |spline|
    else LowerBound(spline[..|spline| - 1], key)
  }

  lemma LowerBoundUnique(spline: seq<Point>, key: int, t: nat)
    requires t <= |spline| && Increasing(spline)
    requires forall i | 0 <= i < t :: spline[i].x < key
    requires t < |spline| ==> key <= spline[t].x
    ensures t == LowerBound(spline, key)
  {
  }

  ghost predicate WellFormed(rs: Spline) {
    && |rs.splinePoints| > 0 && Climbs(rs.splinePoints)
    && rs.splinePoints[0].x == rs.minKey < rs.maxKey == rs.splinePoints[|rs.splinePoints| - 1].x
    && |rs.radixTable| == Prefix(rs.maxKey, rs.minKey, rs.numShiftBits) + 2
    && FilledTo(rs.radixTable, rs.splinePoints, rs.minKey, rs.numShiftBits, |rs.radixTable|)
    && rs.splinePoints[|rs.splinePoints| - 1].y <= rs.maxY && rs.maxY + rs.maxError < SIZE_MAX
  }

  /** Whichever branch the radix table selects, the segment is the one a search
      over all spline points finds. */
  method GetSplineSegment(rs: Spline, key: int) returns (index: nat)
    requires WellFormed(rs) && rs.minKey < key < rs.maxKey
    ensures index == LowerBound(rs.splinePoints, key)
  {
    var points := rs.splinePoints;
    var prefix := Prefix(key, rs.minKey, rs.numShiftBits);
    TableNarrows(rs.radixTable, points, rs.minKey, rs.maxKey, rs.numShiftBits, key);
    var begin, end := rs.radixTable[prefix], rs.radixTable[prefix + 1];
    if end - begin < 32 {
      var current := begin;
      while points[current].x < key
        invariant begin <= current < |points|
        invariant forall i | 0 <= i < current :: points[i].x < key
        decreases |points| - current
      {
        current := current + 1;
      }
      index := current;
    } else {
      var first, count := begin, end - begin;
      while count > 0
        invariant begin <= first <= first + count <= end
        invariant forall i | 0 <= i < first :: points[i].x < key
        invariant forall i | first + count <= i < |points| :: key <= points[i].x
      {
        var step := count / 2;
        if points[first + step].x < key {
          first, count := first + step + 1, count - step - 1;
        } else {
          count := step;
        }
      }
      index := first;
    }
    LowerBoundUnique(points, key, index);
  }

  ghost function Estimate(rs: Spline, key: int): int
    requires WellFormed(rs)
  {
    if key <= rs.minKey then 0
    else if key >= rs.maxKey then rs.maxY
    else var t := LowerBound(rs.splinePoints, key); Interpolate(rs.splinePoints[t - 1], rs.splinePoints[t], key)
  }

  lemma EstimateInRange(rs: Spline, key: int)
    requires WellFormed(rs)
    ensures 0 <= Estimate(rs, key) <= rs.maxY
  {
    if rs.minKey < key < rs.maxKey {
      var t, n := LowerBound(rs.splinePoints, key), |rs.splinePoints| - 1;
      var down, up := rs.splinePoints[t - 1], rs.splinePoints[t];
      InterpolateBetween(down, up, key);
      assert 0 <= down.y && up.y <= rs.splinePoints[n].y;
    }
  }

  lemma InterpolateBetween(down: Point, up: Point, x: int)
    requires down.x <= x <= up.x && down.x < up.x && down.y <= up.y
    ensures down.y <= Interpolate(down, up, x) <= up.y
  {
    var a, d, c := x - down.x, up.x - down.x, up.y - down.y;
    MulMono(a, d, c);
    MulMono(0, a, c);
    DivisionBounds(a * c, d, 0);
    DivisionBounds(a * c, d, c + 1);
  }

  method GetEstimatedPosition(rs: Spline, key: int) returns (e: nat)
    requires WellFormed(rs)
    ensures e == Estimate(rs, key)
  {
    if key <= rs.minKey { return 0; }
    if key >= rs.maxKey { return rs.maxY; }
    EstimateInRange(rs, key);
    var index := GetSplineSegment(rs, key);
    var down, up := rs.splinePoints[index - 1], rs.splinePoints[index];
    e := Interpolate(down, up, key);
  }

  /** The bound around an estimate; with an error of 0 its test wraps around and it begins at 0. */
  function BoundAround(estimate: Word, maxError: Word, maxY: Word): SearchBound
    requires estimate + maxError < SIZE_MAX
  {
    SearchBound(if estimate < WrapSub(maxError, 1) then 0 else estimate - maxError + 1,
                if estimate + maxError + 1 > maxY + 1 then maxY + 1 else estimate + maxError + 1)
  }

  ghost function BoundOf(rs: Spline, key: int): SearchBound
    requires WellFormed(rs)
  {
    EstimateInRange(rs, key);
    BoundAround(Estimate(rs, key), rs.maxError, rs.maxY)
  }

  method GetSearchBound(rs: Spline, key: int) returns (b: SearchBound)
    requires WellFormed(rs)
    ensures b == BoundOf(rs, key)
  {
    EstimateInRange(rs, key);
    var estimate := GetEstimatedPosition(rs, key);
    b := BoundAround(estimate, rs.maxError, rs.maxY);
  }

  // ---- what the bound promises

  /** An inner key of the data is estimated on a segment that hits its sample. */
  lemma EstimateHits(rs: Spline, q: Sample)
    requires WellFormed(rs) && rs.minKey < q.x < rs.maxKey && Tracks(rs.splinePoints, q)
    ensures Estimate(rs, q.x) == q.y || q.lo <= Estimate(rs, q.x) < q.hi
  {
    var t := LowerBound(rs.splinePoints, q.x);
    var down, up := rs.splinePoints[t - 1], rs.splinePoints[t];
    InterpolateBetween(down, up, q.x);
    assert Hits(down, up, q);
  }

  /** Plain samples allow the error on both sides of the position. */
  function PlainSample(x: int, y: Word, e: Word): (q: Sample)
    ensures Bounded(q) && At(q) == Point(x, y)
  {
    Sample(x, y, if y < e then 0 else y - e, y + e)
  }

  predicate Contains(b: SearchBound, y: int) {
    b.begin <= y < b.end
  }

  lemma HitIsContained(e: Word, y: Word, est: Word, maxY: Word)
    requires est <= maxY && y <= maxY && maxY + e < SIZE_MAX
    requires var q := PlainSample(0, y, e); est == y || q.lo <= est < q.hi
    ensures Contains(BoundAround(est, e, maxY), y)
  {
  }

  /** The search bound of a key that was added contains its position, except that
      the first key, always estimated at 0, is missed beyond the error. */
  lemma PlainBoundContains(rs: Spline, x: int, y: Word)
    requires WellFormed(rs) && rs.minKey <= x <= rs.maxKey && y <= rs.maxY
    requires Tracks(rs.splinePoints, PlainSample(x, y, rs.maxError))
    requires x == rs.maxKey ==> y == rs.maxY
    ensures Contains(BoundOf(rs, x), y) <==> x > rs.minKey || y <= rs.maxError
  {
    EstimateInRange(rs, x);
    if rs.minKey < x < rs.maxKey {
      EstimateHits(rs, PlainSample(x, y, rs.maxError));
      HitIsContained(rs.maxError, y, Estimate(rs, x), rs.maxY);
    }
  }

  // ---- page-level corridors

  /** `GetRangeY` of the disk-oriented builder: the positions of the page, widened
      by `eps`, or narrowed by it when the key may not cross pages. */
  function GetRangeY(y: Word, eps: Word, rpp: Word, crossPage: bool): (Word, Word)
    requires rpp > 0 && y + rpp <= SIZE_MAX
  {
    PageBounds(y, rpp);
    var left := Page(y, rpp) * rpp;
    var right := (Page(y, rpp) + 1) * rpp - 1;
    var narrow := !crossPage && eps < rpp / 4;
    var low := if narrow then left + eps else if left >= eps then left - eps else 0;
    var high := if narrow then right - eps else if right <= SIZE_MAX - eps then right + eps else SIZE_MAX;
    (if low < y then low else y, if high > y then high else y)
  }

  function PageSample(x: int, y: Word, eps: Word, rpp: Word, crossPage: bool): (q: Sample)
    requires rpp > 0 && y + rpp <= SIZE_MAX
    ensures Bounded(q) && At(q) == Point(x, y)
  {
    var (low, high) := GetRangeY(y, eps, rpp, crossPage);
    Sample(x, y, low, high)
  }

  /** In both cases the corridor stays within the error of the page. */
  lemma SampleNearPage(x: int, y: Word, eps: Word, rpp: Word, crossPage: bool)
    requires rpp > 0 && y + rpp <= SIZE_MAX
    ensures var q := PageSample(x, y, eps, rpp, crossPage);
      var left := Page(y, rpp) * rpp;
      left - eps <= q.lo && q.hi <= left + rpp - 1 + eps
  {
    PageBounds(y, rpp);
  }

  lemma NearEstimateReachesPage(est: Word, e: Word, y: Word, rpp: Word, maxY: Word)
    requires rpp > 0 && est <= maxY && y <= maxY && maxY + e < SIZE_MAX
    requires var left := Page(y, rpp) * rpp;
      est == y || left - e <= est < left + rpp - 1 + e
    ensures ReachesPage(BoundAround(est, e, maxY), y, rpp)
  {
    PageBounds(y, rpp);
    var left := Page(y, rpp) * rpp;
    var b := BoundAround(est, e, maxY);
    var p := if b.begin < left then left else b.begin;
    SamePage(p, y, rpp);
    assert b.begin <= p < b.end;
  }

  /** The first page lies within the error exactly if the bound around 0 reaches it. */
  lemma ZeroReachesPage(e: Word, y: Word, rpp: Word, maxY: Word)
    requires rpp > 0 && y <= maxY && maxY + e < SIZE_MAX
    ensures ReachesPage(BoundAround(0, e, maxY), y, rpp) <==> Page(y, rpp) * rpp <= e
  {
    PageBounds(y, rpp);
    var b, left := BoundAround(0, e, maxY), Page(y, rpp) * rpp;
    if left <= e {
      SamePage(left, y, rpp);
      assert b.begin <= left < b.end;
    }
    forall p: nat | b.begin <= p < b.end && Page(p, rpp) == Page(y, rpp) ensures left <= e {
      PageBounds(p, rpp);
    }
  }

  /** The pages spanned by the search bound of a key that was added include the
      page of its position, except that the first key needs its page within the error. */
  lemma PageBoundReaches(rs: Spline, x: int, y: Word, rpp: Word, crossPage: bool)
    requires WellFormed(rs) && rs.minKey <= x <= rs.maxKey && y <= rs.maxY && rpp > 0 && y + rpp <= SIZE_MAX
    requires Tracks(rs.splinePoints, PageSample(x, y, rs.maxError, rpp, crossPage))
    requires x == rs.maxKey ==> y == rs.maxY
    ensures ReachesPage(BoundOf(rs, x), y, rpp) <==> x > rs.minKey || Page(y, rpp) * rpp <= rs.maxError
  {
    EstimateInRange(rs, x);
    if x == rs.minKey {
      ZeroReachesPage(rs.maxError, y, rpp, rs.maxY);
    } else {
      if x < rs.maxKey { EstimateHits(rs, PageSample(x, y, rs.maxError, rpp, crossPage)); }
      SampleNearPage(x, y, rs.maxError, rpp, crossPage);
      NearEstimateReachesPage(Estimate(rs, x), rs.maxError, y, rpp, rs.maxY);
    }
  }
}
