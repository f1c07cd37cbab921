/** The compressed disk-oriented index (DI-V4): page-wide ranges, merged slopes,
    rounded and encoded intercepts, and the page its search bound must reach. */
module DiskOrientedIndex {
  import opened Geometry
  import opened Corridor
  import opened PiecewiseLinearModel
  import opened Pages
  import opened Segmentation
  import opened ParallelSegmentation
  import opened PgmLevel
  import opened SlopeCompression
  import opened InterceptCompression
  import opened SegmentLines
  import S = PgmSegment

  // ---- ranges that stay within reach of a page

  predicate Fitting(y: nat, eps: nat, rpp: nat) {
    rpp > 0 && y + rpp + 2 * eps < SIZE_MAX - eps
  }

  /** `GetRangeY`: all positions of the page of `y`, widened by `eps` on both
      sides, or narrowed by `2 * eps` when the key may not cross pages. */
  function GetRangeY(y: Word, eps: Word, rpp: Word, crossPage: bool): (Word, Word)
    requires Fitting(y, eps, rpp)
  {
    PageBounds(y, rpp);
    var left := Page(y, rpp) * rpp;
    var right := (Page(y, rpp) + 1) * rpp - 1;
    var narrow := !crossPage && eps < WrapSub(rpp / 4, 1);
    var low := if narrow then left + 2 * eps else if left >= eps then left - eps else 0;
    var high := if narrow then WrapSub(right, 2 * eps)
                else if right <= SIZE_MAX - eps then right + eps else SIZE_MAX;
    (if low < y then low else y, if high > y then high else y)
  }

  /** The ranges reach no further than `eps` beyond the page and are never empty.
      Below four records a page the narrowing test wraps around, so that only
      ranges that may cross pages are safe; with an epsilon of half a page or more,
      saturation could pull a low end further down. */
  lemma RangeNearPage(x: int, y: Word, eps: Word, rpp: Word, crossPage: bool)
    requires Fitting(y, eps, rpp) && (rpp >= 4 || crossPage) && eps > 0 && 2 * eps < rpp
    ensures var (low, high) := GetRangeY(y, eps, rpp, crossPage);
      var r := GivenRange(eps, x, low, high);
      var left := Page(y, rpp) * rpp;
      && left - eps <= r.lo <= y <= r.hi <= left + rpp - 1 + eps && r.lo < r.hi && 0 <= r.lo
  {
    PageBounds(y, rpp);
    if Page(y, rpp) > 0 { MulMono(1, Page(y, rpp), rpp); }
  }

  // ---- the page guarantee

  /** Conversion of a `double` to `int`, which truncates towards zero. */
  function Truncate(t: real): int {
    if t >= 0.0 then t.Floor else -((-t).Floor)
  }

  /** The clamped prediction. */
  function Clamp(p: int, maxY: nat): nat {
    if p < 0 then 0 else if p > maxY + 1 then maxY + 1 else p
  }

  function BoundAround(pred: nat, error: nat, maxY: nat): SearchBound {
    SearchBound(if pred < error then 0 else pred - error,
                (if pred + error > maxY then maxY else pred + error) + 1)
  }

  /** A value within half a unit of a line that stays within `eps` of the page
      gives a bound that reaches the page. */
  lemma NearLineReachesPage(t: real, v: real, y: nat, eps: nat, rpp: nat, maxY: nat)
    requires rpp > 0 && y <= maxY
    requires (Page(y, rpp) * rpp - eps) as real <= v <= (Page(y, rpp) * rpp + rpp - 1 + eps) as real
    requires v - 0.5 <= t <= v + 0.5
    ensures ReachesPage(BoundAround(Clamp(Truncate(t), maxY), eps + 1, maxY), y, rpp)
  {
    PageBounds(y, rpp);
    var left := Page(y, rpp) * rpp;
    var pred := Clamp(Truncate(t), maxY);
    var b := BoundAround(pred, eps + 1, maxY);
    TruncateNear(t, v, left - eps, left + rpp - 1 + eps);
    var p := if b.begin < left then left else b.begin;
    SamePage(p, y, rpp);
    assert b.begin <= p < b.end;
  }

  lemma TruncateNear(t: real, v: real, lo: int, hi: int)
    requires lo as real <= v <= hi as real && v - 0.5 <= t <= v + 0.5
    ensures t >= 0.0 ==> lo - 1 <= Truncate(t) <= hi
    ensures t < 0.0 ==> Truncate(t) <= 0 && lo <= 0
  {
  }

  // ---- the index

  /** The key a position is trained with. At the end of a run of equal keys that
      leaves a gap, it is one more than the key. */
  function TrainingKey(data: seq<Entry>, i: nat): (x: int)
    requires i < |data|
  {
    if 0 < i && i + 1 < |data| && data[i].x == data[i - 1].x && data[i].x != data[i + 1].x
       && data[i].x + 1 != data[i + 1].x
    then data[i].x + 1 else data[i].x
  }

  /** The data in the form the segmentation takes it, one flag per position for whether it may cross pages. */
  function PageData(data: seq<Entry>, eps: Word, rpp: Word, cross: seq<bool>): (d: seq<Datum>)
    requires |cross| == |data| && forall i | 0 <= i < |data| :: Fitting(data[i].y, eps, rpp)
    ensures |d| == |data| && forall i | 0 <= i < |d| :: d[i].x == TrainingKey(data, i)
  {
    seq(|data|, i requires 0 <= i < |data| =>
      var (low, high) := GetRangeY(data[i].y, eps, rpp, cross[i]);
      Given(TrainingKey(data, i), low, high, data[i].y))
  }

  ghost predicate Increasing(data: seq<Entry>) {
    forall i, j | 0 <= i < j < |data| :: data[i].x < data[j].x && data[i].y <= data[j].y
  }

  /** How far apart positions that may cross pages are; no gap is defined when the
      data is so small that no position may cross. */
  predicate CrossGapDefined(n: nat, eps: nat, rpp: nat) {
    rpp > 0 && ((2 * eps + 1) * n / rpp > 0 || n < 2)
  }

  function CrossGap(n: nat, eps: nat, rpp: nat): (gap: nat)
    requires CrossGapDefined(n, eps, rpp)
    ensures gap > 0
  {
    var crossNum := (2 * eps + 1) * n / rpp;
    if n / 2 > crossNum then DivisionBounds(n / 2, crossNum, 1); n / 2 / crossNum else 1
  }

  function CrossFlags(n: nat, eps: nat, rpp: nat): (flags: seq<bool>)
    requires CrossGapDefined(n, eps, rpp)
    ensures |flags| == n
  {
    seq(n, i requires 0 <= i < n => i % CrossGap(n, eps, rpp) == 0)
  }

  /** Stored data in order; keys may repeat. */
  ghost predicate Climbing(data: seq<Entry>) {
    forall i, j | 0 <= i < j < |data| :: data[i].x <= data[j].x && data[i].y <= data[j].y
  }

  ghost predicate GoodInput(data: seq<Entry>, eps: Word, rpp: Word, cross: seq<bool>) {
    && |data| > 0 && |cross| == |data| && Climbing(data) && data[|data| - 1].x < KEY_MAX
    && eps > 0 && 2 * eps < rpp && (rpp >= 4 || forall i | 0 <= i < |data| :: cross[i])
    && forall i | 0 <= i < |data| :: Fitting(data[i].y, eps, rpp)
  }

  /** The range of key `i`, which stays near the page of its position. */
  ghost predicate NearPage(r: Range, e: Entry, eps: nat, rpp: nat)
    requires rpp > 0
  {
    r.x == e.x && Page(e.y, rpp) * rpp - eps <= r.lo && r.hi <= Page(e.y, rpp) * rpp + rpp - 1 + eps
  }

  // ---- what the index is trained on

  /** Page ranges rise: none ends before an earlier one begins. */
  lemma RangesRise(x: int, y: Word, crossY: bool, x': int, z: Word, crossZ: bool, eps: Word, rpp: Word)
    requires Fitting(y, eps, rpp) && Fitting(z, eps, rpp) && eps > 0 && 2 * eps < rpp && y <= z
    requires rpp >= 4 || (crossY && crossZ)
    ensures var (low, high) := GetRangeY(y, eps, rpp, crossY);
      var (low', high') := GetRangeY(z, eps, rpp, crossZ);
      GivenRange(eps, x, low, high).lo < GivenRange(eps, x', low', high').hi
  {
    PageBounds(y, rpp);
    PageBounds(z, rpp);
  }

  ghost predicate Rise(points: seq<Range>) {
    forall i, j | 0 <= i <= j < |points| :: points[i].lo < points[j].hi
  }

  lemma PairRises(data: seq<Entry>, eps: Word, rpp: Word, cross: seq<bool>, i: nat, j: nat)
    requires GoodInput(data, eps, rpp, cross) && i <= j < |data|
    ensures var d := PageData(data, eps, rpp, cross); RangeOf(eps, d[i]).lo < RangeOf(eps, d[j]).hi
  {
    RangesRise(TrainingKey(data, i), data[i].y, cross[i], TrainingKey(data, j), data[j].y, cross[j], eps, rpp);
  }

  lemma {:induction false} PointsRise(data: seq<Entry>, eps: Word, rpp: Word, cross: seq<bool>, n: nat)
    requires GoodInput(data, eps, rpp, cross) && n <= |data|
    ensures var d, r := PageData(data, eps, rpp, cross), Points(eps, PageData(data, eps, rpp, cross), 0, n);
      Rise(r) && forall i, m | 0 <= i < |r| && n <= m < |d| :: r[i].lo < RangeOf(eps, d[m]).hi
  {
    if n > 0 {
      PointsRise(data, eps, rpp, cross, n - 1);
      var d := PageData(data, eps, rpp, cross);
      forall m | n - 1 <= m < |d| ensures RangeOf(eps, d[n - 1]).lo < RangeOf(eps, d[m]).hi {
        PairRises(data, eps, rpp, cross, n - 1, m);
      }
      RiseMore(Points(eps, d, 0, n - 1), eps, d, n);
    }
  }

  lemma RiseMore(r: seq<Range>, eps: Word, d: seq<Datum>, n: nat)
    requires 0 < n <= |d| && Rise(r)
    requires forall i, m | 0 <= i < |r| && n - 1 <= m < |d| :: r[i].lo < RangeOf(eps, d[m]).hi
    requires forall m | n - 1 <= m < |d| :: RangeOf(eps, d[n - 1]).lo < RangeOf(eps, d[m]).hi
    ensures var s := r + [RangeOf(eps, d[n - 1])];
      Rise(s) && forall i, m | 0 <= i < |s| && n <= m < |d| :: s[i].lo < RangeOf(eps, d[m]).hi
  {
  }

  /** Over rising ranges, only a segment of one point has slope 0. */
  lemma FlatIsAlone(cs: CanonicalSegment, run: seq<Range>)
    requires Fits(cs, run) && Rise(run)
    ensures cs.p1.x < cs.p3.x || cs.OnePoint()
    ensures S.ToSegment(cs).slope.dy == 0 <==> cs.OnePoint()
  {
    if |run| >= 2 {
      var i :| 0 <= i < |run| && End(Lower, run[i]) == cs.p1;
      var j :| 0 <= j < |run| && End(Upper, run[j]) == cs.p3;
      assert i < j;
    }
  }

  /** One entry for each training key among the first `n`, with the first of its positions. */
  function Trained(data: seq<Entry>, n: nat): (t: seq<Entry>)
    requires n <= |data|
    ensures n > 0 ==> |t| > 0 && t[|t| - 1].x == TrainingKey(data, n - 1)
  {
    if n == 0 then []
    else if n > 1 && TrainingKey(data, n - 2) == TrainingKey(data, n - 1) then Trained(data, n - 1)
    else Trained(data, n - 1) + [Entry(TrainingKey(data, n - 1), data[n - 1].y)]
  }

  lemma TrainingKeysClimb(data: seq<Entry>)
    requires Climbing(data)
    ensures forall i, j | 0 <= i < j < |data| :: TrainingKey(data, i) <= TrainingKey(data, j)
  {
    forall i, j | 0 <= i < j < |data| ensures TrainingKey(data, i) <= TrainingKey(data, j) {
      assert data[i].x <= data[i + 1].x <= data[j].x;
    }
  }

  lemma {:induction false} TrainedIncreases(data: seq<Entry>, n: nat)
    requires Climbing(data) && n <= |data|
    ensures Increasing(Trained(data, n))
    ensures forall t | 0 <= t < |Trained(data, n)| :: Trained(data, n)[t].y <= data[n - 1].y
  {
    if n > 0 {
      TrainedIncreases(data, n - 1);
      TrainingKeysClimb(data);
    }
  }

  lemma {:induction false} TrainedStarts(data: seq<Entry>, n: nat)
    requires 0 < n <= |data|
    ensures Trained(data, n)[0] == data[0]
  {
    if n > 1 { TrainedStarts(data, n - 1); } else { assert data[0] == Entry(data[0].x, data[0].y); }
  }

  /** The first position of every stored key is trained. */
  lemma {:induction false} FirstIsTrained(data: seq<Entry>, n: nat, i: nat)
    requires Climbing(data) && i < n <= |data| && (i > 0 ==> data[i - 1].x < data[i].x)
    ensures data[i] in Trained(data, n)
  {
    if i < n - 1 {
      FirstIsTrained(data, n - 1, i);
    } else {
      assert TrainingKey(data, i) == data[i].x;
      assert i > 0 ==> TrainingKey(data, i - 1) < data[i].x;
      assert data[i] == Entry(data[i].x, data[i].y);
    }
  }

  /** The ranges the segmentation works on are those of the trained entries. */
  lemma {:induction false} PointsNearPages(data: seq<Entry>, eps: Word, rpp: Word, cross: seq<bool>, n: nat)
    requires GoodInput(data, eps, rpp, cross) && n <= |data|
    ensures var d, t := Points(eps, PageData(data, eps, rpp, cross), 0, n), Trained(data, n);
      |d| == |t| && forall i | 0 <= i < |d| :: NearPage(d[i], t[i], eps, rpp) && d[i].lo < d[i].hi
  {
    if n > 0 {
      PointsNearPages(data, eps, rpp, cross, n - 1);
      PointNearPage(data, eps, rpp, cross, n - 1);
    }
  }

  lemma PointNearPage(data: seq<Entry>, eps: Word, rpp: Word, cross: seq<bool>, i: nat)
    requires GoodInput(data, eps, rpp, cross) && i < |data|
    ensures var r := RangeOf(eps, PageData(data, eps, rpp, cross)[i]);
      NearPage(r, Entry(TrainingKey(data, i), data[i].y), eps, rpp) && r.lo < r.hi
  {
    RangeNearPage(TrainingKey(data, i), data[i].y, eps, rpp, cross[i]);
  }

  lemma PageDataUsable(data: seq<Entry>, eps: Word, rpp: Word, cross: seq<bool>)
    requires GoodInput(data, eps, rpp, cross)
    ensures Sorted(PageData(data, eps, rpp, cross)) && Usable(eps, PageData(data, eps, rpp, cross))
  {
    var d := PageData(data, eps, rpp, cross);
    TrainingKeysClimb(data);
    forall i | 0 <= i < |d| ensures RangeOf(eps, d[i]).lo < RangeOf(eps, d[i]).hi {
      PointNearPage(data, eps, rpp, cross, i);
    }
  }

  /** The ranges that are segmented last: all of them, or those of the last chunk. */
  function LastRanges(data: seq<Entry>, eps: Word, rpp: Word, cross: seq<bool>, parallelism: nat): seq<Range>
    requires |cross| == |data| && (forall i | 0 <= i < |data| :: Fitting(data[i].y, eps, rpp))
    requires 0 < parallelism <= CHUNKED_FROM
  {
    LastPart(eps, PageData(data, eps, rpp, cross), parallelism)
  }

  lemma {:induction false} PartIsProper(epsilon: Word, data: seq<Datum>, a: nat, b: nat)
    requires a <= b <= |data| && forall i | 0 <= i < |data| :: RangeOf(epsilon, data[i]).lo < RangeOf(epsilon, data[i]).hi
    ensures Segmentation.Proper(Points(epsilon, data, a, b))
  {
    if a < b { PartIsProper(epsilon, data, a, b - 1); }
  }

  lemma LastRangesProper(data: seq<Entry>, eps: Word, rpp: Word, cross: seq<bool>, parallelism: nat)
    requires GoodInput(data, eps, rpp, cross) && 0 < parallelism <= CHUNKED_FROM
    ensures Segmentation.Proper(LastRanges(data, eps, rpp, cross, parallelism))
  {
    var d := PageData(data, eps, rpp, cross);
    forall i | 0 <= i < |d| ensures RangeOf(eps, d[i]).lo < RangeOf(eps, d[i]).hi {
      PointNearPage(data, eps, rpp, cross, i);
    }
    if Chunked(|d|, parallelism) {
      SizeOfChunks(|d|, parallelism);
      PartIsProper(eps, d, LastStart(d, |d| / parallelism, parallelism, parallelism), |d|);
    } else {
      PartIsProper(eps, d, 0, |d|);
    }
  }

  /** The stored model is within half a unit of a line that stays near the page of the entry. */
  ghost predicate Predicted(slope: real, key: int, intercept: int, e: Entry, eps: nat, rpp: nat)
    requires rpp > 0
  {
    exists v: real {:trigger OnTarget(v, slope, key, intercept, e, eps, rpp)} ::
      OnTarget(v, slope, key, intercept, e, eps, rpp)
  }

  ghost predicate OnTarget(v: real, slope: real, key: int, intercept: int, e: Entry, eps: nat, rpp: nat)
    requires rpp > 0
  {
    && (Page(e.y, rpp) * rpp - eps) as real <= v <= (Page(e.y, rpp) * rpp + rpp - 1 + eps) as real
    && v - 0.5 <= Raw(slope, e.x - key, intercept) <= v + 0.5
  }

  function ToSlopeRange(cs: CanonicalSegment): SlopeRange
    requires cs.OnePoint() || (cs.p0.x < cs.p2.x && cs.p1.x < cs.p3.x)
  {
    var (lo, hi) := SlopeRangeOf(cs);
    var (ix, iy) := Intersection(cs);
    SlopeRange(lo, hi, ix, iy, cs.first)
  }

  /** Rounding the height of a line at the segment's key moves predictions by at most half a unit. */
  lemma RoundedLine(s: SlopeRange, slope: real, x: int)
    ensures var v := Through(s.ix, s.iy, slope, x as real);
      v - 0.5 <= Raw(slope, x - s.key, MergedIntercept(s, slope)) <= v + 0.5
  {
    var key, z := s.key as real, x as real;
    Shifted(slope, z, s.ix, key);
    RoundIsNear(s.iy - (s.ix - key) * slope);
    assert (x - s.key) as real == z - key;
  }

  lemma Shifted(m: real, z: real, a: real, b: real)
    ensures m * (z - a) == m * (z - b) - (a - b) * m
  {
    assert z - a == (z - b) - (a - b);
  }

  lemma LineHits(s: SlopeRange, slope: real, r: Range, e: Entry, eps: nat, rpp: nat)
    requires rpp > 0 && NearPage(r, e, eps, rpp)
    requires r.lo as real <= Through(s.ix, s.iy, slope, r.x as real) <= r.hi as real
    ensures Predicted(slope, s.key, MergedIntercept(s, slope), e, eps, rpp)
  {
    RoundedLine(s, slope, e.x);
    assert OnTarget(Through(s.ix, s.iy, slope, r.x as real), slope, s.key, MergedIntercept(s, slope), e, eps, rpp);
  }

  /** The merged slope and the rounded intercept of a segment predict every key of
      its block; a segment of one point predicts it with any slope. */
  lemma BlockPredicted(cs: CanonicalSegment, run: seq<Range>, slope: real, i: nat, e: Entry, eps: nat, rpp: nat)
    requires Fits(cs, run) && i < |run| && rpp > 0 && NearPage(run[i], e, eps, rpp) && run[i].lo <= run[i].hi
    requires SlopeRangeOf(cs).0 <= slope <= SlopeRangeOf(cs).1
    requires cs.OnePoint() || (cs.p0.x < cs.p2.x && cs.p1.x < cs.p3.x)
    ensures Predicted(slope, cs.first, MergedIntercept(ToSlopeRange(cs), slope), e, eps, rpp)
  {
    if |run| >= 2 { MergedLineStabs(cs, run, slope, i); }
    LineHits(ToSlopeRange(cs), slope, run[i], e, eps, rpp);
  }

  /** `keys` are the first keys of the blocks followed by the sentinel, and each
      block's model predicts all its keys. */
  ghost predicate Models(data: seq<Entry>, eps: nat, rpp: nat, keys: seq<int>, table: seq<real>, mapping: seq<nat>,
                         intercepts: seq<int>)
    requires rpp > 0
  {
    && |keys| == |mapping| + 1 == |intercepts| + 1 > 1
    && |data| > 0 && keys[0] == data[0].x && keys[|keys| - 1] == KEY_MAX
    && (forall t, u | 0 <= t < u < |keys| :: keys[t] < keys[u])
    && (forall t | 0 <= t < |mapping| :: mapping[t] < |table|)
    && forall t, i {:trigger Predicted(table[mapping[t]], keys[t], intercepts[t], data[i], eps, rpp)}
         | 0 <= t < |mapping| && 0 <= i < |data| && keys[t] <= data[i].x < keys[t + 1] ::
         Predicted(table[mapping[t]], keys[t], intercepts[t], data[i], eps, rpp)
  }

  /** Segments over consecutive blocks of ranges that stay near the pages of the data. */
  ghost predicate Blocks(segments: seq<CanonicalSegment>, cuts: seq<nat>, points: seq<Range>, data: seq<Entry>,
                         eps: nat, rpp: nat)
    requires rpp > 0
  {
    && SegmentsFit(segments, cuts, points) && |segments| > 0 && |points| == |data| && Increasing(data)
    && forall i | 0 <= i < |data| :: NearPage(points[i], data[i], eps, rpp) && points[i].lo < points[i].hi
  }

  lemma BlocksGiveModels(segments: seq<CanonicalSegment>, cuts: seq<nat>, points: seq<Range>, data: seq<Entry>,
                         eps: nat, rpp: nat, keys: seq<int>, slopes: seq<SlopeRange>, table: seq<real>,
                         mapping: seq<nat>, intercepts: seq<int>)
    requires rpp > 0 && Blocks(segments, cuts, points, data, eps, rpp) && data[|data| - 1].x < KEY_MAX
    requires |keys| == |segments| + 1 && keys[|segments|] == KEY_MAX
    requires forall t | 0 <= t < |segments| :: keys[t] == segments[t].first
    requires |slopes| == |segments| && forall t | 0 <= t < |segments| ::
      (segments[t].OnePoint() || (segments[t].p0.x < segments[t].p2.x && segments[t].p1.x < segments[t].p3.x))
      && slopes[t] == ToSlopeRange(segments[t])
    requires Tolerated(slopes, table, mapping) && |intercepts| == |segments|
    requires forall t | 0 <= t < |segments| :: intercepts[t] == MergedIntercept(slopes[t], table[mapping[t]])
    ensures Models(data, eps, rpp, keys, table, mapping, intercepts)
  {
    forall t | 0 <= t < |segments| ensures keys[t] == data[cuts[t]].x && mapping[t] < |table| {
      BlockStart(segments, cuts, points, data, eps, rpp, t);
    }
    forall t, u | 0 <= t < u < |keys| ensures keys[t] < keys[u] {
      assert cuts[t] < cuts[u];
    }
    forall t, i | 0 <= t < |mapping| && 0 <= i < |data| && keys[t] <= data[i].x < keys[t + 1]
      ensures Predicted(table[mapping[t]], keys[t], intercepts[t], data[i], eps, rpp)
    {
      InBlock(cuts, data, keys, t, i);
      var run := points[cuts[t]..cuts[t + 1]];
      assert Fits(segments[t], run);
      assert run[i - cuts[t]] == points[i];
      BlockPredicted(segments[t], run, table[mapping[t]], i - cuts[t], data[i], eps, rpp);
    }
  }

  lemma BlockStart(segments: seq<CanonicalSegment>, cuts: seq<nat>, points: seq<Range>, data: seq<Entry>,
                   eps: nat, rpp: nat, t: nat)
    requires rpp > 0 && Blocks(segments, cuts, points, data, eps, rpp) && t < |segments|
    ensures cuts[t] < |data| && segments[t].first == data[cuts[t]].x
  {
    assert cuts[t] < cuts[t + 1];
    assert Fits(segments[t], points[cuts[t]..cuts[t + 1]]);
  }

  lemma InBlock(cuts: seq<nat>, data: seq<Entry>, keys: seq<int>, t: nat, i: nat)
    requires Cuts(cuts, |data|) && |keys| == |cuts| && t < |cuts| - 1 && i < |data| && Increasing(data)
    requires forall t | 0 <= t < |cuts| - 1 :: cuts[t] < |data| && keys[t] == data[cuts[t]].x
    requires keys[t] <= data[i].x < keys[t + 1]
    ensures cuts[t] <= i < cuts[t + 1]
  {
  }

  class DiskOrientedIndexV4 {
    const recordPerPage: Word
    var minKey: int
    var maxKey: int
    var maxY: nat
    var error: nat
    var slopesTable: seq<real>
    var slopesMap: seq<nat>
    var intercepts: CompressedIntercepts?
    var modelKeys: seq<int>

    /** What was indexed, and the intercepts before they were encoded. */
    ghost var data: seq<Entry>
    ghost var plainIntercepts: seq<int>

    ghost predicate Valid()
      reads this, intercepts
    {
      && recordPerPage > 0 && error > 0 && |data| > 0 && Climbing(data)
      && minKey == data[0].x && maxKey == data[|data| - 1].x < KEY_MAX && maxY == data[|data| - 1].y
      && intercepts != null && intercepts.Encodes(plainIntercepts)
      && Models(Trained(data, |data|), error - 1, recordPerPage, modelKeys, slopesTable, slopesMap, plainIntercepts)
    }

    constructor (recordPerPage: Word)
      ensures this.recordPerPage == recordPerPage
    {
      this.recordPerPage := recordPerPage;
      minKey, maxKey, maxY, error := 0, 0, 0, 0;
      slopesTable, slopesMap, intercepts, modelKeys := [], [], null, [];
      data, plainIntercepts := [], [];
    }

    /** Splits, merges the slopes and encodes the intercepts. The result is false
        exactly when the last key ends up with a segment of its own: an extra flat
        segment then has no slope range, and the source reads past the end of
        the list of ranges. */
    method Build(entries: seq<Entry>, epsilon: Word, cross: seq<bool>, parallelism: nat) returns (ok: bool)
      requires GoodInput(entries, epsilon, recordPerPage, cross) && 0 < parallelism <= CHUNKED_FROM
      modifies this
      ensures ok <==> !(|entries| > 1 && EndsAlone(LastRanges(entries, epsilon, recordPerPage, cross, parallelism)))
      ensures ok ==> Valid() && data == entries && error == epsilon + 1 && fresh(intercepts)
    {
      var plain;
      minKey, maxKey, maxY := entries[0].x, entries[|entries| - 1].x, entries[|entries| - 1].y;
      error := epsilon + 1;
      ok, modelKeys, slopesTable, slopesMap, plain := Train(entries, epsilon, recordPerPage, cross, parallelism);
      if ok { Store(entries, plain); }
    }

    /** Encodes the intercepts of the models. */
    method Store(entries: seq<Entry>, plain: seq<int>)
      requires recordPerPage > 0 && error > 0 && |entries| > 0 && Climbing(entries)
      requires minKey == entries[0].x && maxKey == entries[|entries| - 1].x < KEY_MAX && maxY == entries[|entries| - 1].y
      requires Models(Trained(entries, |entries|), error - 1, recordPerPage, modelKeys, slopesTable, slopesMap, plain)
      modifies this`intercepts, this`data, this`plainIntercepts
      ensures Valid() && data == entries && fresh(intercepts)
    {
      var code := new CompressedIntercepts();
      code.Compress(plain);
      intercepts := code;
      data, plainIntercepts := entries, plain;
    }

    /** The segment of a key: the last model key that is not larger, with its index. */
    method GetSegmentIndex(key: int) returns (idx: nat, modelKey: int)
      requires Valid() && minKey <= key < KEY_MAX
      ensures idx < |modelKeys| - 1 && modelKey == modelKeys[idx] <= key < modelKeys[idx + 1]
    {
      TrainedStarts(data, |data|);
      var s, e := 0, |modelKeys|;
      while s < e
        invariant 0 <= s <= e <= |modelKeys|
        invariant forall i | 0 <= i < s :: modelKeys[i] <= key
        invariant forall i | e <= i < |modelKeys| :: key < modelKeys[i]
      {
        var mid := (s + e) / 2;
        if modelKeys[mid] <= key { s := mid + 1; } else { e := mid; }
      }
      idx, modelKey := s - 1, modelKeys[s - 1];
    }

    method Predict(key: int, idx: nat) returns (pred: nat)
      requires Valid() && idx < |slopesMap|
      ensures pred == Estimate(slopesTable, slopesMap, plainIntercepts, idx, key, maxY)
    {
      var intercept := intercepts.GetIntercept(plainIntercepts, idx);
      pred := Clamp(Truncate(Raw(slopesTable[slopesMap[idx]], key, intercept)), maxY);
    }

    /** The bound of every stored key overlaps the page of its first position. The
        smallest key always gets the bound `{0, 1}`, and the largest one the last
        position: there the page is right exactly when these are on it. */
    method GetSearchBound(key: int) returns (b: SearchBound)
      requires Valid()
      ensures b.begin < b.end <= maxY + 1 && b.end - b.begin <= 2 * error + 1
      ensures minKey < key < maxKey ==> BoundsKey(b, data, key, recordPerPage)
      ensures key == minKey ==>
        (BoundsKey(b, data, key, recordPerPage) <==> Page(data[0].y, recordPerPage) == 0)
      ensures key == maxKey > minKey ==>
        (BoundsKey(b, data, key, recordPerPage) <==> LastKeyOnLastPage(data, recordPerPage))
      ensures key <= minKey ==> b == SearchBound(0, 1)
      ensures minKey < key && maxKey <= key ==> b == SearchBound(maxY, maxY + 1)
    {
      if key <= minKey {
        b := SearchBound(0, 1);
        FirstBound(data, recordPerPage);
      } else if key >= maxKey {
        b := SearchBound(maxY, maxY + 1);
        LastBound(data, recordPerPage);
      } else {
        b := ModelBound(key);
      }
    }

    method ModelBound(key: int) returns (b: SearchBound)
      requires Valid() && minKey < key < maxKey
      ensures b.begin < b.end <= maxY + 1 && b.end - b.begin <= 2 * error + 1 && BoundsKey(b, data, key, recordPerPage)
    {
      var idx, modelKey := GetSegmentIndex(key);
      var pred := Predict(key - modelKey, idx);
      b := BoundAround(pred, error, maxY);
      FirstsAreTrained(data, key);
      FirstsReached(data, Trained(data, |data|), error - 1, recordPerPage, modelKeys, slopesTable, slopesMap,
                    plainIntercepts, key, idx, maxY);
    }
  }

  lemma FirstsAreTrained(data: seq<Entry>, key: int)
    requires |data| > 0 && Climbing(data)
    ensures forall i {:trigger FirstWith(data, key, i)} | FirstWith(data, key, i) ::
      data[i] in Trained(data, |data|) && data[i].y <= data[|data| - 1].y
  {
    forall i | FirstWith(data, key, i)
      ensures data[i] in Trained(data, |data|) && data[i].y <= data[|data| - 1].y
    {
      FirstIsTrained(data, |data|, i);
    }
  }

  lemma FirstsReached(data: seq<Entry>, t: seq<Entry>, eps: nat, rpp: nat, keys: seq<int>, table: seq<real>,
                      mapping: seq<nat>, intercepts: seq<int>, key: int, idx: nat, maxY: nat)
    requires rpp > 0 && Models(t, eps, rpp, keys, table, mapping, intercepts)
    requires forall i {:trigger FirstWith(data, key, i)} | FirstWith(data, key, i) :: data[i] in t && data[i].y <= maxY
    requires idx < |mapping| && keys[idx] <= key < keys[idx + 1]
    ensures BoundsKey(BoundAround(Estimate(table, mapping, intercepts, idx, key - keys[idx], maxY), eps + 1, maxY),
                      data, key, rpp)
  {
    var b := BoundAround(Estimate(table, mapping, intercepts, idx, key - keys[idx], maxY), eps + 1, maxY);
    forall i | FirstWith(data, key, i) ensures ReachesPage(b, data[i].y, rpp) {
      KeyIsPredicted(t, eps, rpp, keys, table, mapping, intercepts, data[i], idx, maxY);
    }
  }

  /** Position `i` is the first with this key. */
  predicate FirstWith(data: seq<Entry>, key: int, i: int) {
    0 <= i < |data| && data[i].x == key && (i > 0 ==> data[i - 1].x < key)
  }

  /** The bound reaches the page of the first entry with this key. */
  ghost predicate BoundsKey(b: SearchBound, data: seq<Entry>, key: int, rpp: nat)
    requires rpp > 0
  {
    forall i {:trigger FirstWith(data, key, i)} | FirstWith(data, key, i) :: ReachesPage(b, data[i].y, rpp)
  }

  /** The first and the last position of the largest key are on one page. */
  ghost predicate LastKeyOnLastPage(data: seq<Entry>, rpp: nat)
    requires rpp > 0 && |data| > 0
  {
    forall i {:trigger FirstWith(data, data[|data| - 1].x, i)} | FirstWith(data, data[|data| - 1].x, i) ::
      Page(data[i].y, rpp) == Page(data[|data| - 1].y, rpp)
  }

  /** The prediction of the model `idx` for a key. */
  function Estimate(table: seq<real>, mapping: seq<nat>, intercepts: seq<int>, idx: nat, offset: int, maxY: nat): nat
    requires idx < |mapping| && idx < |intercepts| && mapping[idx] < |table|
  {
    Clamp(Truncate(Raw(table[mapping[idx]], offset, intercepts[idx])), maxY)
  }

  lemma KeyIsPredicted(data: seq<Entry>, eps: nat, rpp: nat, keys: seq<int>, table: seq<real>, mapping: seq<nat>,
                       intercepts: seq<int>, e: Entry, idx: nat, maxY: nat)
    requires rpp > 0 && Models(data, eps, rpp, keys, table, mapping, intercepts)
    requires e in data && idx < |mapping| && keys[idx] <= e.x < keys[idx + 1] && e.y <= maxY
    ensures ReachesPage(BoundAround(Estimate(table, mapping, intercepts, idx, e.x - keys[idx], maxY), eps + 1, maxY),
                        e.y, rpp)
  {
    var i :| 0 <= i < |data| && data[i] == e;
    assert Predicted(table[mapping[idx]], keys[idx], intercepts[idx], data[i], eps, rpp);
    PredictedReaches(table[mapping[idx]], keys[idx], intercepts[idx], e, eps, rpp, maxY);
  }

  /** Segmentation and slope merging, without the encoding of the intercepts. */
  method Train(entries: seq<Entry>, epsilon: Word, rpp: Word, cross: seq<bool>, parallelism: nat)
    returns (ok: bool, keys: seq<int>, table: seq<real>, mapping: seq<nat>, intercepts: seq<int>)
    requires GoodInput(entries, epsilon, rpp, cross) && 0 < parallelism <= CHUNKED_FROM
    ensures ok <==> !(|entries| > 1 && EndsAlone(LastRanges(entries, epsilon, rpp, cross, parallelism)))
    ensures ok ==> Models(Trained(entries, |entries|), epsilon, rpp, keys, table, mapping, intercepts)
  {
    var segments, flat;
    ghost var cuts, points;
    segments, flat, cuts, points := Split(entries, epsilon, rpp, cross, parallelism);
    ok := |entries| == 1 || !flat;
    keys, table, mapping, intercepts := [], [], [], [];
    if ok {
      TrainedEnds(entries);
      keys, table, mapping, intercepts := MergeBlocks(segments, cuts, points, Trained(entries, |entries|), epsilon, rpp);
    }
  }

  lemma TrainedEnds(data: seq<Entry>)
    requires |data| > 0
    ensures var t := Trained(data, |data|); |t| > 0 && t[|t| - 1].x == data[|data| - 1].x
  {
  }

  /** The segmentation of the page ranges, and whether the last segment has slope 0. */
  method Split(entries: seq<Entry>, epsilon: Word, rpp: Word, cross: seq<bool>, parallelism: nat)
    returns (segments: seq<CanonicalSegment>, flat: bool, ghost cuts: seq<nat>, ghost points: seq<Range>)
    requires GoodInput(entries, epsilon, rpp, cross) && 0 < parallelism <= CHUNKED_FROM
    ensures Blocks(segments, cuts, points, Trained(entries, |entries|), epsilon, rpp)
    ensures flat <==> EndsAlone(LastRanges(entries, epsilon, rpp, cross, parallelism))
  {
    PageDataUsable(entries, epsilon, rpp, cross);
    ghost var tail;
    segments, cuts, tail := MakeSegmentationPar(epsilon, PageData(entries, epsilon, rpp, cross), parallelism);
    LastRangesProper(entries, epsilon, rpp, cross, parallelism);
    TailAlone(segments, LastRanges(entries, epsilon, rpp, cross, parallelism), tail);
    points := AllPoints(entries, epsilon, rpp, cross);
    LastFlatIsAlone(segments, cuts, points);
    flat := S.ToSegment(segments[|segments| - 1]).slope.dy == 0;
  }

  lemma LastFlatIsAlone(segments: seq<CanonicalSegment>, cuts: seq<nat>, points: seq<Range>)
    requires SegmentsFit(segments, cuts, points) && |segments| > 0 && Rise(points)
    ensures var l := segments[|segments| - 1];
      (l.p1.x < l.p3.x || l.OnePoint()) && (S.ToSegment(l).slope.dy == 0 <==> l.OnePoint())
  {
    var t := |segments| - 1;
    FlatIsAlone(segments[t], points[cuts[t]..cuts[t + 1]]);
  }

  lemma AllPoints(data: seq<Entry>, eps: Word, rpp: Word, cross: seq<bool>) returns (points: seq<Range>)
    requires GoodInput(data, eps, rpp, cross)
    ensures points == Distinct(eps, PageData(data, eps, rpp, cross)) && |points| == |Trained(data, |data|)|
    ensures Increasing(Trained(data, |data|))
    ensures forall i | 0 <= i < |points| ::
      NearPage(points[i], Trained(data, |data|)[i], eps, rpp) && points[i].lo < points[i].hi
    ensures Rise(points)
  {
    PointsRise(data, eps, rpp, cross, |data|);
    var d := PageData(data, eps, rpp, cross);
    points := Points(eps, d, 0, |data|);
    PointsAreDistinct(eps, d, 0, |data|);
    assert d[0..|data|] == d;
    PointsNearPages(data, eps, rpp, cross, |data|);
    TrainedIncreases(data, |data|);
  }

  method MergeBlocks(segments: seq<CanonicalSegment>, ghost cuts: seq<nat>, ghost points: seq<Range>,
                     ghost data: seq<Entry>, ghost eps: nat, ghost rpp: nat)
    returns (keys: seq<int>, table: seq<real>, mapping: seq<nat>, intercepts: seq<int>)
    requires rpp > 0 && Blocks(segments, cuts, points, data, eps, rpp) && data[|data| - 1].x < KEY_MAX
    ensures Models(data, eps, rpp, keys, table, mapping, intercepts)
  {
    var slopes := StoreSlopes(segments, cuts, points);
    keys := seq(|segments| + 1, i requires 0 <= i <= |segments| =>
      if i < |segments| then segments[i].first else KEY_MAX);
    table, mapping, intercepts := MergeCompress(slopes);
    BlocksGiveModels(segments, cuts, points, data, eps, rpp, keys, slopes, table, mapping, intercepts);
  }

  /** The value a model computes for a key before truncation. */
  function Raw(slope: real, offset: int, intercept: int): real {
    slope * offset as real + intercept as real
  }

  lemma PredictedReaches(slope: real, key: int, intercept: int, e: Entry, eps: nat, rpp: nat, maxY: nat)
    requires rpp > 0 && e.y <= maxY && Predicted(slope, key, intercept, e, eps, rpp)
    ensures ReachesPage(BoundAround(Clamp(Truncate(Raw(slope, e.x - key, intercept)), maxY), eps + 1, maxY), e.y, rpp)
  {
    var v: real :| OnTarget(v, slope, key, intercept, e, eps, rpp);
    NearLineReachesPage(Raw(slope, e.x - key, intercept), v, e.y, eps, rpp, maxY);
  }

  lemma FirstBound(data: seq<Entry>, rpp: nat)
    requires rpp > 0 && |data| > 0 && Climbing(data)
    ensures BoundsKey(SearchBound(0, 1), data, data[0].x, rpp) <==> Page(data[0].y, rpp) == 0
  {
    assert Page(0, rpp) == 0;
    assert ReachesPage(SearchBound(0, 1), data[0].y, rpp) <==> Page(data[0].y, rpp) == 0;
    assert FirstWith(data, data[0].x, 0);
    assert forall i | FirstWith(data, data[0].x, i) :: i == 0;
  }

  lemma LastBound(data: seq<Entry>, rpp: nat)
    requires rpp > 0 && |data| > 0
    ensures var l := data[|data| - 1];
      BoundsKey(SearchBound(l.y, l.y + 1), data, l.x, rpp) <==> LastKeyOnLastPage(data, rpp)
  {
    var l := data[|data| - 1];
    var b := SearchBound(l.y, l.y + 1);
    forall i | FirstWith(data, l.x, i)
      ensures ReachesPage(b, data[i].y, rpp) <==> Page(data[i].y, rpp) == Page(l.y, rpp)
    {
      if Page(data[i].y, rpp) == Page(l.y, rpp) { assert b.begin <= l.y < b.end; }
    }
  }

  method StoreSlopes(segments: seq<CanonicalSegment>, ghost cuts: seq<nat>, ghost points: seq<Range>)
    returns (slopes: seq<SlopeRange>)
    requires SegmentsFit(segments, cuts, points)
    ensures |slopes| == |segments| && SlopeCompression.Proper(slopes)
    ensures forall t | 0 <= t < |segments| ::
      (segments[t].OnePoint() || (segments[t].p0.x < segments[t].p2.x && segments[t].p1.x < segments[t].p3.x))
      && slopes[t] == ToSlopeRange(segments[t])
  {
    slopes := [];
    for t := 0 to |segments|
      invariant |slopes| == t && SlopeCompression.Proper(slopes)
      invariant forall k | 0 <= k < t ::
        (segments[k].OnePoint() || (segments[k].p0.x < segments[k].p2.x && segments[k].p1.x < segments[k].p3.x))
        && slopes[k] == ToSlopeRange(segments[k])
    {
      assert Fits(segments[t], points[cuts[t]..cuts[t + 1]]);
      SlopeRangeProper(segments[t], points[cuts[t]..cuts[t + 1]]);
      slopes := slopes + [ToSlopeRange(segments[t])];
    }
  }
}
