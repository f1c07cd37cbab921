/** Building a radix spline in one pass: the greedy corridor and the radix table
    advance together. The plain and the disk-oriented builder differ only in the
    bounds they give a key. */
module RadixSplineBuilder {
  import opened Geometry
  import opened PiecewiseLinearModel
  import opened Pages
  import opened PgmLevel
  import opened SplineCorridor
  import opened RadixTable
  import opened RadixSpline

  /** `done` are the samples up to the last spline point, `window` those since. */
  ghost predicate Tracking(spline: seq<Point>, done: seq<Sample>, window: seq<Sample>, distinct: nat,
                           prev: Point, upper: Point, lower: Point) {
    && distinct == |done| + |window|
    && (distinct == 0 ==> spline == [])
    && (distinct > 0 ==> Tracked(spline, done))
    && (distinct == 1 ==> window == [] && prev == At(done[0]))
    && (distinct > 1 ==> OpenCorridor(spline[|spline| - 1], window, prev, upper, lower))
  }

  lemma TrackSecond(spline: seq<Point>, done: seq<Sample>, window: seq<Sample>, prev: Point, upper: Point, lower: Point,
                    q: Sample)
    requires Tracking(spline, done, window, 1, prev, upper, lower)
    requires Bounded(q) && prev.x < q.x && prev.y <= q.y
    ensures Tracking(spline, done, [q], 2, At(q), Top(q), Bottom(q))
  {
    FreshCorridor(prev, q);
  }

  /** The new key cuts the corridor: its predecessor becomes a spline point. */
  lemma TrackCut(spline: seq<Point>, done: seq<Sample>, window: seq<Sample>, distinct: nat,
                 prev: Point, upper: Point, lower: Point, q: Sample)
    requires distinct > 1 && Tracking(spline, done, window, distinct, prev, upper, lower)
    requires Bounded(q) && prev.x < q.x && prev.y <= q.y
    ensures spline[|spline| - 1].x < prev.x
    ensures Tracking(spline + [prev], done + window, [q], distinct + 1, At(q), Top(q), Bottom(q))
  {
    CloseWindow(spline, done, window, prev, upper, lower);
    CloseCorridor(spline[|spline| - 1], window, prev, upper, lower, |window| - 1);
    FreshCorridor(prev, q);
  }

  /** The new key stays inside the corridor and narrows it. */
  lemma TrackInside(spline: seq<Point>, done: seq<Sample>, window: seq<Sample>, distinct: nat,
                    prev: Point, upper: Point, lower: Point, q: Sample)
    requires distinct > 1 && Tracking(spline, done, window, distinct, prev, upper, lower)
    requires Bounded(q) && prev.x < q.x && prev.y <= q.y
    requires !CutsCorridor(spline[|spline| - 1], upper, lower, At(q))
    ensures var last := spline[|spline| - 1];
      Tracking(spline, done, window + [q], distinct + 1, At(q), NarrowUpper(last, upper, q), NarrowLower(last, lower, q))
  {
    ExtendCorridor(spline[|spline| - 1], window, prev, upper, lower, q);
  }

  class Builder {
    const minKey: int
    const maxKey: int
    const maxY: Word
    const maxError: Word
    const numShiftBits: nat
    var radixTable: seq<nat>
    var splinePoints: seq<Point>
    var currNumKeys: nat
    var currNumDistinctKeys: nat
    var prevKey: int
    var prevPosition: nat
    var prevPrefix: nat
    var upperLimit: Point
    var lowerLimit: Point
    var prevPoint: Point
    ghost var done: seq<Sample>
    ghost var window: seq<Sample>

    ghost function Samples(): seq<Sample>
      reads this
    {
      done + window
    }

    ghost predicate Valid()
      reads this
    {
      && minKey < maxKey && maxY + maxError < SIZE_MAX
      && minKey <= prevKey <= maxKey && prevPosition <= maxY
      && |radixTable| == Prefix(maxKey, minKey, numShiftBits) + 2
      && (currNumKeys == 0 <==> currNumDistinctKeys == 0)
      && (currNumKeys > 0 ==> prevPoint == Point(prevKey, prevPosition))
      && Tracking(splinePoints, done, window, currNumDistinctKeys, prevPoint, upperLimit, lowerLimit)
      && (currNumKeys > 0 ==> splinePoints[0].x == minKey)
      && PartlyFilled(radixTable, splinePoints, minKey, numShiftBits, prevPrefix)
    }

    /** What the callers must respect: the first key is the smallest, keys increase
        and positions do not decrease, apart from exact repetitions. */
    predicate Acceptable(key: int, position: int)
      reads this
    {
      && minKey <= key <= maxKey && 0 <= position <= maxY
      && if currNumKeys == 0 then key == minKey
         else (key == prevKey && position == prevPosition) || (key > prevKey && position >= prevPosition)
    }

    constructor (minKey: int, maxKey: int, maxY: Word, numRadixBits: nat, maxError: Word)
      requires minKey < maxKey && maxY + maxError < SIZE_MAX
      ensures Valid() && Samples() == [] && currNumKeys == 0
      ensures this.minKey == minKey && this.maxKey == maxKey && this.maxY == maxY && this.maxError == maxError
    {
      this.minKey, this.maxKey, this.maxY, this.maxError := minKey, maxKey, maxY, maxError;
      numShiftBits := GetNumShiftBits(maxKey - minKey, numRadixBits);
      currNumKeys, currNumDistinctKeys := 0, 0;
      prevKey, prevPosition, prevPrefix := minKey, 0, 0;
      splinePoints, done, window := [], [], [];
      PrefixMono(minKey, maxKey, minKey, GetNumShiftBits(maxKey - minKey, numRadixBits));
      var maxPrefix := Prefix(maxKey, minKey, GetNumShiftBits(maxKey - minKey, numRadixBits));
      radixTable := seq(maxPrefix + 2, i => 0);
    }

    /** Appends a spline point and fills the radix table up to its prefix. */
    method AddKeyToSpline(p: Point)
      requires minKey <= p.x <= maxKey && |radixTable| == Prefix(maxKey, minKey, numShiftBits) + 2
      requires PartlyFilled(radixTable, splinePoints, minKey, numShiftBits, prevPrefix)
      requires |splinePoints| > 0 ==> splinePoints[|splinePoints| - 1].x < p.x
      modifies this`splinePoints, this`radixTable, this`prevPrefix
      ensures splinePoints == old(splinePoints) + [p] && |radixTable| == old(|radixTable|)
      ensures PartlyFilled(radixTable, splinePoints, minKey, numShiftBits, prevPrefix)
    {
      ghost var spline := splinePoints;
      splinePoints := splinePoints + [p];
      PrefixMono(p.x, maxKey, minKey, numShiftBits);
      var currPrefix := Prefix(p.x, minKey, numShiftBits);
      if |spline| > 0 { PrefixMono(spline[|spline| - 1].x, p.x, minKey, numShiftBits); }
      var table := radixTable;
      if currPrefix != prevPrefix {
        table := Fill(radixTable, prevPrefix + 1, currPrefix + 1, |splinePoints| - 1);
      }
      AddPoint(radixTable, table, spline, p, minKey, numShiftBits, prevPrefix, currPrefix);
      radixTable, prevPrefix := table, currPrefix;
    }

    /** One step of the corridor for a new point of the key distribution. */
    method AddSample(q: Sample)
      requires Valid() && Bounded(q) && Acceptable(q.x, q.y) && !(currNumKeys > 0 && q.x == prevKey)
      modifies this
      ensures Valid() && currNumKeys == old(currNumKeys) + 1 && prevKey == q.x && prevPosition == q.y
      ensures Samples() == old(Samples()) + [q]
    {
      if currNumKeys == 0 { AddFirst(q); } else { AddNext(q); }
    }

    /** The first key is a spline point at once. */
    method AddFirst(q: Sample)
      requires Valid() && Bounded(q) && Acceptable(q.x, q.y) && currNumKeys == 0
      modifies this
      ensures Valid() && currNumKeys == 1 && prevKey == q.x && prevPosition == q.y && Samples() == [q]
    {
      currNumKeys, currNumDistinctKeys := currNumKeys + 1, currNumDistinctKeys + 1;
      AddKeyToSpline(At(q));
      done := [q];
      prevPoint, prevKey, prevPosition := At(q), q.x, q.y;
    }

    method AddNext(q: Sample)
      requires Valid() && Bounded(q) && Acceptable(q.x, q.y) && currNumKeys > 0 && q.x != prevKey
      modifies this
      ensures Valid() && currNumKeys == old(currNumKeys) + 1 && prevKey == q.x && prevPosition == q.y
      ensures Samples() == old(Samples()) + [q]
    {
      currNumKeys, currNumDistinctKeys := currNumKeys + 1, currNumDistinctKeys + 1;
      Extend(q);
      prevPoint, prevKey, prevPosition := At(q), q.x, q.y;
    }

    /** The second key opens the corridor. After that, either the new key leaves
        the corridor and its predecessor becomes a spline point, or it stays inside and narrows the corridor on both sides. */
    method Extend(q: Sample)
      requires currNumDistinctKeys >= 2 && minKey <= prevPoint.x <= maxKey
      requires Tracking(splinePoints, done, window, currNumDistinctKeys - 1, prevPoint, upperLimit, lowerLimit)
      requires Bounded(q) && prevPoint.x < q.x && prevPoint.y <= q.y
      requires |radixTable| == Prefix(maxKey, minKey, numShiftBits) + 2
      requires PartlyFilled(radixTable, splinePoints, minKey, numShiftBits, prevPrefix)
      modifies this`splinePoints, this`radixTable, this`prevPrefix, this`upperLimit, this`lowerLimit, this`done, this`window
      ensures old(splinePoints) <= splinePoints && |radixTable| == old(|radixTable|)
      ensures PartlyFilled(radixTable, splinePoints, minKey, numShiftBits, prevPrefix)
      ensures Tracking(splinePoints, done, window, currNumDistinctKeys, At(q), upperLimit, lowerLimit)
      ensures done + window == old(done + window) + [q]
    {
      var last := splinePoints[|splinePoints| - 1];
      if currNumDistinctKeys == 2 {
        TrackSecond(splinePoints, done, window, prevPoint, upperLimit, lowerLimit, q);
        upperLimit, lowerLimit, window := Top(q), Bottom(q), [q];
      } else if CutsCorridor(last, upperLimit, lowerLimit, At(q)) {
        TrackCut(splinePoints, done, window, currNumDistinctKeys - 1, prevPoint, upperLimit, lowerLimit, q);
        AddKeyToSpline(prevPoint);
        upperLimit, lowerLimit := Top(q), Bottom(q);
        done, window := done + window, [q];
      } else {
        TrackInside(splinePoints, done, window, currNumDistinctKeys - 1, prevPoint, upperLimit, lowerLimit, q);
        upperLimit, lowerLimit := NarrowUpper(last, upperLimit, q), NarrowLower(last, lowerLimit, q);
        window := window + [q];
      }
    }

    /** Adds a key with its bounds; an exact repetition changes nothing but the count. */
    method Add(q: Sample)
      requires Valid() && Bounded(q) && Acceptable(q.x, q.y)
      modifies this
      ensures Valid() && currNumKeys == old(currNumKeys) + 1 && prevKey == q.x && prevPosition == q.y
      ensures Samples() == if old(currNumKeys > 0 && prevKey == q.x) then old(Samples()) else old(Samples()) + [q]
    {
      if currNumKeys > 0 && q.x == prevKey && q.y == prevPosition {
        currNumKeys := currNumKeys + 1;
      } else {
        AddSample(q);
      }
    }

    /** Makes the last key a spline point and completes the radix table: the result
        tracks every sample. */
    method Finalize() returns (rs: Spline)
      requires Valid() && currNumKeys > 0 && prevKey == maxKey
      modifies this
      ensures WellFormed(rs) && Tracked(rs.splinePoints, old(Samples()))
      ensures rs.minKey == minKey && rs.maxKey == maxKey && rs.maxY == maxY && rs.maxError == maxError
    {
      if splinePoints[|splinePoints| - 1].x != prevKey {
        CloseWindow(splinePoints, done, window, prevPoint, upperLimit, lowerLimit);
        AddKeyToSpline(Point(prevKey, prevPosition));
      }
      prevPrefix := prevPrefix + 1;
      var table := Fill(radixTable, prevPrefix, |radixTable|, |splinePoints|);
      Finish(radixTable, table, splinePoints, minKey, numShiftBits, prevPrefix - 1);
      radixTable := table;
      rs := Spline(minKey, maxKey, maxY, numShiftBits, maxError, radixTable, splinePoints);
    }
  }
  // ---- whole runs over stored data

  /** Keys increase and positions do not decrease, apart from repeated entries;
      there are at least two keys. */
  ghost predicate GoodRun(qs: seq<Sample>, e: Word) {
    && |qs| > 0 && qs[0].x < qs[|qs| - 1].x && 0 <= qs[|qs| - 1].y && qs[|qs| - 1].y + e < SIZE_MAX
    && (forall i {:trigger Bounded(qs[i])} | 0 <= i < |qs| :: Bounded(qs[i]) && 0 <= qs[i].y)
    && forall i, j | 0 <= i < j < |qs| :: qs[i] == qs[j] || (qs[i].x < qs[j].x && qs[i].y <= qs[j].y)
  }

  /** The loop over the stored data, shared by both indexes. */
  method BuildFrom(qs: seq<Sample>, numRadixBits: nat, e: Word) returns (rs: Spline)
    requires GoodRun(qs, e)
    ensures WellFormed(rs) && rs.minKey == qs[0].x && rs.maxKey == qs[|qs| - 1].x
    ensures rs.maxY == qs[|qs| - 1].y && rs.maxError == e
    ensures forall i {:trigger Tracks(rs.splinePoints, qs[i])} | 0 <= i < |qs| :: Tracks(rs.splinePoints, qs[i])
  {
    var b := new Builder(qs[0].x, qs[|qs| - 1].x, qs[|qs| - 1].y, numRadixBits, e);
    for n := 0 to |qs|
      invariant fresh(b) && b.Valid() && b.currNumKeys == n
      invariant n > 0 ==> b.prevKey == qs[n - 1].x && b.prevPosition == qs[n - 1].y
      invariant forall i | 0 <= i < n :: qs[i] in b.Samples()
    {
      assert Bounded(qs[n]);
      b.Add(qs[n]);
    }
    ghost var samples := b.Samples();
    rs := b.Finalize();
    AllTracked(rs.splinePoints, samples, qs);
  }

  lemma AllTracked(spline: seq<Point>, samples: seq<Sample>, qs: seq<Sample>)
    requires Tracked(spline, samples) && forall i | 0 <= i < |qs| :: qs[i] in samples
    ensures forall i {:trigger Tracks(spline, qs[i])} | 0 <= i < |qs| :: Tracks(spline, qs[i])
  {
    forall i | 0 <= i < |qs| ensures Tracks(spline, qs[i]) {
      var k :| 0 <= k < |samples| && samples[k] == qs[i];
    }
  }

  /** Stored entries, apart from exact repetitions, with two different keys at least. */
  ghost predicate GoodData(data: seq<Entry>, e: Word) {
    && |data| > 0 && data[0].x < data[|data| - 1].x && data[|data| - 1].y + e < SIZE_MAX
    && forall i, j | 0 <= i < j < |data| :: data[i] == data[j] || (data[i].x < data[j].x && data[i].y <= data[j].y)
  }

  /** The plain index: every stored key's bound contains its position, the first
      key's exactly if its position is within the error. */
  method BuildPlain(data: seq<Entry>, numRadixBits: nat, e: Word) returns (rs: Spline)
    requires GoodData(data, e)
    ensures WellFormed(rs) && rs.maxError == e && rs.maxY == data[|data| - 1].y
    ensures rs.minKey == data[0].x && rs.maxKey == data[|data| - 1].x
    ensures forall i {:trigger data[i]} | 0 <= i < |data| ::
              (Contains(BoundOf(rs, data[i].x), data[i].y) <==> data[i].x > data[0].x || data[i].y <= e)
  {
    var qs := seq(|data|, i requires 0 <= i < |data| => PlainSample(data[i].x, data[i].y, e));
    rs := BuildFrom(qs, numRadixBits, e);
    forall i | 0 <= i < |data|
      ensures Contains(BoundOf(rs, data[i].x), data[i].y) <==> data[i].x > data[0].x || data[i].y <= e
    {
      assert Tracks(rs.splinePoints, qs[i]);
      PlainBoundContains(rs, data[i].x, data[i].y);
    }
  }

  /** How far apart keys that may cross pages are; no gap is defined when the
      error is so small that no key may cross. */
  predicate CrossGapDefined(eps: Word, rpp: Word, maxY: Word) {
    rpp > 0 && (2 * eps * (maxY + 1) / rpp > 0 || maxY == 0)
  }

  function CrossGap(eps: Word, rpp: Word, maxY: Word): (gap: nat)
    requires CrossGapDefined(eps, rpp, maxY)
    ensures gap > 0
  {
    var crossNum := 2 * eps * (maxY + 1) / rpp;
    if (maxY + 1) / 2 > crossNum then
      DivisionBounds((maxY + 1) / 2, crossNum, 1);
      (maxY + 1) / 2 / crossNum
    else 1
  }

  function PageSamples(data: seq<Entry>, e: Word, rpp: Word, gap: nat): (qs: seq<Sample>)
    requires GoodData(data, e) && rpp > 0 && data[|data| - 1].y + rpp <= SIZE_MAX && gap > 0
    ensures |qs| == |data|
    ensures forall i | 0 <= i < |qs| ::
      data[i].y + rpp <= SIZE_MAX && qs[i] == PageSample(data[i].x, data[i].y, e, rpp, data[i].y % gap == 0)
  {
    seq(|data|, i requires 0 <= i < |data| => PageSample(data[i].x, data[i].y, e, rpp, data[i].y % gap == 0))
  }

  lemma SamplesAreGood(data: seq<Entry>, e: Word, rpp: Word, gap: nat)
    requires GoodData(data, e) && rpp > 0 && data[|data| - 1].y + rpp <= SIZE_MAX && gap > 0
    ensures GoodRun(PageSamples(data, e, rpp, gap), e)
    ensures forall i | 0 <= i < |data| :: PageSamples(data, e, rpp, gap)[i].x == data[i].x
                                       && PageSamples(data, e, rpp, gap)[i].y == data[i].y
  {
    var qs := PageSamples(data, e, rpp, gap);
    forall i | 0 <= i < |qs| ensures Bounded(qs[i]) && qs[i].x == data[i].x && qs[i].y == data[i].y {
    }
    forall i, j | 0 <= i < j < |qs| ensures qs[i] == qs[j] || (qs[i].x < qs[j].x && qs[i].y <= qs[j].y) {
      assert data[i] == data[j] || (data[i].x < data[j].x && data[i].y <= data[j].y);
    }
  }

  /** The disk-oriented index: the pages spanned by every stored key's bound include
      the page of its position, the first key's exactly if that page starts within the error. */
  method BuildOnPages(data: seq<Entry>, rpp: Word, numRadixBits: nat, e: Word) returns (rs: Spline)
    requires GoodData(data, e) && data[|data| - 1].y + rpp <= SIZE_MAX
    requires CrossGapDefined(e, rpp, data[|data| - 1].y)
    ensures WellFormed(rs) && rs.maxError == e && rs.maxY == data[|data| - 1].y
    ensures rs.minKey == data[0].x && rs.maxKey == data[|data| - 1].x
    ensures forall i {:trigger data[i]} | 0 <= i < |data| ::
              (ReachesPage(BoundOf(rs, data[i].x), data[i].y, rpp)
               <==> data[i].x > data[0].x || Page(data[i].y, rpp) * rpp <= e)
  {
    var gap := CrossGap(e, rpp, data[|data| - 1].y);
    var qs := PageSamples(data, e, rpp, gap);
    SamplesAreGood(data, e, rpp, gap);
    rs := BuildFrom(qs, numRadixBits, e);
    forall i | 0 <= i < |data|
      ensures ReachesPage(BoundOf(rs, data[i].x), data[i].y, rpp)
         <==> data[i].x > data[0].x || Page(data[i].y, rpp) * rpp <= e
    {
      assert Tracks(rs.splinePoints, qs[i]);
      PageBoundReaches(rs, data[i].x, data[i].y, rpp, data[i].y % gap == 0);
    }
  }
}
