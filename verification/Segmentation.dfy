/** Greedy segmentation with the streaming model, and why no other division of
    the keys into consecutive stabbable blocks uses fewer blocks. */
module Segmentation {
  import opened Corridor
  import opened PiecewiseLinearModel

  /** A point handed to the model, in the form of either `add_point` overload. */
  datatype Datum =
    | Exact(x: int, y: Word)
    | Given(x: int, yLow: Word, yHigh: Word, y: Word)

  function RangeOf(epsilon: Word, d: Datum): Range {
    match d
    case Exact(x, y) => ExactRange(epsilon, x, y)
    case Given(x, yLow, yHigh, _) => GivenRange(epsilon, x, yLow, yHigh)
  }

  /** The ranges of the data, keeping only the first point of each run of equal keys. */
  function Distinct(epsilon: Word, data: seq<Datum>): (d: seq<Range>)
    ensures |data| > 0 ==> |d| > 0 && d[|d| - 1].x == data[|data| - 1].x
    ensures |d| <= |data|
  {
    if |data| == 0 then []
    else
      var n := |data| - 1;
      var before := Distinct(epsilon, data[..n]);
      if n > 0 && data[n - 1].x == data[n].x then before else before + [RangeOf(epsilon, data[n])]
  }

  predicate Sorted(data: seq<Datum>) {
    forall i, j | 0 <= i < j < |data| :: data[i].x <= data[j].x
  }

  ghost predicate Proper(run: seq<Range>) {
    forall i | 0 <= i < |run| :: run[i].lo < run[i].hi
  }

  function Ranges(epsilon: Word, data: seq<Datum>): (r: seq<Range>)
    ensures |r| == |data| && forall i | 0 <= i < |r| :: r[i] == RangeOf(epsilon, data[i])
  {
    seq(|data|, i requires 0 <= i < |data| => RangeOf(epsilon, data[i]))
  }

  /** Every range is proper, or every range is a single value. */
  ghost predicate Usable(epsilon: Word, data: seq<Datum>) {
    Proper(Ranges(epsilon, data)) || AllExact(Ranges(epsilon, data))
  }

  lemma {:induction false} DistinctOrdered(epsilon: Word, data: seq<Datum>)
    requires Sorted(data)
    ensures forall i, j | 0 <= i < j < |Distinct(epsilon, data)| ::
      Distinct(epsilon, data)[i].x < Distinct(epsilon, data)[j].x
  {
    if |data| > 0 {
      var n := |data| - 1;
      DistinctOrdered(epsilon, data[..n]);
      var before := Distinct(epsilon, data[..n]);
      if n > 0 && data[n - 1].x != data[n].x {
        assert data[..n][n - 1] == data[n - 1];
        assert before[|before| - 1].x == data[n - 1].x;
      }
    }
  }

  lemma {:induction false} DistinctUsable(epsilon: Word, data: seq<Datum>)
    ensures Proper(Ranges(epsilon, data)) ==> Proper(Distinct(epsilon, data))
    ensures AllExact(Ranges(epsilon, data)) ==> AllExact(Distinct(epsilon, data))
  {
    if |data| > 0 {
      var n := |data| - 1;
      DistinctUsable(epsilon, data[..n]);
      assert Ranges(epsilon, data[..n]) == Ranges(epsilon, data)[..n];
      assert Ranges(epsilon, data)[n] == RangeOf(epsilon, data[n]);
    }
  }

  // ---- divisions into consecutive blocks

  /** `cuts` divides `0..n` into consecutive non-empty blocks. */
  ghost predicate Cuts(cuts: seq<nat>, n: nat) {
    && |cuts| > 0 && cuts[0] == 0 && cuts[|cuts| - 1] == n
    && forall i, j | 0 <= i < j < |cuts| :: cuts[i] < cuts[j]
  }

  /** Some line stabs all points with index from `a` up to, not including, `b`. */
  ghost predicate SpanStabs(points: seq<Range>, a: nat, b: nat) {
    a <= b <= |points| && Stabbable(points[a..b])
  }

  ghost predicate StabbableCuts(cuts: seq<nat>, points: seq<Range>) {
    && Cuts(cuts, |points|)
    && forall i, j {:trigger SpanStabs(points, cuts[i], cuts[j])} | 0 <= i < |cuts| - 1 && j == i + 1 ::
         SpanStabs(points, cuts[i], cuts[j])
  }

  /** No block but the last could have taken one more point. */
  ghost predicate GreedyCuts(cuts: seq<nat>, points: seq<Range>) {
    && StabbableCuts(cuts, points)
    && forall i, j {:trigger SpanStabs(points, cuts[i], cuts[j] + 1)} | 0 <= i < |cuts| - 2 && j == i + 1 ::
         !SpanStabs(points, cuts[i], cuts[j] + 1)
  }

  lemma SliceOfSlice(points: seq<Range>, a: nat, b: nat, c: nat, d: nat)
    requires a <= c <= d <= b <= |points|
    ensures points[a..b][c - a..d - a] == points[c..d]
  {
    var span := points[a..b];
    var part := span[c - a..d - a];
    assert forall k | 0 <= k < d - c :: part[k] == span[c - a + k] == points[c + k];
  }

  lemma SpanNarrows(points: seq<Range>, a: nat, b: nat, c: nat, d: nat)
    requires a <= c <= d <= b && SpanStabs(points, a, b)
    ensures SpanStabs(points, c, d)
  {
    SliceOfSlice(points, a, b, c, d);
    StabbableSubrun(points[a..b], c - a, d - a);
  }

  lemma {:induction false} GreedyIsAhead(g: seq<nat>, c: seq<nat>, points: seq<Range>, i: nat)
    requires GreedyCuts(g, points) && StabbableCuts(c, points)
    requires i < |c| && i < |g| - 1
    ensures c[i] <= g[i]
  {
    if i > 0 {
      GreedyIsAhead(g, c, points, i - 1);
      assert SpanStabs(points, c[i - 1], c[i]);
      assert !SpanStabs(points, g[i - 1], g[i] + 1);
      if g[i] < c[i] {
        SpanNarrows(points, c[i - 1], c[i], g[i - 1], g[i] + 1);
      }
    }
  }

  /** Greedy cuts use the fewest blocks of all divisions into stabbable blocks. */
  lemma GreedyIsFewest(g: seq<nat>, c: seq<nat>, points: seq<Range>)
    requires GreedyCuts(g, points) && StabbableCuts(c, points)
    ensures |g| <= |c|
  {
    if |c| < |g| {
      GreedyIsAhead(g, c, points, |c| - 1);
    }
  }

  /** The greedy division is determined by the points. */
  lemma GreedyIsUnique(g: seq<nat>, c: seq<nat>, points: seq<Range>)
    requires GreedyCuts(g, points) && GreedyCuts(c, points)
    ensures g == c
  {
    GreedyIsFewest(g, c, points);
    GreedyIsFewest(c, g, points);
    forall i | 0 <= i < |g| ensures g[i] == c[i] {
      if i < |g| - 1 {
        GreedyIsAhead(g, c, points, i);
        GreedyIsAhead(c, g, points, i);
      }
    }
  }

  /** The greedy division leaves the last point in a block of its own. */
  ghost predicate EndsAlone(points: seq<Range>) {
    exists g :: GreedyCuts(g, points) && |g| >= 2 && g[|g| - 2] + 1 == |points|
  }

  // ---- the segmentation loop

  /** Each segment fits its block of points. */
  ghost predicate SegmentsFit(segments: seq<CanonicalSegment>, cuts: seq<nat>, points: seq<Range>) {
    && |cuts| == |segments| + 1
    && Cuts(cuts, |points|)
    && forall i, j {:trigger segments[i], cuts[j]} | 0 <= i < |segments| && j == i + 1 ::
         Fits(segments[i], points[cuts[i]..cuts[j]])
  }

  /** The state of the loop: all segments but the open one are closed, none of
      them could have taken the next point. */
  ghost predicate Progress(points: seq<Range>, cuts: seq<nat>, segments: seq<CanonicalSegment>) {
    && |cuts| == |segments| + 1 && cuts[0] == 0 && cuts[|cuts| - 1] < |points|
    && (forall i, j | 0 <= i < j < |cuts| :: cuts[i] < cuts[j])
    && forall i, j {:trigger Closed(points, cuts[i], cuts[j], segments[i])}
         | 0 <= i < |segments| && j == i + 1 :: Closed(points, cuts[i], cuts[j], segments[i])
  }

  ghost predicate Closed(points: seq<Range>, a: nat, b: nat, segment: CanonicalSegment) {
    && a < b < |points| && SpanStabs(points, a, b) && !SpanStabs(points, a, b + 1)
    && Fits(segment, points[a..b])
  }

  lemma ProgressExtend(points: seq<Range>, r: Range, cuts: seq<nat>, segments: seq<CanonicalSegment>)
    requires Progress(points, cuts, segments)
    ensures Progress(points + [r], cuts, segments)
  {
    forall i, j | 0 <= i < |segments| && j == i + 1 ensures Closed(points + [r], cuts[i], cuts[j], segments[i]) {
      assert Closed(points, cuts[i], cuts[j], segments[i]);
      assert (points + [r])[cuts[i]..cuts[j]] == points[cuts[i]..cuts[j]];
      assert (points + [r])[cuts[i]..cuts[j] + 1] == points[cuts[i]..cuts[j] + 1];
    }
  }

  lemma ProgressClose(points: seq<Range>, r: Range, cuts: seq<nat>, segments: seq<CanonicalSegment>,
                      segment: CanonicalSegment)
    requires Progress(points, cuts, segments)
    requires Stabbable(points[cuts[|cuts| - 1]..]) && Fits(segment, points[cuts[|cuts| - 1]..])
    requires !Stabbable(points[cuts[|cuts| - 1]..] + [r])
    ensures Progress(points + [r], cuts + [|points|], segments + [segment])
  {
    ProgressExtend(points, r, cuts, segments);
    var all, start := points + [r], cuts[|cuts| - 1];
    assert all[start..|points|] == points[start..];
    assert all[start..|points| + 1] == points[start..] + [r];
    var c, s := cuts + [|points|], segments + [segment];
    forall i, j | 0 <= i < |s| && j == i + 1 ensures Closed(all, c[i], c[j], s[i]) {
      if i < |segments| {
        assert Closed(all, cuts[i], cuts[j], segments[i]);
      }
    }
  }

  lemma ProgressCuts(points: seq<Range>, cuts: seq<nat>, segments: seq<CanonicalSegment>)
    requires Progress(points, cuts, segments) && Stabbable(points[cuts[|cuts| - 1]..])
    ensures GreedyCuts(cuts + [|points|], points)
  {
    var c, start := cuts + [|points|], cuts[|cuts| - 1];
    assert points[start..|points|] == points[start..];
    assert SpanStabs(points, start, |points|);
    forall i, j | 0 <= i < |segments| && j == i + 1
      ensures SpanStabs(points, c[i], c[j]) && !SpanStabs(points, c[i], c[j] + 1)
    {
      assert Closed(points, cuts[i], cuts[j], segments[i]);
    }
  }

  lemma ProgressFits(points: seq<Range>, cuts: seq<nat>, segments: seq<CanonicalSegment>, segment: CanonicalSegment)
    requires Progress(points, cuts, segments) && Fits(segment, points[cuts[|cuts| - 1]..])
    ensures SegmentsFit(segments + [segment], cuts + [|points|], points)
  {
    var c, s, start := cuts + [|points|], segments + [segment], cuts[|cuts| - 1];
    assert points[start..|points|] == points[start..];
    forall i, j | 0 <= i < |s| && j == i + 1 ensures Fits(s[i], points[c[i]..c[j]]) {
      if i < |segments| {
        assert Closed(points, cuts[i], cuts[j], segments[i]);
      }
    }
  }

  method Add(opt: OptimalPiecewiseLinearModel, d: Datum) returns (result: AddResult)
    requires opt.Valid() && RangeOf(opt.epsilon, d).lo <= RangeOf(opt.epsilon, d).hi
    requires AllExact(opt.run) || RangeOf(opt.epsilon, d).lo < RangeOf(opt.epsilon, d).hi
    modifies opt
    ensures opt.Valid()
    ensures opt.Outcome(RangeOf(opt.epsilon, d), result, old(opt.run), old(opt.pointsInHull), old(opt.lastX))
  {
    match d
    case Exact(x, y) => result := opt.AddPoint(x, y);
    case Given(x, yLow, yHigh, y) => result := opt.AddPointRange(x, yLow, yHigh, y);
  }

  /** The open run of the model is what is left of the points after the last cut. */
  ghost predicate Running(opt: OptimalPiecewiseLinearModel, points: seq<Range>, cuts: seq<nat>,
                          segments: seq<CanonicalSegment>)
    reads opt
  {
    && opt.Valid() && 0 < opt.pointsInHull == |opt.run| && Progress(points, cuts, segments)
    && opt.lastX == points[|points| - 1].x
    && opt.run == points[cuts[|cuts| - 1]..] && Stabbable(opt.run)
  }

  /** One turn of the loop for a new key: close the run first if it cannot take the point. */
  method Advance(opt: OptimalPiecewiseLinearModel, p: Datum, segments: seq<CanonicalSegment>,
                 ghost points: seq<Range>, ghost cuts: seq<nat>)
    returns (after: seq<CanonicalSegment>, ghost cutsAfter: seq<nat>)
    requires Running(opt, points, cuts, segments) && points[|points| - 1].x < p.x
    requires RangeOf(opt.epsilon, p).lo <= RangeOf(opt.epsilon, p).hi
    requires AllExact(points) || RangeOf(opt.epsilon, p).lo < RangeOf(opt.epsilon, p).hi
    modifies opt
    ensures Running(opt, points + [RangeOf(opt.epsilon, p)], cutsAfter, after)
  {
    ghost var r, start := RangeOf(opt.epsilon, p), cuts[|cuts| - 1];
    var added := Add(opt, p);
    if added == Rejected {
      var segment := opt.GetSegment();
      after := segments + [segment];
      ProgressClose(points, r, cuts, segments, segment);
      cutsAfter := cuts + [|points|];
      added := Add(opt, p);
      assert (points + [r])[|points|..] == [r];
    } else {
      after, cutsAfter := segments, cuts;
      ProgressExtend(points, r, cuts, segments);
      assert (points + [r])[start..] == points[start..] + [r];
    }
  }

  method Start(epsilon: Word, p: Datum) returns (opt: OptimalPiecewiseLinearModel)
    requires RangeOf(epsilon, p).lo <= RangeOf(epsilon, p).hi
    ensures fresh(opt) && opt.epsilon == epsilon && Running(opt, [RangeOf(epsilon, p)], [0], [])
  {
    opt := new OptimalPiecewiseLinearModel(epsilon);
    var added := Add(opt, p);
    assert opt.run == [RangeOf(epsilon, p)] == [RangeOf(epsilon, p)][0..];
  }

  method Finish(opt: OptimalPiecewiseLinearModel, segments: seq<CanonicalSegment>,
                ghost points: seq<Range>, ghost cuts: seq<nat>)
    returns (all: seq<CanonicalSegment>, ghost cutsAll: seq<nat>)
    requires Running(opt, points, cuts, segments)
    ensures GreedyCuts(cutsAll, points) && SegmentsFit(all, cutsAll, points)
  {
    var segment := opt.GetSegment();
    ProgressCuts(points, cuts, segments);
    ProgressFits(points, cuts, segments, segment);
    all := segments + [segment];
    cutsAll := cuts + [|points|];
  }

  /** The loop body: a repeated key is skipped, a new one is added. */
  method Feed(opt: OptimalPiecewiseLinearModel, data: seq<Datum>, i: nat, p: Datum,
              segments: seq<CanonicalSegment>, ghost cuts: seq<nat>)
    returns (q: Datum, after: seq<CanonicalSegment>, ghost cutsAfter: seq<nat>)
    requires Sorted(data) && Usable(opt.epsilon, data) && 0 < i < |data| && p.x == data[i - 1].x
    requires Running(opt, Distinct(opt.epsilon, data[..i]), cuts, segments)
    modifies opt
    ensures q.x == data[i].x
    ensures Running(opt, Distinct(opt.epsilon, data[..i + 1]), cutsAfter, after)
  {
    ghost var points := Distinct(opt.epsilon, data[..i]);
    DistinctNext(opt.epsilon, data, i);
    if data[i].x == p.x {
      return p, segments, cuts;
    }
    q := data[i];
    UsableNext(opt.epsilon, data, i, points);
    after, cutsAfter := Advance(opt, q, segments, points, cuts);
  }

  /** One segment per run the model accepts. The cuts are greedy, so that no
      division into blocks that a line stabs has fewer segments. */
  method MakeSegmentation(epsilon: Word, data: seq<Datum>)
    returns (segments: seq<CanonicalSegment>, count: nat, ghost cuts: seq<nat>)
    requires Sorted(data) && Usable(epsilon, data)
    ensures count == |segments|
    ensures GreedyCuts(cuts, Distinct(epsilon, data))
    ensures SegmentsFit(segments, cuts, Distinct(epsilon, data))
    ensures forall c :: StabbableCuts(c, Distinct(epsilon, data)) ==> count <= |c| - 1
  {
    segments, count, cuts := [], 0, [0];
    if |data| == 0 {
      return;
    }
    FirstIsUsable(epsilon, data);
    var p := data[0];
    var opt := Start(epsilon, p);
    for i := 1 to |data|
      invariant p.x == data[i - 1].x
      invariant fresh(opt) && opt.epsilon == epsilon
      invariant Running(opt, Distinct(epsilon, data[..i]), cuts, segments)
    {
      p, segments, cuts := Feed(opt, data, i, p, segments, cuts);
    }
    assert data[..|data|] == data;
    segments, cuts := Finish(opt, segments, Distinct(epsilon, data), cuts);
    count := |segments|;
    forall c | StabbableCuts(c, Distinct(epsilon, data)) ensures count <= |c| - 1 {
      GreedyIsFewest(cuts, c, Distinct(epsilon, data));
    }
  }

  lemma FirstIsUsable(epsilon: Word, data: seq<Datum>)
    requires |data| > 0 && Usable(epsilon, data)
    ensures RangeOf(epsilon, data[0]).lo <= RangeOf(epsilon, data[0]).hi
    ensures Distinct(epsilon, data[..1]) == [RangeOf(epsilon, data[0])]
  {
    assert Ranges(epsilon, data)[0] == RangeOf(epsilon, data[0]);
    assert data[..1] == [data[0]] && data[..1][..0] == [];
  }

  lemma DistinctNext(epsilon: Word, data: seq<Datum>, i: nat)
    requires 0 < i < |data|
    ensures Distinct(epsilon, data[..i + 1])
         == if data[i].x == data[i - 1].x then Distinct(epsilon, data[..i])
            else Distinct(epsilon, data[..i]) + [RangeOf(epsilon, data[i])]
  {
    assert data[..i + 1][..i] == data[..i];
  }

  lemma UsableNext(epsilon: Word, data: seq<Datum>, i: nat, points: seq<Range>)
    requires Usable(epsilon, data) && i < |data| && points == Distinct(epsilon, data[..i])
    ensures RangeOf(epsilon, data[i]).lo <= RangeOf(epsilon, data[i]).hi
    ensures AllExact(points) || RangeOf(epsilon, data[i]).lo < RangeOf(epsilon, data[i]).hi
  {
    DistinctUsable(epsilon, data[..i]);
    assert Ranges(epsilon, data)[i] == RangeOf(epsilon, data[i]);
    assert Ranges(epsilon, data[..i]) == Ranges(epsilon, data)[..i];
  }
}
