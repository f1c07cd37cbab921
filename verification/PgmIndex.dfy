/** The recursive PGM index: levels of segments in one flat vector, built bottom
    up until one segment is left and searched top down. */
module PgmIndex {
  import opened Geometry
  import opened Corridor
  import opened PiecewiseLinearModel
  import opened Segmentation
  import opened ParallelSegmentation
  import opened PgmSegment
  import opened PgmLevel

  // ---- counting the segments of a level

  /** Any `width` or fewer consecutive points can be stabbed. */
  ghost predicate ShortSpansStab(points: seq<Range>, width: nat) {
    forall a: nat, b: nat {:trigger SpanStabs(points, a, b)}
      | a <= b <= |points| && b <= a + width :: SpanStabs(points, a, b)
  }

  lemma PairsStabbable(points: seq<Range>)
    requires Ordered(points)
    ensures ShortSpansStab(points, 2)
  {
    forall a: nat, b: nat | a <= b <= |points| && b <= a + 2 ensures SpanStabs(points, a, b) {
      var span := points[a..b];
      if b == a {
        assert RealLineStabs(0.0, 0.0, span);
      } else if b == a + 1 {
        assert span == [points[a]];
        OneRangeStabbable(points[a]);
      } else {
        assert span == [points[a], points[a + 1]];
        TwoRangesHull(points[a], points[a + 1]);
      }
    }
  }

  /** With positions equal to indices and an epsilon of at least one, three
      consecutive points lie within reach of a horizontal line. */
  lemma TriplesStabbable(epsilon: Word, entries: seq<Entry>)
    requires epsilon > 0 && |entries| < SIZE_MAX
    requires forall j | 0 <= j < |entries| :: entries[j].y == j
    ensures ShortSpansStab(CoreRanges(epsilon, entries), 3)
  {
    var points := CoreRanges(epsilon, entries);
    forall a: nat, b: nat | a <= b <= |points| && b <= a + 3 ensures SpanStabs(points, a, b) {
      var span := points[a..b];
      forall i | 0 <= i < |span| ensures Passes(0.0, (a + 1) as real, span[i]) {
        assert span[i] == points[a + i];
      }
      assert RealLineStabs(0.0, (a + 1) as real, span);
    }
  }

  lemma {:induction false} CutsSpread(cuts: seq<nat>, n: nat, width: nat, t: nat)
    requires Cuts(cuts, n) && t < |cuts| - 1
    requires WideCuts(cuts, width)
    ensures width * t <= cuts[t]
  {
    if t > 0 {
      CutsSpread(cuts, n, width, t - 1);
      assert cuts[t - 1] + width <= cuts[t];
      assert width * t == width * (t - 1) + width;
    }
  }

  /** Every block but the last has at least `width` points. */
  ghost predicate WideCuts(cuts: seq<nat>, width: nat) {
    forall i, j {:trigger cuts[i], cuts[j]} | 0 <= i < |cuts| - 2 && j == i + 1 :: cuts[i] + width <= cuts[j]
  }

  lemma GreedyBlocksAreWide(cuts: seq<nat>, points: seq<Range>, width: nat)
    requires GreedyCuts(cuts, points) && ShortSpansStab(points, width)
    ensures WideCuts(cuts, width)
  {
    forall i, j | 0 <= i < |cuts| - 2 && j == i + 1 ensures cuts[i] + width <= cuts[j] {
      assert !SpanStabs(points, cuts[i], cuts[j] + 1);
      assert cuts[j] < cuts[|cuts| - 1];
    }
  }

  // ---- building one level

  /** The number of segments of a level, without the sentinel. */
  function Count(level: seq<Segment>): nat
    requires |level| > 0
  {
    |level| - 1
  }

  lemma SegmentCovers(segments: seq<CanonicalSegment>, cuts: seq<nat>, points: seq<Range>, t: nat)
    requires SegmentsFit(segments, cuts, points) && Rising(points) && t < |segments|
    ensures segments[t].p1.x < segments[t].p3.x || segments[t].OnePoint()
    ensures Covers(ToSegment(segments[t]), points[cuts[t]..cuts[t + 1]])
  {
    var run := points[cuts[t]..cuts[t + 1]];
    assert Fits(segments[t], run);
    assert forall i | 0 <= i < |run| :: run[i] == points[cuts[t] + i];
    FitCovers(segments[t], run);
  }

  ghost predicate AllCover(level: seq<Segment>, cuts: seq<nat>, points: seq<Range>, c: nat) {
    && c < |cuts| && c <= |level| && Cuts(cuts, |points|)
    && forall t, u {:trigger level[t], cuts[u]} | 0 <= t < c && u == t + 1 ::
         Covers(level[t], points[cuts[t]..cuts[u]])
  }

  /** The first `n` stored segments are fitted ones. */
  ghost predicate Stores(level: seq<Segment>, segments: seq<CanonicalSegment>, n: nat) {
    && n <= |level| && n <= |segments|
    && forall t {:trigger level[t]} | 0 <= t < n ::
         (segments[t].p1.x < segments[t].p3.x || segments[t].OnePoint()) && level[t] == ToSegment(segments[t])
  }

  /** At most so many chunks of the entries are segmented on their own. */
  const MAX_PARALLELISM: nat := 20

  /** The division is greedy, or, for inputs large enough to be cut into chunks, has
      at most one block for each further chunk more than any other. */
  ghost predicate Economical(cuts: seq<nat>, points: seq<Range>, n: nat) {
    && Cuts(cuts, |points|)
    && (n < CHUNKED_FROM ==> GreedyCuts(cuts, points))
    && forall c {:trigger StabbableCuts(c, points)} | StabbableCuts(c, points) :: |cuts| <= |c| + MAX_PARALLELISM - 1
  }

  /** The level stores the segments of an economical division. */
  ghost predicate Fitted(level: seq<Segment>, epsilon: Word, entries: seq<Entry>, cuts: seq<nat>) {
    && Economical(cuts, CoreRanges(epsilon, entries), |entries|)
    && exists segments {:trigger SegmentsFit(segments, cuts, CoreRanges(epsilon, entries))} ::
         SegmentsFit(segments, cuts, CoreRanges(epsilon, entries)) && Stores(level, segments, |segments|)
  }

  /** The fitted segments in the form the index stores. */
  method StoreSegments(segments: seq<CanonicalSegment>, ghost cuts: seq<nat>, ghost points: seq<Range>)
    returns (level: seq<Segment>)
    requires SegmentsFit(segments, cuts, points) && Rising(points)
    ensures |level| == |segments| && AllCover(level, cuts, points, |segments|) && Stores(level, segments, |segments|)
  {
    level := [];
    for t := 0 to |segments|
      invariant |level| == t && Stores(level, segments, t)
    {
      Storable(segments, cuts, points, t);
      level := level + [ToSegment(segments[t])];
    }
    StoredCover(level, segments, cuts, points);
  }

  lemma Storable(segments: seq<CanonicalSegment>, cuts: seq<nat>, points: seq<Range>, t: nat)
    requires SegmentsFit(segments, cuts, points) && t < |segments|
    ensures segments[t].p1.x < segments[t].p3.x || segments[t].OnePoint()
  {
    assert Fits(segments[t], points[cuts[t]..cuts[t + 1]]);
  }

  lemma StoredCover(level: seq<Segment>, segments: seq<CanonicalSegment>, cuts: seq<nat>, points: seq<Range>)
    requires SegmentsFit(segments, cuts, points) && Rising(points) && Stores(level, segments, |segments|)
    ensures AllCover(level, cuts, points, |segments|)
  {
    forall t, u | 0 <= t < |segments| && u == t + 1 ensures Covers(level[t], points[cuts[t]..cuts[u]]) {
      StoredCovers(level[t], segments, cuts, points, t);
    }
  }

  lemma StoredCovers(stored: Segment, segments: seq<CanonicalSegment>, cuts: seq<nat>, points: seq<Range>, t: nat)
    requires SegmentsFit(segments, cuts, points) && Rising(points) && t < |segments|
    requires (segments[t].p1.x < segments[t].p3.x || segments[t].OnePoint()) && stored == ToSegment(segments[t])
    ensures Covers(stored, points[cuts[t]..cuts[t + 1]])
  {
    SegmentCovers(segments, cuts, points, t);
  }

  lemma FinishLevel(fitted: seq<Segment>, level: seq<Segment>, epsilon: Word, entries: seq<Entry>, beyond: int,
                    cap: int, cuts: seq<nat>)
    requires AlmostStrict(entries) && |entries| > 0 && epsilon > 0 && beyond <= KEY_MAX
    requires forall i | 0 <= i < |entries| :: 0 <= entries[i].x <= beyond
    requires AllCover(fitted, cuts, CoreRanges(epsilon, entries), |fitted|) && |cuts| == |fitted| + 1
    requires level == fitted + [Segment(KEY_MAX, Slope(1, 0), cap)]
          || level == fitted + [Segment(beyond, Slope(1, 0), |entries|)] + [Segment(KEY_MAX, Slope(1, 0), cap)]
    ensures Built(level, epsilon, entries, beyond, cap, cuts)
  {
    var c := |fitted|;
    forall t, u | 0 <= t < c && u == t + 1
      ensures Covers(level[t], CoreRanges(epsilon, entries)[cuts[t]..cuts[u]])
    {
      assert level[t] == fitted[t];
    }
  }

  lemma LastBlock(fitted: seq<Segment>, cuts: seq<nat>, points: seq<Range>)
    requires |fitted| > 0 && |cuts| == |fitted| + 1 && AllCover(fitted, cuts, points, |fitted|)
    ensures fitted[|fitted| - 1].slope.dy == 0 <==> cuts[|cuts| - 1] == cuts[|cuts| - 2] + 1
  {
    var c := |fitted|;
    assert Covers(fitted[c - 1], points[cuts[c - 1]..cuts[c]]);
  }

  /** The segments of a level over `entries`: `beyond` is one past the last data
      key, `cap` the sentinel's intercept. */
  method BuildLevel(epsilon: Word, entries: seq<Entry>, beyond: int, cap: int, parallelism: nat)
    returns (level: seq<Segment>, ghost cuts: seq<nat>)
    requires 0 < parallelism <= MAX_PARALLELISM
    requires AlmostStrict(entries) && |entries| > 0 && epsilon > 0 && beyond <= KEY_MAX
    requires forall i | 0 <= i < |entries| :: 0 <= entries[i].x <= beyond
    ensures Built(level, epsilon, entries, beyond, cap, cuts)
    ensures Fitted(level, epsilon, entries, cuts)
    ensures |level| == |cuts| + 1 <==> |entries| > 1 && cuts[|cuts| - 1] == cuts[|cuts| - 2] + 1
    ensures exists c :: Built(level, epsilon, entries, beyond, cap, c) && Fitted(level, epsilon, entries, c)
  {
    var fitted;
    fitted, cuts := FitEntries(epsilon, entries, parallelism);
    level := fitted;
    if |entries| > 1 && level[|level| - 1].slope.dy == 0 {
      level := level + [Segment(beyond, Slope(1, 0), |entries|)];
    }
    level := level + [Segment(KEY_MAX, Slope(1, 0), cap)];
    FinishLevel(fitted, level, epsilon, entries, beyond, cap, cuts);
    FittedLonger(fitted, level, epsilon, entries, cuts);
  }

  lemma FittedLonger(fitted: seq<Segment>, level: seq<Segment>, epsilon: Word, entries: seq<Entry>, cuts: seq<nat>)
    requires Fitted(fitted, epsilon, entries, cuts) && fitted <= level
    ensures Fitted(level, epsilon, entries, cuts)
  {
    var segments: seq<CanonicalSegment> :| SegmentsFit(segments, cuts, CoreRanges(epsilon, entries))
      && Stores(fitted, segments, |segments|);
    forall t | 0 <= t < |segments|
      ensures (segments[t].p1.x < segments[t].p3.x || segments[t].OnePoint()) && level[t] == ToSegment(segments[t])
    {
      assert level[t] == fitted[t];
    }
  }

  /** The segments of the entries. */
  method FitEntries(epsilon: Word, entries: seq<Entry>, parallelism: nat)
    returns (fitted: seq<Segment>, ghost cuts: seq<nat>)
    requires AlmostStrict(entries) && |entries| > 0 && epsilon > 0 && 0 < parallelism <= MAX_PARALLELISM
    ensures Fitted(fitted, epsilon, entries, cuts) && |cuts| == |fitted| + 1 > 1
    ensures AllCover(fitted, cuts, CoreRanges(epsilon, entries), |fitted|)
    ensures fitted[|fitted| - 1].slope.dy == 0 <==> cuts[|cuts| - 1] == cuts[|cuts| - 2] + 1
  {
    EntriesUsable(epsilon, entries);
    DistinctIsCore(epsilon, entries);
    var segments;
    ghost var tail, points := [], CoreRanges(epsilon, entries);
    segments, cuts, tail := MakeSegmentationPar(epsilon, ExactData(entries), parallelism);
    fitted := StoreSegments(segments, cuts, points);
    LastBlock(fitted, cuts, points);
  }

  // ---- levels over levels

  function IndexEntries(level: seq<Segment>): (e: seq<Entry>)
    requires 0 < |level| <= SIZE_MAX
    ensures |e| == Count(level)
    ensures forall i | 0 <= i < |e| :: e[i] == Entry(level[i].key, i)
  {
    seq(|level| - 1, i requires 0 <= i < |level| - 1 => Entry(level[i].key, i))
  }

  /** The entries of an upper level: keys of the level below, indexed from zero. */
  ghost predicate Indexed(entries: seq<Entry>) {
    && AlmostStrict(entries) && |entries| > 0
    && (|entries| >= 2 ==> entries[0].x < entries[|entries| - 1].x)
  }

  ghost predicate ByIndex(entries: seq<Entry>) {
    forall j | 0 <= j < |entries| :: entries[j].y == j
  }

  ghost predicate FlatIffSingle(level: seq<Segment>, entries: seq<Entry>, cuts: seq<nat>) {
    |cuts| >= 2 && (|level| == |cuts| + 1 <==> |entries| > 1 && cuts[|cuts| - 1] == cuts[|cuts| - 2] + 1)
  }

  lemma BlocksFromWidth(cuts: seq<nat>, n: nat, width: nat)
    requires Cuts(cuts, n) && |cuts| >= 2 && WideCuts(cuts, width)
    ensures width * (|cuts| - 2) < n
    ensures |cuts| >= 3 ==> width < n
  {
    CutsSpread(cuts, n, width, |cuts| - 2);
    if |cuts| >= 3 {
      CutsSpread(cuts, n, width, 1);
      assert cuts[1] < cuts[|cuts| - 1];
    }
  }

  /** A division of the first `m` points into blocks of `width` and one that is shorter. */
  lemma {:induction false} WideDivision(points: seq<Range>, width: nat, m: nat) returns (c: seq<nat>)
    requires width > 0 && ShortSpansStab(points, width) && m <= |points|
    ensures Cuts(c, m) && width * (|c| - 1) < m + width
    ensures forall i, j {:trigger SpanStabs(points, c[i], c[j])} | 0 <= i < |c| - 1 && j == i + 1 ::
      SpanStabs(points, c[i], c[j])
  {
    if m == 0 {
      c := [0];
    } else if m <= width {
      c := [0, m];
      assert SpanStabs(points, 0, m);
    } else {
      var d := WideDivision(points, width, m - width);
      c := d + [m];
      assert SpanStabs(points, m - width, m);
      assert width * (|c| - 1) == width * (|d| - 1) + width;
      forall i, j | 0 <= i < |c| - 1 && j == i + 1 ensures SpanStabs(points, c[i], c[j]) {
        if j < |d| { assert SpanStabs(points, d[i], d[j]); }
      }
    }
  }

  /** A division into chunks has fewer blocks than there are points, by far. */
  lemma ChunksAreFew(cuts: seq<nat>, points: seq<Range>, n: nat)
    requires Economical(cuts, points, n) && n >= CHUNKED_FROM && |points| <= n && Ordered(points)
    ensures |cuts| + 1 < n
  {
    PairsStabbable(points);
    var c := WideDivision(points, 2, |points|);
    assert StabbableCuts(c, points);
  }

  /** An upper level is strictly shorter than the level below, so building ends. */
  lemma LevelShrinks(level: seq<Segment>, epsilon: Word, entries: seq<Entry>, beyond: int, cap: int, cuts: seq<nat>)
    requires Built(level, epsilon, entries, beyond, cap, cuts)
    requires Economical(cuts, CoreRanges(epsilon, entries), |entries|)
    requires FlatIffSingle(level, entries, cuts)
    requires Indexed(entries) && ByIndex(entries) && 2 <= |entries| < SIZE_MAX
    ensures Count(level) < |entries|
  {
    CoreStrict(entries);
    if |entries| >= CHUNKED_FROM {
      ChunksAreFew(cuts, CoreRanges(epsilon, entries), |entries|);
    } else {
      TriplesStabbable(epsilon, entries);
      GreedyBlocksAreWide(cuts, CoreRanges(epsilon, entries), 3);
      BlocksFromWidth(cuts, |Core(entries)|, 3);
    }
  }

  /** The bottom level has as many segments as keys only for one or three keys. */
  lemma BottomShrinks(level: seq<Segment>, epsilon: Word, entries: seq<Entry>, beyond: int, cap: int, cuts: seq<nat>)
    requires Built(level, epsilon, entries, beyond, cap, cuts)
    requires Economical(cuts, CoreRanges(epsilon, entries), |entries|)
    requires FlatIffSingle(level, entries, cuts) && Core(entries) == entries
    ensures Count(level) <= |entries|
    ensures Count(level) == |entries| ==> |entries| == 1 || |entries| == 3
  {
    CoreStrict(entries);
    assert Ordered(CoreRanges(epsilon, entries));
    if |entries| >= CHUNKED_FROM {
      ChunksAreFew(cuts, CoreRanges(epsilon, entries), |entries|);
    } else {
      PairsStabbable(CoreRanges(epsilon, entries));
      GreedyBlocksAreWide(cuts, CoreRanges(epsilon, entries), 2);
      BlocksFromWidth(cuts, |entries|, 2);
    }
  }

  /** Where the keys of a level come from. */
  ghost predicate KeysFrom(level: seq<Segment>, entries: seq<Entry>, beyond: int, cuts: seq<nat>) {
    var c := |cuts| - 1;
    && Cuts(cuts, |Core(entries)|) && c + 1 <= |level| <= c + 2
    && (forall t | 0 <= t < c :: level[t].key == entries[cuts[t]].x)
    && (|level| == c + 2 ==> level[c].key == beyond)
    && (forall i | 0 <= i < |entries| :: 0 <= entries[i].x <= beyond)
  }

  lemma BuiltKeys(level: seq<Segment>, epsilon: Word, entries: seq<Entry>, beyond: int, cap: int, cuts: seq<nat>)
    requires Built(level, epsilon, entries, beyond, cap, cuts)
    ensures KeysFrom(level, entries, beyond, cuts)
  {
    forall t | 0 <= t < |cuts| - 1 ensures level[t].key == entries[cuts[t]].x {
      BlockAt(level, epsilon, entries, beyond, cap, cuts, t);
    }
  }

  /** The keys of a level are ready to be indexed by the next. */
  lemma KeysIndexed(level: seq<Segment>, entries: seq<Entry>, beyond: int, cuts: seq<nat>)
    requires KeysFrom(level, entries, beyond, cuts) && FlatIffSingle(level, entries, cuts)
    requires Indexed(entries) && |level| <= SIZE_MAX
    ensures Indexed(IndexEntries(level)) && ByIndex(IndexEntries(level))
    ensures level[0].key == entries[0].x
    ensures forall t | 0 <= t < Count(level) :: 0 <= level[t].key <= beyond
  {
    var c := |cuts| - 1;
    CoreStrict(entries);
    var keys := IndexEntries(level);
    forall t, u | 0 <= t < u < c ensures keys[t].x < keys[u].x {
      assert cuts[t] < cuts[u];
    }
    if |keys| >= 2 && c == 1 {
      assert false;
    }
  }

  // ---- the index

  ghost predicate BuiltOver(level: seq<Segment>, epsilon: Word, entries: seq<Entry>, beyond: int, cap: int) {
    exists cuts :: Built(level, epsilon, entries, beyond, cap, cuts) && KeysFrom(level, entries, beyond, cuts)
                && FlatIffSingle(level, entries, cuts)
  }

  /** The segments of the level are those of an economical division of its entries. */
  ghost predicate ByGreedy(level: seq<Segment>, epsilon: Word, entries: seq<Entry>) {
    exists cuts {:trigger Fitted(level, epsilon, entries, cuts)} :: Fitted(level, epsilon, entries, cuts)
      && |cuts| <= |level| <= |cuts| + 1 && FlatIffSingle(level, entries, cuts)
  }

  ghost predicate NextByGreedy(levels: seq<seq<Segment>>, epsilonRecursive: Word, l: nat)
    requires l + 1 < |levels|
  {
    0 < |levels[l]| <= SIZE_MAX && ByGreedy(levels[l + 1], epsilonRecursive, IndexEntries(levels[l]))
  }

  /** The same for all levels. */
  ghost predicate Greedy(levels: seq<seq<Segment>>, epsilon: Word, epsilonRecursive: Word, data: seq<Entry>) {
    && |levels| > 0 && ByGreedy(levels[0], epsilon, data)
    && forall l {:trigger NextByGreedy(levels, epsilonRecursive, l)} | 0 <= l < |levels| - 1 ::
         NextByGreedy(levels, epsilonRecursive, l)
  }

  lemma GreedyAppend(levels: seq<seq<Segment>>, next: seq<Segment>, epsilon: Word, epsilonRecursive: Word,
                     data: seq<Entry>)
    requires Greedy(levels, epsilon, epsilonRecursive, data) && 0 < |levels[|levels| - 1]| <= SIZE_MAX
    requires ByGreedy(next, epsilonRecursive, IndexEntries(levels[|levels| - 1]))
    ensures Greedy(levels + [next], epsilon, epsilonRecursive, data)
  {
    var taller := levels + [next];
    assert taller[0] == levels[0];
    forall l | 0 <= l < |taller| - 1 ensures NextByGreedy(taller, epsilonRecursive, l) {
      if l < |levels| - 1 { assert NextByGreedy(levels, epsilonRecursive, l); }
    }
  }

  /** The sentinel's intercept of an upper level: the size of the level below,
      unless that happens to equal the number of keys. */
  function SentinelCap(size: nat, n: nat, maxY: nat): nat {
    if size == n then maxY else size
  }

  ghost predicate LevelOver(below: seq<Segment>, above: seq<Segment>, epsilon: Word, n: nat, maxY: nat, beyond: int) {
    && 2 < |below| <= SIZE_MAX && 1 < |above| < |below|
    && Count(below) <= n && (Count(below) == n ==> n == 3)
    && Indexed(IndexEntries(below))
    && BuiltOver(above, epsilon, IndexEntries(below), beyond, SentinelCap(Count(below), n, maxY))
  }

  /** What can be read off the levels before a descent for `k`: where the
      sentinel carries the largest position instead of the size of the level
      below, the key is before that level's last segment, or the end of the upper
      level does not predict it too far. */
  predicate StepHolds(below: seq<Segment>, above: seq<Segment>, epsilonRecursive: nat, n: nat, k: int)
    requires |below| >= 2 && |above| >= 2
  {
    Count(below) != n || k < below[|below| - 2].key || EndReach(above, k, n + epsilonRecursive)
  }

  /** Only the bottom level can have as many segments as there are keys. */
  predicate KeyHolds(levels: seq<seq<Segment>>, epsilonRecursive: nat, n: nat, k: int) {
    |levels| >= 2 && |levels[0]| >= 2 && |levels[1]| >= 2 ==> StepHolds(levels[0], levels[1], epsilonRecursive, n, k)
  }

  /** The levels lie one after the other in the flat vector. */
  ghost predicate Layout(segments: seq<Segment>, offsets: seq<nat>, levels: seq<seq<Segment>>) {
    && |offsets| == |levels| + 1 && offsets[0] == 0 && offsets[|levels|] == |segments|
    && forall l, m {:trigger offsets[l], offsets[m]} | 0 <= l < |levels| && m == l + 1 ::
         offsets[l] <= offsets[m] <= |segments| && segments[offsets[l]..offsets[m]] == levels[l]
  }

  lemma LayoutAppend(segments: seq<Segment>, offsets: seq<nat>, levels: seq<seq<Segment>>, level: seq<Segment>)
    requires Layout(segments, offsets, levels)
    ensures Layout(segments + level, offsets + [|segments| + |level|], levels + [level])
  {
    var s, o, ls := segments + level, offsets + [|segments| + |level|], levels + [level];
    forall l, m | 0 <= l < |ls| && m == l + 1
      ensures o[l] <= o[m] <= |s| && s[o[l]..o[m]] == ls[l]
    {
      if l < |levels| {
        var a, b := offsets[l], offsets[m];
        assert a <= b <= |segments| && segments[a..b] == levels[l];
        assert o[l] == a && o[m] == b;
        assert s[a..b] == segments[a..b];
      } else {
        assert o[l] == offsets[|levels|] == |segments| && o[m] == |s|;
        assert s[|segments|..|s|] == level;
      }
    }
  }

  ghost predicate Stacked(levels: seq<seq<Segment>>, epsilonRecursive: Word, n: nat, maxY: nat, beyond: int) {
    forall l, m {:trigger levels[l], levels[m]} | 0 <= l < |levels| - 1 && m == l + 1 ::
      LevelOver(levels[l], levels[m], epsilonRecursive, n, maxY, beyond)
  }

  /** The state while levels are added on top. */
  ghost predicate Growing(segments: seq<Segment>, offsets: seq<nat>, levels: seq<seq<Segment>>, bottom: seq<Segment>,
                          epsilonRecursive: Word, size: nat, maxY: nat, beyond: int)
  {
    && |levels| > 0 && levels[0] == bottom && Layout(segments, offsets, levels) && beyond <= KEY_MAX
    && Stacked(levels, epsilonRecursive, size, maxY, beyond)
    && (epsilonRecursive == 0 ==> |levels| == 1)
    && Stackable(levels[|levels| - 1], size, beyond)
  }

  lemma LastLevel(segments: seq<Segment>, offsets: seq<nat>, levels: seq<seq<Segment>>)
    requires Layout(segments, offsets, levels) && |levels| > 0
    ensures offsets[|offsets| - 2] <= |segments| && segments[offsets[|offsets| - 2]..] == levels[|levels| - 1]
  {
    var a, b := offsets[|offsets| - 2], offsets[|offsets| - 1];
    assert a <= b <= |segments| && segments[a..b] == levels[|levels| - 1];
  }

  lemma GrowingAppend(segments: seq<Segment>, offsets: seq<nat>, levels: seq<seq<Segment>>, bottom: seq<Segment>,
                      epsilonRecursive: Word, size: nat, maxY: nat, beyond: int, level: seq<Segment>)
    requires Growing(segments, offsets, levels, bottom, epsilonRecursive, size, maxY, beyond)
    requires LevelOver(levels[|levels| - 1], level, epsilonRecursive, size, maxY, beyond) && epsilonRecursive > 0
    requires Stackable(level, size, beyond)
    ensures Growing(segments + level, offsets + [|segments + level|], levels + [level], bottom,
                    epsilonRecursive, size, maxY, beyond)
  {
    StackedAppend(levels, epsilonRecursive, size, maxY, beyond, level);
    LayoutAppend(segments, offsets, levels, level);
  }

  /** A finished level on which another one can be built. */
  ghost predicate Stackable(top: seq<Segment>, size: nat, beyond: int) {
    && 1 < |top| <= SIZE_MAX && Count(top) <= size && (Count(top) == size ==> size == 1 || size == 3)
    && Indexed(IndexEntries(top)) && ByIndex(IndexEntries(top))
    && forall t | 0 <= t < Count(top) :: 0 <= top[t].key <= beyond
  }

  /** `t` is the segment of the level responsible for `k`. */
  ghost predicate Responsible(level: seq<Segment>, k: int, t: int) {
    |level| > 0 && 0 <= t && Rightmost(level, Count(level), k, t)
  }

  lemma {:induction false} Predecessor(entries: seq<Entry>, k: int) returns (i: nat)
    requires |entries| > 0 && entries[0].x <= k
    ensures RightmostEntry(entries, k, i)
  {
    var m := |entries| - 1;
    if entries[m].x <= k { i := m; } else { i := Predecessor(entries[..m], k); }
  }

  lemma LevelAt(segments: seq<Segment>, offsets: seq<nat>, levels: seq<seq<Segment>>, l: nat)
    requires Layout(segments, offsets, levels) && l < |levels|
    ensures offsets[l] + |levels[l]| == offsets[l + 1] <= |segments|
    ensures forall t | 0 <= t < |levels[l]| :: segments[offsets[l] + t] == levels[l][t]
  {
    var a, b := offsets[l], offsets[l + 1];
    assert a <= b <= |segments| && segments[a..b] == levels[l];
    assert forall t | 0 <= t < |levels[l]| :: segments[a..b][t] == segments[a + t];
  }

  /** Two neighbouring levels between which a descent is possible. */
  ghost predicate CanDescend(below: seq<Segment>, above: seq<Segment>, epsilonRecursive: Word, n: nat, maxY: nat,
                             beyond: int, firstKey: int)
  {
    && LevelOver(below, above, epsilonRecursive, n, maxY, beyond)
    && below[0].key == firstKey && below[|below| - 1].key == KEY_MAX
  }

  lemma EntryIsSegment(below: seq<Segment>, k: int, i: nat)
    requires 1 < |below| <= SIZE_MAX && RightmostEntry(IndexEntries(below), k, i)
    requires k < KEY_MAX == below[|below| - 1].key
    ensures Responsible(below, k, i) && forall j | i < j < |below| :: below[j].key > k
  {
    var entries := IndexEntries(below);
    assert entries[i] == Entry(below[i].key, i);
    forall j | i < j < |below| ensures below[j].key > k {
      if j < |entries| { assert k < entries[j].x; }
    }
  }

  lemma DescentBound(above: seq<Segment>, epsilonRecursive: Word, entries: seq<Entry>, n: nat, maxY: nat,
                     beyond: int, k: int, t: nat, i: nat)
    requires BuiltOver(above, epsilonRecursive, entries, beyond, SentinelCap(|entries|, n, maxY))
    requires ByIndex(entries) && Responsible(above, k, t) && RightmostEntry(entries, k, i)
    ensures above[t].slope.dx > 0 && 0 <= Capped(above, t, k)
    ensures Capped(above, t, k) <= i + 1 + epsilonRecursive
       <==> |entries| != n || k < entries[|entries| - 1].x || EndReach(above, k, n + epsilonRecursive)
  {
    var cap := SentinelCap(|entries|, n, maxY);
    var cuts :| Built(above, epsilonRecursive, entries, beyond, cap, cuts)
             && KeysFrom(above, entries, beyond, cuts) && FlatIffSingle(above, entries, cuts);
    NeverOvershoots(above, epsilonRecursive, entries, beyond, cap, cuts, k, t, i);
    if |entries| != n { GoodSentinel(above, epsilonRecursive, entries, beyond, cap, cuts, k); }
  }

  /** The segment the scan must reach, and exactly when the scan starts at or before it. */
  lemma PredecessorBelow(below: seq<Segment>, above: seq<Segment>, epsilonRecursive: Word, n: nat, maxY: nat,
                         beyond: int, firstKey: int, k: int, t: nat) returns (i: nat)
    requires CanDescend(below, above, epsilonRecursive, n, maxY, beyond, firstKey)
    requires firstKey <= k < KEY_MAX && Responsible(above, k, t)
    ensures Responsible(below, k, i) && forall j | i < j < |below| :: below[j].key > k
    ensures above[t].slope.dx > 0 && 0 <= Capped(above, t, k)
    ensures Capped(above, t, k) <= i + 1 + epsilonRecursive <==> StepHolds(below, above, epsilonRecursive, n, k)
  {
    i := Predecessor(IndexEntries(below), k);
    EntryIsSegment(below, k, i);
    DescentBound(above, epsilonRecursive, IndexEntries(below), n, maxY, beyond, k, t, i);
  }

  /** Up to this epsilon the window is scanned, above it is searched by halves:
      as many packed segments of an 8-byte key, a 4-byte slope and an 8-byte
      intercept as fit eight cache lines. */
  const LINEAR_SEARCH_THRESHOLD: nat := 8 * 64 / (8 + 4 + 8)

  /** Where the search for segment `i` around `pos` ends: a searched window that
      stops just before `i` gives the segment before. */
  function Reached(i: nat, pos: nat, epsilonRecursive: Word): int {
    if epsilonRecursive <= LINEAR_SEARCH_THRESHOLD || i <= pos + epsilonRecursive + 1 then i else i - 1
  }

  /** The last segment whose key is at most `k`, with the sentinel taken into account. */
  ghost predicate Goal(level: seq<Segment>, k: int, i: nat) {
    && Responsible(level, k, i)
    && (forall j | 0 <= j <= i :: level[j].key <= k) && forall j | i < j < |level| :: level[j].key > k
  }

  /** The capped prediction is near the index `i` of the level below, or one further off before it. */
  ghost predicate Near(above: seq<Segment>, epsilonRecursive: Word, k: int, t: nat, i: nat) {
    && t + 1 < |above| && above[t].slope.dx > 0
    && 0 <= Capped(above, t, k) <= i + 1 + epsilonRecursive && i <= Capped(above, t, k) + epsilonRecursive + 2
  }

  /** One level down: start a little before the capped prediction and step right
      while the next key is still at most `k`, or, for a large epsilon, search
      the window around the prediction. */
  method DescendOne(segments: seq<Segment>, offsets: seq<nat>, ghost levels: seq<seq<Segment>>, l: nat, u: nat,
                    above: nat, k: int, epsilonRecursive: Word, ghost t: nat, ghost i: nat)
    returns (it: nat)
    requires Layout(segments, offsets, levels) && u == l + 1 < |levels|
    requires above == offsets[u] + t && t + 1 < |levels[u]|
    requires Goal(levels[l], k, i) && Near(levels[u], epsilonRecursive, k, t, i)
    ensures it == offsets[l] + Reached(i, Capped(levels[u], t, k), epsilonRecursive)
  {
    LevelAt(segments, offsets, levels, l);
    LevelAt(segments, offsets, levels, u);
    assert segments[above] == levels[u][t] && segments[above + 1] == levels[u][t + 1];
    var pos := CappedAt(segments[above], segments[above + 1], k);
    it := SearchLevel(segments, offsets[l], offsets[u] - offsets[l] - 1, pos, k, epsilonRecursive, levels[l], i);
  }

  method SearchLevel(segments: seq<Segment>, begin: nat, size: nat, pos: nat, k: int, epsilonRecursive: Word,
                     ghost level: seq<Segment>, ghost i: nat)
    returns (it: nat)
    requires begin + |level| <= |segments| && |level| == size + 1
    requires forall j | 0 <= j < |level| :: segments[begin + j] == level[j]
    requires i < size && (forall j | 0 <= j <= i :: level[j].key <= k) && forall j | i < j < |level| :: level[j].key > k
    requires pos <= i + 1 + epsilonRecursive && i <= pos + epsilonRecursive + 2
    ensures it == begin + Reached(i, pos, epsilonRecursive)
  {
    forall j | begin <= j < begin + |level| ensures j <= begin + i <==> segments[j].key <= k {
      assert segments[begin + (j - begin)] == level[j - begin];
    }
    var lo := begin + SubEps(pos, epsilonRecursive + 1);
    if epsilonRecursive <= LINEAR_SEARCH_THRESHOLD {
      it := ScanRight(segments, lo, k, begin + i);
    } else {
      var hi := begin + AddEps(pos, epsilonRecursive, size);
      it := UpperBound(segments, lo, hi, k, begin + Reached(i, pos, epsilonRecursive) + 1);
      it := it - 1;
    }
  }

  function CappedAt(seg: Segment, next: Segment, k: int): int
    requires seg.slope.dx > 0
  {
    var p := Predict(seg, k);
    if p <= next.intercept then p else next.intercept
  }

  method ScanRight(segments: seq<Segment>, start: nat, k: int, ghost stop: nat) returns (lo: nat)
    requires start <= stop < |segments| - 1
    requires forall j | start < j <= stop :: segments[j].key <= k
    requires segments[stop + 1].key > k
    ensures lo == stop
  {
    lo := start;
    while segments[lo + 1].key <= k
      invariant start <= lo <= stop
      decreases stop - lo
    {
      lo := lo + 1;
    }
  }

  /** `std::upper_bound` over the segments from `from` up to, not including, `to`. */
  method UpperBound(segments: seq<Segment>, from: nat, to: nat, k: int, ghost stop: nat) returns (r: nat)
    requires from <= stop <= to <= |segments|
    requires forall i | from <= i < stop :: segments[i].key <= k
    requires forall i | stop <= i < to :: segments[i].key > k
    ensures r == stop
  {
    var hi := to;
    r := from;
    while r < hi
      invariant from <= r <= stop <= hi <= to
    {
      var mid := (r + hi) / 2;
      if k < segments[mid].key { hi := mid; } else { r := mid + 1; }
    }
  }

  /** The level ends with the flat segment for keys beyond the last one. */
  ghost predicate EndsFlat(level: seq<Segment>, beyond: int) {
    |level| >= 2 && level[|level| - 2].key == beyond
  }

  /** The stored key `i` is found: it is not the last key with a segment of its
      own, or its position is close enough to the number of keys. */
  ghost predicate Findable(level: seq<Segment>, epsilon: Word, data: seq<Entry>, beyond: int, i: nat)
    requires i < |data|
  {
    !(i == |data| - 1 && EndsFlat(level, beyond)) || data[i].y <= |data| + epsilon + 1
  }

  lemma WindowOf(level: seq<Segment>, epsilon: Word, data: seq<Entry>, beyond: int, maxY: nat, cuts: seq<nat>,
                 t: nat, i: nat)
    requires Built(level, epsilon, data, beyond, maxY, cuts) && KeysFrom(level, data, beyond, cuts)
    requires FlatIffSingle(level, data, cuts) && Core(data) == data && i < |data|
    requires beyond == data[|data| - 1].x + 1 && data[|data| - 1].y <= maxY
    requires Responsible(level, data[i].x, t)
    ensures t < |level| - 1 && WellFormed(level[t]) && 0 <= Capped(level, t, data[i].x)
    ensures InWindow(Capped(level, t, data[i].x), epsilon, maxY, data[i].y)
       <==> Findable(level, epsilon, data, beyond, i)
  {
    var c := |cuts| - 1;
    CoreStrict(data);
    WindowContains(level, epsilon, data, beyond, maxY, cuts, t, i);
    assert EndsFlat(level, beyond) <==> |level| == |cuts| + 1;
    if |level| == |cuts| + 1 {
      assert cuts[c - 1] == |data| - 1;
      assert t == c - 1 <==> i == |data| - 1;
    }
  }

  lemma AnyPrediction(level: seq<Segment>, epsilon: Word, data: seq<Entry>, beyond: int, maxY: nat, cuts: seq<nat>, t: nat)
    requires Built(level, epsilon, data, beyond, maxY, cuts) && t < |level| - 1
    ensures level[t].slope.dx > 0 && level[t + 1].intercept >= 0
  {
    if t < |cuts| - 1 { BlockAt(level, epsilon, data, beyond, maxY, cuts, t); }
    if t + 1 < |cuts| - 1 { BlockAt(level, epsilon, data, beyond, maxY, cuts, t + 1); }
  }

  lemma BottomWindow(level: seq<Segment>, epsilon: Word, data: seq<Entry>, beyond: int, maxY: nat, k: int, t: nat)
    requires BuiltOver(level, epsilon, data, beyond, maxY) && Core(data) == data && |data| > 0
    requires beyond == data[|data| - 1].x + 1 && data[|data| - 1].y <= maxY && Responsible(level, k, t)
    ensures t < |level| - 1 && level[t].slope.dx > 0 && 0 <= Capped(level, t, k)
    ensures forall i | 0 <= i < |data| && data[i].x == k ::
      InWindow(Capped(level, t, k), epsilon, maxY, data[i].y)
      <==> Findable(level, epsilon, data, beyond, i)
  {
    var cuts :| Built(level, epsilon, data, beyond, maxY, cuts) && KeysFrom(level, data, beyond, cuts)
             && FlatIffSingle(level, data, cuts);
    AnyPrediction(level, epsilon, data, beyond, maxY, cuts, t);
    forall i | 0 <= i < |data| && data[i].x == k
      ensures InWindow(Capped(level, t, k), epsilon, maxY, data[i].y)
         <==> Findable(level, epsilon, data, beyond, i)
    {
      WindowOf(level, epsilon, data, beyond, maxY, cuts, t, i);
    }
  }

  method PositionAt(segments: seq<Segment>, ghost level: seq<Segment>, ghost epsilon: Word, ghost data: seq<Entry>,
                    ghost beyond: int, ghost maxY: nat, k: int, it: nat)
    returns (pos: int)
    requires |level| <= |segments| && forall t | 0 <= t < |level| :: segments[t] == level[t]
    requires BuiltOver(level, epsilon, data, beyond, maxY) && Core(data) == data && |data| > 0
    requires beyond == data[|data| - 1].x + 1 && data[|data| - 1].y <= maxY && Responsible(level, k, it)
    ensures pos >= 0
    ensures forall i | 0 <= i < |data| && data[i].x == k ::
      InWindow(pos, epsilon, maxY, data[i].y) <==> Findable(level, epsilon, data, beyond, i)
  {
    BottomWindow(level, epsilon, data, beyond, maxY, k, it);
    assert segments[it] == level[it] && segments[it + 1] == level[it + 1];
    pos := CappedAt(segments[it], segments[it + 1], k);
  }

  lemma BottomReady(level: seq<Segment>, epsilon: Word, entries: seq<Entry>, beyond: int, cap: int, cuts: seq<nat>)
    requires Built(level, epsilon, entries, beyond, cap, cuts) && Fitted(level, epsilon, entries, cuts)
    requires FlatIffSingle(level, entries, cuts) && Core(entries) == entries && Indexed(entries) && |entries| < SIZE_MAX
    ensures BuiltOver(level, epsilon, entries, beyond, cap) && ByGreedy(level, epsilon, entries)
    ensures Stackable(level, |entries|, beyond)
  {
    BuiltKeys(level, epsilon, entries, beyond, cap, cuts);
    BottomShrinks(level, epsilon, entries, beyond, cap, cuts);
    KeysIndexed(level, entries, beyond, cuts);
  }

  lemma GrowingStart(level: seq<Segment>, epsilonRecursive: Word, size: nat, maxY: nat, beyond: int)
    requires Stackable(level, size, beyond) && beyond <= KEY_MAX
    ensures Growing(level, [0, |level|], [level], level, epsilonRecursive, size, maxY, beyond)
  {
    assert level[0..|level|] == level;
  }

  lemma UpperReady(below: seq<Segment>, level: seq<Segment>, epsilonRecursive: Word, size: nat, maxY: nat,
                   beyond: int, cuts: seq<nat>)
    requires 2 < |below| && Stackable(below, size, beyond)
    requires var entries := IndexEntries(below);
      && Built(level, epsilonRecursive, entries, beyond, SentinelCap(|below| - 1, size, maxY), cuts)
      && Fitted(level, epsilonRecursive, entries, cuts) && FlatIffSingle(level, entries, cuts)
    ensures LevelOver(below, level, epsilonRecursive, size, maxY, beyond) && Stackable(level, size, beyond)
    ensures ByGreedy(level, epsilonRecursive, IndexEntries(below))
  {
    var entries := IndexEntries(below);
    var cap := SentinelCap(|below| - 1, size, maxY);
    BuiltKeys(level, epsilonRecursive, entries, beyond, cap, cuts);
    LevelShrinks(level, epsilonRecursive, entries, beyond, cap, cuts);
    KeysIndexed(level, entries, beyond, cuts);
  }

  class PGMIndexPage {
    const epsilonRecursive: Word
    const epsilonValue: Word
    const parallelism: nat
    const n: nat
    const firstKey: int
    const maxY: Word
    var segments: seq<Segment>
    var levelsOffsets: seq<nat>

    /** The indexed entries, without a trailing sentinel key. */
    ghost const data: seq<Entry>
    ghost var levels: seq<seq<Segment>>

    ghost predicate Valid()
      reads this
    {
      && InputOk() && |levels| > 0
      && Growing(segments, levelsOffsets, levels, levels[0], epsilonRecursive, |data|, maxY, Beyond())
      && BuiltOver(levels[0], epsilonValue, data, Beyond(), maxY)
      && (epsilonRecursive > 0 ==> |levels[|levels| - 1]| == 2)
    }

    ghost predicate InputOk() {
      && epsilonValue > 0 && 0 < parallelism <= MAX_PARALLELISM && 0 < |data| < SIZE_MAX && Indexed(data) && Core(data) == data
      && firstKey == data[0].x >= 0 && data[|data| - 1].x < KEY_MAX && data[|data| - 1].y <= maxY
    }

    /** One past the last key. */
    ghost function Beyond(): int
      requires |data| > 0
    {
      data[|data| - 1].x + 1
    }

    /** A last key equal to the largest key value is the sentinel and is not indexed. */
    constructor (epsilon: Word, epsilonRecursive: Word, entries: seq<Entry>, parallelism: nat)
      requires 0 < parallelism <= MAX_PARALLELISM && epsilon > 0 && 0 < |entries| < SIZE_MAX
      requires forall i, j | 0 <= i < j < |entries| :: entries[i].x < entries[j].x && entries[i].y <= entries[j].y
      requires 0 <= entries[0].x < KEY_MAX && entries[|entries| - 1].x <= KEY_MAX
      ensures Valid() && Greedy(levels, epsilon, epsilonRecursive, data)
      ensures data == if entries[|entries| - 1].x == KEY_MAX then entries[..|entries| - 1] else entries
      ensures epsilonValue == epsilon && this.epsilonRecursive == epsilonRecursive
      ensures maxY == entries[|entries| - 1].y
    {
      this.epsilonRecursive, epsilonValue, n := epsilonRecursive, epsilon, |entries|;
      this.parallelism := parallelism;
      firstKey, maxY := entries[0].x, entries[|entries| - 1].y;
      var indexed := if entries[|entries| - 1].x == KEY_MAX then entries[..|entries| - 1] else entries;
      data := indexed;
      segments, levelsOffsets, levels := [], [], [];
      new;
      Build(epsilon, indexed);
    }

    /** Builds the bottom level over the data and further levels over the keys
        of the level below, until a single segment is left. */
    method Build(epsilon: Word, entries: seq<Entry>)
      requires InputOk() && epsilon == epsilonValue && entries == data
      modifies this
      ensures Valid() && Greedy(levels, epsilon, epsilonRecursive, data)
    {
      var beyond := entries[|entries| - 1].x + 1;
      var level := Bottom(epsilon, entries, beyond);
      segments, levelsOffsets, levels := Stack(level, beyond, |entries|);
    }

    /** The loop over the upper levels. */
    method Stack(bottom: seq<Segment>, beyond: int, size: nat)
      returns (all: seq<Segment>, offsets: seq<nat>, ghost towers: seq<seq<Segment>>)
      requires Growing(bottom, [0, |bottom|], [bottom], bottom, epsilonRecursive, size, maxY, beyond)
      requires ByGreedy(bottom, epsilonValue, data) && 0 < parallelism <= MAX_PARALLELISM
      ensures Growing(all, offsets, towers, bottom, epsilonRecursive, size, maxY, beyond)
      ensures Greedy(towers, epsilonValue, epsilonRecursive, data)
      ensures |towers| > 0 && (epsilonRecursive > 0 ==> |towers[|towers| - 1]| == 2)
    {
      all, offsets, towers := bottom, [0, |bottom|], [bottom];
      var lastN := |bottom| - 1;
      while epsilonRecursive > 0 && lastN > 1
        invariant Growing(all, offsets, towers, bottom, epsilonRecursive, size, maxY, beyond)
        invariant Greedy(towers, epsilonValue, epsilonRecursive, data)
        invariant lastN == Count(towers[|towers| - 1])
        decreases lastN
      {
        var next;
        next, all, offsets := GrowGreedily(all, offsets, towers, bottom, beyond, size);
        lastN, towers := |next| - 1, towers + [next];
      }
    }

    /** Adds the level that indexes the last one. */
    method GrowGreedily(below: seq<Segment>, offsets: seq<nat>, ghost towers: seq<seq<Segment>>,
                        ghost bottom: seq<Segment>, beyond: int, size: nat)
      returns (level: seq<Segment>, after: seq<Segment>, offsetsAfter: seq<nat>)
      requires Growing(below, offsets, towers, bottom, epsilonRecursive, size, maxY, beyond)
      requires Greedy(towers, epsilonValue, epsilonRecursive, data)
      requires epsilonRecursive > 0 && |towers[|towers| - 1]| > 2 && 0 < parallelism <= MAX_PARALLELISM
      ensures Growing(after, offsetsAfter, towers + [level], bottom, epsilonRecursive, size, maxY, beyond)
      ensures Greedy(towers + [level], epsilonValue, epsilonRecursive, data)
      ensures 0 < |level| < |towers[|towers| - 1]|
    {
      level, after, offsetsAfter := Grow(below, offsets, towers, bottom, beyond, size);
      GreedyAppend(towers, level, epsilonValue, epsilonRecursive, data);
    }

    method Grow(below: seq<Segment>, offsets: seq<nat>, ghost towers: seq<seq<Segment>>, ghost bottom: seq<Segment>,
                beyond: int, size: nat)
      returns (level: seq<Segment>, after: seq<Segment>, offsetsAfter: seq<nat>)
      requires Growing(below, offsets, towers, bottom, epsilonRecursive, size, maxY, beyond)
      requires epsilonRecursive > 0 && |towers[|towers| - 1]| > 2 && 0 < parallelism <= MAX_PARALLELISM
      ensures Growing(after, offsetsAfter, towers + [level], bottom, epsilonRecursive, size, maxY, beyond)
      ensures 0 < |level| < |towers[|towers| - 1]| <= SIZE_MAX
      ensures ByGreedy(level, epsilonRecursive, IndexEntries(towers[|towers| - 1]))
    {
      level := NextLevel(below, offsets, towers, bottom, beyond, size);
      GrowingAppend(below, offsets, towers, bottom, epsilonRecursive, size, maxY, beyond, level);
      after := below + level;
      offsetsAfter := offsets + [|after|];
    }

    method Bottom(epsilon: Word, entries: seq<Entry>, beyond: int) returns (level: seq<Segment>)
      requires InputOk() && epsilon == epsilonValue && entries == data && beyond == Beyond()
      ensures BuiltOver(level, epsilon, entries, beyond, maxY) && ByGreedy(level, epsilon, entries)
      ensures Growing(level, [0, |level|], [level], level, epsilonRecursive, |entries|, maxY, beyond)
    {
      ghost var cuts;
      level, cuts := BuildLevel(epsilon, entries, beyond, maxY, parallelism);
      BottomReady(level, epsilon, entries, beyond, maxY, cuts);
      GrowingStart(level, epsilonRecursive, |entries|, maxY, beyond);
    }

    method NextLevel(below: seq<Segment>, offsets: seq<nat>, ghost towers: seq<seq<Segment>>, ghost bottom: seq<Segment>,
                     beyond: int, size: nat)
      returns (level: seq<Segment>)
      requires Growing(below, offsets, towers, bottom, epsilonRecursive, size, maxY, beyond)
      requires epsilonRecursive > 0 && |towers[|towers| - 1]| > 2 && 0 < parallelism <= MAX_PARALLELISM
      ensures |towers[|towers| - 1]| <= SIZE_MAX && Stackable(level, size, beyond)
      ensures LevelOver(towers[|towers| - 1], level, epsilonRecursive, size, maxY, beyond)
      ensures ByGreedy(level, epsilonRecursive, IndexEntries(towers[|towers| - 1]))
    {
      LastLevel(below, offsets, towers);
      level := Above(below[offsets[|offsets| - 2]..], beyond, size);
    }

    method Above(below: seq<Segment>, beyond: int, size: nat) returns (level: seq<Segment>)
      requires epsilonRecursive > 0 && 2 < |below| && beyond <= KEY_MAX && Stackable(below, size, beyond)
      requires 0 < parallelism <= MAX_PARALLELISM
      ensures LevelOver(below, level, epsilonRecursive, size, maxY, beyond) && Stackable(level, size, beyond)
      ensures ByGreedy(level, epsilonRecursive, IndexEntries(below))
    {
      var entries := IndexEntries(below);
      var cap := SentinelCap(|below| - 1, size, maxY);
      ghost var cuts;
      level, cuts := BuildLevel(epsilonRecursive, entries, beyond, cap, parallelism);
      UpperReady(below, level, epsilonRecursive, size, maxY, beyond, cuts);
    }

    /** The index of the segment responsible for `k` in the flat vector: the
        last bottom-level segment whose key is at most `k`. */
    method SegmentForKey(k: int) returns (it: nat)
      requires Valid() && firstKey <= k < KEY_MAX
      requires epsilonRecursive > 0 && k > data[|data| - 1].x ==> KeyHolds(levels, epsilonRecursive, |data|, k)
      ensures Responsible(levels[0], k, it)
    {
      if epsilonRecursive == 0 {
        it := FlatLookup(segments, levelsOffsets, levels, epsilonValue, data, maxY, Beyond(), k);
      } else {
        if k <= data[|data| - 1].x { StoredKeysHold(levels, epsilonValue, epsilonRecursive, data, maxY, Beyond(), k); }
        it := Descend(segments, levelsOffsets, levels, epsilonValue, epsilonRecursive, data, maxY, Beyond(), k);
      }
    }

    /** The position window for a key. It contains the position of every stored
        key, except possibly the last one when that key has a segment of its own:
        then exactly when the position is at most the number of keys plus
        `epsilon + 1`. */
    method Search(key: int) returns (pos: int, lo: nat, hi: nat)
      requires Valid() && key < KEY_MAX
      requires epsilonRecursive > 0 && key > data[|data| - 1].x ==> KeyHolds(levels, epsilonRecursive, |data|, key)
      ensures pos >= 0 && lo == SubEps(pos, epsilonValue) && hi == AddEps(pos, epsilonValue, maxY + 1)
      ensures forall i | 0 <= i < |data| && data[i].x == key ::
        lo <= data[i].y < hi <==> Findable(levels[0], epsilonValue, data, Beyond(), i)
    {
      FirstIsLeast(data);
      pos := Locate(if firstKey >= key then firstKey else key);
      lo := SubEps(pos, epsilonValue);
      hi := AddEps(pos, epsilonValue, maxY + 1);
    }

    /** The capped prediction for a key that is not below the first one. */
    method Locate(k: int) returns (pos: int)
      requires Valid() && firstKey <= k < KEY_MAX
      requires epsilonRecursive > 0 && k > data[|data| - 1].x ==> KeyHolds(levels, epsilonRecursive, |data|, k)
      ensures pos >= 0
      ensures forall i | 0 <= i < |data| && data[i].x == k ::
        InWindow(pos, epsilonValue, maxY, data[i].y) <==> Findable(levels[0], epsilonValue, data, Beyond(), i)
    {
      var it := SegmentForKey(k);
      BottomOffset(segments, levelsOffsets, levels);
      pos := PositionAt(segments, levels[0], epsilonValue, data, Beyond(), maxY, k, it);
    }
  }

  lemma FirstIsLeast(entries: seq<Entry>)
    requires AlmostStrict(entries)
    ensures forall i | 0 <= i < |entries| :: entries[0].x <= entries[i].x
  {
  }

  /** Every level starts at the first key. */
  lemma {:induction false} FirstKeys(levels: seq<seq<Segment>>, epsilon: Word, epsilonRecursive: Word, data: seq<Entry>,
                                     maxY: nat, beyond: int, l: nat)
    requires l < |levels| && |data| > 0 && BuiltOver(levels[0], epsilon, data, beyond, maxY)
    requires Stacked(levels, epsilonRecursive, |data|, maxY, beyond)
    ensures |levels[l]| > 1 && levels[l][0].key == data[0].x
  {
    if l > 0 {
      FirstKeys(levels, epsilon, epsilonRecursive, data, maxY, beyond, l - 1);
      assert LevelOver(levels[l - 1], levels[l], epsilonRecursive, |data|, maxY, beyond);
    }
  }

  /** Every level ends with a sentinel whose key is the largest key value. */
  lemma LevelSentinel(levels: seq<seq<Segment>>, epsilon: Word, epsilonRecursive: Word, data: seq<Entry>,
                      maxY: nat, beyond: int, l: nat)
    requires l < |levels| && BuiltOver(levels[0], epsilon, data, beyond, maxY)
    requires Stacked(levels, epsilonRecursive, |data|, maxY, beyond)
    ensures |levels[l]| > 1 && levels[l][|levels[l]| - 1].key == KEY_MAX
  {
    if l > 0 {
      assert LevelOver(levels[l - 1], levels[l], epsilonRecursive, |data|, maxY, beyond);
    }
  }

  /** A step from one level to the next starts at or before its goal exactly if `StepHolds`. */
  lemma StepExact(levels: seq<seq<Segment>>, epsilon: Word, epsilonRecursive: Word, data: seq<Entry>,
                  maxY: nat, beyond: int, l: nat, u: nat, k: int, t: nat) returns (i: nat)
    requires u == l + 1 < |levels| && Tower(levels, epsilon, epsilonRecursive, data, maxY, beyond)
    requires data[0].x <= k < KEY_MAX && Responsible(levels[u], k, t)
    ensures Goal(levels[l], k, i)
    ensures levels[u][t].slope.dx > 0 && 0 <= Capped(levels[u], t, k)
    ensures |levels[l]| >= 2 && |levels[u]| >= 2
    ensures Capped(levels[u], t, k) <= i + 1 + epsilonRecursive
       <==> StepHolds(levels[l], levels[u], epsilonRecursive, |data|, k)
  {
    FirstKeys(levels, epsilon, epsilonRecursive, data, maxY, beyond, l);
    LevelSentinel(levels, epsilon, epsilonRecursive, data, maxY, beyond, l);
    assert LevelOver(levels[l], levels[u], epsilonRecursive, |data|, maxY, beyond);
    i := PredecessorBelow(levels[l], levels[u], epsilonRecursive, |data|, maxY, beyond, data[0].x, k, t);
    EarlierKeys(levels[l], k, i);
  }

  /** The last two keys of a level can be equal, the second being that of the flat
      segment; `t` is the first of the two. */
  ghost predicate Tied(level: seq<Segment>, k: int, t: int) {
    0 <= t && t + 3 == |level| && level[t].key == level[t + 1].key <= k
  }

  /** Where a step of the descent can land. */
  ghost predicate Lands(level: seq<Segment>, k: int, t: int) {
    Responsible(level, k, t) || Tied(level, k, t)
  }

  /** Only the flat segment can repeat a key. */
  lemma RepeatedIsBeyond(level: seq<Segment>, epsilon: Word, entries: seq<Entry>, beyond: int, cap: int)
    requires BuiltOver(level, epsilon, entries, beyond, cap) && 1 < |level| <= SIZE_MAX
    ensures |Core(IndexEntries(level))| == Count(level) || level[Count(level) - 1].key == beyond
  {
    var cuts :| Built(level, epsilon, entries, beyond, cap, cuts) && KeysFrom(level, entries, beyond, cuts)
             && FlatIffSingle(level, entries, cuts);
    RepeatsAtEnd(level, entries, beyond, cuts);
  }

  lemma RepeatsAtEnd(level: seq<Segment>, entries: seq<Entry>, beyond: int, cuts: seq<nat>)
    requires KeysFrom(level, entries, beyond, cuts) && AlmostStrict(entries) && 1 < |level| <= SIZE_MAX
    ensures |Core(IndexEntries(level))| == Count(level) || level[Count(level) - 1].key == beyond
  {
    CoreRepeats(level);
    var n := Count(level);
    if n >= 2 && |level| == |cuts| { BlockKeysDiffer(level, entries, beyond, cuts, n - 2); }
  }

  lemma CoreRepeats(level: seq<Segment>)
    requires 1 < |level| <= SIZE_MAX
    ensures var n := Count(level);
      |Core(IndexEntries(level))| == n || (n >= 2 && level[n - 2].key == level[n - 1].key)
  {
  }

  lemma BlockKeysDiffer(level: seq<Segment>, entries: seq<Entry>, beyond: int, cuts: seq<nat>, t: nat)
    requires KeysFrom(level, entries, beyond, cuts) && AlmostStrict(entries) && t + 1 < |cuts| - 1
    ensures level[t].key < level[t + 1].key
  {
    CoreStrict(entries);
    assert cuts[t] < cuts[t + 1] < |Core(entries)|;
  }

  lemma LevelRepeats(levels: seq<seq<Segment>>, epsilon: Word, epsilonRecursive: Word, data: seq<Entry>,
                     maxY: nat, beyond: int, l: nat)
    requires l < |levels| && Tower(levels, epsilon, epsilonRecursive, data, maxY, beyond) && 1 < |levels[l]| <= SIZE_MAX
    ensures |Core(IndexEntries(levels[l]))| == Count(levels[l]) || levels[l][Count(levels[l]) - 1].key == beyond
  {
    if l == 0 {
      RepeatedIsBeyond(levels[0], epsilon, data, beyond, maxY);
    } else {
      UpperBuilt(levels, epsilonRecursive, |data|, maxY, beyond, l);
      RepeatedIsBeyond(levels[l], epsilonRecursive, IndexEntries(levels[l - 1]), beyond,
                       SentinelCap(Count(levels[l - 1]), |data|, maxY));
    }
  }

  lemma UpperBuilt(levels: seq<seq<Segment>>, epsilonRecursive: Word, n: nat, maxY: nat, beyond: int, l: nat)
    requires 0 < l < |levels| && Stacked(levels, epsilonRecursive, n, maxY, beyond)
    ensures 0 < |levels[l - 1]| <= SIZE_MAX
    ensures BuiltOver(levels[l], epsilonRecursive, IndexEntries(levels[l - 1]), beyond,
                      SentinelCap(Count(levels[l - 1]), n, maxY))
  {
    var below := levels[l - 1];
    assert LevelOver(below, levels[l], epsilonRecursive, n, maxY, beyond);
  }

  lemma WindowBelow(below: seq<Segment>, above: seq<Segment>, epsilonRecursive: Word, n: nat, maxY: nat,
                    beyond: int, k: int, t: nat, i: nat)
    requires LevelOver(below, above, epsilonRecursive, n, maxY, beyond) && epsilonRecursive > 0
    requires Responsible(above, k, t) && RightmostEntry(Core(IndexEntries(below)), k, i)
    ensures above[t].slope.dx > 0 && i <= Capped(above, t, k) + epsilonRecursive + 1
  {
    var entries := IndexEntries(below);
    var cap := SentinelCap(|entries|, n, maxY);
    var cuts :| Built(above, epsilonRecursive, entries, beyond, cap, cuts);
    NeverUndershoots(above, epsilonRecursive, entries, beyond, cap, cuts, k, t, i);
  }

  /** The last entry before the repeated one, or the goal itself where none is repeated. */
  function InCore(level: seq<Segment>, i: nat): (j: int)
    requires 0 < |level| <= SIZE_MAX
  {
    if i < |Core(IndexEntries(level))| then i else i - 1
  }

  lemma CoreResponsible(level: seq<Segment>, k: int, i: nat)
    requires 1 < |level| <= SIZE_MAX && Responsible(level, k, i)
    ensures 0 <= InCore(level, i) && RightmostEntry(Core(IndexEntries(level)), k, InCore(level, i))
    ensures InCore(level, i) < i ==> Tied(level, k, i - 1)
  {
    CoreRepeats(level);
  }

  /** The window of a step holds its goal, except where the level ends with two
      equal keys: it then holds at least the first of them. */
  lemma StepWindow(levels: seq<seq<Segment>>, epsilon: Word, epsilonRecursive: Word, data: seq<Entry>,
                   maxY: nat, beyond: int, l: nat, u: nat, k: int, t: nat, i: nat)
    requires u == l + 1 < |levels| && Tower(levels, epsilon, epsilonRecursive, data, maxY, beyond) && epsilonRecursive > 0
    requires Responsible(levels[u], k, t) && Responsible(levels[l], k, i)
    ensures t + 1 < |levels[u]| && levels[u][t].slope.dx > 0 && i <= Capped(levels[u], t, k) + epsilonRecursive + 2
    ensures i <= Capped(levels[u], t, k) + epsilonRecursive + 1 || Tied(levels[l], k, i - 1)
  {
    assert LevelOver(levels[l], levels[u], epsilonRecursive, |data|, maxY, beyond);
    CoreResponsible(levels[l], k, i);
    WindowBelow(levels[l], levels[u], epsilonRecursive, |data|, maxY, beyond, k, t, InCore(levels[l], i));
  }

  /** Only keys past the last one can meet two equal keys, and never on the bottom level. */
  lemma TiedOnlyAbove(levels: seq<seq<Segment>>, epsilon: Word, epsilonRecursive: Word, data: seq<Entry>,
                      maxY: nat, beyond: int, l: nat, k: int, t: nat)
    requires l < |levels| && Tower(levels, epsilon, epsilonRecursive, data, maxY, beyond)
    requires |levels[l]| <= SIZE_MAX && Tied(levels[l], k, t) && data[|data| - 1].x < beyond
    ensures l > 0 && k >= beyond
  {
    LevelRepeats(levels, epsilon, epsilonRecursive, data, maxY, beyond, l);
    TiedRepeats(levels[l], k, t);
    if l == 0 { BottomNotTied(levels[0], epsilon, data, beyond, maxY, k, t); }
  }

  lemma TiedRepeats(level: seq<Segment>, k: int, t: nat)
    requires Tied(level, k, t) && |level| <= SIZE_MAX
    ensures |level| > 1 && |Core(IndexEntries(level))| != Count(level) && level[Count(level) - 1].key <= k
  {
  }

  lemma BottomNotTied(level: seq<Segment>, epsilon: Word, data: seq<Entry>, beyond: int, maxY: int, k: int, t: nat)
    requires BuiltOver(level, epsilon, data, beyond, maxY) && data[|data| - 1].x < beyond
    ensures !Tied(level, k, t)
  {
    var cuts :| Built(level, epsilon, data, beyond, maxY, cuts) && KeysFrom(level, data, beyond, cuts)
             && FlatIffSingle(level, data, cuts);
    KeysNotTied(level, data, beyond, cuts, k, t);
  }

  lemma KeysNotTied(level: seq<Segment>, entries: seq<Entry>, beyond: int, cuts: seq<nat>, k: int, t: nat)
    requires KeysFrom(level, entries, beyond, cuts) && AlmostStrict(entries) && |cuts| >= 2
    requires entries[|entries| - 1].x < beyond
    ensures !Tied(level, k, t)
  {
    BlocksBefore(level, entries, beyond, cuts);
    if t + 1 < |cuts| - 1 { BlockKeysDiffer(level, entries, beyond, cuts, t); }
  }

  lemma BlocksBefore(level: seq<Segment>, entries: seq<Entry>, beyond: int, cuts: seq<nat>)
    requires KeysFrom(level, entries, beyond, cuts) && AlmostStrict(entries) && |cuts| >= 2
    requires entries[|entries| - 1].x < beyond
    ensures level[|cuts| - 2].key < beyond
  {
    var t := |cuts| - 2;
    assert level[t].key == entries[cuts[t]].x;
  }

  /** From the first of two equal keys the window holds the last segment of the level below. */
  lemma TiedBelow(below: seq<Segment>, above: seq<Segment>, epsilonRecursive: Word, n: nat, maxY: nat,
                  beyond: int, k: int, t: nat, i: nat)
    requires LevelOver(below, above, epsilonRecursive, n, maxY, beyond) && Tied(above, k, t)
    requires Responsible(below, k, i) && forall j | 0 <= j < Count(below) :: below[j].key <= beyond
    ensures t + 1 < |above| && above[t].slope.dx > 0 && Capped(above, t, k) >= 0
    ensures i - 1 - epsilonRecursive <= Capped(above, t, k) <= i + 1
  {
    var entries := IndexEntries(below);
    var cap := SentinelCap(|entries|, n, maxY);
    var cuts :| Built(above, epsilonRecursive, entries, beyond, cap, cuts);
    TiedIsFlat(above, epsilonRecursive, entries, beyond, cap, cuts);
    TiedPrediction(above, epsilonRecursive, entries, beyond, cap, cuts, k);
    LastResponsible(below, beyond, k, i);
  }

  /** Every step reaches the segment responsible for `k`, or the first of two equal
      keys, and from either the next step does, too. */
  lemma StepLands(levels: seq<seq<Segment>>, epsilon: Word, epsilonRecursive: Word, data: seq<Entry>,
                  maxY: nat, beyond: int, l: nat, u: nat, k: int, t: nat) returns (i: nat)
    requires u == l + 1 < |levels| && epsilonRecursive > 0
    requires Searchable(levels, epsilon, epsilonRecursive, data, maxY, beyond, k) && Lands(levels[u], k, t)
    ensures Goal(levels[l], k, i) && Near(levels[u], epsilonRecursive, k, t, i)
    ensures Lands(levels[l], k, Reached(i, Capped(levels[u], t, k), epsilonRecursive))
  {
    if Responsible(levels[u], k, t) {
      i := ResponsibleStep(levels, epsilon, epsilonRecursive, data, maxY, beyond, l, u, k, t);
    } else {
      i := TiedStep(levels, epsilon, epsilonRecursive, data, maxY, beyond, l, u, k, t);
    }
  }

  lemma ResponsibleStep(levels: seq<seq<Segment>>, epsilon: Word, epsilonRecursive: Word, data: seq<Entry>,
                        maxY: nat, beyond: int, l: nat, u: nat, k: int, t: nat) returns (i: nat)
    requires u == l + 1 < |levels| && epsilonRecursive > 0
    requires Searchable(levels, epsilon, epsilonRecursive, data, maxY, beyond, k) && Responsible(levels[u], k, t)
    ensures Goal(levels[l], k, i) && Near(levels[u], epsilonRecursive, k, t, i)
    ensures Lands(levels[l], k, Reached(i, Capped(levels[u], t, k), epsilonRecursive))
  {
    i := StepStarts(levels, epsilon, epsilonRecursive, data, maxY, beyond, l, u, k, t);
    StepWindow(levels, epsilon, epsilonRecursive, data, maxY, beyond, l, u, k, t, i);
  }

  lemma StepStarts(levels: seq<seq<Segment>>, epsilon: Word, epsilonRecursive: Word, data: seq<Entry>,
                   maxY: nat, beyond: int, l: nat, u: nat, k: int, t: nat) returns (i: nat)
    requires u == l + 1 < |levels| && Searchable(levels, epsilon, epsilonRecursive, data, maxY, beyond, k)
    requires Responsible(levels[u], k, t)
    ensures Goal(levels[l], k, i) && levels[u][t].slope.dx > 0
    ensures 0 <= Capped(levels[u], t, k) <= i + 1 + epsilonRecursive
  {
    i := StepExact(levels, epsilon, epsilonRecursive, data, maxY, beyond, l, u, k, t);
    if l > 0 { StepAbove(levels, epsilonRecursive, |data|, maxY, beyond, l, u, k); }
  }

  lemma GoalBelow(levels: seq<seq<Segment>>, epsilon: Word, epsilonRecursive: Word, data: seq<Entry>,
                  maxY: nat, beyond: int, l: nat, u: nat, k: int) returns (i: nat)
    requires u == l + 1 < |levels| && Tower(levels, epsilon, epsilonRecursive, data, maxY, beyond)
    requires data[0].x <= k < KEY_MAX
    ensures Goal(levels[l], k, i)
  {
    FirstKeys(levels, epsilon, epsilonRecursive, data, maxY, beyond, u);
    var t := LastAtMost(levels[u], k);
    i := StepExact(levels, epsilon, epsilonRecursive, data, maxY, beyond, l, u, k, t);
  }

  lemma TiedStep(levels: seq<seq<Segment>>, epsilon: Word, epsilonRecursive: Word, data: seq<Entry>,
                 maxY: nat, beyond: int, l: nat, u: nat, k: int, t: nat) returns (i: nat)
    requires u == l + 1 < |levels| && Tower(levels, epsilon, epsilonRecursive, data, maxY, beyond)
    requires data[0].x <= k < KEY_MAX && Tied(levels[u], k, t)
    ensures Goal(levels[l], k, i) && Near(levels[u], epsilonRecursive, k, t, i)
    ensures Lands(levels[l], k, Reached(i, Capped(levels[u], t, k), epsilonRecursive))
  {
    i := GoalBelow(levels, epsilon, epsilonRecursive, data, maxY, beyond, l, u, k);
    TiedNear(levels, epsilon, epsilonRecursive, data, maxY, beyond, l, u, k, t, i);
  }

  lemma TiedNear(levels: seq<seq<Segment>>, epsilon: Word, epsilonRecursive: Word, data: seq<Entry>,
                 maxY: nat, beyond: int, l: nat, u: nat, k: int, t: nat, i: nat)
    requires u == l + 1 < |levels| && Tower(levels, epsilon, epsilonRecursive, data, maxY, beyond)
    requires Tied(levels[u], k, t) && Responsible(levels[l], k, i)
    ensures t + 1 < |levels[u]| && levels[u][t].slope.dx > 0 && Capped(levels[u], t, k) >= 0
    ensures i - 1 - epsilonRecursive <= Capped(levels[u], t, k) <= i + 1
  {
    KeysUpTo(levels, epsilon, epsilonRecursive, data, maxY, beyond, l);
    assert LevelOver(levels[l], levels[u], epsilonRecursive, |data|, maxY, beyond);
    TiedBelow(levels[l], levels[u], epsilonRecursive, |data|, maxY, beyond, k, t, i);
  }

  /** For a key past all others the last segments are responsible. */
  lemma LastResponsible(level: seq<Segment>, beyond: int, k: int, t: nat)
    requires |level| > 1 && Responsible(level, k, t) && k >= beyond
    requires forall j | 0 <= j < Count(level) :: level[j].key <= beyond
    ensures t == Count(level) - 1
  {
    assert level[Count(level) - 1].key <= beyond;
  }

  lemma KeysUpTo(levels: seq<seq<Segment>>, epsilon: Word, epsilonRecursive: Word, data: seq<Entry>,
                 maxY: nat, beyond: int, l: nat)
    requires l < |levels| && Tower(levels, epsilon, epsilonRecursive, data, maxY, beyond)
    ensures |levels[l]| > 1 && forall j | 0 <= j < Count(levels[l]) :: levels[l][j].key <= beyond
  {
    if l == 0 {
      BuiltKeysUpTo(levels[0], epsilon, data, beyond, maxY);
    } else {
      UpperBuilt(levels, epsilonRecursive, |data|, maxY, beyond, l);
      BuiltKeysUpTo(levels[l], epsilonRecursive, IndexEntries(levels[l - 1]), beyond,
                    SentinelCap(Count(levels[l - 1]), |data|, maxY));
    }
  }

  lemma BuiltKeysUpTo(level: seq<Segment>, epsilon: Word, entries: seq<Entry>, beyond: int, cap: int)
    requires BuiltOver(level, epsilon, entries, beyond, cap)
    ensures |level| > 1 && forall j | 0 <= j < Count(level) :: level[j].key <= beyond
  {
    var cuts :| Built(level, epsilon, entries, beyond, cap, cuts) && KeysFrom(level, entries, beyond, cuts)
             && FlatIffSingle(level, entries, cuts);
  }

  /** Above the bottom level every step holds. */
  lemma StepAbove(levels: seq<seq<Segment>>, epsilonRecursive: Word, n: nat, maxY: nat, beyond: int, l: nat, u: nat, k: int)
    requires 0 < l && u == l + 1 < |levels| && Stacked(levels, epsilonRecursive, n, maxY, beyond)
    ensures |levels[l]| >= 2 && |levels[u]| >= 2 && StepHolds(levels[l], levels[u], epsilonRecursive, n, k)
  {
    assert LevelOver(levels[l - 1], levels[l], epsilonRecursive, n, maxY, beyond);
    assert LevelOver(levels[l], levels[u], epsilonRecursive, n, maxY, beyond);
  }

  /** The scan from the level above starts at or before the segment responsible for `k`. */
  ghost predicate ScanReaches(below: seq<Segment>, above: seq<Segment>, epsilonRecursive: nat, k: int) {
    forall t: nat, i: nat {:trigger Responsible(above, k, t), Responsible(below, k, i)}
      | Responsible(above, k, t) && Responsible(below, k, i) ::
      && t + 1 < |above| && above[t].slope.dx > 0 && Capped(above, t, k) >= 0
      && SubEps(Capped(above, t, k), epsilonRecursive + 1) <= i
  }

  lemma StepReaches(levels: seq<seq<Segment>>, epsilon: Word, epsilonRecursive: Word, data: seq<Entry>,
                    maxY: nat, beyond: int, l: nat, u: nat, k: int)
    requires u == l + 1 < |levels| && Tower(levels, epsilon, epsilonRecursive, data, maxY, beyond)
    requires data[0].x <= k < KEY_MAX
    ensures |levels[l]| >= 2 && |levels[u]| >= 2
    ensures ScanReaches(levels[l], levels[u], epsilonRecursive, k)
       <==> StepHolds(levels[l], levels[u], epsilonRecursive, |data|, k)
  {
    FirstKeys(levels, epsilon, epsilonRecursive, data, maxY, beyond, u);
    assert LevelOver(levels[l], levels[u], epsilonRecursive, |data|, maxY, beyond);
    var t := LastAtMost(levels[u], k);
    var i := StepExact(levels, epsilon, epsilonRecursive, data, maxY, beyond, l, u, k, t);
    OneScan(levels[l], levels[u], epsilonRecursive, k, t, i);
  }

  /** Each level has one responsible segment for a key, so there is one scan. */
  lemma OneScan(below: seq<Segment>, above: seq<Segment>, epsilonRecursive: nat, k: int, t: nat, i: nat)
    requires Responsible(above, k, t) && Responsible(below, k, i)
    requires above[t].slope.dx > 0 && Capped(above, t, k) >= 0
    ensures ScanReaches(below, above, epsilonRecursive, k) <==> Capped(above, t, k) <= i + 1 + epsilonRecursive
  {
    forall t': nat, i': nat | Responsible(above, k, t') && Responsible(below, k, i')
      ensures t' == t && i' == i
    {
      assert !(t < t') && !(t' < t) && !(i < i') && !(i' < i);
    }
  }

  lemma LastAtMost(level: seq<Segment>, k: int) returns (t: nat)
    requires |level| > 1 && level[0].key <= k
    ensures Responsible(level, k, t)
  {
    t := Count(level) - 1;
    while level[t].key > k
      invariant t < Count(level) && forall u | t < u < Count(level) :: k < level[u].key
      decreases t
    {
      t := t - 1;
    }
  }

  /** The descent for `k` starts every scan at or before its goal if and only if `KeyHolds`. */
  lemma DescentExactly(levels: seq<seq<Segment>>, epsilon: Word, epsilonRecursive: Word, data: seq<Entry>,
                       maxY: nat, beyond: int, k: int)
    requires Tower(levels, epsilon, epsilonRecursive, data, maxY, beyond) && data[0].x <= k < KEY_MAX
    ensures KeyHolds(levels, epsilonRecursive, |data|, k)
       <==> forall l, u {:trigger levels[l], levels[u]} | 0 <= l < |levels| - 1 && u == l + 1 ::
              ScanReaches(levels[l], levels[u], epsilonRecursive, k)
  {
    forall l: nat, u: nat {:trigger levels[l], levels[u]} | u == l + 1 < |levels|
      ensures ScanReaches(levels[l], levels[u], epsilonRecursive, k)
         <==> l > 0 || KeyHolds(levels, epsilonRecursive, |data|, k)
    {
      StepReaches(levels, epsilon, epsilonRecursive, data, maxY, beyond, l, u, k);
      if l > 0 { StepAbove(levels, epsilonRecursive, |data|, maxY, beyond, l, u, k); }
    }
  }

  /** Every key up to the last stored one can be looked up, whatever the sentinels are. */
  lemma StoredKeysHold(levels: seq<seq<Segment>>, epsilon: Word, epsilonRecursive: Word, data: seq<Entry>,
                       maxY: nat, beyond: int, k: int)
    requires Tower(levels, epsilon, epsilonRecursive, data, maxY, beyond) && Core(data) == data
    requires k <= data[|data| - 1].x < beyond
    ensures KeyHolds(levels, epsilonRecursive, |data|, k)
  {
    if |levels| >= 2 && |levels[0]| >= 2 && Count(levels[0]) == |data| {
      assert LevelOver(levels[0], levels[1], epsilonRecursive, |data|, maxY, beyond);
      FullLevelEndsFlat(levels[0], epsilon, data, beyond, maxY);
    }
  }

  /** Three segments over three keys: the last one is the flat one past the last key. */
  lemma FullLevelEndsFlat(level: seq<Segment>, epsilon: Word, data: seq<Entry>, beyond: int, cap: int)
    requires BuiltOver(level, epsilon, data, beyond, cap) && |data| == 3 && |level| == 4 && Core(data) == data
    ensures level[2].key == beyond
  {
    var cuts :| Built(level, epsilon, data, beyond, cap, cuts) && KeysFrom(level, data, beyond, cuts)
             && FlatIffSingle(level, data, cuts);
    ThreeBlocks(cuts);
  }

  lemma ThreeBlocks(cuts: seq<nat>)
    requires Cuts(cuts, 3)
    ensures |cuts| <= 4 && (|cuts| == 4 ==> cuts[3] == cuts[2] + 1)
  {
    if |cuts| >= 4 { assert 0 == cuts[0] < cuts[1] < cuts[2] < cuts[3] <= 3; }
  }

  /** Without exactly three keys, or with positions up to 3, every key can be looked up. */
  lemma OtherSizesHold(levels: seq<seq<Segment>>, epsilon: Word, epsilonRecursive: Word, data: seq<Entry>,
                       maxY: nat, beyond: int, k: int)
    requires Tower(levels, epsilon, epsilonRecursive, data, maxY, beyond) && (|data| != 3 || maxY <= 3)
    ensures KeyHolds(levels, epsilonRecursive, |data|, k)
  {
    if |levels| >= 2 {
      assert LevelOver(levels[0], levels[1], epsilonRecursive, |data|, maxY, beyond);
      if Count(levels[0]) == |data| {
        var entries := IndexEntries(levels[0]);
        var cuts :| Built(levels[1], epsilonRecursive, entries, beyond, maxY, cuts);
        GoodSentinel(levels[1], epsilonRecursive, entries, beyond, maxY, cuts, k);
      }
    }
  }

  /** Every key can be looked up if and only if the largest one can. */
  lemma LargestKeyHolds(levels: seq<seq<Segment>>, epsilon: Word, epsilonRecursive: Word, data: seq<Entry>,
                        maxY: nat, beyond: int, k: int)
    requires Tower(levels, epsilon, epsilonRecursive, data, maxY, beyond) && k < KEY_MAX
    requires KeyHolds(levels, epsilonRecursive, |data|, KEY_MAX - 1)
    ensures KeyHolds(levels, epsilonRecursive, |data|, k)
  {
    if |levels| >= 2 {
      assert LevelOver(levels[0], levels[1], epsilonRecursive, |data|, maxY, beyond);
      if Count(levels[0]) == |data| && levels[0][|data| - 1].key < KEY_MAX {
        var entries := IndexEntries(levels[0]);
        var cuts :| Built(levels[1], epsilonRecursive, entries, beyond, maxY, cuts);
        LargestKeyDecides(levels[1], epsilonRecursive, entries, beyond, maxY, cuts, k);
      }
    }
  }

  lemma EarlierKeys(level: seq<Segment>, k: int, i: nat)
    requires 1 < |level| <= SIZE_MAX && Indexed(IndexEntries(level)) && i < |level| - 1 && level[i].key <= k
    ensures forall j | 0 <= j <= i :: level[j].key <= k
  {
    var keys := IndexEntries(level);
    forall j | 0 <= j <= i ensures level[j].key <= k {
      assert keys[j].x <= keys[i].x;
    }
  }

  lemma TopResponsible(levels: seq<seq<Segment>>, epsilon: Word, epsilonRecursive: Word, data: seq<Entry>,
                       maxY: nat, beyond: int, k: int)
    requires |levels| > 0 && |data| > 0 && BuiltOver(levels[0], epsilon, data, beyond, maxY)
    requires Stacked(levels, epsilonRecursive, |data|, maxY, beyond)
    requires |levels[|levels| - 1]| == 2 && data[0].x <= k
    ensures Responsible(levels[|levels| - 1], k, 0)
  {
    FirstKeys(levels, epsilon, epsilonRecursive, data, maxY, beyond, |levels| - 1);
  }

  lemma BottomOffset(segments: seq<Segment>, offsets: seq<nat>, levels: seq<seq<Segment>>)
    requires Layout(segments, offsets, levels) && |levels| > 0
    ensures offsets[0] == 0 && offsets[1] == |levels[0]| <= |segments|
    ensures forall t | 0 <= t < |levels[0]| :: segments[t] == levels[0][t]
  {
    LevelAt(segments, offsets, levels, 0);
  }

  /** Without upper levels the bottom level is searched directly. */
  method FlatLookup(segments: seq<Segment>, offsets: seq<nat>, ghost levels: seq<seq<Segment>>, ghost epsilon: Word,
                    ghost data: seq<Entry>, ghost maxY: nat, ghost beyond: int, k: int)
    returns (it: nat)
    requires Layout(segments, offsets, levels) && |levels| == 1 && Stackable(levels[0], |data|, beyond)
    requires |data| > 0 && BuiltOver(levels[0], epsilon, data, beyond, maxY) && data[0].x <= k
    ensures Responsible(levels[0], k, it)
  {
    BottomOffset(segments, offsets, levels);
    FirstKeys(levels, epsilon, 0, data, maxY, beyond, 0);
    it := FlatSearch(segments, offsets[1] - 1, k, levels[0]);
  }

  method FlatSearch(segments: seq<Segment>, count: nat, k: int, ghost level: seq<Segment>) returns (it: nat)
    requires 1 < |level| <= SIZE_MAX && |level| <= |segments| && count == Count(level)
    requires forall t | 0 <= t < |level| :: segments[t] == level[t]
    requires Indexed(IndexEntries(level)) && level[0].key <= k
    ensures Responsible(level, k, it)
  {
    ghost var i := LastAtMost(level, k);
    EarlierKeys(level, k, i);
    var r := UpperBound(segments, 0, count, k, i + 1);
    it := r - 1;
  }

  /** The levels of an index over `data`. */
  ghost predicate Tower(levels: seq<seq<Segment>>, epsilon: Word, epsilonRecursive: Word, data: seq<Entry>,
                        maxY: nat, beyond: int)
  {
    && |levels| > 0 && |data| > 0 && BuiltOver(levels[0], epsilon, data, beyond, maxY)
    && Stacked(levels, epsilonRecursive, |data|, maxY, beyond)
  }

  /** A key that the levels can be searched for. */
  ghost predicate Searchable(levels: seq<seq<Segment>>, epsilon: Word, epsilonRecursive: Word, data: seq<Entry>,
                             maxY: nat, beyond: int, k: int)
  {
    && Tower(levels, epsilon, epsilonRecursive, data, maxY, beyond)
    && data[0].x <= k < KEY_MAX && KeyHolds(levels, epsilonRecursive, |data|, k)
  }

  /** From the single segment of the top level down to the bottom level. On the
      way the first of two equal keys may be met; the bottom level has none. */
  method Descend(segments: seq<Segment>, offsets: seq<nat>, ghost levels: seq<seq<Segment>>, ghost epsilon: Word,
                 epsilonRecursive: Word, ghost data: seq<Entry>, ghost maxY: nat, ghost beyond: int, k: int)
    returns (it: nat)
    requires Layout(segments, offsets, levels) && |levels| > 0 && |levels[|levels| - 1]| == 2 && epsilonRecursive > 0
    requires Searchable(levels, epsilon, epsilonRecursive, data, maxY, beyond, k) && data[|data| - 1].x < beyond
    ensures Responsible(levels[0], k, it)
  {
    var height := |offsets| - 1;
    var l := height - 1;
    it := offsets[l];
    TopResponsible(levels, epsilon, epsilonRecursive, data, maxY, beyond, k);
    ghost var t: nat := 0;
    while l > 0
      invariant 0 <= l < height == |levels|
      invariant it == offsets[l] + t && Lands(levels[l], k, t)
      decreases l
    {
      var below := l - 1;
      it, t := DescendStep(segments, offsets, levels, epsilon, epsilonRecursive, data, maxY, beyond, k, below, l, it, t);
      l := below;
    }
    LandsAtBottom(levels, epsilon, epsilonRecursive, data, maxY, beyond, k, t);
  }

  /** On the bottom level there are no two equal keys. */
  lemma LandsAtBottom(levels: seq<seq<Segment>>, epsilon: Word, epsilonRecursive: Word, data: seq<Entry>,
                      maxY: nat, beyond: int, k: int, t: nat)
    requires Tower(levels, epsilon, epsilonRecursive, data, maxY, beyond) && data[|data| - 1].x < beyond
    requires Lands(levels[0], k, t)
    ensures Responsible(levels[0], k, t)
  {
    BottomNotTied(levels[0], epsilon, data, beyond, maxY, k, t);
  }

  method DescendStep(segments: seq<Segment>, offsets: seq<nat>, ghost levels: seq<seq<Segment>>, ghost epsilon: Word,
                     epsilonRecursive: Word, ghost data: seq<Entry>, ghost maxY: nat, ghost beyond: int, k: int,
                     l: nat, u: nat, above: nat, ghost t: nat)
    returns (it: nat, ghost i: nat)
    requires Layout(segments, offsets, levels) && u == l + 1 < |levels| && epsilonRecursive > 0
    requires Searchable(levels, epsilon, epsilonRecursive, data, maxY, beyond, k)
    requires above == offsets[u] + t && Lands(levels[u], k, t)
    ensures it == offsets[l] + i && Lands(levels[l], k, i)
  {
    ghost var goal := StepLands(levels, epsilon, epsilonRecursive, data, maxY, beyond, l, u, k, t);
    i := Reached(goal, Capped(levels[u], t, k), epsilonRecursive);
    it := DescendOne(segments, offsets, levels, l, u, above, k, epsilonRecursive, t, goal);
  }

  lemma StackedAppend(levels: seq<seq<Segment>>, epsilonRecursive: Word, n: nat, maxY: nat, beyond: int, next: seq<Segment>)
    requires |levels| > 0 && Stacked(levels, epsilonRecursive, n, maxY, beyond)
    requires LevelOver(levels[|levels| - 1], next, epsilonRecursive, n, maxY, beyond)
    ensures Stacked(levels + [next], epsilonRecursive, n, maxY, beyond)
  {
  }
}
