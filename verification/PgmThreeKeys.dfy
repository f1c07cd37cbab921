/** The one input size at which the PGM index can carry a wrong sentinel: three
    keys. When exactly a key past the last one is looked up safely can be read
    off the three keys, their positions and the two epsilons. */
module PgmThreeKeys {
  import opened Geometry
  import opened Corridor
  import opened PiecewiseLinearModel
  import opened Segmentation
  import opened PgmSegment
  import opened PgmLevel
  import opened PgmIndex

  // ---- three ranges and a line

  /** The middle range meets the band between the outer two. */
  predicate OnALine(a: Range, b: Range, c: Range) {
    && b.lo * (c.x - a.x) <= a.hi * (c.x - b.x) + c.hi * (b.x - a.x)
    && a.lo * (c.x - b.x) + c.lo * (b.x - a.x) <= b.hi * (c.x - a.x)
  }

  lemma LineThrough(p: Point, q: Point, a: Range, b: Range, c: Range)
    requires p.x < q.x && Within(Minus(q, p), p, a) && Within(Minus(q, p), p, b) && Within(Minus(q, p), p, c)
    ensures Stabbable([a, b, c])
  {
    var run := [a, b, c];
    assert run[0] == a && run[1] == b && run[2] == c;
    assert LineStabs(p, q, run);
    LatticeLineStabs(p, q, run);
  }

  /** Offsets of the three abscissas, from which all the products follow. */
  lemma WithinByProducts(p: Point, q: Point, r: Range)
    requires p.x < q.x
    requires (q.x - p.x) * (r.lo - p.y) <= (q.y - p.y) * (r.x - p.x) <= (q.x - p.x) * (r.hi - p.y)
    ensures Within(Minus(q, p), p, r)
  {
    var dx, dy := q.x - p.x, q.y - p.y;
    assert dx * (r.lo - p.y) == dx * r.lo - dx * p.y && dx * (r.hi - p.y) == dx * r.hi - dx * p.y;
    assert dy * (r.x - p.x) == dy * r.x - dy * p.x;
  }

  lemma AtStart(p: Point, q: Point, r: Range)
    requires p.x < q.x && r.x == p.x && r.lo <= p.y <= r.hi
    ensures Within(Minus(q, p), p, r)
  {
    MulMono(r.lo - p.y, 0, q.x - p.x);
    MulMono(0, r.hi - p.y, q.x - p.x);
    WithinByProducts(p, q, r);
  }

  lemma AtEnd(p: Point, q: Point, r: Range)
    requires p.x < q.x && r.x == q.x && r.lo <= q.y <= r.hi
    ensures Within(Minus(q, p), p, r)
  {
    MulMono(r.lo - p.y, q.y - p.y, q.x - p.x);
    MulMono(q.y - p.y, r.hi - p.y, q.x - p.x);
    WithinByProducts(p, q, r);
  }

  lemma ProductsWithin(p: Point, q: Point, r: Range)
    requires p.x < q.x && Within(Minus(q, p), p, r)
    ensures (q.x - p.x) * (r.lo - p.y) <= (q.y - p.y) * (r.x - p.x) <= (q.x - p.x) * (r.hi - p.y)
  {
    var dx, dy := q.x - p.x, q.y - p.y;
    assert dx * (r.lo - p.y) == dx * r.lo - dx * p.y && dx * (r.hi - p.y) == dx * r.hi - dx * p.y;
    assert dy * (r.x - p.x) == dy * r.x - dy * p.x;
  }

  lemma BandMeets(a: Range, b: Range, c: Range)
    requires a.x < b.x < c.x && a.lo <= a.hi && b.lo <= b.hi && c.lo <= c.hi && OnALine(a, b, c)
    ensures Stabbable([a, b, c])
  {
    var u, v := b.x - a.x, c.x - b.x;
    assert c.x - a.x == u + v;
    if b.lo * (u + v) <= a.lo * v + c.lo * u {
      EndsLine(End(Lower, a), End(Lower, c), a, b, c);
    } else if a.hi * v + c.hi * u <= b.hi * (u + v) {
      EndsLine(End(Upper, a), End(Upper, c), a, b, c);
    } else if b.lo * (u + v) - a.lo * v <= c.hi * u {
      LeftLine(a, b, c);
    } else {
      RightLine(a, b, c);
    }
  }

  lemma EndsLine(p: Point, q: Point, a: Range, b: Range, c: Range)
    requires a.x < b.x < c.x && p.x == a.x && q.x == c.x && a.lo <= p.y <= a.hi && c.lo <= q.y <= c.hi
    requires b.lo * (c.x - a.x) <= p.y * (c.x - b.x) + q.y * (b.x - a.x) <= b.hi * (c.x - a.x)
    ensures Stabbable([a, b, c])
  {
    AtStart(p, q, a);
    Inner(b.lo, b.hi, p.y, q.y, b.x - a.x, c.x - b.x);
    WithinByProducts(p, q, b);
    AtEnd(p, q, c);
    LineThrough(p, q, a, b, c);
  }

  lemma Inner(lo: int, hi: int, y: int, z: int, u: int, v: int)
    requires lo * (u + v) <= y * v + z * u <= hi * (u + v)
    ensures (u + v) * (lo - y) <= (z - y) * u <= (u + v) * (hi - y)
  {
    assert (u + v) * (lo - y) == lo * (u + v) - y * u - y * v;
    assert (u + v) * (hi - y) == hi * (u + v) - y * u - y * v;
    assert (z - y) * u == z * u - y * u;
  }

  /** Through the low ends of the first two. */
  lemma LeftLine(a: Range, b: Range, c: Range)
    requires a.x < b.x < c.x && a.lo <= a.hi && b.lo <= b.hi
    requires var u, v := b.x - a.x, c.x - b.x;
      a.lo * v + c.lo * u <= b.lo * (u + v) && b.lo * (u + v) - a.lo * v <= c.hi * u
    ensures Stabbable([a, b, c])
  {
    var p, q := End(Lower, a), End(Lower, b);
    AtStart(p, q, a);
    AtEnd(p, q, b);
    Beyond(a.lo, b.lo, c.lo, c.hi, b.x - a.x, c.x - b.x);
    WithinByProducts(p, q, c);
    LineThrough(p, q, a, b, c);
  }

  lemma Beyond(y: int, z: int, lo: int, hi: int, u: int, v: int)
    requires y * v + lo * u <= z * (u + v) && z * (u + v) - y * v <= hi * u
    ensures u * (lo - y) <= (z - y) * (u + v) <= u * (hi - y)
  {
    assert (z - y) * (u + v) == z * (u + v) - y * u - y * v;
    assert u * (lo - y) == lo * u - y * u && u * (hi - y) == hi * u - y * u;
  }

  /** Through the low end of the middle one and the high end of the last. */
  lemma RightLine(a: Range, b: Range, c: Range)
    requires a.x < b.x < c.x && b.lo <= b.hi && c.lo <= c.hi
    requires var u, v := b.x - a.x, c.x - b.x;
      c.hi * u <= b.lo * (u + v) - a.lo * v && b.lo * (u + v) <= a.hi * v + c.hi * u
    ensures Stabbable([a, b, c])
  {
    var p, q := End(Lower, b), End(Upper, c);
    Before(b.lo, c.hi, a.lo, a.hi, b.x - a.x, c.x - b.x);
    WithinByProducts(p, q, a);
    AtStart(p, q, b);
    AtEnd(p, q, c);
    LineThrough(p, q, a, b, c);
  }

  lemma Before(y: int, z: int, lo: int, hi: int, u: int, v: int)
    requires z * u <= y * (u + v) - lo * v && y * (u + v) <= hi * v + z * u
    ensures v * (lo - y) <= (z - y) * (0 - u) <= v * (hi - y)
  {
    assert y * (u + v) == y * u + y * v;
    assert (z - y) * (0 - u) == y * u - z * u;
    assert v * (lo - y) == lo * v - y * v && v * (hi - y) == hi * v - y * v;
  }

  /** Some line passes three ranges if and only if the middle one meets the band between the others. */
  lemma ThreeStabbable(a: Range, b: Range, c: Range)
    requires a.x < b.x < c.x && a.lo <= a.hi && b.lo <= b.hi && c.lo <= c.hi
    ensures Stabbable([a, b, c]) <==> OnALine(a, b, c)
  {
    if OnALine(a, b, c) {
      BandMeets(a, b, c);
    } else if b.lo * (c.x - a.x) > a.hi * (c.x - b.x) + c.hi * (b.x - a.x) {
      AboveBand(a, b, c);
    } else {
      BelowBand(a, b, c);
    }
  }

  lemma AboveBand(a: Range, b: Range, c: Range)
    requires a.x < b.x < c.x && b.lo * (c.x - a.x) > a.hi * (c.x - b.x) + c.hi * (b.x - a.x)
    ensures !Stabbable([a, b, c])
  {
    var run := [a, b, c];
    assert End(Upper, run[0]) == End(Upper, a) && End(Lower, run[1]) == End(Lower, b) && End(Upper, run[2]) == End(Upper, c);
    var u, v := b.x - a.x, c.x - b.x;
    assert b.lo * (u + v) - a.hi * (u + v) > c.hi * u - a.hi * u;
    ObstructionBlocks(Lower, End(Upper, a), End(Lower, b), End(Upper, c), run);
  }

  lemma BelowBand(a: Range, b: Range, c: Range)
    requires a.x < b.x < c.x && a.lo * (c.x - b.x) + c.lo * (b.x - a.x) > b.hi * (c.x - a.x)
    ensures !Stabbable([a, b, c])
  {
    var run := [a, b, c];
    assert End(Lower, run[0]) == End(Lower, a) && End(Upper, run[1]) == End(Upper, b) && End(Lower, run[2]) == End(Lower, c);
    var u, v := b.x - a.x, c.x - b.x;
    assert b.hi * (u + v) - a.lo * (u + v) < c.lo * u - a.lo * u;
    ObstructionBlocks(Upper, End(Lower, a), End(Upper, b), End(Lower, c), run);
  }

  // ---- the bottom level over three keys

  lemma AloneCuts(points: seq<Range>, cuts: seq<nat>)
    requires |points| == 3 && Ordered(points) && GreedyCuts(cuts, points)
    ensures Stabbable(points) ==> cuts == [0, 3]
    ensures !Stabbable(points) ==> cuts == [0, 2, 3]
  {
    PairsStabbable(points);
    assert points[0..3] == points;
    assert SpanStabs(points, 0, 2) && SpanStabs(points, 2, 3);
    if Stabbable(points) {
      assert SpanStabs(points, 0, 3);
      assert GreedyCuts([0, 3], points);
      GreedyIsUnique(cuts, [0, 3], points);
    } else {
      assert !SpanStabs(points, 0, 3);
      TwoAndOne(points);
      GreedyIsUnique(cuts, [0, 2, 3], points);
    }
  }

  lemma TwoAndOne(points: seq<Range>)
    requires |points| == 3 && SpanStabs(points, 0, 2) && SpanStabs(points, 2, 3) && !SpanStabs(points, 0, 3)
    ensures GreedyCuts([0, 2, 3], points)
  {
    var c := [0, 2, 3];
    forall i, j | 0 <= i < |c| - 1 && j == i + 1 ensures SpanStabs(points, c[i], c[j]) {
      assert i == 0 || i == 1;
    }
    forall i, j | 0 <= i < |c| - 2 && j == i + 1 ensures !SpanStabs(points, c[i], c[j] + 1) {
      assert i == 0;
    }
  }

  /** The ranges the bottom level is fitted to. */
  ghost predicate Fits3(data: seq<Entry>, epsilon: Word)
    requires |data| == 3
  {
    OnALine(ExactRange(epsilon, data[0].x, data[0].y), ExactRange(epsilon, data[1].x, data[1].y),
            ExactRange(epsilon, data[2].x, data[2].y))
  }

  lemma BottomPoints(data: seq<Entry>, epsilon: Word)
    requires |data| == 3 && Core(data) == data && AlmostStrict(data)
    ensures Ordered(CoreRanges(epsilon, data)) && |CoreRanges(epsilon, data)| == 3
    ensures Stabbable(CoreRanges(epsilon, data)) <==> Fits3(data, epsilon)
  {
    CoreStrict(data);
    var p := CoreRanges(epsilon, data);
    assert p == [p[0], p[1], p[2]];
    ThreeStabbable(p[0], p[1], p[2]);
  }

  /** One line for all three keys: one segment. Otherwise the last key is alone
      and gets a flat segment after it. */
  lemma BottomShape(level: seq<Segment>, epsilon: Word, data: seq<Entry>)
    requires |data| == 3 && Core(data) == data && AlmostStrict(data) && ByGreedy(level, epsilon, data)
    ensures Fits3(data, epsilon) ==> |level| == 2
    ensures !Fits3(data, epsilon) ==> |level| == 4 && level[0].key == data[0].x && level[1].key == data[2].x
  {
    BottomPoints(data, epsilon);
    var points := CoreRanges(epsilon, data);
    var cuts :| Fitted(level, epsilon, data, cuts) && |cuts| <= |level| <= |cuts| + 1 && FlatIffSingle(level, data, cuts);
    AloneCuts(points, cuts);
    if !Fits3(data, epsilon) {
      var segments: seq<CanonicalSegment> :| SegmentsFit(segments, cuts, points) && Stores(level, segments, |segments|);
      StoredKey(level, segments, cuts, points, 0);
      StoredKey(level, segments, cuts, points, 1);
    }
  }

  lemma StoredKey(level: seq<Segment>, segments: seq<CanonicalSegment>, cuts: seq<nat>, points: seq<Range>, t: nat)
    requires SegmentsFit(segments, cuts, points) && Stores(level, segments, |segments|) && t < |segments|
    ensures cuts[t] < |points| && level[t].key == points[cuts[t]].x
  {
    assert Fits(segments[t], points[cuts[t]..cuts[t + 1]]);
    assert points[cuts[t]..cuts[t + 1]][0] == points[cuts[t]];
  }

  // ---- the level above

  /** The three entries above: two keys, `d` apart, and the next integer. */
  function AboveEntries(x: int, d: nat): seq<Entry> {
    [Entry(x, 0), Entry(x + d, 1), Entry(x + d + 1, 2)]
  }

  /** How far the one segment above predicts a key `z` past the first. */
  function Reach(d: nat, e: nat, z: nat): nat
    requires d > 0
  {
    if d > e then (1 + e) * z / d else (2 + e) * z / (d + 1)
  }

  lemma AbovePoints(x: int, d: nat, e: Word)
    requires d > 0 && 0 < e < SIZE_MAX - 2
    ensures var p := CoreRanges(e, AboveEntries(x, d));
      && p == [Range(x, 0, e), Range(x + d, 0, 1 + e), Range(x + d + 1, if e == 1 then 1 else 0, 2 + e)]
      && Ordered(p) && Stabbable(p)
  {
    var entries := AboveEntries(x, d);
    var p := CoreRanges(e, entries);
    assert entries[0] == Entry(x, 0) && entries[1] == Entry(x + d, 1) && entries[2] == Entry(x + d + 1, 2);
    TriplesStabbable(e, entries);
    assert SpanStabs(p, 0, 3) && p[0..3] == p;
  }

  /** The steepest line through the three ranges starts at the low end of the first. */
  lemma SteepestAbove(cs: CanonicalSegment, x: int, d: nat, e: Word)
    requires d > 0 && 0 < e < SIZE_MAX - 2 && Fits(cs, CoreRanges(e, AboveEntries(x, d)))
    ensures cs.first == x && cs.p1 == Point(x, 0)
    ensures (cs.p3 == Point(x + d, 1 + e) && d > e) || (cs.p3 == Point(x + d + 1, 2 + e) && d <= e + 1)
  {
    AbovePoints(x, d, e);
    var p := CoreRanges(e, AboveEntries(x, d));
    var s := Minus(cs.p3, cs.p1);
    assert Within(s, cs.p1, p[0]) && Within(s, cs.p1, p[1]) && Within(s, cs.p1, p[2]);
    var i :| 0 <= i < 3 && End(Lower, p[i]) == cs.p1;
    var j :| 0 <= j < 3 && End(Upper, p[j]) == cs.p3;
    if i == 0 && j == 1 {
      FirstToSecond(x, d, e, p[2]);
    } else if i == 0 && j == 2 {
      FirstToThird(x, d, e, p[1]);
    } else {
      SecondToThird(cs.p1, cs.p3, p[0], d, e);
    }
  }

  /** The line to the high end of the second range also passes the third. */
  lemma FirstToSecond(x: int, d: nat, e: nat, r: Range)
    requires d > 0 && r.x == x + d + 1 && r.hi == 2 + e
    requires Within(Minus(Point(x + d, 1 + e), Point(x, 0)), Point(x, 0), r)
    ensures d > e
  {
    ProductsWithin(Point(x, 0), Point(x + d, 1 + e), r);
    assert (1 + e) * (d + 1) == d + d * e + 1 + e && d * (2 + e) == 2 * d + d * e;
  }

  /** The line to the high end of the third range also passes the second. */
  lemma FirstToThird(x: int, d: nat, e: nat, r: Range)
    requires d > 0 && r.x == x + d && r.hi == 1 + e
    requires Within(Minus(Point(x + d + 1, 2 + e), Point(x, 0)), Point(x, 0), r)
    ensures d <= e + 1
  {
    ProductsWithin(Point(x, 0), Point(x + d + 1, 2 + e), r);
    assert (2 + e) * d == 2 * d + d * e && (d + 1) * (1 + e) == d + d * e + 1 + e;
  }

  /** A rising line from the second range to the third is below the first. */
  lemma SecondToThird(p: Point, q: Point, r: Range, d: nat, e: nat)
    requires d > 0 && p.x == r.x + d && q.x == p.x + 1 && p.y == r.lo == 0 && q.y == 2 + e
    ensures !Within(Minus(q, p), p, r)
  {
    if Within(Minus(q, p), p, r) {
      ProductsWithin(p, q, r);
      MulMono(1, d, 2 + e);
      assert false;
    }
  }

  lemma AbovePredicts(seg: Segment, cs: CanonicalSegment, x: int, d: nat, e: Word, k: int)
    requires d > 0 && 0 < e < SIZE_MAX - 2 && Fits(cs, CoreRanges(e, AboveEntries(x, d))) && k >= x
    requires cs.p1.x < cs.p3.x && seg == ToSegment(cs)
    ensures seg.slope.dx > 0 && Predict(seg, k) == Reach(d, e, k - x)
  {
    SteepestAbove(cs, x, d, e);
    AbovePoints(x, d, e);
    ReachValue(cs.p3.x - x, cs.p3.y, d, e, k - x);
    NoOffset(cs.p3.x - x, cs.p3.y);
  }

  lemma NoOffset(dx: nat, dy: int)
    requires dx > 0
    ensures dy * 0 == 0 && (dx / 2) / dx == 0
  {
    DivisionBounds(dx / 2, dx, 1);
    DivisionBounds(dx / 2, dx, 0);
  }

  lemma ReachValue(dx: nat, dy: nat, d: nat, e: nat, z: nat)
    requires d > 0 && ((dx == d && dy == 1 + e && d > e) || (dx == d + 1 && dy == 2 + e && d <= e + 1))
    ensures dy * z >= 0 && dy * z / dx == Reach(d, e, z)
  {
    MulMono(0, z, dy);
    if d == e + 1 && dx == d + 1 {
      OneSlope((1 + e) * z, d, z);
      OneSlope((2 + e) * z, d + 1, z);
    }
  }

  lemma OneSlope(n: nat, d: nat, z: nat)
    requires d > 0 && n == d * z
    ensures n / d == z
  {
    DivisionBounds(n, d, z);
    DivisionBounds(n, d, z + 1);
  }

  lemma AboveShape(level: seq<Segment>, x: int, d: nat, e: Word, k: int)
    requires d > 0 && 0 < e < SIZE_MAX - 2 && ByGreedy(level, e, AboveEntries(x, d)) && k >= x
    ensures |level| == 2 && level[0].slope.dx > 0 && Predict(level[0], k) == Reach(d, e, k - x)
  {
    AbovePoints(x, d, e);
    var points := CoreRanges(e, AboveEntries(x, d));
    var cuts :| Fitted(level, e, AboveEntries(x, d), cuts) && |cuts| <= |level| <= |cuts| + 1
             && FlatIffSingle(level, AboveEntries(x, d), cuts);
    AloneCuts(points, cuts);
    var segments: seq<CanonicalSegment> :| SegmentsFit(segments, cuts, points) && Stores(level, segments, |segments|);
    assert points[0..3] == points;
    assert Fits(segments[0], points[cuts[0]..cuts[1]]);
    AbovePredicts(level[0], segments[0], x, d, e, k);
  }

  // ---- the condition on the data

  /** A key can be looked up: it is not past the last one, or the size of the level
      above is right, or that level does not predict the key too far. */
  ghost predicate LookupSafe(data: seq<Entry>, epsilon: Word, e: Word, maxY: nat, k: int)
    requires |data| == 3 ==> data[0].x < data[2].x
  {
    |data| != 3 || k <= data[2].x || Fits3(data, epsilon) || maxY <= 3 + e
    || (data[0].x < k && Reach(data[2].x - data[0].x, e, k - data[0].x) <= 3 + e)
  }

  /** For every index as it is built: the descent for a key starts every scan in
      time if and only if the key is safe by the data alone. */
  lemma SafeOnData(levels: seq<seq<Segment>>, epsilon: Word, e: Word, data: seq<Entry>, maxY: nat, k: int)
    requires Core(data) == data && Indexed(data) && 0 < e < SIZE_MAX - 2
    requires Tower(levels, epsilon, e, data, maxY, data[|data| - 1].x + 1) && Greedy(levels, epsilon, e, data)
    requires |levels[|levels| - 1]| == 2 && data[0].x <= k
    ensures |data| == 3 ==> data[0].x < data[2].x
    ensures KeyHolds(levels, e, |data|, k) <==> LookupSafe(data, epsilon, e, maxY, k)
  {
    var beyond := data[|data| - 1].x + 1;
    CoreStrict(data);
    if |data| != 3 {
      OtherSizesHold(levels, epsilon, e, data, maxY, beyond, k);
    } else {
      BottomShape(levels[0], epsilon, data);
      if Fits3(data, epsilon) {
        assert |levels| >= 2 ==> LevelOver(levels[0], levels[1], e, 3, maxY, beyond);
      } else {
        assert |levels| >= 2;
        assert LevelOver(levels[0], levels[1], e, 3, maxY, beyond);
        FullLevelEndsFlat(levels[0], epsilon, data, beyond, maxY);
        TopOverThree(levels, e, data, maxY, beyond, k);
      }
    }
  }

  lemma TopOverThree(levels: seq<seq<Segment>>, e: Word, data: seq<Entry>, maxY: nat, beyond: int, k: int)
    requires |levels| >= 2 && |data| == 3 && data[0].x < data[2].x && beyond == data[2].x + 1 && 0 < e < SIZE_MAX - 2
    requires |levels[0]| == 4 && levels[0][0].key == data[0].x && levels[0][1].key == data[2].x && levels[0][2].key == beyond
    requires LevelOver(levels[0], levels[1], e, 3, maxY, beyond) && NextByGreedy(levels, e, 0) && k >= data[0].x
    ensures EndReach(levels[1], k, 3 + e) <==> maxY <= 3 + e || Reach(data[2].x - data[0].x, e, k - data[0].x) <= 3 + e
  {
    var d := data[2].x - data[0].x;
    var entries := IndexEntries(levels[0]);
    ThreeAbove(levels[0], data[0].x, d);
    AboveShape(levels[1], data[0].x, d, e, k);
    SentinelCarries(levels[1], e, entries, beyond, maxY);
  }

  lemma ThreeAbove(level: seq<Segment>, x: int, d: nat)
    requires |level| == 4 && level[0].key == x && level[1].key == x + d && level[2].key == x + d + 1
    ensures IndexEntries(level) == AboveEntries(x, d)
  {
  }

  lemma SentinelCarries(level: seq<Segment>, e: Word, entries: seq<Entry>, beyond: int, cap: int)
    requires BuiltOver(level, e, entries, beyond, cap)
    ensures |level| > 0 && level[|level| - 1].intercept == cap
  {
  }

  // ---- an index that fails

  /** Keys 0, 1 and 1000 at positions 0, 0 and 1000000. */
  function FailingData(): seq<Entry> {
    [Entry(0, 0), Entry(1, 0), Entry(1000, 1000000)]
  }

  lemma FailingIsUnsafe()
    ensures var data := FailingData();
      Core(data) == data && Indexed(data) && !LookupSafe(data, 4, 4, 1000000, 1000000000)
  {
    var data := FailingData();
    assert data[0] == Entry(0, 0) && data[1] == Entry(1, 0) && data[2] == Entry(1000, 1000000);
    assert !Fits3(data, 4);
    assert Reach(1000, 4, 1000000000) == 5000000;
  }

  /** No index over these data can look up key 1000000000. */
  lemma FailingTower(levels: seq<seq<Segment>>)
    requires Tower(levels, 4, 4, FailingData(), 1000000, 1001) && Greedy(levels, 4, 4, FailingData())
    requires |levels[|levels| - 1]| == 2
    ensures exists l, u {:trigger levels[l], levels[u]} | 0 <= l < |levels| - 1 && u == l + 1 ::
      !ScanReaches(levels[l], levels[u], 4, 1000000000)
  {
    FailingIsUnsafe();
    SafeOnData(levels, 4, 4, FailingData(), 1000000, 1000000000);
    DescentExactly(levels, 4, 4, FailingData(), 1000000, 1001, 1000000000);
  }

  /** Building it succeeds; some scan of the descent starts past its goal. */
  method OvershootingIndex() returns (index: PGMIndexPage)
    ensures index.Valid() && index.data == FailingData() && index.epsilonValue == index.epsilonRecursive == 4
    ensures BuiltOver(index.levels[0], 4, FailingData(), 1001, 1000000) && ByGreedy(index.levels[0], 4, FailingData())
    ensures exists l, u {:trigger index.levels[l], index.levels[u]} | 0 <= l < |index.levels| - 1 && u == l + 1 ::
      !ScanReaches(index.levels[l], index.levels[u], 4, 1000000000)
  {
    var data := FailingData();
    FailingIsUnsafe();
    index := new PGMIndexPage(4, 4, data, 1);
    FailingTower(index.levels);
  }
}
