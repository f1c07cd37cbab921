/** The greedy error corridor of the spline builders. The upper test is
    strict and the lower one is not: a candidate must lie strictly below the
    upper limit, while lying on the lower limit is accepted. */
module SplineCorridor {
  import opened Geometry

  /** A key with its position and the bounds the spline must respect there. */
  datatype Sample = Sample(x: int, y: int, lo: int, hi: int)

  ghost predicate Bounded(q: Sample) {
    q.lo <= q.y <= q.hi
  }

  function At(q: Sample): Point {
    Point(q.x, q.y)
  }

  function Top(q: Sample): Point {
    Point(q.x, q.hi)
  }

  function Bottom(q: Sample): Point {
    Point(q.x, q.lo)
  }

  datatype Orientation = Collinear | CW | CCW

  /** `ComputeOrientation`, in exact arithmetic. */
  function ComputeOrientation(d1: Slope, d2: Slope): Orientation {
    var expr := d1.dy * d2.dx - d2.dy * d1.dx;
    if expr > 0 then CW else if expr < 0 then CCW else Collinear
  }

  lemma OrientationIsOrder(d1: Slope, d2: Slope)
    ensures ComputeOrientation(d1, d2) == CW <==> Less(d2, d1)
    ensures ComputeOrientation(d1, d2) == CCW <==> Less(d1, d2)
  {
  }

  /** Does adding `p` leave the corridor from `last` between the two limits? */
  function CutsCorridor(last: Point, upper: Point, lower: Point, p: Point): bool {
    || ComputeOrientation(Minus(upper, last), Minus(p, last)) != CW
    || ComputeOrientation(Minus(lower, last), Minus(p, last)) == CW
  }

  /** The line from `last` to `p` passes below the top of `q` and not below its bottom. */
  ghost predicate PassesThrough(last: Point, p: Point, q: Sample) {
    && Less(Minus(p, last), Minus(Top(q), last))
    && AtMost(Minus(Bottom(q), last), Minus(p, last))
  }

  /** The sample lies strictly right of `p`, and not below it. */
  ghost predicate Ahead(p: Point, q: Sample) {
    p.x < q.x && p.y <= q.y && Bounded(q)
  }

  ghost predicate UnderTops(last: Point, window: seq<Sample>, upper: Point) {
    forall i {:trigger Top(window[i])} | 0 <= i < |window| :: AtMost(Minus(upper, last), Minus(Top(window[i]), last))
  }

  ghost predicate OverBottoms(last: Point, window: seq<Sample>, lower: Point) {
    forall i {:trigger Bottom(window[i])} | 0 <= i < |window| :: AtMost(Minus(Bottom(window[i]), last), Minus(lower, last))
  }

  /** The open corridor: `window` holds the samples since the last spline point,
      the last of them is the candidate `prev`; the limits are the flattest top
      and the steepest bottom seen from `last`. */
  ghost predicate OpenCorridor(last: Point, window: seq<Sample>, prev: Point, upper: Point, lower: Point) {
    && |window| > 0 && At(window[|window| - 1]) == prev
    && last.x < upper.x && last.x < lower.x && last.x < prev.x && last.y <= prev.y
    && (forall i {:trigger Ahead(last, window[i])} | 0 <= i < |window| :: Ahead(last, window[i]))
    && (forall i {:trigger Ahead(At(window[i]), window[|window| - 1])} | 0 <= i < |window| - 1 ::
          Ahead(At(window[i]), window[|window| - 1]))
    && UnderTops(last, window, upper) && OverBottoms(last, window, lower)
    && (forall i {:trigger PassesThrough(last, prev, window[i])} | 0 <= i < |window| - 1 ::
          PassesThrough(last, prev, window[i]))
  }

  lemma FreshCorridor(last: Point, q: Sample)
    requires last.x < q.x && last.y <= q.y && Bounded(q)
    ensures OpenCorridor(last, [q], At(q), Top(q), Bottom(q))
  {
  }

  /** A point inside the corridor passes through every sample of the window. */
  lemma InsideCorridor(last: Point, window: seq<Sample>, prev: Point, upper: Point, lower: Point, p: Point, i: nat)
    requires OpenCorridor(last, window, prev, upper, lower) && i < |window| && last.x < p.x
    requires !CutsCorridor(last, upper, lower, p)
    ensures PassesThrough(last, p, window[i])
  {
    var s, u, l := Minus(p, last), Minus(upper, last), Minus(lower, last);
    assert Ahead(last, window[i]);
    OrientationIsOrder(u, s);
    OrientationIsOrder(l, s);
    SlopeTransitive(s, u, Minus(Top(window[i]), last));
    SlopeTransitive(Minus(Bottom(window[i]), last), l, s);
  }

  function NarrowUpper(last: Point, upper: Point, q: Sample): Point {
    if ComputeOrientation(Minus(upper, last), Minus(Top(q), last)) != CCW then Top(q) else upper
  }

  function NarrowLower(last: Point, lower: Point, q: Sample): Point {
    if ComputeOrientation(Minus(lower, last), Minus(Bottom(q), last)) != CW then Bottom(q) else lower
  }

  lemma UpperNarrows(last: Point, window: seq<Sample>, upper: Point, q: Sample)
    requires last.x < upper.x && last.x < q.x && UnderTops(last, window, upper)
    requires forall i {:trigger Ahead(last, window[i])} | 0 <= i < |window| :: Ahead(last, window[i])
    ensures last.x < NarrowUpper(last, upper, q).x && UnderTops(last, window + [q], NarrowUpper(last, upper, q))
  {
    var w, u := window + [q], NarrowUpper(last, upper, q);
    OrientationIsOrder(Minus(upper, last), Minus(Top(q), last));
    forall i | 0 <= i < |w| ensures AtMost(Minus(u, last), Minus(Top(w[i]), last)) {
      if i < |window| {
        assert Ahead(last, window[i]) && AtMost(Minus(upper, last), Minus(Top(window[i]), last));
        SlopeTransitive(Minus(u, last), Minus(upper, last), Minus(Top(window[i]), last));
      }
    }
  }

  lemma LowerNarrows(last: Point, window: seq<Sample>, lower: Point, q: Sample)
    requires last.x < lower.x && last.x < q.x && OverBottoms(last, window, lower)
    requires forall i {:trigger Ahead(last, window[i])} | 0 <= i < |window| :: Ahead(last, window[i])
    ensures last.x < NarrowLower(last, lower, q).x && OverBottoms(last, window + [q], NarrowLower(last, lower, q))
  {
    var w, l := window + [q], NarrowLower(last, lower, q);
    OrientationIsOrder(Minus(lower, last), Minus(Bottom(q), last));
    forall i | 0 <= i < |w| ensures AtMost(Minus(Bottom(w[i]), last), Minus(l, last)) {
      if i < |window| {
        assert Ahead(last, window[i]) && AtMost(Minus(Bottom(window[i]), last), Minus(lower, last));
        SlopeTransitive(Minus(Bottom(window[i]), last), Minus(lower, last), Minus(l, last));
      }
    }
  }

  /** A sample inside the corridor narrows it and becomes the candidate. */
  lemma ExtendCorridor(last: Point, window: seq<Sample>, prev: Point, upper: Point, lower: Point, q: Sample)
    requires OpenCorridor(last, window, prev, upper, lower) && Bounded(q)
    requires prev.x < q.x && prev.y <= q.y && !CutsCorridor(last, upper, lower, At(q))
    ensures OpenCorridor(last, window + [q], At(q), NarrowUpper(last, upper, q), NarrowLower(last, lower, q))
  {
    UpperNarrows(last, window, upper, q);
    LowerNarrows(last, window, lower, q);
    var w, n := window + [q], |window| - 1;
    forall i | 0 <= i < |window| ensures Ahead(last, w[i]) && Ahead(At(w[i]), q) && PassesThrough(last, At(q), w[i]) {
      assert Ahead(last, window[i]);
      if i < n { assert Ahead(At(window[i]), window[n]); }
      InsideCorridor(last, window, prev, upper, lower, At(q), i);
    }
    assert Ahead(last, q);
  }

  // ---- what a finished spline segment promises

  /** `GetEstimatedPosition` on a segment: truncated interpolation. */
  function Interpolate(down: Point, up: Point, x: int): int
    requires down.x < up.x
  {
    (x - down.x) * (up.y - down.y) / (up.x - down.x) + down.y
  }

  /** The estimate at the sample is exact, or at least its bottom and strictly below its top. */
  ghost predicate Hits(down: Point, up: Point, q: Sample)
    requires down.x < up.x
  {
    var e := Interpolate(down, up, q.x);
    e == q.y || q.lo <= e < q.hi
  }

  lemma PassingHits(last: Point, p: Point, q: Sample)
    requires last.x < q.x && last.x < p.x && PassesThrough(last, p, q)
    ensures Hits(last, p, q)
  {
    var d, n := p.x - last.x, (q.x - last.x) * (p.y - last.y);
    DivisionBounds(n, d, q.hi - last.y);
    DivisionBounds(n, d, q.lo - last.y);
  }

  /** Closing the corridor at the candidate: every sample of the window is hit. */
  lemma CloseCorridor(last: Point, window: seq<Sample>, prev: Point, upper: Point, lower: Point, i: nat)
    requires OpenCorridor(last, window, prev, upper, lower) && i < |window|
    ensures Ahead(last, window[i]) && window[i].x <= prev.x && Hits(last, prev, window[i])
  {
    assert Ahead(last, window[i]);
    assert i < |window| - 1 ==> Ahead(At(window[i]), window[|window| - 1]);
    if i < |window| - 1 {
      PassingHits(last, prev, window[i]);
    } else {
      var d := prev.x - last.x;
      assert d * (prev.y - last.y) / d == prev.y - last.y by {
        DivisionBounds(d * (prev.y - last.y), d, prev.y - last.y);
        DivisionBounds(d * (prev.y - last.y), d, prev.y - last.y + 1);
      }
    }
  }
}
