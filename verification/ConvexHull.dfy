/** The partial convex hulls of the streaming piecewise-linear model: finding
    the tangent from a new point by a scan that stops early, and restoring
    convexity after appending a point. */
module ConvexHull {
  import opened Geometry
  import opened Corridor

  /** Keys increase along the chain and every three points bend the same way. */
  ghost predicate Chain(side: Side, c: seq<Point>) {
    && (forall i, j | 0 <= i < j < |c| :: c[i].x < c[j].x)
    && (forall i, j, k {:trigger Bends(side, c[i], c[j], c[k])} | 0 <= i < j < k < |c| :: Bends(side, c[i], c[j], c[k]))
  }

  /** For lines of direction `s`, some point of `c` is at least as restrictive as `p`. */
  ghost predicate Covered(side: Side, s: Slope, p: Point, c: seq<Point>) {
    exists k {:trigger Height(side, s, c[k])} | 0 <= k < |c| :: Height(side, s, p) <= Height(side, s, c[k])
  }

  /** The line of direction `t` through `p` leaves the whole chain on its far side. */
  ghost predicate Clears(side: Side, t: Slope, p: Point, c: seq<Point>) {
    forall k {:trigger Height(side, t, c[k])} | 0 <= k < |c| :: Height(side, t, c[k]) <= Height(side, t, p)
  }

  // ---- tangents

  /** On a hull, once the direction to `p` gets worse it stays worse. */
  lemma WorseStaysWorse(side: Side, a: Point, b: Point, d: Point, p: Point)
    requires a.x < b.x < d.x < p.x && Bends(side, a, b, d)
    requires StrictRank(side, Minus(p, a), Minus(p, b))
    ensures StrictRank(side, Minus(p, a), Minus(p, d))
  {
    BendsIsRank(Opposite(side), a, b, p);
    BendsIsRank(side, a, b, d);
    RankTransitive(side, Minus(d, a), Minus(b, a), Minus(p, a));
    BendsIsRank(Opposite(side), a, d, p);
  }

  /** All chain points before the last lie before `p`; the last one either does
      too or is the far end of the very range whose near end is `p`. */
  ghost predicate Approaches(side: Side, c: seq<Point>, p: Point) {
    && |c| > 0 && c[0].x < p.x
    && (forall k | 0 <= k < |c| - 1 :: c[k].x < p.x)
    && var q := c[|c| - 1];
       q.x < p.x || (q.x == p.x && if side.Lower? then q.y < p.y else q.y > p.y)
  }

  lemma LastIsCleared(side: Side, t: Slope, p: Point, q: Point)
    requires t.dx > 0 && q.x == p.x && if side.Lower? then q.y < p.y else q.y > p.y
    ensures Height(side, t, q) <= Height(side, t, p)
  {
    if side.Lower? { MulMono(q.y, p.y, t.dx); } else { MulMono(p.y, q.y, t.dx); }
  }

  lemma WorseClears(side: Side, c: seq<Point>, i: nat, p: Point)
    requires Chain(side, c) && Approaches(side, c, p) && i + 1 < |c| && c[i].x < p.x
    requires c[i + 1].x < p.x ==> StrictRank(side, Minus(p, c[i]), Minus(p, c[i + 1]))
    ensures forall k | i < k < |c| ::
      Height(side, Minus(p, c[i]), c[k]) <= Height(side, Minus(p, c[i]), p)
  {
    var t := Minus(p, c[i]);
    forall k | i < k < |c| ensures Height(side, t, c[k]) <= Height(side, t, p) {
      if c[k].x < p.x {
        if k > i + 1 { WorseStaysWorse(side, c[i], c[i + 1], c[k], p); }
        HeightIsRank(side, t, c[k], p);
      } else {
        LastIsCleared(side, t, p, c[k]);
      }
    }
  }

  /** `val` is worse than `best`; both run from `p` back to a chain point. */
  predicate Worse(side: Side, val: Slope, best: Slope) {
    if side.Lower? then Less(best, val) else Less(val, best)
  }

  /** `c[m]` gives the best direction to `p` among the first `m + 1` points. */
  ghost predicate BestUpTo(side: Side, c: seq<Point>, m: nat, p: Point)
    requires m < |c|
  {
    c[m].x < p.x && forall k {:trigger Rank(side, Minus(p, c[m]), Minus(p, c[k]))} | 0 <= k <= m ::
      Rank(side, Minus(p, c[m]), Minus(p, c[k]))
  }

  lemma WorseIsRank(side: Side, a: Point, b: Point, p: Point)
    requires a.x < p.x
    ensures b.x < p.x ==> (Worse(side, Minus(b, p), Minus(a, p)) <==> StrictRank(side, Minus(p, a), Minus(p, b)))
    ensures b.x == p.x && (if side.Lower? then b.y < p.y else b.y > p.y)
        ==> Worse(side, Minus(b, p), Minus(a, p))
  {
    var u, v := Minus(a, p), Minus(b, p);
    var u', v' := Minus(p, a), Minus(p, b);
    assert u.dx * v.dy == u'.dx * v'.dy && u.dy * v.dx == u'.dy * v'.dx;
    if b.x == p.x && (if side.Lower? then b.y < p.y else b.y > p.y) {
      if side.Lower? { MulMono(u.dx, -1, -v.dy); } else { MulMono(u.dx, -1, v.dy); }
    }
  }

  lemma ScanStep(side: Side, c: seq<Point>, m: nat, p: Point)
    requires Approaches(side, c, p) && m + 1 < |c| && BestUpTo(side, c, m, p)
    requires !Worse(side, Minus(c[m + 1], p), Minus(c[m], p))
    ensures BestUpTo(side, c, m + 1, p)
  {
    WorseIsRank(side, c[m], c[m + 1], p);
    forall k | 0 <= k <= m ensures Rank(side, Minus(p, c[m + 1]), Minus(p, c[k])) {
      RankTransitive(side, Minus(p, c[m + 1]), Minus(p, c[m]), Minus(p, c[k]));
    }
  }

  lemma ScanStop(side: Side, c: seq<Point>, m: nat, p: Point)
    requires Chain(side, c) && Approaches(side, c, p) && m < |c| && BestUpTo(side, c, m, p)
    requires m + 1 == |c| || Worse(side, Minus(c[m + 1], p), Minus(c[m], p))
    ensures Clears(side, Minus(p, c[m]), p, c)
  {
    if m + 1 < |c| {
      WorseIsRank(side, c[m], c[m + 1], p);
      WorseClears(side, c, m, p);
    }
    forall k | 0 <= k <= m
      ensures Height(side, Minus(p, c[m]), c[k]) <= Height(side, Minus(p, c[m]), p)
    {
      HeightIsRank(side, Minus(p, c[m]), c[k], p);
    }
  }

  /** Finds the extreme slope from the chain to `p`, starting at `start` and
      stopping at the first chain point that is worse than its predecessor. */
  method FindTangent(side: Side, chain: seq<Point>, start: nat, p: Point) returns (m: nat)
    requires start < |chain| && Chain(side, chain[start..]) && Approaches(side, chain[start..], p)
    ensures start <= m < |chain| && chain[m].x < p.x
    ensures Clears(side, Minus(p, chain[m]), p, chain[start..])
  {
    ghost var c := chain[start..];
    var best := Minus(chain[start], p);
    m := start;
    var i := start + 1;
    while i < |chain|
      invariant start <= m == i - 1 < |chain| && best == Minus(chain[m], p)
      invariant BestUpTo(side, c, m - start, p)
    {
      var val := Minus(chain[i], p);
      if Worse(side, val, best) {
        break;
      }
      ScanStep(side, c, m - start, p);
      best := val;
      m := i;
      i := i + 1;
    }
    ScanStop(side, c, m - start, p);
  }

  // ---- appending to a hull

  lemma {:induction false} AppendBends(side: Side, c: seq<Point>, p: Point)
    requires Chain(side, c) && |c| > 0 && c[|c| - 1].x < p.x
    requires |c| >= 2 ==> Bends(side, c[|c| - 2], c[|c| - 1], p)
    ensures Chain(side, c + [p])
  {
    var n := |c|;
    var d := c + [p];
    forall i, j | 0 <= i < j < n ensures Bends(side, c[i], c[j], p) {
      BendsWithLast(side, c, i, p);
      if j < n - 1 {
        BendsWithLast(side, c, j, p);
        // c[i] -> c[j] -> last bends, and so does c[j] -> last -> p
        BendsIsRank(side, c[i], c[j], c[n - 1]);
        BendsIsRank(side, c[j], c[n - 1], p);
        RankTransitive(side, Minus(p, c[j]), Minus(c[n - 1], c[j]), Minus(c[j], c[i]));
        BendsIsRank(side, c[i], c[j], p);
      }
    }
    forall i, j, k | 0 <= i < j < k < |d| ensures Bends(side, d[i], d[j], d[k]) {
      if k == n { assert Bends(side, c[i], c[j], p); }
    }
  }

  lemma BendsWithLast(side: Side, c: seq<Point>, i: nat, p: Point)
    requires Chain(side, c) && i < |c| - 1 && c[|c| - 1].x < p.x
    requires Bends(side, c[|c| - 2], c[|c| - 1], p)
    ensures Bends(side, c[i], c[|c| - 1], p)
  {
    var n := |c|;
    if i < n - 2 {
      BendsIsRank(side, c[n - 2], c[n - 1], p);
      BendsIsRank(side, c[i], c[n - 2], c[n - 1]);
      RankTransitive(side, Minus(p, c[n - 1]), Minus(c[n - 1], c[n - 2]), Minus(c[n - 1], c[i]));
      BendsIsRank(side, c[i], c[n - 1], p);
    }
  }

  /** A point that does not bend away from its neighbours is never needed. */
  lemma NeighboursCover(side: Side, o: Point, a: Point, b: Point, s: Slope)
    requires o.x < a.x < b.x && s.dx > 0 && !Bends(side, o, a, b)
    ensures Height(side, s, a) <= Height(side, s, o) || Height(side, s, a) <= Height(side, s, b)
  {
    HeightIsRank(side, s, a, b);
    HeightIsRank(side, s, o, a);
    BendsIsRank(side, o, a, b);
    if !Rank(side, s, Minus(b, a)) {
      RankTransitive(side, Minus(a, o), Minus(b, a), s);
    }
  }

  /** Every chain point is covered by `c`, for every direction. */
  ghost predicate Replaces(side: Side, c: seq<Point>, old_: seq<Point>) {
    forall s: Slope, k {:trigger Covered(side, s, old_[k], c)} | s.dx > 0 && 0 <= k < |old_| :: Covered(side, s, old_[k], c)
  }

  lemma PopReplaces(side: Side, old_: seq<Point>, c: seq<Point>, p: Point)
    requires |c| >= 2 && c[|c| - 2].x < c[|c| - 1].x < p.x
    requires !Bends(side, c[|c| - 2], c[|c| - 1], p)
    requires Replaces(side, c + [p], old_)
    ensures Replaces(side, c[..|c| - 1] + [p], old_)
  {
    var n := |c|;
    var d, e := c + [p], c[..n - 1] + [p];
    forall s: Slope, k | s.dx > 0 && 0 <= k < |old_| ensures Covered(side, s, old_[k], e) {
      assert Covered(side, s, old_[k], d);
      var j :| 0 <= j < |d| && Height(side, s, old_[k]) <= Height(side, s, d[j]);
      if j == n - 1 {
        NeighboursCover(side, c[n - 2], c[n - 1], p, s);
        assert e[n - 2] == c[n - 2] && e[n - 1] == p;
      } else {
        var j' := if j == n then n - 1 else j;
        assert e[j'] == d[j];
      }
    }
  }

  lemma AppendReplaces(side: Side, c: seq<Point>, p: Point)
    ensures Replaces(side, c + [p], c)
  {
    forall s: Slope, k | s.dx > 0 && 0 <= k < |c| ensures Covered(side, s, c[k], c + [p]) {
      assert Height(side, s, c[k]) <= Height(side, s, (c + [p])[k]);
    }
  }

  lemma ChainPrefix(side: Side, c: seq<Point>, n: nat)
    requires Chain(side, c) && 0 < n <= |c|
    ensures Chain(side, c[..n]) && c[n - 1].x <= c[|c| - 1].x
  {
  }

  lemma PopStep(side: Side, c: seq<Point>, n: nat, p: Point)
    requires Chain(side, c) && 2 <= n <= |c| && c[|c| - 1].x < p.x
    requires !Bends(side, c[n - 2], c[n - 1], p) && Replaces(side, c[..n] + [p], c)
    ensures Replaces(side, c[..n - 1] + [p], c)
  {
    ChainPrefix(side, c, n);
    PopReplaces(side, c, c[..n], p);
    assert c[..n][..n - 1] == c[..n - 1];
  }

  lemma PushKeepsChain(side: Side, c: seq<Point>, n: nat, p: Point)
    requires Chain(side, c) && 0 < n <= |c| && c[|c| - 1].x < p.x
    requires n >= 2 ==> Bends(side, c[n - 2], c[n - 1], p)
    ensures Chain(side, c[..n] + [p])
  {
    ChainPrefix(side, c, n);
    AppendBends(side, c[..n], p);
  }

  /** What appending `p` to the part of the chain from `start` promises. */
  ghost predicate Pushed(side: Side, c: seq<Point>, p: Point, d: seq<Point>) {
    && |c| > 0 && |d| > 1 && d[0] == c[0] && d[|d| - 1] == p
    && Chain(side, d) && Replaces(side, d, c)
    && forall q | q in d :: q in c || q == p
  }

  lemma PushDone(side: Side, c: seq<Point>, n: nat, p: Point)
    requires Chain(side, c) && 0 < n <= |c| && c[|c| - 1].x < p.x
    requires n >= 2 ==> Bends(side, c[n - 2], c[n - 1], p)
    requires Replaces(side, c[..n] + [p], c)
    ensures Pushed(side, c, p, c[..n] + [p])
  {
    PushKeepsChain(side, c, n, p);
  }

  /** Appends `p` to the hull, first dropping the points it makes concave. The
      point at `start` always stays. */
  method PushOnHull(side: Side, chain: seq<Point>, start: nat, p: Point) returns (r: seq<Point>)
    requires start < |chain| && Chain(side, chain[start..]) && chain[|chain| - 1].x < p.x
    ensures start < |r| && Pushed(side, chain[start..], p, r[start..])
  {
    var end := |chain|;
    ghost var c := chain[start..];
    AppendReplaces(side, c, p);
    assert c[..|c|] == c;
    while end >= start + 2 && !Bends(side, chain[end - 2], chain[end - 1], p)
      invariant start + 1 <= end <= |chain|
      invariant Replaces(side, c[..end - start] + [p], c)
      decreases end
    {
      assert chain[end - 2] == c[end - start - 2] && chain[end - 1] == c[end - start - 1];
      PopStep(side, c, end - start, p);
      end := end - 1;
    }
    assert end >= start + 2 ==> chain[end - 2] == c[end - start - 2] && chain[end - 1] == c[end - start - 1];
    PushDone(side, c, end - start, p);
    r := chain[..end] + [p];
    assert r[start..] == c[..end - start] + [p];
  }
}
