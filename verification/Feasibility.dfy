/** What the two hull chains of a run know about every line that stabs it, and
    why one streaming step keeps that knowledge exact. */
module Feasibility {
  import opened Geometry
  import opened Corridor
  import opened ConvexHull

  /** `s` lies in the closed interval of slopes from `s1` to `s2`. */
  ghost predicate Between(s: Slope, s1: Slope, s2: Slope) {
    s.dx > 0 && AtMost(s1, s) && AtMost(s, s2)
  }

  /** For every slope still possible, no end of the run restricts a line more
      than some point of the chain does. */
  ghost predicate Dominates(side: Side, c: seq<Point>, run: seq<Range>, s1: Slope, s2: Slope) {
    forall s: Slope, i {:trigger Covered(side, s, End(side, run[i]), c)}
      | Between(s, s1, s2) && 0 <= i < |run| :: Covered(side, s, End(side, run[i]), c)
  }

  ghost predicate AreEnds(side: Side, c: seq<Point>, run: seq<Range>) {
    forall k {:trigger IsEnd(side, c[k], run)} | 0 <= k < |c| :: IsEnd(side, c[k], run)
  }

  /** For direction `t`, every low end lies on or below every high end. */
  ghost predicate Separated(t: Slope, run: seq<Range>) {
    forall i, j {:trigger Offset(t, End(Lower, run[i])), Offset(t, End(Upper, run[j]))}
      | 0 <= i < |run| && 0 <= j < |run| ::
      Offset(t, End(Lower, run[i])) <= Offset(t, End(Upper, run[j]))
  }

  function Last(c: seq<Point>): Point
    requires |c| > 0
  {
    c[|c| - 1]
  }

  /** The direction of the flattest line still possible. */
  function MinSlope(lc: seq<Point>, uc: seq<Point>): Slope
    requires |lc| > 0 && |uc| > 0
  {
    Minus(Last(lc), uc[0])
  }

  /** The direction of the steepest line still possible. */
  function MaxSlope(lc: seq<Point>, uc: seq<Point>): Slope
    requires |lc| > 0 && |uc| > 0
  {
    Minus(Last(uc), lc[0])
  }

  /** The invariant of the streaming model once it holds two or more ranges:
      the flattest line runs from the first upper chain point to the last lower
      one, the steepest from the first lower to the last upper one. */
  ghost predicate HullInv(run: seq<Range>, lc: seq<Point>, uc: seq<Point>) {
    && |run| >= 2 && Ordered(run)
    && |lc| > 0 && Chain(Lower, lc) && AreEnds(Lower, lc, run)
    && |uc| > 0 && Chain(Upper, uc) && AreEnds(Upper, uc, run)
    && LineStabs(uc[0], Last(lc), run)
    && LineStabs(lc[0], Last(uc), run)
    && AtMost(MinSlope(lc, uc), MaxSlope(lc, uc))
    && Dominates(Lower, lc, run, MinSlope(lc, uc), MaxSlope(lc, uc))
    && Dominates(Upper, uc, run, MinSlope(lc, uc), MaxSlope(lc, uc))
  }

  /** The state between the two halves of a step: the high end of `r` has been
      taken into account, its low end has not. */
  ghost predicate HalfStep(run: seq<Range>, r: Range, lc: seq<Point>, uc: seq<Point>) {
    && |run| >= 2 && Ordered(run + [r])
    && |lc| > 0 && Chain(Lower, lc) && AreEnds(Lower, lc, run)
    && |uc| > 0 && Chain(Upper, uc) && AreEnds(Upper, uc, run + [r])
    && uc[0].x < r.x
    && LineStabs(uc[0], Last(lc), run)
    && Offset(MinSlope(lc, uc), uc[0]) <= Offset(MinSlope(lc, uc), End(Upper, r))
    && LineStabs(lc[0], Last(uc), run + [r])
    && AtMost(MinSlope(lc, uc), MaxSlope(lc, uc))
    && Dominates(Lower, lc, run, MinSlope(lc, uc), MaxSlope(lc, uc))
    && Dominates(Upper, uc, run + [r], MinSlope(lc, uc), MaxSlope(lc, uc))
  }

  // ---- separation and new extreme lines

  lemma SeparatedBetween(run: seq<Range>, t: Slope, p1: Point, q1: Point, p2: Point, q2: Point)
    requires Ordered(run) && LineStabs(p1, q1, run) && LineStabs(p2, q2, run)
    requires Between(t, Minus(q1, p1), Minus(q2, p2))
    ensures Separated(t, run)
  {
    var s1, s2 := Minus(q1, p1), Minus(q2, p2);
    forall i, j | 0 <= i < |run| && 0 <= j < |run|
      ensures Offset(t, End(Lower, run[i])) <= Offset(t, End(Upper, run[j]))
    {
      var l, u := End(Lower, run[i]), End(Upper, run[j]);
      assert Within(s1, p1, run[i]) && Within(s1, p1, run[j]);
      assert Within(s2, p2, run[i]) && Within(s2, p2, run[j]);
      if i == j {
        MulMono(run[i].lo, run[i].hi, t.dx);
      } else if i < j {
        HeightIsRank(Lower, s2, l, u);
        SlopeTransitive(t, s2, Minus(u, l));
        HeightIsRank(Lower, t, l, u);
      } else {
        HeightIsRank(Upper, s1, u, l);
        SlopeTransitive(Minus(l, u), s1, t);
        HeightIsRank(Upper, t, u, l);
      }
    }
  }

  lemma TangentWithin(side: Side, run: seq<Range>, c: seq<Point>, t: Slope, a: Point, q: Point, i: nat)
    requires IsEnd(side, a, run) && Offset(t, a) == Offset(t, q) && Separated(t, run)
    requires i < |run| && Covered(side, t, End(side, run[i]), c) && Clears(side, t, q, c)
    ensures Within(t, a, run[i])
  {
    var j :| 0 <= j < |run| && End(side, run[j]) == a;
    var k :| 0 <= k < |c| && Height(side, t, End(side, run[i])) <= Height(side, t, c[k]);
    assert Height(side, t, c[k]) <= Height(side, t, q);
    assert Offset(t, End(Lower, run[i])) <= Offset(t, End(Upper, run[j]));
    assert Offset(t, End(Lower, run[j])) <= Offset(t, End(Upper, run[i]));
  }

  /** A tangent from the new far end `q` through a near end of the run stabs the
      run and the new range as well. */
  lemma TangentStabs(side: Side, run: seq<Range>, r: Range, c: seq<Point>, a: Point, q: Point)
    requires r.lo <= r.hi && q == End(Opposite(side), r)
    requires IsEnd(side, a, run) && a.x < q.x && Separated(Minus(q, a), run)
    requires forall i | 0 <= i < |run| :: Covered(side, Minus(q, a), End(side, run[i]), c)
    requires Clears(side, Minus(q, a), q, c)
    ensures LineStabs(a, q, run + [r])
  {
    var t := Minus(q, a);
    OnLine(a, q);
    assert Within(t, a, r) by { MulMono(r.lo, r.hi, t.dx); }
    forall i | 0 <= i < |run| ensures Within(t, a, run[i]) {
      TangentWithin(side, run, c, t, a, q, i);
    }
  }

  // ---- keeping the chains dominant

  lemma NarrowDominates(side: Side, c: seq<Point>, d: seq<Point>, run: seq<Range>,
                        s1: Slope, s2: Slope, t1: Slope, t2: Slope)
    requires Dominates(side, c, run, s1, s2)
    requires s1.dx > 0 && s2.dx > 0 && t1.dx > 0 && t2.dx > 0 && AtMost(s1, t1) && AtMost(t2, s2)
    requires forall s: Slope, k {:trigger Covered(side, s, c[k], d)}
      | Between(s, t1, t2) && 0 <= k < |c| :: Covered(side, s, c[k], d)
    ensures Dominates(side, d, run, t1, t2)
  {
    forall s: Slope, i | Between(s, t1, t2) && 0 <= i < |run|
      ensures Covered(side, s, End(side, run[i]), d)
    {
      SlopeTransitive(s1, t1, s);
      SlopeTransitive(s, t2, s2);
      assert Covered(side, s, End(side, run[i]), c);
      var k :| 0 <= k < |c| && Height(side, s, End(side, run[i])) <= Height(side, s, c[k]);
      assert Covered(side, s, c[k], d);
    }
  }

  /** Chain points before the tangent point are not needed for slopes up to the tangent's. */
  lemma ShrinkCovers(side: Side, c: seq<Point>, m: nat, q: Point, s: Slope)
    requires Chain(side, c) && m < |c| && c[m].x < q.x && Clears(side, Minus(q, c[m]), q, c)
    requires s.dx > 0 && Rank(side, s, Minus(q, c[m]))
    ensures forall k | 0 <= k < |c| :: Covered(side, s, c[k], c[m..])
  {
    var t := Minus(q, c[m]);
    forall k | 0 <= k < |c| ensures Covered(side, s, c[k], c[m..]) {
      if k < m {
        assert Height(side, t, c[k]) <= Height(side, t, q);
        OnLine(c[m], q);
        HeightIsRank(side, t, c[k], c[m]);
        RankTransitive(side, s, t, Minus(c[m], c[k]));
        HeightIsRank(side, s, c[k], c[m]);
        assert Height(side, s, c[k]) <= Height(side, s, c[m..][0]);
      } else {
        assert Height(side, s, c[k]) <= Height(side, s, c[m..][k - m]);
      }
    }
  }

  /** An end on the harmless side of an extreme line is covered by the chain point on that line. */
  lemma HarmlessEnd(side: Side, e: Slope, s: Slope, last: Point, q: Point)
    requires last.x < q.x && e.dx > 0 && s.dx > 0 && Rank(side, e, s)
    requires Height(side, e, q) <= Height(side, e, last)
    ensures Height(side, s, q) <= Height(side, s, last)
  {
    HeightIsRank(side, e, last, q);
    HeightIsRank(side, s, last, q);
    if Height(side, s, last) < Height(side, s, q) {
      RankTransitive(side, e, s, Minus(q, last));
    }
  }

  lemma AppendDominates(side: Side, c: seq<Point>, run: seq<Range>, r: Range, s1: Slope, s2: Slope)
    requires Dominates(side, c, run, s1, s2) && |c| > 0
    requires forall s: Slope | Between(s, s1, s2) :: Covered(side, s, End(side, r), c)
    ensures Dominates(side, c, run + [r], s1, s2)
  {
  }

  // ---- the slope of a new tangent stays inside the old interval

  lemma CutSlope(side: Side, c: seq<Point>, m: nat, q: Point, near: Slope, far: Slope)
    requires m < |c| && c[0].x < q.x && c[m].x < q.x && near.dx > 0 && far.dx > 0
    requires Clears(side, Minus(q, c[m]), q, c)
    requires StrictRank(side, Minus(q, c[0]), near)
    requires Height(side, far, c[m]) <= Height(side, far, q)
    ensures Rank(side, Minus(q, c[m]), near) && Rank(side, far, Minus(q, c[m]))
  {
    var t := Minus(q, c[m]);
    assert Height(side, t, c[0]) <= Height(side, t, q);
    HeightIsRank(side, t, c[0], q);
    RankTransitive(side, t, Minus(q, c[0]), near);
    HeightIsRank(side, far, c[m], q);
  }

  lemma EndsSurvive(side: Side, c: seq<Point>, d: seq<Point>, run: seq<Range>, r: Range)
    requires AreEnds(side, c, run) && forall q | q in d :: q in c || q == End(side, r)
    ensures AreEnds(side, d, run + [r])
  {
    forall k | 0 <= k < |d| ensures IsEnd(side, d[k], run + [r]) {
      assert d[k] in d;
      if d[k] in c {
        var j :| 0 <= j < |c| && c[j] == d[k];
        assert IsEnd(side, c[j], run);
        var i :| 0 <= i < |run| && End(side, run[i]) == d[k];
        assert (run + [r])[i] == run[i];
      } else {
        assert (run + [r])[|run|] == r;
      }
    }
  }

  lemma EndIsWithin(side: Side, p: Point, q: Point, run: seq<Range>, e: Point)
    requires LineStabs(p, q, run) && IsEnd(side, e, run)
    ensures Height(side, Minus(q, p), e) <= Height(side, Minus(q, p), p)
  {
    var i :| 0 <= i < |run| && End(side, run[i]) == e;
    assert Within(Minus(q, p), p, run[i]);
  }

  lemma EndBefore(side: Side, e: Point, run: seq<Range>, r: Range)
    requires Ordered(run + [r]) && IsEnd(side, e, run)
    ensures e.x < r.x
  {
    var i :| 0 <= i < |run| && End(side, run[i]) == e;
    assert (run + [r])[i] == run[i] && (run + [r])[|run|] == r;
  }

  // ---- first half of a step: the high end of the new range

  lemma HighEndHarmless(run: seq<Range>, r: Range, lc: seq<Point>, uc: seq<Point>)
    requires HullInv(run, lc, uc) && Ordered(run + [r])
    requires Offset(MinSlope(lc, uc), uc[0]) <= Offset(MinSlope(lc, uc), End(Upper, r))
    requires Within(MaxSlope(lc, uc), lc[0], r)
    ensures HalfStep(run, r, lc, uc)
  {
    var s1, s2 := MinSlope(lc, uc), MaxSlope(lc, uc);
    var u := End(Upper, r);
    EndBefore(Upper, uc[0], run, r);
    EndBefore(Upper, Last(uc), run, r);
    OnLine(lc[0], Last(uc));
    forall s: Slope | Between(s, s1, s2) ensures Covered(Upper, s, u, uc) {
      HarmlessEnd(Upper, s2, s, Last(uc), u);
      assert Height(Upper, s, u) <= Height(Upper, s, uc[|uc| - 1]);
    }
    AppendDominates(Upper, uc, run, r, s1, s2);
    EndsSurvive(Upper, uc, uc, run, r);
  }

  /** The tangent from the new far end is the new extreme line on this side. */
  lemma NewExtreme(side: Side, run: seq<Range>, r: Range, c: seq<Point>, m: nat,
                   p1: Point, q1: Point, p2: Point, q2: Point)
    requires Ordered(run + [r]) && m < |c| && c[0].x < r.x && c[m].x < r.x
    requires LineStabs(p1, q1, run) && LineStabs(p2, q2, run)
    requires IsEnd(side, c[m], run) && Dominates(side, c, run, Minus(q1, p1), Minus(q2, p2))
    requires var q := End(Opposite(side), r);
      Clears(side, Minus(q, c[m]), q, c)
      && if side.Lower?
         then Less(Minus(q, c[0]), Minus(q2, p2)) && Offset(Minus(q1, p1), p1) <= Offset(Minus(q1, p1), q)
         else Less(Minus(q1, p1), Minus(q, c[0])) && Offset(Minus(q2, p2), q) <= Offset(Minus(q2, p2), p2)
    ensures Between(Minus(End(Opposite(side), r), c[m]), Minus(q1, p1), Minus(q2, p2))
    ensures LineStabs(c[m], End(Opposite(side), r), run + [r])
  {
    var s1, s2 := Minus(q1, p1), Minus(q2, p2);
    var q := End(Opposite(side), r);
    var t := Minus(q, c[m]);
    EndIsWithin(side, p1, q1, run, c[m]);
    EndIsWithin(side, p2, q2, run, c[m]);
    if side.Lower? { CutSlope(side, c, m, q, s2, s1); } else { CutSlope(side, c, m, q, s1, s2); }
    RunPrefixOrdered(run, r);
    SeparatedBetween(run, t, p1, q1, p2, q2);
    TangentStabs(side, run, r, c, c[m], q);
  }

  lemma RunPrefixOrdered(run: seq<Range>, r: Range)
    requires Ordered(run + [r])
    ensures Ordered(run) && r.lo <= r.hi
  {
    forall i, j | 0 <= i < j < |run| ensures run[i].x < run[j].x {
      assert (run + [r])[i] == run[i] && (run + [r])[j] == run[j];
    }
    forall i | 0 <= i < |run| ensures run[i].lo <= run[i].hi {
      assert (run + [r])[i] == run[i];
    }
    assert (run + [r])[|run|] == r;
  }

  /** The chain that received the new end `q` dominates the run together with `r`. */
  lemma PushDominates(side: Side, run: seq<Range>, r: Range, c: seq<Point>, d: seq<Point>,
                      s1: Slope, s2: Slope, t1: Slope, t2: Slope)
    requires Dominates(side, c, run, s1, s2) && Replaces(side, d, c)
    requires s1.dx > 0 && s2.dx > 0 && t1.dx > 0 && t2.dx > 0 && AtMost(s1, t1) && AtMost(t2, s2)
    requires |d| > 0 && Last(d) == End(side, r)
    ensures Dominates(side, d, run + [r], t1, t2)
  {
    NarrowDominates(side, c, d, run, s1, s2, t1, t2);
    forall s: Slope | Between(s, t1, t2) ensures Covered(side, s, End(side, r), d) {
      assert Height(side, s, End(side, r)) <= Height(side, s, d[|d| - 1]);
    }
    AppendDominates(side, d, run, r, t1, t2);
  }

  lemma HighEndCuts(run: seq<Range>, r: Range, lc: seq<Point>, uc: seq<Point>, m: nat, ud: seq<Point>)
    requires HullInv(run, lc, uc) && Ordered(run + [r]) && m < |lc| && lc[m].x < r.x
    requires Offset(MinSlope(lc, uc), uc[0]) <= Offset(MinSlope(lc, uc), End(Upper, r))
    requires Less(Minus(End(Upper, r), lc[0]), MaxSlope(lc, uc))
    requires Clears(Lower, Minus(End(Upper, r), lc[m]), End(Upper, r), lc)
    requires Pushed(Upper, uc, End(Upper, r), ud)
    ensures HalfStep(run, r, lc[m..], ud)
  {
    var s1, s2 := MinSlope(lc, uc), MaxSlope(lc, uc);
    var u := End(Upper, r);
    var t := Minus(u, lc[m]);
    assert IsEnd(Lower, lc[m], run) && IsEnd(Lower, lc[0], run) && IsEnd(Upper, uc[0], run);
    EndBefore(Lower, lc[0], run, r);
    EndBefore(Upper, uc[0], run, r);
    NewExtreme(Lower, run, r, lc, m, uc[0], Last(lc), lc[0], Last(uc));
    assert Last(lc[m..]) == Last(lc) && MinSlope(lc[m..], ud) == s1 && MaxSlope(lc[m..], ud) == t;
    ShrinkDominates(Lower, run, lc, m, u, s1, s2);
    PushDominates(Upper, run, r, uc, ud, s1, s2, s1, t);
    EndsSurvive(Upper, uc, ud, run, r);
    ChainSuffix(Lower, lc, m, run);
  }

  /** Dropping the chain before the tangent point is sound up to the tangent's slope. */
  lemma ShrinkDominates(side: Side, run: seq<Range>, c: seq<Point>, m: nat, q: Point, s1: Slope, s2: Slope)
    requires Chain(side, c) && m < |c| && c[m].x < q.x && s1.dx > 0 && s2.dx > 0
    requires Dominates(side, c, run, s1, s2) && Clears(side, Minus(q, c[m]), q, c)
    requires Between(Minus(q, c[m]), s1, s2)
    ensures if side.Lower?
            then Dominates(side, c[m..], run, s1, Minus(q, c[m]))
            else Dominates(side, c[m..], run, Minus(q, c[m]), s2)
  {
    var t := Minus(q, c[m]);
    var t1, t2 := if side.Lower? then s1 else t, if side.Lower? then t else s2;
    forall s: Slope, k | Between(s, t1, t2) && 0 <= k < |c| ensures Covered(side, s, c[k], c[m..]) {
      ShrinkCovers(side, c, m, q, s);
    }
    NarrowDominates(side, c, c[m..], run, s1, s2, t1, t2);
  }

  lemma ChainSuffix(side: Side, c: seq<Point>, m: nat, run: seq<Range>)
    requires Chain(side, c) && AreEnds(side, c, run) && m < |c|
    ensures Chain(side, c[m..]) && AreEnds(side, c[m..], run)
  {
    var d := c[m..];
    forall i, j, k | 0 <= i < j < k < |d| ensures Bends(side, d[i], d[j], d[k]) {
      assert Bends(side, c[m + i], c[m + j], c[m + k]);
    }
    forall k | 0 <= k < |d| ensures IsEnd(side, d[k], run) {
      assert IsEnd(side, c[m + k], run);
    }
  }

  // ---- second half of a step: the low end of the new range

  lemma LowEndHarmless(run: seq<Range>, r: Range, lc: seq<Point>, uc: seq<Point>)
    requires HalfStep(run, r, lc, uc)
    requires Offset(MinSlope(lc, uc), End(Lower, r)) <= Offset(MinSlope(lc, uc), uc[0])
    ensures HullInv(run + [r], lc, uc)
  {
    var s1, s2 := MinSlope(lc, uc), MaxSlope(lc, uc);
    var l := End(Lower, r);
    EndBefore(Lower, Last(lc), run, r);
    OnLine(uc[0], Last(lc));
    forall s: Slope | Between(s, s1, s2) ensures Covered(Lower, s, l, lc) {
      HarmlessEnd(Lower, s1, s, Last(lc), l);
      assert Height(Lower, s, l) <= Height(Lower, s, lc[|lc| - 1]);
    }
    AppendDominates(Lower, lc, run, r, s1, s2);
    EndsSurvive(Lower, lc, lc, run, r);
  }

  lemma RestrictToRun(run: seq<Range>, r: Range, lc: seq<Point>, uc: seq<Point>, m: nat)
    requires HalfStep(run, r, lc, uc) && m < |uc| && uc[m].x < r.x
    ensures IsEnd(Upper, uc[m], run)
    ensures LineStabs(lc[0], Last(uc), run) && Within(MaxSlope(lc, uc), lc[0], r)
    ensures Dominates(Upper, uc, run, MinSlope(lc, uc), MaxSlope(lc, uc))
  {
    var all := run + [r];
    assert all[|run|] == r;
    assert IsEnd(Upper, uc[m], all);
    var i :| 0 <= i < |all| && End(Upper, all[i]) == uc[m];
    assert End(Upper, run[i]) == uc[m];
    forall i | 0 <= i < |run| ensures Within(MaxSlope(lc, uc), lc[0], run[i]) {
      assert all[i] == run[i];
    }
    forall s: Slope, i | Between(s, MinSlope(lc, uc), MaxSlope(lc, uc)) && 0 <= i < |run|
      ensures Covered(Upper, s, End(Upper, run[i]), uc)
    {
      assert Covered(Upper, s, End(Upper, all[i]), uc);
    }
  }

  lemma LowEndCuts(run: seq<Range>, r: Range, lc: seq<Point>, uc: seq<Point>, m: nat, ld: seq<Point>)
    requires HalfStep(run, r, lc, uc) && m < |uc| && uc[m].x < r.x
    requires Less(MinSlope(lc, uc), Minus(End(Lower, r), uc[0]))
    requires Clears(Upper, Minus(End(Lower, r), uc[m]), End(Lower, r), uc)
    requires Pushed(Lower, lc, End(Lower, r), ld)
    ensures HullInv(run + [r], ld, uc[m..])
  {
    var s1, s2 := MinSlope(lc, uc), MaxSlope(lc, uc);
    var l := End(Lower, r);
    var t := Minus(l, uc[m]);
    RestrictToRun(run, r, lc, uc, m);
    NewExtreme(Upper, run, r, uc, m, uc[0], Last(lc), lc[0], Last(uc));
    assert Last(uc[m..]) == Last(uc) && MinSlope(ld, uc[m..]) == t && MaxSlope(ld, uc[m..]) == s2;
    ShrinkDominates(Upper, run + [r], uc, m, l, s1, s2);
    PushDominates(Lower, run, r, lc, ld, s1, s2, t, s2);
    EndsSurvive(Lower, lc, ld, run, r);
    ChainSuffix(Upper, uc, m, run + [r]);
  }
}
