/** Integer plane geometry shared by the piecewise-linear and spline models.

    Slopes are compared by cross multiplication, exactly as the `Slope`
    operators of the streaming model do, so no division is needed. A line of
    direction `s` is identified by its `Offset`: all its points have the same
    value `s.dx * y - s.dy * x`, and larger offsets lie higher when `s.dx > 0`.
  */
module Geometry {

  /** The largest key value. */
  const KEY_MAX: int := 0xFFFF_FFFF_FFFF_FFFF

  datatype Point = Point(x: int, y: int)

  datatype Slope = Slope(dx: int, dy: int)

  function Minus(p: Point, q: Point): Slope {
    Slope(p.x - q.x, p.y - q.y)
  }

  predicate Less(s: Slope, t: Slope) {
    s.dy * t.dx < s.dx * t.dy
  }

  predicate AtMost(s: Slope, t: Slope) {
    s.dy * t.dx <= s.dx * t.dy
  }

  function Offset(s: Slope, p: Point): int {
    s.dx * p.y - s.dy * p.x
  }

  function Cross(o: Point, a: Point, b: Point): int {
    (a.x - o.x) * (b.y - o.y) - (a.y - o.y) * (b.x - o.x)
  }

  // ---- arithmetic

  lemma MulMono(a: int, b: int, c: int)
    requires a <= b && 0 <= c
    ensures a * c <= b * c
  {
  }

  /** Bounds of a quotient. */
  lemma DivisionBounds(a: int, d: int, c: int)
    requires d > 0
    ensures a < d * c ==> a / d < c
    ensures d * c <= a ==> c <= a / d
  {
    var q := a / d;
    assert a == d * q + a % d;
    if a < d * c && c <= q { MulMono(c, q, d); }
    if d * c <= a && q < c { MulMono(q + 1, c, d); }
  }

  lemma MulCancel(a: int, b: int, c: int)
    requires a * c <= b * c && 0 < c
    ensures a <= b
  {
    if b < a {
      MulMono(b + 1, a, c);
    }
  }

  /** Both points of a line have its offset. */
  lemma OnLine(p: Point, q: Point)
    ensures Offset(Minus(q, p), p) == Offset(Minus(q, p), q)
  {
    var s := Minus(q, p);
    assert Offset(s, q) - Offset(s, p) == s.dx * (q.y - p.y) - s.dy * (q.x - p.x);
  }

  // ---- slopes with a positive run are totally preordered

  lemma {:induction false} SlopeTransitive(s: Slope, t: Slope, u: Slope)
    requires s.dx > 0 && t.dx > 0 && u.dx > 0
    requires AtMost(s, t) && AtMost(t, u)
    ensures AtMost(s, u)
    ensures Less(s, t) || Less(t, u) ==> Less(s, u)
  {
    MulMono(s.dy * t.dx, s.dx * t.dy, u.dx);
    MulMono(t.dy * u.dx, t.dx * u.dy, s.dx);
    assert (s.dx * t.dy) * u.dx == (t.dy * u.dx) * s.dx;
    assert (s.dy * t.dx) * u.dx == (s.dy * u.dx) * t.dx;
    assert (t.dx * u.dy) * s.dx == (s.dx * u.dy) * t.dx;
    MulCancel(s.dy * u.dx, s.dx * u.dy, t.dx);
    if Less(s, t) {
      MulMono(s.dy * t.dx + 1, s.dx * t.dy, u.dx);
      assert (s.dy * u.dx) * t.dx < (s.dx * u.dy) * t.dx;
    }
    if Less(t, u) {
      MulMono(t.dy * u.dx + 1, t.dx * u.dy, s.dx);
      assert (s.dy * u.dx) * t.dx < (s.dx * u.dy) * t.dx;
    }
  }

  // ---- the two sides of a corridor

  /** A corridor is bounded by the low ends of its ranges (`Lower`) and by the
      high ends (`Upper`). Everything below is stated once, for a side; the
      upper side is the lower side of the picture turned upside down. */
  datatype Side = Lower | Upper

  /** How strongly `p`, an end on this side, restricts a line of direction `s`. */
  function Height(side: Side, s: Slope, p: Point): int {
    if side.Lower? then Offset(s, p) else -Offset(s, p)
  }

  predicate Rank(side: Side, s: Slope, t: Slope) {
    if side.Lower? then AtMost(s, t) else AtMost(t, s)
  }

  predicate StrictRank(side: Side, s: Slope, t: Slope) {
    if side.Lower? then Less(s, t) else Less(t, s)
  }

  /** The chain `o`, `a`, `b` bends the way a hull of this side must bend. */
  predicate Bends(side: Side, o: Point, a: Point, b: Point) {
    if side.Lower? then Cross(o, a, b) < 0 else Cross(o, a, b) > 0
  }

  lemma HeightIsRank(side: Side, s: Slope, p: Point, q: Point)
    requires p.x < q.x
    ensures Height(side, s, p) <= Height(side, s, q) <==> Rank(side, s, Minus(q, p))
    ensures Height(side, s, p) < Height(side, s, q) <==> StrictRank(side, s, Minus(q, p))
  {
    assert s.dy * (q.x - p.x) == s.dy * q.x - s.dy * p.x;
    assert s.dx * (q.y - p.y) == s.dx * q.y - s.dx * p.y;
  }

  lemma RankTransitive(side: Side, s: Slope, t: Slope, u: Slope)
    requires s.dx > 0 && t.dx > 0 && u.dx > 0
    requires Rank(side, s, t) && Rank(side, t, u)
    ensures Rank(side, s, u)
    ensures StrictRank(side, s, t) || StrictRank(side, t, u) ==> StrictRank(side, s, u)
  {
    if side.Lower? { SlopeTransitive(s, t, u); } else { SlopeTransitive(u, t, s); }
  }

  lemma BendsIsRank(side: Side, o: Point, a: Point, b: Point)
    requires o.x < a.x < b.x
    ensures Bends(side, o, a, b) <==> StrictRank(side, Minus(b, o), Minus(a, o))
    ensures Bends(side, o, a, b) <==> StrictRank(side, Minus(b, a), Minus(a, o))
    ensures Bends(side, o, a, b) <==> StrictRank(side, Minus(b, a), Minus(b, o))
  {
    var u, v := Minus(a, o), Minus(b, o);
    var w := Minus(b, a);
    assert w.dx == v.dx - u.dx && w.dy == v.dy - u.dy;
    assert w.dy * u.dx == v.dy * u.dx - u.dy * u.dx;
    assert w.dx * u.dy == v.dx * u.dy - u.dx * u.dy;
    assert w.dy * v.dx == v.dy * v.dx - u.dy * v.dx;
    assert w.dx * v.dy == v.dx * v.dy - u.dx * v.dy;
  }
}
