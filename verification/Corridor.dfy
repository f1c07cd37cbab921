/** Runs of vertical ranges and the straight lines that stab all of them. */
module Corridor {
  import opened Geometry

  /** The vertical range a model must pass through at key `x`. */
  datatype Range = Range(x: int, lo: int, hi: int)

  function End(side: Side, r: Range): Point {
    Point(r.x, if side.Lower? then r.lo else r.hi)
  }

  function Opposite(side: Side): Side {
    if side.Lower? then Upper else Lower
  }

  ghost predicate Ordered(run: seq<Range>) {
    && (forall i, j | 0 <= i < j < |run| :: run[i].x < run[j].x)
    && (forall i | 0 <= i < |run| :: run[i].lo <= run[i].hi)
  }

  /** `p` is the given end of some range of the run. */
  ghost predicate IsEnd(side: Side, p: Point, run: seq<Range>) {
    exists i | 0 <= i < |run| :: End(side, run[i]) == p
  }

  ghost predicate Passes(a: real, b: real, r: Range) {
    r.lo as real <= a * (r.x as real) + b <= r.hi as real
  }

  /** The line with real slope `a` and intercept `b` passes through every range. */
  ghost predicate RealLineStabs(a: real, b: real, run: seq<Range>) {
    forall i {:trigger Passes(a, b, run[i])} | 0 <= i < |run| :: Passes(a, b, run[i])
  }

  /** Some straight line passes through every range. */
  ghost predicate Stabbable(run: seq<Range>) {
    exists a: real, b: real :: RealLineStabs(a, b, run)
  }

  predicate Within(s: Slope, p: Point, r: Range) {
    Offset(s, End(Lower, r)) <= Offset(s, p) <= Offset(s, End(Upper, r))
  }

  /** The line through the lattice points `p` and `q` passes through every range. */
  ghost predicate LineStabs(p: Point, q: Point, run: seq<Range>) {
    p.x < q.x && forall i {:trigger Within(Minus(q, p), p, run[i])} | 0 <= i < |run| ::
      Within(Minus(q, p), p, run[i])
  }

  // ---- lattice lines are real lines

  lemma {:induction false} ProductAsReal(u: int, v: int)
    ensures (u * v) as real == (u as real) * (v as real)
    decreases if u < 0 then -u else u
  {
    if u > 0 {
      ProductAsReal(u - 1, v);
      assert u * v == (u - 1) * v + v;
    } else if u < 0 {
      ProductAsReal(u + 1, v);
      assert u * v == (u + 1) * v - v;
    }
  }

  function SlopeValue(s: Slope): real
    requires s.dx != 0
  {
    s.dy as real / s.dx as real
  }

  /** The height at `x` of the line of direction `s` through `p`. */
  function LineAt(s: Slope, p: Point, x: int): real
    requires s.dx != 0
  {
    p.y as real + SlopeValue(s) * (x - p.x) as real
  }

  lemma LineAtByOffset(s: Slope, p: Point, q: Point)
    requires s.dx > 0
    ensures Offset(s, q) <= Offset(s, p) <==> q.y as real <= LineAt(s, p, q.x)
    ensures Offset(s, q) >= Offset(s, p) <==> q.y as real >= LineAt(s, p, q.x)
  {
    var d := s.dx as real;
    ProductAsReal(s.dx, q.y - p.y);
    ProductAsReal(s.dy, q.x - p.x);
    assert Offset(s, q) - Offset(s, p) == s.dx * (q.y - p.y) - s.dy * (q.x - p.x);
    var gap := (q.y - p.y) as real - SlopeValue(s) * (q.x - p.x) as real;
    assert SlopeValue(s) * d == s.dy as real;
    assert d * (SlopeValue(s) * (q.x - p.x) as real) == (s.dy as real) * (q.x - p.x) as real;
    assert d * gap == (Offset(s, q) - Offset(s, p)) as real;
    assert gap == q.y as real - LineAt(s, p, q.x);
  }

  /** A lattice line that stabs the run is a real line that stabs the run. */
  lemma LatticeLineStabs(p: Point, q: Point, run: seq<Range>)
    requires LineStabs(p, q, run)
    ensures forall i | 0 <= i < |run| ::
      run[i].lo as real <= LineAt(Minus(q, p), p, run[i].x) <= run[i].hi as real
    ensures Stabbable(run)
  {
    var s := Minus(q, p);
    var a := SlopeValue(s);
    var b := p.y as real - a * p.x as real;
    forall i | 0 <= i < |run|
      ensures run[i].lo as real <= LineAt(s, p, run[i].x) <= run[i].hi as real
      ensures LineAt(s, p, run[i].x) == a * (run[i].x as real) + b
    {
      assert Within(s, p, run[i]);
      LineAtByOffset(s, p, End(Lower, run[i]));
      LineAtByOffset(s, p, End(Upper, run[i]));
    }
    assert RealLineStabs(a, b, run);
  }

  // ---- obstructions

  /** Three ends that no straight line can separate: seen from this side, the
      far ends at both outer keys and the near end between them bend away. */
  ghost predicate Obstructed(side: Side, o: Point, a: Point, b: Point, run: seq<Range>) {
    && o.x < a.x < b.x
    && IsEnd(Opposite(side), o, run) && IsEnd(side, a, run) && IsEnd(Opposite(side), b, run)
    && Bends(side, o, a, b)
  }

  /** How far `p` lies above the real line with slope `m` and intercept `c`. */
  function Above(p: Point, m: real, c: real): real {
    p.y as real - (m * (p.x as real) + c)
  }

  lemma BendByErrors(u: real, v: real, m: real, eo: real, ea: real, eb: real)
    ensures u * (eb - eo + m * v) - (ea - eo + m * u) * v == u * eb - v * ea + (v - u) * eo
  {
    assert u * (m * v) == (m * u) * v;
  }

  lemma RiseByErrors(p: Point, q: Point, m: real, c: real)
    ensures (q.y - p.y) as real == Above(q, m, c) - Above(p, m, c) + m * (q.x - p.x) as real
  {
    assert m * (q.x - p.x) as real == m * (q.x as real) - m * (p.x as real);
  }

  /** How far three points lie above a line decides how the three points bend. */
  lemma CrossByErrors(o: Point, a: Point, b: Point, m: real, c: real)
    ensures Cross(o, a, b) as real
         == (a.x - o.x) as real * Above(b, m, c) - (b.x - o.x) as real * Above(a, m, c)
            + (b.x - a.x) as real * Above(o, m, c)
  {
    ProductAsReal(a.x - o.x, b.y - o.y);
    ProductAsReal(a.y - o.y, b.x - o.x);
    RiseByErrors(o, a, m, c);
    RiseByErrors(o, b, m, c);
    BendByErrors((a.x - o.x) as real, (b.x - o.x) as real, m, Above(o, m, c), Above(a, m, c), Above(b, m, c));
  }

  lemma SignOfSum(u: real, v: real, w: real, eo: real, ea: real, eb: real)
    requires 0.0 <= u && 0.0 <= v && 0.0 <= w
    ensures 0.0 <= eo && ea <= 0.0 && 0.0 <= eb ==> 0.0 <= u * eb - v * ea + w * eo
    ensures eo <= 0.0 && 0.0 <= ea && eb <= 0.0 ==> u * eb - v * ea + w * eo <= 0.0
  {
  }

  lemma CrossBySides(o: Point, a: Point, b: Point, m: real, c: real)
    requires o.x < a.x < b.x
    ensures 0.0 <= Above(o, m, c) && Above(a, m, c) <= 0.0 && 0.0 <= Above(b, m, c) ==> 0 <= Cross(o, a, b)
    ensures Above(o, m, c) <= 0.0 && 0.0 <= Above(a, m, c) && Above(b, m, c) <= 0.0 ==> Cross(o, a, b) <= 0
  {
    CrossByErrors(o, a, b, m, c);
    SignOfSum((a.x - o.x) as real, (b.x - o.x) as real, (b.x - a.x) as real,
              Above(o, m, c), Above(a, m, c), Above(b, m, c));
  }

  lemma EndBesideLine(side: Side, p: Point, run: seq<Range>, m: real, c: real)
    requires IsEnd(side, p, run) && RealLineStabs(m, c, run)
    ensures if side.Lower? then Above(p, m, c) <= 0.0 else 0.0 <= Above(p, m, c)
  {
    var i :| 0 <= i < |run| && End(side, run[i]) == p;
    var r := run[i];
    assert Passes(m, c, r) && p.x == r.x && p.y == if side.Lower? then r.lo else r.hi;
  }

  lemma ObstructionBlocks(side: Side, o: Point, a: Point, b: Point, run: seq<Range>)
    requires Obstructed(side, o, a, b, run)
    ensures !Stabbable(run)
  {
    forall m: real, c: real | RealLineStabs(m, c, run) ensures false {
      EndBesideLine(Opposite(side), o, run, m, c);
      EndBesideLine(side, a, run, m, c);
      EndBesideLine(Opposite(side), b, run, m, c);
      CrossBySides(o, a, b, m, c);
    }
  }

  lemma StabbableSubrun(run: seq<Range>, i: nat, j: nat)
    requires i <= j <= |run| && Stabbable(run)
    ensures Stabbable(run[i..j])
  {
    var a: real, b: real :| RealLineStabs(a, b, run);
    forall k | 0 <= k < j - i ensures Passes(a, b, run[i..j][k]) {
      assert Passes(a, b, run[i + k]);
    }
    assert RealLineStabs(a, b, run[i..j]);
  }
}
