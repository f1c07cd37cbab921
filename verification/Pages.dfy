/** Positions, pages of records, and search bounds over positions. */
module Pages {
  import opened Geometry
  import opened PiecewiseLinearModel

  /** Subtraction of `size_t` values, which wraps around. */
  function WrapSub(a: Word, b: Word): Word {
    if a >= b then a - b else a + (SIZE_MAX + 1) - b
  }

  function Page(y: nat, rpp: nat): nat
    requires rpp > 0
  {
    y / rpp
  }

  lemma PageBounds(y: nat, rpp: nat)
    requires rpp > 0
    ensures Page(y, rpp) * rpp <= y <= (Page(y, rpp) + 1) * rpp - 1
    ensures (Page(y, rpp) + 1) * rpp - 1 == Page(y, rpp) * rpp + rpp - 1
  {
    assert y == rpp * (y / rpp) + y % rpp;
    assert (Page(y, rpp) + 1) * rpp == Page(y, rpp) * rpp + rpp;
  }

  datatype SearchBound = SearchBound(begin: nat, end: nat)

  /** Some position inside the bound lies on the page of `y`. */
  ghost predicate ReachesPage(b: SearchBound, y: nat, rpp: nat)
    requires rpp > 0
  {
    exists p: nat :: b.begin <= p < b.end && Page(p, rpp) == Page(y, rpp)
  }

  lemma SamePage(p: nat, y: nat, rpp: nat)
    requires rpp > 0 && Page(y, rpp) * rpp <= p < Page(y, rpp) * rpp + rpp
    ensures Page(p, rpp) == Page(y, rpp)
  {
    PageBounds(p, rpp);
    var a, b := Page(p, rpp), Page(y, rpp);
    if a < b { MulMono(a + 1, b, rpp); }
    if b < a { MulMono(b + 1, a, rpp); }
  }
}
