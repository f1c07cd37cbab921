/** The zone map over a lossy codec: one value between two bounds stands for each
    group of pages, and a search over the decoded values leads to the pages of a key. */
module LecoZoneMap {
  import opened Geometry
  import opened PageStore
  import opened SortedSearch

  /** Stored keys in order; the position of a key is its index. */
  ghost predicate Keys(data: seq<int>) {
    && (forall i | 0 <= i < |data| :: 0 <= data[i] <= KEY_MAX)
    && (forall i, j | 0 <= i < j < |data| :: data[i] < data[j])
  }

  /** How wide a group is, and how far before its border its value may lie. */
  function GroupWidth(rpp: nat, fixedPages: nat, slidePages: nat): nat {
    Span(fixedPages + slidePages, rpp)
  }

  function SlideWidth(rpp: nat, fixedPages: nat, slidePages: nat): nat {
    Span(slidePages, rpp) + if fixedPages > 0 then 1 else 0
  }

  lemma SlideFits(rpp: nat, fixedPages: nat, slidePages: nat)
    requires rpp > 0 && fixedPages + slidePages > 0
    ensures 0 < GroupWidth(rpp, fixedPages, slidePages)
    ensures SlideWidth(rpp, fixedPages, slidePages) <= GroupWidth(rpp, fixedPages, slidePages)
  {
    SpanMono(1, fixedPages + slidePages, rpp);
    SpanSum(fixedPages, slidePages, rpp);
    if fixedPages > 0 { SpanMono(1, fixedPages, rpp); }
  }

  /** The border after group `j` lies inside the data; its bounds are the key a slide
      before it and the largest key below it. */
  ghost predicate BorderOk(data: seq<int>, group: nat, slide: nat, j: nat, low: int, high: int) {
    var i := Span(j + 1, group);
    slide <= i < |data| && low == data[i - slide] && high == data[i] - 1
  }

  /** One pair of bounds per border, and a last one from the largest key on. */
  ghost predicate BoundsOk(data: seq<int>, group: nat, slide: nat, lower: seq<int>, upper: seq<int>) {
    var p := |lower|;
    && p > 0 && |upper| == p && |data| > 0 && |data| <= Span(p, group)
    && lower[p - 1] == data[|data| - 1] && upper[p - 1] == KEY_MAX
    && forall j {:trigger lower[j]} | 0 <= j < p - 1 :: BorderOk(data, group, slide, j, lower[j], upper[j])
  }

  /** Values a codec may return: each within its bounds. */
  ghost predicate Within(lower: seq<int>, upper: seq<int>, values: seq<int>) {
    && |values| == |lower| == |upper|
    && forall j {:trigger values[j]} | 0 <= j < |values| :: lower[j] <= values[j] <= upper[j]
  }

  lemma BoundsStep(data: seq<int>, group: nat, slide: nat, lower: seq<int>, upper: seq<int>, values: seq<int>, j: nat)
    requires Keys(data) && 0 < group && slide <= group && BoundsOk(data, group, slide, lower, upper)
    requires Within(lower, upper, values) && j + 1 < |values|
    ensures values[j] < values[j + 1]
  {
    var p := |lower|;
    assert BorderOk(data, group, slide, j, lower[j], upper[j]);
    SpanSum(j + 1, 1, group);
    if j + 1 < p - 1 { assert BorderOk(data, group, slide, j + 1, lower[j + 1], upper[j + 1]); }
    assert lower[j] <= values[j] <= upper[j] && lower[j + 1] <= values[j + 1];
  }

  /** Whatever values the codec returns within the bounds, they increase strictly. */
  lemma {:induction false} DecodedIncrease(data: seq<int>, group: nat, slide: nat, lower: seq<int>, upper: seq<int>,
                                           values: seq<int>, i: nat, j: nat)
    requires Keys(data) && 0 < group && slide <= group && BoundsOk(data, group, slide, lower, upper)
    requires Within(lower, upper, values) && i < j < |values|
    ensures values[i] < values[j]
  {
    BoundsStep(data, group, slide, lower, upper, values, j - 1);
    if i < j - 1 { DecodedIncrease(data, group, slide, lower, upper, values, i, j - 1); }
  }

  // ---- computing the bounds

  /** The bounds at a border. */
  method OneBorder(data: seq<int>, i: nat, slideWidth: nat) returns (low: int, high: int)
    requires Keys(data) && 0 < i < |data|
    ensures low == (if i < slideWidth then data[0] else data[i - slideWidth]) && high == data[i] - 1
  {
    low := if i < slideWidth then data[0] else data[i - slideWidth];
    high := data[i - 1];
    if data[i] >= 1 {
      high := if data[i] - 1 > high then data[i] - 1 else high;
    }
  }

  /** The borders of the first groups, up to the end of the data. */
  ghost predicate Borders(data: seq<int>, group: nat, slide: nat, lower: seq<int>, upper: seq<int>) {
    && |lower| == |upper|
    && forall j {:trigger lower[j]} | 0 <= j < |lower| :: BorderOk(data, group, slide, j, lower[j], upper[j])
  }

  /** Where the last border is not the end of the data, the largest key is the last bound. */
  lemma BordersEnd(data: seq<int>, group: nat, slide: nat, lower: seq<int>, upper: seq<int>)
    requires Keys(data) && 0 < group < |data| && Borders(data, group, slide, lower, upper)
    requires |lower| > 0 && Span(|lower| + 1, group) >= |data|
    ensures upper[|upper| - 1] < data[|data| - 1]
    ensures BoundsOk(data, group, slide, lower + [data[|data| - 1]], upper + [KEY_MAX])
  {
    var m := |lower| - 1;
    assert BorderOk(data, group, slide, m, lower[m], upper[m]);
  }

  method AllBounds(data: seq<int>, groupWidth: nat, slideWidth: nat) returns (lower: seq<int>, upper: seq<int>)
    requires Keys(data) && 0 < groupWidth < |data| && slideWidth <= groupWidth
    ensures BoundsOk(data, groupWidth, slideWidth, lower, upper) && |lower| >= 2
  {
    lower, upper := [], [];
    var i := groupWidth;
    SpanSum(0, 1, groupWidth);
    while i < |data|
      invariant Borders(data, groupWidth, slideWidth, lower, upper)
      invariant i == Span(|lower| + 1, groupWidth) && i >= groupWidth && (i >= |data| ==> |lower| > 0)
      decreases |data| - i
    {
      var low, high := OneBorder(data, i, slideWidth);
      assert BorderOk(data, groupWidth, slideWidth, |lower|, low, high);
      SpanSum(|lower| + 1, 1, groupWidth);
      lower, upper := lower + [low], upper + [high];
      i := i + groupWidth;
    }
    BordersEnd(data, groupWidth, slideWidth, lower, upper);
    if upper[|upper| - 1] < data[|data| - 1] {
      lower, upper := lower + [data[|data| - 1]], upper + [KEY_MAX];
    }
  }

  // ---- blocks

  /** Point `m` is the `m % width`-th of block `m / width`. */
  ghost predicate PointAt(value: int, width: nat, blocks: seq<seq<int>>, m: nat)
    requires width > 0
  {
    m / width < |blocks| && m % width < |blocks[m / width]| && blocks[m / width][m % width] == value
  }

  ghost predicate Split(values: seq<int>, width: nat, blocks: seq<seq<int>>) {
    && width > 0
    && forall m {:trigger PointAt(values[m], width, blocks, m)} | 0 <= m < |values| :: PointAt(values[m], width, blocks, m)
  }

  lemma BlockOf(m: nat, width: nat)
    requires width > 0
    ensures Span(m / width, width) <= m < Span(m / width + 1, width)
    ensures m % width == m - Span(m / width, width)
  {
    SpanIsProduct(m / width, width);
    SpanSum(m / width, 1, width);
    assert m == width * (m / width) + m % width;
  }

  /** How many blocks there are: the last may be shorter, none is empty, and the last
      one begins inside the points. */
  lemma BlockCount(points: nat, width: nat, count: nat)
    requires 0 < width <= points
    requires count == points / width + if Span(points / width, width) < points then 1 else 0
    ensures count > 0 && Span(count - 1, width) < points <= Span(count, width)
  {
    BlockOf(points, width);
    SpanIsProduct(points / width, width);
    var q := points / width;
    SpanSum(0, 1, width);
    if Span(q, width) == points { SpanSum(q - 1, 1, width); }
  }

  // ---- the index

  class LecoPage {
    const recordPerPage: nat
    const fixedPages: nat
    const slidePages: nat
    var lowerBounds: seq<int>
    var upperBounds: seq<int>
    var pointNum: nat
    var blockNum: nat
    var blockWidth: nat
    var blocks: seq<seq<int>>
    var maxY: nat

    constructor (recordPerPage: nat, fixedPages: nat, slidePages: nat, blockNum: nat)
      ensures this.recordPerPage == recordPerPage && this.fixedPages == fixedPages
      ensures this.slidePages == slidePages && this.blockNum == blockNum
    {
      this.recordPerPage, this.fixedPages, this.slidePages, this.blockNum := recordPerPage, fixedPages, slidePages, blockNum;
      lowerBounds, upperBounds, pointNum, blockWidth, blocks, maxY := [], [], 0, 0, [], 0;
    }

    /** The bounds of all groups; the data must reach beyond the first group. */
    method BuildBounds(data: seq<int>)
      requires Keys(data) && recordPerPage > 0 && fixedPages + slidePages > 0
      requires |data| > GroupWidth(recordPerPage, fixedPages, slidePages)
      modifies this
      ensures BoundsOk(data, GroupWidth(recordPerPage, fixedPages, slidePages),
                       SlideWidth(recordPerPage, fixedPages, slidePages), lowerBounds, upperBounds)
      ensures maxY == |data| - 1 && pointNum == |lowerBounds| >= 2 && blockNum == old(blockNum)
    {
      SlideFits(recordPerPage, fixedPages, slidePages);
      maxY := |data| - 1;
      var groupWidth := Span(fixedPages + slidePages, recordPerPage);
      var slideWidth := Span(slidePages, recordPerPage);
      if fixedPages > 0 { slideWidth := slideWidth + 1; }
      lowerBounds, upperBounds := AllBounds(data, groupWidth, slideWidth);
      pointNum := |lowerBounds|;
    }

    /** Splits the points into blocks; `values` is what the codec will decode from them. */
    method Encode(values: seq<int>)
      requires 0 < |values| == pointNum && blockNum > 0 && (pointNum < blockNum ==> pointNum >= 10)
      modifies this`blockNum, this`blockWidth, this`blocks
      ensures Split(values, blockWidth, blocks) && Flat(blocks) == values
      ensures |blocks| == blockNum && forall b | b in blocks :: 0 < |b| <= blockWidth
    {
      if pointNum < blockNum {
        blockNum := 10;
      }
      blockWidth, blockNum := BlockShape(pointNum, blockNum);
      blocks := Blocks(values, blockWidth, blockNum);
      FlatSplit(values, blockWidth, blocks);
    }

    /** The decoded value of a point. */
    function Decode(m: nat): int
      requires blockWidth > 0 && m / blockWidth < |blocks| && m % blockWidth < |blocks[m / blockWidth]|
      reads this
    {
      blocks[m / blockWidth][m % blockWidth]
    }

    method LecoBinarySearch(key: int, ghost values: seq<int>) returns (s: nat)
      requires Split(values, blockWidth, blocks) && |values| == pointNum
      requires forall i, j | 0 <= i < j < |values| :: values[i] < values[j]
      ensures s == FirstAtLeast(values, key)
    {
      s := 0;
      var e := pointNum;
      while s < e
        invariant 0 <= s <= e <= pointNum
        invariant s > 0 ==> values[s - 1] < key
        invariant e < pointNum ==> key <= values[e]
      {
        var mid := (s + e) / 2;
        assert PointAt(values[mid], blockWidth, blocks, mid);
        var dataMid := Decode(mid);
        assert dataMid == values[mid];
        if dataMid < key { s := mid + 1; } else { e := mid; }
      }
      FirstAtLeastIs(values, key, s);
    }

    /** The positions that are fetched for a key. */
    method Lookup(key: int, ghost values: seq<int>) returns (begin: nat, end: nat)
      requires Split(values, blockWidth, blocks) && |values| == pointNum
      requires forall i, j | 0 <= i < j < |values| :: values[i] < values[j]
      ensures (begin, end) == RangeAt(FirstAtLeast(values, key), recordPerPage, fixedPages, slidePages, maxY)
    {
      var pos := LecoBinarySearch(key, values);
      var start := Span(pos, fixedPages + slidePages);
      if pos >= slidePages {
        StartFits(pos, fixedPages, slidePages);
        start := start - slidePages;
      }
      var stop := start + fixedPages + 2 * slidePages;
      begin := Span(start, recordPerPage);
      end := if maxY + 1 < Span(stop, recordPerPage) then maxY + 1 else Span(stop, recordPerPage);
    }
  }

  // ---- the blocks hold the points

  lemma WidthPositive(points: nat, count: nat)
    requires 0 < count <= points
    ensures points / count > 0
  {
    var q := points / count;
    assert points == count * q + points % count;
    if q == 0 { MulMono(q, 0, count); }
  }

  /** As many blocks as asked for, or a few more, each begun inside the points. */
  method BlockShape(points: nat, wanted: nat) returns (width: nat, count: nat)
    requires 0 < wanted <= points
    ensures width == points / wanted && width > 0 && count > 0
    ensures Span(count - 1, width) < points <= Span(count, width)
  {
    WidthPositive(points, wanted);
    width := points / wanted;
    WidthBelow(points, wanted);
    count := points / width;
    SpanIsProduct(count, width);
    BlockCount(points, width, count + if count * width < points then 1 else 0);
    if count * width < points {
      count := count + 1;
    }
  }

  lemma WidthBelow(points: nat, wanted: nat)
    requires 0 < wanted <= points
    ensures points / wanted <= points
  {
    var q := points / wanted;
    assert points == wanted * q + points % wanted;
    MulMono(1, wanted, q);
  }

  function Flat(blocks: seq<seq<int>>): seq<int> {
    if blocks == [] then [] else Flat(blocks[..|blocks| - 1]) + blocks[|blocks| - 1]
  }

  /** The loop that cuts the points into blocks: all of the given width but the last. */
  method Blocks(values: seq<int>, width: nat, count: nat) returns (blocks: seq<seq<int>>)
    requires width > 0 && count > 0 && Span(count - 1, width) < |values| <= Span(count, width)
    ensures |blocks| == count && Flat(blocks) == values && Cut(values, width, blocks)
  {
    blocks := [];
    ghost var at: nat := 0;
    for i := 0 to count
      invariant |blocks| == i && at <= |values| && Flat(blocks) == values[..at]
      invariant at == if i < count then Span(i, width) else |values|
      invariant Cut(values, width, blocks)
    {
      NextBorder(i, count, width, |values|);
      var length := if i == count - 1 then |values| - Span(count - 1, width) else width;
      BlocksNext(values, width, blocks, at, length);
      blocks, at := blocks + [values[Span(i, width)..Span(i, width) + length]], at + length;
    }
  }

  lemma BlocksNext(values: seq<int>, width: nat, blocks: seq<seq<int>>, at: nat, length: nat)
    requires Cut(values, width, blocks) && at + length <= |values| && Flat(blocks) == values[..at]
    requires 0 < length <= width && at == Span(|blocks|, width) && (length < width ==> at + length == |values|)
    ensures Flat(blocks + [values[at..at + length]]) == values[..at + length]
    ensures Cut(values, width, blocks + [values[at..at + length]])
  {
    var b := values[at..at + length];
    assert BlockAt(values, width, |blocks|, b);
    FlatSnoc(blocks, b);
    CutSnoc(values, width, blocks, b);
    Adjoin(values, at, at + length);
  }

  /** Every block holds the points at its place. */
  ghost predicate Cut(values: seq<int>, width: nat, blocks: seq<seq<int>>) {
    blocks != [] ==> BlockAt(values, width, |blocks| - 1, blocks[|blocks| - 1]) && Cut(values, width, blocks[..|blocks| - 1])
  }

  lemma CutSnoc(values: seq<int>, width: nat, blocks: seq<seq<int>>, b: seq<int>)
    requires Cut(values, width, blocks) && BlockAt(values, width, |blocks|, b)
    ensures Cut(values, width, blocks + [b])
  {
    assert (blocks + [b])[..|blocks|] == blocks;
  }

  lemma {:induction false} CutAt(values: seq<int>, width: nat, blocks: seq<seq<int>>, i: nat)
    requires Cut(values, width, blocks) && i < |blocks|
    ensures BlockAt(values, width, i, blocks[i])
  {
    if i < |blocks| - 1 { CutAt(values, width, blocks[..|blocks| - 1], i); }
  }

  lemma NextBorder(i: nat, count: nat, width: nat, n: nat)
    requires i < count && Span(count - 1, width) < n <= Span(count, width)
    ensures Span(i + 1, width) == Span(i, width) + width
    ensures i < count - 1 ==> Span(i + 1, width) < n
    ensures i == count - 1 ==> Span(i, width) < n <= Span(i, width) + width
  {
    SpanSum(i, 1, width);
    if i < count - 1 { SpanMono(i + 1, count - 1, width); }
  }

  lemma FlatSnoc(blocks: seq<seq<int>>, b: seq<int>)
    ensures Flat(blocks + [b]) == Flat(blocks) + b
  {
    assert (blocks + [b])[..|blocks|] == blocks;
  }

  lemma Adjoin(values: seq<int>, a: nat, b: nat)
    requires a <= b <= |values|
    ensures values[..a] + values[a..b] == values[..b]
  {
  }

  ghost predicate BlockAt(values: seq<int>, width: nat, i: nat, b: seq<int>) {
    && 0 < |b| <= width && Span(i, width) + |b| <= |values|
    && (|b| < width ==> Span(i, width) + |b| == |values|)
    && b == values[Span(i, width)..Span(i, width) + |b|]
  }

  lemma InBlock(values: seq<int>, width: nat, i: nat, b: seq<int>, m: nat)
    requires BlockAt(values, width, i, b) && m < |values| && Span(i, width) <= m < Span(i, width) + width
    ensures m - Span(i, width) < |b| && b[m - Span(i, width)] == values[m]
  {
  }

  lemma CutPoint(values: seq<int>, width: nat, blocks: seq<seq<int>>, m: nat, i: nat)
    requires width > 0 && |values| <= Span(|blocks|, width) && Cut(values, width, blocks) && m < |values|
    requires Span(i, width) <= m < Span(i + 1, width)
    ensures i < |blocks| && m - Span(i, width) < |blocks[i]| && blocks[i][m - Span(i, width)] == values[m]
  {
    if i >= |blocks| { SpanMono(|blocks|, i, width); }
    SpanSum(i, 1, width);
    CutAt(values, width, blocks, i);
    InBlock(values, width, i, blocks[i], m);
  }

  lemma PointFrom(value: int, width: nat, blocks: seq<seq<int>>, m: nat, i: nat, o: nat)
    requires width > 0 && i == m / width && o == m % width
    requires i < |blocks| && o < |blocks[i]| && blocks[i][o] == value
    ensures PointAt(value, width, blocks, m)
  {
  }

  lemma BlockIndex(m: nat, width: nat) returns (i: nat, o: nat)
    requires width > 0
    ensures i == m / width && o == m % width
    ensures Span(i, width) <= m < Span(i + 1, width) && o == m - Span(i, width)
  {
    BlockOf(m, width);
    i, o := m / width, m % width;
  }

  lemma CutPointAt(values: seq<int>, width: nat, blocks: seq<seq<int>>, m: nat)
    requires width > 0 && |values| <= Span(|blocks|, width) && Cut(values, width, blocks) && m < |values|
    ensures PointAt(values[m], width, blocks, m)
  {
    var i, o := BlockIndex(m, width);
    CutPoint(values, width, blocks, m, i);
    PointFrom(values[m], width, blocks, m, i, o);
  }

  lemma FlatSplit(values: seq<int>, width: nat, blocks: seq<seq<int>>)
    requires width > 0 && |values| <= Span(|blocks|, width) && Cut(values, width, blocks)
    ensures Split(values, width, blocks) && forall b | b in blocks :: 0 < |b| <= width
  {
    forall m | 0 <= m < |values| ensures PointAt(values[m], width, blocks, m) {
      CutPointAt(values, width, blocks, m);
    }
    forall b | b in blocks ensures 0 < |b| <= width {
      var i :| 0 <= i < |blocks| && blocks[i] == b;
      CutAt(values, width, blocks, i);
    }
  }

  // ---- what a lookup finds

  lemma StartFits(pos: nat, fixedPages: nat, slidePages: nat)
    requires pos >= slidePages
    ensures slidePages <= Span(pos, fixedPages + slidePages)
  {
    if slidePages > 0 {
      SpanMono(1, pos, fixedPages + slidePages);
      SpanSum(0, 1, fixedPages + slidePages);
    }
  }

  function RangeAt(pos: nat, rpp: nat, fixedPages: nat, slidePages: nat, maxY: nat): (nat, nat) {
    var first := Span(pos, fixedPages + slidePages);
    StartFits(if pos >= slidePages then pos else slidePages, fixedPages, slidePages);
    var start := if pos >= slidePages then first - slidePages else first;
    var stop := Span(start + fixedPages + 2 * slidePages, rpp);
    (Span(start, rpp), if maxY + 1 < stop then maxY + 1 else stop)
  }

  /** Where the pages of point `pos` begin and end, in records. */
  lemma RangeEnds(pos: nat, rpp: nat, fixedPages: nat, slidePages: nat, maxY: nat)
    ensures var group, slide := GroupWidth(rpp, fixedPages, slidePages), Span(slidePages, rpp);
      var (begin, end) := RangeAt(pos, rpp, fixedPages, slidePages, maxY);
      && begin == (if pos >= slidePages then Span(pos, group) - slide else Span(pos, group))
      && end == (var stop := begin + group + slide; if maxY + 1 < stop then maxY + 1 else stop)
  {
    if pos >= slidePages { StartFits(pos, fixedPages, slidePages); }
    var start := Span(pos, fixedPages + slidePages) - if pos >= slidePages then slidePages else 0;
    StartSpan(pos, fixedPages, slidePages, start, rpp);
    StopSpan(start, fixedPages, slidePages, rpp);
  }

  lemma StartSpan(pos: nat, fixedPages: nat, slidePages: nat, start: nat, rpp: nat)
    requires start + (if pos >= slidePages then slidePages else 0) == Span(pos, fixedPages + slidePages)
    ensures Span(start, rpp) + (if pos >= slidePages then Span(slidePages, rpp) else 0)
         == Span(pos, Span(fixedPages + slidePages, rpp))
  {
    SpanOfSpan(pos, fixedPages + slidePages, rpp);
    if pos >= slidePages { SpanSum(start, slidePages, rpp); }
  }

  lemma StopSpan(start: nat, fixedPages: nat, slidePages: nat, rpp: nat)
    ensures Span(start + fixedPages + 2 * slidePages, rpp)
         == Span(start, rpp) + Span(fixedPages + slidePages, rpp) + Span(slidePages, rpp)
  {
    var w := fixedPages + slidePages;
    SpanSum(start, w + slidePages, rpp);
    SpanSum(w, slidePages, rpp);
    assert start + fixedPages + 2 * slidePages == start + (w + slidePages);
  }

  lemma {:induction false} SpanOfSpan(a: nat, b: nat, c: nat)
    ensures Span(Span(a, b), c) == Span(a, Span(b, c))
  {
    if a > 0 {
      SpanOfSpan(a - 1, b, c);
      SpanSum(Span(a - 1, b), b, c);
    }
  }

  /** The point found for a stored key: its group ends beyond the key, and it begins no
      more than a slide after it. */
  lemma PointOf(data: seq<int>, group: nat, slide: nat, lower: seq<int>, upper: seq<int>, values: seq<int>, q: nat)
    requires Keys(data) && 0 < group && slide <= group && BoundsOk(data, group, slide, lower, upper)
    requires Within(lower, upper, values) && q < |data|
    ensures var pos := FirstAtLeast(values, data[q]);
      pos < |lower| && q < Span(pos + 1, group) && (pos > 0 ==> slide <= Span(pos, group) && Span(pos, group) - slide < q)
  {
    var p, pos := |lower|, FirstAtLeast(values, data[q]);
    assert lower[p - 1] <= values[p - 1];
    if pos < p - 1 { EndsBeyond(data, group, slide, lower, upper, values, q, pos); }
    if pos > 0 { BeginsBefore(data, group, slide, lower, upper, values, q, pos); }
  }

  /** A point with a value not below the key ends its group beyond the key. */
  lemma EndsBeyond(data: seq<int>, group: nat, slide: nat, lower: seq<int>, upper: seq<int>, values: seq<int>,
                   q: nat, pos: nat)
    requires Keys(data) && BoundsOk(data, group, slide, lower, upper) && Within(lower, upper, values)
    requires q < |data| && pos < |lower| - 1 && data[q] <= values[pos]
    ensures q < Span(pos + 1, group)
  {
    assert BorderOk(data, group, slide, pos, lower[pos], upper[pos]);
    assert values[pos] <= upper[pos];
  }

  /** A point after one with a value below the key begins no more than a slide after the key. */
  lemma BeginsBefore(data: seq<int>, group: nat, slide: nat, lower: seq<int>, upper: seq<int>, values: seq<int>,
                     q: nat, pos: nat)
    requires Keys(data) && BoundsOk(data, group, slide, lower, upper) && Within(lower, upper, values)
    requires q < |data| && 0 < pos < |lower| && values[pos - 1] < data[q]
    ensures slide <= Span(pos, group) && Span(pos, group) - slide < q
  {
    assert BorderOk(data, group, slide, pos - 1, lower[pos - 1], upper[pos - 1]);
    assert lower[pos - 1] <= values[pos - 1];
  }

  /** The zone map finds the record: for any values within the bounds, the range of a
      stored key contains its position, except that a point before the first full slide
      is not widened to the left. */
  lemma LookupFinds(data: seq<int>, rpp: nat, fixedPages: nat, slidePages: nat, lower: seq<int>, upper: seq<int>,
                    values: seq<int>, q: nat)
    requires Keys(data) && rpp > 0 && fixedPages + slidePages > 0 && q < |data| && Within(lower, upper, values)
    requires BoundsOk(data, GroupWidth(rpp, fixedPages, slidePages), SlideWidth(rpp, fixedPages, slidePages), lower, upper)
    ensures var pos := FirstAtLeast(values, data[q]);
      var (begin, end) := RangeAt(pos, rpp, fixedPages, slidePages, |data| - 1);
      begin <= q < end
      <==> pos == 0 || pos >= slidePages || q >= Span(pos, GroupWidth(rpp, fixedPages, slidePages))
  {
    var group, slide := GroupWidth(rpp, fixedPages, slidePages), SlideWidth(rpp, fixedPages, slidePages);
    var pos := FirstAtLeast(values, data[q]);
    SlideFits(rpp, fixedPages, slidePages);
    PointOf(data, group, slide, lower, upper, values, q);
    RangeEnds(pos, rpp, fixedPages, slidePages, |data| - 1);
    SpanSum(pos, 1, group);
    SpanSum(0, 1, group);
  }

  /** Position `q` lies in group `g`. */
  predicate InGroup(q: nat, g: nat, group: nat) {
    Span(g, group) <= q < Span(g + 1, group)
  }

  lemma NearGroup(q: nat, g: nat, pos: nat, group: nat, slide: nat)
    requires InGroup(q, g, group) && q < Span(pos + 1, group) && slide <= group
    requires pos > 0 ==> slide <= Span(pos, group) && Span(pos, group) - slide < q
    ensures g <= pos <= g + 1 && (q >= Span(pos, group) <==> pos == g)
  {
    SpanSum(g + 1, 1, group);
    SpanSum(0, 1, group);
    if pos < g { SpanMono(pos + 1, g, group); }
    if pos > g + 1 { SpanMono(g + 2, pos, group); }
  }

  /** The point of a key is that of its own group or the next one, depending on the group's value. */
  lemma OwnOrNext(values: seq<int>, key: int, g: nat, pos: nat)
    requires (forall i, j | 0 <= i < j < |values| :: values[i] < values[j]) && g < |values|
    requires pos == FirstAtLeast(values, key) && g <= pos <= g + 1
    ensures pos == if values[g] < key then g + 1 else g
  {
  }

  /** Exactly when a stored key is found, in terms of the key's own group of pages: the
      group's value is not below the key, or there is a full slide before the next group. */
  lemma FindsByOwnGroup(data: seq<int>, rpp: nat, fixedPages: nat, slidePages: nat, lower: seq<int>, upper: seq<int>,
                        values: seq<int>, q: nat, g: nat)
    requires Keys(data) && rpp > 0 && fixedPages + slidePages > 0 && q < |data| && Within(lower, upper, values)
    requires BoundsOk(data, GroupWidth(rpp, fixedPages, slidePages), SlideWidth(rpp, fixedPages, slidePages), lower, upper)
    requires InGroup(q, g, GroupWidth(rpp, fixedPages, slidePages))
    ensures var (begin, end) := RangeAt(FirstAtLeast(values, data[q]), rpp, fixedPages, slidePages, |data| - 1);
      g < |values| && (begin <= q < end <==> values[g] >= data[q] || g + 1 >= slidePages)
  {
    var group, slide := GroupWidth(rpp, fixedPages, slidePages), SlideWidth(rpp, fixedPages, slidePages);
    SlideFits(rpp, fixedPages, slidePages);
    var pos := FirstAtLeast(values, data[q]);
    PointOf(data, group, slide, lower, upper, values, q);
    NearGroup(q, g, pos, group, slide);
    forall i, j | 0 <= i < j < |values| ensures values[i] < values[j] {
      DecodedIncrease(data, group, slide, lower, upper, values, i, j);
    }
    OwnOrNext(values, data[q], g, pos);
    LookupFinds(data, rpp, fixedPages, slidePages, lower, upper, values, q);
  }

  /** With at most one sliding page, the record is always found. */
  lemma OneSlideFinds(data: seq<int>, rpp: nat, fixedPages: nat, slidePages: nat, lower: seq<int>, upper: seq<int>,
                      values: seq<int>, q: nat)
    requires Keys(data) && rpp > 0 && fixedPages + slidePages > 0 && q < |data| && Within(lower, upper, values)
    requires BoundsOk(data, GroupWidth(rpp, fixedPages, slidePages), SlideWidth(rpp, fixedPages, slidePages), lower, upper)
    requires slidePages <= 1
    ensures var (begin, end) := RangeAt(FirstAtLeast(values, data[q]), rpp, fixedPages, slidePages, |data| - 1);
      begin <= q < end
  {
    LookupFinds(data, rpp, fixedPages, slidePages, lower, upper, values, q);
  }
}
