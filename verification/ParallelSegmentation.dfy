/** The segmentation of large inputs: chunks of the data are segmented on their
    own and the segments are put together. */
module ParallelSegmentation {
  import opened Corridor
  import opened PiecewiseLinearModel
  import opened Segmentation

  /** Inputs from this size on are cut into chunks. */
  const CHUNKED_FROM: nat := 0x8000

  // ---- distinct keys of parts

  /** The ranges of the data from `a` up to, not including, `b`, one for each run of equal keys. */
  function Points(epsilon: Word, data: seq<Datum>, a: nat, b: nat): (r: seq<Range>)
    requires a <= b <= |data|
    ensures a < b ==> |r| > 0
  {
    if a == b then []
    else if a < b - 1 && Repeats(data, b - 1) then Points(epsilon, data, a, b - 1)
    else Points(epsilon, data, a, b - 1) + [RangeOf(epsilon, data[b - 1])]
  }

  predicate Repeats(data: seq<Datum>, k: nat) {
    0 < k < |data| && data[k].x == data[k - 1].x
  }

  lemma {:induction false} PointsAreDistinct(epsilon: Word, data: seq<Datum>, a: nat, b: nat)
    requires a <= b <= |data|
    ensures Points(epsilon, data, a, b) == Distinct(epsilon, data[a..b])
  {
    if a < b {
      PointsAreDistinct(epsilon, data, a, b - 1);
      assert data[a..b][..b - 1 - a] == data[a..b - 1];
    }
  }

  lemma {:induction false} PointsSplit(epsilon: Word, data: seq<Datum>, a: nat, b: nat)
    requires a < b <= |data| && !Repeats(data, a)
    ensures Points(epsilon, data, 0, b) == Points(epsilon, data, 0, a) + Points(epsilon, data, a, b)
  {
    if a < b - 1 { PointsSplit(epsilon, data, a, b - 1); }
  }

  /** Skipping repeated keys changes nothing. */
  lemma {:induction false} SkippedAddsNothing(epsilon: Word, data: seq<Datum>, start: nat, a: nat, b: nat)
    requires start < a <= b <= |data| && forall k | a <= k < b :: Repeats(data, k)
    ensures Points(epsilon, data, start, b) == Points(epsilon, data, start, a)
  {
    if a < b { SkippedAddsNothing(epsilon, data, start, a, b - 1); }
  }

  lemma {:induction false} PointsPrefix(epsilon: Word, data: seq<Datum>, a: nat, b: nat)
    requires a <= b <= |data|
    ensures Points(epsilon, data, 0, a) <= Points(epsilon, data, 0, b)
  {
    if a < b { PointsPrefix(epsilon, data, a, b - 1); }
  }

  /** Where a chunk starts, past the keys that the chunk before it ends with. */
  function ChunkFirst(data: seq<Datum>, first: nat, last: nat): (f: nat)
    requires first <= last <= |data|
    ensures first <= f <= last && (first == 0 ==> f == 0)
    ensures f < last ==> !Repeats(data, f)
    ensures forall k | first <= k < f :: Repeats(data, k)
    decreases last - first
  {
    if first == 0 || first == last || !Repeats(data, first) then first
    else ChunkFirst(data, first + 1, last)
  }

  method SkipRepeated(data: seq<Datum>, begin: nat, last: nat) returns (first: nat)
    requires begin <= last <= |data|
    ensures first == ChunkFirst(data, begin, last)
  {
    first := begin;
    if first > 0 {
      while first < last && data[first].x == data[first - 1].x
        invariant begin <= first <= last && ChunkFirst(data, first, last) == ChunkFirst(data, begin, last)
      {
        first := first + 1;
      }
    }
  }

  // ---- joining segmentations

  function Shifted(cuts: seq<nat>, offset: nat): (c: seq<nat>)
    ensures |c| == |cuts| && forall i | 0 <= i < |c| :: c[i] == cuts[i] + offset
  {
    seq(|cuts|, i requires 0 <= i < |cuts| => cuts[i] + offset)
  }

  lemma JoinCuts(a: seq<nat>, n: nat, b: seq<nat>, m: nat)
    requires Cuts(a, n) && Cuts(b, m)
    ensures Cuts(a[..|a| - 1] + Shifted(b, n), n + m)
  {
  }

  lemma JoinFits(s: seq<CanonicalSegment>, a: seq<nat>, p: seq<Range>,
                 t: seq<CanonicalSegment>, b: seq<nat>, q: seq<Range>)
    requires SegmentsFit(s, a, p) && SegmentsFit(t, b, q)
    ensures SegmentsFit(s + t, a[..|a| - 1] + Shifted(b, |p|), p + q)
  {
    var c, all := a[..|a| - 1] + Shifted(b, |p|), s + t;
    JoinCuts(a, |p|, b, |q|);
    forall i, j | 0 <= i < |all| && j == i + 1 ensures Fits(all[i], (p + q)[c[i]..c[j]]) {
      if i < |s| { FitsInFirst(s, a, p, b, q, i); } else { FitsInSecond(a, p, t, b, q, i - |s|); }
    }
  }

  lemma FitsInFirst(s: seq<CanonicalSegment>, a: seq<nat>, p: seq<Range>, b: seq<nat>, q: seq<Range>, i: nat)
    requires SegmentsFit(s, a, p) && Cuts(b, |q|) && i < |s|
    ensures var c := a[..|a| - 1] + Shifted(b, |p|);
      && c[i] <= c[i + 1] <= |p| && Fits(s[i], (p + q)[c[i]..c[i + 1]])
  {
    var c := a[..|a| - 1] + Shifted(b, |p|);
    assert Fits(s[i], p[a[i]..a[i + 1]]);
    assert c[i] == a[i] && c[i + 1] == a[i + 1];
    assert (p + q)[a[i]..a[i + 1]] == p[a[i]..a[i + 1]];
  }

  lemma FitsInSecond(a: seq<nat>, p: seq<Range>, t: seq<CanonicalSegment>, b: seq<nat>, q: seq<Range>, i: nat)
    requires Cuts(a, |p|) && SegmentsFit(t, b, q) && i < |t|
    ensures var c, j := a[..|a| - 1] + Shifted(b, |p|), |a| - 1 + i;
      && c[j] <= c[j + 1] <= |p + q| && Fits(t[i], (p + q)[c[j]..c[j + 1]])
  {
    assert Fits(t[i], q[b[i]..b[i + 1]]);
    PartOfSecond(p, q, b[i], b[i + 1]);
  }

  lemma PartOfSecond(p: seq<Range>, q: seq<Range>, a: nat, b: nat)
    requires a <= b <= |q|
    ensures (p + q)[a + |p|..b + |p|] == q[a..b]
  {
  }

  // ---- how many segments the chunks cost

  /** The number of cuts before position `e`: the blocks that start before it. */
  function Starts(c: seq<nat>, e: nat): (k: nat)
    ensures k <= |c|
  {
    if c == [] then 0 else Starts(c[..|c| - 1], e) + if c[|c| - 1] < e then 1 else 0
  }

  lemma {:induction false} StartsIs(c: seq<nat>, e: nat, k: nat)
    requires k <= |c| && (forall i | 0 <= i < k :: c[i] < e) && (forall i | k <= i < |c| :: e <= c[i])
    ensures Starts(c, e) == k
  {
    if c != [] {
      var d := c[..|c| - 1];
      StartsIs(d, e, if k == |c| then k - 1 else k);
    }
  }

  lemma {:induction false} StartsSplits(c: seq<nat>, e: nat)
    requires forall i, j | 0 <= i < j < |c| :: c[i] < c[j]
    ensures forall i | 0 <= i < Starts(c, e) :: c[i] < e
    ensures forall i | Starts(c, e) <= i < |c| :: e <= c[i]
  {
    if c != [] {
      StartsSplits(c[..|c| - 1], e);
    }
  }

  /** `g` are greedy cuts of the points from `e` to `f`; block `j` of the division
      `c` is the one that holds `e`. Then `g` stays ahead of `c` from there. */
  lemma {:induction false} ChunkIsAhead(g: seq<nat>, e: nat, f: nat, c: seq<nat>, points: seq<Range>, j: nat, i: nat)
    requires e <= f <= |points| && GreedyCuts(g, points[e..f]) && StabbableCuts(c, points)
    requires j < |c| && c[j] <= e && i < |g| - 1 && j + i < |c|
    ensures c[j + i] <= e + g[i]
  {
    if i > 0 {
      ChunkIsAhead(g, e, f, c, points, j, i - 1);
      var part := points[e..f];
      assert SpanStabs(points, c[j + i - 1], c[j + i]);
      assert !SpanStabs(part, g[i - 1], g[i] + 1);
      if e + g[i] < c[j + i] {
        SpanNarrows(points, c[j + i - 1], c[j + i], e + g[i - 1], e + g[i] + 1);
        SliceOfSlice(points, e, f, e + g[i - 1], e + g[i] + 1);
      }
    }
  }

  /** A chunk has at most one segment more than blocks of any division start in it. */
  lemma ChunkCost(g: seq<nat>, e: nat, f: nat, c: seq<nat>, points: seq<Range>)
    requires e < f <= |points| && GreedyCuts(g, points[e..f]) && StabbableCuts(c, points)
    ensures |g| - 1 + Starts(c, e) <= Starts(c, f) + if e == 0 then 0 else 1
  {
    StartsSplits(c, e);
    StartsSplits(c, f);
    assert c[|c| - 1] == |points| >= f;
    var j := if e == 0 then 0 else Starts(c, e) - 1;
    assert c[0] == 0;
    assert c[j] <= e;
    var last := |g| - 2;
    if j + last < |c| {
      ChunkIsAhead(g, e, f, c, points, j, last);
      assert g[last] < g[|g| - 1];
      assert c[j + last] < f;
    } else {
      ChunkIsAhead(g, e, f, c, points, j, |c| - 1 - j);
      assert false;
    }
  }

  // ---- the chunks

  function Begin(size: nat, i: nat): nat {
    if i == 0 then 0 else Begin(size, i - 1) + size
  }

  lemma {:induction false} BeginIsProduct(size: nat, i: nat)
    ensures Begin(size, i) == i * size
  {
    if i > 0 { BeginIsProduct(size, i - 1); }
  }

  lemma {:induction false} BeginMono(size: nat, i: nat, j: nat)
    requires i <= j
    ensures Begin(size, i) <= Begin(size, j)
  {
    if i < j { BeginMono(size, i, j - 1); }
  }

  /** `parallelism` chunks of `size` and a remainder in the last one. */
  predicate Sized(n: nat, size: nat, parallelism: nat) {
    parallelism > 0 && size > 0 && Begin(size, parallelism) <= n
  }

  lemma SizeOfChunks(n: nat, parallelism: nat)
    requires 0 < parallelism <= n
    ensures Sized(n, n / parallelism, parallelism)
  {
    BeginIsProduct(n / parallelism, parallelism);
    assert n == parallelism * (n / parallelism) + n % parallelism;
  }

  function EndOf(n: nat, size: nat, parallelism: nat, i: nat): (e: nat)
    requires Sized(n, size, parallelism) && i < parallelism
    ensures Begin(size, i) < e <= n
  {
    BeginMono(size, i + 1, parallelism);
    if i == parallelism - 1 then n else Begin(size, i) + size
  }

  /** Where the last of the first `i` chunks that is not empty starts. */
  function LastStart(data: seq<Datum>, size: nat, parallelism: nat, i: nat): (s: nat)
    requires Sized(|data|, size, parallelism) && 0 < i <= parallelism
    ensures s <= |data|
  {
    var e := EndOf(|data|, size, parallelism, i - 1);
    var f := ChunkFirst(data, Begin(size, i - 1), e);
    if i == 1 || f < e then f else LastStart(data, size, parallelism, i - 1)
  }

  predicate Chunked(n: nat, parallelism: nat) {
    parallelism > 1 && n >= CHUNKED_FROM
  }

  /** The points that are segmented last. */
  function LastPart(epsilon: Word, data: seq<Datum>, parallelism: nat): seq<Range>
    requires 0 < parallelism <= CHUNKED_FROM
  {
    if !Chunked(|data|, parallelism) then Points(epsilon, data, 0, |data|)
    else
      SizeOfChunks(|data|, parallelism);
      Points(epsilon, data, LastStart(data, |data| / parallelism, parallelism, parallelism), |data|)
  }

  // ---- the loop over the chunks

  lemma UsableSlice(epsilon: Word, data: seq<Datum>, a: nat, b: nat)
    requires Sorted(data) && Usable(epsilon, data) && a <= b <= |data|
    ensures Sorted(data[a..b]) && Usable(epsilon, data[a..b])
  {
    assert Ranges(epsilon, data[a..b]) == Ranges(epsilon, data)[a..b];
  }

  /** The last segment is that of the last block of the part segmented last. */
  ghost predicate TailFits(segments: seq<CanonicalSegment>, part: seq<Range>, tail: seq<nat>) {
    && GreedyCuts(tail, part) && |tail| >= 2 && |segments| > 0
    && Fits(segments[|segments| - 1], part[tail[|tail| - 2]..])
  }

  lemma LastFits(segments: seq<CanonicalSegment>, cuts: seq<nat>, points: seq<Range>)
    requires GreedyCuts(cuts, points) && SegmentsFit(segments, cuts, points) && |points| > 0
    ensures TailFits(segments, points, cuts)
  {
    var c := |segments|;
    assert Fits(segments[c - 1], points[cuts[c - 1]..cuts[c]]);
    assert points[cuts[c - 1]..cuts[c]] == points[cuts[c - 1]..];
  }

  /** The points segmented last end with a block of one point exactly if the last segment is a single point. */
  lemma TailAlone(segments: seq<CanonicalSegment>, part: seq<Range>, tail: seq<nat>)
    requires TailFits(segments, part, tail) && Segmentation.Proper(part)
    ensures EndsAlone(part) <==> segments[|segments| - 1].OnePoint()
  {
    assert tail[|tail| - 2] + 1 == |part| <==> segments[|segments| - 1].OnePoint();
    if EndsAlone(part) {
      var g :| GreedyCuts(g, part) && |g| >= 2 && g[|g| - 2] + 1 == |part|;
      GreedyIsUnique(g, tail, part);
    }
  }

  /** No division of all points has fewer blocks up to `e`, apart from one for each chunk after the first. */
  ghost predicate CostsAtMost(count: nat, all: seq<Range>, e: nat, chunks: nat) {
    forall c {:trigger StabbableCuts(c, all)} | StabbableCuts(c, all) :: count <= Starts(c, e) + chunks - 1
  }

  /** The chunks up to position `pos` are segmented. */
  ghost predicate Assembled(segments: seq<CanonicalSegment>, cuts: seq<nat>, epsilon: Word, data: seq<Datum>,
                            pos: nat, chunks: nat, start: nat, tail: seq<nat>)
  {
    && start < pos <= |data|
    && SegmentsFit(segments, cuts, Points(epsilon, data, 0, pos))
    && TailFits(segments, Points(epsilon, data, start, pos), tail)
    && CostsAtMost(|segments|, Points(epsilon, data, 0, |data|), |Points(epsilon, data, 0, pos)|, chunks)
  }

  lemma ChunkSkipped(segments: seq<CanonicalSegment>, cuts: seq<nat>, epsilon: Word, data: seq<Datum>,
                     pos: nat, chunks: nat, start: nat, tail: seq<nat>, end: nat)
    requires Assembled(segments, cuts, epsilon, data, pos, chunks, start, tail) && pos <= end <= |data|
    requires forall k | pos <= k < end :: Repeats(data, k)
    ensures Assembled(segments, cuts, epsilon, data, end, chunks + 1, start, tail)
  {
    SkippedAddsNothing(epsilon, data, 0, pos, end);
    SkippedAddsNothing(epsilon, data, start, pos, end);
  }

  lemma ChunkJoined(segments: seq<CanonicalSegment>, cuts: seq<nat>, epsilon: Word, data: seq<Datum>,
                    pos: nat, chunks: nat, start: nat, tail: seq<nat>,
                    first: nat, end: nat, more: seq<CanonicalSegment>, g: seq<nat>)
    returns (joined: seq<nat>)
    requires Assembled(segments, cuts, epsilon, data, pos, chunks, start, tail)
    requires pos <= first < end <= |data| && !Repeats(data, first)
    requires forall k | pos <= k < first :: Repeats(data, k)
    requires GreedyCuts(g, Points(epsilon, data, first, end)) && SegmentsFit(more, g, Points(epsilon, data, first, end))
    ensures Assembled(segments + more, joined, epsilon, data, end, chunks + 1, first, g)
  {
    var p, q := Points(epsilon, data, 0, pos), Points(epsilon, data, first, end);
    SkippedAddsNothing(epsilon, data, 0, pos, first);
    PointsSplit(epsilon, data, first, end);
    joined := cuts[..|cuts| - 1] + Shifted(g, |p|);
    JoinFits(segments, cuts, p, more, g, q);
    LastFits(more, g, q);
    PointsPrefix(epsilon, data, end, |data|);
    ChunkAdds(|segments|, Points(epsilon, data, 0, |data|), chunks, p, q, g);
  }

  lemma ChunkAdds(count: nat, all: seq<Range>, chunks: nat, p: seq<Range>, q: seq<Range>, g: seq<nat>)
    requires p + q <= all && |p| > 0 && |q| > 0
    requires GreedyCuts(g, q) && CostsAtMost(count, all, |p|, chunks)
    ensures CostsAtMost(count + |g| - 1, all, |p + q|, chunks + 1)
  {
    assert all[|p|..|p + q|] == q;
    forall c | StabbableCuts(c, all) ensures count + |g| - 1 <= Starts(c, |p + q|) + chunks {
      ChunkCost(g, |p|, |p + q|, c, all);
    }
  }

  method SegmentPart(epsilon: Word, data: seq<Datum>, first: nat, end: nat)
    returns (segments: seq<CanonicalSegment>, ghost cuts: seq<nat>)
    requires Sorted(data) && Usable(epsilon, data) && first <= end <= |data|
    ensures GreedyCuts(cuts, Points(epsilon, data, first, end))
    ensures SegmentsFit(segments, cuts, Points(epsilon, data, first, end))
  {
    UsableSlice(epsilon, data, first, end);
    PointsAreDistinct(epsilon, data, first, end);
    var count;
    segments, count, cuts := MakeSegmentation(epsilon, data[first..end]);
  }

  /** The first chunk. */
  method FirstChunk(epsilon: Word, data: seq<Datum>, end: nat)
    returns (segments: seq<CanonicalSegment>, ghost cuts: seq<nat>)
    requires Sorted(data) && Usable(epsilon, data) && 0 < end <= |data|
    ensures Assembled(segments, cuts, epsilon, data, end, 1, 0, cuts)
  {
    segments, cuts := SegmentPart(epsilon, data, 0, end);
    ghost var q, all := Points(epsilon, data, 0, end), Points(epsilon, data, 0, |data|);
    LastFits(segments, cuts, q);
    PointsPrefix(epsilon, data, end, |data|);
    assert all[0..|q|] == q;
    forall c | StabbableCuts(c, all) ensures |segments| <= Starts(c, |q|) {
      ChunkCost(cuts, 0, |q|, c, all);
    }
  }

  /** A later chunk: skipped if all its keys repeat the last one before it. */
  method NextChunk(epsilon: Word, data: seq<Datum>, pos: nat, end: nat, segments: seq<CanonicalSegment>,
                   ghost cuts: seq<nat>, ghost chunks: nat, ghost start: nat, ghost tail: seq<nat>)
    returns (after: seq<CanonicalSegment>, ghost cutsAfter: seq<nat>, ghost startAfter: nat, ghost tailAfter: seq<nat>)
    requires Sorted(data) && Usable(epsilon, data) && pos <= end <= |data|
    requires Assembled(segments, cuts, epsilon, data, pos, chunks, start, tail)
    ensures Assembled(after, cutsAfter, epsilon, data, end, chunks + 1, startAfter, tailAfter)
    ensures startAfter == if ChunkFirst(data, pos, end) < end then ChunkFirst(data, pos, end) else start
  {
    var first := SkipRepeated(data, pos, end);
    if first == end {
      ChunkSkipped(segments, cuts, epsilon, data, pos, chunks, start, tail, end);
      return segments, cuts, start, tail;
    }
    var more;
    more, tailAfter := SegmentPart(epsilon, data, first, end);
    after, startAfter := segments + more, first;
    cutsAfter := ChunkJoined(segments, cuts, epsilon, data, pos, chunks, start, tail, first, end, more, tailAfter);
  }

  /** The segments of all chunks, in order: they fit consecutive blocks of the
      distinct keys, and any division into stabbable blocks saves at most one
      segment for each chunk after the first. */
  method MakeSegmentationPar(epsilon: Word, data: seq<Datum>, parallelism: nat)
    returns (segments: seq<CanonicalSegment>, ghost cuts: seq<nat>, ghost tail: seq<nat>)
    requires Sorted(data) && Usable(epsilon, data) && |data| > 0 && 0 < parallelism <= CHUNKED_FROM
    ensures SegmentsFit(segments, cuts, Distinct(epsilon, data))
    ensures TailFits(segments, LastPart(epsilon, data, parallelism), tail)
    ensures !Chunked(|data|, parallelism) ==> GreedyCuts(cuts, Distinct(epsilon, data))
    ensures forall c | StabbableCuts(c, Distinct(epsilon, data)) ::
      |segments| <= |c| - 1 + if Chunked(|data|, parallelism) then parallelism - 1 else 0
  {
    if !Chunked(|data|, parallelism) {
      segments, cuts := FirstChunk(epsilon, data, |data|);
      tail := cuts;
    } else {
      SizeOfChunks(|data|, parallelism);
      segments, cuts, tail := SegmentChunks(epsilon, data, |data| / parallelism, parallelism);
    }
    PointsAreDistinct(epsilon, data, 0, |data|);
    assert data[0..|data|] == data;
    AllStart(|segments|, Distinct(epsilon, data), if Chunked(|data|, parallelism) then parallelism else 1);
  }

  lemma AllStart(count: nat, all: seq<Range>, chunks: nat)
    requires CostsAtMost(count, all, |all|, chunks)
    ensures forall c | StabbableCuts(c, all) :: count <= |c| - 1 + chunks - 1
  {
    forall c | StabbableCuts(c, all) ensures count <= |c| - 1 + chunks - 1 {
      StartsIs(c, |all|, |c| - 1);
    }
  }

  method SegmentChunks(epsilon: Word, data: seq<Datum>, size: nat, parallelism: nat)
    returns (segments: seq<CanonicalSegment>, ghost cuts: seq<nat>, ghost tail: seq<nat>)
    requires Sorted(data) && Usable(epsilon, data) && Sized(|data|, size, parallelism)
    ensures Assembled(segments, cuts, epsilon, data, |data|, parallelism,
                      LastStart(data, size, parallelism, parallelism), tail)
  {
    BeginMono(size, 1, parallelism);
    var pos := if parallelism == 1 then |data| else size;
    segments, cuts := FirstChunk(epsilon, data, pos);
    tail := cuts;
    ghost var start := 0;
    for i := 1 to parallelism
      invariant pos == EndOf(|data|, size, parallelism, i - 1)
      invariant start == LastStart(data, size, parallelism, i)
      invariant Assembled(segments, cuts, epsilon, data, pos, i, start, tail)
    {
      var end := if i == parallelism - 1 then |data| else pos + size;
      assert pos == Begin(size, i) && end == EndOf(|data|, size, parallelism, i);
      segments, cuts, start, tail := NextChunk(epsilon, data, pos, end, segments, cuts, i, start, tail);
      pos := end;
    }
  }
}
