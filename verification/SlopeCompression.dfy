/** Merging the slopes of many segments into few shared ones: greedy stabbing of
    the slope ranges, valid for every segment and with as few slopes as possible. */
module SlopeCompression {

  /** What the compressor knows of a segment: the range of slopes it tolerates
      and the point all its admissible lines pass through. */
  datatype SlopeRange = SlopeRange(min: real, max: real, ix: real, iy: real, key: int)

  /** `std::round`: to the nearest integer, halves away from zero. */
  function Round(r: real): int {
    if r >= 0.0 then (r + 0.5).Floor else -((-r + 0.5).Floor)
  }

  lemma RoundIsNear(r: real)
    ensures r - 0.5 <= Round(r) as real <= r + 0.5
  {
  }

  ghost predicate Proper(segments: seq<SlopeRange>) {
    forall i | 0 <= i < |segments| :: segments[i].min <= segments[i].max
  }

  /** The values `order[0..]` are the indices of `segments`, each exactly once, in the order of
      the slope ranges: by minimum, and by maximum where minima are equal. */
  ghost predicate SortedOrder(segments: seq<SlopeRange>, order: seq<nat>) {
    && |order| == |segments|
    && (forall p | 0 <= p < |order| :: order[p] < |segments|)
    && (forall i | 0 <= i < |segments| :: i in order)
    && (forall p, q | 0 <= p < q < |order| :: order[p] != order[q])
    && (forall p, q | 0 <= p < q < |order| :: !Before(segments[order[q]], segments[order[p]]))
  }

  predicate Before(a: SlopeRange, b: SlopeRange) {
    a.min < b.min || (a.min == b.min && a.max < b.max)
  }

  /** The order sorts the first `i` segments. */
  ghost predicate SortsFirst(segments: seq<SlopeRange>, i: nat, order: seq<nat>) {
    && |order| == i <= |segments|
    && (forall p | 0 <= p < i :: order[p] < i)
    && (forall k | 0 <= k < i :: k in order)
    && (forall p, q | 0 <= p < q < i :: order[p] != order[q])
    && (forall p, q | 0 <= p < q < i :: !Before(segments[order[q]], segments[order[p]]))
  }

  /** Sorts the indices by slope range, as `sort_indexes` does. */
  method SortIndexes(segments: seq<SlopeRange>) returns (order: seq<nat>)
    ensures SortedOrder(segments, order)
  {
    order := [];
    for i := 0 to |segments|
      invariant SortsFirst(segments, i, order)
    {
      var p := PlaceFor(segments, i, order);
      InsertKeepsOrder(segments, order, i, p);
      order := order[..p] + [i] + order[p..];
    }
  }

  method PlaceFor(segments: seq<SlopeRange>, i: nat, order: seq<nat>) returns (p: nat)
    requires i < |segments| && SortsFirst(segments, i, order)
    ensures p <= i && (p > 0 ==> !Before(segments[i], segments[order[p - 1]]))
    ensures forall q | p <= q < i :: !Before(segments[order[q]], segments[i])
  {
    p := i;
    while p > 0 && Before(segments[i], segments[order[p - 1]])
      invariant 0 <= p <= i
      invariant forall q | p <= q < i :: !Before(segments[order[q]], segments[i])
    {
      p := p - 1;
    }
  }

  lemma InsertKeepsOrder(segments: seq<SlopeRange>, order: seq<nat>, i: nat, p: nat)
    requires i < |segments| && SortsFirst(segments, i, order) && p <= i
    requires forall q | p <= q < i :: !Before(segments[order[q]], segments[i])
    requires p > 0 ==> !Before(segments[i], segments[order[p - 1]])
    ensures SortsFirst(segments, i + 1, order[..p] + [i] + order[p..])
  {
    var o := order[..p] + [i] + order[p..];
    InsertedAt(order, i, p);
    forall k | 0 <= k < i + 1 ensures k in o {
      if k < i {
        assert k in order;
        var q :| 0 <= q < |order| && order[q] == k;
        assert o[if q < p then q else q + 1] == k;
      } else {
        assert o[p] == k;
      }
    }
    InsertedPairs(segments, order, i, p);
  }

  lemma InsertedAt(order: seq<nat>, i: nat, p: nat)
    requires p <= |order|
    ensures var o := order[..p] + [i] + order[p..];
      |o| == |order| + 1 && forall a | 0 <= a < |o| ::
        o[a] == if a < p then order[a] else if a == p then i else order[a - 1]
  {
  }

  lemma InsertedPairs(segments: seq<SlopeRange>, order: seq<nat>, i: nat, p: nat)
    requires i < |segments| && SortsFirst(segments, i, order) && p <= i
    requires forall q | p <= q < i :: !Before(segments[order[q]], segments[i])
    requires p > 0 ==> !Before(segments[i], segments[order[p - 1]])
    ensures var o := order[..p] + [i] + order[p..];
      forall a, b | 0 <= a < b < |o| :: o[a] != o[b] && o[a] <= i && o[b] <= i && !Before(segments[o[b]], segments[o[a]])
  {
    var o := order[..p] + [i] + order[p..];
    InsertedAt(order, i, p);
    forall a, b | 0 <= a < b < |o|
      ensures o[a] != o[b] && o[a] <= i && o[b] <= i && !Before(segments[o[b]], segments[o[a]])
    {
      var a' := if a < p then a else a - 1;
      var b' := if b < p then b else b - 1;
      if a == p {
        assert !Before(segments[order[b']], segments[i]);
      } else if b == p {
        assert !Before(segments[order[p - 1]], segments[order[a']]);
      } else {
        assert order[a'] != order[b'] && !Before(segments[order[b']], segments[order[a']]);
      }
    }
  }

  // ---- greedy stabbing

  ghost predicate Stabs(slopes: set<real>, segments: seq<SlopeRange>) {
    forall i | 0 <= i < |segments| :: StabsOne(slopes, segments[i])
  }

  ghost predicate StabsOne(slopes: set<real>, s: SlopeRange) {
    exists x | x in slopes :: s.min <= x <= s.max
  }

  /** Pairwise disjoint ranges, one behind the other. */
  ghost predicate Disjoint(segments: seq<SlopeRange>, w: seq<nat>) {
    && (forall g | 0 <= g < |w| :: w[g] < |segments|)
    && (forall g, h | 0 <= g < h < |w| :: segments[w[g]].max < segments[w[h]].min)
  }

  lemma {:induction false} DisjointNeedsDistinct(segments: seq<SlopeRange>, w: seq<nat>, slopes: set<real>)
    requires Disjoint(segments, w)
    requires forall g | 0 <= g < |w| :: StabsOne(slopes, segments[w[g]])
    ensures |slopes| >= |w|
  {
    if |w| > 0 {
      var n := |w| - 1;
      assert StabsOne(slopes, segments[w[n]]);
      var x :| x in slopes && segments[w[n]].min <= x <= segments[w[n]].max;
      var rest := slopes - {x};
      forall g | 0 <= g < n ensures StabsOne(rest, segments[w[..n][g]]) {
        assert StabsOne(slopes, segments[w[g]]);
        var y :| y in slopes && segments[w[g]].min <= y <= segments[w[g]].max;
        assert y in rest;
      }
      DisjointNeedsDistinct(segments, w[..n], rest);
    }
  }

  /** The ranges at the first `i` places of the order are assigned to a finished
      slope that they contain, or to the open group, whose common slopes are
      those from `lo` to `hi`. */
  ghost predicate Assigned(segments: seq<SlopeRange>, order: seq<nat>, i: nat, table: seq<real>, mapping: seq<nat>,
                           lo: real, hi: real)
  {
    && SortedOrder(segments, order) && 0 < i <= |order| && |mapping| == |segments| && lo <= hi
    && (forall p {:trigger mapping[order[p]]} | 0 <= p < i ::
          && mapping[order[p]] <= |table|
          && (mapping[order[p]] < |table| ==>
                segments[order[p]].min <= table[mapping[order[p]]] <= segments[order[p]].max)
          && (mapping[order[p]] == |table| ==> segments[order[p]].min <= lo && hi <= segments[order[p]].max))
    && (forall p | i <= p < |order| :: lo <= segments[order[p]].min)
  }

  /** One witness per group, the last one for the open group: ranges lying one
      behind the other, so no slope can serve two of them. */
  ghost predicate Witnessed(segments: seq<SlopeRange>, order: seq<nat>, i: nat, count: nat, hi: real, start: nat, w: seq<nat>)
  {
    && SortedOrder(segments, order) && start < i <= |order| && |w| == count + 1 && Disjoint(segments, w)
    && segments[w[count]].max == hi && (exists p | start <= p < i :: order[p] == w[count])
    && (forall g, p | 0 <= g < count && start <= p < |order| :: segments[w[g]].max < segments[order[p]].min)
  }

  lemma OpenAssigned(segments: seq<SlopeRange>, order: seq<nat>, i: nat, table: seq<real>, mapping: seq<nat>,
                     lo: real, hi: real)
    requires Assigned(segments, order, i, table, mapping, lo, hi) && Proper(segments) && i < |order|
    ensures Assigned(segments, order, i + 1, table + [0.5 * (lo + hi)], mapping[order[i] := |table| + 1],
                     segments[order[i]].min, segments[order[i]].max)
  {
    var m := mapping[order[i] := |table| + 1];
    forall p | 0 <= p < i ensures m[order[p]] == mapping[order[p]] {
      assert order[p] != order[i];
    }
  }

  lemma OpenWitnessed(segments: seq<SlopeRange>, order: seq<nat>, i: nat, count: nat, hi: real, start: nat, w: seq<nat>)
    requires Witnessed(segments, order, i, count, hi, start, w) && i < |order| && segments[order[i]].min > hi
    ensures Witnessed(segments, order, i + 1, count + 1, segments[order[i]].max, i, w + [order[i]])
  {
    var v := w + [order[i]];
    forall g, p | 0 <= g < count + 1 && i <= p < |order| ensures segments[v[g]].max < segments[order[p]].min {
      assert segments[order[i]].min <= segments[order[p]].min;
    }
    assert order[i] == v[count + 1];
  }

  lemma JoinAssigned(segments: seq<SlopeRange>, order: seq<nat>, i: nat, table: seq<real>, mapping: seq<nat>,
                     lo: real, hi: real, lo': real, hi': real)
    requires Assigned(segments, order, i, table, mapping, lo, hi) && Proper(segments)
    requires i < |order| && segments[order[i]].min <= hi
    requires lo' == if segments[order[i]].min > lo then segments[order[i]].min else lo
    requires hi' == if segments[order[i]].max < hi then segments[order[i]].max else hi
    ensures Assigned(segments, order, i + 1, table, mapping[order[i] := |table|], lo', hi')
  {
    var m := mapping[order[i] := |table|];
    forall p | 0 <= p < i ensures m[order[p]] == mapping[order[p]] {
      assert order[p] != order[i];
    }
  }

  lemma JoinWitnessed(segments: seq<SlopeRange>, order: seq<nat>, i: nat, count: nat, hi: real, start: nat, w: seq<nat>)
    requires Witnessed(segments, order, i, count, hi, start, w) && i < |order|
    ensures segments[order[i]].max < hi ==>
      Witnessed(segments, order, i + 1, count, segments[order[i]].max, start, w[count := order[i]])
    ensures Witnessed(segments, order, i + 1, count, hi, start, w)
  {
    if segments[order[i]].max < hi {
      var v := w[count := order[i]];
      forall g, h | 0 <= g < h < |v| ensures segments[v[g]].max < segments[v[h]].min {
        if h == count { assert segments[w[g]].max < segments[order[i]].min; }
      }
      assert order[i] == v[count];
    }
  }

  lemma WitnessesNeedSlopes(segments: seq<SlopeRange>, order: seq<nat>, count: nat, hi: real, start: nat, w: seq<nat>,
                            slopes: set<real>)
    requires Witnessed(segments, order, |order|, count, hi, start, w) && Stabs(slopes, segments)
    ensures |slopes| >= count + 1
  {
    forall g | 0 <= g < |w| ensures StabsOne(slopes, segments[w[g]]) {
    }
    DisjointNeedsDistinct(segments, w, slopes);
  }

  /** Each segment's slope lies in its own range. */
  ghost predicate Tolerated(segments: seq<SlopeRange>, table: seq<real>, mapping: seq<nat>) {
    && |mapping| == |segments|
    && forall i {:trigger mapping[i]} | 0 <= i < |segments| ::
         mapping[i] < |table| && segments[i].min <= table[mapping[i]] <= segments[i].max
  }

  lemma AllAssigned(segments: seq<SlopeRange>, order: seq<nat>, table: seq<real>, mapping: seq<nat>, lo: real, hi: real)
    requires Assigned(segments, order, |order|, table, mapping, lo, hi)
    ensures Tolerated(segments, table + [0.5 * (lo + hi)], mapping)
  {
    forall i | 0 <= i < |segments|
      ensures mapping[i] <= |table|
      ensures segments[i].min <= (table + [0.5 * (lo + hi)])[mapping[i]] <= segments[i].max
    {
      assert i in order;
      var p :| 0 <= p < |order| && order[p] == i;
      assert mapping[order[p]] <= |table|;
    }
  }

  /** The first loop: the slope table and the slope of every segment. */
  method MergeSlopes(segments: seq<SlopeRange>) returns (table: seq<real>, mapping: seq<nat>)
    requires |segments| > 0 && Proper(segments)
    ensures Tolerated(segments, table, mapping)
    ensures forall slopes: set<real> | Stabs(slopes, segments) :: |table| <= |slopes|
  {
    var order := SortIndexes(segments);
    var currentMin, currentMax := segments[order[0]].min, segments[order[0]].max;
    table := [];
    mapping := seq(|segments|, _ => 0);
    ghost var start: nat, w: seq<nat> := 0, [order[0]];
    for i := 1 to |order|
      invariant Assigned(segments, order, i, table, mapping, currentMin, currentMax)
      invariant Witnessed(segments, order, i, |table|, currentMax, start, w)
    {
      var s := segments[order[i]];
      if s.min > currentMax {
        OpenAssigned(segments, order, i, table, mapping, currentMin, currentMax);
        OpenWitnessed(segments, order, i, |table|, currentMax, start, w);
        w, start := w + [order[i]], i;
        table := table + [0.5 * (currentMin + currentMax)];
        currentMin, currentMax := s.min, s.max;
      } else {
        ghost var lo, hi := currentMin, currentMax;
        JoinWitnessed(segments, order, i, |table|, currentMax, start, w);
        if s.min > currentMin { currentMin := s.min; }
        if s.max < currentMax {
          currentMax := s.max;
          w := w[|table| := order[i]];
        }
        JoinAssigned(segments, order, i, table, mapping, lo, hi, currentMin, currentMax);
      }
      mapping := mapping[order[i] := |table|];
    }
    AllAssigned(segments, order, table, mapping, currentMin, currentMax);
    forall slopes: set<real> | Stabs(slopes, segments) ensures |table| + 1 <= |slopes| {
      WitnessesNeedSlopes(segments, order, |table|, currentMax, start, w, slopes);
    }
    table := table + [0.5 * (currentMin + currentMax)];
  }

  /** The height at the segment's key of the line with the merged slope through its point. */
  function MergedIntercept(s: SlopeRange, slope: real): int {
    Round(s.iy - (s.ix - s.key as real) * slope)
  }

  /** The slope table, the slope of every segment, and the intercept each
      segment gets at its key with that slope. */
  method MergeCompress(segments: seq<SlopeRange>)
    returns (table: seq<real>, mapping: seq<nat>, intercepts: seq<int>)
    requires |segments| > 0 && Proper(segments)
    ensures Tolerated(segments, table, mapping)
    ensures forall slopes: set<real> | Stabs(slopes, segments) :: |table| <= |slopes|
    ensures |intercepts| == |segments|
    ensures forall i | 0 <= i < |segments| :: intercepts[i] == MergedIntercept(segments[i], table[mapping[i]])
  {
    table, mapping := MergeSlopes(segments);
    intercepts := [];
    for i := 0 to |segments|
      invariant |intercepts| == i
      invariant forall k | 0 <= k < i :: intercepts[k] == MergedIntercept(segments[k], table[mapping[k]])
    {
      intercepts := intercepts + [MergedIntercept(segments[i], table[mapping[i]])];
    }
  }
}
