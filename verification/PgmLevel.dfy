/** One level of the PGM index: the segments over a sorted list of entries, an
    optional flat segment for the keys beyond, and a sentinel. */
module PgmLevel {
  import opened Geometry
  import opened Corridor
  import opened PiecewiseLinearModel
  import opened Segmentation
  import opened PgmSegment

  /** A key with the position, or on upper levels the index, it is to be found at. */
  datatype Entry = Entry(x: int, y: Word)

  function ExactData(entries: seq<Entry>): (d: seq<Datum>)
    ensures |d| == |entries|
  {
    seq(|entries|, i requires 0 <= i < |entries| => Exact(entries[i].x, entries[i].y))
  }

  /** Keys increase strictly, except that the last two may be equal. */
  ghost predicate AlmostStrict(entries: seq<Entry>) {
    && (forall i, j | 0 <= i < j < |entries| - 1 :: entries[i].x < entries[j].x)
    && (forall i | 0 <= i < |entries| - 1 :: entries[i].x <= entries[|entries| - 1].x)
    && (forall i, j | 0 <= i <= j < |entries| :: entries[i].y <= entries[j].y)
  }

  /** The entries a segmentation sees: a repeated last key is skipped. */
  function Core(entries: seq<Entry>): (c: seq<Entry>)
    ensures |c| <= |entries| && c == entries[..|c|] && (|entries| > 0 ==> |c| > 0)
  {
    var m := |entries|;
    if m >= 2 && entries[m - 2].x == entries[m - 1].x then entries[..m - 1] else entries
  }

  ghost function CoreRanges(epsilon: Word, entries: seq<Entry>): (r: seq<Range>)
    ensures |r| == |Core(entries)|
    ensures forall i | 0 <= i < |r| :: r[i] == ExactRange(epsilon, entries[i].x, entries[i].y)
  {
    var core := Core(entries);
    seq(|core|, i requires 0 <= i < |core| => ExactRange(epsilon, core[i].x, core[i].y))
  }

  lemma CoreStrict(entries: seq<Entry>)
    requires AlmostStrict(entries)
    ensures forall i, j | 0 <= i < j < |Core(entries)| :: entries[i].x < entries[j].x
  {
  }

  lemma DistinctStep(epsilon: Word, data: seq<Datum>)
    requires |data| > 0 && (|data| > 1 ==> data[|data| - 2].x != data[|data| - 1].x)
    ensures Distinct(epsilon, data)
         == Distinct(epsilon, data[..|data| - 1]) + [RangeOf(epsilon, data[|data| - 1])]
  {
  }

  lemma PrefixStep(epsilon: Word, all: seq<Datum>, ranges: seq<Range>, k: nat)
    requires 0 < k <= |all| && k <= |ranges| && ranges[k - 1] == RangeOf(epsilon, all[k - 1])
    requires k > 1 ==> all[k - 2].x != all[k - 1].x
    requires Distinct(epsilon, all[..k - 1]) == ranges[..k - 1]
    ensures Distinct(epsilon, all[..k]) == ranges[..k]
  {
    assert all[..k][..k - 1] == all[..k - 1];
    DistinctStep(epsilon, all[..k]);
    assert ranges[..k] == ranges[..k - 1] + [ranges[k - 1]];
  }

  lemma {:induction false} DistinctPrefix(epsilon: Word, entries: seq<Entry>, k: nat)
    requires AlmostStrict(entries) && k <= |Core(entries)|
    ensures Distinct(epsilon, ExactData(entries)[..k]) == CoreRanges(epsilon, entries)[..k]
  {
    if k > 0 {
      DistinctPrefix(epsilon, entries, k - 1);
      CoreStrict(entries);
      var all, ranges := ExactData(entries), CoreRanges(epsilon, entries);
      assert all[k - 1] == Exact(entries[k - 1].x, entries[k - 1].y);
      assert k > 1 ==> all[k - 2] == Exact(entries[k - 2].x, entries[k - 2].y);
      PrefixStep(epsilon, all, ranges, k);
    }
  }

  lemma RepeatedLast(epsilon: Word, data: seq<Datum>, m: nat)
    requires |data| == m + 1 && m > 0 && data[m - 1].x == data[m].x
    ensures Distinct(epsilon, data) == Distinct(epsilon, data[..m])
  {
  }

  lemma DistinctIsCore(epsilon: Word, entries: seq<Entry>)
    requires AlmostStrict(entries)
    ensures Distinct(epsilon, ExactData(entries)) == CoreRanges(epsilon, entries)
  {
    var m, data := |Core(entries)|, ExactData(entries);
    DistinctPrefix(epsilon, entries, m);
    assert CoreRanges(epsilon, entries)[..m] == CoreRanges(epsilon, entries);
    if m < |entries| {
      RepeatedLast(epsilon, data, m);
    } else {
      assert data[..m] == data;
    }
  }

  lemma EntriesUsable(epsilon: Word, entries: seq<Entry>)
    requires AlmostStrict(entries) && epsilon > 0
    ensures Sorted(ExactData(entries)) && Usable(epsilon, ExactData(entries))
    ensures Rising(CoreRanges(epsilon, entries))
  {
  }

  // ---- what a finished level looks like

  /** `level` holds one segment per block of `cuts`, then possibly the flat
      segment at `beyond`, then the sentinel with intercept `cap`. */
  ghost predicate Built(level: seq<Segment>, epsilon: Word, entries: seq<Entry>, beyond: int, cap: int,
                        cuts: seq<nat>)
  {
    var c := |cuts| - 1;
    && AlmostStrict(entries) && |entries| > 0 && epsilon > 0
    && Cuts(cuts, |Core(entries)|)
    && c + 1 <= |level| <= c + 2
    && (forall t, u {:trigger level[t], cuts[u]} | 0 <= t < c && u == t + 1 ::
          Covers(level[t], CoreRanges(epsilon, entries)[cuts[t]..cuts[u]]))
    && (|level| == c + 2 ==> level[c] == Segment(beyond, Slope(1, 0), |entries|))
    && level[|level| - 1] == Segment(KEY_MAX, Slope(1, 0), cap)
    && (forall i | 0 <= i < |entries| :: 0 <= entries[i].x <= beyond)
    && beyond <= KEY_MAX
  }

  /** `t` is the last of the first `count` keys that is at most `k`. */
  ghost predicate Rightmost(level: seq<Segment>, count: nat, k: int, t: nat) {
    && t < count <= |level| && level[t].key <= k
    && forall u | t < u < count :: k < level[u].key
  }

  /** The same for the entries of a level. */
  ghost predicate RightmostEntry(entries: seq<Entry>, k: int, i: nat) {
    && i < |entries| && entries[i].x <= k
    && forall j | i < j < |entries| :: k < entries[j].x
  }

  /** The prediction capped by the next segment's intercept, as both `search`
      and `segment_for_key` compute it. */
  function Capped(level: seq<Segment>, t: nat, k: int): int
    requires t + 1 < |level| && level[t].slope.dx > 0
  {
    var p := Predict(level[t], k);
    if p <= level[t + 1].intercept then p else level[t + 1].intercept
  }

  lemma BlockAt(level: seq<Segment>, epsilon: Word, entries: seq<Entry>, beyond: int, cap: int, cuts: seq<nat>, t: nat)
    requires Built(level, epsilon, entries, beyond, cap, cuts) && t < |cuts| - 1
    ensures cuts[t] < cuts[t + 1] <= |Core(entries)|
    ensures level[t].key == entries[cuts[t]].x && WellFormed(level[t])
    ensures ExactRange(epsilon, entries[cuts[t]].x, entries[cuts[t]].y).lo <= level[t].intercept
    ensures level[t].intercept <= ExactRange(epsilon, entries[cuts[t]].x, entries[cuts[t]].y).hi
    ensures forall i | cuts[t] <= i < cuts[t + 1] ::
      var r := ExactRange(epsilon, entries[i].x, entries[i].y);
      r.lo - 1 <= RawPrediction(level[t], entries[i].x) <= r.hi
  {
    var block := CoreRanges(epsilon, entries)[cuts[t]..cuts[t + 1]];
    assert Covers(level[t], block);
    assert block[0] == CoreRanges(epsilon, entries)[cuts[t]];
    forall i | cuts[t] <= i < cuts[t + 1]
      ensures var r := ExactRange(epsilon, entries[i].x, entries[i].y);
        r.lo - 1 <= RawPrediction(level[t], entries[i].x) <= r.hi
    {
      assert block[i - cuts[t]] == CoreRanges(epsilon, entries)[i];
    }
  }

  /** A key between two entries of one block is predicted no further than the later entry allows. */
  lemma InsideBlock(level: seq<Segment>, epsilon: Word, entries: seq<Entry>, beyond: int, cap: int,
                    cuts: seq<nat>, k: int, t: nat, i: nat)
    requires Built(level, epsilon, entries, beyond, cap, cuts) && t < |cuts| - 1
    requires cuts[t] <= i < cuts[t + 1] && k <= entries[i].x
    ensures WellFormed(level[t]) && Predict(level[t], k) <= entries[i].y + epsilon
  {
    BlockAt(level, epsilon, entries, beyond, cap, cuts, t);
    PredictMonotone(level[t], k, entries[i].x);
  }

  lemma BlockContains(level: seq<Segment>, epsilon: Word, entries: seq<Entry>, beyond: int, cap: int,
                      cuts: seq<nat>, k: int, t: nat, i: nat)
    requires Built(level, epsilon, entries, beyond, cap, cuts) && t < |cuts| - 1
    requires level[t].key <= k && RightmostEntry(entries, k, i)
    ensures cuts[t] <= i
  {
    BlockAt(level, epsilon, entries, beyond, cap, cuts, t);
  }

  lemma NextIntercept(level: seq<Segment>, epsilon: Word, entries: seq<Entry>, beyond: int, cap: int,
                      cuts: seq<nat>, t: nat)
    requires Built(level, epsilon, entries, beyond, cap, cuts) && t < |cuts| - 1
    ensures t + 1 < |cuts| - 1 ==>
      && 0 <= level[t + 1].intercept <= entries[cuts[t + 1]].y + epsilon
      && level[t + 1].intercept >= entries[cuts[t + 1]].y - epsilon
    ensures t + 1 == |cuts| - 1 ==> level[t + 1].intercept == cap || level[t + 1].intercept == |entries|
  {
    if t + 1 < |cuts| - 1 {
      BlockAt(level, epsilon, entries, beyond, cap, cuts, t + 1);
    }
  }

  lemma FlatPrediction(seg: Segment, k: int)
    requires seg.slope == Slope(1, 0) && seg.intercept >= 0
    ensures Predict(seg, k) == seg.intercept
  {
  }

  lemma CappedNatural(level: seq<Segment>, epsilon: Word, entries: seq<Entry>, beyond: int, cap: int,
                      cuts: seq<nat>, k: int, t: nat)
    requires Built(level, epsilon, entries, beyond, cap, cuts) && 0 <= cap && t < |cuts| - 1
    ensures cuts[t + 1] <= |Core(entries)| && (t + 1 == |cuts| - 1 ==> cuts[t + 1] == |Core(entries)|)
    ensures WellFormed(level[t]) && 0 <= Capped(level, t, k)
  {
    BlockAt(level, epsilon, entries, beyond, cap, cuts, t);
    NextIntercept(level, epsilon, entries, beyond, cap, cuts, t);
  }

  /** A prediction between two entries stays near the later one, whatever the sentinel says. */
  lemma BlockNeverOvershoots(level: seq<Segment>, epsilon: Word, entries: seq<Entry>, beyond: int, cap: int,
                             cuts: seq<nat>, k: int, t: nat, i: nat)
    requires Built(level, epsilon, entries, beyond, cap, cuts) && 0 <= cap && t < |cuts| - 1
    requires forall j | 0 <= j < |entries| :: entries[j].y == j
    requires level[t].key <= k && RightmostEntry(entries, k, i)
    ensures WellFormed(level[t]) && 0 <= Capped(level, t, k)
    ensures i < |entries| - 1 ==> Capped(level, t, k) <= i + 1 + epsilon
    ensures t + 1 < |cuts| - 1 ==> Capped(level, t, k) <= i + 1 + epsilon
  {
    CappedNatural(level, epsilon, entries, beyond, cap, cuts, k, t);
    BlockContains(level, epsilon, entries, beyond, cap, cuts, k, t, i);
    NextIntercept(level, epsilon, entries, beyond, cap, cuts, t);
    if i + 1 < cuts[t + 1] {
      InsideBlock(level, epsilon, entries, beyond, cap, cuts, k, t, i + 1);
    } else if t + 1 == |cuts| - 1 {
      LastEntry(entries, k, i);
    }
  }

  /** The last segment before the sentinel predicts `k` no further than `limit`. */
  predicate EndReach(level: seq<Segment>, k: int, limit: int)
    requires |level| >= 2
  {
    level[|level| - 2].slope.dx > 0 && Capped(level, |level| - 2, k) <= limit
  }

  /** With positions equal to indices, the capped prediction is at most
      `epsilon + 1` past the entry that precedes `k`, for every key before the
      last entry; for the others exactly when the end of the level does not
      reach further than that beyond the level. */
  lemma NeverOvershoots(level: seq<Segment>, epsilon: Word, entries: seq<Entry>, beyond: int, cap: int,
                        cuts: seq<nat>, k: int, t: nat, i: nat)
    requires Built(level, epsilon, entries, beyond, cap, cuts) && 0 <= cap
    requires forall j | 0 <= j < |entries| :: entries[j].y == j
    requires Rightmost(level, |level| - 1, k, t) && RightmostEntry(entries, k, i)
    ensures WellFormed(level[t]) && 0 <= Capped(level, t, k)
    ensures Capped(level, t, k) <= i + 1 + epsilon
       <==> k < entries[|entries| - 1].x || EndReach(level, k, |entries| + epsilon)
  {
    var c := |cuts| - 1;
    if t < c {
      BlockNeverOvershoots(level, epsilon, entries, beyond, cap, cuts, k, t, i);
      if k >= entries[|entries| - 1].x { EndOfLevel(level, epsilon, entries, beyond, cap, cuts, k, t, i); }
    } else {
      FlatPrediction(level[t], k);
      LastEntry(entries, k, i);
    }
  }

  lemma EndOfLevel(level: seq<Segment>, epsilon: Word, entries: seq<Entry>, beyond: int, cap: int,
                   cuts: seq<nat>, k: int, t: nat, i: nat)
    requires Built(level, epsilon, entries, beyond, cap, cuts) && 0 <= cap && t < |cuts| - 1
    requires Rightmost(level, |level| - 1, k, t) && RightmostEntry(entries, k, i)
    requires k >= entries[|entries| - 1].x && level[t].slope.dx > 0
    ensures i == |entries| - 1 && t == |cuts| - 2
    ensures Capped(level, t, k) <= |entries| + epsilon <==> EndReach(level, k, |entries| + epsilon)
  {
    var c := |cuts| - 1;
    LastEntry(entries, k, i);
    LastBlockKey(level, epsilon, entries, beyond, cap, cuts);
    assert t == c - 1;
    SameReach(level, t, k, |entries|, epsilon);
  }

  /** With or without the flat segment, the end of a level reaches as far as its last block. */
  lemma SameReach(level: seq<Segment>, t: nat, k: int, n: nat, epsilon: nat)
    requires t + 2 <= |level| <= t + 3 && level[t].slope.dx > 0
    requires |level| == t + 3 ==> level[t + 1].slope == Slope(1, 0) && level[t + 1].intercept == n
    ensures Capped(level, t, k) <= n + epsilon <==> EndReach(level, k, n + epsilon)
  {
    if |level| == t + 3 { FlatPrediction(level[t + 1], k); }
  }

  lemma LastBlockKey(level: seq<Segment>, epsilon: Word, entries: seq<Entry>, beyond: int, cap: int, cuts: seq<nat>)
    requires Built(level, epsilon, entries, beyond, cap, cuts)
    ensures |cuts| >= 2 && level[|cuts| - 2].key <= entries[|entries| - 1].x
  {
    BlockAt(level, epsilon, entries, beyond, cap, cuts, |cuts| - 2);
  }

  /** The other way round: the capped prediction is at most `epsilon + 1` short of
      the last of the strictly rising entries that is at most `k`. */
  lemma NeverUndershoots(level: seq<Segment>, epsilon: Word, entries: seq<Entry>, beyond: int, cap: int,
                         cuts: seq<nat>, k: int, t: nat, i: nat)
    requires Built(level, epsilon, entries, beyond, cap, cuts) && 0 <= cap && |entries| <= cap + epsilon + 2
    requires forall j | 0 <= j < |entries| :: entries[j].y == j
    requires Rightmost(level, |level| - 1, k, t) && RightmostEntry(Core(entries), k, i)
    ensures WellFormed(level[t]) && i <= Capped(level, t, k) + epsilon + 1
  {
    var c := |cuts| - 1;
    if t < c {
      BlockAt(level, epsilon, entries, beyond, cap, cuts, t);
      NextIntercept(level, epsilon, entries, beyond, cap, cuts, t);
      BlockEnds(level, epsilon, entries, beyond, cap, cuts, k, t, i);
      PredictMonotone(level[t], entries[i].x, k);
    } else {
      FlatPrediction(level[t], k);
    }
  }

  lemma BlockEnds(level: seq<Segment>, epsilon: Word, entries: seq<Entry>, beyond: int, cap: int,
                  cuts: seq<nat>, k: int, t: nat, i: nat)
    requires Built(level, epsilon, entries, beyond, cap, cuts) && t < |cuts| - 1
    requires Rightmost(level, |level| - 1, k, t) && RightmostEntry(Core(entries), k, i)
    ensures cuts[t] <= i < cuts[t + 1]
  {
    BlockAt(level, epsilon, entries, beyond, cap, cuts, t);
    if t + 1 < |cuts| - 1 {
      BlockAt(level, epsilon, entries, beyond, cap, cuts, t + 1);
      CoreStrict(entries);
      assert entries[i].x <= k < entries[cuts[t + 1]].x;
    } else {
      assert cuts[t + 1] == |Core(entries)|;
    }
  }

  /** The segment before the flat one can have its key, too. It then stands for the
      last entry alone and predicts every key near it, whatever the sentinel says. */
  lemma TiedPrediction(level: seq<Segment>, epsilon: Word, entries: seq<Entry>, beyond: int, cap: int,
                       cuts: seq<nat>, k: int)
    requires Built(level, epsilon, entries, beyond, cap, cuts) && |level| >= 3
    requires forall j | 0 <= j < |entries| :: entries[j].y == j
    requires level[|level| - 3].key == level[|level| - 2].key
    ensures var t := |level| - 3;
      WellFormed(level[t]) && |Core(entries)| - 1 - epsilon <= Capped(level, t, k) <= |entries|
  {
    var c := |cuts| - 1;
    TiedIsFlat(level, epsilon, entries, beyond, cap, cuts);
    BlockAt(level, epsilon, entries, beyond, cap, cuts, c - 1);
    LastAlone(level, epsilon, entries, beyond, cap, cuts);
    FlatPrediction(Segment(level[c - 1].key, Slope(1, 0), level[c - 1].intercept), k);
  }

  /** Two neighbours with one key: the second is the flat segment. */
  lemma TiedIsFlat(level: seq<Segment>, epsilon: Word, entries: seq<Entry>, beyond: int, cap: int, cuts: seq<nat>)
    requires Built(level, epsilon, entries, beyond, cap, cuts) && |level| >= 3
    requires level[|level| - 3].key == level[|level| - 2].key
    ensures |level| == |cuts| + 1 && level[|cuts| - 2].key == beyond
  {
    if |level| == |cuts| {
      BlockAt(level, epsilon, entries, beyond, cap, cuts, |level| - 3);
      BlockAt(level, epsilon, entries, beyond, cap, cuts, |level| - 2);
      CoreStrict(entries);
    }
  }

  lemma LastAlone(level: seq<Segment>, epsilon: Word, entries: seq<Entry>, beyond: int, cap: int, cuts: seq<nat>)
    requires Built(level, epsilon, entries, beyond, cap, cuts) && level[|cuts| - 2].key == beyond
    ensures |cuts| >= 2 && cuts[|cuts| - 2] == |Core(entries)| - 1 && level[|cuts| - 2].slope.dy == 0
  {
    var c := |cuts| - 1;
    BlockAt(level, epsilon, entries, beyond, cap, cuts, c - 1);
    CoreStrict(entries);
    assert Covers(level[c - 1], CoreRanges(epsilon, entries)[cuts[c - 1]..cuts[c]]);
  }

  /** A sentinel that carries at most the size of the level below never lets the end reach too far. */
  lemma GoodSentinel(level: seq<Segment>, epsilon: Word, entries: seq<Entry>, beyond: int, cap: int,
                     cuts: seq<nat>, k: int)
    requires Built(level, epsilon, entries, beyond, cap, cuts) && cap <= |entries|
    ensures |level| >= 2 && EndReach(level, k, |entries| + epsilon)
  {
    var t := |level| - 2;
    if t < |cuts| - 1 { BlockAt(level, epsilon, entries, beyond, cap, cuts, t); }
  }

  /** All keys are safe if and only if the largest one is: predictions do not fall. */
  lemma LargestKeyDecides(level: seq<Segment>, epsilon: Word, entries: seq<Entry>, beyond: int, cap: int,
                          cuts: seq<nat>, k: int)
    requires Built(level, epsilon, entries, beyond, cap, cuts) && k < KEY_MAX
    requires EndReach(level, KEY_MAX - 1, |entries| + epsilon)
    ensures EndReach(level, k, |entries| + epsilon)
  {
    var t := |level| - 2;
    if t < |cuts| - 1 { BlockAt(level, epsilon, entries, beyond, cap, cuts, t); }
    PredictMonotone(level[t], k, KEY_MAX - 1);
  }

  lemma LastEntry(entries: seq<Entry>, k: int, i: nat)
    requires AlmostStrict(entries) && RightmostEntry(entries, k, i)
    requires i + 1 >= |Core(entries)| || k >= entries[|entries| - 1].x
    ensures i == |entries| - 1
  {
  }

  // ---- searching the bottom level

  function SubEps(x: nat, epsilon: nat): nat {
    if x <= epsilon then 0 else x - epsilon
  }

  function AddEps(x: nat, epsilon: nat, size: nat): nat {
    if x + epsilon + 2 >= size then size else x + epsilon + 2
  }

  /** The window around the capped prediction contains the position `y`. */
  predicate InWindow(pos: int, epsilon: nat, maxY: nat, y: int) {
    pos >= 0 && SubEps(pos, epsilon) <= y < AddEps(pos, epsilon, maxY + 1)
  }

  /** A stored key is in the block of the segment that is responsible for it. */
  lemma BlockOfEntry(level: seq<Segment>, epsilon: Word, entries: seq<Entry>, beyond: int, cap: int,
                     cuts: seq<nat>, t: nat, i: nat)
    requires Built(level, epsilon, entries, beyond, cap, cuts) && i < |entries| && Core(entries) == entries
    requires entries[|entries| - 1].x < beyond && Rightmost(level, |level| - 1, entries[i].x, t)
    ensures t < |cuts| - 1 && cuts[t] <= i < cuts[t + 1]
  {
    CoreStrict(entries);
    assert t < |cuts| - 1;
    BlockEnds(level, epsilon, entries, beyond, cap, cuts, entries[i].x, t, i);
  }

  /** The bottom level finds every stored key, with one exception that can be
      read off beforehand: the last key, when it has a segment of its own and
      its position exceeds the number of keys by more than `epsilon + 1`. The
      flat segment after it is given the number of keys as its intercept, not
      a position, and this caps the prediction. */
  lemma WindowContains(level: seq<Segment>, epsilon: Word, entries: seq<Entry>, beyond: int, cap: int,
                       cuts: seq<nat>, t: nat, i: nat)
    requires Built(level, epsilon, entries, beyond, cap, cuts) && i < |entries| && Core(entries) == entries
    requires entries[|entries| - 1].x < beyond && cap >= entries[|entries| - 1].y
    requires Rightmost(level, |level| - 1, entries[i].x, t)
    ensures WellFormed(level[t]) && Capped(level, t, entries[i].x) >= 0
    ensures InWindow(Capped(level, t, entries[i].x), epsilon, cap, entries[i].y)
       <==> !(t + 2 == |cuts| && |level| == |cuts| + 1) || entries[i].y <= |entries| + epsilon + 1
  {
    BlockOfEntry(level, epsilon, entries, beyond, cap, cuts, t, i);
    BlockAt(level, epsilon, entries, beyond, cap, cuts, t);
    NextIntercept(level, epsilon, entries, beyond, cap, cuts, t);
    assert t + 1 < |cuts| - 1 ==> entries[i].y <= entries[cuts[t + 1]].y;
    var r := ExactRange(epsilon, entries[i].x, entries[i].y);
    assert r.lo - 1 <= RawPrediction(level[t], entries[i].x) <= r.hi;
  }
}
