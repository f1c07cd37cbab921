/** Inputs at which the code misses what it promises, for the conditions that the
    other modules prove exact. */
module FailingInputs {
  import opened Geometry
  import opened Corridor
  import opened PiecewiseLinearModel
  import opened Segmentation
  import opened ParallelSegmentation
  import opened PgmSegment
  import opened PgmLevel
  import opened PgmIndex
  import opened PgmThreeKeys
  import D = DiskOrientedIndex
  import R = Records
  import HD = HybridDynamic
  import H = HybridIndex
  import HR = HybridRuns
  import Z = LecoZoneMap
  import P = PartitionedMerge
  import RS = RadixSpline
  import RB = RadixSplineBuilder
  import Pages
  import opened SortedSearch
  import PageStore

  // ---- the paged PGM index misses its last key

  lemma LastIsNotFindable(level: seq<Segment>)
    requires BuiltOver(level, 4, FailingData(), 1001, 1000000) && ByGreedy(level, 4, FailingData())
    ensures FailingData()[2] == Entry(1000, 1000000) && !Findable(level, 4, FailingData(), 1001, 2)
  {
    FailingIsUnsafe();
    BottomShape(level, 4, FailingData());
    FullLevelEndsFlat(level, 4, FailingData(), 1001, 1000000);
  }

  /** The window for a stored key that is not findable does not hold its position. */
  method Missed(index: PGMIndexPage, ghost data: seq<Entry>, ghost i: nat, key: int) returns (lo: nat, hi: nat)
    requires index.Valid() && index.data == data && i < |data| && data[i].x == key < KEY_MAX
    requires !Findable(index.levels[0], index.epsilonValue, data, index.Beyond(), i)
    ensures !(lo <= data[i].y < hi)
  {
    assert key <= data[|data| - 1].x;
    var pos;
    pos, lo, hi := index.Search(key);
  }

  /** Key 1000, with a segment of its own and at a position far beyond the number of keys. */
  method MissedLastKey() returns (lo: nat, hi: nat)
    ensures !(lo <= 1000000 < hi)
  {
    var index := OvershootingIndex();
    LastIsNotFindable(index.levels[0]);
    lo, hi := Missed(index, FailingData(), 2, 1000);
  }

  // ---- the compressed index has no slope range for its last segment

  function AloneData(): seq<Entry> {
    [Entry(0, 0), Entry(1, 0), Entry(2, 100000)]
  }

  lemma AloneRanges()
    ensures D.GoodInput(AloneData(), 1, 4, [true, true, true])
    ensures Points(1, D.PageData(AloneData(), 1, 4, [true, true, true]), 0, 3)
         == [Range(0, 0, 4), Range(1, 0, 4), Range(2, 99999, 100004)]
  {
    var data := AloneData();
    assert data[0] == Entry(0, 0) && data[1] == Entry(1, 0) && data[2] == Entry(2, 100000);
    var d := D.PageData(data, 1, 4, [true, true, true]);
    assert RangeOf(1, d[0]) == Range(0, 0, 4) && RangeOf(1, d[1]) == Range(1, 0, 4);
    assert RangeOf(1, d[2]) == Range(2, 99999, 100004);
    assert Points(1, d, 0, 1) == [RangeOf(1, d[0])];
    assert Points(1, d, 0, 2) == [RangeOf(1, d[0]), RangeOf(1, d[1])];
  }

  /** Three keys, the last one many pages away: it gets a segment of its own. */
  lemma LastKeyAlone(parallelism: nat)
    requires 0 < parallelism <= CHUNKED_FROM
    ensures D.GoodInput(AloneData(), 1, 4, [true, true, true])
    ensures EndsAlone(D.LastRanges(AloneData(), 1, 4, [true, true, true], parallelism))
  {
    AloneRanges();
    var p := D.LastRanges(AloneData(), 1, 4, [true, true, true], parallelism);
    var a, b, c := Range(0, 0, 4), Range(1, 0, 4), Range(2, 99999, 100004);
    assert p == [a, b, c] && p[0] == a && p[1] == b && p[2] == c;
    ThreeStabbable(a, b, c);
    PairsStabbable(p);
    assert p[0..3] == p && SpanStabs(p, 0, 2) && SpanStabs(p, 2, 3) && !SpanStabs(p, 0, 3);
    TwoAndOne(p);
    assert [0, 2, 3][1] + 1 == |p|;
  }

  /** Building over these data runs past the list of slope ranges. */
  method FailedBuild() returns (ok: bool)
    ensures !ok
  {
    LastKeyAlone(1);
    var index := new D.DiskOrientedIndexV4(4);
    ok := index.Build(AloneData(), 1, [true, true, true], 1);
  }

  // ---- the compressed index misses the pages of its smallest and its largest key

  /** The smallest key is not on the first page, and the largest one is on two pages. */
  function EndsData(): seq<Entry> {
    [Entry(0, 8), Entry(1, 9), Entry(1, 13)]
  }

  lemma EndsRanges()
    ensures D.GoodInput(EndsData(), 1, 4, [true, true, true])
    ensures var p := D.LastRanges(EndsData(), 1, 4, [true, true, true], 1); |p| == 2 && !EndsAlone(p)
  {
    var data := EndsData();
    assert data[0] == Entry(0, 8) && data[1] == Entry(1, 9) && data[2] == Entry(1, 13);
    var d := D.PageData(data, 1, 4, [true, true, true]);
    assert Points(1, d, 0, 1) == [RangeOf(1, d[0])];
    assert Points(1, d, 0, 2) == [RangeOf(1, d[0]), RangeOf(1, d[1])];
    assert Points(1, d, 0, 3) == Points(1, d, 0, 2);
    D.LastRangesProper(data, 1, 4, [true, true, true], 1);
    TwoAreOneBlock(D.LastRanges(data, 1, 4, [true, true, true], 1));
  }

  lemma TwoAreOneBlock(p: seq<Range>)
    requires |p| == 2 && Ordered(p)
    ensures !EndsAlone(p)
  {
    PairsStabbable(p);
    assert SpanStabs(p, 0, 2) && GreedyCuts([0, 2], p);
    forall g | GreedyCuts(g, p) ensures g == [0, 2] {
      GreedyIsUnique(g, [0, 2], p);
    }
  }

  method EndsMissed() returns (first: Pages.SearchBound, last: Pages.SearchBound)
    ensures !D.BoundsKey(first, EndsData(), 0, 4) && !D.BoundsKey(last, EndsData(), 1, 4)
  {
    EndsRanges();
    var index := new D.DiskOrientedIndexV4(4);
    var _ := index.Build(EndsData(), 1, [true, true, true], 1);
    first := index.GetSearchBound(0);
    last := index.GetSearchBound(1);
    assert D.FirstWith(EndsData(), 1, 1);
  }

  // ---- the spline misses the first key

  /** The first key is further from the start than the error. */
  method FirstKeyMissed() returns (rs: RS.Spline)
    ensures RS.WellFormed(rs) && !RS.Contains(RS.BoundOf(rs, 0), 5)
  {
    var data := [Entry(0, 5), Entry(1, 6)];
    rs := RB.BuildPlain(data, 4, 1);
    assert data[0] == Entry(0, 5);
  }

  /** The page of the first key starts further from the start than the error. */
  method FirstPageMissed() returns (rs: RS.Spline)
    ensures RS.WellFormed(rs) && !Pages.ReachesPage(RS.BoundOf(rs, 0), 8, 4)
  {
    var data := [Entry(0, 8), Entry(1, 9)];
    rs := RB.BuildOnPages(data, 4, 4, 1);
    assert data[0] == Entry(0, 8);
  }

  // ---- a partitioned merge drops and misplaces records

  /** A record above the last partition key is in no partition's share. */
  lemma LargestIsDropped()
    ensures P.Shares([R.Record(20, 0)], [10], 1) != [R.Record(20, 0)]
  {
    P.AllTaken([R.Record(20, 0)], [10]);
  }

  /** A record on an inner partition key joins the next partition, but is looked for in its own. */
  lemma BorderIsMisrouted()
    ensures var dy, keys := [R.Record(10, 0)], [10, 20];
      P.Share(dy, keys, 1) == dy && P.GetPartitionID(keys, 10) == 0
  {
    var dy, keys := [R.Record(10, 0)], [10, 20];
    R.LowerBoundUnique(dy, 10, 0);
    R.LowerBoundUnique(dy, 20, 1);
    assert P.Share(dy, keys, 1) == dy[0..1];
    P.NewRecordRoute(dy, keys, 1, 0);
  }

  // ---- the hybrid index brings an old value back

  lemma {:induction false} GivenUpHas(s: seq<R.Record>, seg: nat, i: nat)
    requires seg > 0 && i < |s| && i % seg != 0
    ensures s[i] in HD.GivenUp(s, seg)
  {
    if i < |s| - 1 { GivenUpHas(s[..|s| - 1], seg, i); }
  }

  /** 199 dynamic records with the keys 0, 2, 3, ..., 199, and one static record with key 1. */
  function HybridStart(): (c: H.Contents)
    ensures |c.dyn| == 199 && forall i | 0 <= i < 199 :: c.dyn[i] == R.Record(if i == 0 then 0 else i + 1, 5)
    ensures c.sta == [R.Record(1, 3)]
  {
    H.Contents(seq(199, i requires 0 <= i < 199 => R.Record(if i == 0 then 0 else i + 1, 5)), [R.Record(1, 3)])
  }

  /** Key 1 is inserted with value 7, and the next insertion starts a merge. */
  function HybridOps(): seq<HR.Insertion> {
    [HR.Insertion(R.Record(1, 7), false), HR.Insertion(R.Record(1000, 5), true)]
  }

  lemma StartIsClean()
    ensures H.Clean(HybridStart())
  {
  }

  lemma GivenUpShadows(c: H.Contents, i: nat)
    requires H.Ordered(c) && |c.dyn| >= H.INIT_SIZE && i < |c.dyn| && i % (|c.dyn| / H.INIT_SIZE) != 0
    requires R.HasKey(c.sta, c.dyn[i].key) && R.FirstValue(c.sta, c.dyn[i].key) != c.dyn[i].value
    requires c.dyn[i].value != HD.VALUE_MAX
    ensures H.Shadows(c, c.dyn[i].key)
  {
    var seg := |c.dyn| / H.INIT_SIZE;
    GivenUpHas(c.dyn, seg, i);
    H.HasIn(HD.GivenUp(c.dyn, seg), c.dyn[i].key);
    H.Divided(c.dyn, seg, c.dyn[i].key);
    HD.ValueOf(c.dyn, c.dyn[i]);
  }

  lemma SecondPlace(dyn: seq<R.Record>, r: R.Record)
    requires R.DistinctKeys(dyn) && |dyn| >= 2 && dyn[0].key < r.key < dyn[1].key
    ensures R.DistinctKeys(HD.Put(dyn, r)) && |HD.Put(dyn, r)| == |dyn| + 1 && HD.Put(dyn, r)[1] == r
  {
    HD.PutHolds(dyn, r);
    R.LowerBoundUnique(dyn, r.key, 1);
  }

  /** The new record stands second, so that the merge gives it up. */
  lemma NewRecordIsGivenUp()
    ensures var c := H.Inserted(HybridStart(), R.Record(1, 7), false);
      |c.dyn| == 200 && H.Ordered(c) && H.Shadows(c, 1)
  {
    var c := H.Inserted(HybridStart(), R.Record(1, 7), false);
    SecondPlace(HybridStart().dyn, R.Record(1, 7));
    HD.ValueOf(c.sta, R.Record(1, 3));
    GivenUpShadows(c, 1);
  }

  lemma RunOfTwo(c0: H.Contents, c1: H.Contents, c2: H.Contents, ops: seq<HR.Insertion>)
    requires |ops| == 2 && HR.Follows(c0, c1, ops[0]) && HR.Follows(c1, c2, ops[1])
    ensures HR.Run([c0, c1, c2], ops)
  {
    var states := [c0, c1, c2];
    forall i, j | 0 <= i < |ops| && j == i + 1 ensures HR.Follows(states[i], states[j], ops[i]) {
      if i == 0 { assert states[0] == c0 && states[1] == c1; } else { assert states[1] == c1 && states[2] == c2; }
    }
  }

  lemma LostInTwo(states: seq<H.Contents>, ops: seq<HR.Insertion>, k: int)
    requires |ops| == 2 && HR.Run(states, ops) && ops[0].r.key == k != ops[1].r.key && ops[1].overBudget
    requires |states[1].dyn| >= H.INIT_SIZE && H.Shadows(states[1], k)
    ensures HR.Lost(states, ops, 2, k) && HR.Expected(states[0], ops, 2, k) == ops[0].r.value
  {
    assert HR.Follows(states[1], states[2], ops[1]);
  }

  /** A run from a state that stores no key twice after which key 1 has its old value again. */
  lemma OldValueReturns() returns (states: seq<H.Contents>)
    ensures HR.Run(states, HybridOps()) && states[0] == HybridStart() && H.Clean(states[0])
    ensures HR.Lost(states, HybridOps(), 2, 1)
    ensures HR.Expected(states[0], HybridOps(), 2, 1) == 7 && H.Lookup(states[2], 1) != 7
  {
    var ops, c0 := HybridOps(), HybridStart();
    NewRecordIsGivenUp();
    StartIsClean();
    var c1 := H.Inserted(c0, ops[0].r, false);
    var c2 := H.Inserted(c1, ops[1].r, true);
    states := [c0, c1, c2];
    RunOfTwo(c0, c1, c2, ops);
    LostInTwo(states, ops, 1);
    HR.RunLookup(states, ops, 2, 1);
  }

  /** Inserting the largest value for a key leaves the lookup with the stored value. */
  lemma LargestValueIsPassedOver()
    ensures H.Clean(H.Contents([], [R.Record(1, 3)]))
    ensures var c := H.Contents([], [R.Record(1, 3)]);
      H.Lookup(H.Inserted(c, R.Record(1, HD.VALUE_MAX), false), 1) == 3
  {
    var c := H.Contents([], [R.Record(1, 3)]);
    H.PutChangesLookup(c, R.Record(1, HD.VALUE_MAX), 1);
    HD.ValueOf(c.sta, R.Record(1, 3));
  }

  // ---- the zone map with two sliding pages misses a key

  function ZoneData(): seq<int> {
    [0, 10, 20, 30, 40, 50, 60]
  }

  /** One record a page, one fixed and two sliding pages: the key at position 1 is
      outside the range of its point. */
  lemma MissedNearTheStart()
    ensures var lower, upper, values := [0, 30, 60], [29, 59, KEY_MAX], [0, 30, 60];
      && Z.Keys(ZoneData()) && Z.BoundsOk(ZoneData(), Z.GroupWidth(1, 1, 2), Z.SlideWidth(1, 1, 2), lower, upper)
      && Z.Within(lower, upper, values)
      && var (begin, end) := Z.RangeAt(FirstAtLeast(values, 10), 1, 1, 2, 6);
         !(begin <= 1 < end)
  {
    var data, lower, upper, values := ZoneData(), [0, 30, 60], [29, 59, KEY_MAX], [0, 30, 60];
    assert PageStore.Span(1, 3) == 3 && PageStore.Span(2, 3) == 6 && PageStore.Span(3, 3) == 9;
    assert PageStore.Span(3, 1) == 3 && PageStore.Span(2, 1) == 2;
    forall j | 0 <= j < 2 ensures Z.BorderOk(data, 3, 3, j, lower[j], upper[j]) {
      assert j == 0 || j == 1;
    }
    FirstAtLeastIs(values, 10, 1);
    Z.LookupFinds(data, 1, 1, 2, lower, upper, values, 1);
  }
}
