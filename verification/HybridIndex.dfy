/** The hybrid index as one map: new records go to the dynamic half, merges move
    most of them to the static half, and lookups ask the dynamic half first. */
module HybridIndex {
  import opened PiecewiseLinearModel
  import opened Records
  import R = Records
  import opened PageStore
  import opened HybridDynamic
  import opened HybridLearned
  import opened HybridStatic
  import opened Pages

  /** How many records the dynamic half starts with, and keeps at least in a merge. */
  const INIT_SIZE: nat := 100

  /** The records of the two halves, each in key order. */
  datatype Contents = Contents(dyn: seq<Record>, sta: seq<Record>)

  ghost predicate Ordered(c: Contents) {
    DistinctKeys(c.dyn) && SortedByKey(c.sta)
  }

  ghost function All(c: Contents): multiset<Record> {
    multiset(c.dyn) + multiset(c.sta)
  }

  function DynamicValue(dyn: seq<Record>, k: int): int {
    if HasKey(dyn, k) then FirstValue(dyn, k) else VALUE_MAX
  }

  function StaticValue(sta: seq<Record>, k: int): int {
    if HasKey(sta, k) then FirstValue(sta, k) else VALUE_MAX
  }

  /** What a lookup returns for a stored key; keys that are not stored have `VALUE_MAX` here.
      A dynamic record with that value sends the lookup on to the static half, too. */
  function Lookup(c: Contents, k: int): int {
    if DynamicValue(c.dyn, k) != VALUE_MAX then DynamicValue(c.dyn, k) else StaticValue(c.sta, k)
  }

  predicate Stored(c: Contents, k: int) {
    HasKey(c.dyn, k) || HasKey(c.sta, k)
  }

  // ---- the steps

  function Merged(c: Contents): Contents
    requires |c.dyn| >= INIT_SIZE
  {
    BuffersSuffice(|c.dyn|, INIT_SIZE);
    var seg := |c.dyn| / INIT_SIZE;
    Contents(Kept(c.dyn, seg), Merge(c.sta, GivenUp(c.dyn, seg)))
  }

  /** The contents an insertion finds, after the merge it may start. */
  function Relieved(c: Contents, overBudget: bool): Contents
    requires overBudget ==> |c.dyn| >= INIT_SIZE
  {
    if overBudget then Merged(c) else c
  }

  function Inserted(c: Contents, r: Record, overBudget: bool): Contents
    requires overBudget ==> |c.dyn| >= INIT_SIZE
  {
    var m := Relieved(c, overBudget);
    Contents(Put(m.dyn, r), m.sta)
  }

  lemma HasIn(s: seq<Record>, k: int)
    ensures HasKey(s, k) <==> exists x :: x in s && x.key == k
  {
    if HasKey(s, k) {
      var i :| 0 <= i < |s| && s[i].key == k;
      assert s[i] in s;
    }
    if exists x :: x in s && x.key == k {
      var x :| x in s && x.key == k;
      var i :| 0 <= i < |s| && s[i] == x;
    }
  }

  lemma MergedOrdered(c: Contents)
    requires Ordered(c) && |c.dyn| >= INIT_SIZE
    ensures Ordered(Merged(c)) && All(Merged(c)) == All(c) && |Merged(c).dyn| >= INIT_SIZE
  {
    BuffersSuffice(|c.dyn|, INIT_SIZE);
    var seg := |c.dyn| / INIT_SIZE;
    BothDistinct(c.dyn, seg);
    KeptSize(c.dyn, seg);
    KeptAndGivenUp(c.dyn, seg);
    MergeSorts(c.sta, GivenUp(c.dyn, seg));
    MergeKeepsRecords(c.sta, GivenUp(c.dyn, seg));
    Rearranged(multiset(Kept(c.dyn, seg)), multiset(GivenUp(c.dyn, seg)), multiset(c.sta));
  }

  /** What leaves one half arrives in the other. */
  lemma Rearranged(kept: multiset<Record>, moved: multiset<Record>, sta: multiset<Record>)
    ensures kept + (sta + moved) == (kept + moved) + sta
  {
  }

  /** The records of one key after the last record is added. */
  lemma WithKeyLast(s: seq<Record>, k: int)
    requires s != []
    ensures WithKey(s, k) == WithKey(s[..|s| - 1], k) + if s[|s| - 1].key == k then [s[|s| - 1]] else []
  {
  }

  lemma WithKeySnoc(s: seq<Record>, x: Record, k: int)
    ensures WithKey(s + [x], k) == WithKey(s, k) + if x.key == k then [x] else []
  {
    assert (s + [x])[..|s|] == s;
  }

  /** The last record is kept or given up. */
  lemma LastDivided(s: seq<Record>, seg: nat)
    requires seg > 0 && s != []
    ensures var s0, l := s[..|s| - 1], s[|s| - 1];
      || (Kept(s, seg) == Kept(s0, seg) + [l] && GivenUp(s, seg) == GivenUp(s0, seg))
      || (Kept(s, seg) == Kept(s0, seg) && GivenUp(s, seg) == GivenUp(s0, seg) + [l])
  {
  }

  ghost predicate Splits(a: seq<Record>, b: seq<Record>, w: seq<Record>) {
    |a| + |b| == |w| && (forall x | x in a || x in b :: x in w)
  }

  lemma SplitsMore(a: seq<Record>, b: seq<Record>, w: seq<Record>, d: seq<Record>)
    requires Splits(a, b, w)
    ensures Splits(a + d, b, w + d) && Splits(a, b + d, w + d)
  {
  }

  /** Every record of a key is kept or given up. */
  lemma {:induction false} DividedKey(s: seq<Record>, seg: nat, k: int)
    requires seg > 0
    ensures Splits(WithKey(Kept(s, seg), k), WithKey(GivenUp(s, seg), k), WithKey(s, k))
  {
    if s != [] {
      var s0, l := s[..|s| - 1], s[|s| - 1];
      DividedKey(s0, seg, k);
      LastDivided(s, seg);
      WithKeyLast(s, k);
      SplitsMore(WithKey(Kept(s0, seg), k), WithKey(GivenUp(s0, seg), k), WithKey(s0, k), if l.key == k then [l] else []);
      if Kept(s, seg) == Kept(s0, seg) + [l] {
        WithKeySnoc(Kept(s0, seg), l, k);
      } else {
        WithKeySnoc(GivenUp(s0, seg), l, k);
      }
    }
  }

  /** With distinct keys, a key has at most one record. */
  lemma {:induction false} OneWithKey(s: seq<Record>, k: int)
    requires DistinctKeys(s)
    ensures |WithKey(s, k)| <= 1
  {
    if s != [] {
      var s0 := s[..|s| - 1];
      OneWithKey(s0, k);
      if s[|s| - 1].key == k { NoneWithKey(s0, k); }
    }
  }

  /** Every dynamic record is either kept or given up, not both. */
  lemma Divided(s: seq<Record>, seg: nat, k: int)
    requires seg > 0 && DistinctKeys(s)
    ensures HasKey(s, k) <==> HasKey(Kept(s, seg), k) || HasKey(GivenUp(s, seg), k)
    ensures !(HasKey(Kept(s, seg), k) && HasKey(GivenUp(s, seg), k))
    ensures HasKey(Kept(s, seg), k) ==> FirstValue(Kept(s, seg), k) == FirstValue(s, k)
    ensures HasKey(GivenUp(s, seg), k) ==> FirstValue(GivenUp(s, seg), k) == FirstValue(s, k)
  {
    DividedKey(s, seg, k);
    OneWithKey(s, k);
    NoneWithKey(s, k);
    var a, b, w := WithKey(Kept(s, seg), k), WithKey(GivenUp(s, seg), k), WithKey(s, k);
    NoneWithKey(Kept(s, seg), k);
    NoneWithKey(GivenUp(s, seg), k);
    if a != [] { assert a[0] in w; }
    if b != [] { assert b[0] in w; }
  }

  /** A merge gives up a record of a key that the static half stores with another value.
      The value that stands for "not found" is none that a lookup could lose. */
  predicate Shadows(c: Contents, k: int)
    requires |c.dyn| >= INIT_SIZE
  {
    BuffersSuffice(|c.dyn|, INIT_SIZE);
    var moved := GivenUp(c.dyn, |c.dyn| / INIT_SIZE);
    HasKey(moved, k) && FirstValue(moved, k) != VALUE_MAX && HasKey(c.sta, k) && FirstValue(c.sta, k) != FirstValue(moved, k)
  }

  /** A merge changes what a lookup returns exactly for the given-up keys that the
      static half already had with another value: the stored record is found first. */
  lemma MergeKeepsLookup(c: Contents, k: int)
    requires Ordered(c) && |c.dyn| >= INIT_SIZE
    ensures Lookup(Merged(c), k) == Lookup(c, k) <==> !Shadows(c, k)
    ensures HasKey(Merged(c).dyn, k) ==> DynamicValue(Merged(c).dyn, k) == DynamicValue(c.dyn, k) && !Shadows(c, k)
  {
    BuffersSuffice(|c.dyn|, INIT_SIZE);
    var seg := |c.dyn| / INIT_SIZE;
    BothDistinct(c.dyn, seg);
    Divided(c.dyn, seg, k);
    MergeFirstValue(c.sta, GivenUp(c.dyn, seg), k);
    if HasKey(c.dyn, k) { ValueIsStored(c.dyn, k); }
  }

  lemma ValueIsStored(s: seq<Record>, k: int)
    requires SortedByKey(s) && HasKey(s, k)
    ensures Record(k, FirstValue(s, k)) in s
  {
    FirstIsLowerBound(s, k);
    assert s[LowerBound(s, k)] == Record(k, FirstValue(s, k));
  }

  /** An insertion without a merge changes the lookup of its own key, and no other. */
  lemma PutChangesLookup(c: Contents, r: Record, k: int)
    requires Ordered(c)
    ensures DynamicValue(Put(c.dyn, r), k) == if k == r.key then r.value else DynamicValue(c.dyn, k)
    ensures Lookup(Contents(Put(c.dyn, r), c.sta), k)
         == if k != r.key then Lookup(c, k) else if r.value != VALUE_MAX then r.value else StaticValue(c.sta, k)
  {
    PutHolds(c.dyn, r);
    var d := Put(c.dyn, r);
    HasIn(d, k);
    HasIn(c.dyn, k);
    if k == r.key {
      ValueOf(d, r);
    } else if HasKey(c.dyn, k) {
      ValueIsStored(c.dyn, k);
      ValueOf(c.dyn, Record(k, FirstValue(c.dyn, k)));
      ValueOf(d, Record(k, FirstValue(c.dyn, k)));
    }
  }

  // ---- steps that store no key twice

  /** No key is stored twice. */
  ghost predicate Clean(c: Contents) {
    Ordered(c) && DistinctKeys(c.sta) && Disjoint(c.sta, c.dyn)
  }

  /** A merge of a clean index loses nothing, moves records only, and changes no lookup. */
  lemma MergedClean(c: Contents, k: int)
    requires Clean(c) && |c.dyn| >= INIT_SIZE
    ensures Clean(Merged(c)) && Lookup(Merged(c), k) == Lookup(c, k)
    ensures Stored(Merged(c), k) <==> Stored(c, k)
  {
    BuffersSuffice(|c.dyn|, INIT_SIZE);
    var seg := |c.dyn| / INIT_SIZE;
    var kept, moved := Kept(c.dyn, seg), GivenUp(c.dyn, seg);
    MergedOrdered(c);
    BothDistinct(c.dyn, seg);
    MergedDisjoint(c, seg);
    Divided(c.dyn, seg, k);
    MergeFirstValue(c.sta, moved, k);
    MergeKeepsLookup(c, k);
    if HasKey(moved, k) && HasKey(c.sta, k) {
      HasIn(c.sta, k);
      HasIn(c.dyn, k);
      KeyClash(c.sta, c.dyn, k);
    }
  }

  lemma KeyClash(a: seq<Record>, b: seq<Record>, k: int)
    requires Disjoint(a, b)
    ensures !(HasKey(a, k) && HasKey(b, k))
  {
  }

  lemma MergedDisjoint(c: Contents, seg: nat)
    requires Clean(c) && seg > 0
    ensures DistinctKeys(Merge(c.sta, GivenUp(c.dyn, seg)))
    ensures Disjoint(Merge(c.sta, GivenUp(c.dyn, seg)), Kept(c.dyn, seg))
  {
    var kept, moved := Kept(c.dyn, seg), GivenUp(c.dyn, seg);
    var sta := Merge(c.sta, moved);
    BothDistinct(c.dyn, seg);
    assert Disjoint(c.sta, moved) by {
      forall i, j | 0 <= i < |c.sta| && 0 <= j < |moved| ensures c.sta[i].key != moved[j].key {
        assert moved[j] in c.dyn;
      }
    }
    MergeDistinct(c.sta, moved);
    forall i, j | 0 <= i < |sta| && 0 <= j < |kept| ensures sta[i].key != kept[j].key {
      MergeKeys(c.sta, moved, i);
      assert kept[j] in c.dyn;
      if sta[i] in moved {
        var n :| 0 <= n < |moved| && moved[n] == sta[i];
        Divided(c.dyn, seg, sta[i].key);
      }
    }
  }

  /** Inserting a key that is not stored: the index stays clean, holds one record
      more, and only the lookup of that key changes. */
  lemma InsertedClean(c: Contents, r: Record, overBudget: bool, k: int)
    requires Clean(c) && !Stored(c, r.key) && (overBudget ==> |c.dyn| >= INIT_SIZE)
    ensures Clean(Inserted(c, r, overBudget))
    ensures All(Inserted(c, r, overBudget)) == All(c) + multiset{r}
    ensures Lookup(Inserted(c, r, overBudget), k) == if k == r.key then r.value else Lookup(c, k)
    ensures Stored(Inserted(c, r, overBudget), k) <==> Stored(c, k) || k == r.key
  {
    if overBudget {
      MergedOrdered(c);
      MergedClean(c, k);
      MergedClean(c, r.key);
    }
    PutClean(Relieved(c, overBudget), r, k);
  }

  lemma PutClean(m: Contents, r: Record, k: int)
    requires Clean(m) && !Stored(m, r.key)
    ensures var c := Contents(Put(m.dyn, r), m.sta);
      && Clean(c) && All(c) == All(m) + multiset{r}
      && Lookup(c, k) == (if k == r.key then r.value else Lookup(m, k))
      && (Stored(c, k) <==> Stored(m, k) || k == r.key)
  {
    PutKeepsClean(m, r);
    PutChangesLookup(m, r, k);
    PutHolds(m.dyn, r);
    HasIn(Put(m.dyn, r), k);
    HasIn(m.dyn, k);
  }

  lemma PutKeepsClean(m: Contents, r: Record)
    requires Clean(m) && !Stored(m, r.key)
    ensures var c := Contents(Put(m.dyn, r), m.sta); Clean(c) && All(c) == All(m) + multiset{r}
  {
    PutHolds(m.dyn, r);
    PutConserves(m.dyn, LowerBound(m.dyn, r.key), r);
    PlaceOf(m.dyn, r.key);
    PutDisjoint(m.sta, m.dyn, r);
  }

  lemma PutDisjoint(sta: seq<Record>, dyn: seq<Record>, r: Record)
    requires DistinctKeys(dyn) && Disjoint(sta, dyn) && !HasKey(sta, r.key)
    ensures Disjoint(sta, Put(dyn, r))
  {
    PutHolds(dyn, r);
    var d := Put(dyn, r);
    forall i, j | 0 <= i < |sta| && 0 <= j < |d| ensures sta[i].key != d[j].key {
      assert d[j] in d;
    }
  }

  // ---- the first distribution of the data

  /** Every `seg`-th record, up to `limit` of them, starts in the dynamic half. */
  function Sampled(s: seq<Record>, seg: nat, limit: nat): (t: seq<Record>)
    requires seg > 0
    ensures |t| <= limit
  {
    if s == [] then []
    else
      var t := Sampled(s[..|s| - 1], seg, limit);
      if (|s| - 1) % seg == 0 && |t| < limit then t + [s[|s| - 1]] else t
  }

  function Rest(s: seq<Record>, seg: nat, limit: nat): seq<Record>
    requires seg > 0
  {
    if s == [] then []
    else
      var t := Rest(s[..|s| - 1], seg, limit);
      if (|s| - 1) % seg == 0 && |Sampled(s[..|s| - 1], seg, limit)| < limit then t else t + [s[|s| - 1]]
  }

  lemma {:induction false} DistributedAll(s: seq<Record>, seg: nat, limit: nat)
    requires seg > 0
    ensures multiset(Sampled(s, seg, limit)) + multiset(Rest(s, seg, limit)) == multiset(s)
    ensures |Sampled(s, seg, limit)| + |Rest(s, seg, limit)| == |s|
  {
    if s != [] {
      DistributedAll(s[..|s| - 1], seg, limit);
      assert s == s[..|s| - 1] + [s[|s| - 1]];
    }
  }

  lemma AppendApart(a: seq<Record>, b: seq<Record>, l: Record, k: int)
    requires DistinctKeys(a) && Below(a, l.key) && Below(b, l.key) && Disjoint(b, a) && l.key < k
    ensures DistinctKeys(a + [l]) && Disjoint(b, a + [l]) && Below(a + [l], k) && Below(b, k)
  {
  }

  lemma DisjointBack(a: seq<Record>, b: seq<Record>)
    requires Disjoint(a, b)
    ensures Disjoint(b, a)
  {
  }

  /** The distribution keeps the order of the records and puts no key in both halves. */
  lemma {:induction false} Distributed(s: seq<Record>, seg: nat, limit: nat, k: int)
    requires seg > 0 && DistinctKeys(s) && Below(s, k)
    ensures DistinctKeys(Sampled(s, seg, limit)) && DistinctKeys(Rest(s, seg, limit))
    ensures Disjoint(Rest(s, seg, limit), Sampled(s, seg, limit))
    ensures Below(Sampled(s, seg, limit), k) && Below(Rest(s, seg, limit), k)
  {
    if s != [] {
      var s0, l := s[..|s| - 1], s[|s| - 1];
      DistinctFront(s);
      Distributed(s0, seg, limit, l.key);
      var t, u := Sampled(s0, seg, limit), Rest(s0, seg, limit);
      DisjointBack(u, t);
      AppendApart(t, u, l, k);
      AppendApart(u, t, l, k);
      DisjointBack(t, u + [l]);
    }
  }

  /** `Build`: the loop that distributes the data over the two halves. */
  method Distribute(data: seq<Record>) returns (dyn: seq<Record>, sta: seq<Record>)
    requires |data| > INIT_SIZE
    ensures |data| / INIT_SIZE > 0
    ensures dyn == Sampled(data, |data| / INIT_SIZE, INIT_SIZE) && sta == Rest(data, |data| / INIT_SIZE, INIT_SIZE)
  {
    var dynamicData := new Record[INIT_SIZE](_ => Record(0, 0));
    var staticData := new Record[|data|](_ => Record(0, 0));
    var seg := |data| / INIT_SIZE;
    var dynamicCnt: nat, staticCnt: nat, totalCnt: nat := 0, 0, 0;
    while totalCnt < |data|
      invariant totalCnt <= |data| && dynamicCnt <= INIT_SIZE && staticCnt <= totalCnt
      invariant dynamicData[..dynamicCnt] == Sampled(data[..totalCnt], seg, INIT_SIZE)
      invariant staticData[..staticCnt] == Rest(data[..totalCnt], seg, INIT_SIZE)
    {
      assert data[..totalCnt + 1][..totalCnt] == data[..totalCnt];
      if totalCnt % seg == 0 && dynamicCnt < INIT_SIZE {
        dynamicData[dynamicCnt] := data[totalCnt];
        dynamicCnt := dynamicCnt + 1;
      } else {
        staticData[staticCnt] := data[totalCnt];
        staticCnt := staticCnt + 1;
      }
      totalCnt := totalCnt + 1;
    }
    assert data[..totalCnt] == data;
    dyn, sta := dynamicData[..dynamicCnt], staticData[..staticCnt];
  }

  // ---- the index

  lemma RoomBelow(n: nat, m: nat, rpp: nat, buf: nat, file: nat)
    requires rpp > 0 && n <= m && Span(PagesFor(m, rpp), rpp) <= file && Suffices(buf, PagesFor(m, rpp), rpp)
    ensures Span(PagesFor(n, rpp), rpp) <= file && Suffices(buf, PagesFor(n, rpp), rpp)
  {
    PagesForMono(n, m, rpp);
    SpanMono(PagesFor(n, rpp), PagesFor(m, rpp), rpp);
    SpanMono(ChunkOf(PagesFor(n, rpp)), ChunkOf(PagesFor(m, rpp)), rpp);
  }

  /** With room for all records, a merge finds the room it needs. */
  lemma MergeFits(given: nat, dyn: nat, sta: nat, rpp: nat, buf: nat, file: nat)
    requires given <= dyn && rpp > 0
    requires Span(PagesFor(dyn + sta, rpp), rpp) <= file && Suffices(buf, PagesFor(dyn + sta, rpp), rpp)
    ensures Span(PagesFor(given + sta, rpp), rpp) <= file && Suffices(buf, PagesFor(given + sta, rpp), rpp)
    ensures Suffices(buf, PagesFor(sta, rpp), rpp)
  {
    RoomBelow(given + sta, dyn + sta, rpp, buf, file);
    RoomBelow(sta, dyn + sta, rpp, buf, file);
  }

  /** What a merge needs of the file and the buffer. */
  lemma MergeReady(c: Contents, rpp: nat, buf: nat, file: nat)
    requires Ordered(c) && |c.dyn| >= INIT_SIZE && rpp > 0
    requires var n := |c.dyn| + |c.sta|; Span(PagesFor(n, rpp), rpp) <= file && Suffices(buf, PagesFor(n, rpp), rpp)
    ensures |c.dyn| / INIT_SIZE > 0
    ensures var n := |GivenUp(c.dyn, |c.dyn| / INIT_SIZE)| + |c.sta|;
      Span(PagesFor(n, rpp), rpp) <= file && Suffices(buf, PagesFor(n, rpp), rpp)
    ensures Suffices(buf, PagesFor(|c.sta|, rpp), rpp)
  {
    BuffersSuffice(|c.dyn|, INIT_SIZE);
    KeptSize(c.dyn, |c.dyn| / INIT_SIZE);
    MergeFits(|GivenUp(c.dyn, |c.dyn| / INIT_SIZE)|, |c.dyn|, |c.sta|, rpp, buf, file);
  }

  class HybridIndex {
    const dynamicIndex: BTreeIndex
    const staticIndex: StaticCprDI
    var mergeCnt: nat
    var memFindCnt: nat
    var diskFindCnt: nat
    var memInsertCnt: nat

    ghost const Repr: set<object>

    ghost predicate Valid()
      reads this, Repr, staticIndex, staticIndex.di, Model()
    {
      && Repr == {this, dynamicIndex, staticIndex, staticIndex.base, staticIndex.base.disk, staticIndex.base.readBuf}
      && dynamicIndex.Valid() && staticIndex.Valid()
    }

    /** The objects of the learned index, which is replaced in every merge. */
    ghost function Model(): set<object>
      reads staticIndex, staticIndex.di
    {
      if staticIndex.di == null then {}
      else if staticIndex.di.intercepts == null then {staticIndex.di}
      else {staticIndex.di, staticIndex.di.intercepts}
    }

    ghost function View(): Contents
      requires Valid()
      reads this, Repr, staticIndex, staticIndex.di, Model()
    {
      Contents(dynamicIndex.tree, staticIndex.base.Contents())
    }

    /** The learned index was trained on the static records. */
    predicate Trained()
      reads staticIndex
    {
      staticIndex.di != null
    }

    /** The file and the buffer hold `n` records. */
    ghost predicate HasRoom(n: nat)
      reads staticIndex.base
    {
      var rpp := staticIndex.base.recordPerPage;
      && rpp > 0
      && Span(PagesFor(n, rpp), rpp) <= staticIndex.base.disk.Length
      && Suffices(staticIndex.base.readBuf.Length, PagesFor(n, rpp), rpp)
    }

    /** Training on the static records succeeds. */
    ghost predicate CanTrain(sta: seq<Record>)
      requires Configured(staticIndex.epsilon, staticIndex.base.recordPerPage, staticIndex.parallelism)
    {
      Modelled(sta, staticIndex.epsilon, staticIndex.base.recordPerPage, staticIndex.parallelism)
    }

    constructor (capacity: nat, buffer: nat, recordPerPage: nat, epsilon: Word, parallelism: nat)
      requires Configured(epsilon, recordPerPage, parallelism)
      ensures Valid() && View() == Contents([], []) && fresh(Repr) && !Trained()
    {
      var dy := new BTreeIndex([]);
      var sta := new StaticCprDI(capacity, buffer, recordPerPage, epsilon, parallelism);
      dynamicIndex, staticIndex := dy, sta;
      mergeCnt, memFindCnt, diskFindCnt, memInsertCnt := 0, 0, 0, 0;
      Repr := {this, dy, sta, sta.base, sta.base.disk, sta.base.readBuf};
    }

    /** Distributes sorted data over the two halves of an empty index. */
    method Build(data: seq<Record>)
      requires Valid() && View() == Contents([], []) && |data| > INIT_SIZE && DistinctKeys(data)
      requires HasRoom(|data|) && HasRoom(0)
      modifies Repr
      ensures Valid() && Clean(View()) && All(View()) == multiset(data)
      ensures Trained() <==> CanTrain(View().sta)
    {
      var dyn, sta := Distribute(data);
      Distributed(data, |data| / INIT_SIZE, INIT_SIZE, data[|data| - 1].key + 1);
      DistributedAll(data, |data| / INIT_SIZE, INIT_SIZE);
      RoomBelow(|sta|, |data|, staticIndex.base.recordPerPage, staticIndex.base.readBuf.Length,
                staticIndex.base.disk.Length);
      dynamicIndex.Build(dyn);
      MergeWithNone(sta);
      staticIndex.Build(sta);
    }

    /** Asks the dynamic half first, then the pages the learned index points to. Where the
        dynamic half has no value, the search on these pages decides, also for keys that
        are not stored. */
    method Find(key: int) returns (v: int, ghost b: SearchBound)
      requires Valid() && Trained()
      requires Span(3, staticIndex.base.recordPerPage) <= staticIndex.base.readBuf.Length
      modifies this`memFindCnt, this`diskFindCnt, staticIndex.base.readBuf
      ensures Valid() && View() == old(View()) && memFindCnt == old(memFindCnt) + 1
      ensures diskFindCnt == old(diskFindCnt) + (if DynamicValue(View().dyn, key) == VALUE_MAX then 1 else 0)
      ensures Visible(View(), key, staticIndex.base.recordPerPage) ==> v == Lookup(View(), key)
      ensures DynamicValue(View().dyn, key) == VALUE_MAX && HasKey(View().sta, key)
              ==> v == StaticAnswer(View().sta, key, staticIndex.base.recordPerPage)
      ensures DynamicValue(View().dyn, key) == VALUE_MAX
              ==> b.begin < b.end <= |View().sta| && var w := WindowOn(View().sta, b, staticIndex.base.recordPerPage);
                  v == w[Landing(w, key)].value
    {
      b := SearchBound(0, 0);
      v := dynamicIndex.Find(key);
      memFindCnt := memFindCnt + 1;
      if v == VALUE_MAX { v, b := FindStatic(key); }
    }

    method FindStatic(key: int) returns (v: int, ghost b: SearchBound)
      requires Valid() && Trained()
      requires Span(3, staticIndex.base.recordPerPage) <= staticIndex.base.readBuf.Length
      modifies this`diskFindCnt, staticIndex.base.readBuf
      ensures Valid() && View() == old(View()) && diskFindCnt == old(diskFindCnt) + 1
      ensures HasKey(View().sta, key) ==> v == StaticAnswer(View().sta, key, staticIndex.base.recordPerPage)
      ensures b.begin < b.end <= |View().sta| && var w := WindowOn(View().sta, b, staticIndex.base.recordPerPage);
              v == w[Landing(w, key)].value
    {
      v, b := staticIndex.Find(key);
      diskFindCnt := diskFindCnt + 1;
    }

    /** Moves all but at least `INIT_SIZE` of the dynamic records to the static half. */
    method Merge()
      requires Valid() && |View().dyn| >= INIT_SIZE && HasRoom(|View().dyn| + |View().sta|)
      modifies Repr
      ensures Valid() && View() == Merged(old(View())) && (Trained() <==> CanTrain(View().sta))
      ensures mergeCnt == old(mergeCnt) && memInsertCnt == old(memInsertCnt)
    {
      MergeReady(View(), staticIndex.base.recordPerPage, staticIndex.base.readBuf.Length, staticIndex.base.disk.Length);
      var dynamicData := dynamicIndex.Merge(INIT_SIZE);
      staticIndex.Build(dynamicData);
    }

    /** Inserts a record, after a merge if the dynamic half is over its budget. */
    method Insert(key: int, value: int, overBudget: bool)
      requires Valid() && (overBudget ==> |View().dyn| >= INIT_SIZE && HasRoom(|View().dyn| + |View().sta|))
      modifies Repr
      ensures Valid() && View() == Inserted(old(View()), Record(key, value), overBudget)
      ensures Trained() <==> if overBudget then CanTrain(View().sta) else old(Trained())
      ensures memInsertCnt == old(memInsertCnt) + 1 && mergeCnt == old(mergeCnt) + (if overBudget then 1 else 0)
    {
      memInsertCnt := memInsertCnt + 1;
      Relieve(overBudget);
      PutRecord(key, value);
    }

    method Relieve(overBudget: bool)
      requires Valid() && (overBudget ==> |View().dyn| >= INIT_SIZE && HasRoom(|View().dyn| + |View().sta|))
      modifies Repr
      ensures Valid() && View() == Relieved(old(View()), overBudget)
      ensures Trained() <==> if overBudget then CanTrain(View().sta) else old(Trained())
      ensures memInsertCnt == old(memInsertCnt) && mergeCnt == old(mergeCnt) + (if overBudget then 1 else 0)
    {
      if overBudget {
        mergeCnt := mergeCnt + 1;
        Merge();
      }
    }

    method PutRecord(key: int, value: int)
      requires Valid()
      modifies dynamicIndex
      ensures Valid() && View() == Contents(Put(old(View()).dyn, Record(key, value)), old(View()).sta)
      ensures Trained() == old(Trained())
    {
      dynamicIndex.Insert(key, value);
    }
  }

  /** The key is in the dynamic half, or in the static one within reach of the learned index. */
  predicate Visible(c: Contents, k: int, rpp: nat)
    requires rpp > 0
  {
    DynamicValue(c.dyn, k) != VALUE_MAX || (HasKey(c.sta, k) && Reached(c.sta, k, rpp))
  }

  /** Where no key is stored twice, every stored key is visible, unless its value in the
      dynamic half is the one that stands for "not found". */
  lemma StoredIsVisible(c: Contents, k: int, rpp: nat)
    requires Clean(c) && Stored(c, k) && rpp > 0
    ensures Visible(c, k, rpp) <==> !(HasKey(c.dyn, k) && FirstValue(c.dyn, k) == VALUE_MAX)
  {
    if HasKey(c.dyn, k) {
      HasIn(c.sta, k);
      KeyClash(c.sta, c.dyn, k);
    } else {
      DistinctIsReached(c.sta, k, rpp);
    }
  }

  lemma MergeWithNone(s: seq<Record>)
    ensures R.Merge([], s) == s
  {
  }
}
