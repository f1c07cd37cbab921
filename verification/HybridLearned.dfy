/** The static half of the hybrid index with its learned index: after every merge
    the compressed disk-oriented index is trained anew on the positions of the
    records, and its search bound says which pages to fetch. */
module HybridLearned {
  import opened Geometry
  import opened PiecewiseLinearModel
  import opened Pages
  import opened Records
  import opened PageStore
  import opened HybridStatic
  import L = PgmLevel
  import S = Segmentation
  import P = ParallelSegmentation
  import D = DiskOrientedIndex

  /** What the index is trained on: every key with its position. */
  function Training(c: seq<Record>): (t: seq<L.Entry>)
    requires |c| <= SIZE_MAX
    ensures |t| == |c| && forall i | 0 <= i < |t| :: t[i] == L.Entry(c[i].key, i)
  {
    seq(|c|, i requires 0 <= i < |c| => L.Entry(c[i].key, i))
  }

  /** The parameters of the index. */
  predicate Configured(epsilon: Word, rpp: nat, parallelism: nat) {
    4 <= rpp <= SIZE_MAX && epsilon > 0 && 2 * epsilon < rpp && 0 < parallelism <= P.CHUNKED_FROM
  }

  /** The records fit the index's number types and the gap between crossing positions is defined. */
  predicate Trainable(c: seq<Record>, epsilon: Word, rpp: nat) {
    && |c| > 0 && c[|c| - 1].key < KEY_MAX && |c| + rpp + 3 * epsilon < SIZE_MAX
    && D.CrossGapDefined(|c|, epsilon, rpp)
  }

  /** Training succeeds. */
  ghost predicate Modelled(c: seq<Record>, epsilon: Word, rpp: nat, parallelism: nat)
    requires Configured(epsilon, rpp, parallelism)
  {
    Trainable(c, epsilon, rpp)
    && (|c| > 1 ==> !S.EndsAlone(D.LastRanges(Training(c), epsilon, rpp, D.CrossFlags(|c|, epsilon, rpp), parallelism)))
  }

  lemma TrainingIsGood(c: seq<Record>, epsilon: Word, rpp: nat, parallelism: nat)
    requires Configured(epsilon, rpp, parallelism) && Trainable(c, epsilon, rpp) && SortedByKey(c)
    ensures D.GoodInput(Training(c), epsilon, rpp, D.CrossFlags(|c|, epsilon, rpp))
  {
  }

  /** The bound for a stored key leads to its first record: only the largest key
      can be missed, when its records reach over several pages. */
  predicate Reached(c: seq<Record>, key: int, rpp: nat)
    requires |c| > 0 && rpp > 0
  {
    key == c[0].key || key != c[|c| - 1].key || Page(LowerBound(c, key), rpp) == Page(|c| - 1, rpp)
  }

  /** What a search for a stored key finds. */
  function StaticAnswer(c: seq<Record>, key: int, rpp: nat): int
    requires |c| > 0 && rpp > 0 && SortedByKey(c) && HasKey(c, key)
  {
    if Reached(c, key, rpp) then FirstValue(c, key)
    else
      LastPageFinds(c, rpp);
      FirstValue(LastPageOf(c, rpp), key)
  }

  lemma FirstOfKey(c: seq<Record>, key: int)
    requires SortedByKey(c) && HasKey(c, key) && |c| <= SIZE_MAX
    ensures D.FirstWith(Training(c), key, LowerBound(c, key))
    ensures forall i {:trigger D.FirstWith(Training(c), key, i)} | D.FirstWith(Training(c), key, i) :: i == LowerBound(c, key)
  {
    FirstIsLowerBound(c, key);
    LowerBoundSplits(c, key);
  }

  /** With distinct keys every stored key is reached. */
  lemma DistinctIsReached(c: seq<Record>, key: int, rpp: nat)
    requires DistinctKeys(c) && HasKey(c, key) && rpp > 0
    ensures |c| > 0 && Reached(c, key, rpp)
  {
    FirstIsLowerBound(c, key);
  }

  /** A bound of at most `2 * error + 1` positions spans at most three pages. */
  lemma ThreePages(b: SearchBound, epsilon: nat, rpp: nat)
    requires b.begin < b.end && b.end - b.begin <= 2 * (epsilon + 1) + 1 && 2 * epsilon < rpp && rpp >= 4
    ensures Span(PagesSpanned(b, rpp), rpp) <= Span(3, rpp)
  {
    var f, l := FirstPage(b, rpp), LastPage(b, rpp);
    PageBounds(b.begin, rpp);
    PageBounds(b.end - 1, rpp);
    FewApart(f, l, b.begin, b.end - 1, epsilon, rpp);
    FirstBeforeLast(b, rpp);
    SpanMono(PagesSpanned(b, rpp), 3, rpp);
  }

  lemma FewApart(f: nat, l: nat, y: nat, z: nat, epsilon: nat, rpp: nat)
    requires y <= (f + 1) * rpp - 1 && l * rpp <= z && z - y <= 2 * epsilon + 2 && 2 * epsilon < rpp && rpp >= 4
    ensures l <= f + 2
  {
    assert (f + 3) * rpp == (f + 1) * rpp + 2 * rpp;
    if l > f + 2 { MulMono(f + 3, l, rpp); }
  }

  class StaticCprDI {
    const base: StaticIndex
    const epsilon: Word
    const parallelism: nat
    /** The learned index, or null as long as no training has succeeded since the last merge. */
    var di: D.DiskOrientedIndexV4?

    ghost predicate Valid()
      reads this, base, base.disk, di, if di != null then {di.intercepts} else {}
    {
      && base.Valid() && SortedByKey(base.Contents()) && Configured(epsilon, base.recordPerPage, parallelism)
      && (di != null ==>
            && di.Valid() && di.recordPerPage == base.recordPerPage && di.error == epsilon + 1
            && |base.Contents()| <= SIZE_MAX && di.data == Training(base.Contents()))
    }

    constructor (capacity: nat, buffer: nat, recordPerPage: nat, epsilon: Word, parallelism: nat)
      requires Configured(epsilon, recordPerPage, parallelism)
      ensures Valid() && base.Contents() == [] && di == null && fresh(base) && fresh(base.disk) && fresh(base.readBuf)
      ensures base.disk.Length == capacity && base.readBuf.Length == buffer && base.recordPerPage == recordPerPage
      ensures this.epsilon == epsilon && this.parallelism == parallelism
    {
      base := new StaticIndex(capacity, buffer, recordPerPage);
      this.epsilon, this.parallelism, di := epsilon, parallelism, null;
    }

    /** Merges the records into the file and trains the index on the result. */
    method Build(dy: seq<Record>)
      requires Valid() && SortedByKey(dy)
      requires Span(PagesFor(|dy| + base.dataNumber, base.recordPerPage), base.recordPerPage) <= base.disk.Length
      requires Suffices(base.readBuf.Length, PagesFor(|dy| + base.dataNumber, base.recordPerPage), base.recordPerPage)
      requires Suffices(base.readBuf.Length, base.pageNumber, base.recordPerPage)
      modifies this`di, base, base.disk, base.readBuf
      ensures Valid() && base.Contents() == Merge(old(base.Contents()), dy)
      ensures di != null <==> Modelled(base.Contents(), epsilon, base.recordPerPage, parallelism)
      ensures di != null ==> fresh(di) && fresh(di.intercepts)
    {
      MergeSorts(base.Contents(), dy);
      di := null;
      var merged := base.MergeData(dy);
      Retrain(merged);
    }

    method Retrain(merged: array<Record>)
      requires Valid() && di == null && merged[..] == base.Contents()
      modifies this`di
      ensures Valid() && (di != null <==> Modelled(base.Contents(), epsilon, base.recordPerPage, parallelism))
      ensures di != null ==> fresh(di) && fresh(di.intercepts)
    {
      di := TrainOn(merged[..], epsilon, base.recordPerPage, parallelism);
    }

    /** The search bound of the learned index. */
    method Bound(key: int) returns (b: SearchBound)
      requires Valid() && di != null
      ensures b.begin < b.end <= |base.Contents()| && Span(PagesSpanned(b, base.recordPerPage), base.recordPerPage)
                                                   <= Span(3, base.recordPerPage)
      ensures HasKey(base.Contents(), key) && Reached(base.Contents(), key, base.recordPerPage)
              ==> ReachesPage(b, LowerBound(base.Contents(), key), base.recordPerPage)
      ensures !Reached(base.Contents(), key, base.recordPerPage)
              ==> b == SearchBound(|base.Contents()| - 1, |base.Contents()|)
    {
      b := di.GetSearchBound(key);
      ThreePages(b, epsilon, base.recordPerPage);
      ghost var c := base.Contents();
      if HasKey(c, key) && Reached(c, key, base.recordPerPage) {
        FirstIsReached(c, key, base.recordPerPage, b);
      }
    }

    /** Fetches the pages of the bound and searches them. A stored key gives its value;
        only a largest key that reaches over several pages gives the first of its values
        on the last page. Any other key gives the value of the record where the search
        on the fetched pages ends. */
    method Find(key: int) returns (v: int, ghost b: SearchBound)
      requires Valid() && di != null && Span(3, base.recordPerPage) <= base.readBuf.Length
      modifies base.readBuf
      ensures b.begin < b.end <= |base.Contents()| && v == base.Window(b)[Landing(base.Window(b), key)].value
      ensures HasKey(base.Contents(), key) ==> v == StaticAnswer(base.Contents(), key, base.recordPerPage)
    {
      var bound := Bound(key);
      v := base.FindData(bound, key);
      b := bound;
      if !Reached(base.Contents(), key, base.recordPerPage) { LastPageFinds(base.Contents(), base.recordPerPage); }
    }
  }

  /** What the learned index promises for a key, in terms of the first record with it. */
  lemma FirstIsReached(c: seq<Record>, key: int, rpp: nat, b: SearchBound)
    requires SortedByKey(c) && |c| <= SIZE_MAX && rpp > 0 && HasKey(c, key) && Reached(c, key, rpp)
    requires c[0].key < key < c[|c| - 1].key ==> D.BoundsKey(b, Training(c), key, rpp)
    requires key == c[0].key ==> (D.BoundsKey(b, Training(c), key, rpp) <==> Page(0, rpp) == 0)
    requires key == c[|c| - 1].key > c[0].key ==>
      (D.BoundsKey(b, Training(c), key, rpp) <==> D.LastKeyOnLastPage(Training(c), rpp))
    ensures ReachesPage(b, LowerBound(c, key), rpp)
  {
    FirstOfKey(c, key);
    FirstIsLowerBound(c, key);
    assert Page(0, rpp) == 0;
    assert D.BoundsKey(b, Training(c), key, rpp);
  }

  /** A new index over the positions of the records, unless the training fails. */
  method TrainOn(c: seq<Record>, epsilon: Word, rpp: nat, parallelism: nat) returns (di: D.DiskOrientedIndexV4?)
    requires Configured(epsilon, rpp, parallelism) && SortedByKey(c)
    ensures di != null <==> Modelled(c, epsilon, rpp, parallelism)
    ensures di != null ==> di.Valid() && di.recordPerPage == rpp && di.error == epsilon + 1
    ensures di != null ==> |c| <= SIZE_MAX && di.data == Training(c)
    ensures di != null ==> fresh(di) && fresh(di.intercepts)
  {
    if !Trainable(c, epsilon, rpp) { return null; }
    TrainingIsGood(c, epsilon, rpp, parallelism);
    di := new D.DiskOrientedIndexV4(rpp);
    var ok := di.Build(Training(c), epsilon, D.CrossFlags(|c|, epsilon, rpp), parallelism);
    if !ok { di := null; }
  }
}
