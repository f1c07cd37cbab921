/** The dynamic half of the hybrid index: an ordered map in memory that gives up
    most of its records in a merge and keeps every `seg`-th. */
module HybridDynamic {
  import opened Geometry
  import opened Records
  import opened PageStore

  /** The largest value, which stands for "not found". */
  const VALUE_MAX: int := 0xFFFF_FFFF_FFFF_FFFF

  // ---- the ordered map

  /** `erase` and `insert`: the record takes the place of one with the same key, or its place in the order. */
  function Put(tree: seq<Record>, r: Record): seq<Record> {
    PutAt(tree, LowerBound(tree, r.key), r)
  }

  function PutAt(tree: seq<Record>, t: nat, r: Record): seq<Record>
    requires t <= |tree|
  {
    if t < |tree| && tree[t].key == r.key then tree[..t] + [r] + tree[t + 1..] else tree[..t] + [r] + tree[t..]
  }

  /** Where a key is, or would be. */
  lemma PlaceOf(tree: seq<Record>, k: int)
    requires DistinctKeys(tree)
    ensures forall i | 0 <= i < LowerBound(tree, k) :: tree[i].key < k
    ensures forall i | LowerBound(tree, k) <= i < |tree| :: k <= tree[i].key
    ensures HasKey(tree, k) <==> LowerBound(tree, k) < |tree| && tree[LowerBound(tree, k)].key == k
  {
    LowerBoundSplits(tree, k);
  }

  /** After an insertion the map holds the new record and the old ones with other keys. */
  lemma PutHolds(tree: seq<Record>, r: Record)
    requires DistinctKeys(tree)
    ensures DistinctKeys(Put(tree, r))
    ensures forall x :: x in Put(tree, r) <==> x == r || (x in tree && x.key != r.key)
  {
    var t := LowerBound(tree, r.key);
    PlaceOf(tree, r.key);
    assert tree == tree[..t] + tree[t..];
    if HasKey(tree, r.key) { assert tree[t..] == [tree[t]] + tree[t + 1..]; }
  }

  lemma InsertedBetween(a: seq<Record>, x: Record, b: seq<Record>)
    ensures multiset(a + [x] + b) == multiset(a + b) + multiset{x}
  {
    assert a + [x] + b == a + ([x] + b);
  }

  lemma Replaced(a: seq<Record>, x: Record, r: Record, b: seq<Record>)
    ensures multiset(a + [r] + b) + multiset{x} == multiset(a + [x] + b) + multiset{r}
  {
    InsertedBetween(a, x, b);
    InsertedBetween(a, r, b);
  }

  /** An insertion changes the records by the one inserted and the one it replaces. */
  lemma PutConserves(tree: seq<Record>, t: nat, r: Record)
    requires t <= |tree|
    ensures if t < |tree| && tree[t].key == r.key
            then multiset(PutAt(tree, t, r)) + multiset{tree[t]} == multiset(tree) + multiset{r}
            else multiset(PutAt(tree, t, r)) == multiset(tree) + multiset{r}
  {
    if t < |tree| && tree[t].key == r.key {
      assert tree == tree[..t] + [tree[t]] + tree[t + 1..];
      Replaced(tree[..t], tree[t], r, tree[t + 1..]);
    } else {
      assert tree == tree[..t] + tree[t..];
      InsertedBetween(tree[..t], r, tree[t..]);
    }
  }

  /** With distinct keys, a search returns the value of the one record with the key. */
  lemma ValueOf(tree: seq<Record>, x: Record)
    requires DistinctKeys(tree) && x in tree
    ensures HasKey(tree, x.key) && FirstValue(tree, x.key) == x.value
  {
    var i :| 0 <= i < |tree| && tree[i] == x;
    FirstIsLowerBound(tree, x.key);
    PlaceOf(tree, x.key);
  }

  // ---- what a merge keeps and what it gives up

  /** The records at every `seg`-th position, from the first. */
  function Kept(s: seq<Record>, seg: nat): seq<Record>
    requires seg > 0
  {
    if s == [] then []
    else Kept(s[..|s| - 1], seg) + if (|s| - 1) % seg == 0 then [s[|s| - 1]] else []
  }

  function GivenUp(s: seq<Record>, seg: nat): seq<Record>
    requires seg > 0
  {
    if s == [] then []
    else GivenUp(s[..|s| - 1], seg) + if (|s| - 1) % seg == 0 then [] else [s[|s| - 1]]
  }

  /** One record of each `seg`-wide segment that is begun stays: as many as there are pages of `seg` records. */
  lemma {:induction false} KeptSize(s: seq<Record>, seg: nat)
    requires seg > 0
    ensures |Kept(s, seg)| == PagesFor(|s|, seg)
    ensures |Kept(s, seg)| + |GivenUp(s, seg)| == |s|
  {
    if s != [] {
      KeptSize(s[..|s| - 1], seg);
      PagesStep(|s| - 1, seg);
    }
  }

  lemma {:induction false} PagesStep(n: nat, seg: nat)
    requires seg > 0
    ensures PagesFor(n + 1, seg) == PagesFor(n, seg) + if n % seg == 0 then 1 else 0
  {
    if n < seg {
    } else {
      assert n % seg == (n - seg) % seg by { OneRound(n, seg); }
      PagesStep(n - seg, seg);
    }
  }

  lemma OneRound(n: nat, seg: nat)
    requires 0 < seg <= n
    ensures n % seg == (n - seg) % seg
  {
    var q := n / seg;
    assert n == seg * q + n % seg;
    var r := n - seg;
    assert r == seg * (r / seg) + r % seg;
    var q' := r / seg;
    if q' < q - 1 { MulMono(q' + 2, q, seg); }
    if q - 1 < q' { MulMono(q, q', seg); }
  }

  lemma {:induction false} KeptAndGivenUp(s: seq<Record>, seg: nat)
    requires seg > 0
    ensures multiset(Kept(s, seg)) + multiset(GivenUp(s, seg)) == multiset(s)
  {
    if s != [] {
      var s0, x := s[..|s| - 1], s[|s| - 1];
      KeptAndGivenUp(s0, seg);
      Snoc(s0, x);
      Snoc(Kept(s0, seg), x);
      Snoc(GivenUp(s0, seg), x);
      assert s == s0 + [x];
    }
  }

  lemma Snoc(s: seq<Record>, x: Record)
    ensures multiset(s + [x]) == multiset(s) + multiset{x} && s + [] == s
  {
  }

  lemma {:induction false} BothDistinct(s: seq<Record>, seg: nat)
    requires seg > 0 && DistinctKeys(s)
    ensures DistinctKeys(Kept(s, seg)) && DistinctKeys(GivenUp(s, seg))
    ensures forall x | x in Kept(s, seg) || x in GivenUp(s, seg) :: x in s
  {
    if s != [] {
      var s0, l := s[..|s| - 1], s[|s| - 1];
      BothDistinct(s0, seg);
      LastIsLargest(s);
      DistinctSnoc(Kept(s0, seg), l);
      DistinctSnoc(GivenUp(s0, seg), l);
    }
  }

  lemma LastIsLargest(s: seq<Record>)
    requires s != [] && DistinctKeys(s)
    ensures forall x | x in s[..|s| - 1] :: x.key < s[|s| - 1].key && x in s
  {
  }

  lemma DistinctSnoc(s: seq<Record>, l: Record)
    requires DistinctKeys(s) && forall x | x in s :: x.key < l.key
    ensures DistinctKeys(s + [l]) && forall x :: x in s + [l] <==> x in s || x == l
  {
  }

  /** With at least as many records as segments asked for, the segments are not too
      long: the given-up records fit into the buffer of `n - num`, the kept ones into theirs. */
  lemma BuffersSuffice(n: nat, num: nat)
    requires 1 <= num <= n
    ensures n / num > 0 && num <= PagesFor(n, n / num) <= n
  {
    var seg := n / num;
    assert n == num * seg + n % num;
    DivisionBounds(n, num, 1);
    PagesForBounds(n, seg);
    var p := PagesFor(n, seg);
    SpanIsProduct(p, seg);
    SpanIsProduct(p - 1, seg);
    SpanSum(p - 1, 1, seg);
    if p < num { Small(p, num, seg); }
    if n < p { Small(n, p - 1, seg); Grow(n, seg); }
  }

  lemma Small(p: nat, num: nat, seg: nat)
    requires p <= num
    ensures p * seg <= num * seg
    ensures p < num && seg > 0 ==> p * seg < num * seg
  {
  }

  lemma Grow(n: nat, seg: nat)
    requires seg > 0
    ensures n <= n * seg
  {
  }

  class BTreeIndex {
    var tree: seq<Record>

    ghost predicate Valid()
      reads this
    {
      DistinctKeys(tree)
    }

    constructor (data: seq<Record>)
      requires DistinctKeys(data)
      ensures Valid() && tree == data
    {
      tree := data;
    }

    /** Replaces the records, as a bulk load does. */
    method Build(data: seq<Record>)
      requires DistinctKeys(data)
      modifies this
      ensures Valid() && tree == data
    {
      tree := data;
    }

    method Find(key: int) returns (v: int)
      requires Valid()
      ensures v == if HasKey(tree, key) then FirstValue(tree, key) else VALUE_MAX
    {
      var it := LowerBound(tree, key);
      if HasKey(tree, key) { FirstIsLowerBound(tree, key); }
      v := if it == |tree| || tree[it].key != key then VALUE_MAX else tree[it].value;
    }

    method Insert(key: int, value: int)
      requires Valid()
      modifies this
      ensures Valid() && tree == Put(old(tree), Record(key, value))
    {
      PutHolds(tree, Record(key, value));
      tree := Put(tree, Record(key, value));
    }

    /** Gives up all records but every `seg`-th, at least `num` of them. */
    method Merge(num: nat) returns (merged: seq<Record>)
      requires Valid() && 1 <= num <= |tree|
      modifies this
      ensures Valid() && DistinctKeys(merged)
      ensures tree == Kept(old(tree), |old(tree)| / num) && merged == GivenUp(old(tree), |old(tree)| / num)
      ensures num <= |tree|
    {
      BuffersSuffice(|tree|, num);
      KeptSize(tree, |tree| / num);
      BothDistinct(tree, |tree| / num);
      var initData;
      merged, initData := Divide(tree, num);
      tree := initData;
    }
  }

  /** The loop of the merge, with its two buffers, which are never overrun. */
  method Divide(tree: seq<Record>, num: nat) returns (merged: seq<Record>, kept: seq<Record>)
    requires 1 <= num <= |tree|
    ensures |tree| / num > 0
    ensures kept == Kept(tree, |tree| / num) && merged == GivenUp(tree, |tree| / num)
  {
    var n := |tree|;
    BuffersSuffice(n, num);
    var mergedData := new Record[n - num](_ => Record(0, 0));
    var seg := n / num;
    PagesForIsCeiling(n, seg);
    var initData := new Record[(n + seg - 1) / seg](_ => Record(0, 0));
    KeptSize(tree, seg);
    var initCnt, mergeCnt := FillBuffers(tree, seg, initData, mergedData);
    merged, kept := mergedData[..mergeCnt], initData[..initCnt];
  }

  method FillBuffers(tree: seq<Record>, seg: nat, initData: array<Record>, mergedData: array<Record>)
    returns (initCnt: nat, mergeCnt: nat)
    requires seg > 0 && initData != mergedData
    requires |Kept(tree, seg)| <= initData.Length && |GivenUp(tree, seg)| <= mergedData.Length
    modifies initData, mergedData
    ensures initCnt <= initData.Length && initData[..initCnt] == Kept(tree, seg)
    ensures mergeCnt <= mergedData.Length && mergedData[..mergeCnt] == GivenUp(tree, seg)
  {
    initCnt, mergeCnt := 0, 0;
    for totalCnt := 0 to |tree|
      invariant initCnt <= initData.Length && mergeCnt <= mergedData.Length
      invariant initData[..initCnt] == Kept(tree[..totalCnt], seg)
      invariant mergedData[..mergeCnt] == GivenUp(tree[..totalCnt], seg)
    {
      FrontSizes(tree, totalCnt + 1, seg);
      OneMore(tree, totalCnt, seg);
      if totalCnt % seg == 0 {
        initData[initCnt] := tree[totalCnt];
        initCnt := initCnt + 1;
      } else {
        mergedData[mergeCnt] := tree[totalCnt];
        mergeCnt := mergeCnt + 1;
      }
    }
    assert tree[..|tree|] == tree;
  }

  lemma OneMore(s: seq<Record>, n: nat, seg: nat)
    requires seg > 0 && n < |s|
    ensures n % seg == 0 ==> Kept(s[..n + 1], seg) == Kept(s[..n], seg) + [s[n]] && GivenUp(s[..n + 1], seg) == GivenUp(s[..n], seg)
    ensures n % seg != 0 ==> Kept(s[..n + 1], seg) == Kept(s[..n], seg) && GivenUp(s[..n + 1], seg) == GivenUp(s[..n], seg) + [s[n]]
  {
    assert s[..n + 1][..n] == s[..n];
  }

  /** The kept and the given-up records of a front are no more than those of the whole. */
  lemma {:induction false} FrontSizes(s: seq<Record>, n: nat, seg: nat)
    requires seg > 0 && n <= |s|
    ensures |Kept(s[..n], seg)| <= |Kept(s, seg)| && |GivenUp(s[..n], seg)| <= |GivenUp(s, seg)|
    decreases |s|
  {
    if n < |s| {
      FrontSizes(s[..|s| - 1], n, seg);
      assert s[..|s| - 1][..n] == s[..n];
    } else {
      assert s[..n] == s;
    }
  }
}
