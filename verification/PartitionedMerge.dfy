/** The partitioned merge of the multi-threaded hybrid index: every partition of
    the static data takes its share of the new records, and is written to its own
    pages of a new file. */
module PartitionedMerge {
  import opened Records
  import opened SortedSearch

  // ---- partitions and routing

  ghost predicate Rising(keys: seq<int>) {
    forall i, j | 0 <= i < j < |keys| :: keys[i] < keys[j]
  }

  /** A partition holds the records above the previous partition's key, up to its own. */
  ghost predicate PartOk(keys: seq<int>, parts: seq<seq<Record>>, p: nat)
    requires p < |keys| == |parts|
  {
    && |parts[p]| > 0 && SortedByKey(parts[p]) && parts[p][|parts[p]| - 1].key == keys[p]
    && (p > 0 ==> keys[p - 1] < parts[p][0].key)
  }

  ghost predicate Partitioned(keys: seq<int>, parts: seq<seq<Record>>) {
    && |keys| == |parts| > 0 && Rising(keys)
    && forall p {:trigger PartOk(keys, parts, p)} | 0 <= p < |keys| :: PartOk(keys, parts, p)
  }

  /** `GetPartitionID`: the first partition whose key is not smaller. */
  function GetPartitionID(keys: seq<int>, key: int): (p: nat)
    ensures p <= |keys|
    ensures p > 0 ==> keys[p - 1] < key
    ensures forall i | p <= i < |keys| :: key <= keys[i]
  {
    FirstAtLeast(keys, key)
  }

  /** Where the new records of partition `p` begin. */
  function Border(dy: seq<Record>, keys: seq<int>, p: nat): (t: nat)
    requires p <= |keys|
    ensures t <= |dy|
  {
    if p > 0 then LowerBound(dy, keys[p - 1]) else 0
  }

  /** `GetDynamicRange`: the new records from the previous partition's key up to,
      not including, this one's. */
  function GetDynamicRange(dy: seq<Record>, keys: seq<int>, p: nat): (nat, nat)
    requires p < |keys|
  {
    (Border(dy, keys, p), Border(dy, keys, p + 1))
  }

  lemma RangeBounds(dy: seq<Record>, keys: seq<int>, p: nat)
    requires SortedByKey(dy) && Rising(keys) && p < |keys|
    ensures Border(dy, keys, p) <= Border(dy, keys, p + 1)
  {
    if p > 0 { LowerBoundMono(dy, keys[p - 1], keys[p]); }
  }

  /** The new records of partition `p`. */
  function Share(dy: seq<Record>, keys: seq<int>, p: nat): seq<Record>
    requires p < |keys|
  {
    var (first, end) := GetDynamicRange(dy, keys, p);
    if first <= end then dy[first..end] else []
  }

  ghost function Shares(dy: seq<Record>, keys: seq<int>, n: nat): seq<Record>
    requires n <= |keys|
  {
    if n == 0 then [] else Shares(dy, keys, n - 1) + Share(dy, keys, n - 1)
  }

  lemma Adjoin(dy: seq<Record>, a: nat, b: nat)
    requires a <= b <= |dy|
    ensures dy[..a] + dy[a..b] == dy[..b]
  {
  }

  /** The shares tile the new records below the last partition key: none of them is
      dropped or taken twice, and none beyond that key is taken. */
  lemma {:induction false} SharesTile(dy: seq<Record>, keys: seq<int>, n: nat)
    requires SortedByKey(dy) && Rising(keys) && n <= |keys|
    ensures Shares(dy, keys, n) == dy[..Border(dy, keys, n)]
  {
    if n > 0 {
      SharesTile(dy, keys, n - 1);
      RangeBounds(dy, keys, n - 1);
      Adjoin(dy, Border(dy, keys, n - 1), Border(dy, keys, n));
    }
  }

  /** All new records are taken exactly if their keys are below the last partition key. */
  lemma AllTaken(dy: seq<Record>, keys: seq<int>)
    requires SortedByKey(dy) && Rising(keys) && |keys| > 0
    ensures Shares(dy, keys, |keys|) == dy <==> forall i | 0 <= i < |dy| :: dy[i].key < keys[|keys| - 1]
  {
    var k := keys[|keys| - 1];
    SharesTile(dy, keys, |keys|);
    var t := Border(dy, keys, |keys|);
    LowerBoundSplits(dy, k);
    if t < |dy| {
      assert !(dy[t].key < k);
      assert |dy[..t]| < |dy|;
    } else {
      assert dy[..t] == dy;
    }
  }

  // ---- what the merge makes of the partitions

  function MergedPart(dy: seq<Record>, keys: seq<int>, parts: seq<seq<Record>>, p: nat): seq<Record>
    requires p < |keys| == |parts|
  {
    Merge(Share(dy, keys, p), parts[p])
  }

  /** The last record of a merge is the larger of the two last ones. */
  lemma MergeLast(a: seq<Record>, b: seq<Record>)
    requires b != [] && (a != [] ==> a[|a| - 1].key < b[|b| - 1].key)
    ensures Merge(a, b) != [] && Merge(a, b)[|Merge(a, b)| - 1] == b[|b| - 1]
  {
  }

  /** A record of the share of `p` lies from the previous partition's key on, below this one's. */
  lemma ShareKeys(dy: seq<Record>, keys: seq<int>, p: nat, i: nat)
    requires SortedByKey(dy) && Rising(keys) && p < |keys| && i < |Share(dy, keys, p)|
    ensures Share(dy, keys, p)[i].key < keys[p] && (p > 0 ==> keys[p - 1] <= Share(dy, keys, p)[i].key)
    ensures Share(dy, keys, p)[i] in dy
  {
    var (first, end) := GetDynamicRange(dy, keys, p);
    LowerBoundSplits(dy, keys[p]);
    if p > 0 { LowerBoundSplits(dy, keys[p - 1]); }
    assert Share(dy, keys, p)[i] == dy[first + i];
    assert dy[first + i].key <= dy[end - 1].key;
  }

  /** No new record has the key of a partition that another one follows. */
  ghost predicate NoneAtBorder(dy: seq<Record>, keys: seq<int>) {
    forall i, p {:trigger dy[i], keys[p]} | 0 <= i < |dy| && 0 <= p < |keys| - 1 :: dy[i].key != keys[p]
  }

  lemma ShareSorted(dy: seq<Record>, keys: seq<int>, p: nat)
    requires SortedByKey(dy) && p < |keys|
    ensures SortedByKey(Share(dy, keys, p))
  {
  }

  /** The share of `p` lies below its partition key, and above the previous one if none stands on it. */
  lemma ShareInside(dy: seq<Record>, keys: seq<int>, p: nat)
    requires Rising(keys) && SortedByKey(dy) && p < |keys|
    ensures Below(Share(dy, keys, p), keys[p])
    ensures p > 0 && (forall i | 0 <= i < |dy| :: dy[i].key != keys[p - 1]) ==> Above(Share(dy, keys, p), keys[p - 1])
  {
    var share := Share(dy, keys, p);
    forall i | 0 <= i < |share|
      ensures share[i].key < keys[p] && (p > 0 ==> keys[p - 1] <= share[i].key) && share[i] in dy
    {
      ShareKeys(dy, keys, p, i);
    }
  }

  lemma SortedAbove(s: seq<Record>, k: int)
    requires SortedByKey(s) && s != [] && k < s[0].key
    ensures Above(s, k)
  {
  }

  lemma MergedEnds(share: seq<Record>, part: seq<Record>, key: int)
    requires SortedByKey(share) && SortedByKey(part) && Below(share, key)
    requires part != [] && part[|part| - 1].key == key
    ensures var m := Merge(share, part); m != [] && SortedByKey(m) && m[|m| - 1].key == key
  {
    MergeSorts(share, part);
    MergeLast(share, part);
  }

  lemma MergedStarts(share: seq<Record>, part: seq<Record>, low: int)
    requires Above(share, low) && SortedByKey(part) && part != [] && low < part[0].key
    ensures Merge(share, part) != [] && low < Merge(share, part)[0].key
  {
    SortedAbove(part, low);
    MergeAbove(share, part, low);
  }

  /** If no new record stands on the previous partition's key, a partition stays what
      it was: sorted, with the same key, above the previous one. Keys may repeat. */
  lemma PartStaysOk(dy: seq<Record>, keys: seq<int>, parts: seq<seq<Record>>, merged: seq<seq<Record>>, p: nat)
    requires Partitioned(keys, parts) && SortedByKey(dy) && p < |keys| == |merged|
    requires p > 0 ==> forall i | 0 <= i < |dy| :: dy[i].key != keys[p - 1]
    requires merged[p] == MergedPart(dy, keys, parts, p)
    ensures PartOk(keys, merged, p)
  {
    assert PartOk(keys, parts, p);
    ShareSorted(dy, keys, p);
    ShareInside(dy, keys, p);
    MergedEnds(Share(dy, keys, p), parts[p], keys[p]);
    if p > 0 { MergedStarts(Share(dy, keys, p), parts[p], keys[p - 1]); }
  }

  /** A new record on a partition key goes to the next partition, which then starts with it. */
  lemma BorderBreaks(dy: seq<Record>, keys: seq<int>, parts: seq<seq<Record>>, merged: seq<seq<Record>>, i: nat, p: nat)
    requires Partitioned(keys, parts) && SortedByKey(dy) && p + 1 < |keys| == |merged|
    requires i < |dy| && dy[i].key == keys[p] && merged[p + 1] == MergedPart(dy, keys, parts, p + 1)
    ensures !PartOk(keys, merged, p + 1)
  {
    InShare(dy, keys, p, i);
    var share, m := Share(dy, keys, p + 1), merged[p + 1];
    var j :| 0 <= j < |share| && share[j] == dy[i];
    MergeHas(share, parts[p + 1], j);
    assert dy[i] in m;
  }

  /** A record on a partition key is in the share of the next partition. */
  lemma InShare(dy: seq<Record>, keys: seq<int>, p: nat, i: nat)
    requires Rising(keys) && SortedByKey(dy) && p + 1 < |keys| && i < |dy| && dy[i].key == keys[p]
    ensures dy[i] in Share(dy, keys, p + 1)
  {
    LowerBoundSplits(dy, keys[p]);
    LowerBoundSplits(dy, keys[p + 1]);
    var first, end := LowerBound(dy, keys[p]), LowerBound(dy, keys[p + 1]);
    assert first > 0 ==> dy[first - 1].key < dy[i].key;
    assert first <= i < end;
    assert dy[first..end][i - first] == dy[i];
  }

  lemma MergeHas(a: seq<Record>, b: seq<Record>, j: nat)
    requires j < |a|
    ensures a[j] in Merge(a, b)
  {
    MergeKeepsRecords(a, b);
    assert a[j] in multiset(a);
    assert a[j] in multiset(Merge(a, b));
  }

  /** The merged partitions are partitioned by the unchanged keys if and only if no
      new record stands on an inner partition key. */
  lemma PartitionedStays(dy: seq<Record>, keys: seq<int>, parts: seq<seq<Record>>, merged: seq<seq<Record>>)
    requires Partitioned(keys, parts) && SortedByKey(dy) && |merged| == |keys|
    requires forall p | 0 <= p < |merged| :: merged[p] == MergedPart(dy, keys, parts, p)
    ensures Partitioned(keys, merged) <==> NoneAtBorder(dy, keys)
  {
    if NoneAtBorder(dy, keys) {
      forall p | 0 <= p < |keys| ensures PartOk(keys, merged, p) {
        PartStaysOk(dy, keys, parts, merged, p);
      }
    } else {
      var i, p :| 0 <= i < |dy| && 0 <= p < |keys| - 1 && dy[i].key == keys[p];
      BorderBreaks(dy, keys, parts, merged, i, p);
    }
  }

  lemma RouteUnique(keys: seq<int>, key: int, p: nat)
    requires Rising(keys) && p < |keys| && key <= keys[p] && (p > 0 ==> keys[p - 1] < key)
    ensures GetPartitionID(keys, key) == p
  {
    var q := GetPartitionID(keys, key);
  }

  /** A record is routed to the partition that holds it. */
  lemma RoutesToHolder(keys: seq<int>, parts: seq<seq<Record>>, p: nat, i: nat)
    requires Partitioned(keys, parts) && p < |parts| && i < |parts[p]|
    ensures GetPartitionID(keys, parts[p][i].key) == p
  {
    assert PartOk(keys, parts, p);
    RouteUnique(keys, parts[p][i].key, p);
  }

  /** Without the condition on the keys: a new record is routed to the partition
      whose share it joined exactly if its key is not the previous partition's key. */
  lemma NewRecordRoute(dy: seq<Record>, keys: seq<int>, p: nat, i: nat)
    requires SortedByKey(dy) && Rising(keys) && p < |keys| && i < |Share(dy, keys, p)|
    ensures GetPartitionID(keys, Share(dy, keys, p)[i].key) == p <==> !(p > 0 && Share(dy, keys, p)[i].key == keys[p - 1])
  {
    var k := Share(dy, keys, p)[i].key;
    ShareKeys(dy, keys, p, i);
    if p > 0 && k == keys[p - 1] {
      RouteUnique(keys, k, p - 1);
    } else {
      RouteUnique(keys, k, p);
    }
  }

  // ---- conservation

  ghost function AllRecords(parts: seq<seq<Record>>): multiset<Record> {
    if parts == [] then multiset{} else AllRecords(parts[..|parts| - 1]) + multiset(parts[|parts| - 1])
  }

  lemma {:induction false} SharesConserve(dy: seq<Record>, keys: seq<int>, parts: seq<seq<Record>>,
                                          merged: seq<seq<Record>>, n: nat)
    requires n <= |keys| == |parts| == |merged|
    requires forall p | 0 <= p < n :: merged[p] == MergedPart(dy, keys, parts, p)
    ensures AllRecords(merged[..n]) == AllRecords(parts[..n]) + multiset(Shares(dy, keys, n))
  {
    if n > 0 {
      SharesConserve(dy, keys, parts, merged, n - 1);
      MergeKeepsRecords(Share(dy, keys, n - 1), parts[n - 1]);
      LastPart(merged, n);
      LastPart(parts, n);
    }
  }

  lemma LastPart(parts: seq<seq<Record>>, n: nat)
    requires 0 < n <= |parts|
    ensures AllRecords(parts[..n]) == AllRecords(parts[..n - 1]) + multiset(parts[n - 1])
  {
    assert parts[..n][..n - 1] == parts[..n - 1];
  }

  /** The merged partitions hold the static records and the new ones below the last
      partition key, each as often as before. */
  lemma MergeConserves(dy: seq<Record>, keys: seq<int>, parts: seq<seq<Record>>, merged: seq<seq<Record>>)
    requires SortedByKey(dy) && Rising(keys) && 0 < |keys| == |parts| == |merged|
    requires forall p | 0 <= p < |merged| :: merged[p] == MergedPart(dy, keys, parts, p)
    ensures AllRecords(merged) == AllRecords(parts) + multiset(dy[..Border(dy, keys, |keys|)])
  {
    SharesConserve(dy, keys, parts, merged, |keys|);
    SharesTile(dy, keys, |keys|);
    assert merged[..|keys|] == merged && parts[..|keys|] == parts;
  }
}
