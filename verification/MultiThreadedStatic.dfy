/** The static index of the multi-threaded hybrid index: laying out a merge,
    merging and storing one partition, and a whole round in any order. */
module MultiThreadedStatic {
  import opened Records
  import opened PageStore
  import opened PartitionedMerge

  /** The in-place merge of `dy[first..end]` with the `n` static records in the front
      of `merged`; of equal keys the new record stands first. */
  method MergeTwoSortedArray(dy: seq<Record>, first: nat, end: nat, merged: array<Record>, n: nat)
    requires first <= end <= |dy| && merged.Length == end - first + n
    modifies merged
    ensures merged[..] == Merge(dy[first..end], old(merged[..n]))
  {
    ghost var out := Merge(dy[first..end], merged[..n]);
    WholeIsPending(dy[first..end], merged[..n]);
    MergeLoops(dy, first, end, merged, n, out);
    assert merged[..] == out;
  }

  method MergeLoops(dy: seq<Record>, first: nat, end: nat, merged: array<Record>, n: nat, ghost out: seq<Record>)
    requires first <= end <= |dy| && merged.Length == |out| == end - first + n
    requires Pending(dy[first..end], merged[..n], end - first, n, out)
    modifies merged
    ensures forall k | 0 <= k < |out| :: merged[k] == out[k]
  {
    ghost var share, st := dy[first..end], merged[..n];
    var cnt, i, j := merged.Length - 1, end - 1, n - 1;
    while i >= first && j >= 0
      invariant first - 1 <= i < end && -1 <= j < n && cnt == i - first + j + 1
      invariant forall k | 0 <= k <= j :: merged[k] == st[k]
      invariant forall k | cnt < k < merged.Length :: merged[k] == out[k]
      invariant Pending(share, st, i - first + 1, j + 1, out)
      decreases i + j
    {
      assert share[i - first] == dy[i];
      if dy[i].key > merged[j].key {
        merged[cnt] := dy[i];
        i := i - 1;
      } else {
        merged[cnt] := merged[j];
        j := j - 1;
      }
      cnt := cnt - 1;
    }
    OneLeft(share, st, i - first + 1, j + 1, out);
    CopyShare(dy, first, merged, cnt, i);
  }

  /** The last loop of the merge. */
  method CopyShare(dy: seq<Record>, first: nat, merged: array<Record>, cnt: int, i: int)
    requires first - 1 <= i < |dy| && i - first < merged.Length && (i >= first ==> cnt == i - first)
    modifies merged
    ensures forall k | 0 <= k < merged.Length :: merged[k] == if k <= i - first then dy[first + k] else old(merged[k])
  {
    var c, r := cnt, i;
    while r >= first
      invariant first - 1 <= r <= i && (i >= first ==> c == r - first)
      invariant forall k | 0 <= k < merged.Length ::
                  merged[k] == if r - first < k <= i - first then dy[first + k] else old(merged[k])
    {
      merged[c] := dy[r];
      c, r := c - 1, r - 1;
    }
  }

  datatype PartitionRange = PartitionRange(
    startPageId: nat, staticPageNum: nat, staticDataNum: nat,
    dynamicStartIdx: nat, dynamicEndIdx: nat, storedStartPid: nat)

  /** How many records every partition will have. */
  function MergedSizes(dy: seq<Record>, keys: seq<int>, numbers: seq<nat>): (sizes: seq<nat>)
    requires |keys| == |numbers|
    ensures |sizes| == |keys|
  {
    seq(|keys|, p requires 0 <= p < |keys| => numbers[p] + |Share(dy, keys, p)|)
  }

  /** The first page of partition `p` in the new file: after the pages of the partitions before it. */
  function StoredStart(sizes: seq<nat>, rpp: nat, p: nat): nat
    requires rpp > 0 && p < |sizes|
  {
    if p == 0 then 0 else StoredStart(sizes, rpp, p - 1) + PagesFor(sizes[p - 1], rpp)
  }

  /** The page intervals of two partitions do not overlap and follow each other in order. */
  lemma {:induction false} PagesDisjoint(sizes: seq<nat>, rpp: nat, p: nat, q: nat)
    requires rpp > 0 && p < q < |sizes|
    ensures StoredStart(sizes, rpp, p) + PagesFor(sizes[p], rpp) <= StoredStart(sizes, rpp, q)
    ensures q == p + 1 ==> StoredStart(sizes, rpp, q) == StoredStart(sizes, rpp, p) + PagesFor(sizes[p], rpp)
  {
    if p + 1 < q { PagesDisjoint(sizes, rpp, p, q - 1); }
  }

  /** A partition is stored on the pages from `start` to `last`. */
  ghost predicate StoredPart(slots: seq<Record>, rpp: nat, part: seq<Record>, number: nat, start: nat, last: nat)
    requires rpp > 0
  {
    && number == |part| > 0 && last == start + PagesFor(number, rpp) - 1
    && Holds(slots, Span(start, rpp), part)
    && Span(start, rpp) + Span(PagesFor(number, rpp), rpp) <= |slots|
  }

  /** The sizes, first and last pages and the new file's slots agree with the partitions. */
  ghost predicate StoredAll(slots: seq<Record>, rpp: nat, parts: seq<seq<Record>>,
                            numbers: seq<nat>, starts: seq<nat>, lasts: seq<nat>)
    requires rpp > 0
  {
    && |parts| == |numbers| == |starts| == |lasts|
    && forall p {:trigger parts[p]} | 0 <= p < |parts| :: StoredPart(slots, rpp, parts[p], numbers[p], starts[p], lasts[p])
  }

  function Planned(dy: seq<Record>, keys: seq<int>, numbers: seq<nat>, starts: seq<nat>, lasts: seq<nat>, rpp: nat,
                   p: nat): PartitionRange
    requires rpp > 0 && p < |keys| == |numbers| == |starts| == |lasts| && starts[p] <= lasts[p]
  {
    var (first, end) := GetDynamicRange(dy, keys, p);
    PartitionRange(starts[p], lasts[p] - starts[p] + 1, numbers[p], first, end, StoredStart(MergedSizes(dy, keys, numbers), rpp, p))
  }

  ghost predicate UpTo(starts: seq<nat>, lasts: seq<nat>) {
    |starts| == |lasts| && forall p | 0 <= p < |starts| :: starts[p] <= lasts[p]
  }

  /** The first `n` partitions are laid out as planned. */
  ghost predicate PlannedTo(n: nat, partitions: seq<PartitionRange>, dy: seq<Record>, keys: seq<int>,
                            numbers: seq<nat>, starts: seq<nat>, lasts: seq<nat>, rpp: nat)
    requires rpp > 0 && n <= |partitions| && n <= |keys| == |numbers| == |starts| && UpTo(starts, lasts)
  {
    n > 0 ==> partitions[n - 1] == Planned(dy, keys, numbers, starts, lasts, rpp, n - 1)
              && PlannedTo(n - 1, partitions, dy, keys, numbers, starts, lasts, rpp)
  }

  lemma StartsUpToLasts(slots: seq<Record>, rpp: nat, parts: seq<seq<Record>>,
                        numbers: seq<nat>, starts: seq<nat>, lasts: seq<nat>)
    requires rpp > 0 && StoredAll(slots, rpp, parts, numbers, starts, lasts)
    ensures UpTo(starts, lasts)
  {
    forall p | 0 <= p < |starts| ensures starts[p] <= lasts[p] {
      assert StoredPart(slots, rpp, parts[p], numbers[p], starts[p], lasts[p]);
    }
  }

  /** What the loop of `PartitionData` computes from the partition before. */
  lemma NextStart(dy: seq<Record>, keys: seq<int>, numbers: seq<nat>, starts: seq<nat>, lasts: seq<nat>, rpp: nat,
                  p: nat, prev: PartitionRange)
    requires rpp > 0 && p + 1 < |keys| == |numbers| && UpTo(starts, lasts) && |starts| == |keys|
    requires SortedByKey(dy) && Rising(keys) && prev == Planned(dy, keys, numbers, starts, lasts, rpp, p)
    ensures prev.dynamicStartIdx <= prev.dynamicEndIdx
    ensures StoredStart(MergedSizes(dy, keys, numbers), rpp, p + 1)
         == prev.storedStartPid + PagesFor(prev.staticDataNum + prev.dynamicEndIdx - prev.dynamicStartIdx, rpp)
  {
    RangeBounds(dy, keys, p);
  }

  /** One turn of the loop of `PartitionData`; `prev` is the partition before, if there is one. */
  method PlanOne(dy: seq<Record>, keys: seq<int>, numbers: seq<nat>, starts: seq<nat>, lasts: seq<nat>, rpp: nat,
                 i: nat, prev: PartitionRange) returns (r: PartitionRange)
    requires rpp > 0 && i < |keys| == |numbers| == |starts| && UpTo(starts, lasts) && SortedByKey(dy) && Rising(keys)
    requires i > 0 ==> prev == Planned(dy, keys, numbers, starts, lasts, rpp, i - 1)
    ensures r == Planned(dy, keys, numbers, starts, lasts, rpp, i)
  {
    var (first, end) := GetDynamicRange(dy, keys, i);
    var start := 0;
    if i > 0 {
      NextStart(dy, keys, numbers, starts, lasts, rpp, i - 1, prev);
      start := prev.storedStartPid + PagesFor(prev.staticDataNum + prev.dynamicEndIdx - prev.dynamicStartIdx, rpp);
    }
    r := PartitionRange(starts[i], lasts[i] - starts[i] + 1, numbers[i], first, end, start);
  }

  lemma {:induction false} PlannedLonger(n: nat, partitions: seq<PartitionRange>, r: PartitionRange, dy: seq<Record>,
                                         keys: seq<int>, numbers: seq<nat>, starts: seq<nat>, lasts: seq<nat>, rpp: nat)
    requires rpp > 0 && n <= |partitions| && n <= |keys| == |numbers| == |starts| && UpTo(starts, lasts)
    requires PlannedTo(n, partitions, dy, keys, numbers, starts, lasts, rpp)
    ensures PlannedTo(n, partitions + [r], dy, keys, numbers, starts, lasts, rpp)
  {
    if n > 0 { PlannedLonger(n - 1, partitions, r, dy, keys, numbers, starts, lasts, rpp); }
  }

  lemma {:induction false} PlannedAt(n: nat, p: nat, partitions: seq<PartitionRange>, dy: seq<Record>, keys: seq<int>,
                                     numbers: seq<nat>, starts: seq<nat>, lasts: seq<nat>, rpp: nat)
    requires rpp > 0 && p < n <= |partitions| && n <= |keys| == |numbers| == |starts| && UpTo(starts, lasts)
    requires PlannedTo(n, partitions, dy, keys, numbers, starts, lasts, rpp)
    ensures partitions[p] == Planned(dy, keys, numbers, starts, lasts, rpp, p)
  {
    if p < n - 1 { PlannedAt(n - 1, p, partitions, dy, keys, numbers, starts, lasts, rpp); }
  }

  method Layout(dy: seq<Record>, keys: seq<int>, numbers: seq<nat>, starts: seq<nat>, lasts: seq<nat>, rpp: nat)
    returns (partitions: seq<PartitionRange>)
    requires rpp > 0 && |keys| == |numbers| == |starts| && UpTo(starts, lasts) && SortedByKey(dy) && Rising(keys)
    ensures |partitions| == |keys| && PlannedTo(|keys|, partitions, dy, keys, numbers, starts, lasts, rpp)
  {
    partitions := [];
    for i := 0 to |keys|
      invariant |partitions| == i && PlannedTo(i, partitions, dy, keys, numbers, starts, lasts, rpp)
    {
      var prev := if i > 0 then partitions[i - 1] else PartitionRange(0, 0, 0, 0, 0, 0);
      var r := PlanOne(dy, keys, numbers, starts, lasts, rpp, i, prev);
      PlannedLonger(i, partitions, r, dy, keys, numbers, starts, lasts, rpp);
      partitions := partitions + [r];
    }
  }

  // ---- storing one partition does not disturb another

  lemma SpanWithin(a: nat, b: nat, c: nat, rpp: nat)
    requires a + b <= c
    ensures Span(a, rpp) + Span(b, rpp) <= Span(c, rpp)
  {
    SpanSum(a, b, rpp);
    SpanMono(a + b, c, rpp);
  }

  ghost predicate SameOutside(slots: seq<Record>, slots': seq<Record>, from: nat, to: nat) {
    |slots| == |slots'| && forall k | 0 <= k < |slots| && !(from <= k < to) :: slots'[k] == slots[k]
  }

  /** What was stored on other pages than those written is still there. */
  lemma StoredElsewhere(slots: seq<Record>, slots': seq<Record>, at: nat, pages: nat,
                        rpp: nat, part: seq<Record>, number: nat, start: nat, last: nat)
    requires rpp > 0 && StoredPart(slots, rpp, part, number, start, last)
    requires SameOutside(slots, slots', Span(at, rpp), Span(at, rpp) + Span(pages, rpp))
    requires start + PagesFor(number, rpp) <= at || at + pages <= start
    ensures StoredPart(slots', rpp, part, number, start, last)
  {
    PagesForBounds(number, rpp);
    SpansApart(at, pages, start, PagesFor(number, rpp), number, rpp);
    HeldElsewhere(slots, slots', Span(at, rpp), Span(at, rpp) + Span(pages, rpp), Span(start, rpp), part);
  }

  lemma SpansApart(at: nat, pages: nat, start: nat, count: nat, n: nat, rpp: nat)
    requires n <= Span(count, rpp) && (start + count <= at || at + pages <= start)
    ensures Span(start, rpp) + n <= Span(at, rpp) || Span(at, rpp) + Span(pages, rpp) <= Span(start, rpp)
  {
    if at + pages <= start { SpanWithin(at, pages, start, rpp); } else { SpanWithin(start, count, at, rpp); }
  }

  lemma HeldElsewhere(slots: seq<Record>, slots': seq<Record>, a: nat, b: nat, from: nat, part: seq<Record>)
    requires SameOutside(slots, slots', a, b) && Holds(slots, from, part) && (from + |part| <= a || b <= from)
    ensures Holds(slots', from, part)
  {
    forall k | from <= k < from + |part| ensures slots'[k] == slots[k] {
      assert !(a <= k < b);
    }
    assert slots'[from..from + |part|] == slots[from..from + |part|];
  }

  /** What the fields say about one partition. */
  datatype PartInfo = PartInfo(key: int, number: nat, start: nat, last: nat)

  function InfosOf(keys: seq<int>, numbers: seq<nat>, starts: seq<nat>, lasts: seq<nat>): (infos: seq<PartInfo>)
    requires |keys| == |numbers| == |starts| == |lasts|
    ensures |infos| == |keys|
  {
    seq(|keys|, p requires 0 <= p < |keys| => PartInfo(keys[p], numbers[p], starts[p], lasts[p]))
  }

  lemma InfosUpdate(keys: seq<int>, numbers: seq<nat>, starts: seq<nat>, lasts: seq<nat>, p: nat, info: PartInfo)
    requires p < |keys| == |numbers| == |starts| == |lasts|
    ensures InfosOf(keys[p := info.key], numbers[p := info.number], starts[p := info.start], lasts[p := info.last])
         == InfosOf(keys, numbers, starts, lasts)[p := info]
  {
  }

  /** What a partition is to become: its first page in the new file and its records. */
  datatype Target = Target(start: nat, content: seq<Record>)

  /** The pages of the targets follow each other. */
  ghost predicate Apart(targets: seq<Target>, rpp: nat)
    requires rpp > 0
  {
    forall p, q {:trigger targets[p], targets[q]} | 0 <= p < q < |targets| ::
      targets[p].start + PagesFor(|targets[p].content|, rpp) <= targets[q].start
  }

  /** A partition is merged: its records are on its pages of the new file, and its fields say so. */
  ghost predicate Done(slots: seq<Record>, rpp: nat, t: Target, info: PartInfo)
    requires rpp > 0
  {
    && StoredPart(slots, rpp, t.content, info.number, info.start, info.last)
    && info.start == t.start && info.key == t.content[|t.content| - 1].key
  }

  ghost predicate Order(order: seq<nat>, n: nat) {
    && (forall i | 0 <= i < |order| :: order[i] < n)
    && (forall i, j | 0 <= i < j < |order| :: order[i] != order[j])
  }

  /** The first `c` partitions of the order are done. */
  ghost predicate DoneTo(c: nat, order: seq<nat>, slots: seq<Record>, rpp: nat, targets: seq<Target>, infos: seq<PartInfo>)
    requires c <= |order| && rpp > 0 && Order(order, |targets|) && |infos| == |targets|
  {
    c > 0 ==> Done(slots, rpp, targets[order[c - 1]], infos[order[c - 1]])
              && DoneTo(c - 1, order, slots, rpp, targets, infos)
  }

  ghost predicate WritesOnly(slots: seq<Record>, slots': seq<Record>, t: Target, rpp: nat)
    requires rpp > 0
  {
    SameOutside(slots, slots', Span(t.start, rpp), Span(t.start, rpp) + Span(PagesFor(|t.content|, rpp), rpp))
  }

  /** Storing a later partition of the order keeps the earlier ones done. */
  lemma {:induction false} StillDone(c: nat, d: nat, order: seq<nat>, slots: seq<Record>, slots': seq<Record>, rpp: nat,
                                     targets: seq<Target>, infos: seq<PartInfo>, info: PartInfo)
    requires c <= d < |order| && rpp > 0 && Order(order, |targets|) && |infos| == |targets| && Apart(targets, rpp)
    requires DoneTo(c, order, slots, rpp, targets, infos) && WritesOnly(slots, slots', targets[order[d]], rpp)
    ensures DoneTo(c, order, slots', rpp, targets, infos[order[d] := info])
  {
    if c > 0 {
      StillDone(c - 1, d, order, slots, slots', rpp, targets, infos, info);
      var p, q, i := targets[order[c - 1]], targets[order[d]], infos[order[c - 1]];
      StoredElsewhere(slots, slots', q.start, PagesFor(|q.content|, rpp), rpp, p.content, i.number, i.start, i.last);
    }
  }

  lemma OneMoreDone(c: nat, order: seq<nat>, slots: seq<Record>, slots': seq<Record>, rpp: nat,
                    targets: seq<Target>, infos: seq<PartInfo>, info: PartInfo)
    requires c < |order| && rpp > 0 && Order(order, |targets|) && |infos| == |targets| && Apart(targets, rpp)
    requires DoneTo(c, order, slots, rpp, targets, infos) && WritesOnly(slots, slots', targets[order[c]], rpp)
    requires Done(slots', rpp, targets[order[c]], info)
    ensures DoneTo(c + 1, order, slots', rpp, targets, infos[order[c] := info])
  {
    StillDone(c, c, order, slots, slots', rpp, targets, infos, info);
  }

  lemma {:induction false} DoneAt(c: nat, i: nat, order: seq<nat>, slots: seq<Record>, rpp: nat,
                                  targets: seq<Target>, infos: seq<PartInfo>)
    requires i < c <= |order| && rpp > 0 && Order(order, |targets|) && |infos| == |targets|
    requires DoneTo(c, order, slots, rpp, targets, infos)
    ensures Done(slots, rpp, targets[order[i]], infos[order[i]])
  {
    if i < c - 1 { DoneAt(c - 1, i, order, slots, rpp, targets, infos); }
  }

  /** When all partitions are done, the new file and the fields describe the targets. */
  lemma AllDone(order: seq<nat>, slots: seq<Record>, rpp: nat, targets: seq<Target>,
                keys: seq<int>, numbers: seq<nat>, starts: seq<nat>, lasts: seq<nat>, p: nat)
    requires rpp > 0 && |targets| == |keys| == |numbers| == |starts| == |lasts|
    requires Order(order, |targets|) && p < |targets| && p in order
    requires DoneTo(|order|, order, slots, rpp, targets, InfosOf(keys, numbers, starts, lasts))
    ensures StoredPart(slots, rpp, targets[p].content, numbers[p], starts[p], lasts[p])
    ensures keys[p] == targets[p].content[|targets[p].content| - 1].key
  {
    var i :| 0 <= i < |order| && order[i] == p;
    DoneAt(|order|, i, order, slots, rpp, targets, InfosOf(keys, numbers, starts, lasts));
  }

  /** Every partition ends with its key. */
  ghost predicate EndsWith(keys: seq<int>, parts: seq<seq<Record>>) {
    && |keys| == |parts|
    && forall p {:trigger parts[p]} | 0 <= p < |parts| :: |parts[p]| > 0 && parts[p][|parts[p]| - 1].key == keys[p]
  }

  /** Every merged partition ends with its old key, wherever the new records stand. */
  lemma MergedPartsEnd(dy: seq<Record>, keys: seq<int>, parts: seq<seq<Record>>, merged: seq<seq<Record>>)
    requires Partitioned(keys, parts) && SortedByKey(dy) && |merged| == |keys|
    requires forall p | 0 <= p < |merged| :: merged[p] == MergedPart(dy, keys, parts, p)
    ensures EndsWith(keys, merged)
  {
    forall p | 0 <= p < |merged| ensures |merged[p]| > 0 && merged[p][|merged[p]| - 1].key == keys[p] {
      assert PartOk(keys, parts, p);
      ShareSorted(dy, keys, p);
      ShareInside(dy, keys, p);
      MergedEnds(Share(dy, keys, p), parts[p], keys[p]);
    }
  }

  lemma RoundDone(order: seq<nat>, slots: seq<Record>, rpp: nat, targets: seq<Target>, merged: seq<seq<Record>>,
                  keys: seq<int>, keys': seq<int>, numbers: seq<nat>, starts: seq<nat>, lasts: seq<nat>)
    requires rpp > 0 && |targets| == |merged| == |keys'| == |numbers| == |starts| == |lasts|
    requires Order(order, |targets|) && forall p: nat | p < |targets| :: p in order
    requires DoneTo(|order|, order, slots, rpp, targets, InfosOf(keys', numbers, starts, lasts))
    requires EndsWith(keys, merged) && forall p {:trigger targets[p]} | 0 <= p < |targets| :: targets[p].content == merged[p]
    ensures keys' == keys && StoredAll(slots, rpp, merged, numbers, starts, lasts)
  {
    forall p | 0 <= p < |merged|
      ensures keys'[p] == keys[p] && StoredPart(slots, rpp, merged[p], numbers[p], starts[p], lasts[p])
    {
      AllDone(order, slots, rpp, targets, keys', numbers, starts, lasts, p);
      assert targets[p].content == merged[p];
    }
  }

  // ---- the targets of a merge

  function Targets(dy: seq<Record>, keys: seq<int>, numbers: seq<nat>, parts: seq<seq<Record>>, rpp: nat): (t: seq<Target>)
    requires rpp > 0 && |keys| == |numbers| == |parts|
    ensures |t| == |parts|
  {
    seq(|parts|, p requires 0 <= p < |parts| =>
      Target(StoredStart(MergedSizes(dy, keys, numbers), rpp, p), MergedPart(dy, keys, parts, p)))
  }

  function MergedParts(dy: seq<Record>, keys: seq<int>, parts: seq<seq<Record>>): (m: seq<seq<Record>>)
    requires |keys| == |parts|
    ensures |m| == |parts|
  {
    seq(|parts|, p requires 0 <= p < |parts| => MergedPart(dy, keys, parts, p))
  }

  ghost predicate Sizes(numbers: seq<nat>, parts: seq<seq<Record>>) {
    |numbers| == |parts| && forall p | 0 <= p < |parts| :: numbers[p] == |parts[p]|
  }

  lemma StoredSizes(slots: seq<Record>, rpp: nat, parts: seq<seq<Record>>, numbers: seq<nat>, starts: seq<nat>, lasts: seq<nat>)
    requires rpp > 0 && StoredAll(slots, rpp, parts, numbers, starts, lasts)
    ensures Sizes(numbers, parts)
  {
  }

  lemma TargetsApart(dy: seq<Record>, keys: seq<int>, numbers: seq<nat>, parts: seq<seq<Record>>, rpp: nat)
    requires rpp > 0 && |keys| == |numbers| && Sizes(numbers, parts)
    ensures |keys| == |parts| && Apart(Targets(dy, keys, numbers, parts, rpp), rpp)
  {
    var targets, sizes := Targets(dy, keys, numbers, parts, rpp), MergedSizes(dy, keys, numbers);
    forall p, q | 0 <= p < q < |targets|
      ensures targets[p].start + PagesFor(|targets[p].content|, rpp) <= targets[q].start
    {
      PagesDisjoint(sizes, rpp, p, q);
      assert targets[p].start == StoredStart(sizes, rpp, p) && |targets[p].content| == sizes[p];
      assert targets[q].start == StoredStart(sizes, rpp, q);
    }
  }

  /** A laid out partition can be read, merged and stored: this yields its target. */
  ghost predicate Ready(r: PartitionRange, dy: seq<Record>, part: seq<Record>, t: Target, rpp: nat, slots: seq<Record>,
                        buf: nat, file: nat)
    requires rpp > 0
  {
    && r.dynamicStartIdx <= r.dynamicEndIdx <= |dy|
    && t == Target(r.storedStartPid, Merge(dy[r.dynamicStartIdx..r.dynamicEndIdx], part))
    && r.staticDataNum == |part| > 0 && Holds(slots, Span(r.startPageId, rpp), part)
    && Span(r.startPageId, rpp) + Span(PagesFor(|part|, rpp), rpp) <= |slots|
    && Suffices(buf, PagesFor(|part|, rpp), rpp) && Suffices(buf, PagesFor(|t.content|, rpp), rpp)
    && Span(t.start, rpp) + Span(PagesFor(|t.content|, rpp), rpp) <= file
  }

  /** The buffer and the new file are large enough for a partition and its target. */
  ghost predicate Room(t: Target, number: nat, rpp: nat, buf: nat, file: nat)
    requires rpp > 0
  {
    && Suffices(buf, PagesFor(number, rpp), rpp) && Suffices(buf, PagesFor(|t.content|, rpp), rpp)
    && Span(t.start, rpp) + Span(PagesFor(|t.content|, rpp), rpp) <= file
  }

  ghost predicate RoomForAll(targets: seq<Target>, numbers: seq<nat>, rpp: nat, buf: nat, file: nat)
    requires rpp > 0 && |targets| == |numbers|
  {
    forall p {:trigger targets[p]} | 0 <= p < |targets| :: Room(targets[p], numbers[p], rpp, buf, file)
  }

  lemma PlannedReady(dy: seq<Record>, parts: seq<seq<Record>>, keys: seq<int>, numbers: seq<nat>, starts: seq<nat>,
                     lasts: seq<nat>, rpp: nat, p: nat, r: PartitionRange, slots: seq<Record>, buf: nat, file: nat)
    requires SortedByKey(dy) && Rising(keys) && p < |keys| == |parts| == |numbers| == |starts| && UpTo(starts, lasts)
    requires rpp > 0 && r == Planned(dy, keys, numbers, starts, lasts, rpp, p)
    requires StoredPart(slots, rpp, parts[p], numbers[p], starts[p], lasts[p])
    requires Room(Targets(dy, keys, numbers, parts, rpp)[p], numbers[p], rpp, buf, file)
    ensures Ready(r, dy, parts[p], Targets(dy, keys, numbers, parts, rpp)[p], rpp, slots, buf, file)
  {
    RangeBounds(dy, keys, p);
  }

  ghost predicate AllReady(partitions: seq<PartitionRange>, dy: seq<Record>, parts: seq<seq<Record>>, targets: seq<Target>,
                           rpp: nat, slots: seq<Record>, buf: nat, file: nat)
  {
    && rpp > 0 && |partitions| == |parts| == |targets|
    && forall p {:trigger targets[p]} | 0 <= p < |targets| ::
         Ready(partitions[p], dy, parts[p], targets[p], rpp, slots, buf, file)
  }

  lemma LayoutReady(partitions: seq<PartitionRange>, dy: seq<Record>, parts: seq<seq<Record>>, keys: seq<int>,
                    numbers: seq<nat>, starts: seq<nat>, lasts: seq<nat>, rpp: nat, slots: seq<Record>, buf: nat, file: nat)
    requires rpp > 0 && SortedByKey(dy) && Rising(keys) && UpTo(starts, lasts)
    requires |partitions| == |keys| == |parts| == |numbers| == |starts|
    requires PlannedTo(|partitions|, partitions, dy, keys, numbers, starts, lasts, rpp)
    requires StoredAll(slots, rpp, parts, numbers, starts, lasts)
    requires RoomForAll(Targets(dy, keys, numbers, parts, rpp), numbers, rpp, buf, file)
    ensures AllReady(partitions, dy, parts, Targets(dy, keys, numbers, parts, rpp), rpp, slots, buf, file)
  {
    var targets := Targets(dy, keys, numbers, parts, rpp);
    forall p | 0 <= p < |targets| ensures Ready(partitions[p], dy, parts[p], targets[p], rpp, slots, buf, file) {
      PlannedAt(|partitions|, p, partitions, dy, keys, numbers, starts, lasts, rpp);
      assert StoredPart(slots, rpp, parts[p], numbers[p], starts[p], lasts[p]);
      assert Room(targets[p], numbers[p], rpp, buf, file);
      PlannedReady(dy, parts, keys, numbers, starts, lasts, rpp, p, partitions[p], slots, buf, file);
    }
  }

  class MultiThreadedStaticIndex {
    const recordPerPage: nat
    const file: array<Record>
    const newFile: array<Record>
    var partitionKeys: seq<int>
    var partitions: seq<PartitionRange>
    var dataNumbers: seq<nat>
    var pageStartIds: seq<nat>
    var pageLastIds: seq<nat>

    /** The file holds the partitions, as the fields describe them. */
    ghost predicate Describes(slots: seq<Record>, parts: seq<seq<Record>>)
      reads this
    {
      && recordPerPage > 0 && Partitioned(partitionKeys, parts)
      && StoredAll(slots, recordPerPage, parts, dataNumbers, pageStartIds, pageLastIds)
    }

    ghost predicate SameLength(n: nat)
      reads this
    {
      |partitionKeys| == |dataNumbers| == |pageStartIds| == |pageLastIds| == n
    }

    ghost function Infos(): (infos: seq<PartInfo>)
      requires SameLength(|partitionKeys|)
      reads this
    {
      InfosOf(partitionKeys, dataNumbers, pageStartIds, pageLastIds)
    }

    /** Lays out the merge of the new records: shares and target pages of all partitions. */
    method PartitionData(dy: seq<Record>, ghost parts: seq<seq<Record>>)
      requires Describes(file[..], parts) && SortedByKey(dy)
      modifies this`partitions
      ensures |partitions| == |partitionKeys| == |dataNumbers| == |pageStartIds| && UpTo(pageStartIds, pageLastIds)
      ensures PlannedTo(|partitions|, partitions, dy, partitionKeys, dataNumbers, pageStartIds, pageLastIds, recordPerPage)
    {
      StartsUpToLasts(file[..], recordPerPage, parts, dataNumbers, pageStartIds, pageLastIds);
      partitions := Layout(dy, partitionKeys, dataNumbers, pageStartIds, pageLastIds, recordPerPage);
    }

    method LoadAndMerge(dy: seq<Record>, r: PartitionRange, buf: array<Record>, ghost part: seq<Record>)
      returns (merged: array<Record>)
      requires recordPerPage > 0 && buf != file && r.dynamicStartIdx <= r.dynamicEndIdx <= |dy|
      requires r.staticDataNum == |part| && Holds(file[..], Span(r.startPageId, recordPerPage), part)
      requires Span(r.startPageId, recordPerPage) + Span(PagesFor(|part|, recordPerPage), recordPerPage) <= file.Length
      requires Suffices(buf.Length, PagesFor(|part|, recordPerPage), recordPerPage)
      modifies buf
      ensures fresh(merged) && merged[..] == Merge(dy[r.dynamicStartIdx..r.dynamicEndIdx], part)
    {
      merged := new Record[r.dynamicEndIdx - r.dynamicStartIdx + r.staticDataNum](_ => Record(0, 0));
      if r.staticDataNum > 0 {
        GetAllData(file, r.startPageId, recordPerPage, r.staticDataNum, buf, merged);
      }
      assert merged[..r.staticDataNum] == part;
      MergeTwoSortedArray(dy, r.dynamicStartIdx, r.dynamicEndIdx, merged, r.staticDataNum);
    }

    /** Merges one partition and stores it on its pages of the new file. */
    method MergeSubData(dy: seq<Record>, p: nat, buf: array<Record>, ghost part: seq<Record>, ghost t: Target)
      returns (ghost info: PartInfo)
      requires recordPerPage > 0 && p < |partitions| && SameLength(|partitions|)
      requires buf != file && buf != newFile && file != newFile
      requires Ready(partitions[p], dy, part, t, recordPerPage, file[..], buf.Length, newFile.Length)
      modifies this`partitionKeys, this`dataNumbers, this`pageStartIds, this`pageLastIds, newFile, buf
      ensures SameLength(|partitions|) && Infos() == old(Infos())[p := info]
      ensures Done(newFile[..], recordPerPage, t, info)
      ensures WritesOnly(old(newFile[..]), newFile[..], t, recordPerPage)
    {
      var r := partitions[p];
      var merged := LoadAndMerge(dy, r, buf, part);
      info := StoreSubData(p, merged[..], r.storedStartPid, buf, t);
    }

    /** Sets the fields of a merged partition and writes its records. */
    method StoreSubData(p: nat, merged: seq<Record>, start: nat, buf: array<Record>, ghost t: Target)
      returns (ghost info: PartInfo)
      requires p < |partitions| && SameLength(|partitions|)
      requires recordPerPage > 0 && buf != newFile && t == Target(start, merged) && |merged| > 0
      requires Suffices(buf.Length, PagesFor(|merged|, recordPerPage), recordPerPage)
      requires Span(start, recordPerPage) + Span(PagesFor(|merged|, recordPerPage), recordPerPage) <= newFile.Length
      modifies this`partitionKeys, this`dataNumbers, this`pageStartIds, this`pageLastIds, newFile, buf
      ensures SameLength(|partitions|) && Infos() == old(Infos())[p := info]
      ensures Done(newFile[..], recordPerPage, t, info)
      ensures WritesOnly(old(newFile[..]), newFile[..], t, recordPerPage)
    {
      ghost var k, n, s, l := partitionKeys, dataNumbers, pageStartIds, pageLastIds;
      dataNumbers := dataNumbers[p := |merged|];
      pageStartIds := pageStartIds[p := start];
      pageLastIds := pageLastIds[p := start + (|merged| - 1) / recordPerPage];
      info := WriteTarget(merged, start, buf, t);
      partitionKeys := partitionKeys[p := merged[|merged| - 1].key];
      InfosUpdate(k, n, s, l, p, info);
    }

    /** Writes the records of a target from its first page on. */
    method WriteTarget(merged: seq<Record>, start: nat, buf: array<Record>, ghost t: Target) returns (ghost info: PartInfo)
      requires recordPerPage > 0 && buf != newFile && t == Target(start, merged) && |merged| > 0
      requires Suffices(buf.Length, PagesFor(|merged|, recordPerPage), recordPerPage)
      requires Span(start, recordPerPage) + Span(PagesFor(|merged|, recordPerPage), recordPerPage) <= newFile.Length
      modifies newFile, buf
      ensures info == PartInfo(merged[|merged| - 1].key, |merged|, start, start + (|merged| - 1) / recordPerPage)
      ensures Done(newFile[..], recordPerPage, t, info)
      ensures WritesOnly(old(newFile[..]), newFile[..], t, recordPerPage)
    {
      PagesForIsCeiling(|merged|, recordPerPage);
      DirectIOWrite(newFile, merged, recordPerPage, buf, start);
      info := PartInfo(merged[|merged| - 1].key, |merged|, start, start + (|merged| - 1) / recordPerPage);
    }

    /** The claimed partitions are merged one after the other, in any order. */
    method MergeInOrder(dy: seq<Record>, order: seq<nat>, buf: array<Record>,
                        ghost parts: seq<seq<Record>>, ghost targets: seq<Target>)
      requires buf != file && buf != newFile && file != newFile
      requires Order(order, |targets|) && SameLength(|partitions|)
      requires AllReady(partitions, dy, parts, targets, recordPerPage, file[..], buf.Length, newFile.Length)
      requires Apart(targets, recordPerPage)
      modifies this`partitionKeys, this`dataNumbers, this`pageStartIds, this`pageLastIds, newFile, buf
      ensures SameLength(|partitions|)
      ensures DoneTo(|order|, order, newFile[..], recordPerPage, targets, Infos())
    {
      ghost var before := file[..];
      for c := 0 to |order|
        invariant SameLength(|partitions|) && file[..] == before
        invariant DoneTo(c, order, newFile[..], recordPerPage, targets, Infos())
      {
        ghost var slots, infos, t := newFile[..], Infos(), targets[order[c]];
        ghost var info := MergeSubData(dy, order[c], buf, parts[order[c]], t);
        OneMoreDone(c, order, slots, newFile[..], recordPerPage, targets, infos, info);
      }
    }

    /** A whole round: the partitions are merged in any order, each once. The new file
        holds the merged partitions under the same partition keys. They are still
        separated by these keys if and only if no new record stands on an inner one. */
    method MergeRound(dy: seq<Record>, order: seq<nat>, buf: array<Record>, ghost parts: seq<seq<Record>>)
      requires recordPerPage > 0 && buf != file && buf != newFile && file != newFile
      requires Describes(file[..], parts) && SortedByKey(dy)
      requires RoomForAll(Targets(dy, partitionKeys, dataNumbers, parts, recordPerPage), dataNumbers, recordPerPage,
                          buf.Length, newFile.Length)
      requires Order(order, |parts|) && forall p: nat | p < |parts| :: p in order
      modifies this`partitions, this`partitionKeys, this`dataNumbers, this`pageStartIds, this`pageLastIds, newFile, buf
      ensures partitionKeys == old(partitionKeys)
      ensures StoredAll(newFile[..], recordPerPage, MergedParts(dy, old(partitionKeys), parts),
                        dataNumbers, pageStartIds, pageLastIds)
      ensures Describes(newFile[..], MergedParts(dy, old(partitionKeys), parts)) <==> NoneAtBorder(dy, old(partitionKeys))
    {
      ghost var keys, targets := partitionKeys, Targets(dy, partitionKeys, dataNumbers, parts, recordPerPage);
      PlanRound(dy, parts, buf.Length);
      MergeInOrder(dy, order, buf, parts, targets);
      RoundHolds(dy, keys, parts, MergedParts(dy, keys, parts), order, newFile[..], recordPerPage, targets,
                 partitionKeys, dataNumbers, pageStartIds, pageLastIds);
    }

    /** The plan of a round: every partition can be read, merged and stored apart from the others. */
    method PlanRound(dy: seq<Record>, ghost parts: seq<seq<Record>>, ghost room: nat)
      requires Describes(file[..], parts) && SortedByKey(dy)
      requires RoomForAll(Targets(dy, partitionKeys, dataNumbers, parts, recordPerPage), dataNumbers, recordPerPage,
                          room, newFile.Length)
      modifies this`partitions
      ensures SameLength(|parts|) && |partitions| == |parts|
      ensures var targets := Targets(dy, partitionKeys, dataNumbers, parts, recordPerPage);
        && Apart(targets, recordPerPage)
        && AllReady(partitions, dy, parts, targets, recordPerPage, file[..], room, newFile.Length)
    {
      StoredSizes(file[..], recordPerPage, parts, dataNumbers, pageStartIds, pageLastIds);
      TargetsApart(dy, partitionKeys, dataNumbers, parts, recordPerPage);
      PartitionData(dy, parts);
      LayoutReady(partitions, dy, parts, partitionKeys, dataNumbers, pageStartIds, pageLastIds, recordPerPage, file[..],
                  room, newFile.Length);
    }
  }

  lemma RoundHolds(dy: seq<Record>, keys: seq<int>, parts: seq<seq<Record>>, merged: seq<seq<Record>>, order: seq<nat>,
                   slots: seq<Record>, rpp: nat, targets: seq<Target>,
                   keys': seq<int>, numbers: seq<nat>, starts: seq<nat>, lasts: seq<nat>)
    requires Partitioned(keys, parts) && SortedByKey(dy) && |merged| == |keys|
    requires forall p | 0 <= p < |merged| :: merged[p] == MergedPart(dy, keys, parts, p)
    requires rpp > 0 && |targets| == |merged| == |keys'| == |numbers| == |starts| == |lasts|
    requires Order(order, |targets|) && forall p: nat | p < |targets| :: p in order
    requires DoneTo(|order|, order, slots, rpp, targets, InfosOf(keys', numbers, starts, lasts))
    requires forall p {:trigger targets[p]} | 0 <= p < |targets| :: targets[p].content == merged[p]
    ensures keys' == keys && StoredAll(slots, rpp, merged, numbers, starts, lasts)
    ensures Partitioned(keys, merged) <==> NoneAtBorder(dy, keys)
  {
    PartitionedStays(dy, keys, parts, merged);
    MergedPartsEnd(dy, keys, parts, merged);
    RoundDone(order, slots, rpp, targets, merged, keys, keys', numbers, starts, lasts);
  }
}
