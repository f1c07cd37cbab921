/** The static half of the hybrid index: sorted records on pages of a disk file,
    merged with new records in place, written back, and fetched by page. */
module HybridStatic {
  import opened Geometry
  import opened Pages
  import opened Records
  import opened PageStore

  /** The last loop of the merge: what remains of the new records goes to the front. */
  method CopyRest(dy: seq<Record>, merged: array<Record>, cnt: int, i: int)
    requires -1 <= i < |dy| && i < merged.Length && (i >= 0 ==> cnt == i)
    modifies merged
    ensures forall k | 0 <= k < merged.Length :: merged[k] == if k <= i then dy[k] else old(merged[k])
  {
    var c, r := cnt, i;
    while r >= 0
      invariant -1 <= r <= i && (i >= 0 ==> c == r)
      invariant forall k | 0 <= k < merged.Length :: merged[k] == if r < k <= i then dy[k] else old(merged[k])
    {
      merged[c] := dy[r];
      c, r := c - 1, r - 1;
    }
  }

  /** The in-place merge: the front of `merged` holds `n` static records, the rest
      is free. No record is overwritten before it is read. */
  method MergeInPlace(dy: seq<Record>, merged: array<Record>, n: nat)
    requires merged.Length == |dy| + n
    modifies merged
    ensures merged[..] == Merge(old(merged[..n]), dy)
  {
    ghost var st := merged[..n];
    ghost var out := Merge(st, dy);
    WholeIsPending(st, dy);
    var cnt, i, j := merged.Length - 1, |dy| - 1, n - 1;
    while i >= 0 && j >= 0
      invariant -1 <= i < |dy| && -1 <= j < n && cnt == i + j + 1
      invariant forall k | 0 <= k <= j :: merged[k] == st[k]
      invariant forall k | cnt < k < merged.Length :: merged[k] == out[k]
      invariant Pending(st, dy, j + 1, i + 1, out)
      decreases i + j
    {
      if dy[i].key < merged[j].key {
        merged[cnt] := merged[j];
        j := j - 1;
      } else {
        merged[cnt] := dy[i];
        i := i - 1;
      }
      cnt := cnt - 1;
    }
    OneLeft(st, dy, j + 1, i + 1, out);
    CopyRest(dy, merged, cnt, i);
  }

  /** The pages of a search bound, and the records on them. */
  function FirstPage(b: SearchBound, rpp: nat): nat
    requires rpp > 0
  {
    b.begin / rpp
  }

  function LastPage(b: SearchBound, rpp: nat): nat
    requires rpp > 0 && b.begin < b.end
  {
    (b.end - 1) / rpp
  }

  function PagesSpanned(b: SearchBound, rpp: nat): nat
    requires rpp > 0 && b.begin < b.end
  {
    FirstBeforeLast(b, rpp);
    LastPage(b, rpp) - FirstPage(b, rpp) + 1
  }

  /** A bound that reaches the page of `y` has `y` on the pages it spans. */
  lemma ReachedIsFetched(b: SearchBound, y: nat, rpp: nat)
    requires rpp > 0 && b.begin < b.end && ReachesPage(b, y, rpp)
    ensures Span(FirstPage(b, rpp), rpp) <= y < Span(LastPage(b, rpp) + 1, rpp)
  {
    var p: nat :| b.begin <= p < b.end && Page(p, rpp) == Page(y, rpp);
    PageBounds(y, rpp);
    PageBounds(p, rpp);
    PageBounds(b.begin, rpp);
    PageBounds(b.end - 1, rpp);
    var f, l, m := FirstPage(b, rpp), LastPage(b, rpp), Page(y, rpp);
    SpanIsProduct(f, rpp);
    SpanIsProduct(l + 1, rpp);
    if m < f { MulMono(m + 1, f, rpp); }
    if l < m { MulMono(l + 1, m, rpp); }
    MulMono(f, m, rpp);
    MulMono(m + 1, l + 1, rpp);
  }

  /** Searching a window that holds the first record with a key finds it. */
  lemma WindowLowerBound(s: seq<Record>, from: nat, to: nat, key: int)
    requires SortedByKey(s) && from <= LowerBound(s, key) < to <= |s|
    ensures SortedByKey(s[from..to]) && LowerBound(s[from..to], key) == LowerBound(s, key) - from
  {
    LowerBoundSplits(s, key);
    LowerBoundUnique(s[from..to], key, LowerBound(s, key) - from);
  }

  lemma SliceSorted(s: seq<Record>, from: nat, to: nat)
    requires SortedByKey(s) && from <= to <= |s|
    ensures SortedByKey(s[from..to])
  {
  }

  /** Where a search for any key ends, stored or not: at its lower bound, or at the last record. */
  function Landing(s: seq<Record>, key: int): (t: nat)
    requires |s| > 0
    ensures t < |s|
  {
    if LowerBound(s, key) < |s| then LowerBound(s, key) else |s| - 1
  }

  method SearchWindow(buf: array<Record>, n: nat, key: int) returns (v: int)
    requires 0 < n <= buf.Length && SortedByKey(buf[..n])
    ensures v == buf[..n][Landing(buf[..n], key)].value
  {
    var idx := LastMileSearch(buf, n, key);
    assert buf[idx] == buf[..n][idx];
    v := buf[idx].value;
  }

  /** Searching a window that holds the first record with a key finds its value. */
  lemma WindowFinds(s: seq<Record>, from: nat, to: nat, key: int)
    requires SortedByKey(s) && HasKey(s, key) && from <= LowerBound(s, key) < to <= |s|
    ensures s[from..to][Landing(s[from..to], key)].value == FirstValue(s, key)
  {
    FirstIsLowerBound(s, key);
    WindowLowerBound(s, from, to, key);
  }

  class StaticIndex {
    const disk: array<Record>
    const readBuf: array<Record>
    const recordPerPage: nat
    var dataNumber: nat
    var pageNumber: nat
    var lastPageId: nat

    ghost predicate Valid()
      reads this
    {
      && recordPerPage > 0 && disk != readBuf
      && pageNumber == PagesFor(dataNumber, recordPerPage) && Span(pageNumber, recordPerPage) <= disk.Length
      && dataNumber <= disk.Length
      && lastPageId + Span(pageNumber, recordPerPage) == recordPerPage + dataNumber
    }

    ghost function Contents(): (c: seq<Record>)
      requires Valid()
      reads this, disk
      ensures |c| == dataNumber
    {
      disk[..dataNumber]
    }

    constructor (capacity: nat, buffer: nat, recordPerPage: nat)
      requires recordPerPage > 0
      ensures Valid() && Contents() == [] && fresh(disk) && fresh(readBuf)
      ensures disk.Length == capacity && readBuf.Length == buffer && this.recordPerPage == recordPerPage
    {
      this.recordPerPage, dataNumber, pageNumber, lastPageId := recordPerPage, 0, 0, recordPerPage;
      disk := new Record[capacity](_ => Record(0, 0));
      readBuf := new Record[buffer](_ => Record(0, 0));
      new;
    }

    /** Merges new records into the file; of equal keys the stored one stays first. */
    method MergeData(dy: seq<Record>) returns (merged: array<Record>)
      requires Valid()
      requires Span(PagesFor(|dy| + dataNumber, recordPerPage), recordPerPage) <= disk.Length
      requires Suffices(readBuf.Length, PagesFor(|dy| + dataNumber, recordPerPage), recordPerPage)
      requires Suffices(readBuf.Length, pageNumber, recordPerPage)
      modifies this, disk, readBuf
      ensures Valid() && fresh(merged)
      ensures Contents() == Merge(old(Contents()), dy) && merged[..] == Contents()
    {
      merged := new Record[|dy| + dataNumber](_ => Record(0, 0));
      if dataNumber > 0 {
        GetAllData(disk, 0, recordPerPage, dataNumber, readBuf, merged);
      }
      assert merged[..dataNumber] == old(Contents());
      MergeInPlace(dy, merged, dataNumber);
      Store(merged[..]);
    }

    /** Sets the counters and writes the records to the front of the file. */
    method Store(records: seq<Record>)
      requires recordPerPage > 0 && disk != readBuf
      requires Span(PagesFor(|records|, recordPerPage), recordPerPage) <= disk.Length
      requires Suffices(readBuf.Length, PagesFor(|records|, recordPerPage), recordPerPage)
      modifies this, disk, readBuf
      ensures Valid() && Contents() == records
    {
      dataNumber := |records|;
      pageNumber := PagesFor(dataNumber, recordPerPage);
      PagesForBounds(dataNumber, recordPerPage);
      lastPageId := recordPerPage - (Span(pageNumber, recordPerPage) - dataNumber);
      DirectIOWrite(disk, records, recordPerPage, readBuf, 0);
      assert records[..dataNumber] == records;
    }

    /** Reads whole pages and searches all their records but those past `lastId` of the last page. */
    method FetchPages(pid: nat, pageNum: nat, lastId: nat, key: int, ghost w: seq<Record>) returns (v: int)
      requires Valid() && SortedByKey(Contents()) && pageNum > 0 && 0 < lastId <= recordPerPage
      requires Span(pid, recordPerPage) + Span(pageNum - 1, recordPerPage) + lastId <= dataNumber
      requires Span(pid + pageNum, recordPerPage) <= disk.Length && Span(pageNum, recordPerPage) <= readBuf.Length
      requires var from := Span(pid, recordPerPage);
        w == Contents()[from..from + Span(pageNum - 1, recordPerPage) + lastId]
      modifies readBuf
      ensures |w| > 0 && v == w[Landing(w, key)].value
    {
      var from := Span(pid, recordPerPage);
      SpanSum(pid, pageNum, recordPerPage);
      SpanSum(pageNum - 1, 1, recordPerPage);
      var n := Span(pageNum - 1, recordPerPage) + lastId;
      SliceSorted(Contents(), from, from + n);
      forall k | 0 <= k < Span(pageNum, recordPerPage) { readBuf[k] := disk[from + k]; }
      assert readBuf[..n] == w by {
        assert forall k | 0 <= k < n :: w[k] == disk[from + k];
      }
      v := SearchWindow(readBuf, n, key);
    }

    /** The records on the pages of a bound. */
    ghost function Window(b: SearchBound): (w: seq<Record>)
      requires Valid() && b.begin < b.end <= dataNumber
      reads this, disk
      ensures |w| > 0
    {
      WindowOn(Contents(), b, recordPerPage)
    }

    /** Fetches the pages of a bound and searches them: if the bound reaches the page
        of the first record with the key, its value is returned; for any other key the
        value of the record where the search on these pages ends. */
    method FindData(b: SearchBound, key: int) returns (v: int)
      requires Valid() && SortedByKey(Contents()) && b.begin < b.end <= dataNumber
      requires Span(PagesSpanned(b, recordPerPage), recordPerPage) <= readBuf.Length
      modifies readBuf
      ensures v == Window(b)[Landing(Window(b), key)].value
      ensures (HasKey(Contents(), key) && ReachesPage(b, LowerBound(Contents(), key), recordPerPage))
              ==> v == FirstValue(Contents(), key)
    {
      v := FetchBound(b, key);
      if HasKey(Contents(), key) && ReachesPage(b, LowerBound(Contents(), key), recordPerPage) {
        InWindow(Contents(), b, key, recordPerPage);
        WindowFinds(Contents(), Span(FirstPage(b, recordPerPage), recordPerPage),
                    WindowEnd(b, dataNumber, recordPerPage), key);
      }
    }

    method FetchBound(b: SearchBound, key: int) returns (v: int)
      requires Valid() && SortedByKey(Contents()) && b.begin < b.end <= dataNumber
      requires Span(PagesSpanned(b, recordPerPage), recordPerPage) <= readBuf.Length
      modifies readBuf
      ensures v == Window(b)[Landing(Window(b), key)].value
    {
      var first, pageNum, lastId := FetchArguments(b);
      v := FetchPages(first, pageNum, lastId, key, Window(b));
    }

    /** Which pages are fetched, and up to where the last one is searched. */
    method FetchArguments(b: SearchBound) returns (first: nat, pageNum: nat, lastId: nat)
      requires Valid() && b.begin < b.end <= dataNumber
      ensures first == FirstPage(b, recordPerPage) && 0 < pageNum == PagesSpanned(b, recordPerPage)
      ensures 0 < lastId <= recordPerPage && Span(first + pageNum, recordPerPage) <= Span(pageNumber, recordPerPage)
      ensures var from := Span(first, recordPerPage);
        && from + Span(pageNum - 1, recordPerPage) + lastId <= dataNumber
        && Window(b) == Contents()[from..from + Span(pageNum - 1, recordPerPage) + lastId]
    {
      first := FirstPage(b, recordPerPage);
      var last := LastPage(b, recordPerPage);
      FirstBeforeLast(b, recordPerPage);
      pageNum := last - first + 1;
      var searched := if last == pageNumber - 1 then lastPageId else recordPerPage;
      FetchWindow(Contents(), b, recordPerPage, searched, pageNum);
      lastId := searched;
    }
  }

  /** Where the records on the pages of a bound end. */
  function WindowEnd(b: SearchBound, n: nat, rpp: nat): nat
    requires rpp > 0 && b.begin < b.end
  {
    var end := Span(LastPage(b, rpp) + 1, rpp);
    if end <= n then end else n
  }

  /** The records on the pages of a bound. */
  function WindowOn(c: seq<Record>, b: SearchBound, rpp: nat): (w: seq<Record>)
    requires rpp > 0 && b.begin < b.end <= |c|
    ensures |w| > 0
  {
    BoundInFile(b, |c|, rpp);
    c[Span(FirstPage(b, rpp), rpp)..WindowEnd(b, |c|, rpp)]
  }

  /** The records on the last page. */
  function LastPageOf(c: seq<Record>, rpp: nat): (w: seq<Record>)
    requires rpp > 0 && |c| > 0
    ensures |w| > 0
  {
    WindowOn(c, SearchBound(|c| - 1, |c|), rpp)
  }

  /** What is fetched are the records on the pages of the bound. */
  lemma FetchWindow(c: seq<Record>, b: SearchBound, rpp: nat, lastId: int, pageNum: int)
    requires rpp > 0 && b.begin < b.end <= |c| && pageNum == LastPage(b, rpp) - FirstPage(b, rpp) + 1
    requires var pages := PagesFor(|c|, rpp);
      lastId == if LastPage(b, rpp) == pages - 1 then rpp + |c| - Span(pages, rpp) else rpp
    ensures 0 < pageNum == PagesSpanned(b, rpp) && 0 < lastId <= rpp
    ensures var from, to := Span(FirstPage(b, rpp), rpp), Span(FirstPage(b, rpp), rpp) + Span(pageNum - 1, rpp) + lastId;
      to <= |c| && WindowOn(c, b, rpp) == c[from..to]
    ensures Span(FirstPage(b, rpp) + pageNum, rpp) <= Span(PagesFor(|c|, rpp), rpp)
  {
    FetchReady(b, |c|, rpp, lastId);
    assert pageNum - 1 == LastPage(b, rpp) - FirstPage(b, rpp);
  }

  /** Searching the last page for the largest key finds the first record with it there. */
  lemma LastPageFinds(c: seq<Record>, rpp: nat)
    requires rpp > 0 && |c| > 0 && SortedByKey(c)
    ensures var w, key := LastPageOf(c, rpp), c[|c| - 1].key; HasKey(w, key) && w[Landing(w, key)].value == FirstValue(w, key)
  {
    var b, key := SearchBound(|c| - 1, |c|), c[|c| - 1].key;
    var from, to := Span(FirstPage(b, rpp), rpp), WindowEnd(b, |c|, rpp);
    assert FirstPage(b, rpp) == LastPage(b, rpp) == Page(|c| - 1, rpp);
    PageBounds(|c| - 1, rpp);
    SpanIsProduct(FirstPage(b, rpp), rpp);
    SpanIsProduct(FirstPage(b, rpp) + 1, rpp);
    assert from <= |c| - 1 < to;
    SliceSorted(c, from, to);
    assert c[from..to][|c| - 1 - from].key == key;
    FirstIsLowerBound(c[from..to], key);
  }

  lemma InWindow(c: seq<Record>, b: SearchBound, key: int, rpp: nat)
    requires SortedByKey(c) && HasKey(c, key) && rpp > 0 && b.begin < b.end <= |c| && ReachesPage(b, LowerBound(c, key), rpp)
    ensures Span(FirstPage(b, rpp), rpp) <= LowerBound(c, key) < WindowEnd(b, |c|, rpp)
  {
    FirstIsLowerBound(c, key);
    ReachedIsFetched(b, LowerBound(c, key), rpp);
  }

  /** What `FetchPages` needs, and that it fetches the whole window. */
  lemma FetchReady(b: SearchBound, n: nat, rpp: nat, lastId: int)
    requires rpp > 0 && b.begin < b.end <= n
    requires var pages := PagesFor(n, rpp);
      lastId == if LastPage(b, rpp) == pages - 1 then rpp + n - Span(pages, rpp) else rpp
    ensures var first, last := FirstPage(b, rpp), LastPage(b, rpp);
      && first <= last && 0 < lastId <= rpp && PagesSpanned(b, rpp) == last - first + 1
      && Span(first, rpp) + Span(last - first, rpp) + lastId == WindowEnd(b, n, rpp) <= n
      && Span(first + (last - first + 1), rpp) <= Span(PagesFor(n, rpp), rpp)
  {
    FetchInFile(b, n, rpp, lastId);
  }

  /** The fetched pages lie in the file, and only the last page of the file is not searched to its end. */
  lemma FetchInFile(b: SearchBound, n: nat, rpp: nat, lastId: int)
    requires rpp > 0 && b.begin < b.end <= n
    requires var pages := PagesFor(n, rpp);
      lastId == if LastPage(b, rpp) == pages - 1 then rpp + n - Span(pages, rpp) else rpp
    ensures var first, last := FirstPage(b, rpp), LastPage(b, rpp);
      && first <= last && 0 < lastId <= rpp && PagesSpanned(b, rpp) == last - first + 1
      && Span(first, rpp) + Span(last - first, rpp) == Span(last, rpp)
      && Span(last, rpp) + lastId == (if Span(last + 1, rpp) <= n then Span(last + 1, rpp) else n)
      && Span(last + 1, rpp) <= Span(PagesFor(n, rpp), rpp)
  {
    var first, last, pages := FirstPage(b, rpp), LastPage(b, rpp), PagesFor(n, rpp);
    FirstBeforeLast(b, rpp);
    LastPageInFile(b.end, n, rpp);
    PagesForBounds(n, rpp);
    SpanSum(first, last - first, rpp);
    SpanSum(last, 1, rpp);
    SpanMono(last + 1, pages, rpp);
  }

  lemma BoundInFile(b: SearchBound, n: nat, rpp: nat)
    requires rpp > 0 && b.begin < b.end <= n
    ensures Span(FirstPage(b, rpp), rpp) < WindowEnd(b, n, rpp) <= n
  {
    FetchReady(b, n, rpp, if LastPage(b, rpp) == PagesFor(n, rpp) - 1 then rpp + n - Span(PagesFor(n, rpp), rpp) else rpp);
  }

  lemma FirstBeforeLast(b: SearchBound, rpp: nat)
    requires rpp > 0 && b.begin < b.end
    ensures FirstPage(b, rpp) <= LastPage(b, rpp)
  {
    var f, l := FirstPage(b, rpp), LastPage(b, rpp);
    PageBounds(b.begin, rpp);
    PageBounds(b.end - 1, rpp);
    if l < f { MulMono(l + 1, f, rpp); }
  }

  /** A position below `n` lies on one of the pages for `n` records, and all but the last are full. */
  lemma LastPageInFile(end: nat, n: nat, rpp: nat)
    requires rpp > 0 && 0 < end <= n
    ensures (end - 1) / rpp < PagesFor(n, rpp)
    ensures (end - 1) / rpp < PagesFor(n, rpp) - 1 ==> Span((end - 1) / rpp + 1, rpp) <= n
  {
    var q, p := (end - 1) / rpp, PagesFor(n, rpp);
    PagesForBounds(n, rpp);
    PageBounds(end - 1, rpp);
    SpanIsProduct(p, rpp);
    if p <= q { MulMono(p, q, rpp); }
    if q < p - 1 {
      SpanMono(q + 1, p - 1, rpp);
      SpanSum(p - 1, 1, rpp);
    }
  }
}
