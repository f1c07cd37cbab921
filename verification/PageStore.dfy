/** Direct I/O in chunks over an array of record slots that stands for the disk:
    page `p` is the slots from `p * rpp` up to `(p + 1) * rpp`. */
module PageStore {
  import opened Geometry
  import opened Records

  /** How many pages one call transfers at most. */
  const CHUNK: nat := 500000

  /** The number of record slots on `pages` pages: `pages * rpp`, kept linear for the proofs. */
  function Span(pages: nat, rpp: nat): nat {
    if pages == 0 then 0 else Span(pages - 1, rpp) + rpp
  }

  lemma {:induction false} SpanIsProduct(pages: nat, rpp: nat)
    ensures Span(pages, rpp) == pages * rpp
  {
    if pages > 0 {
      SpanIsProduct(pages - 1, rpp);
      assert pages * rpp == (pages - 1) * rpp + rpp;
    }
  }

  lemma {:induction false} SpanSum(a: nat, b: nat, rpp: nat)
    ensures Span(a + b, rpp) == Span(a, rpp) + Span(b, rpp)
  {
    if b > 0 { SpanSum(a, b - 1, rpp); }
  }

  lemma SpanMono(a: nat, b: nat, rpp: nat)
    requires a <= b
    ensures Span(a, rpp) <= Span(b, rpp)
  {
    SpanSum(a, b - a, rpp);
  }

  /** The pages that `n` records fill or begin, counted one by one. */
  function PagesFor(n: nat, rpp: nat): (p: nat)
    requires rpp > 0
    ensures p > 0 <==> n > 0
  {
    if n == 0 then 0 else if n <= rpp then 1 else 1 + PagesFor(n - rpp, rpp)
  }

  lemma {:induction false} PagesForBounds(n: nat, rpp: nat)
    requires rpp > 0
    ensures n <= Span(PagesFor(n, rpp), rpp) < n + rpp
  {
    if n > rpp { PagesForBounds(n - rpp, rpp); }
  }

  lemma {:induction false} PagesForMono(a: nat, b: nat, rpp: nat)
    requires rpp > 0 && a <= b
    ensures PagesFor(a, rpp) <= PagesFor(b, rpp)
  {
    if a > rpp { PagesForMono(a - rpp, b - rpp, rpp); }
  }

  /** The page count is the exact ceiling, and one more than the page of the last record. */
  lemma {:induction false} PagesForIsCeiling(n: nat, rpp: nat)
    requires rpp > 0
    ensures PagesFor(n, rpp) == (n + rpp - 1) / rpp
    ensures n > 0 ==> PagesFor(n, rpp) == (n - 1) / rpp + 1
  {
    var p := PagesFor(n, rpp);
    PagesForBounds(n, rpp);
    SpanIsProduct(p, rpp);
    DivisionBounds(n + rpp - 1, rpp, p);
    DivisionBounds(n + rpp - 1, rpp, p + 1);
    if n > 0 {
      DivisionBounds(n - 1, rpp, p - 1);
      DivisionBounds(n - 1, rpp, p);
    }
  }

  predicate Holds(slots: seq<Record>, at: nat, data: seq<Record>) {
    at + |data| <= |slots| && slots[at..at + |data|] == data
  }

  function ChunkOf(total: nat): nat {
    if total > CHUNK then CHUNK else total
  }

  /** A buffer large enough for one chunk of these pages. */
  predicate Suffices(buf: nat, pages: nat, rpp: nat) {
    Span(ChunkOf(pages), rpp) <= buf
  }

  /** Where the next chunk lies, in records: inside the buffer, inside the pages,
      and not past the end of the `n` records. */
  lemma ChunkBounds(total: nat, pages: nat, n: nat, rpp: nat, buf: nat)
    requires rpp > 0 && 0 < total <= pages == PagesFor(n, rpp) && Suffices(buf, pages, rpp)
    ensures Span(ChunkOf(total), rpp) <= buf
    ensures Span(pages - total, rpp) <= n
    ensures Span(pages - (total - ChunkOf(total)), rpp) == Span(pages - total, rpp) + Span(ChunkOf(total), rpp) <= Span(pages, rpp)
  {
    PagesForBounds(n, rpp);
    SpanMono(ChunkOf(total), ChunkOf(pages), rpp);
    SpanMono(pages - total, pages - 1, rpp);
    SpanSum(pages - total, ChunkOf(total), rpp);
    SpanMono(pages - total + ChunkOf(total), pages, rpp);
  }

  /** `memcpy` into the buffer and `pwrite` of whole pages from it. */
  method WriteChunk(disk: array<Record>, at: nat, data: seq<Record>, offset: nat, bytes: nat, buf: array<Record>)
    requires disk != buf && bytes <= buf.Length && offset <= |data| && at + bytes <= disk.Length
    modifies disk, buf
    ensures forall k | at <= k < at + bytes && offset + (k - at) < |data| :: disk[k] == data[offset + (k - at)]
    ensures forall k | 0 <= k < disk.Length && !(at <= k < at + bytes) :: disk[k] == old(disk[k])
  {
    var size := if bytes < |data| - offset then bytes else |data| - offset;
    forall k | 0 <= k < size { buf[k] := data[offset + k]; }
    forall k | 0 <= k < bytes { disk[at + k] := buf[k]; }
  }

  /** `pread` of whole pages into the buffer and `memcpy` of at most `length - offset` records. */
  method ReadChunk(disk: array<Record>, at: nat, bytes: nat, length: nat, offset: nat, buf: array<Record>, data: array<Record>)
    requires disk != buf && disk != data && buf != data && bytes <= buf.Length
    requires offset <= length <= data.Length && at + bytes <= disk.Length
    modifies buf, data
    ensures forall k | offset <= k < offset + bytes && k < length :: data[k] == disk[at + (k - offset)]
    ensures forall k | 0 <= k < data.Length && !(offset <= k < offset + bytes && k < length) :: data[k] == old(data[k])
  {
    var size := if bytes < length - offset then bytes else length - offset;
    forall k | 0 <= k < bytes { buf[k] := disk[at + k]; }
    forall k | 0 <= k < size { data[offset + k] := buf[k]; }
  }

  /** Writes the pages of `data` from page `start` on. The tail of the last page
      receives whatever the buffer held; other pages are untouched. */
  method DirectIOWrite(disk: array<Record>, data: seq<Record>, rpp: nat, buf: array<Record>, start: nat)
    requires rpp > 0 && disk != buf && Suffices(buf.Length, PagesFor(|data|, rpp), rpp)
    requires Span(start, rpp) + Span(PagesFor(|data|, rpp), rpp) <= disk.Length
    modifies disk, buf
    ensures Holds(disk[..], Span(start, rpp), data)
    ensures forall k | 0 <= k < disk.Length && !(Span(start, rpp) <= k < Span(start, rpp) + Span(PagesFor(|data|, rpp), rpp)) ::
              disk[k] == old(disk[k])
  {
    var pages := PagesFor(|data|, rpp);
    PagesForBounds(|data|, rpp);
    var total: nat, offset: nat, base: nat := pages, 0, Span(start, rpp);
    while total > 0
      invariant total <= pages && offset == Span(pages - total, rpp)
      invariant forall k | base <= k < base + offset && k - base < |data| :: disk[k] == data[k - base]
      invariant forall k | 0 <= k < disk.Length && !(base <= k < base + offset) :: disk[k] == old(disk[k])
    {
      ChunkBounds(total, pages, |data|, rpp, buf.Length);
      var bytes := Span(ChunkOf(total), rpp);
      WriteChunk(disk, base + offset, data, offset, bytes, buf);
      total, offset := total - ChunkOf(total), offset + bytes;
    }
    assert offset == Span(pages, rpp) >= |data|;
    forall i | 0 <= i < |data| ensures disk[..][base..base + |data|][i] == data[i] {
      assert disk[base + i] == data[base + i - base];
    }
  }

  /** Reads `length` records from page `start` on into the front of `data`. */
  method GetAllData(disk: array<Record>, start: nat, rpp: nat, length: nat, buf: array<Record>, data: array<Record>)
    requires rpp > 0 && disk != buf && disk != data && buf != data
    requires Suffices(buf.Length, PagesFor(length, rpp), rpp) && length <= data.Length
    requires Span(start, rpp) + Span(PagesFor(length, rpp), rpp) <= disk.Length
    modifies buf, data
    ensures Span(start, rpp) + length <= disk.Length && data[..length] == disk[Span(start, rpp)..Span(start, rpp) + length]
    ensures forall k | length <= k < data.Length :: data[k] == old(data[k])
  {
    var pages := PagesFor(length, rpp);
    PagesForBounds(length, rpp);
    var total: nat, offset: nat, base: nat := pages, 0, Span(start, rpp);
    while total > 0
      invariant total <= pages && offset == Span(pages - total, rpp)
      invariant forall k | 0 <= k < offset && k < length :: data[k] == disk[base + k]
      invariant forall k | length <= k < data.Length :: data[k] == old(data[k])
    {
      ChunkBounds(total, pages, length, rpp, buf.Length);
      var bytes := Span(ChunkOf(total), rpp);
      ReadChunk(disk, base + offset, bytes, length, offset, buf, data);
      total, offset := total - ChunkOf(total), offset + bytes;
    }
    assert offset == Span(pages, rpp) >= length;
    assert data[..length] == disk[base..base + length];
  }

  /** The first of `n` records with a key of at least `key`, or the last record. */
  method LastMileSearch(data: array<Record>, n: nat, key: int) returns (s: nat)
    requires 0 < n <= data.Length && SortedByKey(data[..n])
    ensures s == if LowerBound(data[..n], key) < n then LowerBound(data[..n], key) else n - 1
  {
    ghost var run := data[..n];
    if data[n - 1].key < key {
      LowerBoundUnique(run, key, n);
      return n - 1;
    }
    s := 0;
    var e := n;
    while s < e
      invariant 0 <= s <= e <= n
      invariant s > 0 ==> run[s - 1].key < key
      invariant e < n ==> key <= run[e].key
    {
      var mid := (s + e) / 2;
      assert data[mid] == run[mid];
      if data[mid].key < key { s := mid + 1; } else { e := mid; }
    }
    LowerBoundUnique(run, key, s);
  }
}
