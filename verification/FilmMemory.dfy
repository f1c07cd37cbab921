/** Evicted records: the page being filled in memory, the full pages waiting to be
    written, the file of written pages, and the table of evicted positions. */
module FilmMemory {
  import opened Geometry
  import opened PageStore

  /** A page in memory; `recordnum` counts the records it still takes. */
  datatype Page = Page(pageid: nat, inmemdata: seq<int>, freespace: nat, recordnum: int)

  /** Where an evicted record is: a page and an offset in it. */
  datatype Position = Position(page: nat, offset: nat)

  datatype Pages = Pages(file: seq<seq<int>>, full: seq<Page>, current: Page)

  /** The data of a page: written, waiting, or being filled. */
  function PageData(v: Pages, pid: nat): seq<int>
    requires pid <= |v.file| + |v.full|
  {
    if pid < |v.file| then v.file[pid]
    else if pid < |v.file| + |v.full| then v.full[pid - |v.file|].inmemdata
    else v.current.inmemdata
  }

  /** A record stands at a position, in a part of its page that is not written again. */
  ghost predicate Held(v: Pages, pos: Position, rec: seq<int>) {
    && (pos.page < |v.file| + |v.full|
        || (pos.page == |v.file| + |v.full| && pos.offset + |rec| <= v.current.freespace))
    && pos.offset + |rec| <= |PageData(v, pos.page)|
    && PageData(v, pos.page)[pos.offset..pos.offset + |rec|] == rec
  }

  /** Every record that was held is held. */
  ghost predicate Keeps(v: Pages, v': Pages) {
    forall pos, rec {:trigger Held(v', pos, rec)} | Held(v, pos, rec) :: Held(v', pos, rec)
  }

  /** Page ids are consecutive over the file, the waiting pages and the current one;
      the current page has room for the records it still takes. */
  ghost predicate GoodPages(v: Pages, pageSize: nat, recordNum: nat, width: nat) {
    && width > 0 && recordNum > 0 && Span(recordNum, width) <= pageSize
    && |v.current.inmemdata| == pageSize && 0 <= v.current.recordnum <= recordNum
    && v.current.freespace + Span(v.current.recordnum, width) <= pageSize
    && v.current.pageid == |v.file| + |v.full|
    && (forall k {:trigger v.full[k]} | 0 <= k < |v.full| ::
          v.full[k].pageid == |v.file| + k && |v.full[k].inmemdata| == pageSize)
    && (forall p | 0 <= p < |v.file| :: |v.file[p]| == pageSize)
  }

  // ---- what the steps do to the pages

  /** The current page joins the waiting ones and an empty one takes its place. */
  function Turned(v: Pages, next: Page): Pages {
    Pages(v.file, v.full + [v.current.(recordnum := v.current.recordnum - 1)], next)
  }

  lemma TurnedKeeps(v: Pages, next: Page)
    ensures Keeps(v, Turned(v, next))
  {
    var w := Turned(v, next);
    forall pos, rec | Held(v, pos, rec) ensures Held(w, pos, rec) {
      assert PageData(w, pos.page) == PageData(v, pos.page);
    }
  }

  function Put(p: Page, rec: seq<int>): Page
    requires p.freespace + |rec| <= |p.inmemdata|
  {
    p.(inmemdata := p.inmemdata[..p.freespace] + rec + p.inmemdata[p.freespace + |rec|..],
       freespace := p.freespace + |rec|, recordnum := p.recordnum - 1)
  }

  function WithRecord(v: Pages, rec: seq<int>): Pages
    requires v.current.freespace + |rec| <= |v.current.inmemdata|
  {
    v.(current := Put(v.current, rec))
  }

  lemma WithRecordKeeps(v: Pages, rec: seq<int>)
    requires v.current.freespace + |rec| <= |v.current.inmemdata|
    ensures Keeps(v, WithRecord(v, rec))
    ensures Held(WithRecord(v, rec), Position(|v.file| + |v.full|, v.current.freespace), rec)
  {
    var w := WithRecord(v, rec);
    var d, e := v.current.inmemdata, w.current.inmemdata;
    assert e[v.current.freespace..v.current.freespace + |rec|] == rec;
    forall pos, r | Held(v, pos, r) ensures Held(w, pos, r) {
      if pos.page == |v.file| + |v.full| {
        assert e[..v.current.freespace] == d[..v.current.freespace];
        assert e[pos.offset..pos.offset + |r|] == e[..v.current.freespace][pos.offset..pos.offset + |r|];
      } else {
        assert PageData(w, pos.page) == PageData(v, pos.page);
      }
    }
  }

  function DataOf(pages: seq<Page>): (d: seq<seq<int>>)
    ensures |d| == |pages|
  {
    seq(|pages|, i requires 0 <= i < |pages| => pages[i].inmemdata)
  }

  function Flushed(v: Pages): Pages {
    Pages(v.file + DataOf(v.full), [], v.current)
  }

  lemma FlushedKeeps(v: Pages)
    ensures Keeps(v, Flushed(v))
  {
    var w := Flushed(v);
    forall pos, rec | Held(v, pos, rec) ensures Held(w, pos, rec) {
      assert PageData(w, pos.page) == PageData(v, pos.page);
    }
  }

  /** The key and then the values, one after the other. */
  method WriteInto(p: Page, ekey: int, edata: seq<int>) returns (q: Page)
    requires p.freespace + 1 + |edata| <= |p.inmemdata|
    ensures q == Put(p, [ekey] + edata)
  {
    ghost var rec := [ekey] + edata;
    var data, at := p.inmemdata[p.freespace := ekey], p.freespace + 1;
    for vi := 0 to |edata|
      invariant at == p.freespace + 1 + vi && |data| == |p.inmemdata|
      invariant data == p.inmemdata[..p.freespace] + rec[..1 + vi] + p.inmemdata[at..]
    {
      data, at := data[at := edata[vi]], at + 1;
    }
    assert rec[..1 + |edata|] == rec;
    q := Page(p.pageid, data, at, p.recordnum - 1);
  }

  lemma DataOfSplit(pages: seq<Page>, m: nat, n: nat)
    requires m <= n <= |pages|
    ensures DataOf(pages[..m]) + DataOf(pages[m..n]) == DataOf(pages[..n])
  {
  }

  class FilmMemory {
    const pageSize: nat
    const recordNum: nat
    const valueSize: nat
    const blockNum: nat
    var inpage: Page
    var inmempages: seq<Page>
    var inpageid: nat
    var evicttable: seq<Position>
    var file: seq<seq<int>>
    var nextpageid: nat

    ghost function View(): Pages
      reads this
    {
      Pages(file, inmempages, inpage)
    }

    /** How many records the waiting pages and the current one have taken, up to a constant. */
    ghost function Taken(): int
      reads this
    {
      Span(|inmempages|, recordNum) - inpage.recordnum
    }

    /** Offsets fit 16 bits, and a block of pages to write is not empty. */
    ghost predicate Valid()
      reads this
    {
      && GoodPages(View(), pageSize, recordNum, valueSize + 1)
      && nextpageid == |file| && inpageid == inpage.pageid + 1
      && blockNum > 0 && pageSize <= 0x1_0000
    }

    constructor (pageSize: nat, recordNum: nat, valueSize: nat)
      requires recordNum > 0 && Span(recordNum, valueSize + 1) <= pageSize <= 0x1_0000
      ensures Valid() && evicttable == [] && file == [] && inmempages == []
      ensures this.pageSize == pageSize && this.recordNum == recordNum && this.valueSize == valueSize
    {
      this.pageSize, this.recordNum, this.valueSize := pageSize, recordNum, valueSize;
      SpanPositive(recordNum, valueSize + 1);
      blockNum := 1024 * 1024 / (pageSize * 8);
      BlocksFit(pageSize);
      inpage := Page(0, seq(pageSize, _ => 0), 0, recordNum);
      inmempages, inpageid, evicttable, file, nextpageid := [], 1, [], [], 0;
    }

    method CreateInMemPage()
      modifies this`inpage, this`inpageid
      ensures inpage.pageid == old(inpageid) && |inpage.inmemdata| == pageSize
      ensures inpage.freespace == 0 && inpage.recordnum == recordNum && inpageid == old(inpageid) + 1
    {
      inpage := Page(inpageid, seq(pageSize, _ => 0), 0, recordNum);
      inpageid := inpageid + 1;
    }

    /** A full page joins the waiting ones; the current page then takes a record. */
    method MakeRoom()
      requires Valid()
      modifies this`inpage, this`inmempages, this`inpageid
      ensures Valid() && Keeps(old(View()), View()) && inpage.recordnum > 0
      ensures Taken() == old(Taken())
    {
      ghost var v := View();
      if inpage.recordnum == 0 {
        SpanStep(|inmempages|, recordNum);
        inmempages := inmempages + [inpage.(recordnum := inpage.recordnum - 1)];
        CreateInMemPage();
        TurnedKeeps(v, inpage);
        assert View() == Turned(v, inpage);
      }
    }

    /** A record goes to the current page, or to a new one if that is full. Every record
        evicted before stays where its position says. */
    method AppendRecord(ekey: int, edata: seq<int>) returns (pos: Position)
      requires Valid() && |edata| == valueSize
      modifies this`inpage, this`inmempages, this`inpageid
      ensures Valid() && Keeps(old(View()), View()) && Held(View(), pos, [ekey] + edata)
      ensures Taken() == old(Taken()) + 1
    {
      MakeRoom();
      pos := Place(ekey, edata);
    }

    /** The record goes to the free space of a page that still takes one. */
    method Place(ekey: int, edata: seq<int>) returns (pos: Position)
      requires Valid() && |edata| == valueSize && inpage.recordnum > 0
      modifies this`inpage
      ensures Valid() && Keeps(old(View()), View()) && Held(View(), pos, [ekey] + edata)
      ensures Taken() == old(Taken()) + 1
    {
      ghost var w, rec := View(), [ekey] + edata;
      SpanStep(inpage.recordnum - 1, valueSize + 1);
      WithRecordKeeps(w, rec);
      pos := Position(inpage.pageid, inpage.freespace);
      inpage := WriteInto(inpage, ekey, edata);
      assert View() == WithRecord(w, rec);
    }

    /** `evictkeytoinpage` with a fresh entry of the position table. */
    method EvictKeyToInPage(ekey: int, edata: seq<int>) returns (cell: nat)
      requires Valid() && |edata| == valueSize
      modifies this
      ensures Valid() && Keeps(old(View()), View()) && Taken() == old(Taken()) + 1
      ensures cell == |old(evicttable)| && |evicttable| == cell + 1 && evicttable[..cell] == old(evicttable)
      ensures Held(View(), evicttable[cell], [ekey] + edata)
    {
      var pos := AppendRecord(ekey, edata);
      cell := |evicttable|;
      evicttable := evicttable + [pos];
    }

    /** `evictkeytoinpage` with a recycled entry of the position table. */
    method EvictKeyToInPageAt(ekey: int, edata: seq<int>, cell: nat)
      requires Valid() && |edata| == valueSize && cell < |evicttable|
      modifies this
      ensures Valid() && Keeps(old(View()), View()) && Taken() == old(Taken()) + 1
      ensures |evicttable| == |old(evicttable)|
      ensures forall c | 0 <= c < |evicttable| && c != cell :: evicttable[c] == old(evicttable)[c]
      ensures Held(View(), evicttable[cell], [ekey] + edata)
    {
      var pos := AppendRecord(ekey, edata);
      evicttable := evicttable[cell := pos];
    }

    /** Writes the waiting pages behind those in the file, a block at a time. The page
        counter has 16 bits. */
    method RuntimeEvictPagesToDisk() returns (num: nat)
      requires Valid() && |inmempages| < 0x1_0000
      modifies this
      ensures Valid() && View() == Flushed(old(View())) && Keeps(old(View()), View())
      ensures num == |old(inmempages)| && evicttable == old(evicttable)
    {
      ghost var v := View();
      var pnum: nat := |inmempages|;
      num := |inmempages|;
      var i: nat, done: nat := 0, 0;
      while pnum > blockNum
        invariant Frozen(v, done, pnum) && file == v.file + DataOf(v.full[..done])
        invariant evicttable == old(evicttable) && nextpageid == |v.file| && inpageid == old(inpageid)
      {
        WriteBlock(done, blockNum, v);
        pnum, i, done := pnum - blockNum, i + 1, done + blockNum;
      }
      WriteBlock(done, pnum, v);
      assert v.full[..done + pnum] == v.full;
      nextpageid := nextpageid + num;
      inmempages := [];
      FlushedKeeps(v);
    }

    /** The waiting pages are still those of `v`, of which `done` are written and `left` are not. */
    ghost predicate Frozen(v: Pages, done: nat, left: nat)
      reads this
    {
      inmempages == v.full && inpage == v.current && done + left == |v.full|
    }

    method WriteBlock(done: nat, count: nat, ghost v: Pages)
      requires inmempages == v.full && done + count <= |v.full| && file == v.file + DataOf(v.full[..done])
      modifies this`file
      ensures file == v.file + DataOf(v.full[..done + count])
    {
      var buf: seq<seq<int>> := [];
      for k := 0 to count
        invariant buf == DataOf(v.full[done..done + k])
      {
        buf := buf + [inmempages[done + k].inmemdata];
      }
      file := file + buf;
      DataOfSplit(v.full, done, done + count);
    }

    /** `odirectreadfromdisk`, or the read from the current page: the record at a
        position that is not on a page waiting to be written. */
    method ReadRecord(pos: Position, ghost rec: seq<int>) returns (key: int, data: seq<int>)
      requires Valid() && Held(View(), pos, rec) && |rec| == valueSize + 1
      requires pos.page < |file| || pos.page == inpage.pageid
      ensures [key] + data == rec
    {
      var page := if pos.page == inpage.pageid then inpage.inmemdata else file[pos.page];
      assert page == PageData(View(), pos.page);
      ghost var stored := page[pos.offset..pos.offset + |rec|];
      assert stored[0] == page[pos.offset];
      key := page[pos.offset];
      data := [];
      for ki := 0 to valueSize
        invariant data == rec[1..1 + ki]
      {
        assert stored[1 + ki] == page[pos.offset + 1 + ki];
        data := data + [page[pos.offset + 1 + ki]];
      }
    }
  }

  lemma SpanPositive(n: int, w: nat)
    requires n >= 0 && w > 0
    ensures n > 0 ==> Span(n, w) >= w
  {
  }

  lemma SpanStep(n: int, w: nat)
    requires n >= 0
    ensures Span(n + 1, w) == Span(n, w) + w
  {
  }

  lemma BlocksFit(pageSize: nat)
    requires 0 < pageSize <= 0x1_0000
    ensures 1024 * 1024 / (pageSize * 8) > 0
  {
    var d := pageSize * 8;
    var q := 1024 * 1024 / d;
    assert 1024 * 1024 == d * q + 1024 * 1024 % d;
    if q == 0 { MulMono(0, q, d); }
  }
}
