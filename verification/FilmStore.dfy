/** Eviction and read-back in FILM: leaves whose slots are in memory or evicted, two
    levels of least-recently-used order, and positions that are recycled. */
module FilmStore {
  import opened LruList
  import opened FilmMemory
  import opened PageStore

  /** A slot refers to a record in memory, or to an entry of the position table. */
  datatype Slot = InMemory(payload: seq<int>) | Evicted(cell: nat)

  /** `intrachain` lists the slots in memory, the most recently used first. */
  datatype Leaf = Leaf(startkey: int, slotkey: seq<int>, slots: seq<Slot>, intrachain: seq<nat>)

  /** Which slot an entry of the position table belongs to. */
  datatype Owner = Free | Owned(leaf: nat, slot: nat)

  ghost predicate LeafOk(l: Leaf) {
    && |l.slots| == |l.slotkey| && NoDuplicates(l.intrachain)
    && forall k: nat {:trigger k in l.intrachain} :: k in l.intrachain <==> k < |l.slots| && l.slots[k].InMemory?
  }

  /** A slot holds its payload, or owns an entry whose position holds its key and payload. */
  ghost predicate SlotOk(slot: Slot, i: nat, k: nat, rec: seq<int>, table: seq<Position>, owner: seq<Owner>, v: Pages)
    requires |rec| > 0
  {
    match slot
    case InMemory(p) => p == rec[1..]
    case Evicted(c) => c < |table| == |owner| && owner[c] == Owned(i, k) && Held(v, table[c], rec)
  }

  /** The record of every slot, as it was stored first: its key and its payload. */
  type Records = r: seq<seq<seq<int>>> | forall i, k | 0 <= i < |r| && 0 <= k < |r[i]| :: |r[i][k]| > 0

  ghost predicate SlotsOk(leaf: Leaf, i: nat, recs: seq<seq<int>>, table: seq<Position>, owner: seq<Owner>, v: Pages)
    requires forall k | 0 <= k < |recs| :: |recs[k]| > 0
  {
    && |leaf.slots| == |leaf.slotkey| == |recs|
    && forall k {:trigger leaf.slots[k]} | 0 <= k < |recs| ::
         leaf.slotkey[k] == recs[k][0] && SlotOk(leaf.slots[k], i, k, recs[k], table, owner, v)
  }

  ghost predicate LeavesOk(leaves: seq<Leaf>, records: Records, table: seq<Position>, owner: seq<Owner>, v: Pages) {
    && |leaves| == |records|
    && forall i {:trigger leaves[i]} | 0 <= i < |leaves| ::
         LeafOk(leaves[i]) && SlotsOk(leaves[i], i, records[i], table, owner, v)
  }

  /** The leaf list holds the leaves with records in memory. */
  ghost predicate ChainOk(interchain: seq<nat>, leaves: seq<Leaf>) {
    && NoDuplicates(interchain)
    && forall i: nat {:trigger i in interchain} :: i in interchain <==> i < |leaves| && |leaves[i].intrachain| > 0
  }

  /** Entries waiting to be used again belong to no slot. */
  ghost predicate PossOk(evictPoss: seq<nat>, owner: seq<Owner>) {
    && NoDuplicates(evictPoss)
    && forall j {:trigger evictPoss[j]} | 0 <= j < |evictPoss| :: evictPoss[j] < |owner| && owner[evictPoss[j]] == Free
  }

  function InMemoryCount(leaves: seq<Leaf>): nat {
    if leaves == [] then 0 else InMemoryCount(leaves[..|leaves| - 1]) + |leaves[|leaves| - 1].intrachain|
  }

  function SlotCount(leaves: seq<Leaf>): nat {
    if leaves == [] then 0 else SlotCount(leaves[..|leaves| - 1]) + |leaves[|leaves| - 1].slotkey|
  }

  // ---- changing one leaf

  lemma {:induction false} CountsAfter(leaves: seq<Leaf>, i: nat, l: Leaf)
    requires i < |leaves|
    ensures InMemoryCount(leaves[i := l]) + |leaves[i].intrachain| == InMemoryCount(leaves) + |l.intrachain|
    ensures SlotCount(leaves[i := l]) + |leaves[i].slotkey| == SlotCount(leaves) + |l.slotkey|
  {
    var n := |leaves| - 1;
    if i < n {
      CountsAfter(leaves[..n], i, l);
      assert leaves[i := l][..n] == leaves[..n][i := l];
    } else {
      assert leaves[i := l][..n] == leaves[..n];
    }
  }

  lemma {:induction false} CountsBound(leaves: seq<Leaf>)
    requires forall i {:trigger leaves[i]} | 0 <= i < |leaves| :: LeafOk(leaves[i])
    ensures InMemoryCount(leaves) <= SlotCount(leaves)
  {
    if leaves != [] {
      var l := leaves[|leaves| - 1];
      CountsBound(leaves[..|leaves| - 1]);
      assert LeafOk(l);
      DistinctBelow(l.intrachain, |l.slots|);
    }
  }

  lemma {:induction false} DistinctBelow(s: seq<nat>, n: nat)
    requires NoDuplicates(s) && forall x | x in s :: x < n
    ensures |s| <= n
  {
    if |s| > 0 {
      assert s[0] in s;
      if i :| 0 <= i < |s| && s[i] == n - 1 {
        WithoutHolds(s, i);
        DistinctBelow(Without(s, i), n - 1);
      } else {
        forall x | x in s ensures x < n - 1 { var j :| 0 <= j < |s| && s[j] == x; }
        DistinctBelow(s, n - 1);
      }
    }
  }

  /** A leaf whose least recently used slot is evicted to the entry `cell`. */
  function EvictTail(l: Leaf, cell: nat): Leaf
    requires |l.intrachain| > 0 && l.intrachain[|l.intrachain| - 1] < |l.slots|
  {
    var n := |l.intrachain| - 1;
    l.(slots := l.slots[l.intrachain[n] := Evicted(cell)], intrachain := l.intrachain[..n])
  }

  /** A leaf whose slot `k` is read back. */
  function Restore(l: Leaf, k: nat, payload: seq<int>): Leaf
    requires k < |l.slots|
  {
    l.(slots := l.slots[k := InMemory(payload)], intrachain := [k] + l.intrachain)
  }

  lemma EvictTailOk(l: Leaf, cell: nat)
    requires LeafOk(l) && |l.intrachain| > 0
    ensures var k := l.intrachain[|l.intrachain| - 1];
      k < |l.slots| && l.slots[k].InMemory? && LeafOk(EvictTail(l, cell))
  {
    var n := |l.intrachain| - 1;
    var k := l.intrachain[n];
    assert k in l.intrachain;
    ButLastHolds(l.intrachain);
    var m := EvictTail(l, cell);
    forall x: nat ensures x in m.intrachain <==> x < |m.slots| && m.slots[x].InMemory? {
      assert x in m.intrachain <==> x in l.intrachain && x != k;
    }
  }

  lemma RestoreOk(l: Leaf, k: nat, payload: seq<int>)
    requires LeafOk(l) && k < |l.slots| && l.slots[k].Evicted?
    ensures LeafOk(Restore(l, k, payload))
  {
    assert k !in l.intrachain;
    var m := Restore(l, k, payload);
    forall x: nat ensures x in m.intrachain <==> x < |m.slots| && m.slots[x].InMemory? {
      assert x in m.intrachain <==> x in l.intrachain || x == k;
    }
  }

  /** Evicting one slot to a free or new entry keeps every slot's record. */
  lemma EvictKeeps(leaves: seq<Leaf>, records: Records, table: seq<Position>, table': seq<Position>,
                   owner: seq<Owner>, owner': seq<Owner>, v: Pages, v': Pages, i: nat, cell: nat)
    requires LeavesOk(leaves, records, table, owner, v) && Keeps(v, v') && |table| == |owner|
    requires i < |leaves| && |leaves[i].intrachain| > 0
    requires var k := leaves[i].intrachain[|leaves[i].intrachain| - 1];
      && cell < |table'| == |owner'| && |table| <= |table'| && owner'[cell] == Owned(i, k)
      && (cell < |owner| ==> owner[cell] == Free)
      && (forall c | 0 <= c < |table| && c != cell :: table'[c] == table[c] && owner'[c] == owner[c])
      && k < |records[i]| && Held(v', table'[cell], records[i][k])
    ensures leaves[i].intrachain[|leaves[i].intrachain| - 1] < |leaves[i].slots|
    ensures LeavesOk(leaves[i := EvictTail(leaves[i], cell)], records, table', owner', v')
  {
    EvictTailOk(leaves[i], cell);
    var k := leaves[i].intrachain[|leaves[i].intrachain| - 1];
    var leaves' := leaves[i := EvictTail(leaves[i], cell)];
    forall j | 0 <= j < |leaves'| ensures LeafOk(leaves'[j]) && SlotsOk(leaves'[j], j, records[j], table', owner', v') {
      assert SlotsOk(leaves[j], j, records[j], table, owner, v);
      forall s | 0 <= s < |records[j]|
        ensures SlotOk(leaves'[j].slots[s], j, s, records[j][s], table', owner', v')
      {
        assert SlotOk(leaves[j].slots[s], j, s, records[j][s], table, owner, v);
      }
    }
  }

  /** Reading a slot back frees its entry and keeps every slot's record. */
  lemma RestoreKeeps(leaves: seq<Leaf>, records: Records, table: seq<Position>, owner: seq<Owner>, v: Pages,
                     i: nat, k: nat)
    requires LeavesOk(leaves, records, table, owner, v)
    requires i < |leaves| && k < |leaves[i].slots| && leaves[i].slots[k].Evicted?
    ensures k < |records[i]| && leaves[i].slots[k].cell < |owner|
    ensures LeavesOk(leaves[i := Restore(leaves[i], k, records[i][k][1..])], records, table,
                     owner[leaves[i].slots[k].cell := Free], v)
  {
    assert SlotsOk(leaves[i], i, records[i], table, owner, v);
    var c := leaves[i].slots[k].cell;
    assert SlotOk(leaves[i].slots[k], i, k, records[i][k], table, owner, v);
    RestoreOk(leaves[i], k, records[i][k][1..]);
    var leaves', owner' := leaves[i := Restore(leaves[i], k, records[i][k][1..])], owner[c := Free];
    forall j | 0 <= j < |leaves'| ensures LeafOk(leaves'[j]) && SlotsOk(leaves'[j], j, records[j], table, owner', v) {
      assert SlotsOk(leaves[j], j, records[j], table, owner, v);
      forall s | 0 <= s < |records[j]| ensures SlotOk(leaves'[j].slots[s], j, s, records[j][s], table, owner', v) {
        assert SlotOk(leaves[j].slots[s], j, s, records[j][s], table, owner, v);
      }
    }
  }

  /** Moving a slot to the front of its leaf's order changes no record. */
  lemma TouchKeeps(leaves: seq<Leaf>, records: Records, table: seq<Position>, owner: seq<Owner>, v: Pages, i: nat, p: nat)
    requires LeavesOk(leaves, records, table, owner, v) && i < |leaves| && p < |leaves[i].intrachain|
    ensures LeavesOk(leaves[i := leaves[i].(intrachain := ToFront(leaves[i].intrachain, p))], records, table, owner, v)
  {
    ToFrontHolds(leaves[i].intrachain, p);
    var leaves' := leaves[i := leaves[i].(intrachain := ToFront(leaves[i].intrachain, p))];
    forall j | 0 <= j < |leaves'| ensures LeafOk(leaves'[j]) && SlotsOk(leaves'[j], j, records[j], table, owner, v) {
      assert LeafOk(leaves[j]) && SlotsOk(leaves[j], j, records[j], table, owner, v);
      assert leaves'[j].slots == leaves[j].slots && leaves'[j].slotkey == leaves[j].slotkey;
      forall s | 0 <= s < |records[j]| ensures SlotOk(leaves'[j].slots[s], j, s, records[j][s], table, owner, v) {
        assert SlotOk(leaves[j].slots[s], j, s, records[j][s], table, owner, v);
      }
    }
  }

  // ---- the list of leaves

  function IndexOf(s: seq<nat>, x: nat): (p: nat)
    requires x in s
    ensures p < |s| && s[p] == x
  {
    if s[|s| - 1] == x then |s| - 1 else IndexOf(s[..|s| - 1], x)
  }

  /** `put`: the leaf moves, or is added, to the front. */
  function PutLeaf(interchain: seq<nat>, i: nat): (c: seq<nat>)
    ensures |c| > 0 && c[0] == i
  {
    if i in interchain then ToFront(interchain, IndexOf(interchain, i)) else [i] + interchain
  }

  lemma PutLeafOk(interchain: seq<nat>, leaves: seq<Leaf>, i: nat, l: Leaf)
    requires ChainOk(interchain, leaves) && i < |leaves| && |l.intrachain| > 0
    ensures ChainOk(PutLeaf(interchain, i), leaves[i := l])
  {
    if i in interchain { ToFrontHolds(interchain, IndexOf(interchain, i)); }
    var c := PutLeaf(interchain, i);
    forall j: nat ensures j in c <==> j < |leaves| && |leaves[i := l][j].intrachain| > 0 {
      assert j in c <==> j in interchain || j == i;
    }
  }

  /** `get_tail`: the leaf leaves the list with its last record in memory. */
  function GetTail(interchain: seq<nat>, lastRecord: bool): seq<nat>
    requires |interchain| > 0
  {
    if lastRecord then interchain[..|interchain| - 1] else interchain
  }

  lemma LastLeaf(interchain: seq<nat>, leaves: seq<Leaf>)
    requires ChainOk(interchain, leaves) && |interchain| > 0
    ensures var i := interchain[|interchain| - 1]; i < |leaves| && |leaves[i].intrachain| > 0
  {
    assert interchain[|interchain| - 1] in interchain;
  }

  lemma GetTailOk(interchain: seq<nat>, leaves: seq<Leaf>, i: nat, l: Leaf)
    requires ChainOk(interchain, leaves) && |interchain| > 0 && i == interchain[|interchain| - 1] && i < |leaves|
    requires |leaves[i].intrachain| > 0 && |l.intrachain| == |leaves[i].intrachain| - 1
    ensures ChainOk(GetTail(interchain, |leaves[i].intrachain| == 1), leaves[i := l])
  {
    var n := |interchain| - 1;
    var c := GetTail(interchain, |leaves[i].intrachain| == 1);
    WithoutHolds(interchain, n);
    assert interchain[..n] == Without(interchain, n);
    forall j: nat ensures j in c <==> j < |leaves| && |leaves[i := l][j].intrachain| > 0 {
      assert j in interchain <==> j < |leaves| && |leaves[j].intrachain| > 0;
    }
  }

  /** With a record in memory anywhere, some leaf is in the list. */
  lemma {:induction false} SomeLeaf(interchain: seq<nat>, leaves: seq<Leaf>, n: nat)
    requires ChainOk(interchain, leaves) && n <= |leaves| && InMemoryCount(leaves[..n]) > 0
    ensures |interchain| > 0
  {
    assert leaves[..n][..n - 1] == leaves[..n - 1];
    if |leaves[n - 1].intrachain| > 0 {
      assert n - 1 in interchain;
    } else {
      SomeLeaf(interchain, leaves, n - 1);
    }
  }

  class FilmStore {
    const memory: FilmMemory
    ghost const records: Records
    var leaves: seq<Leaf>
    var interchain: seq<nat>
    var evictPoss: seq<nat>
    var inkeynum: nat
    var exkeynum: nat
    ghost var owner: seq<Owner>

    /** Every slot yields its record; the orders and the entries in use agree with the slots. */
    ghost predicate Sound()
      reads this, memory
    {
      && memory.Valid() && |owner| == |memory.evicttable|
      && LeavesOk(leaves, records, memory.evicttable, owner, memory.View())
      && ChainOk(interchain, leaves)
      && forall i, k | 0 <= i < |records| && 0 <= k < |records[i]| :: |records[i][k]| == memory.valueSize + 1
    }

    /** Between operations the counters are exact, no page waits to be written, and the
        table has one entry for each evicted record or recycled position. */
    ghost predicate Valid()
      reads this, memory
    {
      && Sound() && PossOk(evictPoss, owner) && memory.inmempages == []
      && inkeynum == InMemoryCount(leaves) && inkeynum + exkeynum == SlotCount(leaves)
      && |memory.evicttable| == exkeynum + |evictPoss| && |evictPoss| <= inkeynum
    }

    /** An index whose records are all in memory. */
    constructor (memory: FilmMemory, leaves: seq<Leaf>, interchain: seq<nat>, ghost records: Records)
      requires memory.Valid() && memory.evicttable == [] && memory.inmempages == []
      requires LeavesOk(leaves, records, [], [], memory.View()) && ChainOk(interchain, leaves)
      requires InMemoryCount(leaves) == SlotCount(leaves)
      requires forall i, k | 0 <= i < |records| && 0 <= k < |records[i]| :: |records[i][k]| == memory.valueSize + 1
      ensures Valid() && this.memory == memory && this.records == records
    {
      this.memory, this.leaves, this.interchain, this.records := memory, leaves, interchain, records;
      evictPoss, owner := [], [];
      inkeynum, exkeynum := InMemoryCount(leaves), 0;
    }

    /** Evicts the least recently used record of the least recently used leaf, to a fresh
        entry or to a free one. */
    method EvictOne(recycled: bool, freeCell: nat)
      requires Sound() && InMemoryCount(leaves) > 0
      requires recycled ==> freeCell < |owner| && owner[freeCell] == Free
      modifies this`leaves, this`interchain, this`owner, memory
      ensures Sound() && InMemoryCount(leaves) == old(InMemoryCount(leaves)) - 1 && SlotCount(leaves) == old(SlotCount(leaves))
      ensures |owner| == |old(owner)| + (if recycled then 0 else 1)
      ensures forall c | 0 <= c < |old(owner)| && !(recycled && c == freeCell) :: owner[c] == old(owner)[c]
      ensures memory.Taken() == old(memory.Taken()) + 1
    {
      assert leaves[..|leaves|] == leaves;
      SomeLeaf(interchain, leaves, |leaves|);
      LastLeaf(interchain, leaves);
      var i := interchain[|interchain| - 1];
      var l := leaves[i];
      ghost var chain := interchain;
      interchain := GetTail(interchain, |l.intrachain| == 1);
      EvictTailOk(l, 0);
      var k := l.intrachain[|l.intrachain| - 1];
      var payload := l.slots[k].payload;
      assert SlotsOk(l, i, records[i], memory.evicttable, owner, memory.View());
      assert SlotOk(l.slots[k], i, k, records[i][k], memory.evicttable, owner, memory.View());
      assert [l.slotkey[k]] + payload == records[i][k];
      ghost var table, before, v := memory.evicttable, owner, memory.View();
      var cell := WriteOut(recycled, freeCell, l.slotkey[k], payload, i, k);
      EvictKeeps(leaves, records, table, memory.evicttable, before, owner, v, memory.View(), i, cell);
      GetTailOk(chain, leaves, i, EvictTail(l, cell));
      CountsAfter(leaves, i, EvictTail(l, cell));
      leaves := leaves[i := EvictTail(l, cell)];
    }

    /** The record goes to the page being filled, and its position to an entry of the table. */
    method WriteOut(recycled: bool, freeCell: nat, key: int, payload: seq<int>, ghost i: nat, ghost k: nat)
      returns (cell: nat)
      requires memory.Valid() && |owner| == |memory.evicttable| && |payload| == memory.valueSize
      requires recycled ==> freeCell < |owner|
      modifies this`owner, memory
      ensures memory.Valid() && Keeps(old(memory.View()), memory.View()) && memory.Taken() == old(memory.Taken()) + 1
      ensures cell == if recycled then freeCell else |old(owner)|
      ensures |owner| == |memory.evicttable| == |old(owner)| + if recycled then 0 else 1
      ensures owner[cell] == Owned(i, k) && Held(memory.View(), memory.evicttable[cell], [key] + payload)
      ensures forall c | 0 <= c < |old(owner)| && c != cell ::
        memory.evicttable[c] == old(memory.evicttable)[c] && owner[c] == old(owner)[c]
    {
      cell := freeCell;
      if recycled {
        memory.EvictKeyToInPageAt(key, payload, cell);
        owner := owner[cell := Owned(i, k)];
      } else {
        cell := memory.EvictKeyToInPage(key, payload);
        owner := owner + [Owned(i, k)];
      }
    }

    /** Moving a slot that is in memory to the front of both orders. */
    method Touch(i: nat, p: nat)
      requires Sound() && i < |leaves| && p < |leaves[i].intrachain|
      modifies this`leaves, this`interchain
      ensures Sound() && interchain == PutLeaf(old(interchain), i)
      ensures leaves == old(leaves)[i := old(leaves)[i].(intrachain := ToFront(old(leaves)[i].intrachain, p))]
      ensures InMemoryCount(leaves) == old(InMemoryCount(leaves)) && SlotCount(leaves) == old(SlotCount(leaves))
    {
      var l := leaves[i].(intrachain := ToFront(leaves[i].intrachain, p));
      TouchKeeps(leaves, records, memory.evicttable, owner, memory.View(), i, p);
      PutLeafOk(interchain, leaves, i, l);
      CountsAfter(leaves, i, l);
      interchain := PutLeaf(interchain, i);
      leaves := leaves[i := l];
    }

    /** `Find` for the slot the search returned: the payload stored first, from memory, from
        the page being filled, or from the file. The slot is then the most recently used
        one in memory, and a position it had on disk waits to be used again. */
    method Find(i: nat, k: nat) returns (payload: seq<int>)
      requires Valid() && i < |leaves| && k < |leaves[i].slots|
      modifies this
      ensures Valid() && k < |records[i]| && payload == records[i][k][1..]
      ensures i < |leaves| && k < |leaves[i].slots| && leaves[i].slots[k] == InMemory(payload)
      ensures interchain == PutLeaf(old(interchain), i) && |leaves[i].intrachain| > 0 && leaves[i].intrachain[0] == k
      ensures inkeynum + exkeynum == old(inkeynum + exkeynum)
      ensures inkeynum == old(inkeynum) + (if old(leaves[i].slots[k].Evicted?) then 1 else 0)
      ensures evictPoss == old(if leaves[i].slots[k].Evicted? then evictPoss + [leaves[i].slots[k].cell] else evictPoss)
    {
      var l := leaves[i];
      assert SlotsOk(l, i, records[i], memory.evicttable, owner, memory.View());
      assert SlotOk(l.slots[k], i, k, records[i][k], memory.evicttable, owner, memory.View());
      if l.slots[k].InMemory? {
        payload := l.slots[k].payload;
        assert k in l.intrachain;
        Touch(i, IndexOf(l.intrachain, k));
      } else {
        payload := ReadBack(i, k);
      }
    }

    /** Reads an evicted record back and recycles its position. */
    method ReadBack(i: nat, k: nat) returns (payload: seq<int>)
      requires Valid() && i < |leaves| && k < |leaves[i].slots| && leaves[i].slots[k].Evicted?
      modifies this
      ensures Valid() && k < |records[i]| && payload == records[i][k][1..]
      ensures leaves == old(leaves)[i := Restore(old(leaves)[i], k, payload)]
      ensures interchain == PutLeaf(old(interchain), i) && evictPoss == old(evictPoss) + [old(leaves[i].slots[k].cell)]
      ensures inkeynum == old(inkeynum) + 1 && exkeynum == old(exkeynum) - 1
    {
      var l := leaves[i];
      assert SlotsOk(l, i, records[i], memory.evicttable, owner, memory.View());
      assert SlotOk(l.slots[k], i, k, records[i][k], memory.evicttable, owner, memory.View());
      var cell := l.slots[k].cell;
      var key;
      key, payload := memory.ReadRecord(memory.evicttable[cell], records[i][k]);
      assert payload == ([key] + payload)[1..];
      assert exkeynum > 0 by {
        assert k !in l.intrachain;
        EvictedExists(leaves, i, k);
      }
      RestoreKeeps(leaves, records, memory.evicttable, owner, memory.View(), i, k);
      PutLeafOk(interchain, leaves, i, Restore(l, k, payload));
      CountsAfter(leaves, i, Restore(l, k, payload));
      FreedPoss(evictPoss, owner, cell);
      leaves := leaves[i := Restore(l, k, payload)];
      owner := owner[cell := Free];
      interchain := PutLeaf(interchain, i);
      evictPoss := evictPoss + [cell];
      inkeynum, exkeynum := inkeynum + 1, exkeynum - 1;
    }

    /** Evicts a batch to fresh entries and writes the full pages, as the build does while
        memory is short. */
    method FilmTransfer(batch: nat)
      requires Valid() && evictPoss == [] && batch <= inkeynum
      requires batch + memory.recordNum <= Span(0xFFFF, memory.recordNum)
      modifies this, memory
      ensures Valid() && evictPoss == [] && inkeynum == old(inkeynum) - batch && exkeynum == old(exkeynum) + batch
    {
      ghost var taken := memory.Taken();
      for n := 0 to batch
        invariant Sound() && InMemoryCount(leaves) == inkeynum - n && SlotCount(leaves) == old(SlotCount(leaves))
        invariant |owner| == |old(owner)| + n && memory.Taken() == taken + n
        invariant evictPoss == [] && inkeynum == old(inkeynum) && exkeynum == old(exkeynum)
      {
        EvictOne(false, 0);
      }
      Flush(taken, batch);
      inkeynum, exkeynum := inkeynum - batch, exkeynum + batch;
    }

    /** The pages filled by a batch are few enough for the 16-bit counter, and writing them
        moves no record. */
    method Flush(ghost taken: int, ghost batch: nat)
      requires Sound() && memory.Taken() == taken + batch && taken <= 0
      requires batch + memory.recordNum <= Span(0xFFFF, memory.recordNum)
      modifies memory
      ensures Sound() && memory.inmempages == [] && memory.evicttable == old(memory.evicttable)
    {
      FewPages(|memory.inmempages|, memory.recordNum, taken + batch + memory.inpage.recordnum);
      ghost var v := memory.View();
      var _ := memory.RuntimeEvictPagesToDisk();
      SoundLater(leaves, records, memory.evicttable, owner, v, memory.View());
    }

    /** Evicts as many records as positions wait to be used again, to those positions, or
        else a batch to fresh ones. */
    method RuntimeEvictKeyToPage2(batch: nat)
      requires Valid() && (evictPoss == [] ==> batch <= inkeynum)
      requires (if evictPoss != [] then |evictPoss| else batch) + memory.recordNum <= Span(0xFFFF, memory.recordNum)
      modifies this, memory
      ensures Valid() && evictPoss == []
      ensures var n := if old(evictPoss) != [] then |old(evictPoss)| else batch;
        inkeynum == old(inkeynum) - n && exkeynum == old(exkeynum) + n
      ensures old(evictPoss) != [] ==> |memory.evicttable| == |old(memory.evicttable)|
    {
      if |evictPoss| != 0 {
        ghost var taken, poss := memory.Taken(), evictPoss;
        for n := 0 to |evictPoss|
          invariant Sound() && InMemoryCount(leaves) == inkeynum - n && SlotCount(leaves) == old(SlotCount(leaves))
          invariant |owner| == |old(owner)| && memory.Taken() == taken + n
          invariant evictPoss == poss && inkeynum == old(inkeynum) && exkeynum == old(exkeynum)
          invariant forall j {:trigger poss[j]} | n <= j < |poss| :: poss[j] < |owner| && owner[poss[j]] == Free
        {
          assert poss[n] < |owner| && owner[poss[n]] == Free;
          EvictOne(true, evictPoss[n]);
        }
        Flush(taken, |evictPoss|);
        inkeynum, exkeynum := inkeynum - |evictPoss|, exkeynum + |evictPoss|;
        evictPoss := [];
      } else {
        FilmTransfer(batch);
      }
    }

    /** The table of positions never grows beyond the number of records, so that it keeps
        the room reserved for it and references into it stay valid. */
    lemma TableBounded()
      requires Valid()
      ensures |memory.evicttable| <= SlotCount(leaves)
    {
    }
  }

  lemma FreedPoss(evictPoss: seq<nat>, owner: seq<Owner>, cell: nat)
    requires PossOk(evictPoss, owner) && cell < |owner| && owner[cell] != Free
    ensures PossOk(evictPoss + [cell], owner[cell := Free])
  {
  }

  /** An evicted slot shows that not all slots are in memory. */
  lemma EvictedExists(leaves: seq<Leaf>, i: nat, k: nat)
    requires forall j {:trigger leaves[j]} | 0 <= j < |leaves| :: LeafOk(leaves[j])
    requires i < |leaves| && k < |leaves[i].slots| && k !in leaves[i].intrachain
    ensures InMemoryCount(leaves) < SlotCount(leaves)
  {
    var l := leaves[i];
    var l' := l.(slots := l.slots[k := InMemory([])], intrachain := [k] + l.intrachain);
    assert LeafOk(l);
    forall x: nat ensures x in l'.intrachain <==> x < |l'.slots| && l'.slots[x].InMemory? {
      assert x in l'.intrachain <==> x in l.intrachain || x == k;
    }
    var leaves' := leaves[i := l'];
    forall j | 0 <= j < |leaves'| ensures LeafOk(leaves'[j]) {
      assert LeafOk(leaves[j]);
    }
    CountsBound(leaves');
    CountsAfter(leaves, i, l');
  }

  lemma FewPages(m: nat, recordNum: nat, records: int)
    requires recordNum > 0 && Span(m, recordNum) == records && records <= Span(0xFFFF, recordNum)
    ensures m < 0x1_0000
  {
    SpanSum(0xFFFF, 1, recordNum);
    if m >= 0x1_0000 { SpanMono(0x1_0000, m, recordNum); }
  }

  lemma SoundLater(leaves: seq<Leaf>, records: Records, table: seq<Position>, owner: seq<Owner>, v: Pages, v': Pages)
    requires LeavesOk(leaves, records, table, owner, v) && Keeps(v, v')
    ensures LeavesOk(leaves, records, table, owner, v')
  {
    forall j | 0 <= j < |leaves| ensures LeafOk(leaves[j]) && SlotsOk(leaves[j], j, records[j], table, owner, v') {
      assert SlotsOk(leaves[j], j, records[j], table, owner, v);
      forall s | 0 <= s < |records[j]| ensures SlotOk(leaves[j].slots[s], j, s, records[j][s], table, owner, v') {
        assert SlotOk(leaves[j].slots[s], j, s, records[j][s], table, owner, v);
      }
    }
  }
}
