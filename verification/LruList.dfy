/** The least-recently-used lists: doubly linked nodes between two sentinels, the
    most recently used first. */
module LruList {

  // ---- what the operations do to the order of the entries

  function Without<T>(s: seq<T>, i: nat): (t: seq<T>)
    requires i < |s|
    ensures |t| == |s| - 1
  {
    s[..i] + s[i + 1..]
  }

  function ToFront<T>(s: seq<T>, i: nat): (t: seq<T>)
    requires i < |s|
    ensures |t| == |s|
  {
    [s[i]] + Without(s, i)
  }

  ghost predicate NoDuplicates<T>(s: seq<T>) {
    forall i, j | 0 <= i < j < |s| :: s[i] != s[j]
  }

  /** Moving an entry to the front neither loses nor repeats an entry. */
  lemma ToFrontHolds<T>(s: seq<T>, i: nat)
    requires i < |s| && NoDuplicates(s)
    ensures NoDuplicates(ToFront(s, i))
    ensures forall x :: x in ToFront(s, i) <==> x in s
  {
    var t := ToFront(s, i);
    assert s == s[..i] + [s[i]] + s[i + 1..];
  }

  lemma WithoutHolds<T>(s: seq<T>, i: nat)
    requires i < |s| && NoDuplicates(s)
    ensures NoDuplicates(Without(s, i))
    ensures forall x :: x in Without(s, i) <==> x in s && x != s[i]
  {
    assert s == s[..i] + [s[i]] + s[i + 1..];
  }

  lemma WithoutLast<T>(s: seq<T>)
    requires |s| > 0
    ensures Without(s, |s| - 1) == s[..|s| - 1]
  {
  }

  lemma ButLastHolds<T>(s: seq<T>)
    requires |s| > 0 && NoDuplicates(s)
    ensures NoDuplicates(s[..|s| - 1])
    ensures forall x :: x in s[..|s| - 1] <==> x in s && x != s[|s| - 1]
  {
    WithoutHolds(s, |s| - 1);
    WithoutLast(s);
  }

  lemma WithoutInside<T>(s: seq<T>, p: nat)
    requires 1 <= p < |s| - 1 && NoDuplicates(s)
    ensures NoDuplicates(Without(s, p)) && Without(s, p)[0] == s[0] && Without(s, p)[|s| - 2] == s[|s| - 1]
    ensures Without(s, p)[1..|s| - 2] == Without(s[1..|s| - 1], p - 1)
  {
    WithoutHolds(s, p);
  }

  // ---- the linked list

  class Node<K, V> {
    var key: K
    var value: V
    var prev: Node?<K, V>
    var next: Node?<K, V>

    constructor (k: K, v: V)
      ensures key == k && value == v && prev == null && next == null
    {
      key, value, prev, next := k, v, null, null;
    }
  }

  /** From index `from` on, neighbours refer to each other. */
  ghost predicate LinkedFrom<K, V>(s: seq<Node<K, V>>, from: nat)
    reads s
  {
    forall i, j {:trigger s[i], s[j]} | from <= i && j == i + 1 < |s| :: s[i].next == s[j] && s[j].prev == s[i]
  }

  /** The links behind the second node stay when only the first one's `next` and the second one's `prev` change. */
  twostate lemma LinksKept<K, V>(s: seq<Node<K, V>>)
    requires NoDuplicates(s) && old(LinkedFrom(s, 0))
    requires |s| >= 2 && forall n | n in s :: (n == s[0] || n.next == old(n.next)) && (n == s[1] || n.prev == old(n.prev))
    ensures LinkedFrom(s, 1)
  {
    forall i, j | 1 <= i && j == i + 1 < |s| ensures s[i].next == s[j] && s[j].prev == s[i] {
      assert s[i] in s && s[j] in s && s[i] != s[0] && s[j] != s[1];
    }
  }

  /** All links are in place but those between node `p` and its neighbours. */
  ghost predicate LinkedAround<K, V>(s: seq<Node<K, V>>, p: nat)
    reads s
  {
    forall i, j {:trigger s[i], s[j]} | 0 <= i && j == i + 1 < |s| && i != p && j != p ::
      s[i].next == s[j] && s[j].prev == s[i]
  }

  lemma LinkedWithout<K, V>(s: seq<Node<K, V>>, p: nat)
    requires 1 <= p < |s| - 1 && LinkedAround(s, p)
    requires s[p - 1].next == s[p + 1] && s[p + 1].prev == s[p - 1]
    ensures LinkedFrom(Without(s, p), 0)
  {
    var t := Without(s, p);
    forall i, j | 0 <= i && j == i + 1 < |t| ensures t[i].next == t[j] && t[j].prev == t[i] {
      assert t[i] == s[if i < p then i else i + 1] && t[j] == s[if j < p then j else j + 1];
    }
  }

  /** A spine with a new second node. */
  function InFront<T>(s: seq<T>, x: T): (t: seq<T>)
    requires |s| >= 2
    ensures |t| == |s| + 1
  {
    [s[0], x] + s[1..]
  }

  lemma InFrontHolds<T>(s: seq<T>, x: T)
    requires |s| >= 2 && NoDuplicates(s) && x !in s
    ensures NoDuplicates(InFront(s, x)) && InFront(s, x)[|s|] == s[|s| - 1]
    ensures InFront(s, x)[1..|s|] == [x] + s[1..|s| - 1]
  {
  }

  lemma LinkedInFront<K, V>(s: seq<Node<K, V>>, node: Node<K, V>)
    requires |s| >= 2 && LinkedFrom(s, 1) && s[0].next == node && node.prev == s[0]
    requires node.next == s[1] && s[1].prev == node
    ensures LinkedFrom(InFront(s, node), 0)
  {
    var t := InFront(s, node);
    forall i, j | 0 <= i && j == i + 1 < |t| ensures t[i].next == t[j] && t[j].prev == t[i] {
      if i >= 1 { assert t[j] == s[j - 1]; }
      if i >= 2 { assert t[i] == s[i - 1]; }
    }
  }

  /** The pointer part that both kinds of list share. */
  class Chain<K, V> {
    var size: nat
    const head: Node<K, V>
    const tail: Node<K, V>
    /** The two sentinels and the nodes between them. */
    ghost var spine: seq<Node<K, V>>

    ghost function Nodes(): seq<Node<K, V>>
      requires |spine| >= 2
      reads this
    {
      spine[1..|spine| - 1]
    }

    /** Neighbours on the spine refer to each other. */
    ghost predicate Linked()
      reads this, spine
    {
      && |spine| >= 2 && spine[0] == head && spine[|spine| - 1] == tail && NoDuplicates(spine)
      && LinkedFrom(spine, 0)
    }

    ghost predicate Valid()
      reads this, spine
    {
      Linked() && size == |Nodes()|
    }

    constructor (k: K, v: V)
      ensures Valid() && Nodes() == [] && fresh(spine)
    {
      var h := new Node(k, v);
      var t := new Node(k, v);
      head, tail, size, spine := h, t, 0, [h, t];
      new;
      h.next, t.prev := t, h;
    }

    /** Links a new node in behind the head. */
    method AppendHead(node: Node<K, V>)
      requires Linked() && node !in spine
      modifies this`spine, node, head, spine[1]
      ensures Linked() && Nodes() == [node] + old(Nodes()) && spine == [head, node] + old(spine[1..])
      ensures node.key == old(node.key) && node.value == old(node.value)
      ensures head.key == old(head.key) && head.value == old(head.value)
      ensures old(spine[1]).key == old(spine[1].key) && old(spine[1]).value == old(spine[1].value)
    {
      ghost var s := spine;
      assert s[0].next == s[1] && s[1].prev == s[0];
      node.prev := head;
      node.next := head.next;
      head.next.prev := node;
      head.next := node;
      LinksKept(s);
      LinkedInFront(s, node);
      InFrontHolds(s, node);
      spine := InFront(s, node);
    }

    /** Takes a node out of the chain. */
    method Unlink(node: Node<K, V>, ghost i: nat)
      requires Linked() && i < |Nodes()| && node == Nodes()[i]
      modifies this`spine, spine[i], spine[i + 2]
      ensures Linked() && Nodes() == Without(old(Nodes()), i) && spine == Without(old(spine), i + 1)
      ensures forall n | n in old(spine) :: n.key == old(n.key) && n.value == old(n.value)
    {
      ghost var s := spine;
      assert node == s[i + 1] && s[i].next == node && node.next == s[i + 2];
      node.prev.next := node.next;
      node.next.prev := node.prev;
      forall a, b | 0 <= a && b == a + 1 < |s| && a != i + 1 && b != i + 1 ensures s[a].next == s[b] && s[b].prev == s[a] {
        assert s[a] != s[i] && s[b] != s[i + 2];
      }
      LinkedWithout(s, i + 1);
      WithoutInside(s, i + 1);
      spine := Without(s, i + 1);
    }

    /** Takes a node out and counts it. */
    method Remove(node: Node<K, V>, ghost i: nat)
      requires Valid() && i < |Nodes()| && node == Nodes()[i]
      modifies this`spine, this`size, spine[i], spine[i + 2]
      ensures Valid() && Nodes() == Without(old(Nodes()), i) && spine == Without(old(spine), i + 1)
      ensures forall n | n in old(spine) :: n.key == old(n.key) && n.value == old(n.value)
    {
      Unlink(node, i);
      size := size - 1;
    }

    method MoveToHead(node: Node<K, V>, ghost i: nat)
      requires Linked() && i < |Nodes()| && node == Nodes()[i]
      modifies this`spine, spine
      ensures Linked() && Nodes() == ToFront(old(Nodes()), i) && |spine| == old(|spine|)
      ensures forall n | n in old(spine) :: n.key == old(n.key) && n.value == old(n.value)
    {
      assert node == spine[i + 1] && spine[i].next == node;
      if node.prev == head {
        assert spine[0] == spine[i];
        assert Nodes() == ToFront(Nodes(), 0);
        return;
      }
      WithoutHolds(spine, i + 1);
      Unlink(node, i);
      AppendHead(node);
    }

    /** Takes out the least recently used node. */
    method PopTail() returns (node: Node<K, V>)
      requires Valid() && |Nodes()| > 0
      modifies this`spine, this`size, spine
      ensures Valid() && node == old(Nodes()[|Nodes()| - 1]) && Nodes() == old(Nodes()[..|Nodes()| - 1])
      ensures spine == Without(old(spine), |old(spine)| - 2)
      ensures forall n | n in old(spine) :: n.key == old(n.key) && n.value == old(n.value)
    {
      ghost var n := |spine|;
      assert spine[n - 2].next == spine[n - 1] && spine[n - 3].next == spine[n - 2];
      node := tail.prev;
      tail.prev.prev.next := tail;
      tail.prev := tail.prev.prev;
      size := size - 1;
      spine := Without(spine, n - 2);
    }

    /** Adds an entry as the most recently used one. */
    method Put(k: K, v: V) returns (node: Node<K, V>)
      requires Valid()
      modifies this`spine, this`size, head, spine[1]
      ensures Valid() && fresh(node) && node.key == k && node.value == v
      ensures Nodes() == [node] + old(Nodes()) && spine == [head, node] + old(spine[1..])
      ensures forall n | n in old(spine) :: n.key == old(n.key) && n.value == old(n.value)
    {
      node := new Node(k, v);
      size := size + 1;
      AppendHead(node);
    }
  }

  function Shifted(k: nat, reached: bool, pos: int): nat {
    if reached && k > pos then k + 1 else k
  }

  /** Shifts the slots beyond `pos` by one, as an insertion into the leaf does. */
  method Modify<V>(chain: Chain<nat, V>, pos: int)
    requires chain.Valid()
    modifies chain.spine
    ensures chain.Valid() && chain.Nodes() == old(chain.Nodes())
    ensures forall n | n in chain.Nodes() ::
              n.key == Shifted(old(n.key), true, pos) && n.value == old(n.value)
  {
    ghost var spine, i := chain.spine, 1;
    assert spine[0].next == spine[1];
    var node: Node?<nat, V> := chain.head.next;
    while node != chain.tail
      invariant 0 < i < |spine| && node == spine[i]
      invariant forall j {:trigger spine[j]} | 0 <= j < |spine| :: spine[j].prev == old(spine[j].prev)
                                                                  && spine[j].next == old(spine[j].next)
      invariant forall j {:trigger spine[j]} | 0 < j < |spine| - 1 ::
                  spine[j].key == Shifted(old(spine[j].key), j < i, pos) && spine[j].value == old(spine[j].value)
      decreases |spine| - i
    {
      if node.key > pos {
        node.key := node.key + 1;
      }
      assert old(spine[i].next) == spine[i + 1];
      node := node.next;
      i := i + 1;
    }
    assert i == |spine| - 1;
  }

  // ---- the list of leaves

  /** The map finds the nodes by their keys, and nothing else. */
  ghost predicate Maps<V>(m: map<int, Node<int, V>>, nodes: seq<Node<int, V>>, keys: seq<int>) {
    && |nodes| == |keys| && NoDuplicates(keys)
    && (forall k :: k in m <==> k in keys)
    && (forall i {:trigger keys[i]} | 0 <= i < |keys| :: keys[i] in m && m[keys[i]] == nodes[i])
  }

  lemma MapsToFront<V>(m: map<int, Node<int, V>>, nodes: seq<Node<int, V>>, keys: seq<int>, i: nat)
    requires Maps(m, nodes, keys) && i < |keys|
    ensures Maps(m, ToFront(nodes, i), ToFront(keys, i))
  {
    ToFrontHolds(keys, i);
    var ns, ks := ToFront(nodes, i), ToFront(keys, i);
    forall j | 0 <= j < |ks| ensures ks[j] in m && m[ks[j]] == ns[j] {
      var p := if j == 0 then i else if j <= i then j - 1 else j;
      assert ks[j] == keys[p] && ns[j] == nodes[p];
    }
  }

  ghost predicate Keyed<V>(nodes: seq<Node<int, V>>, keys: seq<int>)
    reads nodes
  {
    |nodes| == |keys| && forall i {:trigger keys[i]} | 0 <= i < |keys| :: nodes[i].key == keys[i]
  }

  lemma KeyedToFront<V>(nodes: seq<Node<int, V>>, keys: seq<int>, i: nat)
    requires Keyed(nodes, keys) && i < |keys|
    ensures Keyed(ToFront(nodes, i), ToFront(keys, i))
  {
    var ns, ks := ToFront(nodes, i), ToFront(keys, i);
    forall j | 0 <= j < |ks| ensures ns[j].key == ks[j] {
      var p := if j == 0 then i else if j <= i then j - 1 else j;
      assert ks[j] == keys[p] && ns[j] == nodes[p];
    }
  }

  lemma KeyedWithout<V>(nodes: seq<Node<int, V>>, keys: seq<int>, i: nat)
    requires Keyed(nodes, keys) && i < |keys|
    ensures Keyed(Without(nodes, i), Without(keys, i))
  {
    var ns, ks := Without(nodes, i), Without(keys, i);
    forall j | 0 <= j < |ks| ensures ns[j].key == ks[j] {
      var p := if j < i then j else j + 1;
      assert ks[j] == keys[p] && ns[j] == nodes[p];
    }
  }

  lemma KeyedWith<V>(nodes: seq<Node<int, V>>, keys: seq<int>, n: Node<int, V>)
    requires Keyed(nodes, keys)
    ensures Keyed([n] + nodes, [n.key] + keys)
  {
  }

  lemma MapsWithout<V>(m: map<int, Node<int, V>>, nodes: seq<Node<int, V>>, keys: seq<int>, i: nat)
    requires Maps(m, nodes, keys) && i < |keys|
    ensures Maps(m - {keys[i]}, Without(nodes, i), Without(keys, i))
  {
    WithoutHolds(keys, i);
    var ns, ks := Without(nodes, i), Without(keys, i);
    forall j | 0 <= j < |ks| ensures ks[j] in m && ks[j] != keys[i] && m[ks[j]] == ns[j] {
      var p := if j < i then j else j + 1;
      assert ks[j] == keys[p] && ns[j] == nodes[p];
    }
  }

  lemma MapsWith<V>(m: map<int, Node<int, V>>, nodes: seq<Node<int, V>>, keys: seq<int>, k: int, n: Node<int, V>)
    requires Maps(m, nodes, keys) && k !in m
    ensures Maps(m[k := n], [n] + nodes, [k] + keys)
  {
    forall j | 0 <= j < |keys| + 1 ensures ([k] + keys)[j] in m[k := n] && m[k := n][([k] + keys)[j]] == ([n] + nodes)[j] {
      if j > 0 { assert ([k] + keys)[j] == keys[j - 1]; }
    }
  }

  /** The leaves that have records in memory, found by their first key. */
  class HashLRU<V> {
    var map_: map<int, Node<int, V>>
    const capacity: nat
    const chain: Chain<int, V>
    /** The first keys of the leaves, in the order of the list. */
    ghost var keys: seq<int>

    ghost predicate Valid()
      reads this, chain, chain.spine
    {
      && chain.Valid() && |keys| <= capacity && Maps(map_, chain.Nodes(), keys)
      && Keyed(chain.Nodes(), keys)
    }

    constructor (capacity: nat, v: V)
      requires capacity > 0
      ensures Valid() && keys == [] && fresh(chain) && fresh(chain.spine)
    {
      this.capacity := capacity;
      map_, keys := map[], [];
      chain := new Chain(0, v);
    }

    /** `poptail`: the least recently used leaf leaves the list and the map. */
    method PopTail() returns (node: Node<int, V>)
      requires Valid() && |keys| > 0
      modifies this`map_, this`keys, chain, chain.spine
      ensures Valid() && node == old(chain.Nodes()[|keys| - 1]) && keys == old(keys[..|keys| - 1])
      ensures chain.Nodes() == old(chain.Nodes()[..|keys| - 1])
      ensures forall n | n in chain.spine :: n in old(chain.spine)
      ensures forall n | n in old(chain.spine) :: n.value == old(n.value)
    {
      ghost var n := |keys|;
      MapsWithout(map_, chain.Nodes(), keys, n - 1);
      WithoutLast(chain.Nodes());
      WithoutLast(keys);
      var key;
      key, node := TakeLast();
      map_, keys := map_ - {key}, keys[..n - 1];
    }

    /** The nodes and their keys after the last one is taken out. */
    method TakeLast() returns (key: int, node: Node<int, V>)
      requires chain.Valid() && |keys| > 0 && Keyed(chain.Nodes(), keys)
      modifies chain`spine, chain`size, chain.spine
      ensures chain.Valid() && node == old(chain.Nodes()[|keys| - 1]) && key == keys[|keys| - 1]
      ensures chain.Nodes() == old(chain.Nodes()[..|keys| - 1]) && Keyed(chain.Nodes(), keys[..|keys| - 1])
      ensures forall n | n in chain.spine :: n in old(chain.spine)
      ensures forall n | n in old(chain.spine) :: n.value == old(n.value)
    {
      ghost var ns, n := chain.Nodes(), |keys|;
      assert forall j | 0 <= j < |ns| :: ns[j] == chain.spine[j + 1] && ns[j] in chain.spine;
      assert chain.spine[n].next == chain.tail && chain.spine[n] == ns[n - 1] && ns[n - 1].key == keys[n - 1];
      key := chain.tail.prev.key;
      node := chain.PopTail();
      assert Keyed(ns, keys);
      assert chain.Nodes() == ns[..n - 1];
    }

    /** `removenode`: a leaf without records in memory leaves the list and the map. */
    method RemoveNode(node: Node<int, V>, ghost i: nat)
      requires Valid() && i < |keys| && node == chain.Nodes()[i]
      modifies this`map_, this`keys, chain, chain.spine
      ensures Valid() && keys == Without(old(keys), i) && chain.Nodes() == Without(old(chain.Nodes()), i)
      ensures forall n | n in old(chain.spine) :: n.value == old(n.value)
    {
      MapsWithout(map_, chain.Nodes(), keys, i);
      var key := node.key;
      assert key == keys[i];
      Detach(node, i);
      map_, keys := map_ - {key}, Without(keys, i);
    }

    /** The nodes and their keys after one is unlinked. */
    method Detach(node: Node<int, V>, ghost i: nat)
      requires chain.Valid() && i < |keys| && Keyed(chain.Nodes(), keys) && node == chain.Nodes()[i]
      modifies chain`spine, chain`size, chain.spine
      ensures chain.Valid() && chain.Nodes() == Without(old(chain.Nodes()), i)
      ensures Keyed(chain.Nodes(), Without(keys, i))
      ensures forall n | n in old(chain.spine) :: n.value == old(n.value)
    {
      ghost var ns := chain.Nodes();
      assert forall j | 0 <= j < |ns| :: ns[j] == chain.spine[j + 1] && ns[j] in chain.spine;
      chain.Remove(node, i);
      assert Keyed(ns, keys);
      KeyedWithout(ns, keys, i);
    }

    /** `get_tail`: the value of the least recently used leaf, which leaves the list
        when the record about to be evicted is its last one in memory. */
    method GetTail(lastRecord: bool) returns (v: V)
      requires Valid() && |keys| > 0
      modifies this`map_, this`keys, chain, chain.spine
      ensures v == old(chain.Nodes()[|keys| - 1].value)
      ensures Valid() && keys == if lastRecord then old(keys[..|keys| - 1]) else old(keys)
      ensures chain.Nodes() == if lastRecord then old(chain.Nodes()[..|keys| - 1]) else old(chain.Nodes())
      ensures forall n | n in old(chain.spine) :: n.value == old(n.value)
    {
      ghost var ns := chain.Nodes();
      assert chain.spine[|ns|].next == chain.tail && chain.spine[|ns|] == ns[|ns| - 1];
      var tailnode := chain.tail.prev;
      v := tailnode.value;
      if lastRecord {
        assert Without(ns, |ns| - 1) == ns[..|ns| - 1] && Without(keys, |ns| - 1) == keys[..|ns| - 1];
        RemoveNode(tailnode, |ns| - 1);
      }
    }

    /** `put` for a leaf that is in the list: it moves to the front. */
    method Refresh(node: Node<int, V>, ghost i: nat)
      requires Valid() && i < |keys| && node == chain.Nodes()[i]
      modifies this`keys, chain, chain.spine
      ensures Valid() && keys == ToFront(old(keys), i) && chain.Nodes() == ToFront(old(chain.Nodes()), i)
      ensures forall n | n in old(chain.spine) :: n.value == old(n.value)
    {
      MapsToFront(map_, chain.Nodes(), keys, i);
      Front(node, i);
      keys := ToFront(keys, i);
    }

    /** The nodes and their keys after one moves to the front. */
    method Front(node: Node<int, V>, ghost i: nat)
      requires chain.Valid() && i < |keys| && Keyed(chain.Nodes(), keys) && node == chain.Nodes()[i]
      modifies chain`spine, chain.spine
      ensures chain.Valid() && chain.Nodes() == ToFront(old(chain.Nodes()), i)
      ensures Keyed(chain.Nodes(), ToFront(keys, i))
      ensures forall n | n in old(chain.spine) :: n.value == old(n.value)
    {
      ghost var ns := chain.Nodes();
      assert forall j | 0 <= j < |ns| :: ns[j] == chain.spine[j + 1] && ns[j] in chain.spine;
      chain.MoveToHead(node, i);
      assert Keyed(ns, keys);
      KeyedToFront(ns, keys, i);
    }

    /** `put` for a new leaf, which is added at the front. */
    method Add(k: int, v: V)
      requires Valid() && |keys| < capacity && k !in map_
      modifies this`map_, this`keys, chain, chain.head, chain.spine[1]
      ensures Valid() && keys == [k] + old(keys)
      ensures chain.Nodes()[1..] == old(chain.Nodes()) && fresh(chain.Nodes()[0]) && chain.Nodes()[0].value == v
      ensures forall n | n in old(chain.spine) :: n.value == old(n.value)
    {
      ghost var ns, ks := chain.Nodes(), keys;
      assert forall j | 0 <= j < |ns| :: ns[j] == chain.spine[j + 1];
      var node := chain.Put(k, v);
      MapsWith(map_, ns, keys, k, node);
      map_ := map_[k := node];
      keys := [k] + keys;
      assert Keyed(ns, ks);
      KeyedWith(ns, ks, node);
    }

    /** `put`: a leaf that is in the list moves to its front; a new one is added there,
        after the least recently used leaf has left if the list is full. */
    method Put(k: int, v: V, ghost i: nat)
      requires Valid() && capacity > 0
      requires k in map_ ==> i < |keys| && keys[i] == k
      modifies this`map_, this`keys, chain, chain.spine
      ensures Valid()
      ensures k in old(map_) ==> keys == ToFront(old(keys), i)
      ensures k !in old(map_) ==> keys == [k] + if |old(keys)| == capacity then old(keys)[..capacity - 1] else old(keys)
      ensures k !in old(map_) ==> chain.Nodes()[0].value == v
    {
      if k !in map_ {
        if chain.size == capacity {
          var _ := PopTail();
          assert chain.spine[1] in old(chain.spine);
        }
        Add(k, v);
      } else {
        Refresh(map_[k], i);
      }
    }
  }
}
