/** The intercept encoding: intercepts are raised by growing offsets until they
    increase strictly, stored as the set bits of a bit vector, and read back by
    select and the offset in force at their index. */
module InterceptCompression {

  /** How far the `i`-th intercept is raised. */
  function Raise(a: seq<int>, i: nat): nat
    requires i < |a|
  {
    if i == 0 then 0
    else Raise(a, i - 1) + (if a[i] <= a[i - 1] then a[i - 1] - a[i] + 1 else 0)
  }

  function Raised(a: seq<int>, i: nat): int
    requires i < |a|
  {
    a[i] + Raise(a, i)
  }

  /** The raised intercepts increase strictly, so the bit vector can hold them. */
  lemma {:induction false} RaisedIncreases(a: seq<int>, i: nat, j: nat)
    requires i < j < |a|
    ensures Raised(a, i) < Raised(a, j)
  {
    if i < j - 1 { RaisedIncreases(a, i, j - 1); }
  }

  /** The raise does not change between two indices with no drop after them. */
  lemma {:induction false} RaiseConstant(a: seq<int>, i: nat, k: nat)
    requires i <= k < |a| && forall j | i <= j < k :: a[j + 1] > a[j]
    ensures Raise(a, k) == Raise(a, i)
  {
    if i < k {
      RaiseConstant(a, i, k - 1);
      assert a[k - 1 + 1] > a[k - 1];
    }
  }

  /** The offsets before the first `n` intercepts' drops. */
  ghost predicate Drops(m: map<nat, int>, a: seq<int>, n: nat)
    requires n <= |a|
  {
    forall k: nat {:trigger k in m} ::
      (k in m <==> k + 1 < n && a[k + 1] <= a[k]) && (k in m && k < |a| ==> m[k] == Raise(a, k))
  }

  lemma DropsNext(m: map<nat, int>, a: seq<int>, n: nat)
    requires 1 <= n < |a| && Drops(m, a, n)
    ensures Drops(if a[n] <= a[n - 1] then m[n - 1 := Raise(a, n - 1)] else m, a, n + 1)
  {
  }

  /** `sd_vector_builder`: bits must be set at increasing positions below its size. */
  class SdVectorBuilder {
    const size: nat
    const capacity: nat
    var bits: seq<nat>

    ghost predicate Valid()
      reads this
    {
      && |bits| <= capacity
      && (forall i | 0 <= i < |bits| :: bits[i] < size)
      && (forall i, j | 0 <= i < j < |bits| :: bits[i] < bits[j])
    }

    constructor (size: nat, capacity: nat)
      ensures Valid() && bits == [] && this.size == size && this.capacity == capacity
    {
      this.size, this.capacity := size, capacity;
      bits := [];
    }

    method Set(pos: nat)
      requires Valid() && pos < size && |bits| < capacity
      requires |bits| > 0 ==> bits[|bits| - 1] < pos
      modifies this
      ensures Valid() && bits == old(bits) + [pos]
    {
      bits := bits + [pos];
    }
  }

  class CompressedIntercepts {
    var interceptOffset: int
    /** The positions of the set bits; the `i`-th select is the `i`-th entry. */
    var bits: seq<nat>
    var interceptsMap: map<nat, int>

    /** This object stores exactly the intercepts `a`. */
    ghost predicate Encodes(a: seq<int>)
      reads this
    {
      && |a| > 0 && interceptOffset == a[0]
      && |bits| == |a| + 1 && (forall i | 0 <= i < |a| :: bits[i] == Raised(a, i) - a[0])
      && (forall k: nat {:trigger k in interceptsMap} :: k in interceptsMap <==> k == |a| - 1 || (k + 1 < |a| && a[k + 1] <= a[k]))
      && (forall k: nat | k in interceptsMap :: k < |a| && interceptsMap[k] == Raise(a, k))
    }

    constructor ()
      ensures interceptsMap == map[]
    {
      interceptOffset, bits, interceptsMap := 0, [], map[];
    }

    method Compress(a: seq<int>)
      requires |a| > 0 && interceptsMap == map[]
      modifies this
      ensures Encodes(a)
    {
      interceptOffset := a[0];
      var increasing := RaiseAll(a);
      bits := StoreBits(a, increasing);
    }

    /** The loop that adds the offsets and remembers where they change. */
    method RaiseAll(a: seq<int>) returns (increasing: seq<int>)
      requires |a| > 0 && interceptsMap == map[]
      modifies this`interceptsMap
      ensures |increasing| == |a| && forall i | 0 <= i < |a| :: increasing[i] == Raised(a, i)
      ensures forall k: nat {:trigger k in interceptsMap} :: k in interceptsMap <==>
        k == |a| - 1 || (k + 1 < |a| && a[k + 1] <= a[k])
      ensures forall k: nat | k in interceptsMap :: k < |a| && interceptsMap[k] == Raise(a, k)
    {
      increasing := a;
      var offset := 0;
      for idx := 1 to |a|
        invariant offset == Raise(a, idx - 1) && |increasing| == |a|
        invariant forall i | 0 <= i < idx :: increasing[i] == Raised(a, i)
        invariant forall i | idx <= i < |a| :: increasing[i] == a[i]
        invariant Drops(interceptsMap, a, idx)
      {
        DropsNext(interceptsMap, a, idx);
        if a[idx] <= a[idx - 1] {
          interceptsMap := interceptsMap[idx - 1 := offset];
          offset := offset + (a[idx - 1] - a[idx] + 1);
        }
        increasing := increasing[idx := increasing[idx] + offset];
      }
      interceptsMap := interceptsMap[|increasing| - 1 := offset];
    }

    method StoreBits(a: seq<int>, increasing: seq<int>) returns (bits: seq<nat>)
      requires |a| > 0 && interceptOffset == a[0] && |increasing| == |a|
      requires forall i | 0 <= i < |a| :: increasing[i] == Raised(a, i)
      ensures |bits| == |a| + 1 && forall i | 0 <= i < |a| :: bits[i] == Raised(a, i) - a[0]
    {
      var last := |increasing| - 1;
      if last > 0 { RaisedIncreases(a, 0, last); }
      var maxIntercept := increasing[last] - interceptOffset + 3;
      var builder := new SdVectorBuilder(maxIntercept, |increasing| + 1);
      builder.Set(0);
      for i := 1 to |increasing|
        invariant builder.Valid() && fresh(builder)
        invariant builder.size == maxIntercept && builder.capacity == |increasing| + 1 && |builder.bits| == i
        invariant forall k | 0 <= k < i :: builder.bits[k] == Raised(a, k) - a[0]
      {
        RaisedIncreases(a, i - 1, i);
        if i < last { RaisedIncreases(a, i, last); }
        RaisedIncreases(a, 0, i);
        builder.Set(increasing[i] - interceptOffset);
      }
      builder.Set(maxIntercept - 1);
      bits := builder.bits;
    }

    /** Reading back gives the original intercept. */
    method GetIntercept(ghost a: seq<int>, i: nat) returns (intercept: int)
      requires Encodes(a) && i < |a|
      ensures intercept == a[i]
    {
      var k := i;
      while k !in interceptsMap
        invariant i <= k < |a| && forall j: nat | i <= j < k :: j !in interceptsMap
        decreases |a| - k
      {
        assert |a| - 1 in interceptsMap;
        k := k + 1;
      }
      forall j: nat | i <= j < k ensures a[j + 1] > a[j] {
        assert j !in interceptsMap;
      }
      RaiseConstant(a, i, k);
      intercept := interceptOffset + bits[i] - interceptsMap[k];
    }
  }
}
