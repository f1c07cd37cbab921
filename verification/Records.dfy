/** Key-value records, sorted runs of them, and the stable merge of two runs. */
module Records {

  datatype Record = Record(key: int, value: int)

  ghost predicate SortedByKey(s: seq<Record>) {
    forall i, j | 0 <= i <= j < |s| :: s[i].key <= s[j].key
  }

  ghost predicate DistinctKeys(s: seq<Record>) {
    forall i, j | 0 <= i < j < |s| :: s[i].key < s[j].key
  }

  /** The backward merge: the larger last record goes last; of two equal keys, the one from `a` stands first. */
  function Merge(a: seq<Record>, b: seq<Record>): (m: seq<Record>)
    ensures |m| == |a| + |b|
  {
    if a == [] then b
    else if b == [] then a
    else
      var x, y := a[|a| - 1], b[|b| - 1];
      if x.key > y.key then Merge(a[..|a| - 1], b) + [x] else Merge(a, b[..|b| - 1]) + [y]
  }

  /** All records of a run with one key, in order. */
  function WithKey(s: seq<Record>, k: int): seq<Record> {
    if s == [] then []
    else WithKey(s[..|s| - 1], k) + if s[|s| - 1].key == k then [s[|s| - 1]] else []
  }

  predicate HasKey(s: seq<Record>, k: int) {
    exists i :: 0 <= i < |s| && s[i].key == k
  }

  lemma {:induction false} MergeKeepsRecords(a: seq<Record>, b: seq<Record>)
    ensures multiset(Merge(a, b)) == multiset(a) + multiset(b)
  {
    if a != [] && b != [] {
      var a0, b0 := a[..|a| - 1], b[..|b| - 1];
      assert a == a0 + [a[|a| - 1]] && b == b0 + [b[|b| - 1]];
      if a[|a| - 1].key > b[|b| - 1].key { MergeKeepsRecords(a0, b); } else { MergeKeepsRecords(a, b0); }
    }
  }

  lemma {:induction false} MergeKeys(a: seq<Record>, b: seq<Record>, i: nat)
    requires i < |Merge(a, b)|
    ensures Merge(a, b)[i] in a || Merge(a, b)[i] in b
  {
    MergeKeepsRecords(a, b);
    assert Merge(a, b)[i] in multiset(Merge(a, b));
  }

  lemma {:induction false} MergeSorts(a: seq<Record>, b: seq<Record>)
    requires SortedByKey(a) && SortedByKey(b)
    ensures SortedByKey(Merge(a, b))
  {
    if a != [] && b != [] {
      var x, y := a[|a| - 1], b[|b| - 1];
      var a0, b0 := if x.key > y.key then a[..|a| - 1] else a, if x.key > y.key then b else b[..|b| - 1];
      MergeSorts(a0, b0);
      forall i | 0 <= i < |Merge(a0, b0)| ensures Merge(a0, b0)[i].key <= if x.key > y.key then x.key else y.key {
        MergeKeys(a0, b0, i);
      }
    }
  }

  /** The merge is stable: it keeps the order within each run, and of equal keys
      those of `a` come first. */
  lemma {:induction false} MergeStable(a: seq<Record>, b: seq<Record>, k: int)
    requires SortedByKey(a) && SortedByKey(b)
    ensures WithKey(Merge(a, b), k) == WithKey(a, k) + WithKey(b, k)
  {
    if a != [] && b != [] {
      var x, y := a[|a| - 1], b[|b| - 1];
      var a0, b0 := a[..|a| - 1], b[..|b| - 1];
      if x.key > y.key {
        MergeStable(a0, b, k);
        assert Merge(a, b)[..|Merge(a, b)| - 1] == Merge(a0, b);
        if x.key == k { NoneWithKey(b, k); }
      } else {
        MergeStable(a, b0, k);
        assert Merge(a, b)[..|Merge(a, b)| - 1] == Merge(a, b0);
      }
    }
  }

  lemma {:induction false} NoneWithKey(s: seq<Record>, k: int)
    ensures WithKey(s, k) == [] <==> !HasKey(s, k)
  {
    if s != [] {
      var s0 := s[..|s| - 1];
      NoneWithKey(s0, k);
      if s[|s| - 1].key == k {
      } else if HasKey(s0, k) {
        var i :| 0 <= i < |s0| && s0[i].key == k;
        assert s[i].key == k;
      } else {
        forall i | 0 <= i < |s| ensures s[i].key != k {
          if i < |s| - 1 { assert s0[i].key != k; }
        }
      }
    }
  }

  ghost predicate Disjoint(dy: seq<Record>, s: seq<Record>) {
    forall i, j | 0 <= i < |dy| && 0 <= j < |s| :: dy[i].key != s[j].key
  }

  ghost predicate Below(s: seq<Record>, k: int) {
    forall i | 0 <= i < |s| :: s[i].key < k
  }

  ghost predicate Above(s: seq<Record>, k: int) {
    forall i | 0 <= i < |s| :: k < s[i].key
  }

  lemma MergeAbove(a: seq<Record>, b: seq<Record>, k: int)
    requires Above(a, k) && Above(b, k)
    ensures Above(Merge(a, b), k)
  {
    forall i | 0 <= i < |Merge(a, b)| ensures k < Merge(a, b)[i].key {
      MergeKeys(a, b, i);
    }
  }

  lemma MergeBelow(a: seq<Record>, b: seq<Record>, k: int)
    requires Below(a, k) && Below(b, k)
    ensures Below(Merge(a, b), k)
  {
    forall i | 0 <= i < |Merge(a, b)| ensures Merge(a, b)[i].key < k {
      MergeKeys(a, b, i);
    }
  }

  lemma DistinctFront(s: seq<Record>)
    requires s != [] && DistinctKeys(s)
    ensures DistinctKeys(s[..|s| - 1]) && Below(s[..|s| - 1], s[|s| - 1].key)
    ensures forall k | s[|s| - 1].key < k :: Below(s, k)
  {
  }

  lemma {:induction false} MergeDistinct(a: seq<Record>, b: seq<Record>)
    requires DistinctKeys(a) && DistinctKeys(b) && Disjoint(a, b)
    ensures DistinctKeys(Merge(a, b))
  {
    if a != [] && b != [] {
      var x, y, a0, b0 := a[|a| - 1], b[|b| - 1], a[..|a| - 1], b[..|b| - 1];
      DistinctFront(a);
      DistinctFront(b);
      if x.key > y.key {
        MergeDistinct(a0, b);
        MergeBelow(a0, b, x.key);
      } else {
        assert x.key != y.key;
        MergeDistinct(a, b0);
        MergeBelow(a, b0, y.key);
      }
    }
  }

  // ---- the merge as its loops see it

  /** Read from the back, the front of `out` interleaves the first `j` records of
      `a` with the first `i` of `b` as the merge does. */
  ghost predicate Pending(a: seq<Record>, b: seq<Record>, j: nat, i: nat, out: seq<Record>)
    requires j <= |a| && i <= |b| && i + j <= |out|
  {
    if j > 0 && (i == 0 || a[j - 1].key > b[i - 1].key) then
      out[i + j - 1] == a[j - 1] && Pending(a, b, j - 1, i, out)
    else if i > 0 then
      out[i + j - 1] == b[i - 1] && Pending(a, b, j, i - 1, out)
    else true
  }

  lemma {:induction false} MergeIsPending(a: seq<Record>, b: seq<Record>, j: nat, i: nat, out: seq<Record>)
    requires j <= |a| && i <= |b| && i + j <= |out| && out[..i + j] == Merge(a[..j], b[..i])
    ensures Pending(a, b, j, i, out)
  {
    var m := Merge(a[..j], b[..i]);
    if j > 0 && (i == 0 || a[j - 1].key > b[i - 1].key) {
      assert a[..j][..j - 1] == a[..j - 1];
      assert m == Merge(a[..j - 1], b[..i]) + [a[j - 1]];
      assert out[i + j - 1] == m[i + j - 1] && out[..i + j - 1] == m[..i + j - 1];
      MergeIsPending(a, b, j - 1, i, out);
    } else if i > 0 {
      assert b[..i][..i - 1] == b[..i - 1];
      assert m == Merge(a[..j], b[..i - 1]) + [b[i - 1]];
      assert out[i + j - 1] == m[i + j - 1] && out[..i + j - 1] == m[..i + j - 1];
      MergeIsPending(a, b, j, i - 1, out);
    }
  }

  lemma WholeIsPending(a: seq<Record>, b: seq<Record>)
    ensures Pending(a, b, |a|, |b|, Merge(a, b))
  {
    assert a[..|a|] == a && b[..|b|] == b && Merge(a, b)[..|a| + |b|] == Merge(a, b);
    MergeIsPending(a, b, |a|, |b|, Merge(a, b));
  }

  /** When one run is used up, the front is the rest of the other. */
  lemma {:induction false} OneLeft(a: seq<Record>, b: seq<Record>, j: nat, i: nat, out: seq<Record>)
    requires j <= |a| && i <= |b| && i + j <= |out| && Pending(a, b, j, i, out) && (i == 0 || j == 0)
    ensures forall k | 0 <= k < i + j :: out[k] == if i == 0 then a[k] else b[k]
  {
    if j > 0 { OneLeft(a, b, j - 1, i, out); } else if i > 0 { OneLeft(a, b, j, i - 1, out); }
  }

  // ---- lookups in a sorted run

  /** `std::lower_bound` on keys. */
  function LowerBound(s: seq<Record>, k: int): (t: nat)
    ensures t <= |s|
  {
    LowerBoundTo(s, k, |s|)
  }

  function LowerBoundTo(s: seq<Record>, k: int, n: nat): (t: nat)
    requires n <= |s|
    ensures t <= n
  {
    if n == 0 then 0 else if s[n - 1].key < k then n else LowerBoundTo(s, k, n - 1)
  }

  lemma {:induction false} SplitsTo(s: seq<Record>, k: int, n: nat)
    requires n <= |s|
    ensures LowerBoundTo(s, k, n) > 0 ==> s[LowerBoundTo(s, k, n) - 1].key < k
    ensures forall i | LowerBoundTo(s, k, n) <= i < n :: k <= s[i].key
  {
    if n > 0 { SplitsTo(s, k, n - 1); }
  }

  lemma LowerBoundSplits(s: seq<Record>, k: int)
    ensures LowerBound(s, k) > 0 ==> s[LowerBound(s, k) - 1].key < k
    ensures forall i | LowerBound(s, k) <= i < |s| :: k <= s[i].key
  {
    SplitsTo(s, k, |s|);
  }

  lemma LowerBoundUnique(s: seq<Record>, k: int, t: nat)
    requires SortedByKey(s) && t <= |s|
    requires (t > 0 ==> s[t - 1].key < k) && (t < |s| ==> k <= s[t].key)
    ensures t == LowerBound(s, k)
  {
    LowerBoundSplits(s, k);
  }

  lemma LowerBoundMono(s: seq<Record>, j: int, k: int)
    requires SortedByKey(s) && j <= k
    ensures LowerBound(s, j) <= LowerBound(s, k)
  {
    LowerBoundSplits(s, j);
    LowerBoundSplits(s, k);
  }

  /** What a search for `k` returns: the value of the first record with that key. */
  function FirstValue(s: seq<Record>, k: int): int
    requires HasKey(s, k)
  {
    NoneWithKey(s, k);
    WithKey(s, k)[0].value
  }

  lemma {:induction false} FirstWithKey(s: seq<Record>, k: int, t: nat)
    requires t < |s| && s[t].key == k && forall i | 0 <= i < t :: s[i].key != k
    ensures WithKey(s, k) != [] && WithKey(s, k)[0] == s[t]
  {
    var n := |s| - 1;
    if t < n {
      FirstWithKey(s[..n], k, t);
    } else {
      NoneWithKey(s[..n], k);
    }
  }

  lemma FirstIsLowerBound(s: seq<Record>, k: int)
    requires SortedByKey(s) && HasKey(s, k)
    ensures LowerBound(s, k) < |s| && s[LowerBound(s, k)].key == k && s[LowerBound(s, k)].value == FirstValue(s, k)
  {
    var t := LowerBound(s, k);
    var i :| 0 <= i < |s| && s[i].key == k;
    LowerBoundSplits(s, k);
    assert s[t].key <= s[i].key;
    FirstWithKey(s, k, t);
  }

  /** A search in the merge of two runs sees `a` first. */
  lemma MergeFirstValue(a: seq<Record>, b: seq<Record>, k: int)
    requires SortedByKey(a) && SortedByKey(b)
    ensures HasKey(Merge(a, b), k) <==> HasKey(a, k) || HasKey(b, k)
    ensures HasKey(a, k) ==> FirstValue(Merge(a, b), k) == FirstValue(a, k)
    ensures !HasKey(a, k) && HasKey(b, k) ==> FirstValue(Merge(a, b), k) == FirstValue(b, k)
  {
    MergeStable(a, b, k);
    NoneWithKey(a, k);
    NoneWithKey(b, k);
    NoneWithKey(Merge(a, b), k);
  }
}
