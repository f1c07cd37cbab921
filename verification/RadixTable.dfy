/** The radix table of a spline: for every key prefix, the first spline point
    whose prefix is not smaller. */
module RadixTable {
  import opened Geometry

  // ---- shifts

  function Pow2(n: nat): (p: nat)
    ensures p > 0
  {
    if n == 0 then 1 else 2 * Pow2(n - 1)
  }

  lemma {:induction false} Pow2Sum(a: nat, b: nat)
    ensures Pow2(a + b) == Pow2(a) * Pow2(b)
  {
    if a > 0 { Pow2Sum(a - 1, b); }
  }

  lemma {:induction false} Pow2Mono(a: nat, b: nat)
    requires a <= b
    ensures Pow2(a) <= Pow2(b)
  {
    if a < b { Pow2Mono(a, b - 1); }
  }

  /** The width of a machine word without its leading zeros. */
  function BitLength(n: nat): nat {
    if n == 0 then 0 else 1 + BitLength(n / 2)
  }

  lemma {:induction false} BitLengthBounds(n: nat)
    requires n > 0
    ensures BitLength(n) > 0 && Pow2(BitLength(n) - 1) <= n < Pow2(BitLength(n))
  {
    if n > 1 { BitLengthBounds(n / 2); }
  }

  /** `GetNumShiftBits`; the number of leading zeros of 0 is not defined. */
  function GetNumShiftBits(diff: nat, numRadixBits: nat): nat
    requires diff > 0
  {
    if BitLength(diff) < numRadixBits then 0 else BitLength(diff) - numRadixBits
  }

  /** The shift is the smallest that leaves at most `numRadixBits` bits of the largest difference. */
  lemma ShiftIsTight(diff: nat, numRadixBits: nat)
    requires diff > 0
    ensures var s := GetNumShiftBits(diff, numRadixBits);
      && diff / Pow2(s) < Pow2(numRadixBits)
      && (s > 0 && numRadixBits > 0 ==> diff / Pow2(s - 1) >= Pow2(numRadixBits))
  {
    var s, b := GetNumShiftBits(diff, numRadixBits), BitLength(diff);
    BitLengthBounds(diff);
    if s == 0 {
      Pow2Mono(b, numRadixBits);
    } else {
      Pow2Sum(s, numRadixBits);
      DivisionBounds(diff, Pow2(s), Pow2(numRadixBits));
      Pow2Sum(s - 1, numRadixBits);
      DivisionBounds(diff, Pow2(s - 1), Pow2(numRadixBits));
    }
  }

  function Prefix(x: int, minKey: int, shift: nat): int {
    (x - minKey) / Pow2(shift)
  }

  lemma PrefixMono(a: int, b: int, minKey: int, shift: nat)
    requires a <= b
    ensures Prefix(a, minKey, shift) <= Prefix(b, minKey, shift)
    ensures minKey <= a ==> 0 <= Prefix(a, minKey, shift)
  {
    var d, p, q := Pow2(shift), Prefix(a, minKey, shift), Prefix(b, minKey, shift);
    assert a - minKey == d * p + (a - minKey) % d;
    assert b - minKey == d * q + (b - minKey) % d;
    if q < p { MulMono(q + 1, p, d); }
    if minKey <= a && p < 0 { MulMono(p, -1, d); }
  }

  // ---- the table

  ghost predicate Increasing(spline: seq<Point>) {
    forall i, j | 0 <= i < j < |spline| :: spline[i].x < spline[j].x
  }

  /** `t` is the index of the first spline point with a prefix of at least `p`. */
  ghost predicate FirstWithPrefix(spline: seq<Point>, minKey: int, shift: nat, p: int, t: nat) {
    && t <= |spline|
    && (forall i | 0 <= i < t :: Prefix(spline[i].x, minKey, shift) < p)
    && (forall i | t <= i < |spline| :: p <= Prefix(spline[i].x, minKey, shift))
  }

  ghost predicate FilledTo(table: seq<nat>, spline: seq<Point>, minKey: int, shift: nat, n: nat) {
    && n <= |table|
    && forall p {:trigger table[p]} | 0 <= p < n :: FirstWithPrefix(spline, minKey, shift, p, table[p])
  }

  /** While points are added, the table is filled up to the prefix of the last one. */
  ghost predicate PartlyFilled(table: seq<nat>, spline: seq<Point>, minKey: int, shift: nat, prevPrefix: nat) {
    && Increasing(spline)
    && (|spline| == 0 ==> prevPrefix == 0)
    && (|spline| > 0 ==> prevPrefix == Prefix(spline[|spline| - 1].x, minKey, shift))
    && FilledTo(table, spline, minKey, shift, prevPrefix + 1)
  }

  /** The loops of the builder: write `v` to the entries `from` up to, not including, `to`. */
  method Fill(table: seq<nat>, from: nat, to: nat, v: nat) returns (t: seq<nat>)
    requires from <= to <= |table|
    ensures |t| == |table|
    ensures forall p | 0 <= p < |t| :: t[p] == if from <= p < to then v else table[p]
  {
    t := table;
    var prefix := from;
    while prefix < to
      invariant from <= prefix <= to && |t| == |table|
      invariant forall p | 0 <= p < |t| :: t[p] == if from <= p < prefix then v else table[p]
    {
      t := t[prefix := v];
      prefix := prefix + 1;
    }
  }

  /** A new point leaves the filled entries right, and fills those up to its own prefix. */
  lemma AddPoint(table: seq<nat>, t: seq<nat>, spline: seq<Point>, q: Point, minKey: int, shift: nat,
                 prev: nat, cur: nat)
    requires PartlyFilled(table, spline, minKey, shift, prev)
    requires cur == Prefix(q.x, minKey, shift) && cur < |table| == |t|
    requires |spline| > 0 ==> spline[|spline| - 1].x < q.x
    requires forall p | 0 <= p < |t| :: t[p] == if prev < p < cur + 1 then |spline| else table[p]
    ensures prev <= cur && PartlyFilled(t, spline + [q], minKey, shift, cur)
  {
    var s, n := spline + [q], |spline|;
    forall i | 0 <= i < n ensures spline[i].x < q.x && Prefix(spline[i].x, minKey, shift) <= prev <= cur {
      PrefixMono(spline[i].x, spline[n - 1].x, minKey, shift);
      PrefixMono(spline[n - 1].x, q.x, minKey, shift);
    }
    forall p | 0 <= p < cur + 1 ensures FirstWithPrefix(s, minKey, shift, p, t[p]) {
      if p <= prev {
        assert FirstWithPrefix(spline, minKey, shift, p, table[p]);
      }
    }
  }

  /** The entries past the last prefix refer to the end. */
  lemma Finish(table: seq<nat>, t: seq<nat>, spline: seq<Point>, minKey: int, shift: nat, prev: nat)
    requires PartlyFilled(table, spline, minKey, shift, prev) && |t| == |table| && |spline| > 0
    requires forall p | 0 <= p < |t| :: t[p] == if prev + 1 <= p < |t| then |spline| else table[p]
    ensures FilledTo(t, spline, minKey, shift, |t|)
  {
    var n := |spline|;
    forall i | 0 <= i < n ensures Prefix(spline[i].x, minKey, shift) <= prev {
      PrefixMono(spline[i].x, spline[n - 1].x, minKey, shift);
    }
    forall p | 0 <= p < |t| ensures FirstWithPrefix(spline, minKey, shift, p, t[p]) {
      if p <= prev {
        assert FirstWithPrefix(spline, minKey, shift, p, table[p]);
      }
    }
  }

  /** Neighbouring entries enclose the whole answer of a search for `key`. */
  lemma TableNarrows(table: seq<nat>, spline: seq<Point>, minKey: int, maxKey: int, shift: nat, key: int)
    requires minKey <= key <= maxKey && |table| == Prefix(maxKey, minKey, shift) + 2
    requires FilledTo(table, spline, minKey, shift, |table|)
    ensures var p := Prefix(key, minKey, shift);
      && 0 <= p < |table| - 1 && table[p] <= table[p + 1] <= |spline|
      && (forall i | 0 <= i < table[p] :: spline[i].x < key)
      && (forall i | table[p + 1] <= i < |spline| :: key < spline[i].x)
  {
    var p := Prefix(key, minKey, shift);
    PrefixMono(key, maxKey, minKey, shift);
    var b, e := table[p], table[p + 1];
    assert FirstWithPrefix(spline, minKey, shift, p, b) && FirstWithPrefix(spline, minKey, shift, p + 1, e);
    if e < |spline| { assert p + 1 <= Prefix(spline[e].x, minKey, shift); }
    forall i | 0 <= i < b ensures spline[i].x < key {
      if key <= spline[i].x { PrefixMono(key, spline[i].x, minKey, shift); }
    }
    forall i | e <= i < |spline| ensures key < spline[i].x {
      if spline[i].x <= key { PrefixMono(spline[i].x, key, minKey, shift); }
    }
  }
}
