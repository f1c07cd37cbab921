/** Whole runs of the hybrid index: insertions of any keys, each with or without
    a merge before it, against the map the index stands for. */
module HybridRuns {
  import opened Records
  import opened HybridDynamic
  import opened HybridIndex

  datatype Insertion = Insertion(r: Record, overBudget: bool)

  ghost predicate Follows(c: Contents, c': Contents, op: Insertion) {
    (op.overBudget ==> |c.dyn| >= INIT_SIZE) && c' == Inserted(c, op.r, op.overBudget)
  }

  /** A run: a merge, where an insertion starts one, needs `INIT_SIZE` dynamic records. */
  ghost predicate Run(states: seq<Contents>, ops: seq<Insertion>) {
    && |states| == |ops| + 1
    && forall i, j {:trigger states[j], ops[i]} | 0 <= i < |ops| && j == i + 1 :: Follows(states[i], states[j], ops[i])
  }

  // ---- conservation

  function Sum(s: seq<multiset<Record>>, n: nat): multiset<Record>
    requires n <= |s|
  {
    if n == 0 then multiset{} else Sum(s, n - 1) + s[n - 1]
  }

  /** The records a run inserts. */
  function Insertions(ops: seq<Insertion>, n: nat): multiset<Record>
    requires n <= |ops|
  {
    Sum(Inserts(ops), n)
  }

  function Inserts(ops: seq<Insertion>): seq<multiset<Record>> {
    seq(|ops|, i requires 0 <= i < |ops| => multiset{ops[i].r})
  }

  /** The dynamic record an insertion overwrites, if there is one. */
  function Overwritten(dyn: seq<Record>, k: int): multiset<Record> {
    if HasKey(dyn, k) then multiset{Record(k, FirstValue(dyn, k))} else multiset{}
  }

  /** The records a run overwrites. */
  ghost function Replaced(states: seq<Contents>, ops: seq<Insertion>, n: nat): multiset<Record>
    requires Run(states, ops) && n <= |ops|
  {
    Sum(Drops(states, ops), n)
  }

  ghost function Drops(states: seq<Contents>, ops: seq<Insertion>): seq<multiset<Record>>
    requires Run(states, ops)
  {
    seq(|ops|, i requires 0 <= i < |ops| =>
      assert Follows(states[i], states[i + 1], ops[i]);
      Overwritten(Relieved(states[i], ops[i].overBudget).dyn, ops[i].r.key))
  }

  /** An insertion puts its record in and takes out the one it overwrites. */
  lemma PutOverwrites(dyn: seq<Record>, r: Record)
    requires DistinctKeys(dyn)
    ensures multiset(Put(dyn, r)) + Overwritten(dyn, r.key) == multiset(dyn) + multiset{r}
  {
    PlaceOf(dyn, r.key);
    PutConserves(dyn, LowerBound(dyn, r.key), r);
    if HasKey(dyn, r.key) {
      FirstIsLowerBound(dyn, r.key);
      assert dyn[LowerBound(dyn, r.key)] == Record(r.key, FirstValue(dyn, r.key));
    }
  }

  /** One step: what is stored afterwards and what it overwrites is what was stored and what it inserts. */
  lemma StepConserves(c: Contents, op: Insertion)
    requires Ordered(c) && (op.overBudget ==> |c.dyn| >= INIT_SIZE)
    ensures Ordered(Inserted(c, op.r, op.overBudget))
    ensures All(Inserted(c, op.r, op.overBudget)) + Overwritten(Relieved(c, op.overBudget).dyn, op.r.key)
         == All(c) + multiset{op.r}
  {
    var m := Relieved(c, op.overBudget);
    if op.overBudget { MergedOrdered(c); }
    PutHolds(m.dyn, op.r);
    PutOverwrites(m.dyn, op.r);
    Balanced(multiset(Put(m.dyn, op.r)), Overwritten(m.dyn, op.r.key), multiset(m.dyn), multiset{op.r}, multiset(m.sta));
  }

  lemma Balanced(a: multiset<Record>, o: multiset<Record>, d: multiset<Record>, r: multiset<Record>, s: multiset<Record>)
    requires a + o == d + r
    ensures (a + s) + o == (d + s) + r
  {
    assert (a + s) + o == (a + o) + s;
  }

  lemma {:induction false} Telescope(all: seq<multiset<Record>>, over: seq<multiset<Record>>,
                                     ins: seq<multiset<Record>>, n: nat)
    requires |all| == |over| + 1 == |ins| + 1 && n < |all|
    requires forall i, j {:trigger all[j], over[i]} | 0 <= i < |over| && j == i + 1 :: all[j] + over[i] == all[i] + ins[i]
    ensures all[n] + Sum(over, n) == all[0] + Sum(ins, n)
  {
    if n > 0 {
      Telescope(all, over, ins, n - 1);
      assert all[n] + over[n - 1] == all[n - 1] + ins[n - 1];
      Accounted(all[n - 1], Sum(over, n - 1), all[0], Sum(ins, n - 1), all[n], over[n - 1], ins[n - 1]);
    }
  }

  lemma Accounted(a: multiset<Record>, o: multiset<Record>, z: multiset<Record>, i: multiset<Record>,
                  b: multiset<Record>, p: multiset<Record>, r: multiset<Record>)
    requires a + o == z + i && b + p == a + r
    ensures b + (o + p) == z + (i + r)
  {
    assert b + (o + p) == (b + p) + o == (a + r) + o == (a + o) + r == (z + i) + r;
  }

  lemma {:induction false} RunStaysOrdered(states: seq<Contents>, ops: seq<Insertion>, n: nat)
    requires Run(states, ops) && n <= |ops| && Ordered(states[0])
    ensures Ordered(states[n])
  {
    if n > 0 {
      RunStaysOrdered(states, ops, n - 1);
      assert Follows(states[n - 1], states[n], ops[n - 1]);
      StepConserves(states[n - 1], ops[n - 1]);
    }
  }

  /** Conservation over every run: the records change by the insertions, and by the
      dynamic records that insertions of the same keys overwrite. */
  lemma RunConserves(states: seq<Contents>, ops: seq<Insertion>, n: nat)
    requires Run(states, ops) && n <= |ops| && Ordered(states[0])
    ensures Ordered(states[n])
    ensures All(states[n]) + Replaced(states, ops, n) == All(states[0]) + Insertions(ops, n)
  {
    var all := seq(|states|, i requires 0 <= i < |states| => All(states[i]));
    var over, ins := Drops(states, ops), Inserts(ops);
    forall i, j | 0 <= i < |over| && j == i + 1 ensures all[j] + over[i] == all[i] + ins[i] {
      RunStaysOrdered(states, ops, i);
      assert Follows(states[i], states[j], ops[i]);
      StepConserves(states[i], ops[i]);
    }
    RunStaysOrdered(states, ops, n);
    Telescope(all, over, ins, n);
  }

  // ---- lookups

  /** What a map would return after the insertions. */
  function Expected(c: Contents, ops: seq<Insertion>, n: nat, k: int): int
    requires n <= |ops|
  {
    if n == 0 then Lookup(c, k)
    else if ops[n - 1].r.key == k then ops[n - 1].r.value
    else Expected(c, ops, n - 1, k)
  }

  /** The last insertion of the key gave it the value that stands for "not found", so
      that the static half answers with another one; or since then some merge gave the
      key up although the static half stored it with another value. */
  ghost predicate Lost(states: seq<Contents>, ops: seq<Insertion>, n: nat, k: int)
    requires Run(states, ops) && n <= |ops|
  {
    n > 0
    && if ops[n - 1].r.key == k then
         ops[n - 1].r.value == VALUE_MAX && StaticValue(states[n].sta, k) != VALUE_MAX
       else
         || Lost(states, ops, n - 1, k)
         || (ops[n - 1].overBudget
             && (assert Follows(states[n - 1], states[n], ops[n - 1]); Shadows(states[n - 1], k)))
  }

  /** What one step does to a lookup. */
  lemma StepLookup(c: Contents, op: Insertion, k: int)
    requires Ordered(c) && (op.overBudget ==> |c.dyn| >= INIT_SIZE)
    ensures var c' := Inserted(c, op.r, op.overBudget);
      && Ordered(c')
      && (k == op.r.key ==> Lookup(c', k) == if op.r.value != VALUE_MAX then op.r.value else StaticValue(c'.sta, k))
      && (k == op.r.key ==> DynamicValue(c'.dyn, k) == op.r.value)
      && (k != op.r.key ==> (Lookup(c', k) == Lookup(c, k) <==> !(op.overBudget && Shadows(c, k))))
      && (k != op.r.key && DynamicValue(c'.dyn, k) != VALUE_MAX ==>
            DynamicValue(c.dyn, k) != VALUE_MAX && !(op.overBudget && Shadows(c, k)))
  {
    var m := Relieved(c, op.overBudget);
    if op.overBudget {
      MergedOrdered(c);
      MergeKeepsLookup(c, k);
    }
    PutHolds(m.dyn, op.r);
    PutChangesLookup(m, op.r, k);
  }

  /** A key that a merge can shadow has a value in the dynamic half. */
  lemma ShadowedIsDynamic(c: Contents, k: int)
    requires |c.dyn| >= INIT_SIZE && Ordered(c) && Shadows(c, k)
    ensures DynamicValue(c.dyn, k) != VALUE_MAX
  {
    BuffersSuffice(|c.dyn|, INIT_SIZE);
    Divided(c.dyn, |c.dyn| / INIT_SIZE, k);
  }

  /** Lookups over every run, of new and of stored keys, with any values and merges at any
      point: a lookup answers as a map would if and only if the key is not lost. */
  lemma {:induction false} RunLookup(states: seq<Contents>, ops: seq<Insertion>, n: nat, k: int)
    requires Run(states, ops) && n <= |ops| && Ordered(states[0])
    ensures Ordered(states[n])
    ensures Lookup(states[n], k) == Expected(states[0], ops, n, k) <==> !Lost(states, ops, n, k)
    ensures Lost(states, ops, n, k) ==> DynamicValue(states[n].dyn, k) == VALUE_MAX
  {
    if n > 0 {
      var op := ops[n - 1];
      RunLookup(states, ops, n - 1, k);
      assert Follows(states[n - 1], states[n], op);
      StepLookup(states[n - 1], op, k);
      if op.overBudget && Shadows(states[n - 1], k) { ShadowedIsDynamic(states[n - 1], k); }
    }
  }

  // ---- runs of new keys

  predicate WasInserted(ops: seq<Insertion>, n: nat, k: int)
    requires n <= |ops|
  {
    n > 0 && (ops[n - 1].r.key == k || WasInserted(ops, n - 1, k))
  }

  /** All insertions are of keys that are not stored and not inserted before. */
  ghost predicate NewKeys(c: Contents, ops: seq<Insertion>) {
    forall i {:trigger ops[i]} | 0 <= i < |ops| ::
      !Stored(c, ops[i].r.key) && !WasInserted(ops, i, ops[i].r.key)
  }

  /** Insertions of new keys store no key twice. */
  lemma {:induction false} RunStaysClean(states: seq<Contents>, ops: seq<Insertion>, n: nat, k: int)
    requires Run(states, ops) && n <= |ops| && Clean(states[0]) && NewKeys(states[0], ops)
    ensures Clean(states[n])
    ensures Stored(states[n], k) <==> Stored(states[0], k) || WasInserted(ops, n, k)
  {
    if n > 0 {
      var op := ops[n - 1];
      RunStaysClean(states, ops, n - 1, k);
      RunStaysClean(states, ops, n - 1, op.r.key);
      assert Follows(states[n - 1], states[n], op);
      InsertedClean(states[n - 1], op.r, op.overBudget, k);
    }
  }

  lemma CleanStep(c: Contents, op: Insertion, k: int)
    requires Clean(c) && !Stored(c, op.r.key) && (op.overBudget ==> |c.dyn| >= INIT_SIZE)
    ensures op.overBudget ==> !Shadows(c, k)
    ensures Overwritten(Relieved(c, op.overBudget).dyn, op.r.key) == multiset{}
    ensures StaticValue(Inserted(c, op.r, op.overBudget).sta, op.r.key) == VALUE_MAX
  {
    if op.overBudget {
      MergedClean(c, op.r.key);
      MergeKeepsLookup(c, k);
      MergedClean(c, k);
    }
  }

  lemma {:induction false} NothingLost(states: seq<Contents>, ops: seq<Insertion>, n: nat, k: int)
    requires Run(states, ops) && n <= |ops| && Clean(states[0]) && NewKeys(states[0], ops)
    ensures !Lost(states, ops, n, k)
  {
    if n > 0 {
      NothingLost(states, ops, n - 1, k);
      RunStaysClean(states, ops, n - 1, ops[n - 1].r.key);
      assert Follows(states[n - 1], states[n], ops[n - 1]);
      CleanStep(states[n - 1], ops[n - 1], k);
    }
  }

  lemma NothingReplaced(states: seq<Contents>, ops: seq<Insertion>, n: nat)
    requires Run(states, ops) && n <= |ops| && Clean(states[0]) && NewKeys(states[0], ops)
    ensures Replaced(states, ops, n) == multiset{}
  {
    var over := Drops(states, ops);
    forall i | 0 <= i < n ensures over[i] == multiset{} {
      RunStaysClean(states, ops, i, ops[i].r.key);
      assert Follows(states[i], states[i + 1], ops[i]);
      CleanStep(states[i], ops[i], 0);
    }
    SumOfNone(over, n);
  }

  lemma {:induction false} SumOfNone(s: seq<multiset<Record>>, n: nat)
    requires n <= |s| && forall i | 0 <= i < n :: s[i] == multiset{}
    ensures Sum(s, n) == multiset{}
  {
    if n > 0 { SumOfNone(s, n - 1); }
  }

  /** Over any run of insertions of new keys, with merges at any point, the records
      change by the insertions only and lookups answer as a map would. */
  lemma RunIsMap(states: seq<Contents>, ops: seq<Insertion>, n: nat, k: int)
    requires Run(states, ops) && n <= |ops| && Clean(states[0]) && NewKeys(states[0], ops)
    ensures Clean(states[n]) && All(states[n]) == All(states[0]) + Insertions(ops, n)
    ensures Lookup(states[n], k) == Expected(states[0], ops, n, k)
    ensures Stored(states[n], k) <==> Stored(states[0], k) || WasInserted(ops, n, k)
  {
    RunStaysClean(states, ops, n, k);
    NothingLost(states, ops, n, k);
    NothingReplaced(states, ops, n);
    RunConserves(states, ops, n);
    RunLookup(states, ops, n, k);
  }
}
