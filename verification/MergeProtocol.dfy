/** How the threads of the multi-threaded hybrid index share out one merge.

    A round starts when the partitions are laid out and the partition counter is set
    to 0. Every load, store, `fetch_add` and `compare_exchange` on a shared
    variable is a step of its own, and the steps of different threads interleave
    freely. */
module MergeProtocol {

  datatype Mode = MergingMode | MergedMode

  /** Where a thread stands inside `AssignedToMerge`. */
  datatype Phase =
    | Idle
    | Loaded(p: nat)               // read the partition counter, within range
    | Guarded(p: nat)              // its file version was the latest one
    | Working(p: nat)              // owns partition p
    | Storing(p: nat, ver: nat)    // read the latest version, about to store the new file
    | Stored(p: nat)               // moved to the new file version
    | Checking                     // about to test for the end of the round
    | SawMerging                   // the mode was still MergingMode
    | SawAll                       // all sub-merges were finished
    | Winner                       // changed the mode to MergedMode
    | Updating                     // set the updated flag
    | Bumping(ver: nat)            // read the latest version
    | Resetting                    // raised the latest version
    | SawMerged                    // the mode was MergedMode
    | SawRisen                     // the latest version was not the old one
    | Behind                       // its own version was an older one

  /** What does not change in a round: the number of partitions, the latest
      version and the file version of every thread at its start. */
  datatype Round = Round(partitions: nat, version: nat, initial: seq<nat>)

  /** The shared variables, the threads, and three history variables: who owns
      which partition, which partitions are finished, who ended the round. */
  datatype State = State(
    processing: nat, finished: nat, mode: Mode, updated: bool, latest: nat,
    versions: seq<nat>, phase: seq<Phase>,
    owner: map<nat, nat>, done: set<nat>, winner: nat)

  ghost predicate Init(r: Round, s: State) {
    && s.processing == 0 && s.finished == 0 && s.mode == MergingMode && !s.updated
    && s.latest == r.version && s.versions == r.initial && |s.phase| == |r.initial|
    && (forall t {:trigger s.phase[t]} | 0 <= t < |s.phase| :: s.phase[t] == Idle)
    && s.owner == map[] && s.done == {}
  }

  // ---- ObtainMergeTask

  ghost predicate LoadTask(r: Round, s: State, s': State, t: nat) {
    && t < |s.phase| && s.phase[t] == Idle
    && s' == s.(phase := s.phase[t := if s.processing < r.partitions then Loaded(s.processing) else Checking])
  }

  ghost predicate CheckVersion(r: Round, s: State, s': State, t: nat) {
    && t < |s.phase| == |s.versions| && s.phase[t].Loaded?
    && s' == s.(phase := s.phase[t := if s.versions[t] == s.latest then Guarded(s.phase[t].p) else Checking])
  }

  ghost predicate ClaimTask(r: Round, s: State, s': State, t: nat) {
    && t < |s.phase| && s.phase[t].Guarded?
    && var p := s.phase[t].p;
       s' == if s.processing == p
             then s.(processing := p + 1, owner := s.owner[p := t], phase := s.phase[t := Working(p)])
             else s.(phase := s.phase[t := Checking])
  }

  // ---- MergeSubData and FinishMerge

  ghost predicate ReadVersion(r: Round, s: State, s': State, t: nat) {
    && t < |s.phase| && s.phase[t].Working?
    && s' == s.(phase := s.phase[t := Storing(s.phase[t].p, s.latest)])
  }

  ghost predicate StoreFile(r: Round, s: State, s': State, t: nat) {
    && t < |s.phase| == |s.versions| && s.phase[t].Storing?
    && s' == s.(versions := s.versions[t := s.phase[t].ver + 1], phase := s.phase[t := Stored(s.phase[t].p)])
  }

  ghost predicate FinishMerge(r: Round, s: State, s': State, t: nat) {
    && t < |s.phase| && s.phase[t].Stored?
    && s' == s.(finished := s.finished + 1, done := s.done + {s.phase[t].p}, phase := s.phase[t := Checking])
  }

  // ---- the end of AssignedToMerge, and UpdateLatestVersion

  /** The thread that started the merge returns without testing for its end. */
  ghost predicate Return(r: Round, s: State, s': State, t: nat) {
    t < |s.phase| && s.phase[t] == Checking && s' == s.(phase := s.phase[t := Idle])
  }

  ghost predicate CheckMode(r: Round, s: State, s': State, t: nat) {
    && t < |s.phase| && s.phase[t] == Checking
    && s' == s.(phase := s.phase[t := if s.mode == MergingMode then SawMerging else Idle])
  }

  ghost predicate CheckFinished(r: Round, s: State, s': State, t: nat) {
    && t < |s.phase| && s.phase[t] == SawMerging
    && s' == s.(phase := s.phase[t := if s.finished == r.partitions then SawAll else Idle])
  }

  ghost predicate ChangeMode(r: Round, s: State, s': State, t: nat) {
    && t < |s.phase| && s.phase[t] == SawAll
    && s' == if s.mode == MergingMode
             then s.(mode := MergedMode, winner := t, phase := s.phase[t := Winner])
             else s.(phase := s.phase[t := Idle])
  }

  ghost predicate SetUpdated(r: Round, s: State, s': State, t: nat) {
    && t < |s.phase| && s.phase[t] == Winner
    && s' == s.(updated := true, phase := s.phase[t := if s.updated then Idle else Updating])
  }

  ghost predicate ReadLatest(r: Round, s: State, s': State, t: nat) {
    t < |s.phase| && s.phase[t] == Updating && s' == s.(phase := s.phase[t := Bumping(s.latest)])
  }

  ghost predicate RaiseLatest(r: Round, s: State, s': State, t: nat) {
    && t < |s.phase| && s.phase[t].Bumping?
    && s' == s.(latest := if s.latest == s.phase[t].ver then s.latest + 1 else s.latest,
                phase := s.phase[t := Resetting])
  }

  ghost predicate ResetFinished(r: Round, s: State, s': State, t: nat) {
    t < |s.phase| && s.phase[t] == Resetting && s' == s.(finished := 0, phase := s.phase[t := Idle])
  }

  // ---- UpdateVersion and CheckLatestVersion: an idle thread follows a version that has risen

  ghost predicate LookMode(r: Round, s: State, s': State, t: nat) {
    && t < |s.phase| && s.phase[t] == Idle
    && s' == s.(phase := s.phase[t := if s.mode == MergedMode then SawMerged else Idle])
  }

  ghost predicate LookLatest(r: Round, s: State, s': State, t: nat) {
    && t < |s.phase| && s.phase[t] == SawMerged
    && s' == s.(phase := s.phase[t := if s.latest != r.version then SawRisen else Idle])
  }

  ghost predicate LookVersion(r: Round, s: State, s': State, t: nat) {
    && t < |s.phase| == |s.versions| && s.phase[t] == SawRisen
    && s' == s.(phase := s.phase[t := if s.versions[t] < s.latest then Behind else Idle])
  }

  ghost predicate CatchUp(r: Round, s: State, s': State, t: nat) {
    && t < |s.phase| == |s.versions| && s.phase[t] == Behind
    && s' == s.(versions := s.versions[t := s.latest], phase := s.phase[t := Idle])
  }

  ghost predicate Step(r: Round, s: State, s': State, t: nat) {
    || LoadTask(r, s, s', t) || CheckVersion(r, s, s', t) || ClaimTask(r, s, s', t)
    || ReadVersion(r, s, s', t) || StoreFile(r, s, s', t) || FinishMerge(r, s, s', t)
    || Return(r, s, s', t) || CheckMode(r, s, s', t) || CheckFinished(r, s, s', t) || ChangeMode(r, s, s', t)
    || SetUpdated(r, s, s', t) || ReadLatest(r, s, s', t) || RaiseLatest(r, s, s', t)
    || ResetFinished(r, s, s', t)
    || LookMode(r, s, s', t) || LookLatest(r, s, s', t) || LookVersion(r, s, s', t) || CatchUp(r, s, s', t)
  }

  /** A run of the round: `who[i]` takes the step from state `i`. */
  ghost predicate Run(r: Round, states: seq<State>, who: seq<nat>) {
    && |states| == |who| + 1 && Init(r, states[0])
    && forall i, j {:trigger states[j], who[i]} | 0 <= i < |who| && j == i + 1 :: Step(r, states[i], states[j], who[i])
  }

  // ---- the invariant

  predicate Busy(ph: Phase, p: nat) {
    (ph.Working? || ph.Storing? || ph.Stored?) && ph.p == p
  }

  predicate Ending(ph: Phase) {
    ph.Winner? || ph.Updating? || ph.Bumping? || ph.Resetting?
  }

  /** What one thread's position says about the shared variables. */
  ghost predicate ThreadInv(r: Round, s: State, t: nat)
    requires t < |s.phase| == |s.versions| == |r.initial|
  {
    var ph := s.phase[t];
    && (s.versions[t] == r.initial[t] || s.versions[t] == r.version + 1)
    && (ph.Loaded? || ph.Guarded? ==> ph.p < r.partitions)
    && (ph.Guarded? && s.latest == r.version ==> s.versions[t] == r.version)
    && (ph.Working? || ph.Storing? || ph.Stored? ==> ph.p in s.owner && s.owner[ph.p] == t && ph.p !in s.done)
    && (ph.Storing? ==> ph.ver == r.version)
    && (ph.Stored? ==> s.versions[t] == r.version + 1)
    && (ph.SawAll? ==> |s.done| == r.partitions)
    && (Ending(ph) ==> s.mode == MergedMode && s.winner == t)
    && (ph.Winner? ==> !s.updated)
    && (ph.Winner? || ph.Updating? ==> s.latest == r.version)
    && (ph.Bumping? ==> s.latest == r.version == ph.ver)
    && (ph.Resetting? ==> s.latest == r.version + 1)
    && (ph.SawMerged? ==> s.mode == MergedMode)
    && (ph.SawRisen? || ph.Behind? ==> s.mode == MergedMode && s.latest == r.version + 1)
  }

  /** What the owner of a partition is doing, or has done. */
  ghost predicate OwnerInv(r: Round, s: State, p: nat)
    requires p in s.owner && |s.phase| == |s.versions| == |r.initial|
  {
    var t := s.owner[p];
    && t < |s.phase| && r.initial[t] == r.version
    && (if p in s.done then s.versions[t] == r.version + 1 else Busy(s.phase[t], p))
  }

  ghost predicate Inv(r: Round, s: State) {
    && |s.phase| == |s.versions| == |r.initial| && s.processing <= r.partitions
    && (forall p: nat {:trigger p in s.owner} :: p in s.owner <==> p < s.processing)
    && s.done <= s.owner.Keys
    && (forall p, q {:trigger s.owner[p], s.owner[q]} | p in s.owner && q in s.owner && s.owner[p] == s.owner[q] :: p == q)
    && (forall p {:trigger s.owner[p]} | p in s.owner :: OwnerInv(r, s, p))
    && (forall t {:trigger ThreadInv(r, s, t)} | 0 <= t < |s.phase| :: ThreadInv(r, s, t))
    && (s.mode == MergingMode ==> s.finished == |s.done| && !s.updated && s.latest == r.version)
    && (s.mode == MergedMode ==>
          && |s.done| == r.partitions && s.winner < |s.phase|
          && (s.finished == r.partitions || s.finished == 0)
          && s.latest == if Ending(s.phase[s.winner]) && !s.phase[s.winner].Resetting? then r.version else r.version + 1)
  }

  lemma {:induction false} SizeBelow(a: set<nat>, n: nat)
    requires forall x | x in a :: x < n
    ensures |a| <= n
    ensures |a| == n ==> forall x: nat | x < n :: x in a
  {
    if n > 0 {
      SizeBelow(a - {n - 1}, n - 1);
      if n - 1 in a { assert |a - {n - 1}| == |a| - 1; }
    }
  }

  /** Once as many partitions are finished as there are, all are claimed. */
  lemma AllClaimed(r: Round, s: State)
    requires Inv(r, s)
    ensures |s.done| <= s.processing
    ensures |s.done| == r.partitions ==> s.processing == r.partitions && forall p: nat | p < r.partitions :: p in s.done
  {
    SizeBelow(s.done, s.processing);
  }

  lemma InitInv(r: Round, s: State)
    requires Init(r, s)
    ensures Inv(r, s)
  {
  }

  /** A step that only moves thread `t`, not into or out of work or the ending. */
  lemma MoveKeepsInv(r: Round, s: State, s': State, t: nat, to: Phase)
    requires Inv(r, s) && t < |s.phase| && s' == s.(phase := s.phase[t := to]) && ThreadInv(r, s', t)
    requires forall p: nat | Busy(s.phase[t], p) :: Busy(to, p)
    requires Ending(s.phase[t]) == Ending(to) && s.phase[t].Resetting? == to.Resetting?
    ensures Inv(r, s')
  {
    forall u | 0 <= u < |s'.phase| ensures ThreadInv(r, s', u) {
      assert ThreadInv(r, s, u);
    }
    forall p | p in s'.owner ensures OwnerInv(r, s', p) {
      assert OwnerInv(r, s, p);
    }
  }

  lemma ObtainKeepsInv(r: Round, s: State, s': State, t: nat)
    requires Inv(r, s) && (LoadTask(r, s, s', t) || CheckVersion(r, s, s', t))
    ensures Inv(r, s')
  {
    assert ThreadInv(r, s, t);
    MoveKeepsInv(r, s, s', t, s'.phase[t]);
  }

  lemma ClaimKeepsInv(r: Round, s: State, s': State, t: nat)
    requires Inv(r, s) && ClaimTask(r, s, s', t)
    ensures Inv(r, s')
  {
    assert ThreadInv(r, s, t);
    if s.processing != s.phase[t].p {
      MoveKeepsInv(r, s, s', t, Checking);
    } else {
      ClaimedThreads(r, s, s', t);
      ClaimedOwners(r, s, s', t);
    }
  }

  lemma ClaimedThreads(r: Round, s: State, s': State, t: nat)
    requires Inv(r, s) && ClaimTask(r, s, s', t) && s.processing == s.phase[t].p
    ensures |s'.phase| == |s.phase| && s'.mode == MergingMode
    ensures forall u {:trigger ThreadInv(r, s', u)} | 0 <= u < |s'.phase| :: ThreadInv(r, s', u)
  {
    assert ThreadInv(r, s, t);
    AllClaimed(r, s);
    assert s.latest == r.version;
    forall u | 0 <= u < |s'.phase| ensures ThreadInv(r, s', u) {
      assert ThreadInv(r, s, u);
    }
  }

  lemma ClaimedOwners(r: Round, s: State, s': State, t: nat)
    requires Inv(r, s) && ClaimTask(r, s, s', t) && s.processing == s.phase[t].p
    ensures |s'.phase| == |s.phase| && s'.processing <= r.partitions
    ensures forall p {:trigger s'.owner[p]} | p in s'.owner :: OwnerInv(r, s', p) && (p != s.processing ==> s'.owner[p] != t)
  {
    assert ThreadInv(r, s, t);
    AllClaimed(r, s);
    assert s.latest == r.version;
    forall p | p in s'.owner ensures OwnerInv(r, s', p) && (p != s.processing ==> s'.owner[p] != t) {
      if p != s.processing { assert OwnerInv(r, s, p); }
    }
  }

  lemma WorkKeepsInv(r: Round, s: State, s': State, t: nat)
    requires Inv(r, s) && (ReadVersion(r, s, s', t) || StoreFile(r, s, s', t))
    ensures Inv(r, s')
  {
    assert ThreadInv(r, s, t);
    AllClaimed(r, s);
    forall u | 0 <= u < |s'.phase| ensures ThreadInv(r, s', u) {
      assert ThreadInv(r, s, u);
    }
    forall p | p in s'.owner ensures OwnerInv(r, s', p) {
      assert OwnerInv(r, s, p);
    }
  }

  lemma FinishKeepsInv(r: Round, s: State, s': State, t: nat)
    requires Inv(r, s) && FinishMerge(r, s, s', t)
    ensures Inv(r, s')
  {
    assert ThreadInv(r, s, t);
    AllClaimed(r, s);
    SizeBelow(s'.done, r.partitions);
    FinishedThreads(r, s, s', t);
    forall p | p in s'.owner ensures OwnerInv(r, s', p) {
      assert OwnerInv(r, s, p);
    }
  }

  lemma FinishedThreads(r: Round, s: State, s': State, t: nat)
    requires Inv(r, s) && FinishMerge(r, s, s', t)
    ensures |s'.phase| == |s.phase|
    ensures forall u {:trigger ThreadInv(r, s', u)} | 0 <= u < |s'.phase| :: ThreadInv(r, s', u)
  {
    assert ThreadInv(r, s, t);
    AllClaimed(r, s);
    SizeBelow(s'.done, r.partitions);
    forall u | 0 <= u < |s'.phase| ensures ThreadInv(r, s', u) {
      assert ThreadInv(r, s, u);
    }
  }

  lemma CheckKeepsInv(r: Round, s: State, s': State, t: nat)
    requires Inv(r, s)
    requires Return(r, s, s', t) || CheckMode(r, s, s', t) || CheckFinished(r, s, s', t)
    ensures Inv(r, s')
  {
    assert ThreadInv(r, s, t);
    MoveKeepsInv(r, s, s', t, s'.phase[t]);
  }

  lemma ChangeModeKeepsInv(r: Round, s: State, s': State, t: nat)
    requires Inv(r, s) && ChangeMode(r, s, s', t)
    ensures Inv(r, s')
  {
    assert ThreadInv(r, s, t);
    if s.mode == MergedMode {
      MoveKeepsInv(r, s, s', t, Idle);
    } else {
      forall u | 0 <= u < |s'.phase| ensures ThreadInv(r, s', u) {
        assert ThreadInv(r, s, u);
      }
      forall p | p in s'.owner ensures OwnerInv(r, s', p) {
        assert OwnerInv(r, s, p);
      }
    }
  }

  lemma UpdateKeepsInv(r: Round, s: State, s': State, t: nat)
    requires Inv(r, s) && (SetUpdated(r, s, s', t) || ReadLatest(r, s, s', t))
    ensures Inv(r, s')
  {
    assert ThreadInv(r, s, t);
    forall u | 0 <= u < |s'.phase| ensures ThreadInv(r, s', u) {
      assert ThreadInv(r, s, u);
    }
    forall p | p in s'.owner ensures OwnerInv(r, s', p) {
      assert OwnerInv(r, s, p);
    }
  }

  lemma RaiseKeepsInv(r: Round, s: State, s': State, t: nat)
    requires Inv(r, s) && (RaiseLatest(r, s, s', t) || ResetFinished(r, s, s', t))
    ensures Inv(r, s')
  {
    assert ThreadInv(r, s, t);
    forall u | 0 <= u < |s'.phase| ensures ThreadInv(r, s', u) {
      assert ThreadInv(r, s, u);
    }
    forall p | p in s'.owner ensures OwnerInv(r, s', p) {
      assert OwnerInv(r, s, p);
    }
  }

  lemma LookKeepsInv(r: Round, s: State, s': State, t: nat)
    requires Inv(r, s) && (LookMode(r, s, s', t) || LookLatest(r, s, s', t) || LookVersion(r, s, s', t))
    ensures Inv(r, s')
  {
    assert ThreadInv(r, s, t);
    MoveKeepsInv(r, s, s', t, s'.phase[t]);
  }

  lemma CatchUpKeepsInv(r: Round, s: State, s': State, t: nat)
    requires Inv(r, s) && CatchUp(r, s, s', t)
    ensures Inv(r, s')
  {
    assert ThreadInv(r, s, t);
    forall u | 0 <= u < |s'.phase| ensures ThreadInv(r, s', u) {
      assert ThreadInv(r, s, u);
    }
    forall p | p in s'.owner ensures OwnerInv(r, s', p) {
      assert OwnerInv(r, s, p);
    }
  }

  // ---- every reachable state

  lemma StepKeepsInv(r: Round, s: State, s': State, t: nat)
    requires Inv(r, s) && Step(r, s, s', t)
    ensures Inv(r, s')
  {
    if LoadTask(r, s, s', t) || CheckVersion(r, s, s', t) {
      ObtainKeepsInv(r, s, s', t);
    } else if ClaimTask(r, s, s', t) {
      ClaimKeepsInv(r, s, s', t);
    } else if ReadVersion(r, s, s', t) || StoreFile(r, s, s', t) {
      WorkKeepsInv(r, s, s', t);
    } else if FinishMerge(r, s, s', t) {
      FinishKeepsInv(r, s, s', t);
    } else if Return(r, s, s', t) || CheckMode(r, s, s', t) || CheckFinished(r, s, s', t) {
      CheckKeepsInv(r, s, s', t);
    } else if ChangeMode(r, s, s', t) {
      ChangeModeKeepsInv(r, s, s', t);
    } else if SetUpdated(r, s, s', t) || ReadLatest(r, s, s', t) {
      UpdateKeepsInv(r, s, s', t);
    } else if RaiseLatest(r, s, s', t) || ResetFinished(r, s, s', t) {
      RaiseKeepsInv(r, s, s', t);
    } else if LookMode(r, s, s', t) || LookLatest(r, s, s', t) || LookVersion(r, s, s', t) {
      LookKeepsInv(r, s, s', t);
    } else {
      CatchUpKeepsInv(r, s, s', t);
    }
  }

  lemma {:induction false} RunKeepsInv(r: Round, states: seq<State>, who: seq<nat>, i: nat)
    requires Run(r, states, who) && i < |states|
    ensures Inv(r, states[i])
  {
    if i == 0 {
      InitInv(r, states[0]);
    } else {
      RunKeepsInv(r, states, who, i - 1);
      assert Step(r, states[i - 1], states[i], who[i - 1]);
      StepKeepsInv(r, states[i - 1], states[i], who[i - 1]);
    }
  }

  /** The hand-out is exact: the claimed partitions are those below the partition
      counter, each has one owner, and no thread owns two. */
  lemma HandOutIsExact(r: Round, states: seq<State>, who: seq<nat>, i: nat)
    requires Run(r, states, who) && i < |states|
    ensures var s := states[i];
      && s.processing <= r.partitions
      && (forall p: nat {:trigger p in s.owner} :: p in s.owner <==> p < s.processing)
      && (forall p | p in s.owner :: s.owner[p] < |r.initial|)
      && (forall p, q | p in s.owner && q in s.owner && s.owner[p] == s.owner[q] :: p == q)
  {
    RunKeepsInv(r, states, who, i);
    var s := states[i];
    forall p | p in s.owner ensures s.owner[p] < |r.initial| {
      assert OwnerInv(r, s, p);
    }
  }

  /** The round ends only after every partition is finished, and the version
      rises by one, which it has when the thread that ended the round is through. */
  lemma EndsOnce(r: Round, states: seq<State>, who: seq<nat>, i: nat)
    requires Run(r, states, who) && i < |states|
    ensures var s := states[i];
      && (s.mode == MergedMode ==> forall p: nat | p < r.partitions :: p in s.done)
      && (s.latest == r.version || s.latest == r.version + 1)
      && (s.latest == r.version + 1 ==> s.mode == MergedMode)
      && (s.mode == MergedMode && s.winner < |s.phase| && !Ending(s.phase[s.winner]) ==> s.latest == r.version + 1)
  {
    RunKeepsInv(r, states, who, i);
    AllClaimed(r, states[i]);
  }

  ghost predicate Preserves(s: State, s': State) {
    && (forall p | p in s.owner :: p in s'.owner && s'.owner[p] == s.owner[p])
    && s.done <= s'.done && s.latest <= s'.latest
    && (s.mode == MergedMode ==> s'.mode == MergedMode && s'.winner == s.winner)
  }

  lemma StepPreserves(r: Round, s: State, s': State, t: nat)
    requires s.processing !in s.owner && Step(r, s, s', t)
    ensures Preserves(s, s')
  {
    if ClaimTask(r, s, s', t) {
    } else if ChangeMode(r, s, s', t) {
    } else if FinishMerge(r, s, s', t) || RaiseLatest(r, s, s', t) {
    } else {
      assert s'.owner == s.owner && s'.done == s.done && s'.latest == s.latest;
    }
  }

  /** Nothing is taken back: an owner keeps its partition, finished work stays
      finished, the mode does not return and the version does not fall. */
  lemma {:induction false} Monotone(r: Round, states: seq<State>, who: seq<nat>, i: nat, j: nat)
    requires Run(r, states, who) && i <= j < |states|
    ensures Preserves(states[i], states[j])
  {
    if i < j {
      Monotone(r, states, who, i, j - 1);
      RunKeepsInv(r, states, who, j - 1);
      StepPreserves(r, states[j - 1], states[j], who[j - 1]);
    }
  }

  // ---- how many threads a round needs

  /** The threads that had the latest file open when the round started. */
  ghost function Current(r: Round): set<nat> {
    set t: nat | t < |r.initial| && r.initial[t] == r.version
  }

  ghost function FirstOwners(s: State, k: nat): set<nat>
    requires forall p: nat | p < k :: p in s.owner
  {
    if k == 0 then {} else FirstOwners(s, k - 1) + {s.owner[k - 1]}
  }

  lemma {:induction false} OwnersDistinct(r: Round, s: State, k: nat)
    requires Inv(r, s) && k <= s.processing
    ensures |FirstOwners(s, k)| == k && FirstOwners(s, k) <= Current(r)
    ensures forall p | p in s.owner && k <= p :: s.owner[p] !in FirstOwners(s, k)
  {
    if k > 0 {
      OwnersDistinct(r, s, k - 1);
      assert OwnerInv(r, s, k - 1);
    }
  }

  /** A thread serves once a round, so a round can only end if it starts with at
      least as many threads on the latest version as there are partitions. */
  lemma EndNeedsThreads(r: Round, states: seq<State>, who: seq<nat>, i: nat)
    requires Run(r, states, who) && i < |states| && states[i].mode == MergedMode
    ensures r.partitions <= |Current(r)|
  {
    var s := states[i];
    RunKeepsInv(r, states, who, i);
    AllClaimed(r, s);
    OwnersDistinct(r, s, r.partitions);
    SubsetSize(FirstOwners(s, r.partitions), Current(r));
  }

  lemma {:induction false} SubsetSize(a: set<nat>, b: set<nat>)
    requires a <= b
    ensures |a| <= |b|
  {
    if a != {} {
      var x :| x in a;
      SubsetSize(a - {x}, b - {x});
    }
  }

  // ---- enough threads are also sufficient

  lemma Extend(r: Round, states: seq<State>, who: seq<nat>, s': State, t: nat)
    requires Run(r, states, who) && Step(r, states[|who|], s', t)
    ensures Run(r, states + [s'], who + [t])
  {
  }

  /** Between two sub-merges of a round in which the threads take turns. */
  ghost predicate Quiet(r: Round, s: State, k: nat) {
    && |s.phase| == |s.versions| == |r.initial|
    && s.processing == k && s.finished == k && s.mode == MergingMode && s.latest == r.version
    && forall t {:trigger s.phase[t]} | 0 <= t < |s.phase| :: s.phase[t] == Idle
  }

  /** A thread on the latest version takes the next partition, merges it and returns. */
  lemma Serve(r: Round, states: seq<State>, who: seq<nat>, k: nat, t: nat) returns (states': seq<State>, who': seq<nat>)
    requires Run(r, states, who) && Quiet(r, states[|who|], k) && k < r.partitions
    requires t < |r.initial| && states[|who|].versions[t] == r.version
    ensures Run(r, states', who') && states'[0] == states[0] && Quiet(r, states'[|who'|], k + 1)
    ensures forall u | 0 <= u < |r.initial| && u != t :: states'[|who'|].versions[u] == states[|who|].versions[u]
  {
    var s0 := states[|who|];
    var s1 := s0.(phase := s0.phase[t := Loaded(k)]);
    Extend(r, states, who, s1, t);
    states', who' := states + [s1], who + [t];
    var s2 := s1.(phase := s1.phase[t := Guarded(k)]);
    Extend(r, states', who', s2, t);
    states', who' := states' + [s2], who' + [t];
    var s3 := s2.(processing := k + 1, owner := s2.owner[k := t], phase := s2.phase[t := Working(k)]);
    Extend(r, states', who', s3, t);
    states', who' := states' + [s3], who' + [t];
    var s4 := s3.(phase := s3.phase[t := Storing(k, r.version)]);
    Extend(r, states', who', s4, t);
    states', who' := states' + [s4], who' + [t];
    var s5 := s4.(versions := s4.versions[t := r.version + 1], phase := s4.phase[t := Stored(k)]);
    Extend(r, states', who', s5, t);
    states', who' := states' + [s5], who' + [t];
    var s6 := s5.(finished := k + 1, done := s5.done + {k}, phase := s5.phase[t := Checking]);
    Extend(r, states', who', s6, t);
    states', who' := states' + [s6], who' + [t];
    var s7 := s6.(phase := s6.phase[t := Idle]);
    Extend(r, states', who', s7, t);
    states', who' := states' + [s7], who' + [t];
  }

  lemma Close(r: Round, states: seq<State>, who: seq<nat>, t: nat) returns (states': seq<State>, who': seq<nat>)
    requires Run(r, states, who) && Quiet(r, states[|who|], r.partitions) && t < |r.initial|
    ensures Run(r, states', who') && states'[0] == states[0] && states'[|who'|].mode == MergedMode
  {
    var s0 := states[|who|];
    var s1 := s0.(phase := s0.phase[t := Checking]);
    Extend(r, states, who, s1, t);
    states', who' := states + [s1], who + [t];
    var s2 := s1.(phase := s1.phase[t := SawMerging]);
    Extend(r, states', who', s2, t);
    states', who' := states' + [s2], who' + [t];
    var s3 := s2.(phase := s2.phase[t := SawAll]);
    Extend(r, states', who', s3, t);
    states', who' := states' + [s3], who' + [t];
    var s4 := s3.(mode := MergedMode, winner := t, phase := s3.phase[t := Winner]);
    Extend(r, states', who', s4, t);
    states', who' := states' + [s4], who' + [t];
  }

  /** With as many threads on the latest version as there are partitions, the
      round can end: here is a run that does. */
  lemma EnoughThreadsCanEnd(r: Round, s: State) returns (states: seq<State>, who: seq<nat>)
    requires Init(r, s) && r.partitions <= |Current(r)| && |r.initial| > 0
    ensures Run(r, states, who) && states[0] == s && states[|who|].mode == MergedMode
  {
    states, who := [s], [];
    var waiting, k := Current(r), 0;
    while k < r.partitions
      invariant k <= r.partitions && Run(r, states, who) && states[0] == s && Quiet(r, states[|who|], k)
      invariant waiting <= Current(r) && |waiting| >= r.partitions - k
      invariant forall t | t in waiting :: states[|who|].versions[t] == r.version
    {
      var t :| t in waiting;
      states, who := Serve(r, states, who, k, t);
      waiting, k := waiting - {t}, k + 1;
    }
    states, who := Close(r, states, who, 0);
  }
}
