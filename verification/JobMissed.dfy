/** Which transactions a finished run left without a prediction, told by what its
    passes and its failure handler did: exactly when a job ends incomplete with
    nothing left to retry, exactly when it lacks nothing, and exactly when the words
    of the refusal are right. */
module JobMissed {
  import opened Collections
  import opened JobModel
  import opened JobAccounts
  import opened JobAttribution
  import opened JobTheorems
  import opened JobHistory
  import opened JobOverlooked

  // ---- what became of one transaction ---------------------------------------------------------

  /** Chunk `i` scored `t` at `m`, in the run of state `k`. */
  ghost predicate ScoresInRun(ss: seq<State>, acts: seq<Action>, m: nat, k: nat, i: nat, t: TxnId)
    requires |ss| == |acts| + 1
  {
    m < k < |ss| && ScoresAt(ss, acts, m, i, t) && OneRun(acts, m, k)
  }

  ghost predicate ScoredInRun(ss: seq<State>, acts: seq<Action>, k: nat, i: nat, t: TxnId)
    requires |ss| == |acts| + 1
  {
    exists m: nat :: ScoresInRun(ss, acts, m, k, i, t)
  }

  /** A skip of `t` that lasts until `k`. */
  ghost predicate SkippedLastingly(ss: seq<State>, acts: seq<Action>, k: nat, t: TxnId)
    requires |ss| == |acts| + 1
  {
    exists m: nat, i: nat :: LastingSkip(ss, acts, m, k, i, t)
  }

  /** A skip of `t` that lasts until `k` and before which no attempt had scored it. */
  ghost predicate SkippedUnscored(ss: seq<State>, acts: seq<Action>, k: nat, t: TxnId)
    requires |ss| == |acts| + 1
  {
    exists m: nat, i: nat :: LastingSkip(ss, acts, m, k, i, t) && !ScoredBefore(ss, acts, m, i, t)
  }

  /** `t` is on chunk `i`, whose outcome is recorded. */
  predicate OnRecorded(s: State, i: nat, t: TxnId) {
    i < |s.chunks| && t in s.chunks[i].ids && s.chunks[i].phase.Recorded?
  }

  /** Chunk `i` counted `t` as failed: given up before any attempt had scored it, or
      skipped by the pass that was recorded. */
  ghost predicate Fails(ss: seq<State>, acts: seq<Action>, k: nat, i: nat, t: TxnId)
    requires |ss| == |acts| + 1
  {
    && k < |ss| && OnRecorded(ss[k], i, t)
    && if ss[k].chunks[i].phase.salvaged then !ScoredInRun(ss, acts, k, i, t) else SkippedLastingly(ss, acts, k, t)
  }

  /** Chunk `i` missed `t`: no attempt of the run scored it, neither the pass that was
      recorded nor an earlier one. */
  ghost predicate Misses(ss: seq<State>, acts: seq<Action>, k: nat, i: nat, t: TxnId)
    requires |ss| == |acts| + 1
  {
    && k < |ss| && OnRecorded(ss[k], i, t)
    && if ss[k].chunks[i].phase.salvaged then !ScoredInRun(ss, acts, k, i, t) else SkippedUnscored(ss, acts, k, t)
  }

  /** On a chunk, a transaction has its prediction exactly when an attempt of this run
      at that chunk scored it. */
  lemma ScoredInRunExactly(ss: seq<State>, acts: seq<Action>, k: nat, i: nat, t: TxnId)
    requires Behaviour(ss, acts) && Undisturbed(ss, acts) && k < |ss|
    requires i < |ss[k].chunks| && t in ss[k].chunks[i].ids
    ensures t in Owned(ss[k]) <==> ScoredInRun(ss, acts, k, i, t)
  {
    if t in Owned(ss[k]) {
      var m := ScoredByItsChunk(ss, acts, k, i, t);
      assert ScoresInRun(ss, acts, m, k, i, t);
    }
    if m: nat :| ScoresInRun(ss, acts, m, k, i, t) {
      ScoredStaysOwned(ss, acts, m, k, i, t);
    }
  }

  lemma SkippedUnscoredExactly(ss: seq<State>, acts: seq<Action>, k: nat, t: TxnId)
    requires Behaviour(ss, acts) && Undisturbed(ss, acts) && k < |ss|
    ensures SkippedUnscored(ss, acts, k, t) <==> t in ss[k].skipped && t !in Owned(ss[k])
  {
    if t in ss[k].skipped {
      var m, i := WhenSkipped(ss, acts, k, t);
      SkippedScoredExactly(ss, acts, m, k, i, t);
    }
    if m: nat, i: nat :| LastingSkip(ss, acts, m, k, i, t) && !ScoredBefore(ss, acts, m, i, t) {
      SkippedScoredExactly(ss, acts, m, k, i, t);
      WhileSkipped(ss, acts, m, k, i, t);
    }
  }

  lemma RecordedTallied(s: State, i: nat)
    requires AllRecorded(s.chunks, Owned(s), s.skipped) && i < |s.chunks|
    ensures s.chunks[i].phase.Recorded? && PhaseOk(s.chunks[i])
    ensures Honest(s.chunks[i], Owned(s)) && Tallied(s.chunks[i], Owned(s), s.skipped)
  {
  }

  /** In a finished run a transaction lacks its prediction exactly when its chunk
      missed it. */
  lemma MissedExactly(ss: seq<State>, acts: seq<Action>, k: nat, i: nat, t: TxnId)
    requires Behaviour(ss, acts) && Undisturbed(ss, acts) && k < |ss| && !InFlight(ss[k].row.status)
    requires i < |ss[k].chunks| && t in ss[k].chunks[i].ids
    ensures t !in Owned(ss[k]) <==> Misses(ss, acts, k, i, t)
  {
    FinishedHolds(ss, acts, k);
    RecordedTallied(ss[k], i);
    ScoredInRunExactly(ss, acts, k, i, t);
    SkippedUnscoredExactly(ss, acts, k, t);
  }

  lemma ChunkFailedExactly(ss: seq<State>, acts: seq<Action>, k: nat, i: nat, t: TxnId)
    requires Behaviour(ss, acts) && Undisturbed(ss, acts) && k < |ss| && !InFlight(ss[k].row.status)
    requires i < |ss[k].chunks| && t in ss[k].chunks[i].ids
    ensures CountedFailed(ss[k].chunks[i], Owned(ss[k]), ss[k].skipped, t) <==> Fails(ss, acts, k, i, t)
  {
    FinishedHolds(ss, acts, k);
    RecordedTallied(ss[k], i);
    ScoredInRunExactly(ss, acts, k, i, t);
    SkippedExactly(ss, acts, k, t);
  }

  /** ... and was counted as failed exactly when a lasting skip hit it, or its chunk was
      given up before any attempt had scored it. */
  lemma FailedExactly(ss: seq<State>, acts: seq<Action>, k: nat, t: TxnId)
    requires Behaviour(ss, acts) && Undisturbed(ss, acts) && k < |ss| && !InFlight(ss[k].row.status)
    ensures t in RunFailed(ss[k]) <==> exists i: nat :: Fails(ss, acts, k, i, t)
  {
    var s := ss[k];
    if t in RunFailed(s) {
      var i: nat :| i < |s.chunks| && CountedFailed(s.chunks[i], Owned(s), s.skipped, t);
      ChunkFailedExactly(ss, acts, k, i, t);
    }
    if i: nat :| Fails(ss, acts, k, i, t) {
      ChunkFailedExactly(ss, acts, k, i, t);
      assert t in RunIds(s.chunks);
    }
  }

  // ---- what a retry excused -----------------------------------------------------------------------

  /** What the run excused is on the roster, on none of its chunks, and without a
      prediction. */
  ghost predicate ExcusedApart(s: State) {
    s.excused <= Elements(s.roster) && s.excused !! Owned(s) && s.excused !! RunIds(s.chunks)
  }

  lemma RetryExcuses(s: State, a: Action, s': State)
    requires Moves(s, a, s') && a.Retry?
    ensures ExcusedApart(s')
  {
    RetryShape(s, a, s');
    RetryChunks(a.ids);
    assert Elements(a.ids) == Outstanding(s);
    assert Owned(s') == Owned(s);
  }

  lemma CurrentIsOnRun(s: State, i: nat)
    requires Busy(s, i)
    ensures s.chunks[i].ids[s.chunks[i].phase.pos] in RunIds(s.chunks)
  {
    assert s.chunks[i].ids[s.chunks[i].phase.pos] in s.chunks[i].ids;
  }

  lemma OnlyTheRunGains(s: State, a: Action, s': State)
    requires Moves(s, a, s')
    ensures Owned(s') <= Owned(s) + RunIds(s.chunks)
  {
    forall t | t in Owned(s') && t !in Owned(s) ensures t in RunIds(s.chunks) {
      OnlyScoringGains(s, a, s', t);
      CurrentIsOnRun(s, a.chunk);
    }
  }

  lemma StepKeepsExcused(s: State, a: Action, s': State)
    requires ExcusedApart(s) && Moves(s, a, s') && !a.Retry?
    ensures ExcusedApart(s')
  {
    StepKeepsIds(s, a, s');
    SameRunIds(s.chunks, s'.chunks);
    OnlyTheRunGains(s, a, s');
  }

  lemma ExcusedStep(ss: seq<State>, acts: seq<Action>, k: nat, s': State)
    requires Behaviour(ss, acts) && Undisturbed(ss, acts) && k < |acts| && ExcusedApart(ss[k]) && s' == ss[k + 1]
    ensures ExcusedApart(s')
  {
    StepAt(ss, acts, k);
    if acts[k].Retry? {
      RetryExcuses(ss[k], acts[k], s');
    } else {
      StepKeepsExcused(ss[k], acts[k], s');
    }
  }

  lemma FirstExcusesNothing(ss: seq<State>, acts: seq<Action>)
    requires Behaviour(ss, acts)
    ensures ExcusedApart(ss[0])
  {
  }

  lemma {:induction false} BehaviourExcused(ss: seq<State>, acts: seq<Action>, k: nat)
    requires Behaviour(ss, acts) && Undisturbed(ss, acts) && k < |ss|
    ensures ExcusedApart(ss[k])
  {
    if k == 0 {
      FirstExcusesNothing(ss, acts);
    } else {
      var j: nat := k - 1;
      BehaviourExcused(ss, acts, j);
      ExcusedStep(ss, acts, j, ss[k]);
    }
  }

  // ---- what is left to retry ----------------------------------------------------------------------

  /** Everything the run missed has been soft-deleted. */
  ghost predicate MissedAreDeleted(ss: seq<State>, acts: seq<Action>, k: nat)
    requires |ss| == |acts| + 1 && k < |ss|
  {
    forall i: nat, t :: Misses(ss, acts, k, i, t) ==> t in ss[k].deleted
  }

  /** The run counted something as failed. */
  ghost predicate SomethingFailed(ss: seq<State>, acts: seq<Action>, k: nat)
    requires |ss| == |acts| + 1
  {
    exists i: nat, t :: Fails(ss, acts, k, i, t)
  }

  lemma OutstandingIsMissed(ss: seq<State>, acts: seq<Action>, k: nat, t: TxnId)
    requires Behaviour(ss, acts) && Undisturbed(ss, acts) && k < |ss| && !InFlight(ss[k].row.status)
    ensures t in Outstanding(ss[k]) <==> t !in ss[k].deleted && exists i: nat :: Misses(ss, acts, k, i, t)
  {
    var s := ss[k];
    FinishedHolds(ss, acts, k);
    FinishedExactly(ss, acts, k);
    RunInRoster(s);
    if t in Outstanding(s) {
      assert t in RunIds(s.chunks);
      var i: nat :| i < |s.chunks| && t in s.chunks[i].ids;
      MissedExactly(ss, acts, k, i, t);
    }
    if i: nat :| Misses(ss, acts, k, i, t) {
      MissedExactly(ss, acts, k, i, t);
      assert t in RunIds(s.chunks);
    }
  }

  lemma NothingOutstanding(ss: seq<State>, acts: seq<Action>, k: nat)
    requires Behaviour(ss, acts) && Undisturbed(ss, acts) && k < |ss| && !InFlight(ss[k].row.status)
    ensures Outstanding(ss[k]) == {} <==> MissedAreDeleted(ss, acts, k)
  {
    forall t ensures t in Outstanding(ss[k]) <==> t !in ss[k].deleted && exists i: nat :: Misses(ss, acts, k, i, t) {
      OutstandingIsMissed(ss, acts, k, t);
    }
    if Outstanding(ss[k]) != {} {
      var t :| t in Outstanding(ss[k]);
      var i: nat :| Misses(ss, acts, k, i, t);
    }
  }

  lemma RetryableExactly(ss: seq<State>, acts: seq<Action>, k: nat)
    requires Behaviour(ss, acts) && Undisturbed(ss, acts) && k < |ss| && !InFlight(ss[k].row.status)
    ensures Retryable(ss[k].row.status) <==> SomethingFailed(ss, acts, k)
  {
    FinishedExactly(ss, acts, k);
    if RunFailed(ss[k]) != {} {
      var t :| t in RunFailed(ss[k]);
      FailedExactly(ss, acts, k, t);
    }
    if i: nat, t :| Fails(ss, acts, k, i, t) {
      FailedExactly(ss, acts, k, t);
    }
  }

  /** A run ends incomplete with nothing outstanding exactly when it counted something
      as failed, and every transaction that no attempt scored has been soft-deleted. */
  lemma DeadEndExactly(ss: seq<State>, acts: seq<Action>, k: nat)
    requires Behaviour(ss, acts) && Undisturbed(ss, acts) && k < |ss| && !InFlight(ss[k].row.status)
    ensures Retryable(ss[k].row.status) && Outstanding(ss[k]) == {} <==>
              SomethingFailed(ss, acts, k) && MissedAreDeleted(ss, acts, k)
  {
    RetryableExactly(ss, acts, k);
    NothingOutstanding(ss, acts, k);
  }

  /** A finished job can be retried exactly while its run missed a transaction that is
      not soft-deleted. */
  lemma RetryPossibleExactly(ss: seq<State>, acts: seq<Action>, k: nat)
    requires Behaviour(ss, acts) && Undisturbed(ss, acts) && k < |ss| && !InFlight(ss[k].row.status)
    ensures CanRetry(ss[k]) <==> exists i: nat, t :: Misses(ss, acts, k, i, t) && t !in ss[k].deleted
  {
    RetryNeedsOutstanding(ss[k]);
    NothingOutstanding(ss, acts, k);
    if i: nat, t :| Misses(ss, acts, k, i, t) && t !in ss[k].deleted {
      MissedIsFailed(ss, acts, k, i, t);
      RetryableExactly(ss, acts, k);
    }
  }

  lemma MissedIsFailed(ss: seq<State>, acts: seq<Action>, k: nat, i: nat, t: TxnId)
    requires |ss| == |acts| + 1 && Misses(ss, acts, k, i, t)
    ensures Fails(ss, acts, k, i, t)
  {
  }

  // ---- what is missing -------------------------------------------------------------------------------

  /** No chunk of the run was given up, and whatever its recorded passes skipped had
      been scored by an earlier attempt. */
  ghost predicate RunMissedNothing(ss: seq<State>, acts: seq<Action>, k: nat)
    requires |ss| == |acts| + 1 && k < |ss|
  {
    && (forall i: nat :: i < |ss[k].chunks| && ss[k].chunks[i].phase.Recorded? ==> !ss[k].chunks[i].phase.salvaged)
    && (forall m: nat, i: nat, t :: LastingSkip(ss, acts, m, k, i, t) && t in RunIds(ss[k].chunks) ==>
          ScoredBefore(ss, acts, m, i, t))
  }

  /** A chunk that was given up has a transaction no attempt scored. */
  lemma OwnedRunGaveUpNone(s: State, i: nat)
    requires AllRecorded(s.chunks, Owned(s), s.skipped) && RunIds(s.chunks) <= Owned(s) && i < |s.chunks|
    ensures s.chunks[i].phase.Recorded? && !s.chunks[i].phase.salvaged
  {
    RecordedTallied(s, i);
    assert forall t :: t in s.chunks[i].ids ==> t in RunIds(s.chunks);
    HitsBound(s.chunks[i].ids, Owned(s));
  }

  lemma OwnedRunMissedNothing(ss: seq<State>, acts: seq<Action>, k: nat)
    requires Behaviour(ss, acts) && Undisturbed(ss, acts) && k < |ss| && !InFlight(ss[k].row.status)
    requires RunIds(ss[k].chunks) <= Owned(ss[k])
    ensures RunMissedNothing(ss, acts, k)
  {
    FinishedHolds(ss, acts, k);
    forall i: nat | i < |ss[k].chunks| ensures ss[k].chunks[i].phase.Recorded? && !ss[k].chunks[i].phase.salvaged {
      OwnedRunGaveUpNone(ss[k], i);
    }
    forall m: nat, i: nat, t | LastingSkip(ss, acts, m, k, i, t) && t in RunIds(ss[k].chunks)
      ensures ScoredBefore(ss, acts, m, i, t)
    {
      SkippedScoredExactly(ss, acts, m, k, i, t);
    }
  }

  lemma NotMissedOwned(ss: seq<State>, acts: seq<Action>, k: nat, i: nat, t: TxnId)
    requires Behaviour(ss, acts) && Undisturbed(ss, acts) && k < |ss| && !InFlight(ss[k].row.status)
    requires RunMissedNothing(ss, acts, k) && i < |ss[k].chunks| && t in ss[k].chunks[i].ids
    ensures t in Owned(ss[k])
  {
    MissedExactly(ss, acts, k, i, t);
    assert t in RunIds(ss[k].chunks);
  }

  lemma RunMissedNothingOwned(ss: seq<State>, acts: seq<Action>, k: nat)
    requires Behaviour(ss, acts) && Undisturbed(ss, acts) && k < |ss| && !InFlight(ss[k].row.status)
    requires RunMissedNothing(ss, acts, k)
    ensures RunIds(ss[k].chunks) <= Owned(ss[k])
  {
    forall t | t in RunIds(ss[k].chunks) ensures t in Owned(ss[k]) {
      var i: nat :| i < |ss[k].chunks| && t in ss[k].chunks[i].ids;
      NotMissedOwned(ss, acts, k, i, t);
    }
  }

  /** A finished job lacks no prediction exactly when its run missed nothing and found
      nothing to excuse. */
  lemma NothingMissingExactly(ss: seq<State>, acts: seq<Action>, k: nat)
    requires Behaviour(ss, acts) && Undisturbed(ss, acts) && k < |ss| && !InFlight(ss[k].row.status)
    ensures Elements(ss[k].roster) <= Owned(ss[k]) <==> RunMissedNothing(ss, acts, k) && ss[k].excused == {}
  {
    var s := ss[k];
    FinishedHolds(ss, acts, k);
    BehaviourExcused(ss, acts, k);
    RunInRoster(s);
    RosterOwned(Elements(s.roster), Owned(s), RunIds(s.chunks), s.excused);
    if RunIds(s.chunks) <= Owned(s) {
      OwnedRunMissedNothing(ss, acts, k);
    }
    if RunMissedNothing(ss, acts, k) {
      RunMissedNothingOwned(ss, acts, k);
    }
  }

  lemma RosterOwned(roster: set<TxnId>, owned: set<TxnId>, run: set<TxnId>, excused: set<TxnId>)
    requires run <= roster <= owned + run + excused && excused <= roster && excused !! owned
    ensures roster <= owned <==> run <= owned && excused == {}
  {
    if roster <= owned {
      assert forall t :: t in excused ==> t in owned;
    }
  }

  /** When a retry is refused because nothing is left, the words "every transaction
      already has a prediction" are true exactly when no soft-deleted transaction of
      the roster lacks one; that is, when the run missed nothing and excused nothing. */
  lemma RefusalWordsExactly(ss: seq<State>, acts: seq<Action>, k: nat)
    requires Behaviour(ss, acts) && Undisturbed(ss, acts) && k < |ss|
    requires Retryable(ss[k].row.status) && Outstanding(ss[k]) == {}
    ensures Elements(ss[k].roster) <= Owned(ss[k]) <==> Elements(ss[k].roster) * ss[k].deleted - Owned(ss[k]) == {}
    ensures Elements(ss[k].roster) <= Owned(ss[k]) <==> RunMissedNothing(ss, acts, k) && ss[k].excused == {}
  {
    NothingMissingExactly(ss, acts, k);
    var s := ss[k];
    forall t | t in s.roster && t !in Owned(s) ensures t in Elements(s.roster) * s.deleted - Owned(s) {
      assert t !in Outstanding(s);
    }
  }
}
