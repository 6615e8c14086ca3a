/** What every behaviour of the batch-scoring protocol promises. Results that
    need the attribution hypothesis say `Undisturbed`; the others hold whoever
    else writes the prediction table. */
module JobTheorems {
  import opened Collections
  import opened JobModel
  import opened JobAccounts
  import opened JobAttribution

  // ---- conservation ----------------------------------------------------------

  /** The counters account for exactly the chunks recorded since the run began,
      and a finished run accounts for all of them. */
  lemma RunConservation(ss: seq<State>, acts: seq<Action>, k: nat)
    requires Behaviour(ss, acts) && k < |ss|
    ensures var s := ss[k];
            && s.row.processedCount + s.row.failedCount == s.baseProcessed + SumOf(s.chunks, SettledSize)
            && s.row.completedChunks == SumOf(s.chunks, SettledCount) <= s.row.totalChunks == |s.chunks|
            && (!InFlight(s.row.status) ==>
                  s.row.processedCount + s.row.failedCount == s.baseProcessed + SumOf(s.chunks, Size))
  {
    BehaviourAccounts(ss, acts, k);
    SettledAddUp(ss[k].chunks);
    AllSettled(ss[k].chunks);
  }

  /** Chunk results written since the run began. */
  function ResultsThisRun(acts: seq<Action>): nat {
    if acts == [] then 0
    else
      var last, before := acts[|acts| - 1], acts[..|acts| - 1];
      if last.Retry? then 0
      else ResultsThisRun(before) + (if last.Record? || last.Salvage? then 1 else 0)
  }

  lemma StepResults(s: State, a: Action, s': State)
    requires Moves(s, a, s')
    ensures s'.row.completedChunks ==
            if a.Retry? then 0
            else s.row.completedChunks + (if a.Record? || a.Salvage? then 1 else 0)
  {
  }

  ghost predicate KeepsResults(s: State, s': State) {
    && |s'.chunks| == |s.chunks|
    && forall i :: 0 <= i < |s.chunks| && Settled(s.chunks[i]) ==> Settled(s'.chunks[i])
  }

  /** A result is written for a chunk that has none. */
  ghost predicate WritesResult(s: State, a: Action, s': State) {
    (a.Record? || a.Salvage?) ==>
      && a.chunk < |s.chunks| && a.chunk < |s'.chunks|
      && !Settled(s.chunks[a.chunk]) && Settled(s'.chunks[a.chunk])
  }

  lemma WorkerKeepsResult(s: State, a: Action, s': State)
    requires Moves(s, a, s') && WorkerAction(a)
    ensures a.chunk < |s.chunks| == |s'.chunks| && s'.chunks == s.chunks[a.chunk := s'.chunks[a.chunk]]
    ensures Settled(s.chunks[a.chunk]) ==> Settled(s'.chunks[a.chunk])
  {
  }

  lemma StepKeepsResults(s: State, a: Action, s': State)
    requires Moves(s, a, s') && !a.Retry?
    ensures KeepsResults(s, s')
  {
    if WorkerAction(a) {
      WorkerKeepsResult(s, a, s');
    }
  }

  lemma StepWritesResult(s: State, a: Action, s': State)
    requires Moves(s, a, s')
    ensures WritesResult(s, a, s')
  {
  }

  lemma {:induction false} ResultsCount(ss: seq<State>, acts: seq<Action>, k: nat)
    requires Behaviour(ss, acts) && k < |ss|
    ensures ss[k].row.completedChunks == ResultsThisRun(acts[..k])
  {
    if k > 0 {
      ResultsCount(ss, acts, k - 1);
      StepResults(ss[k - 1], acts[k - 1], ss[k]);
      assert acts[..k][..k - 1] == acts[..k - 1];
    } else {
      assert acts[..0] == [];
    }
  }

  /** Each chunk of a run is recorded exactly once: a result is only written for
      a chunk that has none, the chunk then keeps it, and completedChunks is the
      number of results written. */
  lemma RecordedOnce(ss: seq<State>, acts: seq<Action>, k: nat)
    requires Behaviour(ss, acts) && k < |ss|
    ensures ss[k].row.completedChunks == ResultsThisRun(acts[..k])
    ensures k < |acts| ==> WritesResult(ss[k], acts[k], ss[k + 1])
    ensures k < |acts| && !acts[k].Retry? ==> KeepsResults(ss[k], ss[k + 1])
  {
    ResultsCount(ss, acts, k);
    if k < |acts| {
      StepWritesResult(ss[k], acts[k], ss[k + 1]);
      if !acts[k].Retry? {
        StepKeepsResults(ss[k], acts[k], ss[k + 1]);
      }
    }
  }

  // ---- the finaliser -------------------------------------------------------------

  function Finalisations(acts: seq<Action>): nat {
    if acts == [] then 0
    else Finalisations(acts[..|acts| - 1]) + (if acts[|acts| - 1].Finalise? then 1 else 0)
  }

  function Retries(acts: seq<Action>): nat {
    if acts == [] then 0
    else Retries(acts[..|acts| - 1]) + (if acts[|acts| - 1].Retry? then 1 else 0)
  }

  lemma FinaliserIsLast(s: State, i: nat)
    requires Accounts(s) && Enabled(s, Finalise(i))
    ensures InFlight(s.row.status) && s.chunks[i].phase.seen == s.row
    ensures Apply(s, Finalise(i)).row == s.row.(status := Verdict(s.row))
    ensures forall j :: Enabled(s, Finalise(j)) ==> j == i
  {
    assert !s.chunks[i].phase.Recorded?;
  }

  lemma {:induction false} AuditsCount(ss: seq<State>, acts: seq<Action>, k: nat)
    requires Behaviour(ss, acts) && k < |ss|
    ensures Finalisations(acts[..k]) == |ss[k].audits|
    ensures ss[k].runs == 1 + Retries(acts[..k])
  {
    if k == 0 {
      assert acts[..0] == [];
    } else {
      AuditsCount(ss, acts, k - 1);
      BehaviourAccounts(ss, acts, k - 1);
      assert acts[..k][..k - 1] == acts[..k - 1];
      StepAudits(ss[k - 1], acts[k - 1]);
    }
  }

  /** One finaliser per run: a run that has ended was finalised exactly once, by
      a guarded update that did change the row, with the status its final
      counters imply; a run in flight has not been finalised yet. */
  lemma OneFinaliserPerRun(ss: seq<State>, acts: seq<Action>, k: nat)
    requires Behaviour(ss, acts) && k < |ss|
    ensures Finalisations(acts[..k]) + (if InFlight(ss[k].row.status) then 1 else 0) == 1 + Retries(acts[..k])
    ensures Finalisations(acts[..k]) == |ss[k].audits|
    ensures !InFlight(ss[k].row.status) ==>
              && ss[k].audits != [] && ss[k].audits[|ss[k].audits| - 1] == ss[k].row
              && var row := ss[k].row;
                 && (row.status.Completed? <==> row.failedCount == 0)
                 && (row.status.Failed? <==> row.failedCount > 0 && row.processedCount == 0)
                 && (row.status.PartiallyCompleted? <==> row.failedCount > 0 && row.processedCount > 0)
    ensures k < |acts| && acts[k].Finalise? ==>
              && InFlight(ss[k].row.status) && !InFlight(ss[k + 1].row.status)
              && ss[k + 1].row == ss[k].row.(status := ss[k + 1].row.status)
  {
    AuditsCount(ss, acts, k);
    BehaviourAccounts(ss, acts, k);
    SettledAddUp(ss[k].chunks);
    if k < |acts| && acts[k].Finalise? {
      FinaliserIsLast(ss[k], acts[k].chunk);
    }
  }

  lemma StepAudits(s: State, a: Action)
    requires Accounts(s) && Enabled(s, a)
    ensures var s' := Apply(s, a);
            && s'.runs == s.runs + (if a.Retry? then 1 else 0)
            && |s'.audits| == |s.audits| + (if a.Finalise? then 1 else 0)
  {
    if a.Finalise? {
      FinaliserIsLast(s, a.chunk);
    }
  }

  // ---- status ----------------------------------------------------------------------

  /** Terminal exactly when every chunk of the run is recorded and finalised, and
      then nothing but a retry moves the row or the chunks. */
  lemma TerminalExactly(ss: seq<State>, acts: seq<Action>, k: nat)
    requires Behaviour(ss, acts) && k < |ss|
    ensures !InFlight(ss[k].row.status) <==>
            forall i :: 0 <= i < |ss[k].chunks| ==> ss[k].chunks[i].phase.Recorded?
    ensures k < |acts| && !InFlight(ss[k].row.status) && !acts[k].Retry? ==>
              ss[k + 1].row == ss[k].row && ss[k + 1].chunks == ss[k].chunks
    ensures k < |acts| && acts[k].Retry? ==>
              forall i :: 0 <= i < |ss[k].chunks| ==> ss[k].chunks[i].phase.Recorded?
  {
    BehaviourAccounts(ss, acts, k);
  }

  /** QUEUED exactly as long as no worker has taken a chunk of the run. */
  ghost predicate QueuedUntilStarted(s: State) {
    s.row.status.Queued? <==> forall i :: 0 <= i < |s.chunks| ==> s.chunks[i].phase == Waiting(1)
  }

  lemma FreshAreWaiting(ids: seq<TxnId>)
    ensures forall i :: 0 <= i < |FreshChunks(ids)| ==> FreshChunks(ids)[i].phase == Waiting(1)
  {
  }

  lemma WorkerLeavesStarted(s: State, a: Action, s': State)
    requires Phases(s) && Moves(s, a, s') && WorkerAction(a)
    ensures a.chunk < |s.chunks| == |s'.chunks| && s'.chunks[a.chunk].phase != Waiting(1)
    ensures !a.Start? ==> s.chunks[a.chunk].phase != Waiting(1)
  {
    assert a.chunk < |s.chunks| ==> PhaseOk(s.chunks[a.chunk]);
  }

  lemma WorkerStatus(s: State, a: Action, s': State)
    requires Moves(s, a, s') && WorkerAction(a)
    ensures s'.row.status == s.row.status || !s'.row.status.Queued?
    ensures a.Start? ==> !s'.row.status.Queued?
  {
  }

  lemma WorkerStarts(s: State, a: Action, s': State)
    requires Phases(s) && QueuedUntilStarted(s) && Moves(s, a, s') && WorkerAction(a)
    ensures a.chunk < |s'.chunks| && s'.chunks[a.chunk].phase != Waiting(1) && !s'.row.status.Queued?
  {
    WorkerLeavesStarted(s, a, s');
    WorkerStatus(s, a, s');
  }

  lemma StepQueued(s: State, a: Action, s': State)
    requires Accounts(s) && QueuedUntilStarted(s) && Moves(s, a, s')
    ensures QueuedUntilStarted(s')
  {
    if WorkerAction(a) {
      WorkerStarts(s, a, s');
    } else if a.Retry? {
      FreshAreWaiting(a.ids);
    } else {
      OutsideShape(s, a, s');
    }
  }

  lemma {:induction false} QueuedExactly(ss: seq<State>, acts: seq<Action>, k: nat)
    requires Behaviour(ss, acts) && k < |ss|
    ensures ss[k].row.status.Queued? <==>
              forall i :: 0 <= i < |ss[k].chunks| ==> ss[k].chunks[i].phase == Waiting(1)
  {
    if k == 0 {
      FreshAreWaiting(ss[0].roster);
    } else {
      var j: nat := k - 1;
      QueuedExactly(ss, acts, j);
      BehaviourAccounts(ss, acts, j);
      StepQueued(ss[j], acts[j], ss[k]);
    }
  }

  // ---- what attribution buys ---------------------------------------------------------

  lemma {:induction false} SubsetOfSize(big: set<TxnId>, n: nat) returns (small: set<TxnId>)
    requires n <= |big|
    ensures small <= big && |small| == n
  {
    if n == |big| {
      small := big;
    } else {
      var x :| x in big;
      small := SubsetOfSize(big - {x}, n);
    }
  }

  /** Over every interleaving, retries included, the job never reports more
      outcomes than it has transactions, and processedCount counts distinct
      roster transactions that do hold a prediction of this job. */
  lemma NeverDoubleCounts(ss: seq<State>, acts: seq<Action>, k: nat) returns (counted: set<TxnId>)
    requires Behaviour(ss, acts) && Undisturbed(ss, acts) && k < |ss|
    ensures var s := ss[k];
            && 0 <= s.row.processedCount && 0 <= s.row.failedCount
            && s.row.processedCount + s.row.failedCount <= s.row.totalTxns == |s.roster|
            && counted <= Owned(s) <= Elements(s.roster) && |counted| == s.row.processedCount
  {
    BehaviourAccounts(ss, acts, k);
    BehaviourAttributed(ss, acts, k);
    SettledAddUp(ss[k].chunks);
    ProcessedBound(ss[k]);
    counted := SubsetOfSize(Owned(ss[k]), ss[k].row.processedCount);
  }

  /** COMPLETED means done: every roster transaction holds a prediction of this
      job, or was soft-deleted when the retry that began this run chose its ids. */
  lemma CompletedMeansDone(ss: seq<State>, acts: seq<Action>, k: nat)
    requires Behaviour(ss, acts) && Undisturbed(ss, acts) && k < |ss|
    requires ss[k].row.status.Completed?
    ensures forall t :: t in ss[k].roster ==> t in Owned(ss[k]) || t in ss[k].excused
    ensures ss[k].runs == 1 ==> forall t :: t in ss[k].roster ==> t in Owned(ss[k])
  {
    BehaviourAccounts(ss, acts, k);
    BehaviourAttributed(ss, acts, k);
    var s := ss[k];
    SettledAddUp(s.chunks);
    forall t | t in RunIds(s.chunks) ensures t in Owned(s) {
      var i :| 0 <= i < |s.chunks| && t in s.chunks[i].ids;
      CleanChunkIsOwned(s, i);
    }
    forall t | t in s.roster ensures t in Owned(s) || t in s.excused {
      assert t in Elements(s.roster);
    }
  }

  lemma CleanChunkIsOwned(s: State, i: nat)
    requires Phases(s) && AllHonest(s.chunks, Owned(s)) && i < |s.chunks|
    requires s.chunks[i].phase.Recorded? && s.chunks[i].phase.failed == 0
    ensures forall t :: t in s.chunks[i].ids ==> t in Owned(s)
  {
    assert Honest(s.chunks[i], Owned(s)) && PhaseOk(s.chunks[i]);
    HitsBound(s.chunks[i].ids, Owned(s));
  }

  /** What a run keeps until the next retry. */
  ghost predicate SameRun(s: State, s': State) {
    && s'.excused == s.excused && s'.baseProcessed == s.baseProcessed
    && s'.roster == s.roster && s'.row.totalTxns == s.row.totalTxns
    && SumOf(s'.chunks, Size) == SumOf(s.chunks, Size)
  }

  lemma StepKeepsRun(s: State, a: Action, s': State)
    requires Moves(s, a, s') && !a.Retry?
    ensures SameRun(s, s')
  {
    StepKeepsIds(s, a, s');
    SameSizes(s.chunks, s'.chunks);
  }

  lemma RetrySelects(s: State, a: Action, s': State)
    requires Moves(s, a, s') && a.Retry?
    ensures s'.excused == Elements(s.roster) * s.deleted - Owned(s)
    ensures s'.baseProcessed == s.row.processedCount && SumOf(s'.chunks, Size) == |a.ids|
    ensures s'.roster == s.roster && s'.row.totalTxns == s.row.totalTxns
  {
    FreshChunksPartition(a.ids);
  }

  /** What `excused` is: fixed by the retry that began the run. */
  lemma {:induction false} ExcusedAtSelection(ss: seq<State>, acts: seq<Action>, k: nat, m: nat)
    requires Behaviour(ss, acts) && k < m < |ss|
    requires acts[k].Retry? && forall j :: k < j < m ==> !acts[j].Retry?
    ensures ss[m].excused == Elements(ss[k].roster) * ss[k].deleted - Owned(ss[k])
    ensures ss[m].baseProcessed == ss[k].row.processedCount
    ensures SumOf(ss[m].chunks, Size) == |acts[k].ids|
    ensures ss[m].roster == ss[k].roster && ss[m].row.totalTxns == ss[k].row.totalTxns
  {
    if m == k + 1 {
      RetrySelects(ss[k], acts[k], ss[m]);
    } else {
      ExcusedAtSelection(ss, acts, k, m - 1);
      StepKeepsRun(ss[m - 1], acts[m - 1], ss[m]);
    }
  }

  /** Salvage is exact: a chunk recorded by the failure handler reports exactly
      its transactions that hold a prediction, and at least one failure; so the
      run does not end COMPLETED. */
  lemma SalvageIsExact(ss: seq<State>, acts: seq<Action>, k: nat, i: nat)
    requires Behaviour(ss, acts) && Undisturbed(ss, acts) && k < |ss| && i < |ss[k].chunks|
    requires ss[k].chunks[i].phase.Recorded? && ss[k].chunks[i].phase.salvaged
    ensures var c, s := ss[k].chunks[i], ss[k];
            && c.phase.processed == |Owned(s) * Elements(c.ids)|
            && c.phase.failed == |c.ids| - c.phase.processed >= 1
            && s.row.failedCount >= 1 && !s.row.status.Completed?
  {
    BehaviourAccounts(ss, acts, k);
    BehaviourAttributed(ss, acts, k);
    SalvagedCounts(ss[k], i);
    SettledAddUp(ss[k].chunks);
  }

  lemma SalvagedCounts(s: State, i: nat)
    requires Shape(s) && Phases(s) && AllHonest(s.chunks, Owned(s)) && i < |s.chunks|
    requires s.chunks[i].phase.Recorded? && s.chunks[i].phase.salvaged
    ensures var c := s.chunks[i];
            && c.phase.processed == |Owned(s) * Elements(c.ids)|
            && c.phase.failed == |c.ids| - c.phase.processed >= 1
  {
    assert PhaseOk(s.chunks[i]) && Honest(s.chunks[i], Owned(s));
    HitsAreCount(s.chunks[i].ids, Owned(s));
  }

  // ---- progress as shown ------------------------------------------------------------

  /** `withProgress`: Math.round of the percentage, capped at 100. */
  function ProgressPercent(row: Row): int {
    if row.totalTxns <= 0 then 100
    else
      var percent := RoundedShare(row);
      if percent > 100 then 100 else percent
  }

  function RoundedShare(row: Row): int
    requires row.totalTxns > 0
  {
    (200 * (row.processedCount + row.failedCount) + row.totalTxns) / (2 * row.totalTxns)
  }

  lemma QuotientAtLeast(x: int, d: int, q: int)
    requires d > 0
    ensures x / d >= q <==> x >= q * d
  {
    assert x == x / d * d + x % d;
    if x / d >= q {
      assert x / d * d >= q * d;
    } else {
      assert (x / d + 1) * d <= q * d;
    }
  }

  /** Nearest whole percent, a half going up. */
  ghost predicate Nearest(percent: int, done: int, total: int) {
    (2 * percent - 1) * total <= 200 * done < (2 * percent + 1) * total
  }

  lemma ShareIsNearest(row: Row)
    requires row.totalTxns > 0
    ensures Nearest(RoundedShare(row), row.processedCount + row.failedCount, row.totalTxns)
  {
    var done, total, p := row.processedCount + row.failedCount, row.totalTxns, RoundedShare(row);
    QuotientAtLeast(200 * done + total, 2 * total, p);
    QuotientAtLeast(200 * done + total, 2 * total, p + 1);
    assert p * (2 * total) == 2 * p * total && (p + 1) * (2 * total) == 2 * p * total + 2 * total;
  }

  /** What is shown is the nearest whole percent: the cap never bites, and a job shows
      100 exactly when 99.5 percent of it has an outcome, also while chunks are left. */
  lemma ProgressExactly(ss: seq<State>, acts: seq<Action>, k: nat)
    requires Behaviour(ss, acts) && Undisturbed(ss, acts) && k < |ss|
    ensures var row := ss[k].row;
            && row.totalTxns > 0 && 0 <= ProgressPercent(row) <= 100
            && Nearest(ProgressPercent(row), row.processedCount + row.failedCount, row.totalTxns)
            && (ProgressPercent(row) == 100 <==> 200 * (row.processedCount + row.failedCount) >= 199 * row.totalTxns)
  {
    var counted := NeverDoubleCounts(ss, acts, k);
    BehaviourAccounts(ss, acts, k);
    var row := ss[k].row;
    var x := 200 * (row.processedCount + row.failedCount) + row.totalTxns;
    QuotientAtLeast(x, 2 * row.totalTxns, 101);
    QuotientAtLeast(x, 2 * row.totalTxns, 100);
    QuotientAtLeast(x, 2 * row.totalTxns, 0);
    ShareIsNearest(row);
  }

  // ---- retries ---------------------------------------------------------------------

  /** Nothing becomes outstanding again, and what is done stays done. */
  ghost predicate OnlyForward(s: State, s': State) {
    Outstanding(s') <= Outstanding(s) && Owned(s) <= Owned(s')
  }

  lemma StepOutstanding(s: State, a: Action)
    requires Enabled(s, a) && Harmless(s, a)
    ensures OnlyForward(s, Apply(s, a))
  {
    if a.Rescore? {
      ForeignWrite(s.owner, s.job, a.txn, a.writer);
    }
  }

  lemma ForwardTwice(s: State, mid: State, s': State)
    requires OnlyForward(s, mid) && OnlyForward(mid, s')
    ensures OnlyForward(s, s')
  {
  }

  lemma {:induction false} OutstandingShrinks(ss: seq<State>, acts: seq<Action>, k: nat, m: nat)
    requires Behaviour(ss, acts) && Undisturbed(ss, acts) && k <= m < |ss|
    ensures OnlyForward(ss[k], ss[m])
  {
    if k < m {
      OutstandingShrinks(ss, acts, k, m - 1);
      StepAt(ss, acts, m - 1);
      StepOutstanding(ss[m - 1], acts[m - 1]);
      ForwardTwice(ss[k], ss[m - 1], ss[m]);
    }
  }

  /** So a later retry re-enqueues a subset of what an earlier one did, and never
      a transaction already attributed. */
  lemma RetriesShrink(ss: seq<State>, acts: seq<Action>, k: nat, m: nat)
    requires Behaviour(ss, acts) && Undisturbed(ss, acts) && k < m < |acts|
    requires acts[k].Retry? && acts[m].Retry?
    ensures Elements(acts[m].ids) <= Elements(acts[k].ids)
    ensures Elements(acts[m].ids) !! Owned(ss[m])
  {
    OutstandingShrinks(ss, acts, k, m);
    assert Enabled(ss[k], acts[k]) && Enabled(ss[m], acts[m]);
  }

  /** Without the hypothesis the run's bound can fail, and this is exactly when:
      the retry's selection and the count it kept must fit the roster. */
  lemma BoundExactly(ss: seq<State>, acts: seq<Action>, k: nat, m: nat)
    requires Behaviour(ss, acts) && k < m < |ss|
    requires acts[k].Retry? && forall j :: k < j < m ==> !acts[j].Retry?
    requires !InFlight(ss[m].row.status)
    ensures ss[m].row.processedCount + ss[m].row.failedCount <= ss[m].row.totalTxns
            <==> ss[k].row.processedCount + |acts[k].ids| <= ss[k].row.totalTxns
  {
    RunConservation(ss, acts, m);
    ExcusedAtSelection(ss, acts, k, m);
  }

  ghost predicate CanRetry(s: State) {
    exists ids: seq<TxnId> :: Enabled(s, Retry(ids))
  }

  /** A retry has ids to enqueue exactly while something is outstanding. */
  lemma RetryNeedsOutstanding(s: State)
    ensures CanRetry(s) <==> Retryable(s.row.status) && Outstanding(s) != {}
  {
    if Retryable(s.row.status) && Outstanding(s) != {} {
      var ids := Listing(Outstanding(s));
      assert Enabled(s, Retry(ids));
    }
    if ids: seq<TxnId> :| Enabled(s, Retry(ids)) {
      assert ids[0] in Elements(ids);
    }
  }

  lemma {:induction false} Listing(wanted: set<TxnId>) returns (xs: seq<TxnId>)
    ensures Lists(xs, wanted)
  {
    if wanted == {} {
      xs := [];
    } else {
      var x :| x in wanted;
      var rest := Listing(wanted - {x});
      xs := rest + [x];
      assert x !in Elements(rest);
      assert Elements(xs) == Elements(rest) + {x};
    }
  }
}
