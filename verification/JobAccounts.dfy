/** The half of the protocol's invariant that holds in every behaviour, whoever
    else writes predictions: chunks partition the run's ids, the counters add up
    over the recorded chunks, one caller finalises, status mirrors the chunks. */
module JobAccounts {
  import opened Collections
  import opened Chunking
  import opened JobModel

  predicate Settled(c: Chunk) {
    c.phase.Recorded? || c.phase.Finalising?
  }

  function SettledCount(c: Chunk): int { if Settled(c) then 1 else 0 }
  function SettledProcessed(c: Chunk): int { if Settled(c) then c.phase.processed else 0 }
  function SettledFailed(c: Chunk): int { if Settled(c) then c.phase.failed else 0 }
  function SettledSize(c: Chunk): int { if Settled(c) then |c.ids| else 0 }
  function Size(c: Chunk): int { |c.ids| }

  ghost predicate Shape(s: State) {
    && s.roster != [] && NoDuplicates(s.roster) && s.row.totalTxns == |s.roster|
    && s.chunks != [] && s.row.totalChunks == |s.chunks|
    && (forall i :: 0 <= i < |s.chunks| ==>
          && 0 < |s.chunks[i].ids| <= CHUNK_SIZE && NoDuplicates(s.chunks[i].ids)
          && Elements(s.chunks[i].ids) <= Elements(s.roster))
    && (forall i, j :: 0 <= i < j < |s.chunks| ==> Elements(s.chunks[i].ids) !! Elements(s.chunks[j].ids))
  }

  predicate PhaseOk(c: Chunk) {
    match c.phase
    case Waiting(a) => 1 <= a <= ATTEMPTS
    case Active(a, pos, fetched, p, f) =>
      1 <= a <= ATTEMPTS && pos <= |c.ids| && (fetched ==> pos < |c.ids|) && 0 <= p && 0 <= f && p + f == pos
    case Exhausted => true
    case Counted(k) => 0 <= k <= |c.ids|
    case Finalising(p, f, _, _) => 0 <= p && 0 <= f && p + f == |c.ids|
    case Recorded(p, f, _) => 0 <= p && 0 <= f && p + f == |c.ids|
  }

  ghost predicate Phases(s: State) {
    forall i :: 0 <= i < |s.chunks| ==> PhaseOk(s.chunks[i])
  }

  ghost predicate Counters(s: State) {
    && s.row.completedChunks == SumOf(s.chunks, SettledCount)
    && s.row.processedCount == s.baseProcessed + SumOf(s.chunks, SettledProcessed)
    && s.row.failedCount == SumOf(s.chunks, SettledFailed)
    && s.baseProcessed >= 0
  }

  /** In flight exactly while some chunk is not recorded; a chunk that is
      finalising is the last one and holds the row's final counters. */
  ghost predicate Lifecycle(s: State) {
    && (InFlight(s.row.status) <==> exists i :: 0 <= i < |s.chunks| && !s.chunks[i].phase.Recorded?)
    && (forall i :: 0 <= i < |s.chunks| && s.chunks[i].phase.Finalising? ==>
          && s.chunks[i].phase.seen == s.row
          && forall j :: 0 <= j < |s.chunks| && j != i ==> s.chunks[j].phase.Recorded?)
  }

  ghost predicate Audited(s: State) {
    && |s.audits| + (if InFlight(s.row.status) then 1 else 0) == s.runs
    && (!InFlight(s.row.status) ==>
          s.audits != [] && s.audits[|s.audits| - 1] == s.row && s.row.status == Verdict(s.row))
  }

  ghost predicate Accounts(s: State) {
    Shape(s) && Phases(s) && Counters(s) && Lifecycle(s) && Audited(s)
  }

  // ---- facts about sums over chunks --------------------------------------

  /** Every chunk is settled exactly when the counter reaches the total. */
  lemma {:induction false} AllSettled(cs: seq<Chunk>)
    ensures 0 <= SumOf(cs, SettledCount) <= |cs|
    ensures SumOf(cs, SettledCount) == |cs| <==> forall i :: 0 <= i < |cs| ==> Settled(cs[i])
  {
    if cs != [] {
      AllSettled(cs[1..]);
      forall i | 1 <= i < |cs| ensures cs[i] == cs[1..][i - 1] {}
      assert (forall i :: 0 <= i < |cs| ==> Settled(cs[i])) <==>
             Settled(cs[0]) && (forall i :: 0 <= i < |cs[1..]| ==> Settled(cs[1..][i]));
    }
  }

  lemma {:induction false} SettledAddUp(cs: seq<Chunk>)
    requires forall i :: 0 <= i < |cs| ==> PhaseOk(cs[i])
    ensures SumOf(cs, SettledProcessed) + SumOf(cs, SettledFailed) == SumOf(cs, SettledSize)
    ensures 0 <= SumOf(cs, SettledProcessed) && 0 <= SumOf(cs, SettledFailed)
    ensures SumOf(cs, SettledSize) <= SumOf(cs, Size)
    ensures (forall i :: 0 <= i < |cs| ==> Settled(cs[i])) ==> SumOf(cs, SettledSize) == SumOf(cs, Size)
    ensures SumOf(cs, SettledFailed) == 0 ==>
              forall i :: 0 <= i < |cs| && Settled(cs[i]) ==> cs[i].phase.failed == 0
  {
    if cs != [] {
      forall i | 0 <= i < |cs[1..]| ensures cs[1..][i] == cs[i + 1] {}
      SettledAddUp(cs[1..]);
    }
  }

  lemma {:induction false} FreshAreUnsettled(cs: seq<Chunk>)
    requires forall i :: 0 <= i < |cs| ==> !Settled(cs[i])
    ensures SumOf(cs, SettledCount) == SumOf(cs, SettledProcessed) == SumOf(cs, SettledFailed) == 0
  {
    if cs != [] {
      FreshAreUnsettled(cs[1..]);
    }
  }

  lemma {:induction false} SizesOfPieces(cs: seq<Chunk>, pieces: seq<seq<TxnId>>)
    requires |cs| == |pieces| && forall i :: 0 <= i < |cs| ==> cs[i].ids == pieces[i]
    ensures SumOf(cs, Size) == |Flatten(pieces)|
  {
    if cs != [] {
      SizesOfPieces(cs[1..], pieces[1..]);
    }
  }

  /** What enqueueing `ids` puts on the queue. */
  lemma FreshChunksPartition(ids: seq<TxnId>)
    requires NoDuplicates(ids)
    ensures var cs := FreshChunks(ids);
            && (forall i :: 0 <= i < |cs| ==>
                  0 < |cs[i].ids| <= CHUNK_SIZE && NoDuplicates(cs[i].ids) && Elements(cs[i].ids) <= Elements(ids)
                  && cs[i].phase == Waiting(1))
            && (forall i, j :: 0 <= i < j < |cs| ==> Elements(cs[i].ids) !! Elements(cs[j].ids))
            && (forall t :: t in ids ==> exists i :: 0 <= i < |cs| && t in cs[i].ids)
            && SumOf(cs, Size) == |ids|
            && (ids != [] ==> cs != [])
  {
    var pieces := Chunks(ids, CHUNK_SIZE);
    ChunksPartition(ids, CHUNK_SIZE);
    FlattenSplits(pieces);
    var cs := FreshChunks(ids);
    SizesOfPieces(cs, pieces);
    forall i | 0 <= i < |cs|
      ensures 0 < |cs[i].ids| <= CHUNK_SIZE && NoDuplicates(cs[i].ids) && Elements(cs[i].ids) <= Elements(ids)
    {
      assert pieces[i] in pieces;
    }
    forall t | t in ids ensures exists i :: 0 <= i < |cs| && t in cs[i].ids {
      var i := FlattenMember(pieces, t);
      assert t in cs[i].ids;
    }
  }

  // ---- preservation ---------------------------------------------------------

  lemma InitAccounts(s: State)
    requires Init(s)
    ensures Accounts(s)
  {
    FreshChunksPartition(s.roster);
    FreshAreUnsettled(s.chunks);
    assert !s.chunks[0].phase.Recorded?;
  }

  /** One chunk moves to another phase. */
  lemma OneChunkShape(s: State, i: nat, c: Chunk, s': State)
    requires Shape(s) && Phases(s) && i < |s.chunks| && c.ids == s.chunks[i].ids && PhaseOk(c)
    requires s'.chunks == s.chunks[i := c] && s'.roster == s.roster
    requires s'.row.totalTxns == s.row.totalTxns && s'.row.totalChunks == s.row.totalChunks
    ensures Shape(s') && Phases(s')
  {
    assert forall j :: 0 <= j < |s.chunks| ==> s'.chunks[j].ids == s.chunks[j].ids;
  }

  lemma QuietCounters(s: State, i: nat, c: Chunk, s': State)
    requires Counters(s) && i < |s.chunks| && !Settled(s.chunks[i]) && !Settled(c)
    requires s'.chunks == s.chunks[i := c] && s'.baseProcessed == s.baseProcessed
    requires s'.row == s.row || s'.row == MarkedProcessing(s.row)
    ensures Counters(s')
  {
    SumUpdate(s.chunks, i, c, SettledCount);
    SumUpdate(s.chunks, i, c, SettledProcessed);
    SumUpdate(s.chunks, i, c, SettledFailed);
  }

  lemma QuietLifecycle(s: State, i: nat, c: Chunk, s': State)
    requires Lifecycle(s) && i < |s.chunks| && !Settled(s.chunks[i]) && !Settled(c)
    requires s'.chunks == s.chunks[i := c] && (s'.row == s.row || s'.row == MarkedProcessing(s.row))
    ensures Lifecycle(s')
  {
    assert !s.chunks[i].phase.Recorded? && !s'.chunks[i].phase.Recorded?;
    assert forall j :: 0 <= j < |s.chunks| && j != i ==> s'.chunks[j] == s.chunks[j];
  }

  /** A chunk moves between two unsettled phases: the row's counters stay. */
  lemma QuietStep(s: State, i: nat, phase: Phase, s': State)
    requires Accounts(s) && i < |s.chunks| && !Settled(s.chunks[i])
    requires s'.chunks == s.chunks[i := s.chunks[i].(phase := phase)]
    requires !Settled(s'.chunks[i]) && PhaseOk(s'.chunks[i])
    requires s'.row == s.row || s'.row == MarkedProcessing(s.row)
    requires s'.roster == s.roster && s'.audits == s.audits && s'.runs == s.runs && s'.baseProcessed == s.baseProcessed
    ensures Accounts(s')
  {
    var c := s'.chunks[i];
    OneChunkShape(s, i, c, s');
    QuietCounters(s, i, c, s');
    QuietLifecycle(s, i, c, s');
    QuietAudits(s, s');
  }

  lemma QuietAudits(s: State, s': State)
    requires Audited(s) && s'.audits == s.audits && s'.runs == s.runs
    requires s'.row == s.row || s'.row == MarkedProcessing(s.row)
    ensures Audited(s')
  {
  }

  /** A chunk is recorded: the counters move by its outcome, and the caller is
      sent to finalise exactly when no other chunk is left. */
  lemma SettleStep(s: State, i: nat, processed: int, failed: int, salvaged: bool, s': State)
    requires Accounts(s) && i < |s.chunks| && !Settled(s.chunks[i])
    requires 0 <= processed && 0 <= failed && processed + failed == |s.chunks[i].ids|
    requires s' == RecordOutcome(s, i, processed, failed, salvaged)
    ensures Accounts(s')
    ensures s'.chunks[i].phase.Finalising? <==>
            forall j :: 0 <= j < |s.chunks| && j != i ==> s.chunks[j].phase.Recorded?
  {
    OneChunkShape(s, i, s'.chunks[i], s');
    SettleCounters(s, i, s');
    LastToSettle(s, i, s'.row);
    SettleLifecycle(s, i, s');
  }

  lemma SettleLifecycle(s: State, i: nat, s': State)
    requires Lifecycle(s) && Audited(s) && i < |s.chunks| && !Settled(s.chunks[i])
    requires |s'.chunks| == |s.chunks| && s'.chunks == s.chunks[i := s'.chunks[i]] && Settled(s'.chunks[i])
    requires s'.row.status == s.row.status && s'.audits == s.audits && s'.runs == s.runs
    requires s'.chunks[i].phase.Finalising? ==> s'.chunks[i].phase.seen == s'.row
    requires s'.chunks[i].phase.Finalising? <==>
               forall j :: 0 <= j < |s.chunks| && j != i ==> s.chunks[j].phase.Recorded?
    ensures Lifecycle(s') && Audited(s')
  {
    assert !s.chunks[i].phase.Recorded?;
    assert forall j :: 0 <= j < |s.chunks| && j != i ==> s'.chunks[j] == s.chunks[j];
  }

  lemma SettleCounters(s: State, i: nat, s': State)
    requires Counters(s) && i < |s.chunks| && !Settled(s.chunks[i])
    requires |s'.chunks| == |s.chunks| && s'.chunks == s.chunks[i := s'.chunks[i]] && Settled(s'.chunks[i])
    requires s'.row == Incremented(s.row, s'.chunks[i].phase.processed, s'.chunks[i].phase.failed)
    requires s'.baseProcessed == s.baseProcessed
    ensures Counters(s')
  {
    var c := s'.chunks[i];
    SumUpdate(s.chunks, i, c, SettledCount);
    SumUpdate(s.chunks, i, c, SettledProcessed);
    SumUpdate(s.chunks, i, c, SettledFailed);
  }

  /** The returned row says whether every other chunk was already recorded. */
  lemma LastToSettle(s: State, i: nat, row: Row)
    requires Counters(s) && Lifecycle(s) && s.row.totalChunks == |s.chunks|
    requires i < |s.chunks| && !Settled(s.chunks[i])
    requires row.completedChunks == s.row.completedChunks + 1 && row.totalChunks == s.row.totalChunks
    ensures ReachedTotal(row) <==> forall j :: 0 <= j < |s.chunks| && j != i ==> s.chunks[j].phase.Recorded?
  {
    var c := s.chunks[i].(phase := Recorded(0, 0, false));
    var cs := s.chunks[i := c];
    SumUpdate(s.chunks, i, c, SettledCount);
    AllSettled(cs);
    if ReachedTotal(row) {
      forall j | 0 <= j < |s.chunks| && j != i ensures s.chunks[j].phase.Recorded? {
        assert Settled(cs[j]);
      }
    }
  }

  lemma FinaliseStep(s: State, a: Action, s': State)
    requires Accounts(s) && Moves(s, a, s') && a.Finalise?
    ensures Accounts(s')
    ensures InFlight(s.row.status) && !InFlight(s'.row.status)
  {
    var i := a.chunk;
    assert !s.chunks[i].phase.Recorded? && InFlight(s.row.status);
    OneChunkShape(s, i, s'.chunks[i], s');
    FinaliseCounters(s, i, s');
    FinaliseLifecycle(s, i, s');
  }

  lemma FinaliseCounters(s: State, i: nat, s': State)
    requires Counters(s) && i < |s.chunks| && s.chunks[i].phase.Finalising?
    requires |s'.chunks| == |s.chunks| && s'.chunks == s.chunks[i := s'.chunks[i]] && s'.chunks[i].phase.Recorded?
    requires s'.chunks[i].phase.processed == s.chunks[i].phase.processed
    requires s'.chunks[i].phase.failed == s.chunks[i].phase.failed
    requires s'.row.(status := s.row.status) == s.row && s'.baseProcessed == s.baseProcessed
    ensures Counters(s')
  {
    SumUpdate(s.chunks, i, s'.chunks[i], SettledCount);
    SumUpdate(s.chunks, i, s'.chunks[i], SettledProcessed);
    SumUpdate(s.chunks, i, s'.chunks[i], SettledFailed);
  }

  lemma FinaliseLifecycle(s: State, i: nat, s': State)
    requires Lifecycle(s) && Audited(s) && Moves(s, Finalise(i), s')
    ensures Lifecycle(s') && Audited(s')
  {
    assert forall j :: 0 <= j < |s'.chunks| ==> s'.chunks[j].phase.Recorded?;
  }

  lemma RetryStep(s: State, a: Action, s': State)
    requires Accounts(s) && Moves(s, a, s') && a.Retry?
    ensures Accounts(s')
  {
    var ids := a.ids;
    FreshChunksPartition(ids);
    FreshAreUnsettled(s'.chunks);
    assert !s'.chunks[0].phase.Recorded?;
    forall j | 0 <= j < |s'.chunks| ensures Elements(s'.chunks[j].ids) <= Elements(s'.roster) {
      assert Elements(ids) <= Elements(s.roster);
    }
    SettledAddUp(s.chunks);
  }

  lemma OwnedPartSize(s: State, ids: seq<TxnId>)
    ensures 0 <= |Owned(s) * Elements(ids)| <= |ids|
  {
    ElementsSize(ids);
    SubsetSize(Owned(s) * Elements(ids), Elements(ids));
  }

  /** The actions that move one chunk without recording it. */
  predicate Quiet(a: Action) {
    a.Start? || a.Fetch? || a.Persist? || a.Reject? || a.Abort? || a.CountScored?
  }

  lemma QuietShape(s: State, a: Action)
    requires Phases(s) && Enabled(s, a) && Quiet(a)
    ensures var s', i := Apply(s, a), a.chunk;
            && i < |s.chunks| && !Settled(s.chunks[i])
            && s'.chunks == s.chunks[i := s.chunks[i].(phase := s'.chunks[i].phase)]
            && !Settled(s'.chunks[i]) && PhaseOk(s'.chunks[i])
  {
    if a.CountScored? {
      OwnedPartSize(s, s.chunks[a.chunk].ids);
    }
  }

  lemma RecordStep(s: State, a: Action, s': State)
    requires Accounts(s) && Moves(s, a, s') && a.Record?
    ensures Accounts(s')
  {
    var c := s.chunks[a.chunk];
    assert PhaseOk(c);
    SettleStep(s, a.chunk, c.phase.processed, c.phase.failed, false, s');
  }

  lemma SalvageStep(s: State, a: Action, s': State)
    requires Accounts(s) && Moves(s, a, s') && a.Salvage?
    ensures Accounts(s')
  {
    var c := s.chunks[a.chunk];
    assert PhaseOk(c);
    SettleStep(s, a.chunk, c.phase.scored, |c.ids| - c.phase.scored, true, s');
  }

  lemma StepAccounts(s: State, a: Action, s': State)
    requires Accounts(s) && Moves(s, a, s')
    ensures Accounts(s')
  {
    if Quiet(a) {
      QuietShape(s, a);
      QuietStep(s, a.chunk, s'.chunks[a.chunk].phase, s');
    } else if a.Record? {
      RecordStep(s, a, s');
    } else if a.Salvage? {
      SalvageStep(s, a, s');
    } else if a.Finalise? {
      FinaliseStep(s, a, s');
    } else if a.Retry? {
      RetryStep(s, a, s');
    } else {
      OutsideStep(s, a, s');
    }
  }

  /** What another writer of the tables leaves alone. */
  lemma OutsideShape(s: State, a: Action, s': State)
    requires Moves(s, a, s') && (a.SoftDelete? || a.Rescore?)
    ensures s'.job == s.job && s'.roster == s.roster && s'.row == s.row && s'.chunks == s.chunks
    ensures s'.audits == s.audits && s'.runs == s.runs && s'.baseProcessed == s.baseProcessed
    ensures s'.excused == s.excused && s'.skipped == s.skipped && s.deleted <= s'.deleted
  {
  }

  lemma OutsideStep(s: State, a: Action, s': State)
    requires Accounts(s) && Moves(s, a, s') && (a.SoftDelete? || a.Rescore?)
    ensures Accounts(s')
  {
    OutsideShape(s, a, s');
  }

  /** Every state of every behaviour keeps its accounts. */
  lemma {:induction false} BehaviourAccounts(ss: seq<State>, acts: seq<Action>, k: nat)
    requires Behaviour(ss, acts) && k < |ss|
    ensures Accounts(ss[k])
  {
    if k == 0 {
      InitAccounts(ss[0]);
    } else {
      BehaviourAccounts(ss, acts, k - 1);
      StepAccounts(ss[k - 1], acts[k - 1], ss[k]);
    }
  }
}
