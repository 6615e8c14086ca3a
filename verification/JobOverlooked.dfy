/** Exactly how far the counters of a finished job fall short of its predictions:
    by the transactions that an earlier attempt of their chunk had scored and the
    pass that was recorded skipped. */
module JobOverlooked {
  import opened Collections
  import opened JobModel
  import opened JobAccounts
  import opened JobAttribution
  import opened JobTheorems
  import opened JobHistory

  // ---- the invariant -------------------------------------------------------------------

  ghost predicate NoneSkipped(ids: seq<TxnId>, skipped: set<TxnId>) {
    forall t :: t in ids ==> t !in skipped
  }

  /** Every id was either skipped, and counted as failed, or scored. */
  ghost predicate Accounted(ids: seq<TxnId>, owned: set<TxnId>, skipped: set<TxnId>, failed: int) {
    failed == Hits(ids, skipped) && forall t :: t in ids ==> t in skipped || t in owned
  }

  ghost predicate Outcome(c: Chunk, owned: set<TxnId>, skipped: set<TxnId>, failed: int, salvaged: bool) {
    if salvaged then NoneSkipped(c.ids, skipped) else Accounted(c.ids, owned, skipped, failed)
  }

  ghost predicate Tallied(c: Chunk, owned: set<TxnId>, skipped: set<TxnId>) {
    match c.phase
    case Waiting(_) => NoneSkipped(c.ids, skipped)
    case Active(_, pos, _, _, f) =>
      pos <= |c.ids| && Accounted(c.ids[..pos], owned, skipped, f) && NoneSkipped(c.ids[pos..], skipped)
    case Exhausted => NoneSkipped(c.ids, skipped)
    case Counted(_) => NoneSkipped(c.ids, skipped)
    case Finalising(_, f, salvaged, _) => Outcome(c, owned, skipped, f, salvaged)
    case Recorded(_, f, salvaged) => Outcome(c, owned, skipped, f, salvaged)
  }

  ghost predicate AllTallied(cs: seq<Chunk>, owned: set<TxnId>, skipped: set<TxnId>) {
    forall i :: 0 <= i < |cs| ==> Tallied(cs[i], owned, skipped)
  }

  /** Predictions that the recorded passes know nothing of. */
  function Overlooked(s: State): set<TxnId> {
    s.skipped * Owned(s)
  }

  /** What earlier runs left behind. */
  ghost predicate BaseTallied(s: State) {
    |Owned(s) - RunIds(s.chunks)| == s.baseProcessed + |Overlooked(s) - RunIds(s.chunks)|
  }

  ghost predicate Exact(s: State) {
    AllTallied(s.chunks, Owned(s), s.skipped) && BaseTallied(s)
  }

  // ---- one chunk moves -------------------------------------------------------------------

  /** Two sets that differ at most on `ids`. */
  ghost predicate SameOff(a: set<TxnId>, b: set<TxnId>, ids: seq<TxnId>) {
    forall t :: t !in ids ==> (t in a <==> t in b)
  }

  lemma StillTallied(c: Chunk, owned: set<TxnId>, skipped: set<TxnId>, owned': set<TxnId>, skipped': set<TxnId>)
    requires Tallied(c, owned, skipped)
    requires forall t :: t in c.ids ==> (t in owned <==> t in owned') && (t in skipped <==> t in skipped')
    ensures Tallied(c, owned', skipped')
  {
    HitsSame(c.ids, skipped, skipped');
    if c.phase.Active? {
      HitsSame(c.ids[..c.phase.pos], skipped, skipped');
    }
  }

  lemma OtherStaysTallied(s: State, i: nat, j: nat, s': State)
    requires Shape(s) && AllTallied(s.chunks, Owned(s), s.skipped) && i < |s.chunks| && j < |s.chunks| && i != j
    requires SameOff(Owned(s), Owned(s'), s.chunks[i].ids) && SameOff(s.skipped, s'.skipped, s.chunks[i].ids)
    ensures Tallied(s.chunks[j], Owned(s'), s'.skipped)
  {
    var ours, theirs := Elements(s.chunks[i].ids), Elements(s.chunks[j].ids);
    assert ours !! theirs;
    assert forall t :: t in s.chunks[j].ids ==> t in theirs && t !in ours;
    StillTallied(s.chunks[j], Owned(s), s.skipped, Owned(s'), s'.skipped);
  }

  lemma SameOutsideRun(a: set<TxnId>, b: set<TxnId>, ids: seq<TxnId>, run: set<TxnId>)
    requires SameOff(a, b, ids) && forall t :: t in ids ==> t in run
    ensures a - run == b - run
  {
  }

  lemma BaseStays(s: State, i: nat, s': State)
    requires BaseTallied(s) && i < |s.chunks| && SameIds(s.chunks, s'.chunks) && s'.baseProcessed == s.baseProcessed
    requires SameOff(Owned(s), Owned(s'), s.chunks[i].ids) && SameOff(s.skipped, s'.skipped, s.chunks[i].ids)
    ensures BaseTallied(s')
  {
    SameRunIds(s.chunks, s'.chunks);
    var run := RunIds(s.chunks);
    assert forall t :: t in s.chunks[i].ids ==> t in run;
    SameOutsideRun(Owned(s), Owned(s'), s.chunks[i].ids, run);
    SameOutsideRun(Overlooked(s), Overlooked(s'), s.chunks[i].ids, run);
  }

  lemma OneChunkExact(s: State, i: nat, c: Chunk, s': State)
    requires Shape(s) && Exact(s) && i < |s.chunks| && c.ids == s.chunks[i].ids && s'.chunks == s.chunks[i := c]
    requires s'.baseProcessed == s.baseProcessed
    requires SameOff(Owned(s), Owned(s'), c.ids) && SameOff(s.skipped, s'.skipped, c.ids)
    requires Tallied(c, Owned(s'), s'.skipped)
    ensures Exact(s')
  {
    BaseStays(s, i, s');
    forall j | 0 <= j < |s'.chunks| ensures Tallied(s'.chunks[j], Owned(s'), s'.skipped) {
      if j != i {
        OtherStaysTallied(s, i, j, s');
      }
    }
  }

  // ---- what each action leaves its chunk as --------------------------------------------------

  lemma SkippedAccounted(ids: seq<TxnId>, pos: nat, owned: set<TxnId>, skipped: set<TxnId>, failed: int)
    requires NoDuplicates(ids) && pos < |ids| && Accounted(ids[..pos], owned, skipped, failed)
    ensures Accounted(ids[..pos + 1], owned, skipped + {ids[pos]}, failed + 1)
  {
    HitsSame(ids[..pos], skipped, skipped + {ids[pos]});
    HitsExtend(ids, pos, skipped + {ids[pos]});
    assert ids[..pos + 1] == ids[..pos] + [ids[pos]];
  }

  lemma SkippedTallied(c: Chunk, owned: set<TxnId>, skipped: set<TxnId>)
    requires Tallied(c, owned, skipped) && NoDuplicates(c.ids) && c.phase.Active? && c.phase.pos < |c.ids|
    ensures Tallied(c.(phase := Skipped(c.phase)), owned, skipped + {c.ids[c.phase.pos]})
  {
    var pos := c.phase.pos;
    SkippedAccounted(c.ids, pos, owned, skipped, c.phase.failed);
    assert forall t :: t in c.ids[pos + 1..] ==> t in c.ids[pos..] && t != c.ids[pos];
  }

  lemma ScoredTallied(c: Chunk, owned: set<TxnId>, skipped: set<TxnId>)
    requires Tallied(c, owned, skipped) && c.phase.Active? && c.phase.pos < |c.ids|
    ensures Tallied(AfterScore(c), owned + {c.ids[c.phase.pos]}, skipped)
  {
    var pos := c.phase.pos;
    assert c.ids[pos..][0] == c.ids[pos] && c.ids[pos] in c.ids[pos..];
    HitsExtend(c.ids, pos, skipped);
    assert c.ids[..pos + 1] == c.ids[..pos] + [c.ids[pos]];
    assert forall t :: t in c.ids[pos + 1..] ==> t in c.ids[pos..];
  }

  /** A pass that begins or is thrown away has skipped nothing. */
  lemma AfreshTallied(c: Chunk, owned: set<TxnId>, skipped: set<TxnId>)
    requires c.phase.Waiting? || c.phase.Exhausted? || (c.phase.Active? && c.phase.pos == 0 && c.phase.failed == 0)
    ensures Tallied(c, owned, skipped - Elements(c.ids))
  {
    if c.phase.Active? {
      assert c.ids[..0] == [];
    }
  }

  lemma PassEndTallied(c: Chunk, owned: set<TxnId>, skipped: set<TxnId>)
    requires Tallied(c, owned, skipped) && c.phase.Active? && c.phase.pos == |c.ids|
    ensures Accounted(c.ids, owned, skipped, c.phase.failed)
  {
    assert c.ids[..c.phase.pos] == c.ids;
  }

  /** A chunk moves and the prediction table does not. */
  lemma OneChunkTurnsExact(s: State, i: nat, c: Chunk, s': State)
    requires Shape(s) && Exact(s) && i < |s.chunks| && c.ids == s.chunks[i].ids && s'.chunks == s.chunks[i := c]
    requires SameFrame(s, s') && s'.owner == s.owner && SameOff(s.skipped, s'.skipped, c.ids)
    requires Tallied(c, Owned(s), s'.skipped)
    ensures Exact(s')
  {
    assert Owned(s') == Owned(s);
    OneChunkExact(s, i, c, s');
  }

  lemma SkipShape(s: State, i: nat, s': State)
    requires Busy(s, i) && s' == SkipCurrent(s, i)
    ensures SameFrame(s, s') && s'.owner == s.owner
    ensures var c := s.chunks[i];
            && s'.chunks == s.chunks[i := c.(phase := Skipped(c.phase))]
            && s'.skipped == s.skipped + {c.ids[c.phase.pos]}
  {
  }

  lemma SkipExact(s: State, i: nat, s': State)
    requires Shape(s) && Exact(s) && Busy(s, i) && s' == SkipCurrent(s, i)
    ensures Exact(s')
  {
    var c := s.chunks[i];
    SkipShape(s, i, s');
    SkippedTallied(c, Owned(s), s.skipped);
    OneChunkTurnsExact(s, i, c.(phase := Skipped(c.phase)), s');
  }

  lemma FoundExact(s: State, i: nat, s': State)
    requires Shape(s) && Exact(s) && Busy(s, i)
    requires s' == WithPhase(s, i, s.chunks[i].phase.(fetched := true))
    ensures Exact(s')
  {
    var c := s.chunks[i];
    assert Tallied(c, Owned(s), s.skipped);
    OneChunkTurnsExact(s, i, c.(phase := c.phase.(fetched := true)), s');
  }

  lemma FetchExact(s: State, a: Action, s': State)
    requires Shape(s) && Exact(s) && Moves(s, a, s') && a.Fetch?
    ensures Exact(s')
  {
    if s.chunks[a.chunk].ids[s.chunks[a.chunk].phase.pos] in s.deleted {
      SkipExact(s, a.chunk, s');
    } else {
      FoundExact(s, a.chunk, s');
    }
  }

  lemma PersistExact(s: State, a: Action, s': State)
    requires Shape(s) && Exact(s) && Moves(s, a, s') && a.Persist?
    ensures Exact(s')
  {
    var c := s.chunks[a.chunk];
    PersistShape(s, a.chunk);
    OwnedAfterPersist(s, s', c.ids[c.phase.pos]);
    ScoredTallied(c, Owned(s), s.skipped);
    OneChunkExact(s, a.chunk, AfterScore(c), s');
  }

  lemma AfreshShape(s: State, a: Action, s': State)
    requires Moves(s, a, s') && (a.Start? || a.Abort?)
    ensures SameFrame(s, s') && s'.owner == s.owner && a.chunk < |s.chunks| == |s'.chunks|
    ensures var c := s'.chunks[a.chunk];
            && c.ids == s.chunks[a.chunk].ids && s'.chunks == s.chunks[a.chunk := c]
            && s'.skipped == s.skipped - Elements(c.ids)
            && (c.phase.Waiting? || c.phase.Exhausted? || (c.phase.Active? && c.phase.pos == 0 && c.phase.failed == 0))
  {
  }

  lemma AfreshExact(s: State, a: Action, s': State)
    requires Shape(s) && Exact(s) && Moves(s, a, s') && (a.Start? || a.Abort?)
    ensures Exact(s')
  {
    AfreshShape(s, a, s');
    AfreshTallied(s'.chunks[a.chunk], Owned(s), s.skipped);
    OneChunkTurnsExact(s, a.chunk, s'.chunks[a.chunk], s');
  }

  lemma OutcomeTallied(s: State, a: Action, s': State)
    requires Moves(s, a, s') && (a.Record? || a.CountScored? || a.Salvage? || a.Finalise?)
    requires Tallied(s.chunks[a.chunk], Owned(s), s.skipped)
    ensures a.chunk < |s'.chunks| && Tallied(s'.chunks[a.chunk], Owned(s), s.skipped)
  {
    if a.Record? {
      PassEndTallied(s.chunks[a.chunk], Owned(s), s.skipped);
    }
  }

  lemma OutcomeShape(s: State, a: Action, s': State)
    requires Moves(s, a, s') && (a.Record? || a.CountScored? || a.Salvage? || a.Finalise?)
    ensures SameFrame(s, s') && s'.owner == s.owner && s'.skipped == s.skipped && a.chunk < |s.chunks| == |s'.chunks|
    ensures s'.chunks[a.chunk].ids == s.chunks[a.chunk].ids && s'.chunks == s.chunks[a.chunk := s'.chunks[a.chunk]]
  {
  }

  lemma OutcomeExact(s: State, a: Action, s': State)
    requires Shape(s) && Exact(s) && Moves(s, a, s') && (a.Record? || a.CountScored? || a.Salvage? || a.Finalise?)
    ensures Exact(s')
  {
    OutcomeShape(s, a, s');
    OutcomeTallied(s, a, s');
    OneChunkTurnsExact(s, a.chunk, s'.chunks[a.chunk], s');
  }

  // ---- the counts of a finished run --------------------------------------------------------------

  /** One recorded chunk: its predictions are what it counted and what it overlooked. */
  lemma ChunkCounts(c: Chunk, owned: set<TxnId>, skipped: set<TxnId>)
    requires PhaseOk(c) && NoDuplicates(c.ids) && c.phase.Recorded?
    requires Honest(c, owned) && Tallied(c, owned, skipped)
    ensures |owned * Elements(c.ids)| == c.phase.processed + |(skipped * owned) * Elements(c.ids)|
  {
    var ids := Elements(c.ids);
    ElementsSize(c.ids);
    HitsAreCount(c.ids, owned);
    HitsAreCount(c.ids, skipped);
    if c.phase.salvaged {
      assert (skipped * owned) * ids == {};
    } else {
      SplitSize(owned, skipped * ids, ids - skipped, ids);
      assert owned * (ids - skipped) == ids - skipped && owned * (skipped * ids) == (skipped * owned) * ids;
      DisjointSize(skipped * ids, ids - skipped);
      assert skipped * ids + (ids - skipped) == ids;
    }
  }

  ghost predicate Apart(cs: seq<Chunk>) {
    && (forall i :: 0 <= i < |cs| ==> NoDuplicates(cs[i].ids))
    && forall i, j :: 0 <= i < j < |cs| ==> Elements(cs[i].ids) !! Elements(cs[j].ids)
  }

  /** Every chunk has been recorded, honestly and exactly. */
  ghost predicate AllRecorded(cs: seq<Chunk>, owned: set<TxnId>, skipped: set<TxnId>) {
    forall i :: 0 <= i < |cs| ==>
      cs[i].phase.Recorded? && PhaseOk(cs[i]) && Honest(cs[i], owned) && Tallied(cs[i], owned, skipped)
  }

  lemma TailApart(cs: seq<Chunk>)
    requires cs != [] && Apart(cs)
    ensures Apart(cs[1..])
  {
    assert forall i :: 0 <= i < |cs[1..]| ==> cs[1..][i] == cs[i + 1];
  }

  lemma TailRecorded(cs: seq<Chunk>, owned: set<TxnId>, skipped: set<TxnId>)
    requires cs != [] && AllRecorded(cs, owned, skipped)
    ensures AllRecorded(cs[1..], owned, skipped)
  {
    assert forall i :: 0 <= i < |cs[1..]| ==> cs[1..][i] == cs[i + 1];
  }

  lemma {:induction false} RunCounts(cs: seq<Chunk>, owned: set<TxnId>, skipped: set<TxnId>)
    requires Apart(cs) && AllRecorded(cs, owned, skipped)
    ensures |owned * RunIds(cs)| == SumOf(cs, SettledProcessed) + |(skipped * owned) * RunIds(cs)|
  {
    if cs == [] {
      assert owned * RunIds(cs) == {} && (skipped * owned) * RunIds(cs) == {};
    } else {
      var ids, rest := Elements(cs[0].ids), RunIds(cs[1..]);
      TailApart(cs);
      TailRecorded(cs, owned, skipped);
      RunCounts(cs[1..], owned, skipped);
      ChunkCounts(cs[0], owned, skipped);
      RunIdsSplit(cs);
      SplitSize(owned, ids, rest, RunIds(cs));
      SplitSize(skipped * owned, ids, rest, RunIds(cs));
    }
  }

  lemma {:induction false} RunSize(cs: seq<Chunk>)
    requires Apart(cs)
    ensures |RunIds(cs)| == SumOf(cs, Size)
  {
    if cs == [] {
      assert RunIds(cs) == {};
    } else {
      TailApart(cs);
      RunSize(cs[1..]);
      RunIdsSplit(cs);
      ElementsSize(cs[0].ids);
      DisjointSize(Elements(cs[0].ids), RunIds(cs[1..]));
    }
  }

  lemma FinishedIsRecorded(s: State)
    requires Accounts(s) && Attributed(s) && Exact(s) && !InFlight(s.row.status)
    ensures Apart(s.chunks) && AllRecorded(s.chunks, Owned(s), s.skipped)
  {
  }

  lemma InAndOut(whole: set<TxnId>, run: set<TxnId>)
    ensures |whole| == |whole * run| + |whole - run|
  {
    DisjointSize(whole * run, whole - run);
    assert whole * run + (whole - run) == whole;
  }

  /** The chunk counted `t` as failed: its pass skipped it, or the failure handler
      found no prediction for it. */
  ghost predicate CountedFailed(c: Chunk, owned: set<TxnId>, skipped: set<TxnId>, t: TxnId) {
    t in c.ids && c.phase.Recorded? && if c.phase.salvaged then t !in owned else t in skipped
  }

  /** What the run counted as failed. */
  ghost function RunFailed(s: State): set<TxnId> {
    set t | t in RunIds(s.chunks) &&
            exists i :: 0 <= i < |s.chunks| && CountedFailed(s.chunks[i], Owned(s), s.skipped, t)
  }

  lemma OneFailed(c: Chunk, owned: set<TxnId>, skipped: set<TxnId>, t: TxnId)
    requires c.phase.Recorded? && Tallied(c, owned, skipped) && t in c.ids
    ensures CountedFailed(c, owned, skipped, t) <==> t !in owned || t in skipped
  {
  }

  /** That is all it left without a prediction, and what it overlooked. */
  lemma FailedAre(s: State)
    requires AllRecorded(s.chunks, Owned(s), s.skipped)
    ensures RunFailed(s) == (RunIds(s.chunks) - Owned(s)) + Overlooked(s) * RunIds(s.chunks)
  {
    forall t | t in RunIds(s.chunks) ensures t in RunFailed(s) <==> t !in Owned(s) || t in s.skipped {
      forall i | 0 <= i < |s.chunks| && t in s.chunks[i].ids
        ensures CountedFailed(s.chunks[i], Owned(s), s.skipped, t) <==> t !in Owned(s) || t in s.skipped
      {
        OneFailed(s.chunks[i], Owned(s), s.skipped, t);
      }
    }
  }

  lemma RecordedAddUp(s: State)
    requires Accounts(s) && forall i :: 0 <= i < |s.chunks| ==> s.chunks[i].phase.Recorded?
    ensures SumOf(s.chunks, SettledProcessed) + s.row.failedCount == SumOf(s.chunks, Size)
  {
    SettledAddUp(s.chunks);
  }

  lemma FailedCounts(s: State)
    requires Accounts(s) && Apart(s.chunks) && AllRecorded(s.chunks, Owned(s), s.skipped)
    ensures s.row.failedCount == |(RunIds(s.chunks) - Owned(s)) + Overlooked(s) * RunIds(s.chunks)|
  {
    RunCounts(s.chunks, Owned(s), s.skipped);
    RunSize(s.chunks);
    RecordedAddUp(s);
    LeftAndOverlooked(RunIds(s.chunks), Owned(s), s.skipped);
  }

  lemma LeftAndOverlooked(run: set<TxnId>, owned: set<TxnId>, skipped: set<TxnId>)
    ensures |(run - owned) + (skipped * owned) * run| == |run| - |owned * run| + |(skipped * owned) * run|
  {
    InAndOut(run, owned);
    DisjointSize(run - owned, (skipped * owned) * run);
    assert run * owned == owned * run;
  }

  /** A finished job holds as many predictions as it counted and overlooked. */
  lemma FinishedCounts(s: State)
    requires Accounts(s) && Attributed(s) && Exact(s) && !InFlight(s.row.status)
    ensures |Owned(s)| == s.row.processedCount + |Overlooked(s)|
    ensures s.row.failedCount == |RunFailed(s)|
  {
    FinishedIsRecorded(s);
    var cs, run := s.chunks, RunIds(s.chunks);
    RunCounts(cs, Owned(s), s.skipped);
    InAndOut(Owned(s), run);
    InAndOut(Overlooked(s), run);
    FailedCounts(s);
    FailedAre(s);
  }

  // ---- preservation ------------------------------------------------------------------------------

  lemma FreshTallied(ids: seq<TxnId>, owned: set<TxnId>, skipped: set<TxnId>)
    requires NoDuplicates(ids) && Elements(ids) !! skipped
    ensures AllTallied(FreshChunks(ids), owned, skipped)
  {
    FreshChunksPartition(ids);
    var cs := FreshChunks(ids);
    forall i | 0 <= i < |cs| ensures Tallied(cs[i], owned, skipped) {
      assert forall t :: t in cs[i].ids ==> t in Elements(cs[i].ids);
    }
  }

  lemma NoneOfRun(owned: set<TxnId>, skipped: set<TxnId>, ids: set<TxnId>)
    requires ids !! owned
    ensures owned - ids == owned && (skipped - ids) * owned - ids == skipped * owned
  {
  }

  lemma RetryBase(s: State, s': State, ids: set<TxnId>)
    requires s'.owner == s.owner && s'.job == s.job && ids !! Owned(s) && s'.skipped == s.skipped - ids
    requires RunIds(s'.chunks) == ids && |Owned(s)| == s'.baseProcessed + |Overlooked(s)|
    ensures BaseTallied(s')
  {
    NoneOfRun(Owned(s), s.skipped, ids);
    assert Owned(s') == Owned(s);
  }

  lemma RetryExact(s: State, a: Action, s': State)
    requires Accounts(s) && Attributed(s) && Exact(s) && Moves(s, a, s') && a.Retry?
    ensures Exact(s')
  {
    RetryShape(s, a, s');
    FinishedCounts(s);
    FreshRunIds(a.ids);
    RetryBase(s, s', Elements(a.ids));
    FreshTallied(a.ids, Owned(s'), s'.skipped);
  }

  lemma OutsideExact(s: State, a: Action, s': State)
    requires Exact(s) && Moves(s, a, s') && Harmless(s, a) && (a.SoftDelete? || a.Rescore?)
    ensures Exact(s')
  {
    OutsideShape(s, a, s');
    OutsideKeepsOwned(s, a, s');
  }

  lemma InitExact(s: State)
    requires Init(s)
    ensures Exact(s)
  {
    FreshChunksPartition(s.roster);
    assert Owned(s) - RunIds(s.chunks) == {} && Overlooked(s) - RunIds(s.chunks) == {};
  }

  lemma StepExact(s: State, a: Action, s': State)
    requires Accounts(s) && Attributed(s) && Exact(s) && Moves(s, a, s') && Harmless(s, a)
    ensures Exact(s')
  {
    if a.Start? || a.Abort? {
      AfreshExact(s, a, s');
    } else if a.Fetch? {
      FetchExact(s, a, s');
    } else if a.Reject? {
      SkipExact(s, a.chunk, s');
    } else if a.Persist? {
      PersistExact(s, a, s');
    } else if a.Retry? {
      RetryExact(s, a, s');
    } else if a.SoftDelete? || a.Rescore? {
      OutsideExact(s, a, s');
    } else {
      OutcomeExact(s, a, s');
    }
  }

  lemma NextExact(ss: seq<State>, acts: seq<Action>, k: nat, s': State)
    requires Behaviour(ss, acts) && Undisturbed(ss, acts) && k < |acts| && Exact(ss[k]) && s' == ss[k + 1]
    ensures Exact(s')
  {
    StepAt(ss, acts, k);
    BehaviourAttributed(ss, acts, k);
    StepExact(ss[k], acts[k], s');
  }

  lemma {:induction false} BehaviourExact(ss: seq<State>, acts: seq<Action>, k: nat)
    requires Behaviour(ss, acts) && Undisturbed(ss, acts) && k < |ss|
    ensures Exact(ss[k])
  {
    if k == 0 {
      InitExact(ss[0]);
    } else {
      var j: nat := k - 1;
      BehaviourExact(ss, acts, j);
      NextExact(ss, acts, j, ss[k]);
    }
  }

  // ---- what it means for a job -------------------------------------------------------------------

  /** In every finished state of every undisturbed behaviour: the predictions are those
      counted and those overlooked, the failures are those counted, and of these a retry
      selects what has no prediction and is alive. */
  lemma FinishedExactly(ss: seq<State>, acts: seq<Action>, k: nat)
    requires Behaviour(ss, acts) && Undisturbed(ss, acts) && k < |ss| && !InFlight(ss[k].row.status)
    ensures var s := ss[k];
            && |Owned(s)| == s.row.processedCount + |Overlooked(s)|
            && (s.row.processedCount == |Owned(s)| <==> Overlooked(s) == {})
            && s.row.failedCount == |RunFailed(s)|
            && Outstanding(s) == RunFailed(s) - Owned(s) - s.deleted
            && (Retryable(s.row.status) <==> RunFailed(s) != {})
  {
    FinishedHolds(ss, acts, k);
    FinishedCounts(ss[k]);
    OutstandingFailed(ss[k]);
    VerdictOf(ss[k]);
  }

  lemma FinishedHolds(ss: seq<State>, acts: seq<Action>, k: nat)
    requires Behaviour(ss, acts) && Undisturbed(ss, acts) && k < |ss| && !InFlight(ss[k].row.status)
    ensures Accounts(ss[k]) && Attributed(ss[k]) && Exact(ss[k])
    ensures Apart(ss[k].chunks) && AllRecorded(ss[k].chunks, Owned(ss[k]), ss[k].skipped)
  {
    BehaviourAccounts(ss, acts, k);
    BehaviourAttributed(ss, acts, k);
    BehaviourExact(ss, acts, k);
    FinishedIsRecorded(ss[k]);
  }

  lemma VerdictOf(s: State)
    requires Accounts(s) && !InFlight(s.row.status)
    ensures Retryable(s.row.status) <==> s.row.failedCount != 0
  {
  }

  lemma RunInRoster(s: State)
    requires Shape(s)
    ensures RunIds(s.chunks) <= Elements(s.roster)
  {
    forall t | t in RunIds(s.chunks) ensures t in Elements(s.roster) {
      var i :| 0 <= i < |s.chunks| && t in s.chunks[i].ids;
      assert t in Elements(s.chunks[i].ids);
    }
  }

  lemma OutstandingFailed(s: State)
    requires Shape(s) && Covered(s) && AllRecorded(s.chunks, Owned(s), s.skipped)
    ensures Outstanding(s) == RunFailed(s) - Owned(s) - s.deleted
  {
    RunInRoster(s);
    FailedAre(s);
  }

  /** The terminal status, told by what the run counted and what the job holds: FAILED
      when it holds nothing but what its passes overlooked. */
  lemma StatusExactly(ss: seq<State>, acts: seq<Action>, k: nat)
    requires Behaviour(ss, acts) && Undisturbed(ss, acts) && k < |ss| && !InFlight(ss[k].row.status)
    ensures var s := ss[k];
            && (s.row.status.Completed? <==> RunFailed(s) == {})
            && (s.row.status.Failed? <==> RunFailed(s) != {} && Owned(s) == Overlooked(s))
            && (s.row.status.PartiallyCompleted? <==> RunFailed(s) != {} && Owned(s) != Overlooked(s))
  {
    FinishedExactly(ss, acts, k);
    OneFinaliserPerRun(ss, acts, k);
    SubsetSize(Overlooked(ss[k]), Owned(ss[k]));
  }

  // ---- where a skipped transaction comes from -----------------------------------------------------

  /** Action `m` is chunk `i` skipping transaction `t`. */
  ghost predicate SkipsAt(ss: seq<State>, acts: seq<Action>, m: nat, i: nat, t: TxnId)
    requires |ss| == |acts| + 1
  {
    m < |acts| && SkipsNow(ss[m], acts[m], ss[m + 1], i, t)
  }

  /** This step is chunk `i` skipping transaction `t`. */
  ghost predicate SkipsNow(s: State, a: Action, s': State, i: nat, t: TxnId) {
    && (a == Fetch(i) || a == Reject(i)) && Busy(s, i)
    && s.chunks[i].ids[s.chunks[i].phase.pos] == t && s' == SkipCurrent(s, i)
  }

  /** The action begins or throws away a pass over the chunk that holds `t`, or puts
      `t` on a new one. */
  ghost predicate Discards(s: State, a: Action, t: TxnId) {
    || ((a.Start? || a.Abort?) && a.chunk < |s.chunks| && t in s.chunks[a.chunk].ids)
    || (a.Retry? && t in a.ids)
  }

  /** No action from `m` to `k` discards what became of `t`. */
  ghost predicate Kept(ss: seq<State>, acts: seq<Action>, m: nat, k: nat, t: TxnId)
    requires |ss| == |acts| + 1
  {
    k < |ss| && forall j {:trigger acts[j]} :: m <= j < k ==> !Discards(ss[j], acts[j], t)
  }

  /** At `m` a pass skipped `t`, and until `k` neither that pass was thrown away nor `t`
      taken up by another. */
  ghost predicate LastingSkip(ss: seq<State>, acts: seq<Action>, m: nat, k: nat, i: nat, t: TxnId)
    requires |ss| == |acts| + 1
  {
    m < k && SkipsAt(ss, acts, m, i, t) && Kept(ss, acts, m + 1, k, t)
  }

  lemma SkippedStep(s: State, a: Action, s': State, t: TxnId) returns (i: nat)
    requires Moves(s, a, s') && t in s'.skipped
    ensures (t in s.skipped && !Discards(s, a, t)) || SkipsNow(s, a, s', i, t)
  {
    i := if WorkerAction(a) then a.chunk else 0;
    if a.Start? || a.Abort? {
      AfreshShape(s, a, s');
    } else if a.Retry? {
      RetryShape(s, a, s');
    }
  }

  lemma SkippedStays(s: State, a: Action, s': State, t: TxnId)
    requires Moves(s, a, s') && t in s.skipped && !Discards(s, a, t)
    ensures t in s'.skipped
  {
    if a.Start? || a.Abort? {
      AfreshShape(s, a, s');
    } else if a.Retry? {
      RetryShape(s, a, s');
    }
  }

  lemma SkippedBack(ss: seq<State>, acts: seq<Action>, k: nat, s': State, t: TxnId) returns (i: nat)
    requires Behaviour(ss, acts) && Undisturbed(ss, acts) && k < |acts| && s' == ss[k + 1] && t in s'.skipped
    ensures SkipsAt(ss, acts, k, i, t) || (t in ss[k].skipped && !Discards(ss[k], acts[k], t))
  {
    StepAt(ss, acts, k);
    i := SkippedStep(ss[k], acts[k], s', t);
  }

  lemma KeptOn(ss: seq<State>, acts: seq<Action>, m: nat, k: nat, t: TxnId)
    requires |ss| == |acts| + 1 && k < |acts| && Kept(ss, acts, m, k, t) && !Discards(ss[k], acts[k], t)
    ensures Kept(ss, acts, m, k + 1, t)
  {
  }

  lemma FirstSkippedNothing(ss: seq<State>, acts: seq<Action>)
    requires Behaviour(ss, acts)
    ensures ss[0].skipped == {}
  {
  }

  lemma {:induction false} WhenSkipped(ss: seq<State>, acts: seq<Action>, k: nat, t: TxnId) returns (m: nat, i: nat)
    requires Behaviour(ss, acts) && Undisturbed(ss, acts) && k < |ss| && t in ss[k].skipped
    ensures LastingSkip(ss, acts, m, k, i, t)
  {
    FirstSkippedNothing(ss, acts);
    m := k - 1;
    i := SkippedBack(ss, acts, m, ss[k], t);
    if !SkipsAt(ss, acts, m, i, t) {
      m, i := WhenSkipped(ss, acts, k - 1, t);
      KeptOn(ss, acts, m + 1, k - 1, t);
    }
  }

  lemma NotSkippedAhead(c: Chunk, owned: set<TxnId>, skipped: set<TxnId>)
    requires Tallied(c, owned, skipped) && c.phase.Active? && c.phase.pos < |c.ids|
    ensures c.ids[c.phase.pos] !in skipped
  {
    assert c.ids[c.phase.pos..][0] == c.ids[c.phase.pos];
  }

  /** What a pass has skipped is not scored while the skip lasts. */
  lemma SkippedIsNotScored(s: State, a: Action, s': State, t: TxnId)
    requires Exact(s) && Moves(s, a, s') && Harmless(s, a) && t in s.skipped
    ensures t in Owned(s') <==> t in Owned(s)
  {
    StepOutstanding(s, a);
    if t !in Owned(s) && t in Owned(s') {
      OnlyScoringGains(s, a, s', t);
      NotSkippedAhead(s.chunks[a.chunk], Owned(s), s.skipped);
    }
  }

  lemma SkipMarks(s: State, a: Action, s': State, i: nat, t: TxnId)
    requires SkipsNow(s, a, s', i, t)
    ensures t in s'.skipped && (t in Owned(s') <==> t in Owned(s))
  {
    SkipShape(s, i, s');
  }

  lemma SkipGoesOn(ss: seq<State>, acts: seq<Action>, k: nat, s': State, t: TxnId)
    requires Behaviour(ss, acts) && Undisturbed(ss, acts) && k < |acts| && s' == ss[k + 1]
    requires t in ss[k].skipped && !Discards(ss[k], acts[k], t)
    ensures t in s'.skipped && (t in Owned(s') <==> t in Owned(ss[k]))
  {
    StepAt(ss, acts, k);
    BehaviourExact(ss, acts, k);
    SkippedStays(ss[k], acts[k], s', t);
    SkippedIsNotScored(ss[k], acts[k], s', t);
  }

  /** As long as a skip lasts nothing changes for its transaction. */
  lemma {:induction false} WhileSkipped(ss: seq<State>, acts: seq<Action>, m: nat, k: nat, i: nat, t: TxnId)
    requires Behaviour(ss, acts) && Undisturbed(ss, acts) && LastingSkip(ss, acts, m, k, i, t)
    ensures t in ss[k].skipped && (t in Owned(ss[k]) <==> t in Owned(ss[m]))
    decreases k
  {
    if k == m + 1 {
      SkipMarks(ss[m], acts[m], ss[k], i, t);
    } else {
      var j: nat := k - 1;
      WhileSkipped(ss, acts, m, j, i, t);
      SkipGoesOn(ss, acts, j, ss[k], t);
    }
  }

  /** A transaction counts as skipped exactly when a skip of it lasts. */
  lemma SkippedExactly(ss: seq<State>, acts: seq<Action>, k: nat, t: TxnId)
    requires Behaviour(ss, acts) && Undisturbed(ss, acts) && k < |ss|
    ensures t in ss[k].skipped <==> exists m: nat, i: nat :: LastingSkip(ss, acts, m, k, i, t)
  {
    if t in ss[k].skipped {
      var m, i := WhenSkipped(ss, acts, k, t);
    }
    if m: nat, i: nat :| LastingSkip(ss, acts, m, k, i, t) {
      WhileSkipped(ss, acts, m, k, i, t);
    }
  }

  /** An earlier attempt at the chunk had scored what action `m` skips. */
  ghost predicate ScoredBefore(ss: seq<State>, acts: seq<Action>, m: nat, i: nat, t: TxnId)
    requires |ss| == |acts| + 1 && SkipsAt(ss, acts, m, i, t)
  {
    exists scored: nat :: EarlierAttemptScored(ss, acts, scored, m, i, t)
  }

  /** While a skip lasts, its transaction has a prediction exactly when an earlier
      attempt at the chunk, in the same run, had scored it. */
  lemma SkippedScoredExactly(ss: seq<State>, acts: seq<Action>, m: nat, k: nat, i: nat, t: TxnId)
    requires Behaviour(ss, acts) && Undisturbed(ss, acts) && LastingSkip(ss, acts, m, k, i, t)
    ensures t in Owned(ss[k]) <==> ScoredBefore(ss, acts, m, i, t)
  {
    WhileSkipped(ss, acts, m, k, i, t);
    if t in Owned(ss[m]) {
      var scored := EarlierAttempt(ss, acts, m, i);
    }
    if scored: nat :| EarlierAttemptScored(ss, acts, scored, m, i, t) {
      ScoredStaysOwned(ss, acts, scored, m, i, t);
    }
  }

  /** A transaction is overlooked exactly when a lasting skip hit it although an earlier
      attempt at the same chunk, in the same run, had scored it. */
  lemma OverlookedExactly(ss: seq<State>, acts: seq<Action>, k: nat, t: TxnId)
    requires Behaviour(ss, acts) && Undisturbed(ss, acts) && k < |ss|
    ensures t in Overlooked(ss[k]) <==>
              exists m: nat, i: nat :: LastingSkip(ss, acts, m, k, i, t) && ScoredBefore(ss, acts, m, i, t)
  {
    if t in ss[k].skipped {
      var m, i := WhenSkipped(ss, acts, k, t);
      SkippedScoredExactly(ss, acts, m, k, i, t);
    }
    if m: nat, i: nat :| LastingSkip(ss, acts, m, k, i, t) && ScoredBefore(ss, acts, m, i, t) {
      SkippedScoredExactly(ss, acts, m, k, i, t);
      WhileSkipped(ss, acts, m, k, i, t);
    }
  }
}
