/** The half of the invariant that needs the attribution hypothesis: as long as
    nobody overwrites a prediction the job owns, the counters never claim more
    than the predictions that exist. */
module JobAttribution {
  import opened Collections
  import opened JobModel
  import opened JobAccounts

  // ---- counting the ids of a chunk that are in a set ---------------------------

  /** How many of `ids` lie in `owned`. */
  function Hits(ids: seq<TxnId>, owned: set<TxnId>): nat {
    if ids == [] then 0
    else Hits(ids[..|ids| - 1], owned) + (if ids[|ids| - 1] in owned then 1 else 0)
  }

  lemma {:induction false} HitsBound(ids: seq<TxnId>, owned: set<TxnId>)
    ensures Hits(ids, owned) <= |ids|
    ensures Hits(ids, owned) == |ids| <==> forall t :: t in ids ==> t in owned
  {
    if ids != [] {
      var front := ids[..|ids| - 1];
      HitsBound(front, owned);
      assert ids == front + [ids[|ids| - 1]];
    }
  }

  lemma {:induction false} HitsMonotone(ids: seq<TxnId>, small: set<TxnId>, big: set<TxnId>)
    requires forall t :: t in ids && t in small ==> t in big
    ensures Hits(ids, small) <= Hits(ids, big)
  {
    if ids != [] {
      HitsMonotone(ids[..|ids| - 1], small, big);
    }
  }

  lemma HitsSame(ids: seq<TxnId>, a: set<TxnId>, b: set<TxnId>)
    requires forall t :: t in ids ==> (t in a <==> t in b)
    ensures Hits(ids, a) == Hits(ids, b)
  {
    HitsMonotone(ids, a, b);
    HitsMonotone(ids, b, a);
  }

  lemma HitsExtend(ids: seq<TxnId>, pos: nat, owned: set<TxnId>)
    requires pos < |ids|
    ensures Hits(ids[..pos + 1], owned) == Hits(ids[..pos], owned) + (if ids[pos] in owned then 1 else 0)
  {
    var p := ids[..pos + 1];
    assert p[..|p| - 1] == ids[..pos];
  }

  /** For a list without repeats this is the count the database returns. */
  lemma {:induction false} HitsAreCount(ids: seq<TxnId>, owned: set<TxnId>)
    requires NoDuplicates(ids)
    ensures Hits(ids, owned) == |owned * Elements(ids)|
  {
    if ids == [] {
      assert owned * Elements(ids) == {};
    } else {
      var front, last := ids[..|ids| - 1], ids[|ids| - 1];
      DropLast(ids);
      HitsAreCount(front, owned);
      CountOneMore(owned, Elements(front), last);
    }
  }

  lemma DropLast(ids: seq<TxnId>)
    requires ids != [] && NoDuplicates(ids)
    ensures var front, last := ids[..|ids| - 1], ids[|ids| - 1];
            NoDuplicates(front) && last !in front && Elements(ids) == Elements(front) + {last}
  {
    var front, last := ids[..|ids| - 1], ids[|ids| - 1];
    assert ids == front + [last];
    ElementsAppend(front, last);
  }

  lemma CountOneMore(owned: set<TxnId>, some: set<TxnId>, x: TxnId)
    requires x !in some
    ensures |owned * (some + {x})| == |owned * some| + (if x in owned then 1 else 0)
  {
    if x in owned {
      DisjointSize(owned * some, {x});
      assert owned * (some + {x}) == owned * some + {x};
    } else {
      assert owned * (some + {x}) == owned * some;
    }
  }

  // ---- the invariant --------------------------------------------------------------

  function RunIds(cs: seq<Chunk>): set<TxnId> {
    set i, t | 0 <= i < |cs| && t in cs[i].ids :: t
  }

  function Last(c: Chunk): TxnId
    requires c.ids != []
  {
    c.ids[|c.ids| - 1]
  }

  ghost predicate HonestOutcome(c: Chunk, owned: set<TxnId>, processed: int, failed: int, salvaged: bool) {
    processed <= Hits(c.ids, owned) && (salvaged ==> processed == Hits(c.ids, owned) && failed >= 1)
  }

  /** What a chunk's phase says about the predictions in `owned`. The last id of
      a chunk is the one an aborted pass can never have scored. */
  ghost predicate Honest(c: Chunk, owned: set<TxnId>) {
    && c.ids != []
    && match c.phase
       case Waiting(_) => Last(c) !in owned
       case Active(_, pos, _, p, _) =>
         pos <= |c.ids| && p <= Hits(c.ids[..pos], owned) && (pos < |c.ids| ==> Last(c) !in owned)
       case Exhausted => Last(c) !in owned
       case Counted(k) => k == Hits(c.ids, owned) && Last(c) !in owned
       case Finalising(p, f, salvaged, _) => HonestOutcome(c, owned, p, f, salvaged)
       case Recorded(p, f, salvaged) => HonestOutcome(c, owned, p, f, salvaged)
  }

  ghost predicate AllHonest(cs: seq<Chunk>, owned: set<TxnId>) {
    forall i :: 0 <= i < |cs| ==> Honest(cs[i], owned)
  }

  /** The parts of the invariant that look at whole sets. */
  ghost predicate Covered(s: State) {
    && Owned(s) <= Elements(s.roster)
    && s.baseProcessed <= |Owned(s) - RunIds(s.chunks)|
    && s.baseProcessed + SumOf(s.chunks, Size) <= s.row.totalTxns
    && Elements(s.roster) <= Owned(s) + RunIds(s.chunks) + s.excused
    && s.excused <= s.deleted
    && (s.runs == 1 ==> s.excused == {} && s.baseProcessed == 0)
  }

  ghost predicate Attributed(s: State) {
    AllHonest(s.chunks, Owned(s)) && Covered(s)
  }

  /** `Rescore` leaves the job's own predictions alone. */
  ghost predicate Harmless(s: State, a: Action) {
    a.Rescore? ==> a.txn !in Owned(s)
  }

  // ---- what the invariant says about processedCount ----------------------------

  lemma SplitSize(owned: set<TxnId>, a: set<TxnId>, b: set<TxnId>, whole: set<TxnId>)
    requires whole == a + b && a !! b
    ensures |owned * whole| == |owned * a| + |owned * b|
  {
    DisjointSize(owned * a, owned * b);
    assert owned * whole == owned * a + owned * b;
  }

  /** Recorded successes never exceed the predictions held in the run's ids. */
  lemma {:induction false} ProcessedAreOwned(cs: seq<Chunk>, owned: set<TxnId>)
    requires AllHonest(cs, owned)
    requires forall i :: 0 <= i < |cs| ==> NoDuplicates(cs[i].ids)
    requires forall i, j :: 0 <= i < j < |cs| ==> Elements(cs[i].ids) !! Elements(cs[j].ids)
    ensures SumOf(cs, SettledProcessed) <= |owned * RunIds(cs)|
  {
    if cs != [] {
      var rest := cs[1..];
      assert forall i :: 0 <= i < |rest| ==> rest[i] == cs[i + 1];
      ProcessedAreOwned(rest, owned);
      HitsAreCount(cs[0].ids, owned);
      assert SettledProcessed(cs[0]) <= Hits(cs[0].ids, owned) by {
        assert Honest(cs[0], owned);
      }
      RunIdsSplit(cs);
      SplitSize(owned, Elements(cs[0].ids), RunIds(rest), RunIds(cs));
    }
  }

  lemma RunIdsSplit(cs: seq<Chunk>)
    requires cs != []
    requires forall i, j :: 0 <= i < j < |cs| ==> Elements(cs[i].ids) !! Elements(cs[j].ids)
    ensures RunIds(cs) == Elements(cs[0].ids) + RunIds(cs[1..])
    ensures Elements(cs[0].ids) !! RunIds(cs[1..])
  {
    forall t | t in RunIds(cs) ensures t in Elements(cs[0].ids) + RunIds(cs[1..]) {
      var i :| 0 <= i < |cs| && t in cs[i].ids;
      if i > 0 { assert cs[1..][i - 1] == cs[i]; }
    }
    forall t | t in RunIds(cs[1..]) ensures t in RunIds(cs) && t !in Elements(cs[0].ids) {
      var i :| 0 <= i < |cs[1..]| && t in cs[1..][i].ids;
      assert cs[i + 1] == cs[1..][i] && t in Elements(cs[i + 1].ids);
    }
  }

  /** processedCount is bounded by the predictions the job owns. */
  lemma ProcessedBound(s: State)
    requires Accounts(s) && Attributed(s)
    ensures s.row.processedCount <= |Owned(s)|
  {
    ProcessedAreOwned(s.chunks, Owned(s));
    var inside, outside := Owned(s) * RunIds(s.chunks), Owned(s) - RunIds(s.chunks);
    DisjointSize(inside, outside);
    assert inside + outside == Owned(s);
  }

  // ---- one chunk at a time ----------------------------------------------------------

  lemma StillHonest(c: Chunk, owned: set<TxnId>, owned': set<TxnId>)
    requires Honest(c, owned)
    requires forall t :: t in c.ids ==> (t in owned <==> t in owned')
    ensures Honest(c, owned')
  {
    HitsSame(c.ids, owned, owned');
    if c.phase.Active? {
      HitsSame(c.ids[..c.phase.pos], owned, owned');
    }
  }

  /** A chunk whose current transaction has just been scored. */
  function AfterScore(c: Chunk): Chunk
    requires c.phase.Active?
  {
    var p := c.phase;
    c.(phase := p.(pos := p.pos + 1, fetched := false, processed := p.processed + 1))
  }

  lemma ScoredHonest(c: Chunk, owned: set<TxnId>)
    requires Honest(c, owned) && NoDuplicates(c.ids) && c.phase.Active? && c.phase.pos < |c.ids|
    ensures Honest(AfterScore(c), owned + {c.ids[c.phase.pos]})
  {
    var pos := c.phase.pos;
    var owned' := owned + {c.ids[pos]};
    HitsMonotone(c.ids[..pos], owned, owned');
    HitsExtend(c.ids, pos, owned');
  }

  lemma SkippedHonest(c: Chunk, owned: set<TxnId>)
    requires Honest(c, owned) && c.phase.Active? && c.phase.pos < |c.ids|
    ensures Honest(c.(phase := Skipped(c.phase)), owned)
  {
    HitsExtend(c.ids, c.phase.pos, owned);
  }

  lemma PassEndHonest(c: Chunk, owned: set<TxnId>)
    requires Honest(c, owned) && c.phase.Active? && c.phase.pos == |c.ids|
    ensures HonestOutcome(c, owned, c.phase.processed, c.phase.failed, false)
  {
    assert c.ids[..c.phase.pos] == c.ids;
  }

  /** An exhausted chunk is salvaged exactly, and never whole. */
  lemma SalvageHonest(c: Chunk, owned: set<TxnId>)
    requires Honest(c, owned) && c.phase.Counted?
    ensures HonestOutcome(c, owned, c.phase.scored, |c.ids| - c.phase.scored, true)
  {
    HitsBound(c.ids, owned);
    assert Last(c) in c.ids;
  }

  // ---- preservation ------------------------------------------------------------

  lemma FreshRunIds(ids: seq<TxnId>)
    requires NoDuplicates(ids)
    ensures RunIds(FreshChunks(ids)) == Elements(ids)
  {
    FreshChunksPartition(ids);
    var cs := FreshChunks(ids);
    forall t | t in RunIds(cs) ensures t in ids {
      var i :| 0 <= i < |cs| && t in cs[i].ids;
      assert t in Elements(cs[i].ids);
    }
  }

  lemma FreshHonest(ids: seq<TxnId>, owned: set<TxnId>)
    requires NoDuplicates(ids) && forall t :: t in ids ==> t !in owned
    ensures AllHonest(FreshChunks(ids), owned)
  {
    FreshChunksPartition(ids);
    var cs := FreshChunks(ids);
    forall j | 0 <= j < |cs| ensures Honest(cs[j], owned) {
      assert Last(cs[j]) in Elements(cs[j].ids);
    }
  }

  lemma InitAttributed(s: State)
    requires Init(s)
    ensures Attributed(s)
  {
    FreshChunksPartition(s.roster);
    FreshRunIds(s.roster);
    FreshHonest(s.roster, Owned(s));
    assert Owned(s) - RunIds(s.chunks) == {};
  }

  /** The same chunks, whatever their phases. */
  ghost predicate SameIds(cs: seq<Chunk>, cs': seq<Chunk>) {
    |cs'| == |cs| && forall i :: 0 <= i < |cs| ==> cs'[i].ids == cs[i].ids
  }

  lemma {:induction false} SameSizes(cs: seq<Chunk>, cs': seq<Chunk>)
    requires SameIds(cs, cs')
    ensures SumOf(cs', Size) == SumOf(cs, Size)
  {
    if cs != [] {
      SameSizes(cs[1..], cs'[1..]);
    }
  }

  lemma SameRunIds(cs: seq<Chunk>, cs': seq<Chunk>)
    requires SameIds(cs, cs')
    ensures RunIds(cs') == RunIds(cs)
  {
  }

  /** What no action of a worker touches. */
  ghost predicate SameFrame(s: State, s': State) {
    && s'.job == s.job && s'.roster == s.roster && s'.row.totalTxns == s.row.totalTxns && s'.runs == s.runs
    && s'.baseProcessed == s.baseProcessed && s'.excused == s.excused
  }

  /** Nothing but ids of the run, all on the roster, has become owned. */
  lemma CoveredStays(s: State, s': State, ids: set<TxnId>)
    requires Covered(s) && SameFrame(s, s') && s.deleted <= s'.deleted
    requires SameIds(s.chunks, s'.chunks)
    requires Owned(s) <= Owned(s') <= Owned(s) + ids && ids <= RunIds(s.chunks) && ids <= Elements(s.roster)
    ensures Covered(s')
  {
    SameSizes(s.chunks, s'.chunks);
    SameRunIds(s.chunks, s'.chunks);
    SameOutside(Owned(s), Owned(s'), RunIds(s.chunks));
  }

  lemma SameOutside(owned: set<TxnId>, owned': set<TxnId>, run: set<TxnId>)
    requires owned <= owned' <= owned + run
    ensures owned' - run == owned - run
  {
  }

  lemma OwnedAfterPersist(s: State, s': State, id: TxnId)
    requires s'.job == s.job && s'.owner == s.owner[id := Some(s.job)]
    ensures Owned(s') == Owned(s) + {id}
  {
  }

  lemma OthersStayHonest(s: State, i: nat, j: nat, owned': set<TxnId>)
    requires Shape(s) && AllHonest(s.chunks, Owned(s)) && i < |s.chunks| && j < |s.chunks| && i != j
    requires Owned(s) <= owned' <= Owned(s) + Elements(s.chunks[i].ids)
    ensures Honest(s.chunks[j], owned')
  {
    var ours, theirs := Elements(s.chunks[i].ids), Elements(s.chunks[j].ids);
    assert ours !! theirs;
    forall t | t in s.chunks[j].ids ensures t in Owned(s) <==> t in owned' {
      assert t in theirs && t !in ours;
    }
    StillHonest(s.chunks[j], Owned(s), owned');
  }

  lemma ChunkInRoster(s: State, i: nat)
    requires Shape(s) && i < |s.chunks|
    ensures Elements(s.chunks[i].ids) <= RunIds(s.chunks) && Elements(s.chunks[i].ids) <= Elements(s.roster)
  {
  }

  lemma OneChunkCovered(s: State, i: nat, c: Chunk, s': State)
    requires Shape(s) && Covered(s) && i < |s.chunks| && SameFrame(s, s') && s'.deleted == s.deleted
    requires s'.chunks == s.chunks[i := c] && c.ids == s.chunks[i].ids
    requires Owned(s) <= Owned(s') <= Owned(s) + Elements(c.ids)
    ensures Covered(s')
  {
    ChunkInRoster(s, i);
    CoveredStays(s, s', Elements(c.ids));
  }

  /** One chunk moves; its own ids may become owned. */
  lemma OneChunkMoves(s: State, i: nat, c: Chunk, s': State)
    requires Shape(s) && Attributed(s) && i < |s.chunks| && SameFrame(s, s') && s'.deleted == s.deleted
    requires s'.chunks == s.chunks[i := c] && c.ids == s.chunks[i].ids
    requires Owned(s) <= Owned(s') <= Owned(s) + Elements(c.ids)
    requires Honest(c, Owned(s'))
    ensures Attributed(s')
  {
    OneChunkCovered(s, i, c, s');
    AllStayHonest(s, i, c, Owned(s'));
  }

  lemma AllStayHonest(s: State, i: nat, c: Chunk, owned': set<TxnId>)
    requires Shape(s) && AllHonest(s.chunks, Owned(s)) && i < |s.chunks| && c.ids == s.chunks[i].ids
    requires Owned(s) <= owned' <= Owned(s) + Elements(c.ids) && Honest(c, owned')
    ensures AllHonest(s.chunks[i := c], owned')
  {
    var cs := s.chunks[i := c];
    forall j | 0 <= j < |cs| ensures Honest(cs[j], owned') {
      if j != i {
        OthersStayHonest(s, i, j, owned');
      }
    }
  }

  /** The actions of a worker that write no prediction. */
  predicate Turns(a: Action) {
    WorkerAction(a) && !a.Persist?
  }

  lemma TurnShape(s: State, a: Action)
    requires Enabled(s, a) && Turns(a)
    ensures var s', i := Apply(s, a), a.chunk;
            && i < |s.chunks| && SameFrame(s, s') && s'.deleted == s.deleted && s'.owner == s.owner
            && s'.chunks == s.chunks[i := s'.chunks[i]] && s'.chunks[i].ids == s.chunks[i].ids
  {
  }

  lemma QuietHonest(s: State, a: Action)
    requires Enabled(s, a) && (a.Start? || a.Fetch? || a.Reject? || a.Abort?) && Honest(s.chunks[a.chunk], Owned(s))
    ensures Honest(Apply(s, a).chunks[a.chunk], Owned(s))
  {
    var c := s.chunks[a.chunk];
    if a.Start? {
      assert c.ids[..0] == [];
    } else if a.Fetch? || a.Reject? {
      SkippedHonest(c, Owned(s));
    }
  }

  lemma CountHonest(s: State, a: Action)
    requires Enabled(s, a) && a.CountScored?
    requires Honest(s.chunks[a.chunk], Owned(s)) && NoDuplicates(s.chunks[a.chunk].ids)
    ensures Honest(Apply(s, a).chunks[a.chunk], Owned(s))
  {
    HitsAreCount(s.chunks[a.chunk].ids, Owned(s));
  }

  lemma OutcomeHonest(s: State, a: Action)
    requires Enabled(s, a) && (a.Record? || a.Salvage? || a.Finalise?)
    requires Honest(s.chunks[a.chunk], Owned(s))
    ensures Honest(Apply(s, a).chunks[a.chunk], Owned(s))
  {
    var c := s.chunks[a.chunk];
    if a.Record? {
      PassEndHonest(c, Owned(s));
    } else if a.Salvage? {
      SalvageHonest(c, Owned(s));
    }
  }

  /** What such an action leaves its chunk as is honest. */
  lemma TurnedHonest(s: State, a: Action)
    requires Enabled(s, a) && Turns(a)
    requires Honest(s.chunks[a.chunk], Owned(s)) && NoDuplicates(s.chunks[a.chunk].ids)
    ensures Honest(Apply(s, a).chunks[a.chunk], Owned(s))
  {
    if a.Start? || a.Fetch? || a.Reject? || a.Abort? {
      QuietHonest(s, a);
    } else if a.CountScored? {
      CountHonest(s, a);
    } else {
      OutcomeHonest(s, a);
    }
  }

  lemma TurnAttributed(s: State, a: Action, s': State)
    requires Shape(s) && Attributed(s) && Moves(s, a, s') && Turns(a)
    ensures Attributed(s')
  {
    TurnShape(s, a);
    TurnedHonest(s, a);
    assert Owned(s') == Owned(s);
    OneChunkMoves(s, a.chunk, s'.chunks[a.chunk], s');
  }

  lemma PersistShape(s: State, i: nat)
    requires Enabled(s, Persist(i))
    ensures var s', c := Apply(s, Persist(i)), s.chunks[i];
            && SameFrame(s, s') && s'.deleted == s.deleted
            && s'.owner == s.owner[c.ids[c.phase.pos] := Some(s.job)]
            && s'.chunks == s.chunks[i := AfterScore(c)]
  {
  }

  lemma PersistAttributed(s: State, a: Action, s': State)
    requires Shape(s) && Attributed(s) && Moves(s, a, s') && a.Persist?
    ensures Attributed(s')
  {
    var i, c := a.chunk, s.chunks[a.chunk];
    var id := c.ids[c.phase.pos];
    PersistShape(s, i);
    OwnedAfterPersist(s, s', id);
    assert id in Elements(c.ids);
    ScoredHonest(c, Owned(s));
    OneChunkMoves(s, i, AfterScore(c), s');
  }

  lemma RetryShape(s: State, a: Action, s': State)
    requires Moves(s, a, s') && a.Retry?
    ensures NoDuplicates(a.ids) && Elements(a.ids) !! Owned(s) && Retryable(s.row.status)
    ensures s'.chunks == FreshChunks(a.ids) && s'.owner == s.owner && s'.job == s.job && s'.deleted == s.deleted
    ensures s'.roster == s.roster && s'.row.totalTxns == s.row.totalTxns && s'.runs == s.runs + 1
    ensures s'.baseProcessed == s.row.processedCount && s'.skipped == s.skipped - Elements(a.ids)
    ensures s'.excused == Elements(s.roster) * s.deleted - Owned(s)
  {
  }

  /** Every transaction is owned, selected by the retry, or excused by it. */
  lemma SelectedOrExcused(roster: set<TxnId>, owned: set<TxnId>, deleted: set<TxnId>, ids: set<TxnId>)
    requires ids == roster - owned - deleted
    ensures roster <= owned + ids + (roster * deleted - owned) && owned - ids == owned
  {
  }

  lemma RetryChunks(ids: seq<TxnId>)
    requires NoDuplicates(ids)
    ensures RunIds(FreshChunks(ids)) == Elements(ids) && SumOf(FreshChunks(ids), Size) == |ids|
  {
    FreshChunksPartition(ids);
    FreshRunIds(ids);
  }

  lemma RetryFits(s: State, ids: seq<TxnId>)
    requires Accounts(s) && Attributed(s) && Lists(ids, Outstanding(s))
    ensures s.row.processedCount <= |Owned(s)| && s.row.processedCount + |ids| <= s.row.totalTxns
    ensures Owned(s) <= Elements(s.roster) && s.runs >= 1
  {
    ProcessedBound(s);
    RoomForRetry(s, ids);
  }

  lemma RetryCounts(s: State, a: Action, s': State)
    requires Accounts(s) && Attributed(s) && Moves(s, a, s') && a.Retry?
    ensures s'.baseProcessed <= |Owned(s)| && s'.baseProcessed + SumOf(s'.chunks, Size) <= s'.row.totalTxns
    ensures Owned(s) <= Elements(s.roster) && s'.runs > 1
  {
    RetryShape(s, a, s');
    RetryChunks(a.ids);
    RetryFits(s, a.ids);
  }

  lemma RetrySets(s: State, a: Action, s': State)
    requires Moves(s, a, s') && a.Retry?
    ensures Owned(s') == Owned(s) && s'.roster == s.roster && s'.excused <= s'.deleted
    ensures Elements(s.roster) <= Owned(s) + RunIds(s'.chunks) + s'.excused
    ensures Owned(s) - RunIds(s'.chunks) == Owned(s)
  {
    RetryShape(s, a, s');
    RetryChunks(a.ids);
    assert Elements(a.ids) == Outstanding(s);
    SelectedOrExcused(Elements(s.roster), Owned(s), s.deleted, Elements(a.ids));
  }

  lemma RetryCovered(s: State, a: Action, s': State)
    requires Accounts(s) && Attributed(s) && Moves(s, a, s') && a.Retry?
    ensures Covered(s')
  {
    RetryCounts(s, a, s');
    RetrySets(s, a, s');
  }

  lemma RetryAttributed(s: State, a: Action, s': State)
    requires Accounts(s) && Attributed(s) && Moves(s, a, s') && a.Retry?
    ensures Attributed(s')
  {
    RetryCovered(s, a, s');
    RetryShape(s, a, s');
    assert Owned(s') == Owned(s);
    assert forall t :: t in a.ids ==> t in Elements(a.ids);
    FreshHonest(a.ids, Owned(s));
  }

  /** What a retry selects still fits the roster beside what is already owned. */
  lemma RoomForRetry(s: State, ids: seq<TxnId>)
    requires NoDuplicates(s.roster) && Owned(s) <= Elements(s.roster) && Lists(ids, Outstanding(s))
    ensures |Owned(s)| + |ids| <= |s.roster|
  {
    ElementsSize(s.roster);
    ElementsSize(ids);
    DisjointSize(Owned(s), Outstanding(s));
    SubsetSize(Owned(s) + Outstanding(s), Elements(s.roster));
  }

  /** Only a retry changes which ids are on which chunk. */
  lemma StepKeepsIds(s: State, a: Action, s': State)
    requires Moves(s, a, s') && !a.Retry?
    ensures SameIds(s.chunks, s'.chunks) && SameFrame(s, s')
  {
    if Turns(a) {
      TurnShape(s, a);
    }
  }

  lemma StepAttributed(s: State, a: Action, s': State)
    requires Accounts(s) && Attributed(s) && Moves(s, a, s') && Harmless(s, a)
    ensures Attributed(s')
  {
    if Turns(a) {
      TurnAttributed(s, a, s');
    } else if a.Persist? {
      PersistAttributed(s, a, s');
    } else if a.Retry? {
      RetryAttributed(s, a, s');
    } else {
      OutsideAttributed(s, a, s');
    }
  }

  lemma ForeignWrite(owner: map<TxnId, Option<JobId>>, job: JobId, t: TxnId, writer: Option<JobId>)
    requires writer != Some(job) && t !in AttributedTo(owner, job)
    ensures AttributedTo(owner[t := writer], job) == AttributedTo(owner, job)
  {
  }

  lemma OutsideKeepsOwned(s: State, a: Action, s': State)
    requires Moves(s, a, s') && Harmless(s, a) && (a.SoftDelete? || a.Rescore?)
    ensures Owned(s') == Owned(s)
  {
    if a.Rescore? {
      ForeignWrite(s.owner, s.job, a.txn, a.writer);
    }
  }

  lemma OutsideAttributed(s: State, a: Action, s': State)
    requires Attributed(s) && Moves(s, a, s') && Harmless(s, a) && (a.SoftDelete? || a.Rescore?)
    ensures Attributed(s')
  {
    OutsideShape(s, a, s');
    OutsideKeepsOwned(s, a, s');
    CoveredStays(s, s', {});
  }

  lemma StepAt(ss: seq<State>, acts: seq<Action>, k: nat)
    requires Behaviour(ss, acts) && Undisturbed(ss, acts) && k < |acts|
    ensures Moves(ss[k], acts[k], ss[k + 1]) && Harmless(ss[k], acts[k]) && Accounts(ss[k])
  {
    BehaviourAccounts(ss, acts, k);
  }

  lemma NextAttributed(ss: seq<State>, acts: seq<Action>, k: nat, s': State)
    requires Behaviour(ss, acts) && Undisturbed(ss, acts) && k < |acts| && Attributed(ss[k]) && s' == ss[k + 1]
    ensures Attributed(s')
  {
    StepAt(ss, acts, k);
    StepAttributed(ss[k], acts[k], s');
  }

  lemma {:induction false} BehaviourAttributed(ss: seq<State>, acts: seq<Action>, k: nat)
    requires Behaviour(ss, acts) && Undisturbed(ss, acts) && k < |ss|
    ensures Attributed(ss[k])
  {
    if k == 0 {
      InitAttributed(ss[0]);
    } else {
      var j: nat := k - 1;
      BehaviourAttributed(ss, acts, j);
      NextAttributed(ss, acts, j, ss[k]);
    }
  }
}
