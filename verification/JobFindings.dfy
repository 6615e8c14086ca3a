/** Where the protocol's promises stop: short traces showing that two hypotheses
    are needed, that later attempts re-score, and the dead ends a job can reach
    although nothing went wrong. */
module JobFindings {
  import opened Collections
  import opened Chunking
  import opened JobModel
  import opened JobAccounts
  import opened JobAttribution
  import opened JobTheorems

  /** A run of the system that need not begin with a new job. */
  ghost predicate Path(ss: seq<State>, acts: seq<Action>) {
    && |ss| == |acts| + 1
    && forall k {:trigger acts[k]} :: 0 <= k < |acts| ==> Moves(ss[k], acts[k], ss[k + 1])
  }

  /** No action of the path overwrites a prediction the job owns. */
  ghost predicate Undisturbing(ss: seq<State>, acts: seq<Action>) {
    Path(ss, acts) && Undisturbed(ss, acts)
  }

  /** One more step. */
  lemma Go(ss: seq<State>, acts: seq<Action>, a: Action, s': State) returns (ss': seq<State>, acts': seq<Action>)
    requires Path(ss, acts) && Moves(ss[|acts|], a, s')
    ensures Path(ss', acts') && ss' == ss + [s'] && acts' == acts + [a] && ss'[|acts'|] == s'
    ensures Undisturbing(ss, acts) && Harmless(ss[|acts|], a) ==> Undisturbing(ss', acts')
  {
    ss', acts' := ss + [s'], acts + [a];
    forall k | 0 <= k < |acts'| ensures Moves(ss'[k], acts'[k], ss'[k + 1]) {
      if k < |acts| {
        assert acts'[k] == acts[k] && ss'[k] == ss[k] && ss'[k + 1] == ss[k + 1];
      }
    }
    if Undisturbing(ss, acts) && Harmless(ss[|acts|], a) {
      forall k | 0 <= k < |acts'| && acts'[k].Rescore? ensures acts'[k].txn !in Owned(ss'[k]) {
        if k < |acts| {
          assert acts'[k] == acts[k] && ss'[k] == ss[k];
        }
      }
    }
  }

  // ---- one job, two transactions ----------------------------------------------------

  /** Job 7 over transactions 1 and 2 with one chunk on the queue. */
  function Job(row: Row, phase: Phase, owner: map<TxnId, Option<JobId>>): State {
    State(7, [1, 2], row, [Chunk([1, 2], phase)], owner, {}, [], 1, 0, {}, {})
  }

  function Counts(status: Status, processed: int, failed: int, completed: int): Row {
    Row(status, 2, processed, failed, 1, completed)
  }

  const BUSY := Counts(Processing, 0, 0, 0)
  const ONE: map<TxnId, Option<JobId>> := map[1 := Some(7)]
  const BOTH: map<TxnId, Option<JobId>> := map[1 := Some(7), 2 := Some(7)]

  function NewJob(): State {
    Job(Counts(Queued, 0, 0, 0), Waiting(1), map[])
  }

  lemma NewJobIsInit()
    ensures Init(NewJob())
  {
    OneChunkOnly([1, 2]);
  }

  lemma OneChunkOnly(ids: seq<TxnId>)
    requires 0 < |ids| <= 2
    ensures FreshChunks(ids) == [Chunk(ids, Waiting(1))]
  {
    assert Chunks(ids, CHUNK_SIZE) == [ids];
  }

  lemma PairOwned()
    ensures AttributedTo(ONE, 7) == {1} == Elements([1]) && AttributedTo(BOTH, 7) == {1, 2} == Elements([1, 2])
    ensures var none: map<TxnId, Option<JobId>> := map[]; none[1 := Some(7)] == ONE && ONE[2 := Some(7)] == BOTH
  {
  }

  /** The first attempt has scored transaction 1. */
  function OneScored(): State {
    Job(BUSY, Active(1, 1, false, 1, 0), ONE)
  }

  lemma ReachOneScored() returns (ss: seq<State>, acts: seq<Action>)
    ensures Undisturbing(ss, acts) && Init(ss[0]) && ss[|acts|] == OneScored()
    ensures |acts| == 3
  {
    NewJobIsInit();
    PairOwned();
    ss, acts := [NewJob()], [];
    ss, acts := Go(ss, acts, Start(0), Job(BUSY, Active(1, 0, false, 0, 0), map[]));
    ss, acts := Go(ss, acts, Fetch(0), Job(BUSY, Active(1, 0, true, 0, 0), map[]));
    ss, acts := Go(ss, acts, Persist(0), OneScored());
  }

  /** Both transactions decided in one pass, the second one skipped: the chunk is
      recorded and the job finalised. */
  lemma EndRun(ss0: seq<State>, acts0: seq<Action>, s: State, full: Row, last: Row)
    returns (ss: seq<State>, acts: seq<Action>)
    requires Path(ss0, acts0) && ss0[|acts0|] == s && |s.chunks| == 1 && s.chunks[0].phase.Active?
    requires s.row.status == Processing && s.row.totalChunks == 1 && s.row.completedChunks == 0
    requires s.chunks[0].phase.pos == |s.chunks[0].ids|
    requires full == Incremented(s.row, s.chunks[0].phase.processed, s.chunks[0].phase.failed)
    requires last == full.(status := Verdict(full))
    ensures Path(ss, acts) && ss0 <= ss && acts0 <= acts && |acts| == |acts0| + 2
    ensures var p := s.chunks[0].phase;
            ss[|acts|] == s.(row := last, audits := s.audits + [last],
                             chunks := [Chunk(s.chunks[0].ids, Recorded(p.processed, p.failed, false))])
    ensures Undisturbing(ss0, acts0) ==> Undisturbing(ss, acts)
  {
    var c, p := s.chunks[0], s.chunks[0].phase;
    var mid := s.(row := full, chunks := [Chunk(c.ids, Finalising(p.processed, p.failed, false, full))]);
    var recorded := Chunk(c.ids, Recorded(p.processed, p.failed, false));
    var end := s.(row := last, audits := s.audits + [last], chunks := [recorded]);
    ss, acts := Go(ss0, acts0, Record(0), mid);
    ss, acts := Go(ss, acts, Finalise(0), end);
  }

  /** Transaction 1 scored, transaction 2 rejected, job finalised. */
  function HalfDone(): State {
    var last := Counts(PartiallyCompleted, 1, 1, 1);
    Job(last, Recorded(1, 1, false), ONE).(audits := [last], skipped := {2})
  }

  lemma ReachHalfDone() returns (ss: seq<State>, acts: seq<Action>)
    ensures Undisturbing(ss, acts) && Init(ss[0]) && ss[|acts|] == HalfDone()
    ensures |acts| == 6
  {
    var decided := Job(BUSY, Active(1, 2, false, 1, 1), ONE).(skipped := {2});
    ss, acts := ReachOneScored();
    ss, acts := Go(ss, acts, Reject(0), decided);
    ss, acts := EndRun(ss, acts, decided, Counts(Processing, 1, 1, 1), Counts(PartiallyCompleted, 1, 1, 1));
  }

  // ---- a prediction overwritten by someone else -----------------------------------------

  function Again(row: Row, phase: Phase, owner: map<TxnId, Option<JobId>>): State {
    HalfDone().(row := row, chunks := [Chunk([1, 2], phase)], owner := owner, runs := 2, baseProcessed := 1,
                skipped := {})
  }

  lemma RetryBoth(ss0: seq<State>, acts0: seq<Action>) returns (ss: seq<State>, acts: seq<Action>)
    requires Path(ss0, acts0) && ss0[|acts0|] == HalfDone().(owner := map[1 := None])
    ensures Path(ss, acts) && ss0 <= ss && acts0 <= acts
    ensures ss[|acts|] == Again(Counts(Queued, 1, 0, 0), Waiting(1), map[1 := None])
  {
    var s := HalfDone().(owner := map[1 := None]);
    assert Owned(s) == {};
    assert Outstanding(s) == {1, 2} == Elements([1, 2]);
    OneChunkOnly([1, 2]);
    assert Elements(s.roster) * s.deleted - Owned(s) == {};
    assert s.skipped - Elements([1, 2]) == {};
    ss, acts := Go(ss0, acts0, Retry([1, 2]), Again(Counts(Queued, 1, 0, 0), Waiting(1), map[1 := None]));
  }

  lemma StartAgain(ss0: seq<State>, acts0: seq<Action>) returns (ss: seq<State>, acts: seq<Action>)
    requires Path(ss0, acts0) && ss0[|acts0|] == Again(Counts(Queued, 1, 0, 0), Waiting(1), map[1 := None])
    ensures Path(ss, acts) && ss0 <= ss && acts0 <= acts
    ensures ss[|acts|] == Again(Counts(Processing, 1, 0, 0), Active(1, 0, false, 0, 0), map[1 := None])
  {
    ss, acts := Go(ss0, acts0, Start(0), Again(Counts(Processing, 1, 0, 0), Active(1, 0, false, 0, 0), map[1 := None]));
  }

  lemma ScoreBoth(ss0: seq<State>, acts0: seq<Action>) returns (ss: seq<State>, acts: seq<Action>)
    requires Path(ss0, acts0) && ss0[|acts0|] == Again(Counts(Queued, 1, 0, 0), Waiting(1), map[1 := None])
    ensures Path(ss, acts) && ss0 <= ss && acts0 <= acts
    ensures ss[|acts|] == Again(Counts(Processing, 1, 0, 0), Active(1, 2, false, 2, 0), BOTH)
  {
    var row, none := Counts(Processing, 1, 0, 0), map[1 := None];
    PairOwned();
    ss, acts := StartAgain(ss0, acts0);
    var one := Again(row, Active(1, 1, false, 1, 0), ONE);
    ss, acts := ScoreOne(ss, acts, Again(row, Active(1, 0, false, 0, 0), none), one);
    ss, acts := ScoreOne(ss, acts, one, Again(row, Active(1, 2, false, 2, 0), BOTH));
  }

  /** The only chunk's current transaction is fetched and scored. */
  lemma ScoreOne(ss0: seq<State>, acts0: seq<Action>, s: State, s': State)
    returns (ss: seq<State>, acts: seq<Action>)
    requires Path(ss0, acts0) && ss0[|acts0|] == s && Busy(s, 0) && |s.chunks| == 1 && !s.chunks[0].phase.fetched
    requires s.chunks[0].ids[s.chunks[0].phase.pos] !in s.deleted
    requires s' == s.(chunks := [AfterScore(s.chunks[0])],
                      owner := s.owner[s.chunks[0].ids[s.chunks[0].phase.pos] := Some(s.job)])
    ensures Path(ss, acts) && ss0 <= ss && acts0 <= acts && ss[|acts|] == s'
    ensures Undisturbing(ss0, acts0) ==> Undisturbing(ss, acts)
  {
    var c := s.chunks[0];
    var fetched := s.(chunks := [Chunk(c.ids, c.phase.(fetched := true))]);
    ss, acts := Go(ss0, acts0, Fetch(0), fetched);
    ss, acts := Go(ss, acts, Persist(0), s');
  }

  lemma RescoredAndRetried() returns (ss: seq<State>, acts: seq<Action>)
    ensures Path(ss, acts) && Init(ss[0]) && |acts| > 6 && acts[6] == Rescore(1, None)
    ensures ss[|acts|] == Again(Counts(Queued, 1, 0, 0), Waiting(1), map[1 := None])
  {
    ss, acts := ReachHalfDone();
    ss, acts := Go(ss, acts, Rescore(1, None), HalfDone().(owner := map[1 := None]));
    ss, acts := RetryBoth(ss, acts);
  }

  /** One synchronous rescore of a scored transaction before a retry, and the job
      ends COMPLETED with three successes out of two transactions. */
  lemma RescoreBreaksTheBound() returns (ss: seq<State>, acts: seq<Action>)
    ensures Behaviour(ss, acts) && |acts| > 6 && acts[6] == Rescore(1, None)
    ensures ss[|acts|].row == Row(Completed, 2, 3, 0, 1, 1)
  {
    ss, acts := RescoredAndRetried();
    ss, acts := ScoreBoth(ss, acts);
    ss, acts := EndRun(ss, acts, ss[|acts|], Counts(Processing, 3, 0, 1), Counts(Completed, 3, 0, 1));
  }

  // ---- two retries racing ---------------------------------------------------------------

  /** The writing half of a retry whose checks were made earlier: the row is reset
      and the chunks join whatever is already on the queue. */
  function LateRetryWrite(s: State, ids: seq<TxnId>): State {
    var added := FreshChunks(ids);
    s.(chunks := s.chunks + added, row := ResetForRetry(s.row, |added|), runs := s.runs + 1)
  }

  function Twice(row: Row, first: Phase, second: Phase, owner: map<TxnId, Option<JobId>>): State {
    HalfDone().(row := row, runs := 3, owner := owner, skipped := {},
                chunks := [Chunk([1, 2], Recorded(1, 1, false)), Chunk([2], first), Chunk([2], second)])
  }

  lemma DoubleEnqueue()
    ensures Enabled(HalfDone(), Retry([2]))
    ensures LateRetryWrite(LateRetryWrite(HalfDone(), [2]), [2])
         == Twice(Counts(Queued, 1, 0, 0), Waiting(1), Waiting(1), ONE).(skipped := {2})
  {
    assert Owned(HalfDone()) == {1};
    assert Outstanding(HalfDone()) == {2} == Elements([2]);
    OneChunkOnly([2]);
    var once := LateRetryWrite(HalfDone(), [2]);
    assert once.chunks + FreshChunks([2])
        == [Chunk([1, 2], Recorded(1, 1, false)), Chunk([2], Waiting(1)), Chunk([2], Waiting(1))];
  }

  /** The first of the two copies is under way. */
  function FirstCopyAt(row: Row, first: Phase, owner: map<TxnId, Option<JobId>>): State {
    Twice(row, first, Waiting(1), owner)
  }

  lemma FirstCopyScored() returns (ss: seq<State>, acts: seq<Action>)
    ensures Path(ss, acts) && ss[0] == LateRetryWrite(LateRetryWrite(HalfDone(), [2]), [2])
    ensures ss[|acts|] == FirstCopyAt(Counts(Processing, 1, 0, 0), Active(1, 1, false, 1, 0), BOTH)
  {
    var row := Counts(Processing, 1, 0, 0);
    var queued := FirstCopyAt(Counts(Queued, 1, 0, 0), Waiting(1), ONE).(skipped := {2});
    DoubleEnqueue();
    PairOwned();
    ss, acts := [queued], [];
    assert queued.skipped - Elements([2]) == {};
    ss, acts := Go(ss, acts, Start(1), FirstCopyAt(row, Active(1, 0, false, 0, 0), ONE));
    ss, acts := Go(ss, acts, Fetch(1), FirstCopyAt(row, Active(1, 0, true, 0, 0), ONE));
    ss, acts := Go(ss, acts, Persist(1), FirstCopyAt(row, Active(1, 1, false, 1, 0), BOTH));
  }

  lemma FirstCopy() returns (ss: seq<State>, acts: seq<Action>)
    ensures Path(ss, acts) && ss[0] == LateRetryWrite(LateRetryWrite(HalfDone(), [2]), [2])
    ensures ss[|acts|] == SecondCopyAt(Counts(Completed, 2, 0, 1), Waiting(1))
  {
    var full, done := Counts(Processing, 2, 0, 1), Counts(Completed, 2, 0, 1);
    ss, acts := FirstCopyScored();
    ss, acts := Go(ss, acts, Record(1), FirstCopyAt(full, Finalising(1, 0, false, full), BOTH));
    ss, acts := Go(ss, acts, Finalise(1), SecondCopyAt(done, Waiting(1)));
  }

  function SecondCopyAt(row: Row, second: Phase): State {
    Twice(row, Recorded(1, 0, false), second, BOTH).(audits := HalfDone().audits + [Counts(Completed, 2, 0, 1)])
  }

  lemma SecondCopyFetched() returns (ss: seq<State>, acts: seq<Action>)
    ensures Path(ss, acts) && ss[0] == LateRetryWrite(LateRetryWrite(HalfDone(), [2]), [2])
    ensures ss[|acts|] == SecondCopyAt(Counts(Completed, 2, 0, 1), Active(1, 0, true, 0, 0))
  {
    var done := Counts(Completed, 2, 0, 1);
    ss, acts := FirstCopy();
    ss, acts := Go(ss, acts, Start(2), SecondCopyAt(done, Active(1, 0, false, 0, 0)));
    ss, acts := Go(ss, acts, Fetch(2), SecondCopyAt(done, Active(1, 0, true, 0, 0)));
  }

  lemma SecondCopyScored() returns (ss: seq<State>, acts: seq<Action>)
    ensures Path(ss, acts) && ss[0] == LateRetryWrite(LateRetryWrite(HalfDone(), [2]), [2])
    ensures ss[|acts|] == SecondCopyAt(Counts(Completed, 2, 0, 1), Active(1, 1, false, 1, 0))
  {
    var done := Counts(Completed, 2, 0, 1);
    ss, acts := SecondCopyFetched();
    assert BOTH[2 := Some(7)] == BOTH;
    ss, acts := Go(ss, acts, Persist(2), SecondCopyAt(done, Active(1, 1, false, 1, 0)));
  }

  /** Two admins both pass the status check of the reachable state `HalfDone`
      before either writes: the same transaction is enqueued twice, the job is
      finalised by the first copy and the second one still counts. */
  lemma RacingRetriesBreakTheBound()
    returns (before: seq<State>, did: seq<Action>, ss: seq<State>, acts: seq<Action>)
    ensures Behaviour(before, did) && Undisturbed(before, did) && before[|did|] == HalfDone()
    ensures Enabled(HalfDone(), Retry([2]))
    ensures Path(ss, acts) && ss[0] == LateRetryWrite(LateRetryWrite(HalfDone(), [2]), [2])
    ensures ss[|acts|].row == Row(Completed, 2, 3, 0, 1, 2)
  {
    var over := Counts(Completed, 3, 0, 2);
    before, did := ReachHalfDone();
    DoubleEnqueue();
    ss, acts := SecondCopyScored();
    ss, acts := Go(ss, acts, Record(2), SecondCopyAt(over, Finalising(1, 0, false, over)));
  }

  // ---- a second attempt --------------------------------------------------------------------

  /** The first attempt scored transaction 1 and was thrown away on transaction 2. */
  lemma ReachSecondAttempt() returns (ss: seq<State>, acts: seq<Action>)
    ensures Undisturbing(ss, acts) && Init(ss[0]) && ss[|acts|] == Job(BUSY, Waiting(2), ONE)
    ensures |acts| == 5
  {
    ss, acts := ReachOneScored();
    ss, acts := Go(ss, acts, Fetch(0), Job(BUSY, Active(1, 1, true, 1, 0), ONE));
    ss, acts := Go(ss, acts, Abort(0), Job(BUSY, Waiting(2), ONE));
  }

  lemma ReachSecondFetch() returns (ss: seq<State>, acts: seq<Action>)
    ensures Undisturbing(ss, acts) && Init(ss[0]) && |acts| == 7
    ensures ss[7] == Job(BUSY, Active(2, 0, true, 0, 0), ONE)
  {
    ss, acts := ReachSecondAttempt();
    ss, acts := Go(ss, acts, Start(0), Job(BUSY, Active(2, 0, false, 0, 0), ONE));
    ss, acts := Go(ss, acts, Fetch(0), Job(BUSY, Active(2, 0, true, 0, 0), ONE));
  }

  /** The second attempt starts over and writes a prediction the job already owns. */
  lemma SecondAttemptRescores() returns (ss: seq<State>, acts: seq<Action>)
    ensures Behaviour(ss, acts) && Undisturbed(ss, acts) && |acts| == 8
    ensures acts[7] == Persist(0) && ss[7].chunks[0] == Chunk([1, 2], Active(2, 0, true, 0, 0)) && 1 in Owned(ss[7])
  {
    ss, acts := ReachSecondFetch();
    PairOwned();
    assert ONE[1 := Some(7)] == ONE;
    ss, acts := Go(ss, acts, Persist(0), Job(BUSY, Active(2, 1, false, 1, 0), ONE));
  }

  /** Transaction 1 is soft-deleted before the second attempt, which therefore skips
      it and scores transaction 2. */
  lemma ReachOverlooked() returns (ss: seq<State>, acts: seq<Action>)
    ensures Undisturbing(ss, acts) && Init(ss[0])
    ensures ss[|acts|] == Job(BUSY, Active(2, 2, false, 1, 1), BOTH).(deleted := {1}, skipped := {1})
  {
    PairOwned();
    ss, acts := ReachSecondAttempt();
    ss, acts := Go(ss, acts, SoftDelete(1), Job(BUSY, Waiting(2), ONE).(deleted := {1}));
    ss, acts := Go(ss, acts, Start(0), Job(BUSY, Active(2, 0, false, 0, 0), ONE).(deleted := {1}));
    ss, acts := Go(ss, acts, Fetch(0), Job(BUSY, Active(2, 1, false, 0, 1), ONE).(deleted := {1}, skipped := {1}));
    ss, acts := ScoreOne(ss, acts, Job(BUSY, Active(2, 1, false, 0, 1), ONE).(deleted := {1}, skipped := {1}),
                         Job(BUSY, Active(2, 2, false, 1, 1), BOTH).(deleted := {1}, skipped := {1}));
  }

  /** Incomplete, yet the roster holds no transaction without a prediction. */
  ghost predicate NothingLeft(s: State) {
    && s.row.status.PartiallyCompleted? && Outstanding(s) == {}
    && Owned(s) == Elements(s.roster) && s.row.processedCount < |Owned(s)|
  }

  /** A transaction scored by an aborted attempt and soft-deleted before the next
      one is counted as failed although its prediction exists. The job ends
      PARTIALLY_COMPLETED with every roster transaction predicted, no other
      writer and no retry being involved. */
  lemma PartialWithNothingLeft() returns (ss: seq<State>, acts: seq<Action>)
    ensures Behaviour(ss, acts) && Undisturbed(ss, acts) && NothingLeft(ss[|acts|])
  {
    ss, acts := ReachOverlooked();
    ss, acts := EndRun(ss, acts, ss[|acts|], Counts(Processing, 1, 1, 1), Counts(PartiallyCompleted, 1, 1, 1));
    PairOwned();
  }

  /** The last transaction without a prediction is soft-deleted after the run: a
      retry is refused with the words that every transaction has a prediction, and
      transaction 2 has none. */
  lemma RefusedWithTheWrongWords() returns (ss: seq<State>, acts: seq<Action>)
    ensures Behaviour(ss, acts) && Undisturbed(ss, acts)
    ensures Retryable(ss[|acts|].row.status) && Outstanding(ss[|acts|]) == {}
    ensures 2 in ss[|acts|].roster && 2 !in Owned(ss[|acts|])
  {
    ss, acts := ReachHalfDone();
    ss, acts := Go(ss, acts, SoftDelete(2), HalfDone().(deleted := {2}));
    PairOwned();
  }

  /** Once nothing is outstanding the row of a retryable job never changes again:
      PARTIALLY_COMPLETED or FAILED is final. */
  lemma {:induction false} DeadEnd(ss: seq<State>, acts: seq<Action>, k: nat, m: nat)
    requires Behaviour(ss, acts) && Undisturbed(ss, acts) && k <= m < |ss|
    requires Retryable(ss[k].row.status) && Outstanding(ss[k]) == {}
    ensures ss[m].row == ss[k].row
  {
    if k < m {
      DeadEnd(ss, acts, k, m - 1);
      OutstandingShrinks(ss, acts, k, m - 1);
      BehaviourAccounts(ss, acts, m - 1);
      DeadEndStep(ss[m - 1], acts[m - 1]);
    }
  }

  lemma DeadEndStep(s: State, a: Action)
    requires Accounts(s) && Retryable(s.row.status) && Outstanding(s) == {} && Enabled(s, a)
    ensures Apply(s, a).row == s.row
  {
    NoRetry(s, a);
  }

  lemma NoRetry(s: State, a: Action)
    requires Outstanding(s) == {} && Enabled(s, a)
    ensures !a.Retry?
  {
    if a.Retry? {
      ElementsSize(a.ids);
    }
  }

  // ---- a hundred percent that is not ----------------------------------------------------------

  function BigRoster(): seq<TxnId> {
    seq(201, k => k)
  }

  /** 201 transactions in chunks of 100, 100 and 1; the first two chunks are in phases
      `a` and `b`, and `skipped` holds what they have skipped. */
  function BigJob(row: Row, a: Phase, b: Phase, skipped: set<TxnId>): State {
    var ids := BigRoster();
    State(7, ids, row, [Chunk(ids[..100], a), Chunk(ids[100..200], b), Chunk(ids[200..], Waiting(1))],
          map[], {}, [], 1, 0, {}, skipped)
  }

  function BigRow(status: Status, failed: int, completed: int): Row {
    Row(status, 201, 0, failed, 3, completed)
  }

  lemma BigJobIsInit()
    ensures Init(BigJob(BigRow(Queued, 0, 0), Waiting(1), Waiting(1), {}))
  {
    var ids := BigRoster();
    PeelPiece(ids, 0, 100);
    PeelPiece(ids, 100, 100);
    PeelPiece(ids, 200, 100);
    assert ids[0..] == ids && ids[0..100] == ids[..100] && ids[201..] == [] && ids[200..201] == ids[200..];
    assert Chunks(ids, CHUNK_SIZE) == [ids[..100], ids[100..200], ids[200..]];
    assert FreshChunks(ids) == BigJob(BigRow(Queued, 0, 0), Waiting(1), Waiting(1), {}).chunks;
  }

  /** A worker meets one scoring error after another to the end of its chunk. */
  lemma {:induction false} RejectRest(ss0: seq<State>, acts0: seq<Action>, i: nat)
    returns (ss: seq<State>, acts: seq<Action>)
    requires Undisturbing(ss0, acts0) && i < |ss0[|acts0|].chunks|
    requires var c := ss0[|acts0|].chunks[i];
             c.phase.Active? && c.phase.pos <= |c.ids| && c.phase.failed == c.phase.pos && !c.phase.fetched
    ensures Undisturbing(ss, acts) && ss0 <= ss
    ensures var s, c := ss0[|acts0|], ss0[|acts0|].chunks[i];
            ss[|acts|] == s.(skipped := ss[|acts|].skipped,
                             chunks := s.chunks[i := c.(phase := c.phase.(pos := |c.ids|, failed := |c.ids|))])
    decreases |ss0[|acts0|].chunks[i].ids| - ss0[|acts0|].chunks[i].phase.pos
  {
    var s, c := ss0[|acts0|], ss0[|acts0|].chunks[i];
    if c.phase.pos == |c.ids| {
      ss, acts := ss0, acts0;
      assert s.chunks[i := c] == s.chunks;
    } else {
      var ss1, acts1 := Go(ss0, acts0, Reject(i), SkipCurrent(s, i));
      ss, acts := RejectRest(ss1, acts1, i);
    }
  }

  lemma RejectChunk(ss0: seq<State>, acts0: seq<Action>, i: nat, row: Row) returns (ss: seq<State>, acts: seq<Action>)
    requires Undisturbing(ss0, acts0) && i < |ss0[|acts0|].chunks| && ss0[|acts0|].chunks[i].phase == Waiting(1)
    requires row == MarkedProcessing(ss0[|acts0|].row)
    requires row.completedChunks + 1 < row.totalChunks
    ensures Undisturbing(ss, acts) && ss0 <= ss
    ensures var s, c := ss0[|acts0|], ss0[|acts0|].chunks[i];
            ss[|acts|] == s.(skipped := ss[|acts|].skipped, row := Incremented(row, 0, |c.ids|),
                             chunks := s.chunks[i := c.(phase := Recorded(0, |c.ids|, false))])
  {
    var s, c := ss0[|acts0|], ss0[|acts0|].chunks[i];
    var started := Afresh(WithPhase(s, i, Active(1, 0, false, 0, 0)), i).(row := row);
    ss, acts := Go(ss0, acts0, Start(i), started);
    ss, acts := RejectRest(ss, acts, i);
    ss, acts := Go(ss, acts, Record(i), RecordOutcome(ss[|acts|], i, 0, |c.ids|, false));
  }

  /** Two hundred of 201 transactions have an outcome and a chunk is still waiting: the
      job is shown at 100 percent. */
  lemma HundredPercentInFlight() returns (ss: seq<State>, acts: seq<Action>)
    ensures Behaviour(ss, acts) && Undisturbed(ss, acts)
    ensures InFlight(ss[|acts|].row.status) && ProgressPercent(ss[|acts|].row) == 100
    ensures exists i :: 0 <= i < |ss[|acts|].chunks| && ss[|acts|].chunks[i].phase.Waiting?
  {
    BigJobIsInit();
    ss, acts := [BigJob(BigRow(Queued, 0, 0), Waiting(1), Waiting(1), {})], [];
    ss, acts := RejectChunk(ss, acts, 0, BigRow(Processing, 0, 0));
    ss, acts := RejectChunk(ss, acts, 1, BigRow(Processing, 100, 1));
    assert ss[|acts|].chunks[2].phase == Waiting(1);
    assert ss[|acts|].row == BigRow(Processing, 200, 2);
  }
}
