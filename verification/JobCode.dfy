/** The code of jobs.service.js and batchScoring.worker.js as methods over the
    database they share, proved against the protocol: whatever the rest of the
    system does at each await, what the code does is a behaviour of JobModel.

    `Store` holds the BatchJob row and the tables as fields. Its ghost fields say
    where every chunk is and which actions have been taken so far; `Valid` ties
    them to the real ones. `Await` stands for an `await`: other workers, the
    failure handler, deletions and other writers may act before it returns. */
module JobCode {
  import opened Collections
  import opened Chunking
  import opened JobModel
  import opened JobAccounts
  import opened JobHistory
  import opened JobProgress

  /** What the scorer answers for a transaction: a prediction, an error the chunk
      counts and skips, or one of the retryable ML_SERVICE codes. */
  datatype Answer = Scored | NotScorable | MlDown

  datatype PassResult = Returned(processed: int, failed: int) | Threw

  datatype RetryError = JobNotRetryable(status: Status) | NothingToRetry

  /** `prisma.*.findMany` over ids: the rows come back in no particular order. */
  method FindMany(wanted: set<TxnId>) returns (rows: seq<TxnId>)
    ensures Lists(rows, wanted)
  {
    rows := [];
    var left := wanted;
    while left != {}
      invariant NoDuplicates(rows) && left <= wanted
      invariant Elements(rows) == wanted - left
      decreases left
    {
      var t :| t in left;
      assert t !in Elements(rows);
      ElementsAppend(rows, t);
      rows := rows + [t];
      left := left - {t};
    }
  }

  /** Whoever is to finalise finds the job in flight and holds its row. */
  lemma FinaliseNext(ss: seq<State>, acts: seq<Action>, s: State, i: nat)
    requires Behaviour(ss, acts) && s == ss[|acts|] && Enabled(s, Finalise(i))
    ensures InFlight(s.row.status) && s.chunks[i].phase.seen == s.row
    ensures var p, last := s.chunks[i].phase, s.row.(status := Verdict(s.row));
            Apply(s, Finalise(i)) ==
            s.(row := last, audits := s.audits + [last],
               chunks := s.chunks[i := Chunk(s.chunks[i].ids, Recorded(p.processed, p.failed, p.salvaged))])
  {
    BehaviourAccounts(ss, acts, |acts|);
    assert !s.chunks[i].phase.Recorded?;
  }

  /** What the caller of `recordChunkResult` is about to do is a step of the protocol. */
  lemma RecordMoves(s: State, i: nat, ids: seq<TxnId>, attempt: nat, processed: int, failed: int)
    requires i < |s.chunks| && s.chunks[i] == Chunk(ids, Active(attempt, |ids|, false, processed, failed))
    ensures Moves(s, Record(i), RecordOutcome(s, i, processed, failed, false))
  {
  }

  lemma SalvageMoves(s: State, i: nat, ids: seq<TxnId>, scored: int)
    requires i < |s.chunks| && s.chunks[i] == Chunk(ids, Counted(scored))
    ensures Moves(s, Salvage(i), RecordOutcome(s, i, scored, |ids| - scored, true))
  {
  }

  lemma RetryKeeps(s: State, ids: seq<TxnId>)
    requires Enabled(s, Retry(ids))
    ensures var next := Apply(s, Retry(ids));
            && next.job == s.job && next.roster == s.roster && next.owner == s.owner && next.deleted == s.deleted
            && next.audits == s.audits && next.row == ResetForRetry(s.row, |Chunks(ids, CHUNK_SIZE)|)
  {
  }

  // ---- what a pass has done -----------------------------------------------------------

  /** Action `f` is chunk `i` looking transaction `t` up. */
  ghost predicate LooksUp(ss: seq<State>, acts: seq<Action>, f: nat, i: nat, t: TxnId) {
    && |ss| == |acts| + 1 && f < |acts| && acts[f] == Fetch(i) && Busy(ss[f], i)
    && ss[f].chunks[i].ids[ss[f].chunks[i].phase.pos] == t
  }

  /** The transaction was not soft-deleted when action `f` looked it up. */
  ghost predicate AliveAt(ss: seq<State>, f: nat, t: TxnId) {
    f < |ss| && t !in ss[f].deleted
  }

  ghost predicate ScoredAfter(ss: seq<State>, acts: seq<Action>, f: nat, i: nat, t: TxnId) {
    |ss| == |acts| + 1 && exists p: nat :: f < p && ScoresAt(ss, acts, p, i, t)
  }

  /** A pass over `ids` so far: `looks` are its lookups, in order, and `good` the
      positions found alive and answered with a prediction, each of which was stored. */
  ghost predicate PassLog(ss: seq<State>, acts: seq<Action>, i: nat, ids: seq<TxnId>, answers: seq<Answer>,
                          from: nat, looks: seq<nat>, good: set<nat>) {
    && |looks| <= |ids| == |answers|
    && (forall k :: 0 <= k < |looks| ==> from <= looks[k] && LooksUp(ss, acts, looks[k], i, ids[k]))
    && (forall j, k :: 0 <= j < k < |looks| ==> looks[j] < looks[k])
    && (forall k :: k in good <==> 0 <= k < |looks| && AliveAt(ss, looks[k], ids[k]) && answers[k].Scored?)
    && (forall k :: k in good ==> k < |looks| && ScoredAfter(ss, acts, looks[k], i, ids[k]))
  }

  /** The scorer was down for transaction `k` of the pass. */
  ghost predicate DownAt(ss: seq<State>, ids: seq<TxnId>, answers: seq<Answer>, looks: seq<nat>, k: nat) {
    k < |looks| <= |ids| == |answers| && AliveAt(ss, looks[k], ids[k]) && answers[k].MlDown?
  }

  ghost predicate NoneDown(ss: seq<State>, ids: seq<TxnId>, answers: seq<Answer>, looks: seq<nat>, n: nat) {
    forall k: nat :: k < n ==> !DownAt(ss, ids, answers, looks, k)
  }

  lemma LooksUpLater(ss: seq<State>, acts: seq<Action>, ss': seq<State>, acts': seq<Action>, f: nat, i: nat, t: TxnId)
    requires ss <= ss' && acts <= acts' && |ss'| == |acts'| + 1 && LooksUp(ss, acts, f, i, t)
    ensures LooksUp(ss', acts', f, i, t) && (AliveAt(ss', f, t) <==> AliveAt(ss, f, t))
    ensures ScoredAfter(ss, acts, f, i, t) ==> ScoredAfter(ss', acts', f, i, t)
  {
    if ScoredAfter(ss, acts, f, i, t) {
      var p: nat :| f < p && ScoresAt(ss, acts, p, i, t);
      assert ScoresAt(ss', acts', p, i, t);
    }
  }

  /** What a pass has done stays done. */
  lemma PassLogLater(ss: seq<State>, acts: seq<Action>, ss': seq<State>, acts': seq<Action>, i: nat, ids: seq<TxnId>,
                     answers: seq<Answer>, from: nat, looks: seq<nat>, good: set<nat>)
    requires ss <= ss' && acts <= acts' && |ss'| == |acts'| + 1
    requires PassLog(ss, acts, i, ids, answers, from, looks, good)
    ensures PassLog(ss', acts', i, ids, answers, from, looks, good)
    ensures forall k: nat :: DownAt(ss', ids, answers, looks, k) <==> DownAt(ss, ids, answers, looks, k)
  {
    forall k | 0 <= k < |looks|
      ensures LooksUp(ss', acts', looks[k], i, ids[k])
      ensures AliveAt(ss', looks[k], ids[k]) <==> AliveAt(ss, looks[k], ids[k])
      ensures k in good ==> ScoredAfter(ss', acts', looks[k], i, ids[k])
    {
      LooksUpLater(ss, acts, ss', acts', looks[k], i, ids[k]);
    }
  }

  /** One more transaction. */
  lemma PassLogNext(ss: seq<State>, acts: seq<Action>, i: nat, ids: seq<TxnId>, answers: seq<Answer>,
                    from: nat, looks: seq<nat>, good: set<nat>, f: nat)
    requires PassLog(ss, acts, i, ids, answers, from, looks, good) && |looks| < |ids|
    requires from <= f && (forall k :: 0 <= k < |looks| ==> looks[k] < f) && LooksUp(ss, acts, f, i, ids[|looks|])
    requires var t, answer := ids[|looks|], answers[|looks|];
             AliveAt(ss, f, t) && answer.Scored? ==> ScoredAfter(ss, acts, f, i, t)
    ensures var scored := AliveAt(ss, f, ids[|looks|]) && answers[|looks|].Scored?;
            PassLog(ss, acts, i, ids, answers, from, looks + [f], if scored then good + {|looks|} else good)
    ensures |looks| !in good
    ensures forall k: nat :: k < |looks| ==>
              (DownAt(ss, ids, answers, looks + [f], k) <==> DownAt(ss, ids, answers, looks, k))
  {
    var more := looks + [f];
    assert forall k :: 0 <= k < |looks| ==> more[k] == looks[k];
  }

  /** What `PassOn` records of one turn that took the traces from `ss` to `ss'`. */
  lemma LogOne(ss: seq<State>, acts: seq<Action>, ss': seq<State>, acts': seq<Action>, i: nat, ids: seq<TxnId>,
               answers: seq<Answer>, from: nat, looks: seq<nat>, good: set<nat>, f: nat, scored: bool)
    requires ss <= ss' && acts <= acts' && |ss'| == |acts'| + 1 && from <= |acts| <= f
    requires PassLog(ss, acts, i, ids, answers, from, looks, good) && |looks| < |ids|
    requires LooksUp(ss', acts', f, i, ids[|looks|]) && NoneDown(ss, ids, answers, looks, |looks|)
    requires scored <==> AliveAt(ss', f, ids[|looks|]) && answers[|looks|].Scored?
    requires scored ==> ScoredAfter(ss', acts', f, i, ids[|looks|])
    ensures var good' := if scored then good + {|looks|} else good;
            && PassLog(ss', acts', i, ids, answers, from, looks + [f], good')
            && |good'| == |good| + if scored then 1 else 0
    ensures NoneDown(ss', ids, answers, looks + [f], |looks|)
    ensures DownAt(ss', ids, answers, looks + [f], |looks|) <==>
              AliveAt(ss', f, ids[|looks|]) && answers[|looks|].MlDown?
  {
    PassLogLater(ss, acts, ss', acts', i, ids, answers, from, looks, good);
    PassLogNext(ss', acts', i, ids, answers, from, looks, good, f);
  }

  class Store {
    const job: JobId
    var status: Status
    var totalTxns: int
    var processedCount: int
    var failedCount: int
    var totalChunks: int
    var completedChunks: int
    var roster: seq<TxnId>
    var owner: map<TxnId, Option<JobId>>
    var deleted: set<TxnId>
    var audits: seq<Row>

    ghost var chunks: seq<Chunk>
    ghost var runs: nat
    ghost var baseProcessed: int
    ghost var excused: set<TxnId>
    ghost var skipped: set<TxnId>
    ghost var states: seq<State>
    ghost var acts: seq<Action>

    function CurrentRow(): Row
      reads this
    {
      Row(status, totalTxns, processedCount, failedCount, totalChunks, completedChunks)
    }

    ghost function Now(): State
      reads this
    {
      State(job, roster, CurrentRow(), chunks, owner, deleted, audits, runs, baseProcessed, excused, skipped)
    }

    ghost predicate Valid()
      reads this
    {
      Behaviour(states, acts) && states[|acts|] == Now()
    }

    /** Chunk `i` is exactly where it was at every step taken since `before`. */
    ghost predicate Untouched(i: nat, c: Chunk, before: nat)
      reads this
    {
      forall k :: before <= k < |states| ==> i < |states[k].chunks| && states[k].chunks[i] == c
    }

    constructor (job: JobId, ids: seq<TxnId>, owner: map<TxnId, Option<JobId>>, deleted: set<TxnId>)
      requires ids != [] && NoDuplicates(ids) && AttributedTo(owner, job) == {}
      ensures Valid() && Init(Now()) && acts == [] && roster == ids && this.owner == owner && this.deleted == deleted
    {
      this.job := job;
      status := Queued;
      totalTxns, processedCount, failedCount, completedChunks := |ids|, 0, 0, 0;
      var pieces := ChunkLoop(ids, CHUNK_SIZE);
      totalChunks := |pieces|;
      roster, this.owner, this.deleted, audits := ids, owner, deleted, [];
      chunks := FreshChunks(ids);
      runs, baseProcessed, excused, skipped := 1, 0, {}, {};
      acts := [];
      states := [State(job, ids, Row(Queued, |ids|, 0, 0, |pieces|, 0), FreshChunks(ids),
                       owner, deleted, [], 1, 0, {}, {})];
    }

    /** Bookkeeping: the fields have just moved by one protocol action. */
    ghost method Took(a: Action)
      requires Behaviour(states, acts)
      requires Moves(states[|acts|], a, Now())
      modifies this`states, this`acts
      ensures Valid() && acts == old(acts) + [a] && states == old(states) + [Now()]
    {
      Extend(states, acts, a);
      states, acts := states + [Now()], acts + [a];
    }

    /** Anything may happen that leaves chunk `i` where it is. */
    method Await(ghost i: nat)
      requires Valid() && i < |chunks|
      modifies this
      ensures Valid() && old(states) <= states && old(acts) <= acts
      ensures Untouched(i, old(chunks[i]), old(|acts|))
      ensures i < |chunks| && chunks[i] == old(chunks[i])
    {
    }

    // ---- jobs.service.js, worker side --------------------------------------------

    /** `markJobProcessing`: a conditional update, harmless when repeated. */
    method MarkJobProcessing(ghost i: nat)
      requires Valid() && Enabled(Now(), Start(i))
      modifies this
      ensures Valid() && Now() == Apply(old(Now()), Start(i))
      ensures status == if old(status).Queued? then Processing else old(status)
      ensures CurrentRow() == old(CurrentRow()).(status := status)
      ensures old(states) <= states && old(acts) + [Start(i)] == acts
    {
      if status.Queued? {
        status := Processing;
      }
      skipped := skipped - Elements(chunks[i].ids);
      chunks := chunks[i := chunks[i].(phase := Active(chunks[i].phase.attempt, 0, false, 0, 0))];
      Took(Start(i));
    }

    /** `UPDATE ... SET x = x + n ... RETURNING *`. */
    method AtomicIncrement(processed: int, failed: int) returns (updated: Row)
      modifies this`processedCount, this`failedCount, this`completedChunks
      ensures updated == CurrentRow() == Incremented(old(CurrentRow()), processed, failed)
    {
      processedCount := processedCount + processed;
      failedCount := failedCount + failed;
      completedChunks := completedChunks + 1;
      updated := CurrentRow();
    }

    /** The atomic increment of `recordChunkResult`, returning the updated row. */
    method IncrementCounters(processed: int, failed: int, ghost i: nat, ghost a: Action) returns (updated: Row)
      requires Valid() && i < |chunks| && Moves(Now(), a, RecordOutcome(Now(), i, processed, failed, a.Salvage?))
      modifies this
      ensures Valid() && updated == CurrentRow()
      ensures Now() == RecordOutcome(old(Now()), i, processed, failed, a.Salvage?)
      ensures updated == old(CurrentRow()).(processedCount := old(processedCount) + processed,
                                            failedCount := old(failedCount) + failed,
                                            completedChunks := old(completedChunks) + 1)
      ensures old(states) <= states && old(acts) + [a] == acts
    {
      ghost var next := RecordOutcome(Now(), i, processed, failed, a.Salvage?);
      updated := AtomicIncrement(processed, failed);
      chunks := next.chunks;
      assert Now() == next;
      Took(a);
    }

    /** `updateMany` with a status guard: how many rows it changed. */
    method UpdateIfInFlight(verdict: Status) returns (count: int)
      modifies this`status
      ensures CurrentRow() == Finalised(old(CurrentRow()), verdict)
      ensures count == if InFlight(old(status)) then 1 else 0
    {
      count := 0;
      if InFlight(status) {
        status := verdict;
        count := 1;
      }
    }

    /** The three-way choice of the terminal status. */
    method Decide(seen: Row) returns (verdict: Status)
      ensures verdict == Verdict(seen)
    {
      if seen.failedCount == 0 {
        verdict := Completed;
      } else if seen.processedCount == 0 {
        verdict := Failed;
      } else {
        verdict := PartiallyCompleted;
      }
    }

    /** `finalizeJob`: verdict from the row the caller saw, written only if the job
        is still in flight; one audit entry if it was. */
    method FinalizeJob(seen: Row, ghost i: nat) returns (result: Option<Status>)
      requires Valid() && Enabled(Now(), Finalise(i)) && chunks[i].phase.seen == seen
      modifies this
      ensures Valid() && Now() == Apply(old(Now()), Finalise(i))
      ensures old(states) <= states && old(acts) + [Finalise(i)] == acts
      ensures result == Some(status)
      ensures status == Completed <==> seen.failedCount == 0
      ensures status == Failed <==> seen.failedCount != 0 && seen.processedCount == 0
      ensures status == PartiallyCompleted <==> seen.failedCount != 0 && seen.processedCount != 0
      ensures audits == old(audits) + [seen.(status := status)]
    {
      ghost var next := Apply(Now(), Finalise(i));
      FinaliseNext(states, acts, Now(), i);
      var verdict := Decide(seen);
      var count := UpdateIfInFlight(verdict);
      chunks := next.chunks;
      if count == 0 {
        result := None;
      } else {
        audits := audits + [seen.(status := verdict)];
        result := Some(verdict);
      }
      assert Now() == next;
      Took(Finalise(i));
    }

    /** `recordChunkResult`: exactly the caller whose increment completed the run
        gets a final status. */
    method RecordChunkResult(processed: int, failed: int, ghost i: nat, ghost a: Action)
      returns (updated: Row, finalStatus: Option<Status>)
      requires Valid() && i < |chunks| && Moves(Now(), a, RecordOutcome(Now(), i, processed, failed, a.Salvage?))
      modifies this
      ensures Valid() && old(states) <= states && old(acts) + [a] <= acts
      ensures updated == Incremented(old(CurrentRow()), processed, failed)
      ensures finalStatus.Some? <==> updated.completedChunks >= updated.totalChunks
      ensures finalStatus.Some? ==>
                && (finalStatus.value == Completed <==> updated.failedCount == 0)
                && (finalStatus.value == Failed <==> updated.failedCount != 0 && updated.processedCount == 0)
                && (finalStatus.value == PartiallyCompleted <==>
                    updated.failedCount != 0 && updated.processedCount != 0)
      ensures i < |chunks| && chunks[i] == old(chunks[i]).(phase := Recorded(processed, failed, a.Salvage?))
    {
      updated := IncrementCounters(processed, failed, i, a);
      finalStatus := None;
      if updated.completedChunks >= updated.totalChunks {
        Await(i);
        finalStatus := FinalizeJob(updated, i);
      }
    }

    // ---- batchScoring.worker.js ------------------------------------------------------

    /** `transaction.findFirst({ id, deletedAt: null })`. */
    method FindTransaction(id: TxnId, ghost i: nat) returns (found: bool)
      requires Valid() && Enabled(Now(), Fetch(i)) && id == chunks[i].ids[chunks[i].phase.pos]
      modifies this
      ensures Valid() && Now() == Apply(old(Now()), Fetch(i)) && found == (id !in old(deleted))
      ensures old(states) <= states && old(acts) + [Fetch(i)] == acts
    {
      found := id !in deleted;
      skipped := if found then skipped else skipped + {id};
      chunks := chunks[i := chunks[i].(phase :=
        if found then chunks[i].phase.(fetched := true) else Skipped(chunks[i].phase))];
      Took(Fetch(i));
    }

    method UpsertPrediction(id: TxnId, ghost i: nat)
      requires Valid() && Enabled(Now(), Persist(i)) && id == chunks[i].ids[chunks[i].phase.pos]
      modifies this
      ensures Valid() && Now() == Apply(old(Now()), Persist(i))
      ensures old(states) <= states && old(acts) + [Persist(i)] == acts
    {
      owner := owner[id := Some(job)];
      ghost var p := chunks[i].phase;
      chunks := chunks[i := chunks[i].(phase := p.(pos := p.pos + 1, fetched := false, processed := p.processed + 1))];
      Took(Persist(i));
    }

    /** The error paths of `scoreAndPersist` touch no table; only the chunk moves. */
    ghost method GiveUpOn(i: nat, a: Action)
      requires Valid() && Enabled(Now(), a) && (a == Reject(i) || a == Abort(i))
      modifies this`chunks, this`skipped, this`states, this`acts
      ensures Valid() && Now() == Apply(old(Now()), a)
      ensures old(states) <= states && old(acts) + [a] == acts
    {
      var next := Apply(Now(), a);
      chunks, skipped := next.chunks, next.skipped;
      Took(a);
    }

    /** What has become of the transaction at the position `p` of chunk `i`. */
    ghost predicate Settles(outcome: Option<bool>, id: TxnId, i: nat, ids: seq<TxnId>, p: Phase)
      requires p.Active?
      reads this
    {
      && i < |chunks|
      && match outcome
         case Some(true) =>
           && chunks[i] == Chunk(ids, p.(pos := p.pos + 1, fetched := false, processed := p.processed + 1))
           && id in owner && owner[id] == Some(job)
         case Some(false) => chunks[i] == Chunk(ids, p.(pos := p.pos + 1, fetched := false, failed := p.failed + 1))
         case None => chunks[i] == Chunk(ids, if p.attempt < 3 then Waiting(p.attempt + 1) else Exhausted)
    }

    /** The transaction is alive and goes to the scorer. */
    method ScoreFound(id: TxnId, answer: Answer, ghost i: nat, ghost ids: seq<TxnId>, ghost p: Phase)
      returns (outcome: Option<bool>)
      requires Valid() && i < |chunks| && chunks[i] == Chunk(ids, p)
      requires p.Active? && p.pos < |ids| && p.fetched && ids[p.pos] == id
      modifies this
      ensures Valid() && old(states) <= states && old(acts) <= acts && Settles(outcome, id, i, ids, p)
      ensures outcome == Some(true) <==> answer.Scored?
      ensures outcome == Some(false) <==> answer.NotScorable?
      ensures outcome == None <==> answer.MlDown?
      ensures outcome == Some(true) ==> forall f: nat :: f < old(|acts|) ==> ScoredAfter(states, acts, f, i, id)
    {
      Await(i);
      ghost var now := |acts|;
      match answer
      case MlDown =>
        GiveUpOn(i, Abort(i));
        outcome := None;
      case NotScorable =>
        GiveUpOn(i, Reject(i));
        outcome := Some(false);
      case Scored =>
        UpsertPrediction(id, i);
        outcome := Some(true);
        assert ScoresAt(states, acts, now, i, id);
    }

    /** `scoreAndPersist` for the transaction at `pos`, looked up by action `f`. A row
        that is gone, or that the scorer cannot score, is counted as failed; None: the
        scorer was down. */
    method ScoreAndPersist(id: TxnId, answer: Answer, ghost i: nat, ghost ids: seq<TxnId>, ghost p: Phase)
      returns (outcome: Option<bool>, ghost f: nat)
      requires Valid() && i < |chunks| && chunks[i] == Chunk(ids, p)
      requires p.Active? && p.pos < |ids| && !p.fetched && ids[p.pos] == id
      modifies this
      ensures Valid() && old(states) <= states && old(acts) <= acts && Settles(outcome, id, i, ids, p)
      ensures old(|acts|) <= f && LooksUp(states, acts, f, i, id)
      ensures outcome == Some(true) <==> AliveAt(states, f, id) && answer.Scored?
      ensures outcome == Some(false) <==> !AliveAt(states, f, id) || answer.NotScorable?
      ensures outcome == None <==> AliveAt(states, f, id) && answer.MlDown?
      ensures outcome == Some(true) ==> ScoredAfter(states, acts, f, i, id)
    {
      Await(i);
      f := |acts|;
      var found := FindTransaction(id, i);
      assert LooksUp(states, acts, f, i, id) && AliveAt(states, f, id) == found;
      if !found {
        return Some(false), f;
      }
      ghost var ss, did := states, acts;
      outcome := ScoreFound(id, answer, i, ids, p.(fetched := true));
      LooksUpLater(ss, did, states, acts, f, i, id);
    }

    /** `processChunk`: one attempt at a chunk, under arbitrary interference. It counts
        exactly the transactions alive at their lookup that the scorer scored, each with
        its prediction stored, and the rest as failed; it throws, and hands the chunk
        back to the queue, at the first one for which the scorer is down. */
    method ProcessChunk(ids: seq<TxnId>, answers: seq<Answer>, ghost i: nat, ghost attempt: nat)
      returns (result: PassResult, ghost looks: seq<nat>, ghost good: set<nat>)
      requires Valid() && i < |chunks| && chunks[i] == Chunk(ids, Waiting(attempt))
      requires |answers| == |ids|
      modifies this
      ensures Valid() && old(states) <= states && old(acts) <= acts && i < |chunks|
      ensures PassLog(states, acts, i, ids, answers, old(|acts|), looks, good)
      ensures result.Threw? <==> !NoneDown(states, ids, answers, looks, |looks|)
      ensures match result
              case Returned(processed, failed) =>
                && |looks| == |ids| && processed == |good| && failed == |ids| - |good|
                && chunks[i] == Chunk(ids, Recorded(processed, failed, false))
              case Threw =>
                && |looks| > 0 && DownAt(states, ids, answers, looks, |looks| - 1)
                && NoneDown(states, ids, answers, looks, |looks| - 1)
                && chunks[i] == Chunk(ids, if attempt < 3 then Waiting(attempt + 1) else Exhausted)
    {
      StartPass(ids, answers, i, attempt);
      var completed, processed, failed;
      completed, processed, failed, looks, good := Pass(ids, answers, i, attempt, old(|acts|));
      if !completed {
        return Threw, looks, good;
      }
      RecordPass(ids, answers, processed, failed, i, attempt, old(|acts|), looks, good);
      result := Returned(processed, failed);
    }

    /** The loop of `processChunk` after `k` transactions. */
    ghost predicate Passing(ids: seq<TxnId>, answers: seq<Answer>, i: nat, attempt: nat, from: nat,
                            k: nat, processed: int, failed: int, looks: seq<nat>, good: set<nat>)
      reads this
    {
      && Valid() && i < |chunks| && chunks[i] == Chunk(ids, Active(attempt, k, false, processed, failed))
      && from <= |acts| && PassLog(states, acts, i, ids, answers, from, looks, good)
      && k <= |ids| && |looks| == k && processed == |good| && failed == k - |good|
      && NoneDown(states, ids, answers, looks, k)
    }

    /** The start of an attempt: nothing has been looked up. */
    method StartPass(ids: seq<TxnId>, ghost answers: seq<Answer>, ghost i: nat, ghost attempt: nat)
      requires Valid() && i < |chunks| && chunks[i] == Chunk(ids, Waiting(attempt)) && |answers| == |ids|
      modifies this
      ensures old(states) <= states && old(acts) <= acts
      ensures Passing(ids, answers, i, attempt, old(|acts|), 0, 0, 0, [], {})
    {
      MarkJobProcessing(i);
    }

    /** The loop threw: the scorer was down for the last transaction looked up. */
    ghost predicate Thrown(ids: seq<TxnId>, answers: seq<Answer>, i: nat, attempt: nat, from: nat,
                           looks: seq<nat>, good: set<nat>)
      reads this
    {
      && Valid() && i < |chunks| && chunks[i] == Chunk(ids, if attempt < 3 then Waiting(attempt + 1) else Exhausted)
      && PassLog(states, acts, i, ids, answers, from, looks, good)
      && |looks| > 0 && DownAt(states, ids, answers, looks, |looks| - 1)
      && NoneDown(states, ids, answers, looks, |looks| - 1)
    }

    /** The loop of `processChunk`; not completed if it threw. */
    method Pass(ids: seq<TxnId>, answers: seq<Answer>, ghost i: nat, ghost attempt: nat, ghost from: nat)
      returns (completed: bool, processed: int, failed: int, ghost looks: seq<nat>, ghost good: set<nat>)
      requires Passing(ids, answers, i, attempt, from, 0, 0, 0, [], {}) && |answers| == |ids|
      modifies this
      ensures old(states) <= states && old(acts) <= acts
      ensures completed ==> Passing(ids, answers, i, attempt, from, |ids|, processed, failed, looks, good)
      ensures !completed ==> Thrown(ids, answers, i, attempt, from, looks, good)
    {
      looks, good, processed, failed := [], {}, 0, 0;
      var k: nat := 0;
      while k < |ids|
        invariant old(states) <= states && old(acts) <= acts && k <= |ids|
        invariant Passing(ids, answers, i, attempt, from, k, processed, failed, looks, good)
      {
        var outcome;
        outcome, looks, good := PassOn(ids, answers, k, processed, failed, i, attempt, from, looks, good);
        match outcome {
          case None =>
            return false, processed, failed, looks, good;
          case Some(scored) =>
            if scored {
              processed := processed + 1;
            } else {
              failed := failed + 1;
            }
        }
        k := k + 1;
      }
      completed := true;
    }

    /** One turn of the loop, with the record of the pass kept up. */
    method PassOn(ids: seq<TxnId>, answers: seq<Answer>, k: nat, ghost processed: int, ghost failed: int, ghost i: nat,
                  ghost attempt: nat, ghost from: nat, ghost looks: seq<nat>, ghost good: set<nat>)
      returns (outcome: Option<bool>, ghost looks': seq<nat>, ghost good': set<nat>)
      requires k < |ids| == |answers| && Passing(ids, answers, i, attempt, from, k, processed, failed, looks, good)
      modifies this
      ensures old(states) <= states && old(acts) <= acts
      ensures outcome.None? ==> Thrown(ids, answers, i, attempt, from, looks', good')
      ensures outcome.Some? && outcome.value ==>
                Passing(ids, answers, i, attempt, from, k + 1, processed + 1, failed, looks', good')
      ensures outcome.Some? && !outcome.value ==>
                Passing(ids, answers, i, attempt, from, k + 1, processed, failed + 1, looks', good')
    {
      ghost var ss, did := states, acts;
      ghost var f;
      outcome, f := ScoreAndPersist(ids[k], answers[k], i, ids, Active(attempt, k, false, processed, failed));
      LogOne(ss, did, states, acts, i, ids, answers, from, looks, good, f, outcome == Some(true));
      looks' := looks + [f];
      good' := if outcome == Some(true) then good + {k} else good;
      PassedOn(outcome, ids, answers, k, processed, failed, i, attempt, from, looks', good');
    }

    lemma PassedOn(outcome: Option<bool>, ids: seq<TxnId>, answers: seq<Answer>, k: nat, processed: int, failed: int,
                   i: nat, attempt: nat, from: nat, looks: seq<nat>, good: set<nat>)
      requires Valid() && k < |ids| == |answers| && from <= |acts| && |looks| == k + 1 && failed == k - processed
      requires Settles(outcome, ids[k], i, ids, Active(attempt, k, false, processed, failed))
      requires PassLog(states, acts, i, ids, answers, from, looks, good)
      requires |good| == processed + if outcome == Some(true) then 1 else 0
      requires NoneDown(states, ids, answers, looks, k) && (DownAt(states, ids, answers, looks, k) <==> outcome.None?)
      ensures outcome.None? ==> Thrown(ids, answers, i, attempt, from, looks, good)
      ensures outcome.Some? && outcome.value ==>
                Passing(ids, answers, i, attempt, from, k + 1, processed + 1, failed, looks, good)
      ensures outcome.Some? && !outcome.value ==>
                Passing(ids, answers, i, attempt, from, k + 1, processed, failed + 1, looks, good)
    {
    }

    /** Recording a pass leaves what it did as it was. */
    method RecordPass(ids: seq<TxnId>, ghost answers: seq<Answer>, processed: int, failed: int, ghost i: nat,
                      ghost attempt: nat, ghost from: nat, ghost looks: seq<nat>, ghost good: set<nat>)
      requires Passing(ids, answers, i, attempt, from, |ids|, processed, failed, looks, good)
      modifies this
      ensures Valid() && old(states) <= states && old(acts) <= acts && i < |chunks|
      ensures PassLog(states, acts, i, ids, answers, from, looks, good)
      ensures NoneDown(states, ids, answers, looks, |looks|)
      ensures |looks| == |ids| && processed == |good| && failed == |ids| - |good|
      ensures chunks[i] == Chunk(ids, Recorded(processed, failed, false))
    {
      ghost var ss, did := states, acts;
      EndPass(ids, processed, failed, i, attempt);
      PassLogLater(ss, did, states, acts, i, ids, answers, from, looks, good);
    }

    /** The end of a pass: every transaction has an outcome; record the chunk. */
    method EndPass(ids: seq<TxnId>, processed: int, failed: int, ghost i: nat, ghost attempt: nat)
      requires Valid() && i < |chunks| && chunks[i] == Chunk(ids, Active(attempt, |ids|, false, processed, failed))
      modifies this
      ensures Valid() && old(states) <= states && old(acts) <= acts && i < |chunks|
      ensures chunks[i] == Chunk(ids, Recorded(processed, failed, false))
    {
      Await(i);
      RecordMoves(Now(), i, ids, attempt, processed, failed);
      var updated, finalStatus := RecordChunkResult(processed, failed, i, Record(i));
    }

    /** `countScored`: how many of the chunk's rows carry a prediction of this job. */
    method CountScored(ids: seq<TxnId>, ghost i: nat) returns (scored: int)
      requires Valid() && i < |chunks| && chunks[i] == Chunk(ids, Exhausted)
      modifies this
      ensures Valid() && old(states) <= states && acts == old(acts) + [Action.CountScored(i)]
      ensures Now() == Apply(old(Now()), Action.CountScored(i)) && scored == |Owned(old(Now())) * Elements(ids)|
      ensures i < |chunks| && chunks[i] == Chunk(ids, Counted(scored))
    {
      scored := |AttributedTo(owner, job) * Elements(ids)|;
      chunks := chunks[i := chunks[i].(phase := Counted(scored))];
      Took(Action.CountScored(i));
    }

    /** The `failed` handler: silent while attempts remain, otherwise it records what
        had landed when it counted and writes off the rest. */
    method OnFailed(ids: seq<TxnId>, attemptsMade: nat, ghost i: nat) returns (ghost at: nat)
      requires Valid() && i < |chunks| && chunks[i].ids == ids
      requires chunks[i].phase == if attemptsMade < 3 then Waiting(attemptsMade + 1) else Exhausted
      modifies this
      ensures Valid() && old(states) <= states && old(acts) <= acts && i < |chunks|
      ensures attemptsMade < 3 ==> Now() == old(Now()) && acts == old(acts)
      ensures attemptsMade >= 3 ==>
                && old(|acts|) <= at < |acts| < |states| && acts[at] == Action.CountScored(i)
                && var scored := |Owned(states[at]) * Elements(ids)|;
                   chunks[i] == Chunk(ids, Recorded(scored, |ids| - scored, true))
    {
      at := 0;
      if attemptsMade < ATTEMPTS {
        return;
      }
      at := RecordExhausted(ids, i);
    }

    /** What the handler counted is recorded; the rest of the chunk has failed. */
    method WriteOff(ids: seq<TxnId>, scored: int, ghost i: nat)
      requires Valid() && i < |chunks| && chunks[i] == Chunk(ids, Counted(scored))
      modifies this
      ensures Valid() && old(states) <= states && old(acts) <= acts && i < |chunks|
      ensures chunks[i] == Chunk(ids, Recorded(scored, |ids| - scored, true))
    {
      Await(i);
      SalvageMoves(Now(), i, ids, scored);
      var updated, finalStatus := RecordChunkResult(scored, |ids| - scored, i, Salvage(i));
    }

    /** The count and the record are separate awaits: what is recorded is what had
        landed when the count ran, at action `at`. */
    method RecordExhausted(ids: seq<TxnId>, ghost i: nat) returns (ghost at: nat)
      requires Valid() && i < |chunks| && chunks[i] == Chunk(ids, Exhausted)
      modifies this
      ensures Valid() && old(states) <= states && old(acts) <= acts && i < |chunks|
      ensures old(|acts|) <= at < |acts| < |states| && acts[at] == Action.CountScored(i)
      ensures var scored := |Owned(states[at]) * Elements(ids)|;
              chunks[i] == Chunk(ids, Recorded(scored, |ids| - scored, true))
    {
      Await(i);
      at := |acts|;
      var scored := CountScored(ids, i);
      WriteOff(ids, scored, i);
    }

    // ---- jobs.service.js, API side ---------------------------------------------------

    /** `retryJob`, taken as one step. It is refused by status, or because nothing
        is outstanding, and otherwise enqueues the outstanding set in chunks. */
    method RetryJob() returns (r: Result<seq<seq<TxnId>>, RetryError>)
      requires Valid()
      modifies this
      ensures Valid() && old(states) <= states && old(acts) <= acts
      ensures r == Err(JobNotRetryable(old(status))) <==> !Retryable(old(status))
      ensures r == Err(NothingToRetry) <==> Retryable(old(status)) && Outstanding(old(Now())) == {}
      ensures r.Err? ==> Now() == old(Now()) && acts == old(acts)
      ensures r.Ok? ==>
                && Elements(Flatten(r.value)) == Outstanding(old(Now())) && NoDuplicates(Flatten(r.value))
                && (forall p :: p in r.value ==> 0 < |p| <= CHUNK_SIZE)
                && Now() == Apply(old(Now()), Retry(Flatten(r.value)))
                && CurrentRow() == Row(Queued, old(totalTxns), old(processedCount), 0, |r.value|, 0)
    {
      if !Retryable(status) {
        return Err(JobNotRetryable(status));
      }
      var done := AttributedTo(owner, job) * Elements(roster);
      var ids := FindMany((set t | t in roster && t !in done) - deleted);
      assert (set t | t in roster && t !in done) - deleted == Outstanding(Now());
      if ids == [] {
        assert Outstanding(Now()) == {};
        return Err(NothingToRetry);
      }
      assert ids[0] in Outstanding(Now());
      var pieces := ChunkLoop(ids, CHUNK_SIZE);
      ChunksPartition(ids, CHUNK_SIZE);
      ResetAndEnqueue(ids, pieces);
      r := Ok(pieces);
    }

    method ResetRow(chunkCount: int)
      modifies this`status, this`failedCount, this`totalChunks, this`completedChunks
      ensures CurrentRow() == ResetForRetry(old(CurrentRow()), chunkCount)
    {
      status, failedCount, totalChunks, completedChunks := Queued, 0, chunkCount, 0;
    }

    /** Bookkeeping of a retry: the row has just been reset in state `before`. */
    ghost method Requeue(ids: seq<TxnId>, before: State)
      requires Behaviour(states, acts) && states[|acts|] == before && Enabled(before, Retry(ids))
      requires Now() == before.(row := ResetForRetry(before.row, |Chunks(ids, CHUNK_SIZE)|))
      modifies this`chunks, this`runs, this`baseProcessed, this`excused, this`skipped, this`states, this`acts
      ensures Valid() && Now() == Apply(before, Retry(ids))
      ensures old(states) <= states && old(acts) + [Retry(ids)] == acts
    {
      RetryKeeps(before, ids);
      var next := Apply(before, Retry(ids));
      chunks, runs, baseProcessed, excused, skipped :=
        next.chunks, next.runs, next.baseProcessed, next.excused, next.skipped;
      assert Now() == next;
      Took(Retry(ids));
    }

    /** The row update of a retry and the chunks it puts on the queue. */
    method ResetAndEnqueue(ids: seq<TxnId>, pieces: seq<seq<TxnId>>)
      requires Valid() && Enabled(Now(), Retry(ids)) && pieces == Chunks(ids, CHUNK_SIZE)
      modifies this
      ensures Valid() && Now() == Apply(old(Now()), Retry(ids))
      ensures old(states) <= states && old(acts) + [Retry(ids)] == acts
    {
      ghost var before := Now();
      ResetRow(|pieces|);
      Requeue(ids, before);
    }
  }

  // ---- createJob ----------------------------------------------------------------------

  function Smaller(a: nat, b: nat): nat {
    if a <= b then a else b
  }

  lemma PrefixOf(xs: seq<TxnId>, ys: seq<TxnId>)
    requires xs <= ys && NoDuplicates(ys)
    ensures NoDuplicates(xs) && Elements(xs) <= Elements(ys)
  {
    forall x | x in xs ensures x in ys {
      var i :| 0 <= i < |xs| && xs[i] == x;
      assert ys[i] == x;
    }
  }

  datatype Selection = Explicit(transactionIds: seq<TxnId>) | Unscored(limit: nat)

  /** The live rows without a prediction, oldest first. */
  function Unpredicted(catalogue: seq<TxnId>, deleted: set<TxnId>, predicted: set<TxnId>): seq<TxnId> {
    if catalogue == [] then []
    else
      var last := catalogue[|catalogue| - 1];
      Unpredicted(catalogue[..|catalogue| - 1], deleted, predicted) +
      if last in deleted || last in predicted then [] else [last]
  }

  lemma {:induction false} UnpredictedAre(catalogue: seq<TxnId>, deleted: set<TxnId>, predicted: set<TxnId>)
    requires NoDuplicates(catalogue)
    ensures NoDuplicates(Unpredicted(catalogue, deleted, predicted))
    ensures Elements(Unpredicted(catalogue, deleted, predicted)) == Elements(catalogue) - deleted - predicted
  {
    if catalogue != [] {
      var front, last := catalogue[..|catalogue| - 1], catalogue[|catalogue| - 1];
      UnpredictedAre(front, deleted, predicted);
      assert catalogue == front + [last];
      ElementsAppend(front, last);
      ElementsAppend(Unpredicted(front, deleted, predicted), last);
      assert last !in Elements(front);
    }
  }

  lemma {:induction false} UnpredictedInOrder(catalogue: seq<TxnId>, deleted: set<TxnId>, predicted: set<TxnId>)
    ensures Subsequence(Unpredicted(catalogue, deleted, predicted), catalogue)
  {
    if catalogue != [] {
      var front, last := catalogue[..|catalogue| - 1], catalogue[|catalogue| - 1];
      var before := Unpredicted(front, deleted, predicted);
      UnpredictedInOrder(front, deleted, predicted);
      SubsequenceOn(before, front, last);
      assert catalogue == front + [last] && before + [] == before;
    }
  }

  lemma {:induction false} UnpredictedGrow(catalogue: seq<TxnId>, k: nat, deleted: set<TxnId>, predicted: set<TxnId>)
    requires k <= |catalogue|
    ensures Unpredicted(catalogue[..k], deleted, predicted) <= Unpredicted(catalogue, deleted, predicted)
  {
    if k == |catalogue| {
      assert catalogue[..k] == catalogue;
    } else {
      var front := catalogue[..|catalogue| - 1];
      UnpredictedGrow(front, k, deleted, predicted);
      assert front[..k] == catalogue[..k];
    }
  }

  /** `resolveTransactionIds`: explicit ids are deduplicated and intersected with
      what exists; the `unscored` filter takes the oldest rows without a
      prediction. `catalogue` is the transaction table in creation order. */
  method ResolveTransactionIds(sel: Selection, catalogue: seq<TxnId>, deleted: set<TxnId>, predicted: set<TxnId>)
    returns (ids: seq<TxnId>, skipped: int)
    requires NoDuplicates(catalogue)
    ensures NoDuplicates(ids) && Elements(ids) <= Elements(catalogue) - deleted
    ensures sel.Explicit? ==>
              && Elements(ids) == Elements(sel.transactionIds) * Elements(catalogue) - deleted
              && skipped == |Elements(sel.transactionIds)| - |ids| >= 0
    ensures sel.Unscored? ==>
              && skipped == 0 && ids <= Unpredicted(catalogue, deleted, predicted)
              && |ids| == Smaller(sel.limit, |Unpredicted(catalogue, deleted, predicted)|)
  {
    match sel
    case Unscored(limit) =>
      ids := [];
      var k := 0;
      while k < |catalogue| && |ids| < limit
        invariant 0 <= k <= |catalogue| && |ids| <= limit
        invariant ids == Unpredicted(catalogue[..k], deleted, predicted)
      {
        assert catalogue[..k + 1][..k] == catalogue[..k];
        if catalogue[k] !in deleted && catalogue[k] !in predicted {
          ids := ids + [catalogue[k]];
        }
        k := k + 1;
      }
      UnpredictedGrow(catalogue, k, deleted, predicted);
      UnpredictedAre(catalogue, deleted, predicted);
      PrefixOf(ids, Unpredicted(catalogue, deleted, predicted));
      assert k == |catalogue| ==> catalogue[..k] == catalogue;
      skipped := 0;
    case Explicit(transactionIds) =>
      var requested := Elements(transactionIds);
      ids := FindMany(requested * Elements(catalogue) - deleted);
      ElementsSize(ids);
      SubsetSize(Elements(ids), requested);
      skipped := |requested| - |ids|;
  }

  /** What a selection asks for and can get, as a set. */
  predicate Selects(sel: Selection, catalogue: seq<TxnId>, deleted: set<TxnId>, predicted: set<TxnId>) {
    match sel
    case Explicit(ids) => Elements(ids) * Elements(catalogue) - deleted != {}
    case Unscored(limit) => limit > 0 && Elements(catalogue) - deleted - predicted != {}
  }

  lemma SomethingSelected(sel: Selection, catalogue: seq<TxnId>, deleted: set<TxnId>, predicted: set<TxnId>,
                          ids: seq<TxnId>)
    requires NoDuplicates(catalogue)
    requires sel.Explicit? ==> Elements(ids) == Elements(sel.transactionIds) * Elements(catalogue) - deleted
    requires sel.Unscored? ==> |ids| == Smaller(sel.limit, |Unpredicted(catalogue, deleted, predicted)|)
    ensures ids != [] <==> Selects(sel, catalogue, deleted, predicted)
  {
    assert ids != [] ==> ids[0] in Elements(ids);
    if sel.Unscored? {
      UnpredictedAre(catalogue, deleted, predicted);
      var all := Unpredicted(catalogue, deleted, predicted);
      assert all != [] ==> all[0] in Elements(all);
    }
  }

  /** `createJob`: refused exactly when nothing is selected; otherwise the job
      starts as a fresh behaviour over the selected ids. */
  method CreateJob(sel: Selection, catalogue: seq<TxnId>, owner: map<TxnId, Option<JobId>>,
                   deleted: set<TxnId>, newId: JobId)
    returns (job: Store?, skipped: int)
    requires NoDuplicates(catalogue) && AttributedTo(owner, newId) == {}
    ensures job != null <==> Selects(sel, catalogue, deleted, owner.Keys)
    ensures job != null ==>
              && fresh(job) && job.Valid() && Init(job.Now()) && job.owner == owner && job.deleted == deleted
              && match sel
                 case Explicit(ids) =>
                   && Elements(job.roster) == Elements(ids) * Elements(catalogue) - deleted
                   && skipped == |Elements(ids)| - |job.roster|
                 case Unscored(limit) =>
                   job.roster <= Unpredicted(catalogue, deleted, owner.Keys)
                   && |job.roster| == Smaller(limit, |Unpredicted(catalogue, deleted, owner.Keys)|)
  {
    var ids: seq<TxnId>;
    ids, skipped := ResolveTransactionIds(sel, catalogue, deleted, owner.Keys);
    SomethingSelected(sel, catalogue, deleted, owner.Keys, ids);
    if ids == [] {
      return null, skipped;
    }
    job := new Store(newId, ids, owner, deleted);
  }
}
