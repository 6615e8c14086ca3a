/** The batch-scoring protocol as a state machine: one BatchJob row, the chunks of
    its current run, the prediction table and the soft-deletion flags, moved by
    any interleaving of chunk workers, the terminal-failure handler, other
    writers of the tables and admin retries.

    Every constructor of `Action` is one atomic step of the running system: a
    single SQL statement, or a queue event. What happens between two awaits of
    the worker is therefore open to every other action. */
module JobModel {
  import opened Collections
  import opened Chunking

  /** Transaction and job ids are UUIDs; only their identity matters. */
  type TxnId = nat
  type JobId = nat

  /** Deliveries BullMQ makes before a chunk is given up (JOB_OPTIONS.attempts). */
  const ATTEMPTS: nat := 3

  datatype Status = Queued | Processing | Completed | PartiallyCompleted | Failed

  predicate InFlight(status: Status) {
    status.Queued? || status.Processing?
  }

  predicate Retryable(status: Status) {
    status.Failed? || status.PartiallyCompleted?
  }

  /** The columns of a BatchJob row that the protocol moves. */
  datatype Row = Row(
    status: Status,
    totalTxns: int,
    processedCount: int,
    failedCount: int,
    totalChunks: int,
    completedChunks: int)

  function MarkedProcessing(row: Row): Row {
    if row.status.Queued? then row.(status := Processing) else row
  }

  function Incremented(row: Row, processed: int, failed: int): Row {
    row.(processedCount := row.processedCount + processed,
         failedCount := row.failedCount + failed,
         completedChunks := row.completedChunks + 1)
  }

  predicate ReachedTotal(row: Row) {
    row.completedChunks >= row.totalChunks
  }

  function Verdict(row: Row): Status {
    if row.failedCount == 0 then Completed
    else if row.processedCount == 0 then Failed
    else PartiallyCompleted
  }

  /** The guarded update: only an in-flight row takes the terminal status. */
  function Finalised(row: Row, verdict: Status): Row {
    if InFlight(row.status) then row.(status := verdict) else row
  }

  function ResetForRetry(row: Row, chunks: int): Row {
    row.(status := Queued, failedCount := 0, totalChunks := chunks, completedChunks := 0)
  }

  /** Where one chunk is, as seen by the queue and by the worker holding it. */
  datatype Phase =
    | Waiting(attempt: nat)
    | Active(attempt: nat, pos: nat, fetched: bool, processed: int, failed: int)
    | Exhausted
    | Counted(scored: int)
    | Finalising(processed: int, failed: int, salvaged: bool, seen: Row)
    | Recorded(processed: int, failed: int, salvaged: bool)

  datatype Chunk = Chunk(ids: seq<TxnId>, phase: Phase)

  /** `owner` is the prediction table: which job, if any, a stored prediction is
      attributed to. `audits` holds the row each BATCH_JOB_COMPLETED entry (and
      so each job:completed event) was written from. The last four fields are
      bookkeeping of the model: no guard reads them. `skipped` holds the ids that
      the latest pass over their chunk counted as failed and went past. */
  datatype State = State(
    job: JobId,
    roster: seq<TxnId>,
    row: Row,
    chunks: seq<Chunk>,
    owner: map<TxnId, Option<JobId>>,
    deleted: set<TxnId>,
    audits: seq<Row>,
    runs: nat,
    baseProcessed: int,
    excused: set<TxnId>,
    skipped: set<TxnId>)

  /** Transactions whose stored prediction is attributed to this job. */
  function Owned(s: State): set<TxnId> {
    AttributedTo(s.owner, s.job)
  }

  function AttributedTo(owner: map<TxnId, Option<JobId>>, job: JobId): set<TxnId> {
    set t | t in owner && owner[t] == Some(job)
  }

  /** What a retry would enqueue. */
  function Outstanding(s: State): set<TxnId> {
    Elements(s.roster) - Owned(s) - s.deleted
  }

  function FreshChunks(ids: seq<TxnId>): seq<Chunk> {
    var pieces := Chunks(ids, CHUNK_SIZE);
    seq(|pieces|, k requires 0 <= k < |pieces| => Chunk(pieces[k], Waiting(1)))
  }

  /** A job as `createJob` leaves it: the id is fresh, so no stored prediction
      carries it, and the id list is not empty. */
  ghost predicate Init(s: State) {
    && s.roster != [] && NoDuplicates(s.roster)
    && s.chunks == FreshChunks(s.roster)
    && s.row == Row(Queued, |s.roster|, 0, 0, |s.chunks|, 0)
    && Owned(s) == {}
    && s.audits == [] && s.runs == 1 && s.baseProcessed == 0 && s.excused == {} && s.skipped == {}
  }

  datatype Action =
    | Start(chunk: nat)        // a worker takes the chunk and marks the job PROCESSING
    | Fetch(chunk: nat)        // transaction.findFirst; a soft-deleted row is a 404
    | Persist(chunk: nat)      // the scorer answered; prediction upsert
    | Reject(chunk: nat)       // any non-retryable error on the current transaction
    | Abort(chunk: nat)        // a retryable ML error: the attempt is thrown away
    | Record(chunk: nat)       // recordChunkResult at the end of a pass
    | CountScored(chunk: nat)  // failure handler: prediction.count
    | Salvage(chunk: nat)      // failure handler: recordChunkResult
    | Finalise(chunk: nat)     // finalizeJob by the caller that saw the last chunk
    | Retry(ids: seq<TxnId>)   // admin retry, in one step
    | SoftDelete(txn: TxnId)
    | Rescore(txn: TxnId, writer: Option<JobId>) // another job or a synchronous rescore

  predicate WorkerAction(a: Action) {
    !a.Retry? && !a.SoftDelete? && !a.Rescore?
  }

  predicate Busy(s: State, i: nat) {
    i < |s.chunks| && s.chunks[i].phase.Active? && s.chunks[i].phase.pos < |s.chunks[i].ids|
  }

  ghost predicate Enabled(s: State, a: Action) {
    match a
    case Start(i) => i < |s.chunks| && s.chunks[i].phase.Waiting?
    case Fetch(i) => Busy(s, i) && !s.chunks[i].phase.fetched
    case Persist(i) => Busy(s, i) && s.chunks[i].phase.fetched
    case Reject(i) => Busy(s, i)
    case Abort(i) => Busy(s, i) && s.chunks[i].phase.fetched
    case Record(i) => i < |s.chunks| && s.chunks[i].phase.Active? && s.chunks[i].phase.pos == |s.chunks[i].ids|
    case CountScored(i) => i < |s.chunks| && s.chunks[i].phase.Exhausted?
    case Salvage(i) => i < |s.chunks| && s.chunks[i].phase.Counted?
    case Finalise(i) => i < |s.chunks| && s.chunks[i].phase.Finalising?
    case Retry(ids) => Retryable(s.row.status) && ids != [] && Lists(ids, Outstanding(s))
    case SoftDelete(t) => true
    case Rescore(t, writer) => writer != Some(s.job)
  }

  function WithPhase(s: State, i: nat, phase: Phase): State
    requires i < |s.chunks|
  {
    s.(chunks := s.chunks[i := s.chunks[i].(phase := phase)])
  }

  /** The transaction a worker is at is counted as failed and passed over. */
  function SkipCurrent(s: State, i: nat): State
    requires Busy(s, i)
  {
    WithPhase(s, i, Skipped(s.chunks[i].phase))
    .(skipped := s.skipped + {s.chunks[i].ids[s.chunks[i].phase.pos]})
  }

  /** A pass over chunk `i` begins, or is thrown away: it has skipped nothing. */
  function Afresh(s: State, i: nat): State
    requires i < |s.chunks|
  {
    s.(skipped := s.skipped - Elements(s.chunks[i].ids))
  }

  /** The atomic counter update, and the decision its returned row implies. */
  function RecordOutcome(s: State, i: nat, processed: int, failed: int, salvaged: bool): State
    requires i < |s.chunks|
  {
    var row := Incremented(s.row, processed, failed);
    var next := if ReachedTotal(row) then Finalising(processed, failed, salvaged, row)
                else Recorded(processed, failed, salvaged);
    WithPhase(s, i, next).(row := row)
  }

  ghost function Apply(s: State, a: Action): State
    requires Enabled(s, a)
  {
    match a
    case Start(i) =>
      Afresh(WithPhase(s, i, Active(s.chunks[i].phase.attempt, 0, false, 0, 0)), i).(row := MarkedProcessing(s.row))
    case Fetch(i) =>
      var c := s.chunks[i];
      if c.ids[c.phase.pos] in s.deleted then SkipCurrent(s, i)
      else WithPhase(s, i, c.phase.(fetched := true))
    case Persist(i) =>
      var c := s.chunks[i];
      WithPhase(s, i, c.phase.(pos := c.phase.pos + 1, fetched := false, processed := c.phase.processed + 1))
      .(owner := s.owner[c.ids[c.phase.pos] := Some(s.job)])
    case Reject(i) => SkipCurrent(s, i)
    case Abort(i) =>
      Afresh(WithPhase(s, i, HandedBack(s.chunks[i].phase.attempt)), i)
    case Record(i) =>
      RecordOutcome(s, i, s.chunks[i].phase.processed, s.chunks[i].phase.failed, false)
    case CountScored(i) =>
      WithPhase(s, i, Counted(|Owned(s) * Elements(s.chunks[i].ids)|))
    case Salvage(i) =>
      var scored := s.chunks[i].phase.scored;
      RecordOutcome(s, i, scored, |s.chunks[i].ids| - scored, true)
    case Finalise(i) =>
      var p := s.chunks[i].phase;
      var row := Finalised(s.row, Verdict(p.seen));
      WithPhase(s, i, Recorded(p.processed, p.failed, p.salvaged))
      .(row := row,
        audits := if InFlight(s.row.status) then s.audits + [p.seen.(status := Verdict(p.seen))] else s.audits)
    case Retry(ids) =>
      var chunks := FreshChunks(ids);
      s.(chunks := chunks,
         row := ResetForRetry(s.row, |chunks|),
         runs := s.runs + 1,
         baseProcessed := s.row.processedCount,
         excused := Elements(s.roster) * s.deleted - Owned(s),
         skipped := s.skipped - Elements(ids))
    case SoftDelete(t) => s.(deleted := s.deleted + {t})
    case Rescore(t, writer) => s.(owner := s.owner[t := writer])
  }

  /** A chunk whose attempt threw: back on the queue, or given up. */
  function HandedBack(attempt: nat): Phase {
    if attempt < ATTEMPTS then Waiting(attempt + 1) else Exhausted
  }

  function Skipped(p: Phase): Phase
    requires p.Active?
  {
    p.(pos := p.pos + 1, fetched := false, failed := p.failed + 1)
  }

  /** One step. */
  ghost predicate Moves(s: State, a: Action, s': State) {
    Enabled(s, a) && s' == Apply(s, a)
  }

  /** A finite run of the system, with the actions taken. */
  ghost predicate Behaviour(ss: seq<State>, acts: seq<Action>) {
    && |ss| == |acts| + 1
    && Init(ss[0])
    && forall k {:trigger acts[k]} :: 0 <= k < |acts| ==> Moves(ss[k], acts[k], ss[k + 1])
  }

  /** The hypothesis under which attribution can be trusted: nobody overwrites a
      prediction this job already owns. */
  ghost predicate Undisturbed(ss: seq<State>, acts: seq<Action>)
    requires |ss| == |acts| + 1
  {
    forall k {:trigger acts[k]} :: 0 <= k < |acts| && acts[k].Rescore? ==> acts[k].txn !in Owned(ss[k])
  }
}
