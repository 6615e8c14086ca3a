/** Who scored a transaction first: within a run only the chunk that holds it can,
    and it writes the prediction again only in a later attempt. */
module JobHistory {
  import opened Collections
  import opened JobModel
  import opened JobAccounts
  import opened JobAttribution
  import opened JobTheorems

  /** Action `k` is chunk `i` scoring transaction `t`. */
  ghost predicate ScoresAt(ss: seq<State>, acts: seq<Action>, k: nat, i: nat, t: TxnId)
    requires |ss| == |acts| + 1
  {
    && k < |acts| && acts[k] == Persist(i) && Busy(ss[k], i)
    && ss[k].chunks[i].ids[ss[k].chunks[i].phase.pos] == t
  }

  /** Actions `k` to `m` belong to one run. */
  ghost predicate OneRun(acts: seq<Action>, k: nat, m: nat) {
    k <= m <= |acts| && forall j :: k <= j < m ==> !acts[j].Retry?
  }

  /** The chunk has gone past position `pos` of attempt `attempt`. */
  predicate Past(c: Chunk, attempt: nat, pos: nat) {
    match c.phase
    case Waiting(a) => attempt < a
    case Active(a, p, _, _, _) => attempt < a || (attempt == a && pos < p)
    case _ => true
  }

  lemma PastStays(s: State, a: Action, s': State, i: nat, attempt: nat, pos: nat)
    requires Moves(s, a, s') && !a.Retry? && i < |s.chunks| && Past(s.chunks[i], attempt, pos)
    ensures i < |s'.chunks| && s'.chunks[i].ids == s.chunks[i].ids && Past(s'.chunks[i], attempt, pos)
  {
    StepKeepsIds(s, a, s');
    if WorkerAction(a) && a.chunk == i {
      OwnMovePast(s, a, s', attempt, pos);
    } else if WorkerAction(a) {
      OtherChunk(s, a, s', i);
    }
  }

  lemma OtherChunk(s: State, a: Action, s': State, i: nat)
    requires Moves(s, a, s') && WorkerAction(a) && i < |s.chunks| && i != a.chunk
    ensures i < |s'.chunks| && s'.chunks[i] == s.chunks[i]
  {
  }

  lemma OwnMovePast(s: State, a: Action, s': State, attempt: nat, pos: nat)
    requires Moves(s, a, s') && WorkerAction(a) && a.chunk < |s.chunks| && Past(s.chunks[a.chunk], attempt, pos)
    ensures a.chunk < |s'.chunks| && Past(s'.chunks[a.chunk], attempt, pos)
  {
  }

  /** A transaction becomes owned only by being scored. */
  lemma OnlyScoringGains(s: State, a: Action, s': State, t: TxnId)
    requires Moves(s, a, s') && t !in Owned(s) && t in Owned(s')
    ensures a.Persist? && Busy(s, a.chunk) && s.chunks[a.chunk].ids[s.chunks[a.chunk].phase.pos] == t
  {
    if Turns(a) {
      TurnShape(s, a);
    } else if a.Persist? {
      PersistShape(s, a.chunk);
    }
  }

  /** Only a chunk's own scoring makes one of its transactions owned. */
  lemma NewlyOwned(s: State, a: Action, s': State, i: nat, t: TxnId)
    requires Shape(s) && Moves(s, a, s')
    requires i < |s.chunks| && t in s.chunks[i].ids && t !in Owned(s) && t in Owned(s')
    ensures a == Persist(i) && Busy(s, i) && s.chunks[i].ids[s.chunks[i].phase.pos] == t
    ensures i < |s'.chunks| && Past(s'.chunks[i], s.chunks[i].phase.attempt, s.chunks[i].phase.pos)
  {
    OnlyScoringGains(s, a, s', t);
    PersistShape(s, a.chunk);
    assert t in Elements(s.chunks[a.chunk].ids) && t in Elements(s.chunks[i].ids);
  }

  /** What a retry enqueues has no prediction of this job. */
  lemma RetrySelectsUnowned(s: State, a: Action, s': State)
    requires Moves(s, a, s') && a.Retry?
    ensures forall i, t :: 0 <= i < |s'.chunks| && t in s'.chunks[i].ids ==> t !in Owned(s')
  {
    FreshChunksPartition(a.ids);
    forall i, t | 0 <= i < |s'.chunks| && t in s'.chunks[i].ids ensures t !in Owned(s') {
      assert t in Elements(s'.chunks[i].ids);
    }
  }

  lemma RetriedIsUnowned(s: State, a: Action, s': State, i: nat, t: TxnId)
    requires Moves(s, a, s') && i < |s'.chunks| && t in s'.chunks[i].ids && t in Owned(s')
    ensures !a.Retry?
  {
    if a.Retry? {
      RetrySelectsUnowned(s, a, s');
    }
  }

  /** Chunk `i` scored `t` at `k`, in the run of state `m`, and is past it there. */
  ghost predicate ScoredFrom(ss: seq<State>, acts: seq<Action>, k: nat, m: nat, i: nat, t: TxnId)
    requires |ss| == |acts| + 1
  {
    && k < m < |ss| && ScoresAt(ss, acts, k, i, t) && OneRun(acts, k, m)
    && i < |ss[m].chunks| && ss[k].chunks[i].ids == ss[m].chunks[i].ids
    && Past(ss[m].chunks[i], ss[k].chunks[i].phase.attempt, ss[k].chunks[i].phase.pos)
  }

  lemma ScoredOn(ss: seq<State>, acts: seq<Action>, k: nat, m: nat, i: nat, t: TxnId)
    requires |ss| == |acts| + 1 && m < |acts| && Moves(ss[m], acts[m], ss[m + 1]) && !acts[m].Retry?
    requires ScoredFrom(ss, acts, k, m, i, t)
    ensures ScoredFrom(ss, acts, k, m + 1, i, t)
  {
    PastStays(ss[m], acts[m], ss[m + 1], i, ss[k].chunks[i].phase.attempt, ss[k].chunks[i].phase.pos);
  }

  lemma ScoredNow(ss: seq<State>, acts: seq<Action>, m: nat, i: nat, t: TxnId)
    requires |ss| == |acts| + 1 && m < |acts| && Moves(ss[m], acts[m], ss[m + 1]) && Shape(ss[m])
    requires i < |ss[m].chunks| && t in ss[m].chunks[i].ids && t !in Owned(ss[m]) && t in Owned(ss[m + 1])
    ensures ScoredFrom(ss, acts, m, m + 1, i, t)
  {
    NewlyOwned(ss[m], acts[m], ss[m + 1], i, t);
    StepKeepsIds(ss[m], acts[m], ss[m + 1]);
  }

  lemma WithinRun(s: State, a: Action, s': State, i: nat, t: TxnId)
    requires Moves(s, a, s') && i < |s'.chunks| && t in s'.chunks[i].ids && t in Owned(s')
    ensures !a.Retry? && i < |s.chunks| && s.chunks[i].ids == s'.chunks[i].ids
  {
    RetriedIsUnowned(s, a, s', i, t);
    StepKeepsIds(s, a, s');
  }

  lemma FirstOwnsNothing(ss: seq<State>, acts: seq<Action>)
    requires Behaviour(ss, acts)
    ensures Owned(ss[0]) == {}
  {
  }

  /** A transaction on a chunk that has a prediction got it from that chunk, in this
      run, and the chunk is past it. */
  lemma {:induction false} ScoredByItsChunk(ss: seq<State>, acts: seq<Action>, m: nat, i: nat, t: TxnId)
    returns (k: nat)
    requires Behaviour(ss, acts) && Undisturbed(ss, acts) && m < |ss|
    requires i < |ss[m].chunks| && t in ss[m].chunks[i].ids && t in Owned(ss[m])
    ensures ScoredFrom(ss, acts, k, m, i, t)
  {
    FirstOwnsNothing(ss, acts);
    k := m - 1;
    StepAt(ss, acts, k);
    WithinRun(ss[k], acts[k], ss[m], i, t);
    if t in Owned(ss[k]) {
      k := ScoredByItsChunk(ss, acts, m - 1, i, t);
      ScoredOn(ss, acts, k, m - 1, i, t);
    } else {
      ScoredNow(ss, acts, k, i, t);
    }
  }

  /** An earlier attempt at chunk `i` of the same run scored `t`. */
  ghost predicate EarlierAttemptScored(ss: seq<State>, acts: seq<Action>, k: nat, m: nat, i: nat, t: TxnId)
    requires |ss| == |acts| + 1 && m < |acts| && i < |ss[m].chunks| && ss[m].chunks[i].phase.Active?
  {
    && k < m && ScoresAt(ss, acts, k, i, t) && OneRun(acts, k, m)
    && ss[k].chunks[i].phase.attempt < ss[m].chunks[i].phase.attempt
  }

  lemma EarlierAttempt(ss: seq<State>, acts: seq<Action>, m: nat, i: nat) returns (k: nat)
    requires Behaviour(ss, acts) && Undisturbed(ss, acts) && m < |acts| && Busy(ss[m], i)
    requires ss[m].chunks[i].ids[ss[m].chunks[i].phase.pos] in Owned(ss[m])
    ensures EarlierAttemptScored(ss, acts, k, m, i, ss[m].chunks[i].ids[ss[m].chunks[i].phase.pos])
    ensures ss[m].chunks[i].phase.attempt >= 2
  {
    var c := ss[m].chunks[i];
    k := ScoredByItsChunk(ss, acts, m, i, c.ids[c.phase.pos]);
    BehaviourAccounts(ss, acts, m);
    BehaviourAccounts(ss, acts, k);
    assert PhaseOk(ss[k].chunks[i]) && NoDuplicates(c.ids);
  }

  lemma ScoredStaysOwned(ss: seq<State>, acts: seq<Action>, k: nat, m: nat, i: nat, t: TxnId)
    requires Behaviour(ss, acts) && Undisturbed(ss, acts) && k < m < |ss| && ScoresAt(ss, acts, k, i, t)
    ensures t in Owned(ss[m])
  {
    StepAt(ss, acts, k);
    PersistShape(ss[k], i);
    OwnedAfterPersist(ss[k], ss[k + 1], t);
    OutstandingShrinks(ss, acts, k + 1, m);
  }

  /** A worker writes a prediction the job already owns exactly when an earlier
      attempt at its chunk, in the same run, had scored that transaction. A first
      attempt therefore never re-scores, in a first run or in a retry. */
  lemma RescoresExactly(ss: seq<State>, acts: seq<Action>, m: nat, i: nat)
    requires Behaviour(ss, acts) && Undisturbed(ss, acts) && m < |acts| && acts[m] == Persist(i)
    ensures Busy(ss[m], i)
    ensures var t := ss[m].chunks[i].ids[ss[m].chunks[i].phase.pos];
            && (t in Owned(ss[m]) <==> exists k: nat :: EarlierAttemptScored(ss, acts, k, m, i, t))
            && (t in Owned(ss[m]) ==> 2 <= ss[m].chunks[i].phase.attempt <= ATTEMPTS)
  {
    StepAt(ss, acts, m);
    var c := ss[m].chunks[i];
    var t := c.ids[c.phase.pos];
    assert PhaseOk(c);
    if t in Owned(ss[m]) {
      var k := EarlierAttempt(ss, acts, m, i);
    }
    if k: nat :| EarlierAttemptScored(ss, acts, k, m, i, t) {
      ScoredStaysOwned(ss, acts, k, m, i, t);
    }
  }
}
