/** No job gets stuck: every worker action uses up a finite budget, and as long as
    the job is in flight some worker action can be taken. */
module JobProgress {
  import opened Collections
  import opened JobModel
  import opened JobAccounts

  /** Budget of the attempts a chunk has left after attempt `a`; one attempt costs
      at most a start, two steps per transaction and an abort. */
  function AttemptsLeft(n: nat, a: nat): nat {
    if a <= 1 then 2 * (2 * n + 1) else if a == 2 then 2 * n + 1 else 0
  }

  /** Worker actions a chunk can still cause. */
  function Budget(c: Chunk): int {
    var n := |c.ids|;
    match c.phase
    case Waiting(a) => 4 + AttemptsLeft(n, a) + 2 * n + 1
    case Active(a, pos, fetched, _, _) => 4 + AttemptsLeft(n, a) + 2 * (n - pos) - (if fetched then 1 else 0)
    case Exhausted => 3
    case Counted(_) => 2
    case Finalising(_, _, _, _) => 1
    case Recorded(_, _, _) => 0
  }

  function Measure(s: State): int {
    SumOf(s.chunks, Budget)
  }

  lemma {:induction false} BudgetsNonNegative(cs: seq<Chunk>)
    requires forall i :: 0 <= i < |cs| ==> PhaseOk(cs[i])
    ensures 0 <= SumOf(cs, Budget)
  {
    if cs != [] {
      assert forall i :: 0 <= i < |cs[1..]| ==> cs[1..][i] == cs[i + 1];
      BudgetsNonNegative(cs[1..]);
    }
  }

  lemma QuietSpends(s: State, a: Action)
    requires Phases(s) && Enabled(s, a) && Quiet(a)
    ensures Budget(Apply(s, a).chunks[a.chunk]) < Budget(s.chunks[a.chunk])
  {
    assert PhaseOk(s.chunks[a.chunk]);
  }

  lemma OutcomeSpends(s: State, a: Action)
    requires Phases(s) && Enabled(s, a) && WorkerAction(a) && !Quiet(a)
    ensures Budget(Apply(s, a).chunks[a.chunk]) < Budget(s.chunks[a.chunk])
  {
  }

  /** Every worker action spends some of the moved chunk's budget. */
  lemma WorkerSpends(s: State, a: Action, s': State)
    requires Phases(s) && Moves(s, a, s') && WorkerAction(a)
    ensures a.chunk < |s.chunks| == |s'.chunks|
    ensures s'.chunks == s.chunks[a.chunk := s'.chunks[a.chunk]]
    ensures Budget(s'.chunks[a.chunk]) < Budget(s.chunks[a.chunk])
  {
    if Quiet(a) {
      QuietSpends(s, a);
    } else {
      OutcomeSpends(s, a);
    }
  }

  lemma MeasureFalls(s: State, a: Action, s': State)
    requires Phases(s) && Moves(s, a, s') && WorkerAction(a)
    ensures Measure(s') < Measure(s)
  {
    WorkerSpends(s, a, s');
    SumUpdate(s.chunks, a.chunk, s'.chunks[a.chunk], Budget);
  }

  /** The worker action an unrecorded chunk is ready for. */
  function NextAction(c: Chunk, i: nat): Action
    requires PhaseOk(c) && !c.phase.Recorded?
  {
    match c.phase
    case Waiting(_) => Start(i)
    case Active(_, pos, fetched, _, _) => if pos == |c.ids| then Record(i) else if fetched then Persist(i) else Fetch(i)
    case Exhausted => CountScored(i)
    case Counted(_) => Salvage(i)
    case Finalising(_, _, _, _) => Finalise(i)
  }

  /** A state where no worker action is possible is terminal, and conversely. */
  lemma NeverStuck(ss: seq<State>, acts: seq<Action>, k: nat)
    requires Behaviour(ss, acts) && k < |ss|
    ensures InFlight(ss[k].row.status) <==> exists a: Action :: WorkerAction(a) && Enabled(ss[k], a)
  {
    BehaviourAccounts(ss, acts, k);
    InFlightCanMove(ss[k]);
  }

  lemma InFlightCanMove(s: State)
    requires Accounts(s)
    ensures InFlight(s.row.status) <==> exists a: Action :: WorkerAction(a) && Enabled(s, a)
  {
    if InFlight(s.row.status) {
      var i :| 0 <= i < |s.chunks| && !s.chunks[i].phase.Recorded?;
      var a := NextAction(s.chunks[i], i);
      assert WorkerAction(a) && Enabled(s, a);
    }
    if a: Action :| WorkerAction(a) && Enabled(s, a) {
      assert !s.chunks[a.chunk].phase.Recorded?;
    }
  }

  lemma StepSpends(s: State, a: Action, s': State)
    requires Phases(s) && Moves(s, a, s') && !a.Retry?
    ensures Measure(s') + (if WorkerAction(a) then 1 else 0) <= Measure(s)
  {
    if WorkerAction(a) {
      MeasureFalls(s, a, s');
    }
  }

  function WorkerActions(acts: seq<Action>): nat {
    if acts == [] then 0
    else WorkerActions(acts[..|acts| - 1]) + (if WorkerAction(acts[|acts| - 1]) then 1 else 0)
  }

  lemma OneMoreAction(acts: seq<Action>, k: nat, m: nat)
    requires k < m <= |acts|
    ensures WorkerActions(acts[k..m]) == WorkerActions(acts[k..m - 1]) + (if WorkerAction(acts[m - 1]) then 1 else 0)
  {
    assert acts[k..m][..m - k - 1] == acts[k..m - 1];
  }

  lemma PhasesOk(ss: seq<State>, acts: seq<Action>, k: nat)
    requires Behaviour(ss, acts) && k < |ss|
    ensures Phases(ss[k])
  {
    BehaviourAccounts(ss, acts, k);
  }

  /** Between two retries, however deletions and other writers interleave, the
      workers take at most `Measure` actions: no run goes on for ever. */
  lemma {:induction false} RunIsBounded(ss: seq<State>, acts: seq<Action>, k: nat, m: nat)
    requires Behaviour(ss, acts) && k <= m < |ss|
    requires forall j :: k <= j < m ==> !acts[j].Retry?
    ensures 0 <= Measure(ss[m])
    ensures WorkerActions(acts[k..m]) + Measure(ss[m]) <= Measure(ss[k])
  {
    PhasesOk(ss, acts, m);
    BudgetsNonNegative(ss[m].chunks);
    if k == m {
      assert acts[k..m] == [];
    } else {
      RunIsBounded(ss, acts, k, m - 1);
      PhasesOk(ss, acts, m - 1);
      OneMoreAction(acts, k, m);
      StepSpends(ss[m - 1], acts[m - 1], ss[m]);
    }
  }

  /** What the budget of a whole run comes to: at most 6 actions per transaction
      and 7 per chunk. */
  lemma {:induction false} FreshBudget(cs: seq<Chunk>)
    requires forall i :: 0 <= i < |cs| ==> cs[i].phase == Waiting(1)
    ensures SumOf(cs, Budget) == 6 * SumOf(cs, Size) + 7 * |cs|
  {
    if cs != [] {
      assert forall i :: 0 <= i < |cs[1..]| ==> cs[1..][i] == cs[i + 1];
      FreshBudget(cs[1..]);
    }
  }

  lemma BudgetLeft(ss: seq<State>, acts: seq<Action>)
    requires Behaviour(ss, acts)
    ensures 0 <= Measure(ss[|acts|])
    ensures InFlight(ss[|acts|].row.status) <==> exists a: Action :: WorkerAction(a) && Enabled(ss[|acts|], a)
  {
    BehaviourAccounts(ss, acts, |acts|);
    BudgetsNonNegative(ss[|acts|].chunks);
    InFlightCanMove(ss[|acts|]);
  }

  /** A worker action taken from the end of a behaviour. */
  lemma OneMore(ss: seq<State>, acts: seq<Action>) returns (a: Action, s': State)
    requires Behaviour(ss, acts) && InFlight(ss[|acts|].row.status)
    ensures WorkerAction(a) && Behaviour(ss + [s'], acts + [a])
    ensures 0 <= Measure(s') < Measure(ss[|acts|])
  {
    BudgetLeft(ss, acts);
    var s := ss[|acts|];
    a :| WorkerAction(a) && Enabled(s, a);
    s' := Apply(s, a);
    PhasesOk(ss, acts, |acts|);
    MeasureFalls(s, a, s');
    Extend(ss, acts, a);
    BudgetLeft(ss + [s'], acts + [a]);
  }

  /** From any state of any behaviour the workers alone can bring the job to a
      terminal status. */
  lemma {:induction false} CanFinish(ss: seq<State>, acts: seq<Action>) returns (more: seq<State>, taken: seq<Action>)
    requires Behaviour(ss, acts)
    ensures Behaviour(ss + more, acts + taken)
    ensures |more| == |taken| && forall a :: a in taken ==> WorkerAction(a)
    ensures !InFlight((ss + more)[|acts + taken|].row.status)
    decreases Measure(ss[|acts|])
  {
    if !InFlight(ss[|acts|].row.status) {
      more, taken := [], [];
      assert ss + more == ss && acts + taken == acts;
    } else {
      var a, s' := OneMore(ss, acts);
      var rest, restTaken := CanFinish(ss + [s'], acts + [a]);
      more, taken := [s'] + rest, [a] + restTaken;
      assert ss + more == (ss + [s']) + rest && acts + taken == (acts + [a]) + restTaken;
    }
  }

  lemma Extend(ss: seq<State>, acts: seq<Action>, a: Action)
    requires Behaviour(ss, acts) && Enabled(ss[|acts|], a)
    ensures Behaviour(ss + [Apply(ss[|acts|], a)], acts + [a])
  {
    var ss', acts' := ss + [Apply(ss[|acts|], a)], acts + [a];
    forall k | 0 <= k < |acts'| ensures Moves(ss'[k], acts'[k], ss'[k + 1]) {
      if k < |acts| {
        assert ss'[k] == ss[k] && ss'[k + 1] == ss[k + 1] && Moves(ss[k], acts[k], ss[k + 1]);
      }
    }
  }
}
