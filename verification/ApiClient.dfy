/** frontend/src/lib/api.js: every request of the browser session, the shared token
    refresh behind a 401, and the cold-start flag. */
module ApiClient {
  import opened Collections

  const COLD_START_AFTER_MS := 2500

  // ---- state ---------------------------------------------------------------------

  /** `Waiting(r)` awaits refresh number `r`. */
  datatype Phase = Sent | Waiting(r: nat) | Done

  /** `via` is the refresh the request asked for after its 401, if it did. */
  datatype Request = Request(phase: Phase, sends: nat, isRetry: bool, via: Option<nat>, openedAt: int)

  datatype Outcome = Outstanding | Settled(ok: bool)

  /** A refresh and the request whose 401 started it. */
  datatype Refresh = Refresh(starter: nat, outcome: Outcome)

  datatype Timer = Timer(due: int, fired: bool)

  datatype State = State(
    now: int, requests: seq<Request>, refreshes: seq<Refresh>, refreshInFlight: Option<nat>,
    hasRefreshToken: bool, inFlight: nat, coldTimer: Option<Timer>, isCold: bool)

  ghost predicate Init(s: State) {
    && s.requests == [] && s.refreshes == [] && s.refreshInFlight == None
    && s.inFlight == 0 && s.coldTimer == None && !s.isCold
  }

  // ---- steps ------------------------------------------------------------------------

  /** `Answer` is the response to the last send of request `i` (a failed fetch counts
      as not unauthorized); `Resume` goes on after the awaited refresh; `ClearSlot` is
      the zero timeout after it; `FireCold` the grace timer; `SetTokens` a login or
      logout. */
  datatype Action =
    | Open | Answer(i: nat, unauthorized: bool) | Resume(i: nat)
    | RefreshSettles(r: nat, ok: bool) | ClearSlot
    | Wait(ms: nat) | FireCold | SetTokens(present: bool)

  predicate Enabled(s: State, a: Action) {
    match a
    case Open => true
    case Answer(i, _) => i < |s.requests| && s.requests[i].phase.Sent?
    case Resume(i) =>
      && i < |s.requests| && s.requests[i].phase.Waiting?
      && s.requests[i].phase.r < |s.refreshes| && s.refreshes[s.requests[i].phase.r].outcome.Settled?
    case RefreshSettles(r, _) => r < |s.refreshes| && s.refreshes[r].outcome.Outstanding?
    case ClearSlot =>
      s.refreshInFlight.Some? && s.refreshInFlight.value < |s.refreshes|
      && s.refreshes[s.refreshInFlight.value].outcome.Settled?
    case Wait(_) => true
    case FireCold => s.coldTimer.Some? && !s.coldTimer.value.fired && s.coldTimer.value.due <= s.now
    case SetTokens(_) => true
  }

  function Started(s: State): State {
    s.(inFlight := s.inFlight + 1,
       coldTimer := if s.inFlight + 1 == 1 && s.coldTimer.None? then Some(Timer(s.now + COLD_START_AFTER_MS, false))
                    else s.coldTimer)
  }

  function Finished(s: State): State {
    var left := if s.inFlight == 0 then 0 else s.inFlight - 1;
    if left == 0 then s.(inFlight := 0, coldTimer := None, isCold := false) else s.(inFlight := left)
  }

  function WithPhase(s: State, i: nat, phase: Phase): State
    requires i < |s.requests|
  {
    s.(requests := s.requests[i := s.requests[i].(phase := phase)])
  }

  /** `refreshAccessToken` up to its await: join the refresh in flight or start one. */
  function Joined(s: State, i: nat): State
    requires i < |s.requests|
  {
    var r := if s.refreshInFlight.Some? then s.refreshInFlight.value else |s.refreshes|;
    var t := s.(requests := s.requests[i := s.requests[i].(phase := Waiting(r), via := Some(r))]);
    if s.refreshInFlight.Some? then t
    else t.(refreshes := s.refreshes + [Refresh(i, Outstanding)], refreshInFlight := Some(r))
  }

  function Apply(s: State, a: Action): State
    requires Enabled(s, a)
  {
    match a
    case Open => Started(s.(requests := s.requests + [Request(Sent, 1, false, None, s.now)]))
    case Answer(i, unauthorized) =>
      if !unauthorized || s.requests[i].isRetry then Finished(WithPhase(s, i, Done))
      else if s.hasRefreshToken then Joined(s, i)
      else Finished(WithPhase(s, i, Done))
    case Resume(i) =>
      var q := s.requests[i];
      if s.refreshes[q.phase.r].outcome.ok
      then s.(requests := s.requests[i := q.(phase := Sent, sends := q.sends + 1, isRetry := true)])
      else Finished(WithPhase(s, i, Done)).(hasRefreshToken := false)
    case RefreshSettles(r, ok) => s.(refreshes := s.refreshes[r := s.refreshes[r].(outcome := Settled(ok))])
    case ClearSlot => s.(refreshInFlight := None)
    case Wait(ms) => s.(now := s.now + ms)
    case FireCold => s.(coldTimer := Some(s.coldTimer.value.(fired := true)), isCold := true)
    case SetTokens(present) => s.(hasRefreshToken := present)
  }

  ghost predicate Moves(s: State, a: Action, s': State) {
    Enabled(s, a) && s' == Apply(s, a)
  }

  ghost predicate Behaviour(ss: seq<State>, acts: seq<Action>) {
    && |ss| == |acts| + 1 && Init(ss[0])
    && forall k {:trigger acts[k]} :: 0 <= k < |acts| ==> Moves(ss[k], acts[k], ss[k + 1])
  }

  // ---- invariants -----------------------------------------------------------------------

  /** The refresh slot and the refreshes themselves. */
  ghost predicate OneOutstanding(s: State) {
    && (s.refreshInFlight.Some? ==> s.refreshInFlight.value < |s.refreshes|)
    && (forall r :: 0 <= r < |s.refreshes| && s.refreshes[r].outcome.Outstanding? ==> s.refreshInFlight == Some(r))
  }

  ghost predicate SoundRequest(q: Request, refreshes: seq<Refresh>) {
    && q.sends == (if q.isRetry then 2 else 1)
    && (q.via.Some? ==> q.via.value < |refreshes|)
    && (q.phase.Waiting? ==> !q.isRetry && q.via == Some(q.phase.r))
    && (q.phase.Sent? && !q.isRetry ==> q.via.None?)
    && (q.isRetry ==> q.via.Some? && refreshes[q.via.value].outcome == Settled(true))
  }

  ghost predicate SoundRequests(s: State) {
    forall i :: 0 <= i < |s.requests| ==> SoundRequest(s.requests[i], s.refreshes)
  }

  ghost predicate Starters(s: State) {
    forall r :: 0 <= r < |s.refreshes| ==>
      s.refreshes[r].starter < |s.requests| && s.requests[s.refreshes[r].starter].via == Some(r)
  }

  function OpenCount(requests: seq<Request>): nat {
    if requests == [] then 0
    else OpenCount(requests[..|requests| - 1]) + if requests[|requests| - 1].phase.Done? then 0 else 1
  }

  ghost predicate ColdFlag(s: State) {
    && s.inFlight == OpenCount(s.requests)
    && (s.coldTimer.Some? <==> s.inFlight > 0)
    && (s.isCold <==> s.coldTimer.Some? && s.coldTimer.value.fired)
    && (s.isCold ==> s.coldTimer.value.due <= s.now)
  }

  lemma {:induction false} OpenCountUpdate(requests: seq<Request>, i: nat, q: Request)
    requires i < |requests|
    ensures OpenCount(requests[i := q]) + (if requests[i].phase.Done? then 0 else 1)
         == OpenCount(requests) + (if q.phase.Done? then 0 else 1)
  {
    var front := requests[..|requests| - 1];
    if i == |requests| - 1 {
      assert requests[i := q][..|requests| - 1] == front;
    } else {
      OpenCountUpdate(front, i, q);
      assert requests[i := q][..|requests| - 1] == front[i := q];
    }
  }

  lemma OpenCountOpen(requests: seq<Request>, q: Request)
    ensures OpenCount(requests + [q]) == OpenCount(requests) + if q.phase.Done? then 0 else 1
  {
    assert (requests + [q])[..|requests|] == requests;
  }

  lemma StepOneOutstanding(s: State, a: Action, s': State)
    requires OneOutstanding(s) && Moves(s, a, s')
    ensures OneOutstanding(s')
  {
    if a.RefreshSettles? || a.ClearSlot? {
    } else if a.Answer? {
      AnswerKeepsSlot(s, a, s');
    } else {
      assert s'.refreshes == s.refreshes && s'.refreshInFlight == s.refreshInFlight;
    }
  }

  lemma AnswerKeepsSlot(s: State, a: Action, s': State)
    requires OneOutstanding(s) && Moves(s, a, s') && a.Answer?
    ensures OneOutstanding(s')
  {
  }

  /** Refreshes are only added and settled. */
  ghost predicate Later(before: seq<Refresh>, after: seq<Refresh>) {
    && |before| <= |after|
    && forall r :: 0 <= r < |before| && before[r].outcome.Settled? ==> after[r] == before[r]
  }

  lemma RefreshesLater(s: State, a: Action, s': State)
    requires Moves(s, a, s')
    ensures Later(s.refreshes, s'.refreshes)
  {
  }

  lemma StillSound(q: Request, before: seq<Refresh>, after: seq<Refresh>)
    requires SoundRequest(q, before) && Later(before, after)
    ensures SoundRequest(q, after)
  {
  }

  /** Only its own response and its own refresh move a request. */
  lemma OthersLeaveItAlone(s: State, a: Action, i: nat, s': State)
    requires Moves(s, a, s') && i < |s.requests| && a != Resume(i) && !(a.Answer? && a.i == i)
    ensures i < |s'.requests| && s'.requests[i] == s.requests[i]
  {
  }

  lemma AnsweredSound(s: State, a: Action, s': State)
    requires OneOutstanding(s) && Moves(s, a, s') && a.Answer? && SoundRequest(s.requests[a.i], s.refreshes)
    ensures a.i < |s'.requests| && SoundRequest(s'.requests[a.i], s'.refreshes)
  {
  }

  lemma ResumedSound(s: State, a: Action, s': State)
    requires Moves(s, a, s') && a.Resume? && SoundRequest(s.requests[a.i], s.refreshes)
    ensures a.i < |s'.requests| && SoundRequest(s'.requests[a.i], s'.refreshes)
  {
  }

  lemma OneStaysSound(s: State, a: Action, i: nat, s': State)
    requires SoundRequests(s) && OneOutstanding(s) && Moves(s, a, s') && i < |s.requests|
    ensures i < |s'.requests| && SoundRequest(s'.requests[i], s'.refreshes)
  {
    assert SoundRequest(s.requests[i], s.refreshes);
    if a.Answer? && a.i == i {
      AnsweredSound(s, a, s');
    } else if a == Resume(i) {
      ResumedSound(s, a, s');
    } else {
      OthersLeaveItAlone(s, a, i, s');
      RefreshesLater(s, a, s');
      StillSound(s.requests[i], s.refreshes, s'.refreshes);
    }
  }

  lemma RequestsGrowByOpening(s: State, a: Action, s': State)
    requires Moves(s, a, s')
    ensures |s'.requests| == |s.requests| + if a.Open? then 1 else 0
    ensures a.Open? ==> s'.requests[|s.requests|] == Request(Sent, 1, false, None, s.now)
  {
  }

  lemma StepSoundRequests(s: State, a: Action, s': State)
    requires SoundRequests(s) && OneOutstanding(s) && Moves(s, a, s')
    ensures SoundRequests(s')
  {
    RequestsGrowByOpening(s, a, s');
    forall i | 0 <= i < |s'.requests| ensures SoundRequest(s'.requests[i], s'.refreshes) {
      if i < |s.requests| {
        OneStaysSound(s, a, i, s');
      }
    }
  }

  lemma ViaIsKept(s: State, a: Action, i: nat, s': State)
    requires SoundRequests(s) && Moves(s, a, s') && i < |s.requests| && s.requests[i].via.Some?
    ensures i < |s'.requests| && s'.requests[i].via == s.requests[i].via
  {
    assert SoundRequest(s.requests[i], s.refreshes);
  }

  /** A refresh keeps its starter; a new one is started by the request just answered. */
  lemma StartersLater(s: State, a: Action, r: nat, s': State)
    requires Moves(s, a, s') && r < |s'.refreshes|
    ensures r < |s.refreshes| ==> s'.refreshes[r].starter == s.refreshes[r].starter
    ensures r >= |s.refreshes| ==>
              s'.refreshes[r].starter < |s'.requests| && s'.requests[s'.refreshes[r].starter].via == Some(r)
  {
  }

  lemma StepStarters(s: State, a: Action, s': State)
    requires Starters(s) && SoundRequests(s) && Moves(s, a, s')
    ensures Starters(s')
  {
    forall r | 0 <= r < |s'.refreshes|
      ensures s'.refreshes[r].starter < |s'.requests| && s'.requests[s'.refreshes[r].starter].via == Some(r)
    {
      StartersLater(s, a, r, s');
      if r < |s.refreshes| {
        ViaIsKept(s, a, s.refreshes[r].starter, s');
      }
    }
  }

  /** A request that moves on stays open, or finishes and is counted out. */
  lemma MovedOn(s: State, a: Action, s': State)
    requires Moves(s, a, s') && (a.Answer? || a.Resume?)
    ensures a.i < |s.requests| == |s'.requests| && !s.requests[a.i].phase.Done?
    ensures s'.requests == s.requests[a.i := s'.requests[a.i]]
    ensures var after := if s'.requests[a.i].phase.Done? then Finished(s) else s;
            s'.inFlight == after.inFlight && s'.coldTimer == after.coldTimer && s'.isCold == after.isCold
  {
  }

  lemma MovedOnCounts(s: State, a: Action, s': State)
    requires ColdFlag(s) && Moves(s, a, s') && (a.Answer? || a.Resume?)
    ensures ColdFlag(s')
  {
    MovedOn(s, a, s');
    OpenCountUpdate(s.requests, a.i, s'.requests[a.i]);
  }

  lemma StepColdFlag(s: State, a: Action, s': State)
    requires ColdFlag(s) && Moves(s, a, s')
    ensures ColdFlag(s')
  {
    if a.Open? {
      OpenCountOpen(s.requests, Request(Sent, 1, false, None, s.now));
    } else if a.Answer? || a.Resume? {
      MovedOnCounts(s, a, s');
    }
  }

  ghost predicate Sound(s: State) {
    OneOutstanding(s) && SoundRequests(s) && Starters(s) && ColdFlag(s)
  }

  lemma StepSound(s: State, a: Action, s': State)
    requires Sound(s) && Moves(s, a, s')
    ensures Sound(s')
  {
    StepOneOutstanding(s, a, s');
    StepSoundRequests(s, a, s');
    StepStarters(s, a, s');
    StepColdFlag(s, a, s');
  }

  lemma {:induction false} EveryStateIsSound(ss: seq<State>, acts: seq<Action>, k: nat)
    requires Behaviour(ss, acts) && k < |ss|
    ensures Sound(ss[k])
  {
    if k > 0 {
      EveryStateIsSound(ss, acts, k - 1);
      StepSound(ss[k - 1], acts[k - 1], ss[k]);
    }
  }

  // ---- the promises of the interceptor ---------------------------------------------------------

  /** However many requests see a 401 at once, no two interceptor refreshes are ever
      outstanding together. */
  lemma SingleFlight(ss: seq<State>, acts: seq<Action>, k: nat, r: nat, q: nat)
    requires Behaviour(ss, acts) && k < |ss| && r < |ss[k].refreshes| && q < |ss[k].refreshes|
    requires ss[k].refreshes[r].outcome.Outstanding? && ss[k].refreshes[q].outcome.Outstanding?
    ensures r == q
  {
    EveryStateIsSound(ss, acts, k);
  }

  /** A request goes out once or twice; twice only after the one refresh it asked for
      succeeded. */
  lemma SentAtMostTwice(ss: seq<State>, acts: seq<Action>, k: nat, i: nat)
    requires Behaviour(ss, acts) && k < |ss| && i < |ss[k].requests|
    ensures var q := ss[k].requests[i];
            && 1 <= q.sends <= 2
            && (q.sends == 2 ==> q.via.Some? && q.via.value < |ss[k].refreshes|
                                 && ss[k].refreshes[q.via.value].outcome == Settled(true))
  {
    EveryStateIsSound(ss, acts, k);
    assert SoundRequest(ss[k].requests[i], ss[k].refreshes);
  }

  /** No request starts a second refresh, so there are never more refreshes than requests. */
  lemma RefreshesAreBounded(ss: seq<State>, acts: seq<Action>, k: nat)
    requires Behaviour(ss, acts) && k < |ss|
    ensures |ss[k].refreshes| <= |ss[k].requests|
  {
    EveryStateIsSound(ss, acts, k);
    var s := ss[k];
    var starters: seq<nat> := seq(|s.refreshes|, r requires 0 <= r < |s.refreshes| => s.refreshes[r].starter);
    forall r, q | 0 <= r < q < |starters| ensures starters[r] != starters[q] {
      assert s.requests[starters[r]].via == Some(r) && s.requests[starters[q]].via == Some(q);
    }
    assert NoDuplicates(starters);
    ElementsSize<nat>(starters);
    ElementsBelow(starters, |s.requests|);
  }

  function Below(n: nat): set<nat> {
    if n == 0 then {} else Below(n - 1) + {n - 1}
  }

  lemma {:induction false} BelowIs(n: nat)
    ensures |Below(n)| == n && forall x: nat :: x in Below(n) <==> x < n
  {
    if n > 0 {
      BelowIs(n - 1);
    }
  }

  lemma ElementsBelow(xs: seq<nat>, n: nat)
    requires forall x :: x in xs ==> x < n
    ensures |Elements(xs)| <= n
  {
    BelowIs(n);
    SubsetSize(Elements(xs), Below(n));
  }

  /** A waiting request is never stranded: its refresh has settled, and it can resume,
      or it is the one outstanding. */
  lemma NobodyIsStranded(ss: seq<State>, acts: seq<Action>, k: nat, i: nat)
    requires Behaviour(ss, acts) && k < |ss| && i < |ss[k].requests| && ss[k].requests[i].phase.Waiting?
    ensures var r := ss[k].requests[i].phase.r;
            || Enabled(ss[k], Resume(i))
            || (ss[k].refreshInFlight == Some(r) && Enabled(ss[k], RefreshSettles(r, true)))
  {
    EveryStateIsSound(ss, acts, k);
    assert SoundRequest(ss[k].requests[i], ss[k].refreshes);
  }

  // ---- the cold-start flag ------------------------------------------------------------------------

  /** Some request was open at every state from `j` to `k`. */
  ghost predicate Busy(ss: seq<State>, j: nat, k: nat) {
    j <= k < |ss| && forall m :: j <= m <= k ==> ss[m].inFlight > 0
  }

  ghost predicate BusyFor(ss: seq<State>, k: nat, ms: int) {
    exists j: nat :: Busy(ss, j, k) && ss[j].now + ms <= ss[k].now
  }

  lemma {:induction false} ClockRuns(ss: seq<State>, acts: seq<Action>, j: nat, k: nat)
    requires Behaviour(ss, acts) && j <= k < |ss|
    ensures ss[j].now <= ss[k].now
  {
    if j < k {
      ClockRuns(ss, acts, j, k - 1);
      assert Moves(ss[k - 1], acts[k - 1], ss[k]);
    }
  }

  /** The timer is set by the request that ends an idle stretch, and kept while busy. */
  lemma BusyStep(s: State, a: Action, s': State)
    requires ColdFlag(s) && Moves(s, a, s') && s'.inFlight > 0
    ensures s'.coldTimer.Some?
    ensures s'.coldTimer.value.due == if s.inFlight > 0 && s.coldTimer.Some? then s.coldTimer.value.due
                                      else s'.now + COLD_START_AFTER_MS
  {
  }

  /** The state in which the present busy stretch began set the timer. */
  lemma {:induction false} BusyStart(ss: seq<State>, acts: seq<Action>, k: nat) returns (j: nat)
    requires Behaviour(ss, acts) && k < |ss| && ss[k].inFlight > 0
    ensures Busy(ss, j, k) && j > 0 && ss[j - 1].inFlight == 0
    ensures ss[k].coldTimer.Some? && ss[k].coldTimer.value.due == ss[j].now + COLD_START_AFTER_MS
  {
    EveryStateIsSound(ss, acts, k - 1);
    BusyStep(ss[k - 1], acts[k - 1], ss[k]);
    if ss[k - 1].inFlight > 0 {
      j := BusyStart(ss, acts, k - 1);
    } else {
      j := k;
    }
  }

  /** The flag is up, or its timer is due, exactly when the client has been busy
      without a pause for the grace period. */
  lemma ColdExactly(ss: seq<State>, acts: seq<Action>, k: nat)
    requires Behaviour(ss, acts) && k < |ss|
    ensures ss[k].isCold || Enabled(ss[k], FireCold) <==> BusyFor(ss, k, COLD_START_AFTER_MS)
    ensures ss[k].isCold ==> ss[k].inFlight > 0 && OpenCount(ss[k].requests) > 0
  {
    EveryStateIsSound(ss, acts, k);
    if ss[k].inFlight > 0 {
      var j := BusyStart(ss, acts, k);
      if BusyFor(ss, k, COLD_START_AFTER_MS) {
        var m: nat :| Busy(ss, m, k) && ss[m].now + COLD_START_AFTER_MS <= ss[k].now;
        assert j <= m;
        ClockRuns(ss, acts, j, m);
      }
    }
  }

  lemma Take(ss: seq<State>, acts: seq<Action>, a: Action, s: State) returns (ss': seq<State>, acts': seq<Action>)
    requires Behaviour(ss, acts) && Moves(ss[|acts|], a, s)
    ensures Behaviour(ss', acts') && ss <= ss' && acts <= acts' && |acts'| == |acts| + 1 && ss'[|acts'|] == s
  {
    ss', acts' := ss + [s], acts + [a];
  }

  function ShortRequest(phase: Phase, openedAt: int): Request {
    Request(phase, 1, false, None, openedAt)
  }

  function Overlap(now: int, requests: seq<Request>, inFlight: nat): State {
    State(now, requests, [], None, true, inFlight, Some(Timer(2500, false)), false)
  }

  lemma Overlapping() returns (ss: seq<State>, acts: seq<Action>)
    ensures Behaviour(ss, acts) && ss[|acts|] == Overlap(2000, [ShortRequest(Sent, 0), ShortRequest(Sent, 2000)], 2)
  {
    var q0, q1 := ShortRequest(Sent, 0), ShortRequest(Sent, 2000);
    ss, acts := [State(0, [], [], None, true, 0, None, false)], [];
    ss, acts := Take(ss, acts, Open, Overlap(0, [q0], 1));
    ss, acts := Take(ss, acts, Wait(2000), Overlap(2000, [q0], 1));
    ss, acts := Take(ss, acts, Open, Overlap(2000, [q0, q1], 2));
  }

  /** It is not about any one request: two short ones that overlap raise it although
      neither has hung for the grace period. */
  lemma ColdWithoutASlowRequest()
    ensures exists ss: seq<State>, acts: seq<Action> ::
              && Behaviour(ss, acts) && ss[|acts|].isCold
              && forall i :: 0 <= i < |ss[|acts|].requests| && !ss[|acts|].requests[i].phase.Done? ==>
                   ss[|acts|].now - ss[|acts|].requests[i].openedAt <= 500
  {
    var left := [ShortRequest(Done, 0), ShortRequest(Sent, 2000)];
    var ss, acts := Overlapping();
    ss, acts := Take(ss, acts, Answer(0, false), Overlap(2000, left, 1));
    ss, acts := Take(ss, acts, Wait(500), Overlap(2500, left, 1));
    ss, acts := Take(ss, acts, FireCold, Overlap(2500, left, 1).(coldTimer := Some(Timer(2500, true)), isCold := true));
  }

  // ---- the code ------------------------------------------------------------------------------------

  /** The module-level variables, and the promises handed out. */
  class Client {
    var now: int
    var requests: seq<Request>
    var refreshes: seq<Refresh>
    var refreshInFlight: Option<nat>
    var hasRefreshToken: bool
    var inFlight: nat
    var coldTimer: Option<Timer>
    var isCold: bool
    ghost var ss: seq<State>
    ghost var acts: seq<Action>

    ghost function View(): State
      reads this
    {
      State(now, requests, refreshes, refreshInFlight, hasRefreshToken, inFlight, coldTimer, isCold)
    }

    ghost predicate Valid()
      reads this
    {
      Behaviour(ss, acts) && ss[|acts|] == View()
    }

    constructor (now: int, hasRefreshToken: bool)
      ensures Valid() && acts == []
    {
      this.now, this.hasRefreshToken := now, hasRefreshToken;
      requests, refreshes, refreshInFlight, inFlight, coldTimer, isCold := [], [], None, 0, None, false;
      acts := [];
      ss := [State(now, [], [], None, hasRefreshToken, 0, None, false)];
    }

    ghost method Took(a: Action)
      requires Behaviour(ss, acts) && Moves(ss[|acts|], a, View())
      modifies this`ss, this`acts
      ensures Valid() && acts == old(acts) + [a] && ss == old(ss) + [View()]
    {
      ss, acts := ss + [View()], acts + [a];
    }

    /** Everything else in the tab goes on while request `i` waits for the network. */
    method Await(ghost i: nat)
      requires Valid() && i < |requests|
      modifies this
      ensures Valid() && old(ss) <= ss && old(acts) <= acts
      ensures i < |requests| && requests[i] == old(requests[i])
    {
    }

    /** Awaiting the shared promise; `answer` is what the refresh endpoint says if it
        has not answered yet. */
    method AwaitRefresh(ghost i: nat, r: nat, answer: bool) returns (ok: bool)
      requires Valid() && i < |requests| && requests[i].phase == Waiting(r)
      modifies this
      ensures Valid() && old(ss) <= ss && old(acts) <= acts
      ensures i < |requests| && requests[i] == old(requests[i])
      ensures r < |refreshes| && refreshes[r].outcome == Settled(ok)
    {
      Await(i);
      EveryStateIsSound(ss, acts, |acts|);
      assert SoundRequest(requests[i], refreshes);
      if refreshes[r].outcome.Outstanding? {
        refreshes := refreshes[r := refreshes[r].(outcome := Settled(answer))];
        Took(RefreshSettles(r, answer));
      }
      ok := refreshes[r].outcome.ok;
    }

    method RequestStarted()
      modifies this`inFlight, this`coldTimer
      ensures View() == Started(old(View()))
    {
      inFlight := inFlight + 1;
      if inFlight == 1 && coldTimer.None? {
        coldTimer := Some(Timer(now + COLD_START_AFTER_MS, false));
      }
    }

    method RequestFinished()
      modifies this`inFlight, this`coldTimer, this`isCold
      ensures View() == Finished(old(View()))
    {
      inFlight := if inFlight == 0 then 0 else inFlight - 1;
      if inFlight == 0 {
        coldTimer := None;
        isCold := false;
      }
    }

    /** `raw` up to its first fetch. */
    method OpenRequest() returns (i: nat)
      requires Valid()
      modifies this
      ensures Valid() && old(ss) <= ss && acts == old(acts) + [Open]
      ensures i == |old(requests)| < |requests| && requests[i] == Request(Sent, 1, false, None, now)
    {
      i := |requests|;
      requests := requests + [Request(Sent, 1, false, None, now)];
      RequestStarted();
      Took(Open);
    }

    /** The response is the caller's: `raw` returns or throws. */
    method Deliver(i: nat, unauthorized: bool)
      requires Valid() && i < |requests| && requests[i].phase.Sent?
      requires unauthorized ==> requests[i].isRetry || !hasRefreshToken
      modifies this
      ensures Valid() && old(ss) <= ss && acts == old(acts) + [Answer(i, unauthorized)]
      ensures i < |requests| && requests[i] == old(requests[i]).(phase := Done)
    {
      requests := requests[i := requests[i].(phase := Done)];
      RequestFinished();
      Took(Answer(i, unauthorized));
    }

    /** `refreshAccessToken` up to its await, for a caller that holds a refresh token. */
    method JoinRefresh(i: nat) returns (r: nat)
      requires Valid() && i < |requests| && requests[i].phase.Sent? && !requests[i].isRetry && hasRefreshToken
      modifies this
      ensures Valid() && old(ss) <= ss && acts == old(acts) + [Answer(i, true)]
      ensures i < |requests| && requests[i] == old(requests[i]).(phase := Waiting(r), via := Some(r))
      ensures old(refreshInFlight).Some? ==> refreshes == old(refreshes) && r == old(refreshInFlight).value
    {
      if refreshInFlight.None? {
        refreshInFlight := Some(|refreshes|);
        refreshes := refreshes + [Refresh(i, Outstanding)];
      }
      r := refreshInFlight.value;
      requests := requests[i := requests[i].(phase := Waiting(r), via := Some(r))];
      Took(Answer(i, true));
    }

    /** After the await: replay with the new token, or give the session up. */
    method AfterRefresh(i: nat, r: nat, token: bool)
      requires Valid() && i < |requests| && requests[i].phase == Waiting(r)
      requires r < |refreshes| && refreshes[r].outcome == Settled(token)
      modifies this
      ensures Valid() && old(ss) <= ss && old(acts) <= acts && i < |requests| && refreshes == old(refreshes)
      ensures token ==>
                requests[i] == old(requests[i]).(phase := Sent, sends := old(requests[i]).sends + 1, isRetry := true)
      ensures !token ==> requests[i] == old(requests[i]).(phase := Done) && !hasRefreshToken
    {
      if token {
        requests := requests[i := requests[i].(phase := Sent, sends := requests[i].sends + 1, isRetry := true)];
      } else {
        requests := requests[i := requests[i].(phase := Done)];
        RequestFinished();
        hasRefreshToken := false;
      }
      Took(Resume(i));
    }

    /** The request has ended, with the refresh it asked for settled: it went out again
        exactly when that refresh succeeded, and otherwise the session is over. */
    ghost predicate Replayed(i: nat, sends: nat)
      reads this
    {
      && i < |requests| && requests[i].phase.Done? && requests[i].sends == sends && 1 <= sends <= 2
      && requests[i].via.Some? && requests[i].via.value < |refreshes|
      && refreshes[requests[i].via.value].outcome == Settled(sends == 2)
    }

    /** The replay after a refresh that succeeded. */
    method Replay(i: nat, second: bool)
      requires Valid() && i < |requests| && requests[i].phase.Sent? && requests[i].sends == 2 && requests[i].isRetry
      modifies this
      ensures Valid() && old(ss) <= ss && old(acts) <= acts && Replayed(i, 2)
    {
      Await(i);
      Deliver(i, second);
      EveryStateIsSound(ss, acts, |acts|);
      assert SoundRequest(requests[i], refreshes);
    }

    /** After a 401: refresh, and replay once if that succeeds. */
    method RefreshAndReplay(i: nat, refreshed: bool, second: bool) returns (sends: nat)
      requires Valid() && i < |requests| && hasRefreshToken && requests[i].phase.Sent?
      requires !requests[i].isRetry && requests[i].sends == 1
      modifies this
      ensures Valid() && old(ss) <= ss && old(acts) + [Answer(i, true)] <= acts
      ensures Replayed(i, sends) && (sends == 1 ==> !hasRefreshToken)
    {
      var r := JoinRefresh(i);
      var token := AwaitRefresh(i, r, refreshed);
      AfterRefresh(i, r, token);
      if token {
        Replay(i, second);
        return 2;
      }
      return 1;
    }

    /** `raw` and `request`, given what the server would say: `first` and `second` tell
        whether a send is answered 401, `refreshed` whether a refresh would succeed. The
        request is number `i`, opened by this call, and first answered by action `at`. */
    method Raw(first: bool, refreshed: bool, second: bool) returns (sends: nat, i: nat, ghost at: nat)
      requires Valid()
      modifies this
      ensures Valid() && old(ss) <= ss && old(acts) <= acts
      ensures i == |old(requests)| < |requests| && requests[i].phase.Done? && requests[i].sends == sends
      ensures old(|acts|) < at < |acts| && acts[at] == Answer(i, first)
      ensures first && ss[at].hasRefreshToken ==> Replayed(i, sends) && (sends == 1 ==> !hasRefreshToken)
      ensures !first || !ss[at].hasRefreshToken ==> sends == 1
    {
      i := OpenRequest();
      Await(i);
      at := |acts|;
      if first && hasRefreshToken {
        sends := RefreshAndReplay(i, refreshed, second);
      } else {
        Deliver(i, first);
        sends := 1;
      }
    }
  }
}
