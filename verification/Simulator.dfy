/** backend/src/modules/simulator/simulator.service.js: a timer that replays selected
    transactions one at a time. A tick is two steps, since it awaits the scorer in
    between; ticks, stops and new runs may fall anywhere. */
module Simulator {
  import opened Collections

  type TxnId = nat

  datatype Status = Running | Completed | Stopped

  /** `publishing`: the transaction in flight is scored and being published. `log` is
      what has been handed to the scorer, `endings` how often the run has been finished. */
  datatype Run = Run(
    ids: seq<TxnId>, status: Status, cursor: nat, sent: nat, scored: nat, failed: nat,
    inFlight: bool, publishing: bool, timer: bool, log: seq<TxnId>, endings: nat)

  function NewRun(ids: seq<TxnId>): Run {
    Run(ids, Running, 0, 0, 0, 0, false, false, true, [], 0)
  }

  function Ended(run: Run, status: Status): Run {
    run.(timer := false, status := status, endings := run.endings + 1)
  }

  /** A tick up to its await. */
  function Began(run: Run): Run {
    if run.inFlight then run
    else if run.cursor >= |run.ids| then Ended(run, Completed)
    else run.(inFlight := true, cursor := run.cursor + 1, sent := run.sent + 1,
              log := run.log + [run.ids[run.cursor]])
  }

  /** The scorer has answered: a scored transaction is published next, an error closes
      the tick at once. */
  function Answered(run: Run, ok: bool): Run {
    if ok then run.(scored := run.scored + 1, publishing := true) else Closed(run.(failed := run.failed + 1))
  }

  /** The `finally` of a tick. */
  function Closed(run: Run): Run {
    var closed := run.(inFlight := false, publishing := false);
    if closed.cursor >= |closed.ids| && closed.status == Running then Ended(closed, Completed) else closed
  }

  // ---- every run the process has ever started ---------------------------------------

  datatype World = World(runs: seq<Run>, active: Option<nat>)

  datatype Action = Start(ids: seq<TxnId>) | Tick(r: nat) | Answer(r: nat, ok: bool) | Published(r: nat) | Stop(r: nat)

  const FRESH := World([], None)

  predicate ActiveIsRunning(w: World) {
    w.active.Some? && w.active.value < |w.runs| && w.runs[w.active.value].status == Running
  }

  /** A selection lists each row once; a cleared timer fires no more; only the active
      running run can be stopped; start is refused while one is running. */
  ghost predicate Enabled(w: World, a: Action) {
    match a
    case Start(ids) => ids != [] && NoDuplicates(ids) && !ActiveIsRunning(w)
    case Tick(r) => r < |w.runs| && w.runs[r].timer
    case Answer(r, _) => r < |w.runs| && w.runs[r].inFlight && !w.runs[r].publishing
    case Published(r) => r < |w.runs| && w.runs[r].publishing
    case Stop(r) => w.active == Some(r) && ActiveIsRunning(w)
  }

  function Replace(w: World, r: nat, run: Run): World
    requires r < |w.runs|
  {
    World(w.runs[r := run], if run.endings > w.runs[r].endings then Some(r) else w.active)
  }

  ghost function Apply(w: World, a: Action): World
    requires Enabled(w, a)
  {
    match a
    case Start(ids) => World(w.runs + [NewRun(ids)], Some(|w.runs|))
    case Tick(r) => Replace(w, r, Began(w.runs[r]))
    case Answer(r, ok) => Replace(w, r, Answered(w.runs[r], ok))
    case Published(r) => Replace(w, r, Closed(w.runs[r]))
    case Stop(r) => Replace(w, r, Ended(w.runs[r], Stopped))
  }

  ghost predicate Behaviour(ws: seq<World>, acts: seq<Action>) {
    && |ws| == |acts| + 1 && ws[0] == FRESH
    && forall i {:trigger acts[i]} :: 0 <= i < |acts| ==> Enabled(ws[i], acts[i]) && ws[i + 1] == Apply(ws[i], acts[i])
  }

  // ---- what holds of every run ------------------------------------------------------------

  ghost predicate Sound(run: Run) {
    && run.cursor == run.sent <= |run.ids| && run.ids != [] && NoDuplicates(run.ids)
    && run.log == run.ids[..run.cursor]
    && run.scored + run.failed + (if run.inFlight && !run.publishing then 1 else 0) == run.sent
    && (run.publishing ==> run.inFlight)
    && (run.timer <==> run.status == Running)
    && run.endings == (if run.status == Running then 0 else 1)
    && (run.status == Running && !run.inFlight ==> run.cursor < |run.ids|)
    && (run.status == Completed ==> run.cursor == |run.ids| && !run.inFlight)
  }

  /** Only the newest run can be running, and it is the active one. */
  ghost predicate Orderly(w: World) {
    && (forall r :: 0 <= r < |w.runs| ==> Sound(w.runs[r]))
    && (forall r :: 0 <= r < |w.runs| - 1 ==> w.runs[r].status != Running)
    && w.active == if w.runs == [] then None else Some(|w.runs| - 1)
  }

  /** A live timer of an idle run always has something left to send: the early exit
      of `tick` is never taken. */
  lemma BeganIsSound(run: Run)
    requires Sound(run) && run.timer
    ensures Sound(Began(run)) && Began(run).status == Running && Began(run).endings == run.endings
    ensures !run.inFlight ==> Began(run).log == run.log + [run.ids[run.cursor]]
  {
    if !run.inFlight {
      assert run.ids[..run.cursor + 1] == run.ids[..run.cursor] + [run.ids[run.cursor]];
    }
  }

  /** Neither an answer nor the end of a tick sends anything, and neither changes how an
      ended run has ended. */
  ghost predicate SameEnding(run: Run, after: Run) {
    && after.log == run.log && after.ids == run.ids && run.scored <= after.scored && run.failed <= after.failed
    && (run.status != Running ==> after.status == run.status && after.endings == run.endings)
  }

  lemma ClosedIsSound(run: Run)
    requires Sound(run) && run.publishing
    ensures Sound(Closed(run)) && SameEnding(run, Closed(run))
  {
  }

  lemma AnsweredIsSound(run: Run, ok: bool)
    requires Sound(run) && run.inFlight && !run.publishing
    ensures Sound(Answered(run, ok)) && SameEnding(run, Answered(run, ok))
  {
  }

  lemma ReplaceKeepsOrder(w: World, r: nat, run: Run)
    requires Orderly(w) && r < |w.runs| && Sound(run)
    requires w.runs[r].status != Running ==> run.status != Running && run.endings == w.runs[r].endings
    ensures Orderly(Replace(w, r, run))
  {
    assert Sound(w.runs[r]);
  }

  lemma StepKeepsOrder(w: World, a: Action, w': World)
    requires Orderly(w) && Enabled(w, a) && w' == Apply(w, a)
    ensures Orderly(w')
  {
    if a.Tick? {
      BeganIsSound(w.runs[a.r]);
      ReplaceKeepsOrder(w, a.r, Began(w.runs[a.r]));
    } else if a.Answer? {
      AnsweredIsSound(w.runs[a.r], a.ok);
      ReplaceKeepsOrder(w, a.r, Answered(w.runs[a.r], a.ok));
    } else if a.Published? {
      ClosedIsSound(w.runs[a.r]);
      ReplaceKeepsOrder(w, a.r, Closed(w.runs[a.r]));
    }
  }

  lemma {:induction false} EveryRunIsOrderly(ws: seq<World>, acts: seq<Action>, k: nat)
    requires Behaviour(ws, acts) && k < |ws|
    ensures Orderly(ws[k])
  {
    if k > 0 {
      EveryRunIsOrderly(ws, acts, k - 1);
      StepKeepsOrder(ws[k - 1], acts[k - 1], ws[k]);
    }
  }

  // ---- what a reader of the feed can rely on ---------------------------------------------------

  /** Each transaction is sent at most once and in the order selected; the counters
      lag by at most the one in flight; the run ends once; completed means all sent
      and all settled. */
  lemma RunAccounts(ws: seq<World>, acts: seq<Action>, k: nat, r: nat)
    requires Behaviour(ws, acts) && k < |ws| && r < |ws[k].runs|
    ensures var run := ws[k].runs[r];
            && run.log <= run.ids && NoDuplicates(run.log) && |run.log| == run.sent == run.cursor
            && run.scored + run.failed <= run.sent <= run.scored + run.failed + 1
            && run.endings <= 1 && (run.endings == 1 <==> run.status != Running)
            && (run.status == Completed ==> run.log == run.ids && run.scored + run.failed == |run.ids|)
  {
    EveryRunIsOrderly(ws, acts, k);
    assert Sound(ws[k].runs[r]);
  }

  lemma AtMostOneRunning(ws: seq<World>, acts: seq<Action>, k: nat, r: nat, q: nat)
    requires Behaviour(ws, acts) && k < |ws| && r < |ws[k].runs| && q < |ws[k].runs|
    requires ws[k].runs[r].status == Running && ws[k].runs[q].status == Running
    ensures r == q && ws[k].active == Some(r)
  {
    EveryRunIsOrderly(ws, acts, k);
  }

  /** How many answers to run `r` were of the kind `ok`. */
  function Answers(acts: seq<Action>, r: nat, ok: bool): nat {
    if acts == [] then 0
    else Answers(acts[..|acts| - 1], r, ok) + if acts[|acts| - 1] == Answer(r, ok) then 1 else 0
  }

  /** The counters of run `r`, or none if it has not been started. */
  ghost predicate Counts(w: World, r: nat, scored: nat, failed: nat) {
    if r < |w.runs| then w.runs[r].scored == scored && w.runs[r].failed == failed else scored == 0 && failed == 0
  }

  lemma StepCounts(w: World, a: Action, w': World, r: nat, scored: nat, failed: nat)
    requires Enabled(w, a) && w' == Apply(w, a) && Counts(w, r, scored, failed)
    ensures Counts(w', r, scored + (if a == Answer(r, true) then 1 else 0),
                          failed + (if a == Answer(r, false) then 1 else 0))
  {
  }

  lemma {:induction false} AnswersCount(ws: seq<World>, acts: seq<Action>, k: nat, r: nat)
    requires Behaviour(ws, acts) && k < |ws|
    ensures Counts(ws[k], r, Answers(acts[..k], r, true), Answers(acts[..k], r, false))
  {
    if k > 0 {
      var j: nat := k - 1;
      AnswersCount(ws, acts, j, r);
      assert acts[..k][..j] == acts[..j] && acts[..k][j] == acts[j];
      StepCounts(ws[j], acts[j], ws[k], r, Answers(acts[..j], r, true), Answers(acts[..j], r, false));
    }
  }

  /** The counters tell what the scorer answered: as many scored as it scored, as many
      failed as were errors. */
  lemma CountersExactly(ws: seq<World>, acts: seq<Action>, k: nat, r: nat)
    requires Behaviour(ws, acts) && k < |ws| && r < |ws[k].runs|
    ensures ws[k].runs[r].scored == Answers(acts[..k], r, true)
    ensures ws[k].runs[r].failed == Answers(acts[..k], r, false)
  {
    AnswersCount(ws, acts, k, r);
  }

  /** What no step takes back. */
  ghost predicate Grown(before: Run, after: Run) {
    && after.ids == before.ids && before.log <= after.log
    && before.scored <= after.scored && before.failed <= after.failed
    && (before.status != Running ==>
          after.status == before.status && after.log == before.log && after.endings == before.endings)
  }

  lemma OtherRunStays(w: World, a: Action, r: nat, w': World)
    requires Enabled(w, a) && r < |w.runs| && w' == Apply(w, a) && (a.Start? || a.r != r)
    ensures r < |w'.runs| && w'.runs[r] == w.runs[r]
  {
  }

  lemma OwnStepGrows(w: World, a: Action, w': World)
    requires Orderly(w) && Enabled(w, a) && !a.Start? && w' == Apply(w, a)
    ensures a.r < |w.runs| == |w'.runs| && Grown(w.runs[a.r], w'.runs[a.r])
  {
    var run := w.runs[a.r];
    assert Sound(run);
    if a.Tick? {
      BeganIsSound(run);
    } else if a.Answer? {
      AnsweredIsSound(run, a.ok);
    } else if a.Published? {
      ClosedIsSound(run);
    }
  }

  lemma StepGrows(w: World, a: Action, r: nat, w': World)
    requires Orderly(w) && Enabled(w, a) && r < |w.runs| && w' == Apply(w, a)
    ensures r < |w'.runs| && Grown(w.runs[r], w'.runs[r])
  {
    if a.Start? || a.r != r {
      OtherRunStays(w, a, r, w');
    } else {
      OwnStepGrows(w, a, w');
    }
  }

  lemma GrownChains(a: Run, b: Run, c: Run)
    requires Grown(a, b) && Grown(b, c) && Sound(a) && Sound(b)
    ensures Grown(a, c)
  {
  }

  lemma GrownStep(before: Run, w: World, a: Action, r: nat, w': World)
    requires Orderly(w) && Enabled(w, a) && w' == Apply(w, a)
    requires r < |w.runs| && Sound(before) && Grown(before, w.runs[r])
    ensures r < |w'.runs| && Grown(before, w'.runs[r])
  {
    StepGrows(w, a, r, w');
    GrownChains(before, w.runs[r], w'.runs[r]);
  }

  lemma {:induction false} GrowsOn(before: Run, ws: seq<World>, acts: seq<Action>, k: nat, l: nat, r: nat)
    requires Behaviour(ws, acts) && k <= l < |ws| && r < |ws[k].runs| && before == ws[k].runs[r] && Sound(before)
    ensures r < |ws[l].runs| && Grown(before, ws[l].runs[r])
  {
    if k < l {
      GrowsOn(before, ws, acts, k, l - 1, r);
      EveryRunIsOrderly(ws, acts, l - 1);
      GrownStep(before, ws[l - 1], acts[l - 1], r, ws[l]);
    }
  }

  /** Nothing is sent after a run has stopped or completed: from then on only the
      answer to the one transaction that may still be in flight can change a counter. */
  lemma NothingAfterTheEnd(ws: seq<World>, acts: seq<Action>, k: nat, l: nat, r: nat)
    requires Behaviour(ws, acts) && k <= l < |ws| && r < |ws[k].runs|
    ensures r < |ws[l].runs| && Grown(ws[k].runs[r], ws[l].runs[r])
  {
    EveryRunIsOrderly(ws, acts, k);
    GrowsOn(ws[k].runs[r], ws, acts, k, l, r);
  }

  ghost predicate AtMostStopped(before: Run, after: Run) {
    after == before || (before.status == Running && after == Ended(before, Stopped))
  }

  lemma OthersCanOnlyStop(w: World, a: Action, r: nat)
    requires Orderly(w) && Enabled(w, a) && r < |w.runs| && w.runs[r].inFlight
    requires !((a.Answer? || a.Published?) && a.r == r)
    ensures r < |Apply(w, a).runs|
    ensures AtMostStopped(w.runs[r], Apply(w, a).runs[r])
  {
  }

  /** While a tick awaits the scorer or the publisher, everybody else together can at most stop its run. */
  lemma {:induction false} WhileInFlight(ws: seq<World>, acts: seq<Action>, k: nat, l: nat, r: nat)
    requires Behaviour(ws, acts) && k <= l < |ws| && r < |ws[k].runs| && ws[k].runs[r].inFlight
    requires forall i :: k <= i < l ==> !((acts[i].Answer? || acts[i].Published?) && acts[i].r == r)
    ensures r < |ws[l].runs|
    ensures AtMostStopped(ws[k].runs[r], ws[l].runs[r])
  {
    if k < l {
      WhileInFlight(ws, acts, k, l - 1, r);
      EveryRunIsOrderly(ws, acts, l - 1);
      OthersCanOnlyStop(ws[l - 1], acts[l - 1], r);
    }
  }

  // ---- a run can always be brought to its end -----------------------------------------------------

  function StepsLeft(run: Run): nat {
    if run.status != Running then 0
    else 3 * (if run.cursor <= |run.ids| then |run.ids| - run.cursor else 0) +
         if run.publishing then 1 else if run.inFlight then 2 else 0
  }

  /** The step a running run is waiting for. */
  function Next(run: Run, r: nat): Action {
    if run.publishing then Published(r) else if run.inFlight then Answer(r, true) else Tick(r)
  }

  lemma NextAdvances(w: World, r: nat)
    requires Orderly(w) && r < |w.runs| && w.runs[r].status == Running
    ensures Enabled(w, Next(w.runs[r], r))
    ensures var run := Apply(w, Next(w.runs[r], r)).runs[r];
            && StepsLeft(run) < StepsLeft(w.runs[r])
            && (run.status == Running || run.status == Completed)
  {
    assert Sound(w.runs[r]);
  }

  /** From every reachable world the running run completes in at most three steps
      per transaction left. */
  lemma {:induction false} RunCanComplete(ws: seq<World>, acts: seq<Action>, r: nat)
    returns (ws': seq<World>, acts': seq<Action>)
    requires Behaviour(ws, acts) && r < |ws[|acts|].runs| && ws[|acts|].runs[r].status == Running
    ensures Behaviour(ws', acts') && ws <= ws' && acts <= acts'
    ensures |acts'| <= |acts| + StepsLeft(ws[|acts|].runs[r])
    ensures r < |ws'[|acts'|].runs| && ws'[|acts'|].runs[r].status == Completed
    decreases StepsLeft(ws[|acts|].runs[r])
  {
    var w := ws[|acts|];
    EveryRunIsOrderly(ws, acts, |acts|);
    var a := Next(w.runs[r], r);
    NextAdvances(w, r);
    ws', acts' := ws + [Apply(w, a)], acts + [a];
    assert Behaviour(ws', acts');
    if ws'[|acts'|].runs[r].status == Running {
      ws', acts' := RunCanComplete(ws', acts', r);
    }
  }

  /** From `begun` over `b` after the first await and `p` after the second. */
  ghost predicate TickVia(begun: Run, b: Run, p: Run, ok: bool, end: Run) {
    && AtMostStopped(begun, b) && AtMostStopped(Answered(b, ok), p)
    && end == if ok then Closed(p) else Answered(b, false)
  }

  /** How a tick that sent something can end: at most a stop during either await. */
  ghost predicate TickEnds(begun: Run, ok: bool, end: Run) {
    exists b: Run, p: Run :: TickVia(begun, b, p, ok, end)
  }

  lemma StoppedIsSound(before: Run, after: Run)
    requires Sound(before) && AtMostStopped(before, after) && before.inFlight
    ensures Sound(after) && after.inFlight && after.publishing == before.publishing
  {
  }

  lemma TickIsSound(before: Run, ok: bool, end: Run)
    requires TickEnds(Began(before), ok, end) && !before.inFlight && Began(before).inFlight
    ensures Sound(before) && before.timer ==> Sound(end)
  {
    if Sound(before) && before.timer {
      BeganIsSound(before);
      var b: Run, p: Run :| TickVia(Began(before), b, p, ok, end);
      StoppedIsSound(Began(before), b);
      AnsweredIsSound(b, ok);
      if ok {
        StoppedIsSound(Answered(b, true), p);
        ClosedIsSound(p);
      }
    }
  }

  lemma TickCounts(begun: Run, ok: bool, end: Run)
    requires TickEnds(begun, ok, end)
    ensures end.scored == begun.scored + (if ok then 1 else 0)
    ensures end.failed == begun.failed + (if ok then 0 else 1)
    ensures !end.inFlight && !end.publishing && end.ids == begun.ids && end.log == begun.log
  {
    var b: Run, p: Run :| TickVia(begun, b, p, ok, end);
  }

  lemma IdleTickIsSound(before: Run)
    requires before.inFlight || !Began(before).inFlight
    ensures Sound(before) && before.timer ==> Sound(Began(before))
  {
  }

  // ---- the code --------------------------------------------------------------------------------------

  datatype StartError = AlreadyRunning | NothingToReplay
  datatype StopError = NotRunning | WrongRun

  class LiveRun {
    const id: nat
    const ids: seq<TxnId>
    var status: Status
    var cursor: nat
    var sent: nat
    var scored: nat
    var failed: nat
    var inFlight: bool
    var publishing: bool
    var timer: bool
    ghost var log: seq<TxnId>
    ghost var endings: nat

    ghost function View(): Run
      reads this
    {
      Run(ids, status, cursor, sent, scored, failed, inFlight, publishing, timer, log, endings)
    }

    constructor (id: nat, ids: seq<TxnId>)
      ensures View() == NewRun(ids) && this.id == id
    {
      this.id, this.ids := id, ids;
      status, cursor, sent, scored, failed := Running, 0, 0, 0, 0;
      inFlight, publishing, timer := false, false, true;
      log, endings := [], 0;
    }
  }

  /** The process-wide `activeRun`. */
  class Service {
    var activeRun: LiveRun?
    var nextId: nat

    constructor ()
      ensures activeRun == null
    {
      activeRun, nextId := null, 0;
    }

    method Finish(run: LiveRun, status: Status)
      modifies this, run
      ensures run.View() == Ended(old(run.View()), status) && activeRun == run
      ensures run.status == status && !run.timer && run.endings == old(run.endings) + 1
    {
      if run.timer {
        run.timer := false;
      }
      run.status := status;
      run.endings := run.endings + 1;
      activeRun := run;
    }

    /** An await of a tick: what `WhileInFlight` leaves to the rest of the process. */
    method AwaitOthers(run: LiveRun)
      requires run.inFlight
      modifies this, run
      ensures AtMostStopped(old(run.View()), run.View())
    {
    }

    /** `tick` up to its await; false when there was nothing to await. */
    method BeginTick(run: LiveRun) returns (sending: bool)
      modifies this, run
      ensures run.View() == Began(old(run.View()))
      ensures sending <==> !old(run.inFlight) && run.inFlight
    {
      if run.inFlight {
        return false;
      }
      if run.cursor >= |run.ids| {
        Finish(run, Completed);
        return false;
      }
      run.inFlight := true;
      run.log := run.log + [run.ids[run.cursor]];
      run.cursor := run.cursor + 1;
      run.sent := run.sent + 1;
      return true;
    }

    /** The scorer's answer; an error is counted and the tick closed. */
    method AnswerTick(run: LiveRun, ok: bool)
      modifies this, run
      ensures run.View() == Answered(old(run.View()), ok)
      ensures run.scored == old(run.scored) + (if ok then 1 else 0)
      ensures run.failed == old(run.failed) + (if ok then 0 else 1)
    {
      if ok {
        run.scored := run.scored + 1;
        run.publishing := true;
      } else {
        run.failed := run.failed + 1;
        CloseTick(run);
      }
    }

    method CloseTick(run: LiveRun)
      modifies this, run
      ensures run.View() == Closed(old(run.View()))
    {
      run.inFlight := false;
      run.publishing := false;
      if run.cursor >= |run.ids| && run.status == Running {
        Finish(run, Completed);
      }
    }

    /** `tick` from its first await on. */
    method EndTick(run: LiveRun, ok: bool)
      requires run.inFlight
      modifies this, run
      ensures TickEnds(old(run.View()), ok, run.View())
    {
      ghost var begun := run.View();
      AwaitOthers(run);
      ghost var b := run.View();
      AnswerTick(run, ok);
      ghost var p := run.View();
      if ok {
        AwaitOthers(run);
        p := run.View();
        CloseTick(run);
      }
      assert TickVia(begun, b, p, ok, run.View());
    }

    /** `tick`, with the scorer's answer: the steps of the step relation, and at most a
        stop during either await. Publishing never throws. */
    method RunTick(run: LiveRun, ok: bool)
      modifies this, run
      ensures old(Sound(run.View()) && run.timer) ==> Sound(run.View())
      ensures var begun := Began(old(run.View()));
              if old(run.inFlight) || !begun.inFlight then run.View() == begun else TickEnds(begun, ok, run.View())
      ensures if old(run.inFlight) || old(run.cursor) >= |run.ids|
              then run.sent == old(run.sent) && run.scored == old(run.scored) && run.failed == old(run.failed)
              else
                && run.sent == old(run.sent) + 1 && run.log == old(run.log) + [run.ids[old(run.cursor)]]
                && run.scored == old(run.scored) + (if ok then 1 else 0)
                && run.failed == old(run.failed) + (if ok then 0 else 1)
    {
      ghost var before := run.View();
      var sending := BeginTick(run);
      if !sending {
        IdleTickIsSound(before);
        return;
      }
      EndTick(run, ok);
      TickIsSound(before, ok, run.View());
      TickCounts(Began(before), ok, run.View());
    }

    /** `startSimulator`, with the rows the query returned. */
    method StartSimulator(rows: seq<TxnId>) returns (r: Result<LiveRun, StartError>)
      modifies this
      ensures r == Err(AlreadyRunning) <==> old(activeRun) != null && old(activeRun.status) == Running
      ensures r.Err? ==> activeRun == old(activeRun) && (r.error.NothingToReplay? ==> rows == [])
      ensures r.Ok? ==> fresh(r.value) && activeRun == r.value && r.value.View() == NewRun(rows) && rows != []
      ensures r.Ok? ==>
                && r.value.ids == rows && r.value.status == Running && r.value.timer && !r.value.inFlight
                && r.value.cursor == r.value.sent == r.value.scored == r.value.failed == 0
    {
      if activeRun != null && activeRun.status == Running {
        return Err(AlreadyRunning);
      }
      if |rows| == 0 {
        return Err(NothingToReplay);
      }
      var run := new LiveRun(nextId, rows);
      nextId := nextId + 1;
      activeRun := run;
      return Ok(run);
    }

    /** `stopSimulator`. */
    method StopSimulator(id: nat) returns (r: Result<LiveRun, StopError>)
      modifies this, if activeRun == null then {} else {activeRun}
      ensures activeRun == old(activeRun)
      ensures r.Ok? <==> old(activeRun) != null && old(activeRun.status) == Running && old(activeRun.id) == id
      ensures r.Ok? ==> r.value == old(activeRun) && r.value.View() == Ended(old(activeRun.View()), Stopped)
      ensures r.Ok? ==> r.value.status == Stopped && !r.value.timer
      ensures r.Err? && activeRun != null ==> activeRun.View() == old(activeRun.View())
      ensures r == Err(WrongRun) <==>
                old(activeRun) != null && old(activeRun.status) == Running && old(activeRun.id) != id
    {
      if activeRun == null || activeRun.status != Running {
        return Err(NotRunning);
      }
      if id != activeRun.id {
        return Err(WrongRun);
      }
      Finish(activeRun, Stopped);
      return Ok(activeRun);
    }
  }
}
