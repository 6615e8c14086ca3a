/** backend/src/middleware/rateLimit.js and demoAccountLimit.js: a fixed-window
    counter on one Redis key. The key is created by INCR without an expiry; EXPIRE
    follows as a separate command, which may come late, twice or never. */
module RateLimit {
  import opened Collections

  /** Commands as Redis executes them, at a time in milliseconds. An `Expire` may
      come from any request, however long ago that request was made. */
  datatype Event = Hit(at: int) | Expire(at: int)

  /** The key: `life` counts how often it has been created, `born` is when. */
  datatype Key = Key(life: nat, count: nat, born: int, expiry: Option<int>)

  const NO_KEY := Key(0, 0, 0, None)

  predicate Alive(k: Key, at: int) {
    k.life > 0 && (k.expiry.Some? ==> at < k.expiry.value)
  }

  function Step(k: Key, e: Event, window: int): Key {
    match e
    case Hit(at) => if Alive(k, at) then k.(count := k.count + 1) else Key(k.life + 1, 1, at, None)
    case Expire(at) => if Alive(k, at) then k.(expiry := Some(at + window)) else k
  }

  function Run(events: seq<Event>, window: int): Key {
    if events == [] then NO_KEY
    else Step(Run(events[..|events| - 1], window), events[|events| - 1], window)
  }

  /** What the limiter saw for one request: when, in which life of the key, and
      the count INCR returned. */
  datatype Seen = Seen(at: int, life: nat, count: nat)

  function History(events: seq<Event>, window: int): seq<Seen> {
    if events == [] then []
    else
      var before := events[..|events| - 1];
      var last := events[|events| - 1];
      if last.Expire? then History(before, window)
      else
        var k := Run(events, window);
        History(before, window) + [Seen(last.at, k.life, k.count)]
  }

  /** Redis runs commands one after another. */
  ghost predicate Timeline(events: seq<Event>) {
    forall i, j :: 0 <= i < j < |events| ==> events[i].at <= events[j].at
  }

  // ---- counting admissions -------------------------------------------------------

  predicate Admitted(s: Seen, max: nat) {
    s.count <= max
  }

  function InLife(h: seq<Seen>, life: nat, max: nat): nat {
    if h == [] then 0
    else InLife(h[..|h| - 1], life, max) +
         (if h[|h| - 1].life == life && Admitted(h[|h| - 1], max) then 1 else 0)
  }

  /** Admissions with lo <= at < hi. */
  function InWindow(h: seq<Seen>, lo: int, hi: int, max: nat): nat {
    if h == [] then 0
    else InWindow(h[..|h| - 1], lo, hi, max) +
         (if lo <= h[|h| - 1].at < hi && Admitted(h[|h| - 1], max) then 1 else 0)
  }

  // ---- invariants of a run -----------------------------------------------------------

  /** Every request is bounded in time by the life of the key it hit, and two
      lives apart means more than a window apart. */
  ghost predicate Consistent(h: seq<Seen>, k: Key, window: int, now: int) {
    && (k.life > 0 ==> k.born <= now)
    && (k.life > 0 && k.expiry.Some? ==> k.expiry.value >= k.born + window)
    && (forall i :: 0 <= i < |h| ==> SeenOk(h[i], k, window, now))
    && (forall i, j :: 0 <= i < j < |h| ==> Apart(h[i], h[j], window))
  }

  ghost predicate SeenOk(s: Seen, k: Key, window: int, now: int) {
    && 1 <= s.life <= k.life && s.count >= 1 && s.at <= now
    && (s.life == k.life ==> k.born <= s.at && (k.expiry.Some? ==> s.at < k.expiry.value))
    && (s.life < k.life ==> s.at < k.born)
    && (s.life + 2 <= k.life ==> s.at + window < k.born)
  }

  ghost predicate Apart(first: Seen, later: Seen, window: int) {
    && first.at <= later.at && first.life <= later.life
    && (first.life + 2 <= later.life ==> first.at + window < later.at)
  }

  lemma StepConsistent(h: seq<Seen>, k: Key, e: Event, window: int, now: int)
    requires window > 0 && Consistent(h, k, window, now) && now <= e.at
    requires k.life == 0 ==> h == []
    ensures var k' := Step(k, e, window);
            Consistent(if e.Hit? then h + [Seen(e.at, k'.life, k'.count)] else h, k', window, e.at)
  {
    var k' := Step(k, e, window);
    forall i | 0 <= i < |h| ensures SeenOk(h[i], k', window, e.at) {
      assert SeenOk(h[i], k, window, now);
    }
    if e.Hit? {
      var s := Seen(e.at, k'.life, k'.count);
      forall i | 0 <= i < |h| ensures Apart(h[i], s, window) {
        assert SeenOk(h[i], k', window, e.at) && SeenOk(h[i], k, window, now);
      }
    }
  }

  /** The time of the last command. */
  function Clock(events: seq<Event>): int {
    if events == [] then 0 else events[|events| - 1].at
  }

  lemma {:induction false} RunConsistent(events: seq<Event>, window: int)
    requires window > 0 && Timeline(events)
    ensures Consistent(History(events, window), Run(events, window), window, Clock(events))
    ensures Run(events, window).life == 0 ==> History(events, window) == []
  {
    if events != [] {
      var before, last := events[..|events| - 1], events[|events| - 1];
      RunConsistent(before, window);
      if before == [] {
        FirstConsistent(last, window);
      } else {
        assert Clock(before) <= last.at;
        StepConsistent(History(before, window), Run(before, window), last, window, Clock(before));
      }
    }
  }

  lemma FirstConsistent(e: Event, window: int)
    requires window > 0
    ensures Consistent(History([e], window), Run([e], window), window, e.at)
    ensures Run([e], window).life == 0 ==> History([e], window) == []
  {
    assert [e][..0] == [];
    assert Run([], window) == NO_KEY;
  }

  // ---- at most `max` per life -----------------------------------------------------------

  function Min(a: int, b: int): int { if a <= b then a else b }

  /** Within a life the counts are 1, 2, 3, ...: the admitted ones number
      min(count, max) in the current life and no more than `max` in any. */
  lemma {:induction false} AtMostMaxPerLife(events: seq<Event>, window: int, max: nat, life: nat)
    requires window > 0
    ensures InLife(History(events, window), life, max) <= max
    ensures life == Run(events, window).life > 0 ==>
              InLife(History(events, window), life, max) == Min(Run(events, window).count, max)
    ensures life > Run(events, window).life ==> InLife(History(events, window), life, max) == 0
  {
    if events != [] {
      var before := events[..|events| - 1];
      AtMostMaxPerLife(before, window, max, life);
      if events[|events| - 1].Hit? {
        var h := History(events, window);
        assert h[..|h| - 1] == History(before, window);
      }
    }
  }

  // ---- at most 2 * max - 1 per window ------------------------------------------------------

  lemma {:induction false} WindowInTwoLives(h: seq<Seen>, lo: int, hi: int, max: nat, life: nat)
    requires forall i :: 0 <= i < |h| && lo <= h[i].at < hi ==> life <= h[i].life <= life + 1
    ensures InWindow(h, lo, hi, max) <= InLife(h, life, max) + InLife(h, life + 1, max)
  {
    if h != [] {
      WindowInTwoLives(h[..|h| - 1], lo, hi, max, life);
    }
  }

  /** One admission of the first life that lies outside the window. */
  lemma {:induction false} WindowMissesOne(h: seq<Seen>, lo: int, hi: int, max: nat, life: nat, w: nat)
    requires forall i :: 0 <= i < |h| && lo <= h[i].at < hi ==> life <= h[i].life <= life + 1
    requires w < |h| && h[w].life == life && Admitted(h[w], max) && h[w].at < lo
    ensures InWindow(h, lo, hi, max) + 1 <= InLife(h, life, max) + InLife(h, life + 1, max)
  {
    var front := h[..|h| - 1];
    if w == |h| - 1 {
      WindowInTwoLives(front, lo, hi, max, life);
    } else {
      WindowMissesOne(front, lo, hi, max, life, w);
    }
  }

  lemma {:induction false} OneLifeOnly(h: seq<Seen>, lo: int, hi: int, max: nat, life: nat)
    requires forall i :: 0 <= i < |h| && lo <= h[i].at < hi ==> h[i].life == life
    ensures InWindow(h, lo, hi, max) <= InLife(h, life, max)
  {
    if h != [] {
      OneLifeOnly(h[..|h| - 1], lo, hi, max, life);
    }
  }

  lemma {:induction false} NoneInWindow(h: seq<Seen>, lo: int, hi: int, max: nat)
    requires forall i :: 0 <= i < |h| ==> !(lo <= h[i].at < hi)
    ensures InWindow(h, lo, hi, max) == 0
  {
    if h != [] {
      NoneInWindow(h[..|h| - 1], lo, hi, max);
    }
  }

  lemma LivesBounded(events: seq<Event>, window: int)
    requires window > 0 && Timeline(events)
    ensures forall j :: 0 <= j < |History(events, window)| ==>
              History(events, window)[j].life <= Run(events, window).life
  {
    RunConsistent(events, window);
    var h, k := History(events, window), Run(events, window);
    forall j | 0 <= j < |h| ensures h[j].life <= k.life {
      assert SeenOk(h[j], k, window, Clock(events));
    }
  }

  /** The request that creates a life has count 1; a later life begins at least a
      window after it. */
  lemma {:induction false} BirthOf(events: seq<Event>, window: int, i: nat) returns (b: nat)
    requires window > 0 && Timeline(events) && i < |History(events, window)|
    ensures var h := History(events, window);
            && b <= i && h[b].life == h[i].life && h[b].count == 1
            && (Run(events, window).life > h[b].life ==> Run(events, window).born >= h[b].at + window)
            && (Run(events, window).life == h[b].life ==> Run(events, window).born == h[b].at)
            && (forall j :: 0 <= j < |h| && h[j].life > h[b].life ==> h[j].at >= h[b].at + window)
  {
    var before, last := events[..|events| - 1], events[|events| - 1];
    RunConsistent(before, window);
    RunConsistent(events, window);
    var h, g := History(events, window), History(before, window);
    var k := Run(before, window);
    if i < |g| {
      b := BirthOf(before, window, i);
      assert SeenOk(g[i], k, window, Clock(before));
    } else {
      assert last.Hit? && h == g + [h[i]];
      if Alive(k, last.at) {
        var c := LifeHasHit(before, window);
        b := BirthOf(before, window, c);
      } else {
        b := i;
        LivesBounded(events, window);
      }
    }
  }

  lemma {:induction false} LifeHasHit(events: seq<Event>, window: int) returns (i: nat)
    requires Run(events, window).life > 0
    ensures i < |History(events, window)| && History(events, window)[i].life == Run(events, window).life
  {
    var before, last := events[..|events| - 1], events[|events| - 1];
    if last.Expire? {
      i := LifeHasHit(before, window);
    } else {
      i := |History(before, window)|;
    }
  }

  lemma {:induction false} FirstInWindow(h: seq<Seen>, lo: int, hi: int) returns (i: nat)
    requires exists j :: 0 <= j < |h| && lo <= h[j].at < hi
    ensures i < |h| && lo <= h[i].at < hi
    ensures forall j :: 0 <= j < i ==> !(lo <= h[j].at < hi)
  {
    if lo <= h[0].at < hi {
      i := 0;
    } else {
      var rest := h[1..];
      var j :| 0 <= j < |h| && lo <= h[j].at < hi;
      assert rest[j - 1] == h[j];
      var k := FirstInWindow(rest, lo, hi);
      i := k + 1;
      forall j | 0 <= j < i ensures !(lo <= h[j].at < hi) {
        if j > 0 { assert h[j] == rest[j - 1]; }
      }
    }
  }

  /** What the two bounds need of a history: lives two apart are more than a window
      apart, and no life admits more than `max`. */
  ghost predicate Bounded(h: seq<Seen>, window: int, max: nat) {
    && (forall i, j :: 0 <= i < j < |h| ==> Apart(h[i], h[j], window))
    && (forall life: nat :: InLife(h, life, max) <= max)
  }

  lemma HistoryIsBounded(events: seq<Event>, window: int, max: nat)
    requires window > 0 && Timeline(events)
    ensures Bounded(History(events, window), window, max)
  {
    RunConsistent(events, window);
    forall life: nat ensures InLife(History(events, window), life, max) <= max {
      AtMostMaxPerLife(events, window, max, life);
    }
  }

  /** An interval no longer than a window meets two lives at most, from the first
      request in it on. */
  lemma TwoLives(h: seq<Seen>, window: int, max: nat, lo: int, hi: int, i: nat)
    requires Bounded(h, window, max) && hi <= lo + window + 1
    requires i < |h| && lo <= h[i].at < hi && forall j :: 0 <= j < i ==> !(lo <= h[j].at < hi)
    ensures forall j :: 0 <= j < |h| && lo <= h[j].at < hi ==> h[i].life <= h[j].life <= h[i].life + 1
  {
    forall j | 0 <= j < |h| && lo <= h[j].at < hi ensures h[i].life <= h[j].life <= h[i].life + 1 {
      if i < j {
        assert Apart(h[i], h[j], window);
      }
    }
  }

  predicate NobodyIn(h: seq<Seen>, lo: int, hi: int) {
    forall j :: 0 <= j < |h| ==> !(lo <= h[j].at < hi)
  }

  /** The request that created a life, when a later life begins a window after it. */
  ghost predicate Birth(h: seq<Seen>, window: int, b: nat, life: nat) {
    && b < |h| && h[b].life == life && h[b].count == 1
    && (forall j :: 0 <= j < |h| && h[j].life > life ==> h[j].at >= h[b].at + window)
  }

  /** The request that created the first life seen lies before the interval, or inside
      it; in the latter case the interval ends before the next life can begin. */
  lemma FewerIn(h: seq<Seen>, window: int, max: nat, lo: int, i: nat, b: nat)
    requires max > 0 && Bounded(h, window, max) && b <= i < |h| && Birth(h, window, b, h[i].life)
    requires lo <= h[i].at < lo + window && forall j :: 0 <= j < i ==> !(lo <= h[j].at < lo + window)
    ensures InWindow(h, lo, lo + window, max) <= 2 * max - 1
  {
    var life := h[i].life;
    TwoLives(h, window, max, lo, lo + window, i);
    if h[b].at < lo {
      WindowMissesOne(h, lo, lo + window, max, life, b);
      assert InLife(h, life, max) <= max && InLife(h, life + 1, max) <= max;
    } else {
      OneLifeOnly(h, lo, lo + window, max, life);
    }
  }

  /** In any trace, however EXPIRE is delayed, repeated or lost, fewer than twice
      the limit are admitted in any half-open interval of one window. */
  lemma FewerThanTwicePerWindow(events: seq<Event>, window: int, max: nat, lo: int)
    requires window > 0 && max > 0 && Timeline(events)
    ensures InWindow(History(events, window), lo, lo + window, max) <= 2 * max - 1
  {
    var h := History(events, window);
    if NobodyIn(h, lo, lo + window) {
      NoneInWindow(h, lo, lo + window, max);
    } else {
      var i := FirstInWindow(h, lo, lo + window);
      HistoryIsBounded(events, window, max);
      var b := BirthOf(events, window, i);
      FewerIn(h, window, max, lo, i, b);
    }
  }

  lemma TwiceIn(h: seq<Seen>, window: int, max: nat, lo: int, hi: int)
    requires Bounded(h, window, max) && hi <= lo + window + 1
    ensures InWindow(h, lo, hi, max) <= 2 * max
  {
    if NobodyIn(h, lo, hi) {
      NoneInWindow(h, lo, hi, max);
    } else {
      var i := FirstInWindow(h, lo, hi);
      TwoLives(h, window, max, lo, hi, i);
      WindowInTwoLives(h, lo, hi, max, h[i].life);
    }
  }

  /** Closing the interval lets one more instant in, and twice the limit is
      reached: both ends of a window may each take a full allowance. */
  lemma AtMostTwicePerClosedWindow(events: seq<Event>, window: int, max: nat, lo: int)
    requires window > 0 && Timeline(events)
    ensures InWindow(History(events, window), lo, lo + window + 1, max) <= 2 * max
  {
    HistoryIsBounded(events, window, max);
    TwiceIn(History(events, window), window, max, lo, lo + window + 1);
  }

  // ---- both bounds are reached ------------------------------------------------------------------

  function Burst(at: int, n: nat): seq<Event> {
    if n == 0 then [] else Burst(at, n - 1) + [Hit(at)]
  }

  lemma {:induction false} BurstSpans(at: int, n: nat)
    ensures |Burst(at, n)| == n && forall i :: 0 <= i < n ==> Burst(at, n)[i] == Hit(at)
  {
    if n > 0 {
      BurstSpans(at, n - 1);
    }
  }

  /** Where a trace has got to: the key, and the admissions inside the window. */
  ghost predicate Stands(events: seq<Event>, w: Watch, k: Key, admitted: nat) {
    && Run(events, w.window) == k
    && InWindow(History(events, w.window), w.lo, w.hi, w.max) == admitted
  }

  datatype Watch = Watch(window: int, lo: int, hi: int, max: nat)

  lemma StandsStart(w: Watch)
    ensures Stands([], w, NO_KEY, 0)
  {
  }

  lemma StandsAfter(events: seq<Event>, e: Event, w: Watch, k: Key, admitted: nat)
    requires Stands(events, w, k, admitted)
    ensures var k' := Step(k, e, w.window);
            Stands(events + [e], w, k',
                   admitted + if e.Hit? && w.lo <= e.at < w.hi && k'.count <= w.max then 1 else 0)
  {
    Append(events, e, w.window);
    var h := History(events, w.window);
    if e.Hit? {
      var s := Seen(e.at, Run(events + [e], w.window).life, Run(events + [e], w.window).count);
      assert (h + [s])[..|h|] == h;
    }
  }

  /** One more command, unfolded once. */
  lemma Append(events: seq<Event>, e: Event, window: int)
    ensures Run(events + [e], window) == Step(Run(events, window), e, window)
    ensures History(events + [e], window) ==
              if e.Expire? then History(events, window)
              else History(events, window) +
                   [Seen(e.at, Run(events + [e], window).life, Run(events + [e], window).count)]
  {
    assert (events + [e])[..|events|] == events;
  }

  /** A burst on a living key raises its count by one each time; inside the window
      every request up to `max` is admitted. */
  lemma {:induction false} StandsBurst(events: seq<Event>, at: int, n: nat, w: Watch, k: Key, admitted: nat)
    requires Stands(events, w, k, admitted)
    requires Alive(k, at) && w.lo <= at < w.hi && k.count + n <= w.max
    ensures Stands(events + Burst(at, n), w, k.(count := k.count + n), admitted + n)
  {
    if n == 0 {
      assert events + Burst(at, 0) == events;
    } else {
      StandsBurst(events, at, n - 1, w, k, admitted);
      BurstGrows(events, at, n);
      StandsAfter(events + Burst(at, n - 1), Hit(at), w, k.(count := k.count + n - 1), admitted + n - 1);
    }
  }

  lemma BurstGrows(events: seq<Event>, at: int, n: nat)
    requires n > 0
    ensures events + Burst(at, n) == events + Burst(at, n - 1) + [Hit(at)]
  {
  }

  /** A client that opens a window, waits until `s`, spends the rest of its
      allowance, and spends the next one the instant the key has expired. */
  function Straddle(s: int, window: int, max: nat): seq<Event>
    requires max > 0
  {
    [Hit(0), Expire(0)] + Burst(s, max - 1) + [Hit(window)] + Burst(window, max - 1)
  }

  lemma StraddleIsATimeline(s: int, window: int, max: nat)
    requires max > 0 && 0 <= s < window
    ensures Timeline(Straddle(s, window, max))
  {
    BurstSpans(s, max - 1);
    BurstSpans(window, max - 1);
    var t := Straddle(s, window, max);
    forall i | 0 <= i < |t|
      ensures t[i].at == if i < 2 then 0 else if i < max + 1 then s else window {
    }
  }

  /** Both bounds are exact for every limit and every window: 2 * max - 1 in a
      half-open window, 2 * max once both of its ends count. */
  lemma BothBoundsAreReached(window: int, max: nat)
    requires window > 1 && max > 0
    ensures Timeline(Straddle(1, window, max)) && Timeline(Straddle(0, window, max))
    ensures InWindow(History(Straddle(1, window, max), window), 1, 1 + window, max) == 2 * max - 1
    ensures InWindow(History(Straddle(0, window, max), window), 0, window + 1, max) == 2 * max
  {
    StraddleIsATimeline(1, window, max);
    StraddleIsATimeline(0, window, max);
    StraddleAdmits(1, window, max, 1 + window);
    StraddleAdmits(0, window, max, window + 1);
  }

  /** A request on no key and its EXPIRE: the key stands, with one admission if the
      watch starts with it. */
  lemma StandsFirst(events: seq<Event>, w: Watch)
    requires Stands(events, w, NO_KEY, 0) && w.max > 0 && 0 <= w.lo && 0 < w.hi
    ensures Stands(events + [Hit(0)] + [Expire(0)], w, Key(1, 1, 0, Some(w.window)), if w.lo == 0 then 1 else 0)
  {
    StandsAfter(events, Hit(0), w, NO_KEY, 0);
    StandsAfter(events + [Hit(0)], Expire(0), w, Key(1, 1, 0, None), if w.lo == 0 then 1 else 0);
  }

  lemma StraddleEnds(spent: seq<Event>, w: Watch, admitted: nat)
    requires w.max > 0 && w.lo <= w.window < w.hi
    requires Stands(spent, w, Key(1, w.max, 0, Some(w.window)), admitted)
    ensures var end := spent + [Hit(w.window)] + Burst(w.window, w.max - 1);
            Stands(end, w, Key(2, w.max, w.window, None), admitted + w.max)
  {
    StandsAfter(spent, Hit(w.window), w, Key(1, w.max, 0, Some(w.window)), admitted);
    StandsBurst(spent + [Hit(w.window)], w.window, w.max - 1, w, Key(2, 1, w.window, None), admitted + 1);
  }

  lemma StraddleAdmits(s: int, window: int, max: nat, hi: int)
    requires max > 0 && 0 <= s < window < hi
    ensures InWindow(History(Straddle(s, window, max), window), s, hi, max) == 2 * max - if s == 0 then 0 else 1
  {
    var w := Watch(window, s, hi, max);
    var first := if s == 0 then 1 else 0;
    var started := [Hit(0), Expire(0)];
    StandsStart(w);
    StandsFirst([], w);
    assert [] + [Hit(0)] + [Expire(0)] == started;
    StandsBurst(started, s, max - 1, w, Key(1, 1, 0, Some(window)), first);
    StraddleEnds(started + Burst(s, max - 1), w, first + max - 1);
  }

  /** The published demo account: thirty logins an hour, counted globally. */
  const DEMO_LOGIN_LIMIT: nat := 30
  const DEMO_LOGIN_WINDOW_SECONDS: nat := 3600
  const DEMO_EMAIL := "demo@transactguard.com"

  /** The request at position `at` left the key as `seen`. */
  ghost predicate SeenAt(events: seq<Event>, at: nat, seen: Key, window: int) {
    at < |events| && events[at].Hit? && seen == Run(events[..at + 1], window)
  }

  lemma SeenNow(events: seq<Event>, key: Key, window: int, now: int)
    requires events != [] && events[|events| - 1].Hit? && Genuine(events, key, window, now)
    ensures SeenAt(events, |events| - 1, key, window)
  {
    assert events[..|events| - 1 + 1] == events;
  }

  lemma SeenGrows(events: seq<Event>, longer: seq<Event>, at: nat, seen: Key, window: int)
    requires SeenAt(events, at, seen, window) && events <= longer
    ensures SeenAt(longer, at, seen, window)
  {
    assert longer[..at + 1] == events[..at + 1];
  }

  /** What the limiter decides on is an entry of the history the bounds are about. */
  lemma {:induction false} SeenIsRecorded(events: seq<Event>, at: nat, seen: Key, window: int)
    requires SeenAt(events, at, seen, window)
    ensures Seen(events[at].at, seen.life, seen.count) in History(events, window)
  {
    var before := events[..|events| - 1];
    if at < |events| - 1 {
      assert before[..at + 1] == events[..at + 1];
      SeenIsRecorded(before, at, seen, window);
    } else {
      assert events[..at + 1] == events;
    }
  }

  /** The key is what these commands make of it, and none of them is yet to come. */
  ghost predicate Genuine(events: seq<Event>, key: Key, window: int, now: int) {
    && Timeline(events) && (events != [] ==> Clock(events) <= now)
    && key == Run(events, window)
  }

  lemma GenuineAfter(events: seq<Event>, e: Event, key: Key, window: int, now: int)
    requires Genuine(events, key, window, now) && e.at == now
    ensures Genuine(events + [e], Step(key, e, window), window, now)
  {
    Append(events, e, window);
  }

  // ---- the middleware -----------------------------------------------------------------------------

  datatype Reply =
    | Next
    | Allowed(remaining: nat, reset: int)
    | TooMany(retryAfter: int)
    | FailedOpen

  /** How far one exchange with Redis gets before it times out. */
  datatype Fate = NothingAnswered(counted: bool) | OnlyCountAnswered | AllAnswered

  /** One limiter in front of one Redis key; `now` is Redis's clock in milliseconds. */
  class Limiter {
    const max: nat
    const windowSeconds: nat
    var key: Key
    var now: int
    ghost var events: seq<Event>

    ghost function Window(): int {
      1000 * windowSeconds
    }

    ghost predicate Valid()
      reads this
    {
      windowSeconds > 0 && Genuine(events, key, Window(), now)
    }

    constructor (max: nat, windowSeconds: nat, now: int)
      requires windowSeconds > 0
      ensures Valid() && events == [] && this.max == max && this.windowSeconds == windowSeconds
    {
      this.max, this.windowSeconds, this.now := max, windowSeconds, now;
      key, events := NO_KEY, [];
    }

    /** Time passes; other requests run their commands, in time or long overdue. */
    method Await()
      requires Valid()
      modifies this
      ensures Valid() && now >= old(now) && old(events) <= events && key.life >= old(key.life)
    {
    }

    /** MULTI INCR TTL EXEC; the reply to TTL is -1 for a key without an expiry. */
    method IncrTtl() returns (count: nat, ttl: int)
      requires Valid()
      modifies this`key, this`events
      ensures Valid() && events == old(events) + [Hit(now)] && key == Step(old(key), Hit(now), Window())
      ensures key.life > 0 && count == key.count
      ensures ttl < 0 <==> key.expiry.None?
    {
      GenuineAfter(events, Hit(now), key, Window(), now);
      if Alive(key, now) {
        key := key.(count := key.count + 1);
      } else {
        key := Key(key.life + 1, 1, now, None);
      }
      count := key.count;
      ttl := if key.expiry.Some? then (key.expiry.value - now + 500) / 1000 else -1;
      events := events + [Hit(now)];
    }

    method Stamp()
      requires Valid() && key.life > 0
      modifies this`key, this`events
      ensures Valid() && events == old(events) + [Expire(now)] && key == Step(old(key), Expire(now), Window())
      ensures key.expiry.Some?
    {
      GenuineAfter(events, Expire(now), key, Window(), now);
      if Alive(key, now) {
        key := key.(expiry := Some(now + 1000 * windowSeconds));
      }
      events := events + [Expire(now)];
    }

    /** The first exchange: this request is command number `at`. */
    method Count() returns (count: nat, ttl: int, ghost at: nat)
      requires Valid()
      modifies this
      ensures Valid() && old(events) <= events && |old(events)| <= at
      ensures SeenAt(events, at, key, Window())
      ensures key.life > 0 && count == key.count && (ttl < 0 <==> key.expiry.None?)
    {
      Await();
      at := |events|;
      count, ttl := IncrTtl();
      SeenNow(events, key, Window(), now);
    }

    /** The second exchange, some time later. */
    method StampLate(ghost at: nat, ghost seen: Key)
      requires Valid() && key.life > 0 && SeenAt(events, at, seen, Window())
      modifies this
      ensures Valid() && old(events) <= events && SeenAt(events, at, seen, Window())
      ensures key.expiry.Some?
    {
      Await();
      Stamp();
      SeenGrows(old(events), events, at, seen, Window());
    }

    /** `rateLimiter`. The request is counted at position `at` of Redis's timeline,
        leaving the key as `seen`. When Redis answers, the decision is that count
        against `max`, and no answered request leaves the key without an expiry. */
    method RateLimiter(fate: Fate) returns (r: Reply, ghost at: nat, ghost seen: Key)
      requires Valid()
      modifies this
      ensures Valid() && old(events) <= events && r != Next
      ensures !fate.NothingAnswered? ==> SeenAt(events, at, seen, Window()) && at >= |old(events)|
      ensures r.FailedOpen? <==> fate.NothingAnswered? || (fate.OnlyCountAnswered? && seen.expiry.None?)
      ensures r.Allowed? ==> seen.count == max - r.remaining
      ensures r.TooMany? ==> seen.count > max
      ensures !r.FailedOpen? ==> key.expiry.Some?
    {
      at, seen := 0, NO_KEY;
      if fate == NothingAnswered(false) {
        return FailedOpen, at, seen;
      }
      var count, ttl;
      count, ttl, at := Count();
      seen := key;
      if fate.NothingAnswered? || (ttl < 0 && fate.OnlyCountAnswered?) {
        return FailedOpen, at, seen;
      }
      if ttl < 0 {
        StampLate(at, seen);
        ttl := windowSeconds;
      }
      if count > max {
        return TooMany(ttl), at, seen;
      }
      return Allowed(max - count, ttl), at, seen;
    }

    /** `demoAccountLimit`: other accounts never touch the key. */
    method DemoAccountLimit(email: string, fate: Fate) returns (r: Reply, ghost at: nat, ghost seen: Key)
      requires Valid() && max == DEMO_LOGIN_LIMIT && windowSeconds == DEMO_LOGIN_WINDOW_SECONDS
      modifies this
      ensures Valid() && old(events) <= events
      ensures email != DEMO_EMAIL ==> r == Next && unchanged(this)
      ensures email == DEMO_EMAIL ==>
                (r.FailedOpen? <==> fate.NothingAnswered? || (fate.OnlyCountAnswered? && seen.expiry.None?))
      ensures email == DEMO_EMAIL && !r.FailedOpen? ==>
                && SeenAt(events, at, seen, 3600000) && key.expiry.Some?
                && (if seen.count <= 30 then r.Allowed? && r.remaining == 30 - seen.count else r.TooMany?)
    {
      at, seen := 0, NO_KEY;
      if email != DEMO_EMAIL {
        return Next, at, seen;
      }
      r, at, seen := RateLimiter(fate);
    }
  }
}
