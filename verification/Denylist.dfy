/** backend/src/config/redis.js, backend/src/utils/tokens.js, the logout and refresh
    operations of auth.service.js and the authenticate middleware: a token is a
    bearer of claims until it expires or its id is put on the Redis denylist.
    Instants are in milliseconds; a token's `exp` is in whole seconds. */
module Denylist {
  import opened Collections

  // ---- tokens ---------------------------------------------------------------------

  datatype Kind = AccessToken | RefreshToken

  /** A missing `jti` is the empty string; a missing `exp` is None. */
  datatype Claims = Claims(jti: string, sub: string, kind: Kind, exp: Option<nat>)

  /** What a client presents: a string no secret signed, or signed claims. */
  datatype Bearer = Unverifiable | Signed(secret: Kind, claims: Claims)

  datatype AuthError =
    | TokenMissing | TokenInvalid | TokenExpired | TokenWrongType | TokenRevoked
    | AccountInactive | ServiceUnavailable

  const ACCESS_SECONDS: nat := 900
  const REFRESH_SECONDS: nat := 604800

  function Mint(kind: Kind, jti: string, sub: string, at: nat): Claims {
    Claims(jti, sub, kind, Some(at / 1000 + if kind.AccessToken? then ACCESS_SECONDS else REFRESH_SECONDS))
  }

  /** Tokens as this system signs them. */
  predicate Minted(c: Claims) {
    c.jti != "" && c.exp.Some? && c.exp.value > 0
  }

  predicate Expired(c: Claims, at: nat) {
    c.exp.Some? && at / 1000 >= c.exp.value
  }

  function Verify(token: Bearer, expected: Kind, at: nat): Result<Claims, AuthError> {
    if token.Unverifiable? || token.secret != expected then Err(TokenInvalid)
    else if Expired(token.claims, at) then Err(TokenExpired)
    else if token.claims.kind != expected then Err(TokenWrongType)
    else Ok(token.claims)
  }

  function SecondsUntilExpiry(exp: Option<nat>, at: nat): nat {
    if exp.None? || exp.value <= at / 1000 then 0 else exp.value - at / 1000
  }

  /** A token is accepted from its minting until its life in whole seconds is over,
      give or take the second lost in flooring, and never in the other kind's place. */
  lemma TokenLifetime(kind: Kind, jti: string, sub: string, at: nat, later: nat)
    requires jti != "" && at <= later
    ensures var c, life := Mint(kind, jti, sub, at), if kind.AccessToken? then 900_000 else 604_800_000;
            && Minted(c)
            && (later - at <= life - 1000 ==> Verify(Signed(kind, c), kind, later) == Ok(c))
            && (later - at >= life ==> Verify(Signed(kind, c), kind, later) == Err(TokenExpired))
            && forall other :: other != kind ==> Verify(Signed(kind, c), other, later) == Err(TokenInvalid)
  {
  }

  // ---- the denylist as a trace of SET commands ---------------------------------------

  /** A SET that Redis executed at `setAt`, its TTL worked out earlier. */
  datatype Revocation = Revocation(jti: string, exp: nat, computedAt: nat, setAt: nat)

  /** `revokeToken` sends a SET only for a token with an id and some life left. */
  predicate Sent(r: Revocation) {
    r.jti != "" && r.computedAt <= r.setAt && SecondsUntilExpiry(Some(r.exp), r.computedAt) > 0
  }

  function EntryOf(r: Revocation): int {
    r.setAt + 1000 * SecondsUntilExpiry(Some(r.exp), r.computedAt)
  }

  /** When the entry of `jti` expires: the last SET overwrites. */
  function Entry(trace: seq<Revocation>, jti: string): Option<int> {
    if trace == [] then None
    else if trace[|trace| - 1].jti == jti then Some(EntryOf(trace[|trace| - 1]))
    else Entry(trace[..|trace| - 1], jti)
  }

  predicate Present(trace: seq<Revocation>, jti: string, at: nat) {
    Entry(trace, jti).Some? && at < Entry(trace, jti).value
  }

  ghost predicate RevokedIn(trace: seq<Revocation>, jti: string) {
    exists i :: 0 <= i < |trace| && trace[i].jti == jti
  }

  /** The commands executed so far, all about tokens whose ids are unique. */
  ghost predicate Consistent(trace: seq<Revocation>, c: Claims) {
    && (forall i :: 0 <= i < |trace| ==> Sent(trace[i]))
    && (forall i :: 0 <= i < |trace| && trace[i].jti == c.jti ==> c.exp == Some(trace[i].exp))
  }

  /** No SET waited longer than `delay` between the arithmetic and its execution. */
  ghost predicate Prompt(trace: seq<Revocation>, jti: string, delay: nat) {
    forall i :: 0 <= i < |trace| && trace[i].jti == jti ==> trace[i].setAt - trace[i].computedAt <= delay
  }

  /** A request verified at `verifiedAt` and looked up in the denylist at `checkedAt`. */
  predicate Admits(trace: seq<Revocation>, c: Claims, verifiedAt: nat, checkedAt: nat) {
    !Expired(c, verifiedAt) && !Present(trace, c.jti, checkedAt)
  }

  // ---- what revocation guarantees ---------------------------------------------------------

  lemma EntryBrackets(r: Revocation)
    requires Sent(r)
    ensures 1000 * r.exp <= EntryOf(r) <= 1000 * r.exp + (r.setAt - r.computedAt) + 999
  {
  }

  /** Every SET, first or repeated, leaves an entry that outlives the token, and not
      by more than the delay before SET and the second lost in flooring. */
  lemma {:induction false} EntryOutlivesToken(trace: seq<Revocation>, c: Claims, delay: nat)
    requires Consistent(trace, c) && Prompt(trace, c.jti, delay)
    ensures Entry(trace, c.jti).Some? <==> RevokedIn(trace, c.jti)
    ensures Entry(trace, c.jti).Some? ==>
              c.exp.Some? && 1000 * c.exp.value <= Entry(trace, c.jti).value <= 1000 * c.exp.value + delay + 999
  {
    if trace != [] {
      var before, last := trace[..|trace| - 1], trace[|trace| - 1];
      EntryOutlivesToken(before, c, delay);
      EntryBrackets(last);
      if last.jti != c.jti && RevokedIn(trace, c.jti) {
        var i :| 0 <= i < |trace| && trace[i].jti == c.jti;
        assert before[i].jti == c.jti;
      }
    }
  }

  /** Some bound on how long the commands so far have waited. */
  ghost function LongestDelay(trace: seq<Revocation>): (delay: nat)
    requires forall i :: 0 <= i < |trace| ==> Sent(trace[i])
    ensures forall i :: 0 <= i < |trace| ==> trace[i].setAt - trace[i].computedAt <= delay
  {
    if trace == [] then 0
    else
      var before, last := LongestDelay(trace[..|trace| - 1]), trace[|trace| - 1];
      if last.setAt - last.computedAt > before then last.setAt - last.computedAt else before
  }

  lemma RevocationPersists(trace: seq<Revocation>, longer: seq<Revocation>, jti: string)
    requires trace <= longer && RevokedIn(trace, jti)
    ensures RevokedIn(longer, jti)
  {
    var i :| 0 <= i < |trace| && trace[i].jti == jti;
    assert longer[i] == trace[i];
  }

  /** A revoked token is turned away by every request that reads the denylist before
      the token's expiry, and by every request that verifies it after. */
  lemma RevokedIsRejected(trace: seq<Revocation>, c: Claims, verifiedAt: nat, checkedAt: nat)
    requires Consistent(trace, c) && RevokedIn(trace, c.jti)
    requires c.exp.Some? && (checkedAt < 1000 * c.exp.value || verifiedAt >= 1000 * c.exp.value)
    ensures !Admits(trace, c, verifiedAt, checkedAt)
  {
    EntryOutlivesToken(trace, c, LongestDelay(trace));
  }

  /** Exactly one family of requests gets a revoked token through: verified before
      the expiry, looked up once the entry is gone. An entry that took its time to be
      set closes part of the gap. */
  lemma RevokedAdmittedExactly(trace: seq<Revocation>, c: Claims, verifiedAt: nat, checkedAt: nat, delay: nat)
    requires Consistent(trace, c) && Prompt(trace, c.jti, delay) && RevokedIn(trace, c.jti)
    ensures c.exp.Some? && Entry(trace, c.jti).Some?
    ensures Admits(trace, c, verifiedAt, checkedAt) <==>
              verifiedAt < 1000 * c.exp.value <= Entry(trace, c.jti).value <= checkedAt
    ensures checkedAt >= 1000 * c.exp.value + delay + 999 ==> !Present(trace, c.jti, checkedAt)
  {
    EntryOutlivesToken(trace, c, delay);
    assert Expired(c, verifiedAt) <==> verifiedAt >= 1000 * c.exp.value;
  }

  /** Once logout has revoked a token, every later request with it is turned away,
      whatever else has been revoked since, except those verified before its expiry
      and looked up once its entry is gone. */
  lemma LoggedOutStaysOut(atLogout: seq<Revocation>, later: seq<Revocation>, c: Claims,
                          verifiedAt: nat, checkedAt: nat)
    requires RevokedIn(atLogout, c.jti) && atLogout <= later && Consistent(later, c)
    ensures c.exp.Some? && Entry(later, c.jti).Some?
    ensures Admits(later, c, verifiedAt, checkedAt) <==>
              verifiedAt < 1000 * c.exp.value <= Entry(later, c.jti).value <= checkedAt
    ensures checkedAt < 1000 * c.exp.value ==> !Admits(later, c, verifiedAt, checkedAt)
  {
    RevocationPersists(atLogout, later, c.jti);
    RevokedAdmittedExactly(later, c, verifiedAt, checkedAt, LongestDelay(later));
  }

  /** Revocations of other tokens never touch this one. */
  lemma UnrevokedIsAdmitted(trace: seq<Revocation>, c: Claims, verifiedAt: nat, checkedAt: nat)
    requires Consistent(trace, c) && !RevokedIn(trace, c.jti)
    ensures Admits(trace, c, verifiedAt, checkedAt) <==> !Expired(c, verifiedAt)
  {
    EntryOutlivesToken(trace, c, 0);
  }

  /** The gap is real: a request one millisecond before the expiry whose lookup runs
      one millisecond later, against an entry set on a whole second. */
  lemma StraddlingRequestIsAdmitted()
    ensures exists trace: seq<Revocation>, c: Claims, verifiedAt: nat, checkedAt: nat ::
              && Consistent(trace, c) && RevokedIn(trace, c.jti) && Minted(c)
              && checkedAt == verifiedAt + 1 && Admits(trace, c, verifiedAt, checkedAt)
  {
    var c := Claims("a", "u", AccessToken, Some(900));
    var trace := [Revocation("a", 900, 1000, 1000)];
    assert trace[0].jti == c.jti;
    assert Entry(trace, c.jti) == Some(900000);
    assert Consistent(trace, c) && RevokedIn(trace, c.jti) && Admits(trace, c, 899999, 900000);
  }

  // ---- logout ------------------------------------------------------------------------------

  /** A Redis command is answered in time, or is not; the latter may still have run. */
  datatype Fate = Answered | Lost(landed: bool)

  datatype Revoked = Revoked(accessToken: bool, refreshToken: bool)

  /** `revokeToken` reports, for a TTL worked out at `at`. */
  function RevokeReport(c: Claims, at: nat, fate: Fate): Result<bool, AuthError> {
    if c.jti == "" || SecondsUntilExpiry(c.exp, at) == 0 then Ok(false)
    else if fate.Answered? then Ok(true)
    else Err(ServiceUnavailable)
  }

  /** What `logoutUser` answers; the access token was sized at `first`, the refresh
      token verified and sized at `second`. */
  function LogoutReport(user: Claims, presented: Option<Bearer>, first: nat, second: nat, fate: Fate, fate2: Fate)
    : Result<Revoked, AuthError>
  {
    var access := RevokeReport(user, first, fate);
    if access.Err? then Err(access.error)
    else Ok(Revoked(access.value, RefreshReport(user, presented, second, fate2)))
  }

  /** What it answers of the refresh token. */
  function RefreshReport(user: Claims, presented: Option<Bearer>, second: nat, fate2: Fate): bool {
    presented.Some? &&
    var verified := Verify(presented.value, RefreshToken, second);
    verified.Ok? && verified.value.sub == user.sub && RevokeReport(verified.value, second, fate2) == Ok(true)
  }

  /** The caller's own refresh token, genuine and alive. */
  predicate OwnRefresh(user: Claims, presented: Option<Bearer>, at: nat) {
    && presented.Some? && presented.value.Signed? && Minted(presented.value.claims)
    && Verify(presented.value, RefreshToken, at).Ok? && presented.value.claims.sub == user.sub
  }

  /** `jti` is the id of a refresh token of the caller, the one presented. */
  predicate OwnedBy(jti: string, user: Claims, presented: Option<Bearer>, at: nat) {
    && presented.Some? && presented.value.Signed? && presented.value.claims.jti == jti
    && Verify(presented.value, RefreshToken, at).Ok? && presented.value.claims.sub == user.sub
  }

  /** Logout never reports success while the access token stays usable. */
  lemma LogoutOfAccessToken(user: Claims, presented: Option<Bearer>, first: nat, second: nat, fate: Fate, fate2: Fate)
    requires Minted(user)
    ensures var r := LogoutReport(user, presented, first, second, fate, fate2);
            && (r.Err? <==> !Expired(user, first) && fate.Lost?)
            && (r.Ok? ==> (r.value.accessToken <==> !Expired(user, first)))
  {
  }

  /** The caller's own live refresh token is revoked by a successful logout exactly
      when Redis answers the second SET: an outage at that point is swallowed. */
  lemma LogoutOfRefreshToken(user: Claims, c: Claims, first: nat, second: nat, fate: Fate, fate2: Fate)
    requires Minted(c) && c.kind.RefreshToken? && c.sub == user.sub && !Expired(c, second)
    ensures var r := LogoutReport(user, Some(Signed(RefreshToken, c)), first, second, fate, fate2);
            r.Ok? ==> (r.value.refreshToken <==> fate2.Answered?)
  {
  }

  /** Nobody can revoke somebody else's refresh token, nor an access token in its place. */
  lemma OnlyOwnRefreshTokens(user: Claims, presented: Bearer, first: nat, second: nat, fate: Fate, fate2: Fate)
    ensures var r := LogoutReport(user, Some(presented), first, second, fate, fate2);
            r.Ok? && r.value.refreshToken ==>
              && presented.Signed? && presented.secret.RefreshToken? && presented.claims.kind.RefreshToken?
              && presented.claims.sub == user.sub && !Expired(presented.claims, second)
  {
  }

  /** The SET that a `revokeToken` sized at `at` leaves in Redis, if it runs, at `setAt`. */
  function SetsOf(c: Claims, at: nat, fate: Fate, setAt: nat): seq<Revocation> {
    if c.jti == "" || SecondsUntilExpiry(c.exp, at) == 0 || fate == Lost(false) then []
    else [Revocation(c.jti, c.exp.value, at, setAt)]
  }

  lemma RevokedAmong(before: seq<Revocation>, set1: seq<Revocation>, after: seq<Revocation>, jti: string)
    ensures RevokedIn(before + set1 + after, jti) <==>
              RevokedIn(before, jti) || RevokedIn(set1, jti) || RevokedIn(after, jti)
  {
    var all := before + set1 + after;
    if i :| 0 <= i < |before| && before[i].jti == jti {
      assert all[i] == before[i];
    }
    if i :| 0 <= i < |set1| && set1[i].jti == jti {
      assert all[|before| + i] == set1[i];
    }
    if i :| 0 <= i < |after| && after[i].jti == jti {
      assert all[|before| + |set1| + i] == after[i];
    }
  }

  /** What a logout does to the caller's own live refresh token, in a timeline where
      nothing else revokes it: until its expiry it stays usable exactly when the SET
      never ran. The report is another matter: it calls the token not revoked as soon
      as Redis does not answer, whether the SET ran or not. */
  lemma RefreshStaysUsableExactly(before: seq<Revocation>, after: seq<Revocation>, c: Claims, second: nat,
                                  fate2: Fate, setAt: nat, verifiedAt: nat, checkedAt: nat)
    requires Minted(c) && c.kind.RefreshToken? && !Expired(c, second)
    requires Consistent(before + SetsOf(c, second, fate2, setAt) + after, c)
    requires !RevokedIn(before, c.jti) && !RevokedIn(after, c.jti)
    requires !Expired(c, verifiedAt) && checkedAt < 1000 * c.exp.value
    ensures Admits(before + SetsOf(c, second, fate2, setAt) + after, c, verifiedAt, checkedAt) <==> fate2 == Lost(false)
  {
    var sets := SetsOf(c, second, fate2, setAt);
    RevokedAmong(before, sets, after, c.jti);
    if fate2 == Lost(false) {
      UnrevokedIsAdmitted(before + sets + after, c, verifiedAt, checkedAt);
    } else {
      assert sets[0].jti == c.jti;
      RevokedIsRejected(before + sets + after, c, verifiedAt, checkedAt);
    }
  }

  /** An outage that begins after the first SET: the logout succeeds, and a second later
      the refresh token still verifies and is not on the denylist. */
  lemma OutageLeavesRefreshTokenUsable()
    ensures exists user: Claims, c: Claims, trace: seq<Revocation>, at: nat, later: nat ::
              && Minted(user) && Minted(c) && c.kind.RefreshToken? && c.sub == user.sub && later == at + 1000
              && LogoutReport(user, Some(Signed(RefreshToken, c)), at, at, Answered, Lost(false))
                 == Ok(Revoked(true, false))
              && trace == SetsOf(user, at, Answered, at) + SetsOf(c, at, Lost(false), at)
              && Consistent(trace, user) && RevokedIn(trace, user.jti)
              && Consistent(trace, c) && Verify(Signed(RefreshToken, c), RefreshToken, later) == Ok(c)
              && Admits(trace, c, later, later)
  {
    var user, c := Mint(AccessToken, "a", "u", 1000), Mint(RefreshToken, "r", "u", 1000);
    var trace := SetsOf(user, 1000, Answered, 1000) + SetsOf(c, 1000, Lost(false), 1000);
    assert trace == [Revocation("a", 901, 1000, 1000)];
    assert trace[0].jti == user.jti;
    UnrevokedIsAdmitted(trace, c, 2000, 2000);
  }

  // ---- the code ---------------------------------------------------------------------------------

  class Auth {
    var entries: map<string, int>
    var now: nat
    var logouts: seq<Revoked>
    ghost var trace: seq<Revocation>
    ghost var issued: seq<Revocation>

    ghost predicate Valid()
      reads this
    {
      && (forall i :: 0 <= i < |trace| ==> Sent(trace[i]) && trace[i].setAt <= now)
      && Mirrors(entries, trace)
    }

    constructor (now: nat)
      ensures Valid() && trace == [] && issued == [] && logouts == []
    {
      this.now, entries, logouts, trace, issued := now, map[], [], [], [];
    }

    /** Time passes while other requests, overdue commands included, reach Redis. */
    method Await()
      requires Valid()
      modifies this`entries, this`now, this`trace
      ensures Valid() && now >= old(now) && old(trace) <= trace
    {
    }

    /** SET with EX; `issued` keeps the commands this process has issued, `trace` holds
        everybody's. */
    method Set(jti: string, ttl: nat, ghost exp: nat, ghost computedAt: nat)
      requires Valid() && ttl == SecondsUntilExpiry(Some(exp), computedAt) > 0 && jti != "" && computedAt <= now
      modifies this`entries, this`trace, this`issued
      ensures Valid() && trace == old(trace) + [Revocation(jti, exp, computedAt, now)]
      ensures issued == old(issued) + [Revocation(jti, exp, computedAt, now)]
    {
      MirrorsAfter(entries, trace, Revocation(jti, exp, computedAt, now));
      entries := entries[jti := now + 1000 * ttl];
      trace := trace + [Revocation(jti, exp, computedAt, now)];
      issued := issued + [Revocation(jti, exp, computedAt, now)];
    }

    /** `revokeToken`, called with the seconds left at `at`. */
    method RevokeToken(jti: string, ttlSeconds: nat, fate: Fate, ghost c: Claims, ghost at: nat)
      returns (r: Result<bool, AuthError>)
      requires Valid() && jti == c.jti && ttlSeconds == SecondsUntilExpiry(c.exp, at) && at <= now
      modifies this`entries, this`now, this`trace, this`issued
      ensures Valid() && now >= old(now) && old(trace) <= trace
      ensures issued == old(issued) + SetsOf(c, at, fate, now)
      ensures r == RevokeReport(c, at, fate)
      ensures r == Ok(true) ==> RevokedIn(trace, jti)
      ensures jti == "" || ttlSeconds == 0 ==> trace == old(trace) && entries == old(entries)
      ensures jti != "" && ttlSeconds > 0 && fate != Lost(false) ==> RevokedIn(trace, jti)
    {
      if jti == "" {
        return Ok(false);
      }
      if ttlSeconds <= 0 {
        return Ok(false);
      }
      Await();
      if fate == Lost(false) {
        return Err(ServiceUnavailable);
      }
      Set(jti, ttlSeconds, c.exp.value, at);
      assert trace[|trace| - 1].jti == jti;
      if fate.Lost? {
        return Err(ServiceUnavailable);
      }
      return Ok(true);
    }

    /** `isTokenRevoked`: closed when Redis does not answer. */
    method IsTokenRevoked(jti: string, fate: Fate) returns (r: Result<bool, AuthError>)
      requires Valid()
      modifies this`entries, this`now, this`trace
      ensures Valid() && now >= old(now) && old(trace) <= trace
      ensures jti == "" ==> r == Ok(false) && trace == old(trace)
      ensures jti != "" && fate.Lost? ==> r == Err(ServiceUnavailable)
      ensures jti != "" && fate.Answered? ==> r == Ok(Present(trace, jti, now))
    {
      if jti == "" {
        return Ok(false);
      }
      Await();
      if fate.Lost? {
        return Err(ServiceUnavailable);
      }
      return Ok(jti in entries && now < entries[jti]);
    }

    /** `authenticate`: who gets past is exactly who verifies at the start and is not
        found on the denylist at the end. */
    method Authenticate(token: Option<Bearer>, fate: Fate) returns (r: Result<Claims, AuthError>)
      requires Valid()
      modifies this`entries, this`now, this`trace
      ensures Valid() && now >= old(now) && old(trace) <= trace
      ensures r.Ok? ==> token.Some? && Ok(r.value) == Verify(token.value, AccessToken, old(now))
      ensures r.Ok? && r.value.jti != "" ==> fate.Answered? && Admits(trace, r.value, old(now), now)
      ensures token.None? ==> r == Err(TokenMissing)
      ensures token.Some? ==>
                var v := Verify(token.value, AccessToken, old(now));
                && (v.Err? || v.value.jti == "" ==> r == v)
                && (v.Ok? && v.value.jti != "" && fate.Lost? ==> r == Err(ServiceUnavailable))
                && (v.Ok? && v.value.jti != "" && fate.Answered? ==>
                    r == if Present(trace, v.value.jti, now) then Err(TokenRevoked) else v)
    {
      if token.None? {
        return Err(TokenMissing);
      }
      var payload := Verify(token.value, AccessToken, now);
      if payload.Err? {
        return payload;
      }
      var revoked := IsTokenRevoked(payload.value.jti, fate);
      if revoked.Err? {
        return Err(revoked.error);
      }
      if revoked.value {
        return Err(TokenRevoked);
      }
      return payload;
    }

    /** `refreshAccessToken`; `active` is what the user table says of an account. */
    method RefreshAccessToken(token: Bearer, active: set<string>, jti: string, fate: Fate)
      returns (r: Result<Claims, AuthError>)
      requires Valid()
      modifies this`entries, this`now, this`trace
      ensures Valid() && now >= old(now) && old(trace) <= trace
      ensures r.Ok? ==>
                var v := Verify(token, RefreshToken, old(now));
                && v.Ok? && v.value.sub in active && r.value == Mint(AccessToken, jti, v.value.sub, now)
                && (v.value.jti != "" ==> fate.Answered? && Admits(trace, v.value, old(now), now))
      ensures var v := Verify(token, RefreshToken, old(now));
              if v.Err? then r == v
              else if v.value.jti != "" && fate.Lost? then r == Err(ServiceUnavailable)
              else if v.value.jti != "" && Present(trace, v.value.jti, now) then r == Err(TokenRevoked)
              else if v.value.sub !in active then r == Err(AccountInactive)
              else r.Ok? && r.value.sub == v.value.sub && r.value.kind.AccessToken?
    {
      var payload := Verify(token, RefreshToken, now);
      if payload.Err? {
        return payload;
      }
      var revoked := IsTokenRevoked(payload.value.jti, fate);
      if revoked.Err? {
        return Err(revoked.error);
      }
      if revoked.value {
        return Err(TokenRevoked);
      }
      if payload.value.sub !in active {
        return Err(AccountInactive);
      }
      return Ok(Mint(AccessToken, jti, payload.value.sub, now));
    }

    /** The second half of a logout: only a refresh token of the caller is honoured, and
        whatever goes wrong with it is swallowed. */
    method RevokeRefresh(user: Claims, presented: Option<Bearer>, fate2: Fate) returns (revoked: bool)
      requires Valid()
      modifies this`entries, this`now, this`trace, this`issued
      ensures Valid() && now >= old(now) && old(trace) <= trace
      ensures old(issued) <= issued
      ensures forall k :: |old(issued)| <= k < |issued| ==> OwnedBy(issued[k].jti, user, presented, old(now))
      ensures revoked == RefreshReport(user, presented, old(now), fate2)
      ensures revoked ==> presented.Some? && presented.value.Signed? && RevokedIn(trace, presented.value.claims.jti)
      ensures OwnRefresh(user, presented, old(now)) && fate2 != Lost(false) ==>
                RevokedIn(trace, presented.value.claims.jti)
    {
      revoked := false;
      if presented.Some? {
        var payload := Verify(presented.value, RefreshToken, now);
        if payload.Ok? && payload.value.sub == user.sub {
          var c := payload.value;
          var again := RevokeToken(c.jti, SecondsUntilExpiry(c.exp, now), fate2, c, now);
          revoked := again.Ok? && again.value;
        }
      }
    }

    /** `logoutUser`. What it reports as revoked is on the denylist; the report itself,
        which also goes into the audit entry, is `LogoutReport`. */
    method LogoutUser(user: Claims, presented: Option<Bearer>, fate: Fate, fate2: Fate)
      returns (r: Result<Revoked, AuthError>, ghost second: nat)
      requires Valid()
      modifies this
      ensures Valid() && old(now) <= second <= now && old(trace) <= trace
      ensures r == LogoutReport(user, presented, old(now), second, fate, fate2)
      ensures r.Ok? && r.value.accessToken ==> RevokedIn(trace, user.jti)
      ensures Minted(user) && !Expired(user, old(now)) && fate != Lost(false) ==> RevokedIn(trace, user.jti)
      ensures r.Ok? && r.value.refreshToken ==>
                presented.Some? && presented.value.Signed? && RevokedIn(trace, presented.value.claims.jti)
      ensures r.Ok? && OwnRefresh(user, presented, second) && fate2 != Lost(false) ==>
                RevokedIn(trace, presented.value.claims.jti)
      ensures logouts == if r.Ok? then old(logouts) + [r.value] else old(logouts)
      ensures old(issued) <= issued
      ensures forall k :: |old(issued)| <= k < |issued| ==>
                issued[k].jti == user.jti || OwnedBy(issued[k].jti, user, presented, second)
    {
      var revoked := Revoked(false, false);
      var first := RevokeToken(user.jti, SecondsUntilExpiry(user.exp, now), fate, user, now);
      second := now;
      if first.Err? {
        return Err(first.error), second;
      }
      revoked := revoked.(accessToken := first.value);
      ghost var soFar := trace;
      var again := RevokeRefresh(user, presented, fate2);
      revoked := revoked.(refreshToken := again);
      if Minted(user) && !Expired(user, old(now)) {
        RevocationPersists(soFar, trace, user.jti);
      }
      logouts := logouts + [revoked];
      return Ok(revoked), second;
    }
  }

  /** The map Redis holds is the trace read backwards. */
  ghost predicate Mirrors(entries: map<string, int>, trace: seq<Revocation>) {
    forall jti :: Entry(trace, jti) == if jti in entries then Some(entries[jti]) else None
  }

  lemma MirrorsAfter(entries: map<string, int>, trace: seq<Revocation>, r: Revocation)
    requires Mirrors(entries, trace)
    ensures Mirrors(entries[r.jti := EntryOf(r)], trace + [r])
  {
    assert (trace + [r])[..|trace|] == trace;
  }

  /** A logout, any amount of traffic, and a request with the same access token: if the
      request gets through, it straddled the token's expiry. */
  method LogoutThenRequest(auth: Auth, c: Claims, fate: Fate, fate2: Fate, fate3: Fate)
    returns (out: Result<Revoked, AuthError>, r: Result<Claims, AuthError>, ghost verifiedAt: nat)
    requires auth.Valid() && Minted(c) && c.kind.AccessToken? && !Expired(c, auth.now)
    modifies auth
    ensures auth.Valid() && (fate.Answered? ==> out.Ok? && out.value.accessToken)
    ensures out.Ok? && r.Ok? && Consistent(auth.trace, c) ==>
              verifiedAt < 1000 * c.exp.value <= auth.now
  {
    ghost var second;
    out, second := auth.LogoutUser(c, None, fate, fate2);
    ghost var atLogout := auth.trace;
    auth.Await();
    verifiedAt := auth.now;
    r := auth.Authenticate(Some(Signed(AccessToken, c)), fate3);
    if out.Ok? && r.Ok? && Consistent(auth.trace, c) {
      RevocationPersists(atLogout, auth.trace, c.jti);
      EntryOutlivesToken(auth.trace, c, LongestDelay(auth.trace));
    }
  }
}
