/**
 * TOTP authentication for callsigns: failure-based rate limiting, one-shot codes,
 * and the table of authenticated sessions with inactivity expiry.
 *
 * Time is an integer number of seconds passed in as `now`. Whether a code matches
 * a user's secret at a given time (RFC 6238 TOTP with a window of three 30-second
 * steps) is the authenticator's `totpMatches` function, fixed when it is built.
 */
module Auth {
  import opened Wrappers
  import opened Text

  /** Failures older than this many seconds are forgotten. */
  const RateLimitWindow: int := 300
  /** This many recent failures lock a callsign out. */
  const MaxFailures: int := 5
  /** A used code stays blocked for this many seconds. */
  const TokenLifetime: int := 90

  const TooManyAttempts: string := "Too many failed attempts. Try again in 5 minutes."
  const InvalidCredentials: string := "Invalid callsign or token."
  const CodeAlreadyUsed: string := "Code already used. Wait for next code."
  const AuthSuccess: string := "Authentication successful."

  /** The authenticator's mutable state: failure times and used codes with their expiry, per callsign. */
  datatype AuthState = AuthState(failed: map<string, seq<int>>, used: map<string, map<string, int>>)

  /** The result of `verify_totp` together with the state it leaves. */
  datatype Outcome = Outcome(state: AuthState, ok: bool, message: string)

  /** The failure times still inside the window: strictly later than now - 300, in order. */
  function Recent(ts: seq<int>, now: int): (r: seq<int>)
    ensures |r| <= |ts|
    ensures forall x :: x in r <==> x in ts && x > now - RateLimitWindow
  {
    if ts == [] then []
    else (if ts[0] > now - RateLimitWindow then [ts[0]] else []) + Recent(ts[1..], now)
  }

  /**
   * `is_rate_limited`: a callsign without a failure log is free; otherwise its log is
   * purged of old entries and it is locked when five or more remain.
   */
  function RateLimit(st: AuthState, c: string, now: int): (r: (AuthState, bool))
    ensures r.0.used == st.used && r.0.failed.Keys == st.failed.Keys
    ensures forall c' :: c' in st.failed && c' != c ==> r.0.failed[c'] == st.failed[c']
    ensures c in st.failed ==> r.0.failed[c] == Recent(st.failed[c], now)
    ensures r.1 <==> c in st.failed && |Recent(st.failed[c], now)| >= MaxFailures
  {
    if c !in st.failed then (st, false)
    else
      var kept := Recent(st.failed[c], now);
      (st.(failed := st.failed[c := kept]), |kept| >= MaxFailures)
  }

  /** `record_failed_attempt`: the time is appended to this callsign's log only. */
  function RecordFailure(st: AuthState, c: string, now: int): (r: AuthState)
    ensures r.used == st.used && r.failed.Keys == st.failed.Keys + {c}
    ensures r.failed[c] == (if c in st.failed then st.failed[c] else []) + [now]
    ensures forall c' :: c' in st.failed && c' != c ==> r.failed[c'] == st.failed[c']
  {
    st.(failed := st.failed[c := (if c in st.failed then st.failed[c] else []) + [now]])
  }

  /** `clear_failed_attempts`: this callsign's log is dropped, the others are kept. */
  function ClearFailures(st: AuthState, c: string): (r: AuthState)
    ensures r.used == st.used && r.failed.Keys == st.failed.Keys - {c}
    ensures forall c' :: c' in r.failed ==> r.failed[c'] == st.failed[c']
  {
    st.(failed := st.failed - {c})
  }

  /** A callsign whose failures were cleared is not rate limited. */
  lemma ClearedIsFree(st: AuthState, c: string, now: int)
    ensures !RateLimit(ClearFailures(st, c), c, now).1
  {
  }

  /** The used codes of one callsign that have not expired. */
  function Unexpired(m: map<string, int>, now: int): (r: map<string, int>)
    ensures forall t :: t in r <==> t in m && m[t] > now
    ensures forall t :: t in r ==> r[t] == m[t]
  {
    map t | t in m && m[t] > now :: m[t]
  }

  /** The codes of a callsign that are still blocked at `now`. */
  function LiveCodes(st: AuthState, c: string, now: int): map<string, int> {
    Unexpired(if c in st.used then st.used[c] else map[], now)
  }

  /**
   * `verify_totp`: with the callsign upper-cased, check the rate limit, then that
   * the user exists, then that the code is not a replay, then the TOTP match.
   */
  function Verify(st: AuthState, users: map<string, string>, matches: (string, string, int) -> bool,
                  callsign: string, token: string, now: int): (o: Outcome)
    ensures o.ok <==> (!RateLimit(st, Upper(callsign), now).1 && Upper(callsign) in users
      && token !in LiveCodes(st, Upper(callsign), now) && matches(users[Upper(callsign)], token, now))
    ensures o.ok ==> o.message == AuthSuccess
    ensures !o.ok ==> o.message in {TooManyAttempts, InvalidCredentials, CodeAlreadyUsed}
  {
    var c := Upper(callsign);
    var (s1, limited) := RateLimit(st, c, now);
    if limited then Outcome(s1, false, TooManyAttempts)
    else if c !in users then Outcome(RecordFailure(s1, c, now), false, InvalidCredentials)
    else
      var live := LiveCodes(s1, c, now);
      if token in live then Outcome(s1, false, CodeAlreadyUsed)
      else if matches(users[c], token, now) then
        Outcome(ClearFailures(s1.(used := s1.used[c := live[token := now + TokenLifetime]]), c), true, AuthSuccess)
      else Outcome(RecordFailure(s1, c, now), false, InvalidCredentials)
  }

  /** A rate-limited callsign is refused before its user entry or its code are looked at. */
  lemma RateLimitComesFirst(st: AuthState, users: map<string, string>, matches: (string, string, int) -> bool,
                            callsign: string, token: string, now: int)
    requires RateLimit(st, Upper(callsign), now).1
    ensures Verify(st, users, matches, callsign, token, now) == Outcome(RateLimit(st, Upper(callsign), now).0, false, TooManyAttempts)
  {
  }

  /**
   * An unknown callsign, or a known one with a fresh code that does not match, costs
   * exactly one failure, stamped `now`, and leaves the used codes alone.
   */
  lemma FailureRecordsOne(st: AuthState, users: map<string, string>, matches: (string, string, int) -> bool,
                          callsign: string, token: string, now: int)
    requires !RateLimit(st, Upper(callsign), now).1
    requires Upper(callsign) !in users ||
      (token !in LiveCodes(st, Upper(callsign), now) && !matches(users[Upper(callsign)], token, now))
    ensures var o := Verify(st, users, matches, callsign, token, now); var c := Upper(callsign);
      !o.ok && o.message == InvalidCredentials && o.state.used == st.used &&
      o.state.failed[c] == (if c in st.failed then Recent(st.failed[c], now) else []) + [now] &&
      forall c' :: c' in st.failed && c' != c ==> o.state.failed[c'] == st.failed[c']
  {
  }

  /** A code that is still blocked is refused without counting a failure and without touching the used codes. */
  lemma ReplayRefused(st: AuthState, users: map<string, string>, matches: (string, string, int) -> bool,
                      callsign: string, token: string, now: int)
    requires !RateLimit(st, Upper(callsign), now).1 && Upper(callsign) in users
    requires token in LiveCodes(st, Upper(callsign), now)
    ensures var o := Verify(st, users, matches, callsign, token, now);
      !o.ok && o.message == CodeAlreadyUsed && o.state == RateLimit(st, Upper(callsign), now).0 && o.state.used == st.used
  {
  }

  /**
   * A successful check blocks the code until now + 90 (dropping expired entries of
   * that callsign) and clears the callsign's failures.
   */
  lemma SuccessConsumesCode(st: AuthState, users: map<string, string>, matches: (string, string, int) -> bool,
                            callsign: string, token: string, now: int)
    requires Verify(st, users, matches, callsign, token, now).ok
    ensures var o := Verify(st, users, matches, callsign, token, now); var c := Upper(callsign);
      c in o.state.used && o.state.used[c] == LiveCodes(st, c, now)[token := now + TokenLifetime] &&
      c !in o.state.failed && (forall c' :: c' in st.used && c' != c ==> c' in o.state.used && o.state.used[c'] == st.used[c'])
  {
  }

  /** The same code presented again before it expires is refused as a replay, even if it still matches. */
  lemma SecondUseRefused(st: AuthState, users: map<string, string>, matches: (string, string, int) -> bool,
                         callsign: string, token: string, now: int, later: int)
    requires Verify(st, users, matches, callsign, token, now).ok
    requires now <= later < now + TokenLifetime
    ensures var o2 := Verify(Verify(st, users, matches, callsign, token, now).state, users, matches, callsign, token, later);
      !o2.ok && o2.message == CodeAlreadyUsed
  {
    var o := Verify(st, users, matches, callsign, token, now);
    var c := Upper(callsign);
    SuccessConsumesCode(st, users, matches, callsign, token, now);
    UpperIdempotent(callsign);
    assert token in LiveCodes(o.state, c, later);
  }

  /** `verify_totp` applied to a run of codes at one time. */
  function VerifyAll(st: AuthState, users: map<string, string>, matches: (string, string, int) -> bool,
                     callsign: string, tokens: seq<string>, now: int): AuthState
    decreases |tokens|
  {
    if tokens == [] then st
    else VerifyAll(Verify(st, users, matches, callsign, tokens[0], now).state, users, matches, callsign, tokens[1..], now)
  }

  /**
   * Starting without failures, k <= 5 refused attempts at one time leave exactly k
   * failures on record, and the used codes as they were.
   */
  lemma {:induction false} FailuresAccumulate(st: AuthState, users: map<string, string>, matches: (string, string, int) -> bool,
                                              callsign: string, tokens: seq<string>, now: int, k: nat)
    requires |tokens| <= MaxFailures && k + |tokens| <= MaxFailures
    requires Upper(callsign) in st.failed ==> st.failed[Upper(callsign)] == Ones(now, k)
    requires Upper(callsign) !in st.failed ==> k == 0
    requires Upper(callsign) in users ==> forall j :: 0 <= j < |tokens| ==>
      !matches(users[Upper(callsign)], tokens[j], now) && tokens[j] !in LiveCodes(st, Upper(callsign), now)
    ensures var r := VerifyAll(st, users, matches, callsign, tokens, now); var c := Upper(callsign);
      r.used == st.used && (|tokens| + k > 0 ==> c in r.failed && r.failed[c] == Ones(now, k + |tokens|))
    decreases |tokens|
  {
    if tokens != [] {
      var o := Verify(st, users, matches, callsign, tokens[0], now);
      OneMoreFailure(st, users, matches, callsign, tokens[0], now, k);
      StillRefused(st, o.state, users, matches, callsign, tokens, now);
      var r := VerifyAll(o.state, users, matches, callsign, tokens[1..], now);
      assert VerifyAll(st, users, matches, callsign, tokens, now) == r;
      FailuresAccumulate(o.state, users, matches, callsign, tokens[1..], now, k + 1);
      assert k + 1 + |tokens[1..]| == k + |tokens|;
      assert Upper(callsign) in r.failed && r.failed[Upper(callsign)] == Ones(now, k + |tokens|);
    }
  }

  /** The codes after the first stay refused once a refusal has left the used codes alone. */
  lemma StillRefused(st: AuthState, st2: AuthState, users: map<string, string>, matches: (string, string, int) -> bool,
                     callsign: string, tokens: seq<string>, now: int)
    requires st2.used == st.used && tokens != []
    requires Upper(callsign) in users ==> forall j :: 0 <= j < |tokens| ==>
      !matches(users[Upper(callsign)], tokens[j], now) && tokens[j] !in LiveCodes(st, Upper(callsign), now)
    ensures Upper(callsign) in users ==> forall j :: 0 <= j < |tokens[1..]| ==>
      !matches(users[Upper(callsign)], tokens[1..][j], now) && tokens[1..][j] !in LiveCodes(st2, Upper(callsign), now)
  {
    assert LiveCodes(st2, Upper(callsign), now) == LiveCodes(st, Upper(callsign), now);
    assert forall j :: 0 <= j < |tokens[1..]| ==> tokens[1..][j] == tokens[j + 1];
  }

  /** One refused attempt below the limit turns k failures at `now` into k + 1. */
  lemma OneMoreFailure(st: AuthState, users: map<string, string>, matches: (string, string, int) -> bool,
                       callsign: string, token: string, now: int, k: nat)
    requires k < MaxFailures
    requires Upper(callsign) in st.failed ==> st.failed[Upper(callsign)] == Ones(now, k)
    requires Upper(callsign) !in st.failed ==> k == 0
    requires Upper(callsign) in users ==>
      !matches(users[Upper(callsign)], token, now) && token !in LiveCodes(st, Upper(callsign), now)
    ensures var o := Verify(st, users, matches, callsign, token, now); var c := Upper(callsign);
      o.state.used == st.used && c in o.state.failed && o.state.failed[c] == Ones(now, k + 1)
  {
    var c := Upper(callsign);
    OnesRecent(now, k);
    assert !RateLimit(st, c, now).1;
    FailureRecordsOne(st, users, matches, callsign, token, now);
  }

  /** k copies of the time t. */
  function Ones(t: int, k: nat): (r: seq<int>)
    ensures |r| == k
  {
    if k == 0 then [] else Ones(t, k - 1) + [t]
  }

  lemma {:induction false} OnesRecent(now: int, k: nat)
    ensures Recent(Ones(now, k), now) == Ones(now, k)
  {
    if k > 0 {
      OnesRecent(now, k - 1);
      RecentAppend(Ones(now, k - 1), [now], now);
    }
  }

  lemma {:induction false} RecentAppend(a: seq<int>, b: seq<int>, now: int)
    ensures Recent(a + b, now) == Recent(a, now) + Recent(b, now)
  {
    if a != [] {
      RecentAppend(a[1..], b, now);
      assert (a + b)[1..] == a[1..] + b;
    } else {
      assert a + b == b;
    }
  }

  /**
   * Five refused attempts at one time lock the callsign out; four do not.
   */
  lemma FiveStrikes(st: AuthState, users: map<string, string>, matches: (string, string, int) -> bool,
                    callsign: string, tokens: seq<string>, now: int)
    requires Upper(callsign) !in st.failed
    requires 4 <= |tokens| <= MaxFailures
    requires Upper(callsign) in users ==> forall j :: 0 <= j < |tokens| ==>
      !matches(users[Upper(callsign)], tokens[j], now) && tokens[j] !in LiveCodes(st, Upper(callsign), now)
    ensures RateLimit(VerifyAll(st, users, matches, callsign, tokens, now), Upper(callsign), now).1 <==> |tokens| == MaxFailures
  {
    FailuresAccumulate(st, users, matches, callsign, tokens, now, 0);
    OnesRecent(now, |tokens|);
  }

  /** A session as the table holds it. */
  datatype SessionRec = SessionRec(callsign: string, authenticatedAt: int, lastActivity: int, sessionId: string)

  /** `is_expired`: idle for strictly longer than the timeout. */
  predicate Expired(s: SessionRec, now: int, timeoutMinutes: int) {
    now - s.lastActivity > timeoutMinutes * 60
  }

  /** `create_session` on the table: a new session under the given id, its callsign upper-cased. */
  function CreateSpec(t: map<string, SessionRec>, callsign: string, now: int, id: string): map<string, SessionRec> {
    t[id := SessionRec(Upper(callsign), now, now, id)]
  }

  /** `get_session`: unknown ids give None; an expired session is dropped; a live one is touched. */
  function GetSpec(t: map<string, SessionRec>, id: string, now: int, timeoutMinutes: int): (r: (map<string, SessionRec>, Option<SessionRec>))
    ensures id !in t ==> r == (t, None)
    ensures id in t && Expired(t[id], now, timeoutMinutes) ==> r == (t - {id}, None)
    ensures id in t && !Expired(t[id], now, timeoutMinutes) ==>
      r.1 == Some(t[id].(lastActivity := now)) && r.0 == t[id := r.1.value]
  {
    if id !in t then (t, None)
    else if Expired(t[id], now, timeoutMinutes) then (t - {id}, None)
    else
      var s := t[id].(lastActivity := now);
      (t[id := s], Some(s))
  }

  /** `cleanup_expired_sessions`: exactly the expired sessions go. */
  function CleanupSpec(t: map<string, SessionRec>, now: int, timeoutMinutes: int): (r: map<string, SessionRec>)
    ensures forall id :: id in r <==> id in t && !Expired(t[id], now, timeoutMinutes)
    ensures forall id :: id in r ==> r[id] == t[id]
  {
    map id | id in t && !Expired(t[id], now, timeoutMinutes) :: t[id]
  }

  /** A session that was just created or just read is live at that moment, if the timeout is not negative. */
  lemma CreateThenGet(t: map<string, SessionRec>, callsign: string, now: int, id: string, timeoutMinutes: int)
    ensures var t1 := CreateSpec(t, callsign, now, id);
      timeoutMinutes >= 0 ==> GetSpec(t1, id, now, timeoutMinutes) == (t1, Some(SessionRec(Upper(callsign), now, now, id)))
  {
    var t1 := CreateSpec(t, callsign, now, id);
    assert t1[id := t1[id].(lastActivity := now)] == t1;
  }

  /** Sessions created under distinct fresh ids are all kept. */
  lemma DistinctIdsKept(t: map<string, SessionRec>, c1: string, c2: string, now: int, id1: string, id2: string)
    requires id1 != id2
    ensures var t2 := CreateSpec(CreateSpec(t, c1, now, id1), c2, now, id2);
      id1 in t2 && id2 in t2 && t2[id1].callsign == Upper(c1) && t2[id2].callsign == Upper(c2)
      && t2.Keys == t.Keys + {id1, id2}
  {
  }

  /** The authenticator: its users and matcher are fixed, its two logs change in place. */
  class TOTPAuthenticator {
    /** Callsign to TOTP secret, as loaded from the users file. */
    const users: map<string, string>
    /** Whether a code matches a secret at a time (the TOTP computation). */
    const totpMatches: (string, string, int) -> bool
    var failedAttempts: map<string, seq<int>>
    var usedTokens: map<string, map<string, int>>

    function State(): AuthState
      reads this
    {
      AuthState(failedAttempts, usedTokens)
    }

    constructor (users: map<string, string>, totpMatches: (string, string, int) -> bool)
      ensures this.users == users && this.totpMatches == totpMatches
      ensures State() == AuthState(map[], map[])
    {
      this.users := users;
      this.totpMatches := totpMatches;
      failedAttempts, usedTokens := map[], map[];
    }

    /** `is_rate_limited` */
    method IsRateLimited(callsign: string, now: int) returns (limited: bool)
      modifies this
      ensures (State(), limited) == RateLimit(old(State()), callsign, now)
    {
      if callsign !in failedAttempts {
        return false;
      }
      failedAttempts := failedAttempts[callsign := Recent(failedAttempts[callsign], now)];
      limited := |failedAttempts[callsign]| >= MaxFailures;
    }

    /** `record_failed_attempt` */
    method RecordFailedAttempt(callsign: string, now: int)
      modifies this
      ensures State() == RecordFailure(old(State()), callsign, now)
    {
      if callsign !in failedAttempts {
        failedAttempts := failedAttempts[callsign := []];
      }
      failedAttempts := failedAttempts[callsign := failedAttempts[callsign] + [now]];
    }

    /** `clear_failed_attempts` */
    method ClearFailedAttempts(callsign: string)
      modifies this
      ensures State() == ClearFailures(old(State()), callsign)
    {
      if callsign in failedAttempts {
        failedAttempts := failedAttempts - {callsign};
      }
    }

    /** `verify_totp` */
    method VerifyTotp(callsign: string, token: string, now: int) returns (ok: bool, message: string)
      modifies this
      ensures Outcome(State(), ok, message) == Verify(old(State()), users, totpMatches, callsign, token, now)
    {
      var c := Upper(callsign);
      var limited := IsRateLimited(c, now);
      if limited {
        return false, TooManyAttempts;
      }
      if c !in users {
        RecordFailedAttempt(c, now);
        return false, InvalidCredentials;
      }
      var live := Unexpired(if c in usedTokens then usedTokens[c] else map[], now);
      if token in live {
        return false, CodeAlreadyUsed;
      }
      if totpMatches(users[c], token, now) {
        usedTokens := usedTokens[c := live[token := now + TokenLifetime]];
        ClearFailedAttempts(c);
        return true, AuthSuccess;
      }
      RecordFailedAttempt(c, now);
      return false, InvalidCredentials;
    }
  }

  /** An authenticated session; only its last-activity time changes after creation. */
  class Session {
    const callsign: string
    const authenticatedAt: int
    var lastActivity: int
    const sessionId: string

    constructor (callsign: string, authenticatedAt: int, lastActivity: int, sessionId: string)
      ensures Rec() == SessionRec(callsign, authenticatedAt, lastActivity, sessionId)
    {
      this.callsign := callsign;
      this.authenticatedAt := authenticatedAt;
      this.lastActivity := lastActivity;
      this.sessionId := sessionId;
    }

    function Rec(): SessionRec
      reads this
    {
      SessionRec(callsign, authenticatedAt, lastActivity, sessionId)
    }

    /** `is_expired` */
    predicate IsExpired(now: int, timeoutMinutes: int)
      reads this
    {
      Expired(Rec(), now, timeoutMinutes)
    }

    /** `update_activity` */
    method UpdateActivity(now: int)
      modifies this
      ensures Rec() == old(Rec()).(lastActivity := now)
    {
      lastActivity := now;
    }
  }

  /** The session table, keyed by session id. */
  class SessionManager {
    var sessions: map<string, Session>
    const timeoutMinutes: int
    /** The session objects the table may hold. */
    ghost var Repr: set<Session>

    /**
     * Every session sits under its own id, so distinct keys hold distinct objects, and
     * belongs to Repr.
     */
    ghost predicate Valid()
      reads this
    {
      forall id :: id in sessions ==> sessions[id] in Repr && sessions[id].sessionId == id
    }

    ghost function State(): map<string, SessionRec>
      reads this, Repr
    {
      map id | id in sessions && sessions[id] in Repr :: sessions[id].Rec()
    }

    constructor (timeoutMinutes: int)
      ensures Valid() && State() == map[] && this.timeoutMinutes == timeoutMinutes && Repr == {}
    {
      sessions := map[];
      this.timeoutMinutes := timeoutMinutes;
      Repr := {};
    }

    /**
     * `create_session`, with `sessionId` the fresh random hexadecimal id drawn for it,
     * which is not yet a key of the table.
     */
    method CreateSession(callsign: string, now: int, sessionId: string) returns (id: string)
      requires Valid() && sessionId !in sessions
      modifies this
      ensures Valid() && id == sessionId && id in sessions && Repr == old(Repr) + {sessions[id]}
      ensures State() == CreateSpec(old(State()), callsign, now, sessionId)
      ensures State().Keys == old(State()).Keys + {id}
      ensures id in sessions && fresh(sessions[id]) && forall k :: k in sessions && k != id ==> k in old(sessions) && sessions[k] == old(sessions[k])
    {
      var s := new Session(Upper(callsign), now, now, sessionId);
      sessions := sessions[sessionId := s];
      Repr := Repr + {s};
      id := sessionId;
      assert forall k :: k in sessions && k != id ==> sessions[k] == old(sessions[k]);
      assert State() == old(State())[id := s.Rec()];
    }

    /** `get_session` */
    method GetSession(id: string, now: int) returns (s: Option<Session>)
      requires Valid()
      modifies this, Repr
      ensures Valid() && Repr == old(Repr)
      ensures (State(), if s.Some? then Some(s.value.Rec()) else None) == GetSpec(old(State()), id, now, timeoutMinutes)
      ensures s.Some? ==> id in sessions && s.value == sessions[id]
      ensures sessions.Keys <= old(sessions.Keys) && forall k :: k in sessions ==> sessions[k] == old(sessions[k])
    {
      if id !in sessions {
        return None;
      }
      var session := sessions[id];
      if session.IsExpired(now, timeoutMinutes) {
        sessions := sessions - {id};
        assert State() == old(State()) - {id};
        return None;
      }
      session.UpdateActivity(now);
      assert forall k :: k in sessions && k != id ==> sessions[k] != session;
      assert State() == old(State())[id := session.Rec()];
      s := Some(session);
    }

    /** `end_session`: drop the id; an absent id is a no-op. */
    method EndSession(id: string)
      requires Valid()
      modifies this
      ensures Valid() && Repr == old(Repr) && State() == old(State()) - {id}
      ensures forall k :: k in sessions ==> k in old(sessions) && sessions[k] == old(sessions[k])
    {
      if id in sessions {
        sessions := sessions - {id};
      }
    }

    /** `cleanup_expired_sessions`: collect the expired ids, then delete them one by one. */
    method CleanupExpiredSessions(now: int)
      requires Valid()
      modifies this
      ensures Valid() && Repr == old(Repr) && State() == CleanupSpec(old(State()), now, timeoutMinutes)
    {
      var expired := set id | id in sessions && sessions[id].IsExpired(now, timeoutMinutes);
      ghost var start, dead := sessions, expired;
      while expired != {}
        invariant Repr == old(Repr) && expired <= dead
        invariant sessions.Keys == start.Keys - (dead - expired)
        invariant forall id :: id in sessions ==> sessions[id] == start[id]
        decreases |expired|
      {
        var id :| id in expired;
        sessions := sessions - {id};
        expired := expired - {id};
      }
      assert sessions.Keys == start.Keys - dead;
      ghost var t1 := CleanupSpec(old(State()), now, timeoutMinutes);
      assert State().Keys == t1.Keys;
    }

    /** `get_active_sessions`: clean up, then every session left. */
    method GetActiveSessions(now: int) returns (r: set<Session>)
      requires Valid()
      modifies this
      ensures Valid() && Repr == old(Repr) && State() == CleanupSpec(old(State()), now, timeoutMinutes)
      ensures r == sessions.Values
    {
      CleanupExpiredSessions(now);
      r := sessions.Values;
    }
  }
}
