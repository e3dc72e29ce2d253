/**
  Server-side sessions with an idle timeout and an absolute lifetime. Calls take their readings of the
  clock as parameters: a validation reads it for the expiry test and `again` for the new activity, a
  purge reads it once for every session. The calls that issue a session take the identifier the
  generator gives them.
 */
module SessionManagerModule {

  datatype SessionConfig = SessionConfig(idleTimeout: int, absoluteTtl: int, bindUserAgent: bool)

  datatype SessionData = SessionData(userId: string, userAgent: string, createdAt: int, lastActive: int)

  datatype SessionResult = SessionResult(valid: bool, sessionId: string, error: string)

  datatype State = State(config: SessionConfig, configured: bool, sessions: map<string, SessionData>)

  datatype Event =
    | Configure(config: SessionConfig)
    | CreateAnonymous(id: string, now: int)
    | Login(previous: string, userId: string, userAgent: string, id: string, now: int)
    | Validate(sessionId: string, agent: string, now: int, again: int)
    | Logout(sessionId: string)
    | PurgeExpired(clock: string -> int, done: int)

  const SECOND: int := 1_000_000_000
  const DEFAULT_CONFIG := SessionConfig(1800 * SECOND, 86400 * SECOND, true)

  function Failure(error: string): SessionResult {
    SessionResult(false, "", error)
  }

  predicate Expired(config: SessionConfig, d: SessionData, now: int) {
    now - d.lastActive > config.idleTimeout || now - d.createdAt > config.absoluteTtl
  }

  predicate WrongAgent(config: SessionConfig, d: SessionData, agent: string) {
    config.bindUserAgent && d.userAgent != "" && d.userAgent != agent
  }

  /** Whether a session answers a validation. */
  predicate Accepts(config: SessionConfig, d: SessionData, agent: string, now: int) {
    !Expired(config, d, now) && !WrongAgent(config, d, agent)
  }

  /** The result of a call; `logout`, `purge_expired` and `configure` return nothing. */
  function Result(s: State, e: Event): SessionResult
    requires e.CreateAnonymous? || e.Login? || e.Validate?
  {
    if !s.configured then Failure("SessionManager not configured")
    else
      match e
      case CreateAnonymous(id, now) => SessionResult(true, id, "")
      case Login(previous, userId, userAgent, id, now) =>
        if userId == "" then Failure("user_id required") else SessionResult(true, id, "")
      case Validate(sessionId, agent, now, again) =>
        if sessionId !in s.sessions then Failure("Session not found")
        else if Expired(s.config, s.sessions[sessionId], now) then Failure("Session expired")
        else if WrongAgent(s.config, s.sessions[sessionId], agent) then Failure("Session user-agent mismatch")
        else SessionResult(true, sessionId, "")
  }

  /** What a purge leaves, when it reads `clock(id)` for the session of `id`. */
  function Purged(s: State, clock: string -> int): map<string, SessionData> {
    map id | id in s.sessions && !Expired(s.config, s.sessions[id], clock(id)) :: s.sessions[id]
  }

  function Next(s: State, e: Event): State {
    match e
    case Configure(config) => s.(config := config, configured := true)
    case CreateAnonymous(id, now) =>
      if s.configured then s.(sessions := s.sessions[id := SessionData("", "", now, now)]) else s
    case Login(previous, userId, userAgent, id, now) =>
      if s.configured && userId != ""
      then s.(sessions := (s.sessions - {previous})[id := SessionData(userId, userAgent, now, now)])
      else s
    case Validate(sessionId, agent, now, again) =>
      if !s.configured || sessionId !in s.sessions then s
      else
        var d := s.sessions[sessionId];
        if Accepts(s.config, d, agent, now) then s.(sessions := s.sessions[sessionId := d.(lastActive := again)])
        else s.(sessions := s.sessions - {sessionId})
    case Logout(sessionId) => s.(sessions := s.sessions - {sessionId})
    case PurgeExpired(clock, done) => s.(sessions := Purged(s, clock))
  }

  class SessionManager {
    var config: SessionConfig
    var configured: bool
    var sessions: map<string, SessionData>

    function Abs(): State
      reads this
    {
      State(config, configured, sessions)
    }

    constructor ()
      ensures Abs() == State(DEFAULT_CONFIG, false, map[])
    {
      config, configured, sessions := DEFAULT_CONFIG, false, map[];
    }

    method SetConfig(c: SessionConfig)
      modifies this
      ensures Abs() == Next(old(Abs()), Configure(c))
    {
      config, configured := c, true;
    }

    method CreateAnonymousSession(id: string, now: int) returns (r: SessionResult)
      modifies this
      ensures Abs() == Next(old(Abs()), CreateAnonymous(id, now))
      ensures r == Result(old(Abs()), CreateAnonymous(id, now))
    {
      if !configured {
        return Failure("SessionManager not configured");
      }
      sessions := sessions[id := SessionData("", "", now, now)];
      return SessionResult(true, id, "");
    }

    method LogIn(previous: string, userId: string, userAgent: string, id: string, now: int) returns (r: SessionResult)
      modifies this
      ensures Abs() == Next(old(Abs()), Login(previous, userId, userAgent, id, now))
      ensures r == Result(old(Abs()), Login(previous, userId, userAgent, id, now))
    {
      if !configured {
        return Failure("SessionManager not configured");
      }
      if userId == "" {
        return Failure("user_id required");
      }
      sessions := sessions - {previous};
      sessions := sessions[id := SessionData(userId, userAgent, now, now)];
      return SessionResult(true, id, "");
    }

    method ValidateSession(sessionId: string, agent: string, now: int, again: int) returns (r: SessionResult)
      modifies this
      ensures Abs() == Next(old(Abs()), Validate(sessionId, agent, now, again))
      ensures r == Result(old(Abs()), Validate(sessionId, agent, now, again))
    {
      if !configured {
        return Failure("SessionManager not configured");
      }
      if sessionId !in sessions {
        return Failure("Session not found");
      }
      var d := sessions[sessionId];
      var expired := IsExpired(d, now);
      if expired {
        sessions := sessions - {sessionId};
        return Failure("Session expired");
      }
      if config.bindUserAgent && d.userAgent != "" && d.userAgent != agent {
        sessions := sessions - {sessionId};
        return Failure("Session user-agent mismatch");
      }
      sessions := sessions[sessionId := d.(lastActive := again)];
      return SessionResult(true, sessionId, "");
    }

    method LogOut(sessionId: string)
      modifies this
      ensures Abs() == Next(old(Abs()), Logout(sessionId))
    {
      sessions := sessions - {sessionId};
    }

    /** Visits the sessions in any order and erases as it goes. */
    method Purge(clock: string -> int, done: int)
      modifies this
      ensures Abs() == Next(old(Abs()), PurgeExpired(clock, done))
    {
      var ids := sessions.Keys;
      ghost var before := Abs();
      while ids != {}
        invariant config == before.config && configured == before.configured
        invariant ids <= sessions.Keys <= before.sessions.Keys
        invariant forall id | id in sessions :: sessions[id] == before.sessions[id]
        invariant forall id | id in before.sessions ::
          id in sessions <==> id in ids || !Expired(config, before.sessions[id], clock(id))
        decreases |ids|
      {
        var id :| id in ids;
        ids := ids - {id};
        var expired := IsExpired(sessions[id], clock(id));
        if expired {
          sessions := sessions - {id};
        }
      }
      assert sessions == Purged(before, clock);
    }

    method IsExpired(d: SessionData, now: int) returns (r: bool)
      ensures r <==> Expired(config, d, now)
    {
      var idle := now - d.lastActive;
      var age := now - d.createdAt;
      return idle > config.idleTimeout || age > config.absoluteTtl;
    }
  }

  // ----------------------------------------------------------------------- runs

  function Run(s: State, events: seq<Event>): State
    decreases |events|
  {
    if events == [] then s else Run(Next(s, events[0]), events[1..])
  }

  /** The last reading of the clock a call takes; the calls that take none keep the previous one. */
  function Clock(e: Event, before: int): int {
    match e
    case CreateAnonymous(_, now) => now
    case Login(_, _, _, _, now) => now
    case Validate(_, _, _, again) => again
    case PurgeExpired(_, done) => done
    case _ => before
  }

  /** From `t` on, the clock does not run backwards during the call. */
  ghost predicate InOrder(e: Event, t: int) {
    && t <= Clock(e, t)
    && (e.Validate? ==> t <= e.now <= e.again)
    && (e.PurgeExpired? ==> forall id :: t <= e.clock(id) <= e.done)
  }

  /** The configuration is fixed and the clock, at `t` to begin with, never runs backwards. */
  ghost predicate Steady(events: seq<Event>, t: int)
    decreases |events|
  {
    events != [] ==>
      !events[0].Configure? && InOrder(events[0], t) && Steady(events[1..], Clock(events[0], t))
  }

  // ------------------------------------------------------ purging is unobservable

  function WithoutPurges(events: seq<Event>): seq<Event>
    decreases |events|
  {
    if events == [] then []
    else (if events[0].PurgeExpired? then [] else [events[0]]) + WithoutPurges(events[1..])
  }

  /** The valid flag and the identifier of every result, in order. */
  function Observed(s: State, events: seq<Event>): seq<(bool, string)>
    decreases |events|
  {
    if events == [] then []
    else
      var e := events[0];
      (if e.CreateAnonymous? || e.Login? || e.Validate?
       then [(Result(s, e).valid, Result(s, e).sessionId)] else [])
      + Observed(Next(s, e), events[1..])
  }

  /** `p` knows the sessions of `s` and otherwise only some that have expired by `t`. */
  predicate Tidies(s: State, p: State, t: int) {
    && s.config == p.config && s.configured == p.configured
    && (forall id | id in s.sessions :: id in p.sessions && p.sessions[id] == s.sessions[id])
    && forall id | id in p.sessions && id !in s.sessions :: Expired(p.config, p.sessions[id], t)
  }

  lemma StepKeepsTidies(s: State, p: State, e: Event, t: int)
    requires Tidies(s, p, t) && InOrder(e, t) && !e.Configure? && !e.PurgeExpired?
    ensures Tidies(Next(s, e), Next(p, e), Clock(e, t))
    ensures e.CreateAnonymous? || e.Login? || e.Validate? ==>
              Result(s, e).valid == Result(p, e).valid && Result(s, e).sessionId == Result(p, e).sessionId
  {
  }

  lemma PurgeKeepsTidies(s: State, p: State, e: Event, t: int)
    requires Tidies(s, p, t) && InOrder(e, t) && e.PurgeExpired?
    ensures Tidies(Next(s, e), p, e.done)
  {
  }

  lemma {:induction false} PurgesUnobserved(s: State, p: State, events: seq<Event>, t: int)
    requires Tidies(s, p, t) && Steady(events, t)
    ensures Observed(s, events) == Observed(p, WithoutPurges(events))
    decreases |events|
  {
    if events != [] {
      var e := events[0];
      if e.PurgeExpired? {
        PurgeKeepsTidies(s, p, e, t);
        hide Next, Tidies;
        PurgesUnobserved(Next(s, e), p, events[1..], e.done);
        assert WithoutPurges(events) == WithoutPurges(events[1..]);
      } else {
        StepKeepsTidies(s, p, e, t);
        hide Next, Tidies, Result;
        PurgesUnobserved(Next(s, e), Next(p, e), events[1..], Clock(e, t));
        assert WithoutPurges(events)[1..] == WithoutPurges(events[1..]);
      }
    }
  }

  /** Two runs that differ only in where they purge give the same valid flags and identifiers. */
  lemma PurgingIsUnobservable(s: State, events: seq<Event>, others: seq<Event>, t: int)
    requires Steady(events, t) && Steady(others, t)
    requires WithoutPurges(events) == WithoutPurges(others)
    ensures Observed(s, events) == Observed(s, others)
  {
    PurgesUnobserved(s, s, events, t);
    PurgesUnobserved(s, s, others, t);
  }

  // --------------------------------------------------- which sessions validate

  /** The call issues this identifier. */
  predicate Issues(e: Event, id: string) {
    (e.CreateAnonymous? && e.id == id) || (e.Login? && e.userId != "" && e.id == id)
  }

  function Issued(e: Event): SessionData
    requires e.CreateAnonymous? || e.Login?
  {
    if e.CreateAnonymous? then SessionData("", "", e.now, e.now) else SessionData(e.userId, e.userAgent, e.now, e.now)
  }

  /** The call ends the session of this identifier whatever its state, or replaces it. */
  predicate Ends(e: Event, id: string) {
    || (e.Logout? && e.sessionId == id)
    || (e.Login? && e.userId != "" && e.previous == id)
    || Issues(e, id)
  }

  /**
    A session survives a history: nothing ends it, and every validation of it comes from its agent,
    within the lifetime and within the idle timeout of the previous activity. Purges do not matter.
   */
  predicate Survives(config: SessionConfig, d: SessionData, id: string, events: seq<Event>)
    decreases |events|
  {
    events != [] ==>
      var e := events[0];
      if e.Validate? && e.sessionId == id
      then Accepts(config, d, e.agent, e.now) && Survives(config, d.(lastActive := e.again), id, events[1..])
      else !Ends(e, id) && Survives(config, d, id, events[1..])
  }

  /** The identifier was issued at some point, and that session survived from there on. */
  ghost predicate IssuedAndSurvives(config: SessionConfig, id: string, events: seq<Event>, last: Event) {
    exists i :: 0 <= i < |events| && Issues(events[i], id)
                && Survives(config, Issued(events[i]), id, events[i + 1..] + [last])
  }

  /** A session that has expired survives no later validation. */
  lemma {:induction false} ExpiredNeverSurvives(config: SessionConfig, d: SessionData, id: string,
                                                events: seq<Event>, last: Event, t: int)
    requires Expired(config, d, t) && Steady(events + [last], t) && last.Validate? && last.sessionId == id
    ensures !Survives(config, d, id, events + [last])
    decreases |events|
  {
    var all := events + [last];
    if events != [] {
      assert all[0] == events[0] && all[1..] == events[1..] + [last];
      if !(events[0].Validate? && events[0].sessionId == id) {
        ExpiredNeverSurvives(config, d, id, events[1..], last, Clock(events[0], t));
      }
    }
  }

  /** Shifting the history by one call: the identifier is issued by the first call or later. */
  lemma IssuedNowOrLater(config: SessionConfig, id: string, events: seq<Event>, last: Event)
    requires events != []
    ensures IssuedAndSurvives(config, id, events, last) <==>
            || (Issues(events[0], id) && Survives(config, Issued(events[0]), id, events[1..] + [last]))
            || IssuedAndSurvives(config, id, events[1..], last)
  {
    var rest := events[1..];
    hide Survives, Issues;
    if Issues(events[0], id) && Survives(config, Issued(events[0]), id, events[1..] + [last]) {
      assert events[0 + 1..] == events[1..];
    }
    forall i | 0 <= i < |rest|
      ensures rest[i] == events[i + 1] && rest[i + 1..] == events[i + 1 + 1..]
    {
    }
    if i :| 0 <= i < |rest| && Issues(rest[i], id) && Survives(config, Issued(rest[i]), id, rest[i + 1..] + [last]) {
      assert Issues(events[i + 1], id);
    }
    if i :| 0 < i < |events| && Issues(events[i], id)
            && Survives(config, Issued(events[i]), id, events[i + 1..] + [last])
    {
      assert rest[i - 1] == events[i] && rest[i - 1 + 1..] == events[i + 1..];
      assert Issues(rest[i - 1], id);
    }
  }

  /** The session an identifier has in a state survives a history. */
  predicate HeldAndSurvives(s: State, id: string, events: seq<Event>) {
    id in s.sessions && Survives(s.config, s.sessions[id], id, events)
  }

  /** One call, seen from one identifier. */
  lemma StepMovesSession(s: State, e: Event, id: string, events: seq<Event>, last: Event, t: int)
    requires s.configured && Steady([e] + events + [last], t) && last.Validate? && last.sessionId == id
    ensures Next(s, e).config == s.config && Next(s, e).configured
    ensures HeldAndSurvives(Next(s, e), id, events + [last]) <==>
            || HeldAndSurvives(s, id, [e] + events + [last])
            || (Issues(e, id) && Survives(s.config, Issued(e), id, events + [last]))
  {
    var all := [e] + events + [last];
    assert all[0] == e && all[1..] == events + [last];
    if e.PurgeExpired? && id in s.sessions && Expired(s.config, s.sessions[id], e.clock(id)) {
      ExpiredNeverSurvives(s.config, s.sessions[id], id, events, last, e.done);
    }
  }

  lemma SurvivesOne(config: SessionConfig, d: SessionData, last: Event)
    requires last.Validate?
    ensures Survives(config, d, last.sessionId, [last]) <==> Accepts(config, d, last.agent, last.now)
  {
    assert [last][1..] == [];
  }

  lemma {:induction false} ValidatesFrom(s: State, events: seq<Event>, last: Event, t: int)
    requires s.configured && Steady(events + [last], t) && last.Validate?
    ensures Result(Run(s, events), last).valid <==>
            || HeldAndSurvives(s, last.sessionId, events + [last])
            || IssuedAndSurvives(s.config, last.sessionId, events, last)
    decreases |events|
  {
    var id := last.sessionId;
    if events == [] {
      assert events + [last] == [last];
      if id in s.sessions {
        SurvivesOne(s.config, s.sessions[id], last);
      }
    } else {
      var e, rest := events[0], events[1..];
      assert [e] + rest + [last] == events + [last];
      assert (events + [last])[1..] == rest + [last];
      StepMovesSession(s, e, id, rest, last, t);
      IssuedNowOrLater(s.config, id, events, last);
      hide Survives, HeldAndSurvives, IssuedAndSurvives, Issues, Next;
      ValidatesFrom(Next(s, e), rest, last, Clock(e, t));
    }
  }

  /** A validation succeeds exactly when its identifier was issued and that session has survived. */
  lemma ValidatesIffSurvives(config: SessionConfig, events: seq<Event>, last: Event, t: int)
    requires Steady(events + [last], t) && last.Validate?
    ensures Result(Run(State(config, true, map[]), events), last).valid <==>
            IssuedAndSurvives(config, last.sessionId, events, last)
  {
    ValidatesFrom(State(config, true, map[]), events, last, t);
  }

  /** The last time a surviving session was active after a call, if that was `before` until then. */
  function Active(before: int, id: string, e: Event): int {
    if e.Validate? && e.sessionId == id then e.again else before
  }

  function LastActivity(before: int, id: string, events: seq<Event>): int
    decreases |events|
  {
    if events == [] then before else LastActivity(Active(before, id, events[0]), id, events[1..])
  }

  lemma {:induction false} SurvivorsAreFresh(config: SessionConfig, d: SessionData, id: string,
                                             events: seq<Event>, last: Event)
    requires Survives(config, d, id, events + [last]) && last.Validate? && last.sessionId == id
    ensures last.now - d.createdAt <= config.absoluteTtl
    ensures last.now - LastActivity(d.lastActive, id, events) <= config.idleTimeout
    ensures forall k :: 0 <= k < |events| ==> !Ends(events[k], id)
    decreases |events|
  {
    var all := events + [last];
    if events != [] {
      assert all[0] == events[0] && all[1..] == events[1..] + [last];
      var d' := if events[0].Validate? && events[0].sessionId == id then d.(lastActive := events[0].again) else d;
      SurvivorsAreFresh(config, d', id, events[1..], last);
    }
  }

  /**
    A session validates only within `absoluteTtl` of the call that issued it and within `idleTimeout`
    of its last activity, with no logout, login from it or re-issue in between.
   */
  lemma ValidOnlyWhileFresh(config: SessionConfig, events: seq<Event>, last: Event, t: int) returns (i: nat)
    requires Steady(events + [last], t) && last.Validate?
    requires Result(Run(State(config, true, map[]), events), last).valid
    ensures i < |events| && Issues(events[i], last.sessionId)
    ensures last.now - events[i].now <= config.absoluteTtl
    ensures last.now - LastActivity(events[i].now, last.sessionId, events[i + 1..]) <= config.idleTimeout
    ensures forall k :: i < k < |events| ==> !Ends(events[k], last.sessionId)
  {
    var id := last.sessionId;
    ValidatesIffSurvives(config, events, last, t);
    i :| 0 <= i < |events| && Issues(events[i], id)
         && Survives(config, Issued(events[i]), id, events[i + 1..] + [last]);
    SurvivorsAreFresh(config, Issued(events[i]), id, events[i + 1..], last);
    forall k | i < k < |events|
      ensures !Ends(events[k], id)
    {
      assert events[k] == events[i + 1..][k - (i + 1)];
    }
  }

  /** Logging in from a session retires its identifier until the manager issues it again. */
  lemma LoginRetiresOldId(config: SessionConfig, events: seq<Event>, last: Event, t: int, at: nat)
    requires Steady(events + [last], t) && last.Validate?
    requires at < |events| && events[at].Login? && events[at].userId != "" && events[at].previous == last.sessionId
    requires forall k :: at <= k < |events| ==> !Issues(events[k], last.sessionId)
    ensures !Result(Run(State(config, true, map[]), events), last).valid
  {
    if Result(Run(State(config, true, map[]), events), last).valid {
      var i := ValidOnlyWhileFresh(config, events, last, t);
      assert false;
    }
  }

  // --------------------------------------------------- the limits, comparison by comparison

  /**
    A call that a session outlives: it does not end the session, and if it validates it, it comes within
    both limits and, where agents are bound and one was given, from that agent.
   */
  predicate Outlives(config: SessionConfig, issue: Event, id: string, active: int, e: Event)
    requires issue.CreateAnonymous? || issue.Login?
  {
    && !(e.Logout? && e.sessionId == id)
    && !(e.Login? && e.userId != "" && (e.previous == id || e.id == id))
    && !(e.CreateAnonymous? && e.id == id)
    && (e.Validate? && e.sessionId == id ==>
          && e.now - issue.now <= config.absoluteTtl
          && e.now - active <= config.idleTimeout
          && (config.bindUserAgent && issue.Login? && issue.userAgent != "" ==> e.agent == issue.userAgent))
  }

  /** It outlives all calls of a history, each with the activity up to that call. */
  ghost predicate OutlivesAll(config: SessionConfig, issue: Event, id: string, active: int, events: seq<Event>)
    requires issue.CreateAnonymous? || issue.Login?
  {
    forall j | 0 <= j < |events| :: Outlives(config, issue, id, LastActivity(active, id, events[..j]), events[j])
  }

  lemma OutlivesFirst(config: SessionConfig, issue: Event, id: string, active: int, events: seq<Event>)
    requires (issue.CreateAnonymous? || issue.Login?) && events != []
    ensures var next := Active(active, id, events[0]);
            OutlivesAll(config, issue, id, active, events) <==>
            Outlives(config, issue, id, active, events[0]) && OutlivesAll(config, issue, id, next, events[1..])
  {
    var next, rest := Active(active, id, events[0]), events[1..];
    assert events[..0] == [];
    forall j | 0 <= j < |rest|
      ensures LastActivity(active, id, events[..j + 1]) == LastActivity(next, id, rest[..j])
    {
      assert events[..j + 1][0] == events[0] && events[..j + 1][1..] == rest[..j];
    }
    hide LastActivity, Outlives;
    if OutlivesAll(config, issue, id, active, events) {
      assert Outlives(config, issue, id, LastActivity(active, id, events[..0]), events[0]);
      forall j | 0 <= j < |rest|
        ensures Outlives(config, issue, id, LastActivity(next, id, rest[..j]), rest[j])
      {
        assert Outlives(config, issue, id, LastActivity(active, id, events[..j + 1]), events[j + 1]);
      }
    }
    if Outlives(config, issue, id, active, events[0]) && OutlivesAll(config, issue, id, next, rest) {
      forall j | 0 <= j < |events|
        ensures Outlives(config, issue, id, LastActivity(active, id, events[..j]), events[j])
      {
        if j > 0 {
          assert events[j] == rest[j - 1];
        }
      }
    }
  }

  lemma {:induction false} SurvivesIffOutlives(config: SessionConfig, issue: Event, d: SessionData, id: string,
                                               events: seq<Event>)
    requires (issue.CreateAnonymous? || issue.Login?) && d == Issued(issue).(lastActive := d.lastActive)
    ensures Survives(config, d, id, events) <==> OutlivesAll(config, issue, id, d.lastActive, events)
    decreases |events|
  {
    if events != [] {
      var e := events[0];
      OutlivesFirst(config, issue, id, d.lastActive, events);
      hide OutlivesAll;
      SurvivesIffOutlives(config, issue, d.(lastActive := Active(d.lastActive, id, e)), id, events[1..]);
    }
  }

  const INITIAL := State(DEFAULT_CONFIG, false, map[])

  /**
    A validation succeeds exactly when its identifier was issued, and that session outlives every call
    since, the validation itself included.
   */
  lemma ValidatesIffOutlives(config: SessionConfig, events: seq<Event>, last: Event, t: int)
    requires Steady(events + [last], t) && last.Validate?
    ensures Result(Run(INITIAL, [Configure(config)] + events), last).valid <==>
            exists i | 0 <= i < |events| && Issues(events[i], last.sessionId) ::
              OutlivesAll(config, events[i], last.sessionId, events[i].now, events[i + 1..] + [last])
  {
    var id, all := last.sessionId, [Configure(config)] + events;
    assert all[0] == Configure(config) && all[1..] == events;
    ValidatesIffSurvives(config, events, last, t);
    forall i | 0 <= i < |events| && Issues(events[i], id)
      ensures Survives(config, Issued(events[i]), id, events[i + 1..] + [last]) <==>
              OutlivesAll(config, events[i], id, events[i].now, events[i + 1..] + [last])
    {
      SurvivesIffOutlives(config, events[i], Issued(events[i]), id, events[i + 1..] + [last]);
    }
    hide Survives, OutlivesAll, Issues, Run, Result;
    assert Run(INITIAL, all) == Run(State(config, true, map[]), events) by { FirstStep(all); }
  }

  lemma FirstStep(events: seq<Event>)
    requires events != [] && events[0].Configure?
    ensures Run(INITIAL, events) == Run(State(events[0].config, true, map[]), events[1..])
  {
  }

  /** Before it is configured, a manager issues no session and validates none. */
  lemma {:induction false} NothingBeforeConfigure(s: State, events: seq<Event>, e: Event)
    requires !s.configured && s.sessions == map[] && forall k | 0 <= k < |events| :: !events[k].Configure?
    requires e.CreateAnonymous? || e.Login? || e.Validate?
    ensures Run(s, events).sessions == map[]
    ensures Result(Run(s, events), e) == SessionResult(false, "", "SessionManager not configured")
    decreases |events|
  {
    if events != [] {
      NothingBeforeConfigure(Next(s, events[0]), events[1..], e);
    }
  }

  /** Why a validation fails, the first reason first; a session that fails one is gone. */
  lemma FailureSaysWhy(s: State, e: Event)
    requires s.configured && e.Validate?
    ensures var r := Result(s, e);
            var id := e.sessionId;
            && (id !in s.sessions <==> r.error == "Session not found")
            && (id in s.sessions ==>
                  var d := s.sessions[id];
                  var late := e.now - d.lastActive > s.config.idleTimeout || e.now - d.createdAt > s.config.absoluteTtl;
                  var foreign := s.config.bindUserAgent && d.userAgent != "" && d.userAgent != e.agent;
                  && (late <==> r.error == "Session expired")
                  && (!late && foreign <==> r.error == "Session user-agent mismatch")
                  && (!late && !foreign <==> r == SessionResult(true, id, ""))
                  && (late || foreign ==> id !in Next(s, e).sessions))
  {
    assert |"Session not found"| == 17 && |"Session expired"| == 15 && |"Session user-agent mismatch"| == 27;
  }

  /** A purge leaves exactly the sessions within both limits at their own reading, and leaves them alone. */
  lemma PurgeLeavesTheLiving(s: State, e: Event, id: string)
    requires e.PurgeExpired?
    ensures id in Next(s, e).sessions <==>
            && id in s.sessions
            && e.clock(id) - s.sessions[id].lastActive <= s.config.idleTimeout
            && e.clock(id) - s.sessions[id].createdAt <= s.config.absoluteTtl
    ensures id in Next(s, e).sessions ==> Next(s, e).sessions[id] == s.sessions[id]
  {
  }
}
