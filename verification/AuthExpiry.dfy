/**
 What lazy expiry means to callers. An eager store that drops every session the instant its lease
 ends gives the same answers; and whether a token resolves can be read off the history of answers
 alone. Clocks never go backward.
 */
module AuthExpiry {
  import opened Wrappers
  import opened Text
  import opened AuthStore

  // ---- the eager reference ----

  function Live(sessions: map<string, Session>, now: nat): map<string, Session> {
    map token | token in sessions && now < sessions[token].expiresAt :: sessions[token]
  }

  /** A lookup in a table that holds live sessions only: no expiry check. */
  function EagerResolve(sessions: map<string, Session>, token: string, expectedApp: Option<string>, now: nat)
    : (Result<Session, AuthError>, map<string, Session>)
  {
    if token !in sessions then (Err(ExpiredOrInvalid), sessions)
    else if expectedApp.Some? && sessions[token].user.app != expectedApp.value then (Err(WrongApp), sessions)
    else (Ok(Renewed(sessions[token], now)), sessions[token := Renewed(sessions[token], now)])
  }

  function EagerLookUp(s: Store, token: string, expectedApp: Option<string>, logout: bool, now: nat): (Answer, Store) {
    var (result, sessions) := EagerResolve(s.sessions, token, expectedApp, now);
    match result
    case Err(e) => (Refused(e), s)
    case Ok(session) =>
      if logout then (Revoked(token), s.(sessions := sessions - {token}))
      else (Granted(session), s.(sessions := sessions))
  }

  /** One request against the store that first drops everything stale. */
  function Eager(s: Store, request: Request, now: nat): (Answer, Store) {
    var s := s.(sessions := Live(s.sessions, now));
    if IsIssue(request) then Issue(s, request, now)
    else
      match Target(request)
      case Err(e) => (Refused(e), s)
      case Ok(target) => EagerLookUp(s, target.0, target.1, IsLogout(request), now)
  }

  datatype Timed = Timed(now: nat, request: Request)

  predicate NonDecreasing(start: nat, run: seq<Timed>) {
    && (run != [] ==> start <= run[0].now)
    && forall i | 0 < i < |run| :: run[i - 1].now <= run[i].now
  }

  lemma NonDecreasingTail(start: nat, run: seq<Timed>)
    requires NonDecreasing(start, run) && run != []
    ensures start <= run[0].now && NonDecreasing(run[0].now, run[1..])
  {
  }

  function LazyAnswers(s: Store, run: seq<Timed>): seq<Answer>
    decreases |run|
  {
    if run == [] then []
    else
      var (answer, s') := Lazy(s, run[0].request, run[0].now);
      [answer] + LazyAnswers(s', run[1..])
  }

  function EagerAnswers(s: Store, run: seq<Timed>): seq<Answer>
    decreases |run|
  {
    if run == [] then []
    else
      var (answer, s') := Eager(s, run[0].request, run[0].now);
      [answer] + EagerAnswers(s', run[1..])
  }

  /** The eager store holds exactly the lazy store's live sessions. */
  ghost predicate Related(lazy: Store, eager: Store, now: nat) {
    && WellKeyed(lazy)
    && eager.users == lazy.users && eager.nextUserId == lazy.nextUserId && eager.nextSessionId == lazy.nextSessionId
    && Live(eager.sessions, now) == Live(lazy.sessions, now)
  }

  lemma LiveLater(a: map<string, Session>, b: map<string, Session>, t: nat, now: nat)
    requires t <= now && Live(a, t) == Live(b, t)
    ensures Live(a, now) == Live(b, now)
  {
    assert forall token :: token in Live(a, now) ==> token in Live(a, t);
    assert forall token :: token in Live(b, now) ==> token in Live(b, t);
    assert forall token :: token in Live(a, t) ==> a[token] == Live(a, t)[token] && token in b;
    assert forall token :: token in Live(b, t) ==> b[token] == Live(b, t)[token] && token in a;
  }

  lemma LiveUpdate(a: map<string, Session>, b: map<string, Session>, token: string, session: Session, now: nat)
    requires Live(a, now) == Live(b, now)
    ensures Live(a[token := session], now) == Live(b[token := session], now)
    ensures Live(a - {token}, now) == Live(b - {token}, now)
  {
    forall other
      ensures other in Live(a, now) <==> other in Live(b, now)
      ensures other in Live(a, now) ==> a[other] == b[other]
    {
      assert other in Live(a, now) ==> Live(a, now)[other] == a[other];
      assert other in Live(b, now) ==> Live(b, now)[other] == b[other];
    }
  }

  lemma LiveTwice(a: map<string, Session>, now: nat)
    ensures Live(Live(a, now), now) == Live(a, now)
  {
  }

  lemma SameIssue(lazy: Store, eager: Store, request: Request, now: nat)
    requires Related(lazy, eager, now) && eager.sessions == Live(eager.sessions, now) && IsIssue(request)
    ensures Issue(lazy, request, now).0 == Issue(eager, request, now).0
    ensures Related(Issue(lazy, request, now).1, Issue(eager, request, now).1, now)
  {
    hide WellKeyed, TokenText, UserKey, AnonymousUser, NormalizeApp, Live, Decimal, Trim;
    IssueKeepsKeys(lazy, request, now);
    var answer := Issue(lazy, request, now).0;
    if answer.Granted? {
      LiveUpdate(lazy.sessions, eager.sessions, answer.session.token, answer.session, now);
    }
  }

  /** Lookups agree once the eager table is purged. */
  lemma SameResolve(lazy: map<string, Session>, token: string, expectedApp: Option<string>, now: nat)
    ensures var l, e := Resolve(lazy, token, expectedApp, now), EagerResolve(Live(lazy, now), token, expectedApp, now);
            l.0 == e.0 && Live(l.1, now) == Live(e.1, now)
  {
    var l, e := Resolve(lazy, token, expectedApp, now), EagerResolve(Live(lazy, now), token, expectedApp, now);
    LiveTwice(lazy, now);
    if l.0.Ok? {
      LiveUpdate(lazy, Live(lazy, now), token, l.0.value, now);
    }
  }

  lemma SameLookUp(lazy: Store, eager: Store, token: string, expectedApp: Option<string>, logout: bool, now: nat)
    requires Live(eager.sessions, now) == Live(lazy.sessions, now)
    ensures var l := LookUp(lazy, token, expectedApp, logout, now);
            var e := EagerLookUp(eager.(sessions := Live(eager.sessions, now)), token, expectedApp, logout, now);
            && l.0 == e.0
            && Live(l.1.sessions, now) == Live(e.1.sessions, now)
            && l.1 == lazy.(sessions := l.1.sessions) && e.1 == eager.(sessions := e.1.sessions)
  {
    SameResolve(lazy.sessions, token, expectedApp, now);
    var l := Resolve(lazy.sessions, token, expectedApp, now);
    var e := EagerResolve(Live(eager.sessions, now), token, expectedApp, now);
    hide Live;
    if l.0.Ok? {
      LiveUpdate(l.1, e.1, token, l.0.value, now);
    }
  }

  lemma SameStep(lazy: Store, eager: Store, request: Request, now: nat)
    requires Related(lazy, eager, now)
    ensures Lazy(lazy, request, now).0 == Eager(eager, request, now).0
    ensures Related(Lazy(lazy, request, now).1, Eager(eager, request, now).1, now)
  {
    LazyKeepsKeys(lazy, request, now);
    LiveTwice(eager.sessions, now);
    hide WellKeyed, LookUp, EagerLookUp, Target, Live, Issue;
    if IsIssue(request) {
      SameIssue(lazy, eager.(sessions := Live(eager.sessions, now)), request, now);
    } else if Target(request).Ok? {
      var target := Target(request).value;
      SameLookUp(lazy, eager, target.0, target.1, IsLogout(request), now);
    }
  }

  /**
   Refinement: over every run with a non-decreasing clock the lazy store answers each request -
   registration, login, anonymous session, bearer or cookie lookup, logout request - exactly as the
   store that drops sessions the instant they expire.
   */
  lemma {:induction false} LazyExpiryIsInvisible(lazy: Store, eager: Store, start: nat, run: seq<Timed>)
    requires Related(lazy, eager, start) && NonDecreasing(start, run)
    ensures LazyAnswers(lazy, run) == EagerAnswers(eager, run)
    decreases |run|
  {
    if run != [] {
      var now := run[0].now;
      LiveLater(lazy.sessions, eager.sessions, start, now);
      SameStep(lazy, eager, run[0].request, now);
      NonDecreasingTail(start, run);
      hide Lazy, Eager, Related, NonDecreasing;
      LazyExpiryIsInvisible(Lazy(lazy, run[0].request, now).1, Eager(eager, run[0].request, now).1, now, run[1..]);
    }
  }

  // ---- what the answers alone tell ----

  datatype Event = Event(now: nat, answer: Answer)

  /** The events and the store after a run. */
  function After(s: Store, run: seq<Timed>): (r: (seq<Event>, Store))
    ensures |r.0| == |run|
    decreases |run|
  {
    if run == [] then ([], s)
    else
      var n := |run| - 1;
      var (events, mid) := After(s, run[..n]);
      var (answer, s') := Lazy(mid, run[n].request, run[n].now);
      (events + [Event(run[n].now, answer)], s')
  }

  predicate Uses(e: Event, token: string) {
    e.answer.Granted? && e.answer.session.token == token
  }

  /** When the token was last handed out or renewed. */
  function LastUse(events: seq<Event>, token: string): Option<nat> {
    if events == [] then None
    else if Uses(events[|events| - 1], token) then Some(events[|events| - 1].now)
    else LastUse(events[..|events| - 1], token)
  }

  predicate WasRevoked(events: seq<Event>, token: string) {
    exists i :: 0 <= i < |events| && events[i].answer == Revoked(token)
  }

  /** Handed out, not revoked, and used less than one lease ago. */
  predicate Resolvable(events: seq<Event>, token: string, now: nat) {
    LastUse(events, token).Some? && !WasRevoked(events, token) && now < LastUse(events, token).value + LEASE
  }

  /** The table against the history up to time `t`. */
  ghost predicate Tells(events: seq<Event>, s: Store, t: nat) {
    && WellKeyed(s)
    && (forall token | token in s.sessions ::
          LastUse(events, token) == Some(s.sessions[token].lastSeenAt) && !WasRevoked(events, token)
          && s.sessions[token].expiresAt == s.sessions[token].lastSeenAt + LEASE)
    && (forall token | token !in s.sessions :: !Resolvable(events, token, t))
    && (forall token | LastUse(events, token).Some? :: IssuedBefore(token, s.nextSessionId))
    && (forall token | WasRevoked(events, token) :: IssuedBefore(token, s.nextSessionId))
  }

  function End(start: nat, run: seq<Timed>): nat {
    if run == [] then start else run[|run| - 1].now
  }

  lemma LastUseSnoc(events: seq<Event>, e: Event, token: string)
    ensures LastUse(events + [e], token) == if Uses(e, token) then Some(e.now) else LastUse(events, token)
    ensures WasRevoked(events + [e], token) <==> WasRevoked(events, token) || e.answer == Revoked(token)
  {
    assert (events + [e])[..|events|] == events;
    if WasRevoked(events, token) {
      var i :| 0 <= i < |events| && events[i].answer == Revoked(token);
      assert (events + [e])[i].answer == Revoked(token);
    }
    if e.answer == Revoked(token) {
      assert (events + [e])[|events|].answer == Revoked(token);
    }
    if WasRevoked(events + [e], token) {
      var i :| 0 <= i < |events + [e]| && (events + [e])[i].answer == Revoked(token);
      assert i < |events| ==> events[i].answer == Revoked(token);
    }
  }

  lemma QuietTells(events: seq<Event>, s: Store, s': Store, t: nat, e: Event)
    requires Tells(events, s, t) && t <= e.now && e.answer.Refused?
    requires s'.nextSessionId == s.nextSessionId && WellKeyed(s')
    requires forall token :: token in s'.sessions ==> token in s.sessions && s'.sessions[token] == s.sessions[token]
    requires forall token | token in s.sessions && token !in s'.sessions :: s.sessions[token].expiresAt <= e.now
    ensures Tells(events + [e], s', e.now)
  {
    hide WellKeyed, LastUse, WasRevoked, IssuedBefore;
    forall token
      ensures LastUse(events + [e], token) == LastUse(events, token)
      ensures WasRevoked(events + [e], token) <==> WasRevoked(events, token)
    {
      LastUseSnoc(events, e, token);
    }
  }

  lemma GrantTells(events: seq<Event>, s: Store, s': Store, t: nat, e: Event)
    requires Tells(events, s, t) && t <= e.now && e.answer.Granted? && WellKeyed(s')
    requires var session := e.answer.session;
             && s'.sessions == s.sessions[session.token := session]
             && session.lastSeenAt == e.now && session.expiresAt == e.now + LEASE
             && s.nextSessionId <= s'.nextSessionId
             && IssuedBefore(session.token, s'.nextSessionId)
             && !WasRevoked(events, session.token)
    ensures Tells(events + [e], s', e.now)
  {
    hide WellKeyed, LastUse, WasRevoked, IssuedBefore;
    forall token
      ensures LastUse(events + [e], token) == if Uses(e, token) then Some(e.now) else LastUse(events, token)
      ensures WasRevoked(events + [e], token) <==> WasRevoked(events, token)
      ensures IssuedBefore(token, s.nextSessionId) ==> IssuedBefore(token, s'.nextSessionId)
    {
      LastUseSnoc(events, e, token);
      if IssuedBefore(token, s.nextSessionId) {
        IssuedBeforeGrows(token, s.nextSessionId, s'.nextSessionId);
      }
    }
  }

  lemma RevokeTells(events: seq<Event>, s: Store, s': Store, t: nat, e: Event, token: string)
    requires Tells(events, s, t) && t <= e.now && e.answer == Revoked(token) && WellKeyed(s')
    requires token in s.sessions && s'.sessions == s.sessions - {token} && s'.nextSessionId == s.nextSessionId
    ensures Tells(events + [e], s', e.now)
  {
    assert IssuedBefore(token, s.nextSessionId);
    hide WellKeyed, LastUse, WasRevoked, IssuedBefore;
    forall other
      ensures LastUse(events + [e], other) == LastUse(events, other)
      ensures WasRevoked(events + [e], other) <==> WasRevoked(events, other) || other == token
    {
      LastUseSnoc(events, e, other);
    }
  }

  lemma IssueTells(events: seq<Event>, s: Store, t: nat, request: Request, now: nat)
    requires Tells(events, s, t) && t <= now && IsIssue(request)
    ensures Tells(events + [Event(now, Issue(s, request, now).0)], Issue(s, request, now).1, now)
  {
    IssueKeepsKeys(s, request, now);
    var (answer, s') := Issue(s, request, now);
    var e := Event(now, answer);
    if answer.Granted? {
      assert IssuedBefore(answer.session.token, s'.nextSessionId) by {
        assert answer.session.token in s'.sessions;
      }
      IssueDrawsId(s, request, now);
      hide Issue, WellKeyed, IssuedBefore, WasRevoked;
      GrantTells(events, s, s', t, e);
    } else {
      hide Issue, WellKeyed;
      QuietTells(events, s, s', t, e);
    }
  }

  lemma IssueDrawsId(s: Store, request: Request, now: nat)
    ensures Issue(s, request, now).0.Granted? ==> Issue(s, request, now).1.nextSessionId == s.nextSessionId + 1
  {
    hide TokenText, UserKey, AnonymousUser, NormalizeApp, Decimal, Trim;
  }

  lemma LookUpTells(events: seq<Event>, s: Store, t: nat, token: string, app: Option<string>, logout: bool, now: nat)
    requires Tells(events, s, t) && t <= now
    ensures var (answer, s') := LookUp(s, token, app, logout, now);
            WellKeyed(s') ==> Tells(events + [Event(now, answer)], s', now)
  {
    var (answer, s') := LookUp(s, token, app, logout, now);
    if WellKeyed(s') {
      var e := Event(now, answer);
      ResolveKeepsKeys(s, token, app, now);
      hide LastUse, WasRevoked, IssuedBefore, WellKeyed;
      if answer.Granted? {
        assert IssuedBefore(token, s.nextSessionId) by {
          assert token in s.sessions;
          StoredWasIssued(s, token);
        }
        GrantTells(events, s, s', t, e);
      } else if answer.Revoked? {
        assert s'.sessions == s.sessions - {token};
        RevokeTells(events, s, s', t, e, token);
      } else {
        QuietTells(events, s, s', t, e);
      }
    }
  }

  lemma StoredWasIssued(s: Store, token: string)
    requires WellKeyed(s) && token in s.sessions
    ensures IssuedBefore(token, s.nextSessionId)
  {
  }

  lemma RequestTells(events: seq<Event>, s: Store, t: nat, request: Request, now: nat)
    requires Tells(events, s, t) && t <= now
    ensures var (answer, s') := Lazy(s, request, now);
            Tells(events + [Event(now, answer)], s', now)
  {
    LazyKeepsKeys(s, request, now);
    hide Target, LookUp, Issue;
    if IsIssue(request) {
      IssueTells(events, s, t, request, now);
    } else if Target(request).Ok? {
      hide Tells, WellKeyed;
      LookUpTells(events, s, t, Target(request).value.0, Target(request).value.1, IsLogout(request), now);
    } else {
      hide LastUse, WasRevoked, IssuedBefore, WellKeyed;
      QuietTells(events, s, s, t, Event(now, Refused(Target(request).error)));
    }
  }

  /** A freshly started service. */
  predicate Fresh(s: Store) {
    s.sessions == map[]
  }

  lemma {:induction false} HistoryTells(s: Store, start: nat, run: seq<Timed>)
    requires Fresh(s) && NonDecreasing(start, run)
    ensures Tells(After(s, run).0, After(s, run).1, End(start, run))
  {
    if run != [] {
      var n := |run| - 1;
      HistoryTells(s, start, run[..n]);
      var (events, mid) := After(s, run[..n]);
      assert End(start, run[..n]) <= run[n].now;
      hide Tells, Lazy;
      RequestTells(events, mid, End(start, run[..n]), run[n].request, run[n].now);
    }
  }

  lemma LookUpAgainstHistory(events: seq<Event>, s: Store, t: nat, token: string, app: Option<string>, now: nat)
    requires Tells(events, s, t) && t <= now
    ensures LookUp(s, token, app, false, now).0.Granted? <==>
            && Resolvable(events, token, now)
            && (app.Some? ==> token in s.sessions && s.sessions[token].user.app == app.value)
  {
    hide LastUse, WasRevoked, IssuedBefore, WellKeyed;
  }

  /**
   A bearer lookup succeeds exactly when the history of answers shows its token handed out, never revoked, and
   handed out or successfully used less than one lease ago. A failed lookup, wrong-app ones included, is no use
   and so renews nothing.
   */
  lemma BearerResolvesIffHistorySays(s: Store, start: nat, run: seq<Timed>, value: string, now: nat)
    requires Fresh(s) && NonDecreasing(start, run) && End(start, run) <= now
    ensures var (events, s') := After(s, run);
            Lazy(s', Bearer(value), now).0.Granted? <==>
            SanitizeToken(value).Ok? && Resolvable(events, SanitizeToken(value).value, now)
  {
    hide SanitizeToken, Issue;
    HistoryTells(s, start, run);
    if SanitizeToken(value).Ok? {
      LookUpAgainstHistory(After(s, run).0, After(s, run).1, End(start, run), SanitizeToken(value).value, None, now);
    }
    hide LookUp, Resolvable, Tells, After, NonDecreasing, End;
  }

  /** The session last handed out or renewed under the token. */
  function LastGrant(events: seq<Event>, token: string): Option<Session> {
    if events == [] then None
    else if Uses(events[|events| - 1], token) then Some(events[|events| - 1].answer.session)
    else LastGrant(events[..|events| - 1], token)
  }

  /** The app of that session's user. */
  function GrantedApp(events: seq<Event>, token: string): Option<string> {
    match LastGrant(events, token) case Some(session) => Some(session.user.app) case None => None
  }

  /** Whatever is filed is what was last granted. */
  ghost predicate FiledAsGranted(events: seq<Event>, sessions: map<string, Session>) {
    forall token | token in sessions :: LastGrant(events, token) == Some(sessions[token])
  }

  lemma LastGrantSnoc(events: seq<Event>, e: Event, token: string)
    ensures LastGrant(events + [e], token) == if Uses(e, token) then Some(e.answer.session) else LastGrant(events, token)
  {
    assert (events + [e])[..|events|] == events;
  }

  lemma StepFilesGrants(events: seq<Event>, sessions: map<string, Session>, sessions': map<string, Session>, e: Event)
    requires FiledAsGranted(events, sessions)
    requires forall token | token in sessions' ::
               if Uses(e, token) then sessions'[token] == e.answer.session
               else token in sessions && sessions'[token] == sessions[token]
    ensures FiledAsGranted(events + [e], sessions')
  {
    hide LastGrant, Uses;
    forall token | token in sessions' ensures LastGrant(events + [e], token) == Some(sessions'[token]) {
      LastGrantSnoc(events, e, token);
    }
  }

  lemma LookUpFiles(s: Store, token: string, app: Option<string>, logout: bool, now: nat)
    requires WellKeyed(s)
    ensures var (answer, s') := LookUp(s, token, app, logout, now);
            forall other | other in s'.sessions ::
              if Uses(Event(now, answer), other) then s'.sessions[other] == answer.session
              else other in s.sessions && s'.sessions[other] == s.sessions[other]
  {
    hide IssuedBefore;
  }

  lemma RequestFiles(events: seq<Event>, s: Store, request: Request, now: nat)
    requires WellKeyed(s) && FiledAsGranted(events, s.sessions)
    ensures var (answer, s') := Lazy(s, request, now); FiledAsGranted(events + [Event(now, answer)], s'.sessions)
  {
    hide Target, LookUp, Issue, FiledAsGranted, WellKeyed, IssuedBefore;
    var (answer, s') := Lazy(s, request, now);
    if IsIssue(request) {
      IssueKeepsKeys(s, request, now);
    } else if Target(request).Ok? {
      LookUpFiles(s, Target(request).value.0, Target(request).value.1, IsLogout(request), now);
    }
    StepFilesGrants(events, s.sessions, s'.sessions, Event(now, answer));
  }

  lemma {:induction false} TableHoldsLastGrants(s: Store, start: nat, run: seq<Timed>)
    requires Fresh(s) && NonDecreasing(start, run)
    ensures FiledAsGranted(After(s, run).0, After(s, run).1.sessions)
  {
    if run != [] {
      var n := |run| - 1;
      TableHoldsLastGrants(s, start, run[..n]);
      HistoryTells(s, start, run[..n]);
      hide Lazy, FiledAsGranted, LastUse, WasRevoked, Resolvable;
      RequestFiles(After(s, run[..n]).0, After(s, run[..n]).1, run[n].request, run[n].now);
    }
  }

  lemma ResolvableIsFiled(events: seq<Event>, s: Store, t: nat, token: string, now: nat)
    requires Tells(events, s, t) && t <= now && Resolvable(events, token, now)
    ensures token in s.sessions
  {
    hide LastUse, WasRevoked, IssuedBefore, WellKeyed;
  }

  lemma CookieAgainstHistory(events: seq<Event>, s: Store, t: nat, token: string, app: Option<string>, now: nat)
    requires Tells(events, s, t) && t <= now && FiledAsGranted(events, s.sessions) && app.Some?
    ensures LookUp(s, token, app, false, now).0.Granted? <==>
            Resolvable(events, token, now) && GrantedApp(events, token) == app
  {
    LookUpAgainstHistory(events, s, t, token, app, now);
    if Resolvable(events, token, now) {
      ResolvableIsFiled(events, s, t, token, now);
    }
    hide LookUp, Tells, Resolvable, LastGrant;
  }

  /**
   A cookie lookup succeeds exactly when a bearer lookup of its token would and the token was last granted for a
   user of the requested app.
   */
  lemma CookieResolvesIffHistorySays(s: Store, start: nat, run: seq<Timed>, app: string, value: string, now: nat)
    requires Fresh(s) && NonDecreasing(start, run) && End(start, run) <= now
    ensures var ((events, s'), target) := (After(s, run), CookieTarget(app, value));
            Lazy(s', Cookie(app, value), now).0.Granted? <==>
            && target.Ok? && Resolvable(events, target.value.0, now)
            && GrantedApp(events, target.value.0) == target.value.1 == Some(NormalizeApp(app).value)
  {
    hide Issue;
    CookieNamesAnApp(app, value);
    hide CookieTarget;
    HistoryTells(s, start, run);
    TableHoldsLastGrants(s, start, run);
    var target := CookieTarget(app, value);
    if target.Ok? {
      CookieAgainstHistory(After(s, run).0, After(s, run).1, End(start, run), target.value.0, target.value.1, now);
    }
    hide LookUp, Resolvable, Tells, After, NonDecreasing, End, GrantedApp, FiledAsGranted;
  }

  lemma CookieNamesAnApp(app: string, value: string)
    ensures CookieTarget(app, value).Ok? ==>
              NormalizeApp(app).Ok? && CookieTarget(app, value).value.1 == Some(NormalizeApp(app).value)
  {
  }

  /** Issued in the past and gone or stale now. */
  ghost predicate Dead(s: Store, token: string, now: nat) {
    IssuedBefore(token, s.nextSessionId) && (token !in s.sessions || s.sessions[token].expiresAt <= now)
  }

  lemma DeadLookUp(s: Store, token: string, t: nat, target: string, app: Option<string>, logout: bool, now: nat)
    requires WellKeyed(s) && Dead(s, token, t) && t <= now
    ensures Dead(LookUp(s, target, app, logout, now).1, token, now)
    ensures !Uses(Event(now, LookUp(s, target, app, logout, now).0), token)
  {
    hide IssuedBefore;
  }

  lemma DeadIssue(s: Store, token: string, t: nat, request: Request, now: nat)
    requires WellKeyed(s) && Dead(s, token, t) && t <= now && IsIssue(request)
    ensures Dead(Issue(s, request, now).1, token, now)
    ensures !Uses(Event(now, Issue(s, request, now).0), token)
  {
    hide Issue, IssuedBefore, WellKeyed;
    IssueKeepsKeys(s, request, now);
    IssueDrawsId(s, request, now);
    IssuedBeforeGrows(token, s.nextSessionId, s.nextSessionId + 1);
  }

  lemma DeadStep(s: Store, token: string, t: nat, request: Request, now: nat)
    requires WellKeyed(s) && Dead(s, token, t) && t <= now
    ensures Dead(Lazy(s, request, now).1, token, now)
    ensures !Uses(Event(now, Lazy(s, request, now).0), token)
  {
    hide Issue, NormalizeApp, SanitizeToken, SanitizeCookie, TokenText;
    if IsIssue(request) {
      DeadIssue(s, token, t, request, now);
    } else {
      hide Target, LookUp, Dead, WellKeyed;
      if Target(request).Ok? {
        DeadLookUp(s, token, t, Target(request).value.0, Target(request).value.1, IsLogout(request), now);
      } else {
        StillDead(s, token, t, now);
      }
    }
  }

  lemma StillDead(s: Store, token: string, t: nat, now: nat)
    requires Dead(s, token, t) && t <= now
    ensures Dead(s, token, now)
  {
  }

  /** Once dead, a token is never granted again: no later run renews it and no later issue reuses it. */
  lemma {:induction false} DeadTokensStayDead(s: Store, token: string, start: nat, run: seq<Timed>)
    requires WellKeyed(s) && Dead(s, token, start) && NonDecreasing(start, run)
    ensures WellKeyed(After(s, run).1) && Dead(After(s, run).1, token, End(start, run))
    ensures forall i | 0 <= i < |run| :: !Uses(After(s, run).0[i], token)
    decreases |run|
  {
    hide Lazy, Dead, WellKeyed;
    if run != [] {
      var n := |run| - 1;
      DeadTokensStayDead(s, token, start, run[..n]);
      var mid := After(s, run[..n]).1;
      DeadStep(mid, token, End(start, run[..n]), run[n].request, run[n].now);
      LazyKeepsKeys(mid, run[n].request, run[n].now);
    }
  }
}
