/**
 The five handlers as they are written, over the tables they update in place. A handler that runs with
 no other call in between does what its program of lock holds does when it alone takes steps; the
 interleaved behaviour of the same program is in `UserServiceSessions`.
 */
module UserServiceHandlers {
  import opened Wrappers
  import opened Text
  import opened AuthStore
  import opened UserService
  import opened UserServiceCalls

  /** Run one thread to its reply with no interference. */
  ghost function Alone(s: Store, pc: Pc, now: nat, who: Identity): (Store, Reply)
    decreases StepsLeft(pc)
  {
    if pc.Finished? then (s, pc.reply)
    else
      StepTakesOne(s, pc, now, who);
      if Wants(pc).Some? then Alone(s, Entered(pc), now, who)
      else Alone(Work(s, pc, now, who).0, Work(s, pc, now, who).1, now, who)
  }

  /** Waiting for a lock nobody else wants and then working under it. */
  lemma AloneThroughLock(s: Store, pc: Pc, now: nat, who: Identity)
    requires Wants(pc).Some? && !pc.Finished?
    ensures Wants(Entered(pc)).None? && !Entered(pc).Finished?
    ensures Alone(s, pc, now, who) == Alone(Work(s, Entered(pc), now, who).0, Work(s, Entered(pc), now, who).1, now, who)
  {
    hide Work;
    assert Alone(s, pc, now, who) == Alone(s, Entered(pc), now, who);
  }

  lemma AloneWork(s: Store, pc: Pc, now: nat, who: Identity)
    requires Wants(pc).None? && !pc.Finished?
    ensures Alone(s, pc, now, who) == Alone(Work(s, pc, now, who).0, Work(s, pc, now, who).1, now, who)
  {
    hide Work, Wants;
  }

  lemma DrawToken(s: Store, user: User, kind: Kind, now: nat, keeps: bool, who: Identity)
    ensures Work(s, IssueDrawsToken(user, kind, now, keeps), now, who) ==
            (s.(nextSessionId := s.nextSessionId + 1),
             IssueWaitsSessions(NewSession(user.app, s.nextSessionId, user, kind, now), keeps))
  {
    hide NewSession;
  }

  lemma AloneInsert(s: Store, session: Session, keeps: bool, now: nat, who: Identity)
    ensures Alone(s, IssueWaitsSessions(session, keeps), now, who) ==
            (s.(sessions := s.sessions[session.token := session]), Answered(session))
  {
    AloneThroughLock(s, IssueWaitsSessions(session, keeps), now, who);
    var filed := s.(sessions := s.sessions[session.token := session]);
    if keeps {
      AloneWork(filed, RegisterReturns(session), now, who);
    }
  }

  lemma AloneDraw(s: Store, user: User, kind: Kind, now: nat, keeps: bool, who: Identity)
    ensures Alone(s, IssueWaitsCounter(user, kind, now, keeps), now, who) ==
            Alone(s.(nextSessionId := s.nextSessionId + 1),
                  IssueWaitsSessions(NewSession(user.app, s.nextSessionId, user, kind, now), keeps), now, who)
  {
    hide Alone, Work, NewSession;
    AloneThroughLock(s, IssueWaitsCounter(user, kind, now, keeps), now, who);
    DrawToken(s, user, kind, now, keeps, who);
  }

  lemma AloneIssue(s: Store, user: User, kind: Kind, now: nat, keeps: bool, who: Identity)
    ensures var session := NewSession(user.app, s.nextSessionId, user, kind, now);
            Alone(s, IssueWaitsCounter(user, kind, now, keeps), now, who) ==
            (s.(sessions := s.sessions[session.token := session], nextSessionId := s.nextSessionId + 1),
             Answered(session))
  {
    hide Alone, Work, NewSession;
    AloneDraw(s, user, kind, now, keeps, who);
    AloneInsert(s.(nextSessionId := s.nextSessionId + 1), NewSession(user.app, s.nextSessionId, user, kind, now), keeps, now, who);
  }

  /** The anonymous program by itself, up to the issue of its session. */
  lemma AloneAnonymous(s: Store, app: string, cookie: Cookie, now: nat, who: Identity)
    ensures Alone(s, AnonymousWaits(app, cookie), now, who) ==
            match CookieSession(s.sessions, app, cookie)
            case Err(_) => (s, Failed)
            case Ok(Some(session)) => (s, Answered(session))
            case Ok(None) =>
              Alone(s.(nextUserId := s.nextUserId + 1),
                    IssueWaitsCounter(AnonymousUser(app, s.nextUserId, who.0, who.1), Anonymous, now, false), now, who)
  {
    hide Alone, AnonymousUser, CookieSession;
    AloneThroughLock(s, AnonymousWaits(app, cookie), now, who);
    AloneThroughLock(s, AnonymousWaitsUsers(app), now, who);
    AloneThroughLock(s, AnonymousWaitsCounter(app, who.0, who.1), now, who);
    var existing := CookieSession(s.sessions, app, cookie);
    AloneFinished(s, Failed, now, who);
    if existing.Ok? && existing.value.Some? {
      AloneFinished(s, Answered(existing.value.value), now, who);
    }
  }

  /** A session of the app that has not run out. */
  predicate Usable(sessions: map<string, Session>, token: string, app: string, now: nat) {
    token in sessions && now < sessions[token].expiresAt && sessions[token].user.app == app
  }

  class AppState {
    var users: map<string, User>
    var sessions: map<string, Session>
    var nextUserId: nat
    var nextSessionId: nat

    function Model(): Store
      reads this
    {
      Store(users, sessions, nextUserId, nextSessionId)
    }

    /** `seeded_state`, with the seeded users given. */
    constructor (seededUsers: map<string, User>)
      ensures Model() == Store(seededUsers, map[], 6000, 1)
    {
      users, sessions, nextUserId, nextSessionId := seededUsers, map[], 6000, 1;
    }

    method IssueSession(user: User, kind: Kind, now: nat, ghost who: Identity) returns (session: Session)
      modifies this`sessions, this`nextSessionId
      ensures forall keeps :: (Model(), Answered(session)) ==
                              Alone(old(Model()), IssueWaitsCounter(user, kind, now, keeps), now, who)
      ensures session.user == user && session.kind == kind && session.issuedAt == session.lastSeenAt == now
      ensures session.expiresAt == now + 2592000 && session.token in sessions && sessions[session.token] == session
      ensures session.token == (if kind == Authenticated then "session" else "anon") + "-" + user.app + "-"
                               + Decimal(old(nextSessionId))
    {
      AloneIssue(Model(), user, kind, now, true, who);
      AloneIssue(Model(), user, kind, now, false, who);
      hide Alone;
      var token := TokenText(kind, user.app, nextSessionId);
      nextSessionId := nextSessionId + 1;
      session := Session(token, user, kind, now, now, now + LEASE);
      sessions := sessions[token := session];
    }

    method ResolveSession(token: string, expectedApp: Option<string>, now: nat) returns (r: Result<Session, AuthError>)
      modifies this`sessions
      ensures (r, sessions) == Resolve(old(sessions), token, expectedApp, now)
    {
      if token !in sessions {
        return Err(ExpiredOrInvalid);
      }
      var existing := sessions[token];
      if existing.expiresAt <= now {
        sessions := sessions - {token};
        return Err(ExpiredOrInvalid);
      }
      if expectedApp.Some? && existing.user.app != expectedApp.value {
        return Err(WrongApp);
      }
      var renewed := existing.(lastSeenAt := now, expiresAt := now + LEASE);
      sessions := sessions[token := renewed];
      return Ok(renewed);
    }

    method Login(inv: Invocation, now: nat, ghost who: Identity) returns (reply: Reply)
      modifies this`sessions, this`nextSessionId
      ensures match LoginEntry(inv)
              case None => reply == Failed && Model() == old(Model())
              case Some(pc) => (Model(), reply) == Alone(old(Model()), pc, now, who)
      ensures reply.Answered? <==> && LoginEntry(inv).Some? && LoginEntry(inv).value.LoginWaits?
                                   && Key(LoginEntry(inv).value.app, LoginEntry(inv).value.email) in old(users)
                                   && old(users)[Key(LoginEntry(inv).value.app, LoginEntry(inv).value.email)].password
                                      == LoginEntry(inv).value.password
      ensures reply.Answered? ==>
                reply.session.user == old(users)[Key(LoginEntry(inv).value.app, LoginEntry(inv).value.email)]
    {
      hide LoginEntry, Key, Alone;
      var entry := LoginEntry(inv);
      if entry.None? {
        return Failed;
      }
      assert entry.value.LoginWaits? by {
        EntryKinds(inv);
      }
      var (app, email, password) := (entry.value.app, entry.value.email, entry.value.password);
      AloneThroughLock(Model(), entry.value, now, who);
      AloneFinished(Model(), Failed, now, who);
      var key := Key(app, email);
      if key !in users {
        return Failed;
      }
      var user := users[key];
      if user.password != password {
        return Failed;
      }
      var session := IssueSession(user, Authenticated, now, who);
      reply := Answered(session);
    }

    method Register(inv: Invocation, now: nat) returns (reply: Reply, ghost who: Identity)
      modifies this
      ensures match RegisterEntry(inv)
              case None => reply == Failed && Model() == old(Model())
              case Some(pc) =>
                && (Model(), reply) == Alone(old(Model()), pc, now, who)
                && IsDefaultIdentity(old(users), pc.registration.app, who.0, who.1)
                && var (r, key) := (pc.registration, Key(pc.registration.app, pc.registration.email));
                && (if key in old(users) then reply == Failed && Model() == old(Model())
                    else
                      && reply.Answered? && users == old(users)[key := reply.session.user]
                      && reply.session.user == User(r.app, "u_" + Decimal(old(nextUserId)), who.0, r.email, r.password,
                                                    r.displayName, who.1, false))
    {
      hide RegisterEntry, Key, Alone, IsDefaultIdentity, Decimal;
      var entry := RegisterEntry(inv);
      if entry.None? {
        return Failed, ("", []);
      }
      assert entry.value.RegisterWaits? by {
        EntryKinds(inv);
      }
      var r := entry.value.registration;
      var tenantId, roles := DefaultIdentity(users, r.app);
      who := (tenantId, roles);
      AloneThroughLock(Model(), RegisterWaits(r), now, who);
      AloneThroughLock(Model(), RegisterWaitsCounter(r), now, who);
      AloneFinished(Model(), Failed, now, who);
      var key := Key(r.app, r.email);
      if key in users {
        return Failed, who;
      }
      var user := RegisteredUser(r, nextUserId, tenantId, roles);
      hide RegisteredUser;
      nextUserId := nextUserId + 1;
      users := users[key := user];
      var session := IssueSession(user, Authenticated, now, who);
      reply := Answered(session);
    }

    method Me(inv: Invocation, now: nat, ghost who: Identity) returns (reply: Reply)
      modifies this`sessions
      ensures match MeEntry(inv)
              case None => reply == Failed && Model() == old(Model())
              case Some(pc) =>
                && (Model(), reply) == Alone(old(Model()), pc, now, who)
                && (if Usable(old(sessions), pc.token, pc.app, now) then
                      && reply == Answered(old(sessions)[pc.token].(lastSeenAt := now, expiresAt := now + 2592000))
                      && sessions == old(sessions)[pc.token := reply.session]
                    else reply == Failed)
    {
      hide Alone, SessionToken, InvocationApp;
      var token := SessionToken(inv, "me");
      if token.Err? {
        return Failed;
      }
      var app := InvocationApp(inv);
      if app.Err? {
        return Failed;
      }
      AloneThroughLock(Model(), MeWaits(token.value, app.value), now, who);
      var r := ResolveSession(token.value, Some(app.value), now);
      reply := if r.Ok? then Answered(r.value) else Failed;
      AloneFinished(Model(), reply, now, who);
    }

    method Logout(inv: Invocation, now: nat, ghost who: Identity) returns (reply: Reply)
      modifies this`sessions
      ensures match LogoutEntry(inv)
              case None => reply == Failed && Model() == old(Model())
              case Some(pc) =>
                && (Model(), reply) == Alone(old(Model()), pc, now, who)
                && (if Usable(old(sessions), pc.token, pc.app, now)
                    then reply == RevokedToken(pc.token) && sessions == old(sessions) - {pc.token}
                    else reply == Failed)
    {
      hide Alone, SessionToken, InvocationApp;
      var token := SessionToken(inv, "logout");
      if token.Err? {
        return Failed;
      }
      var app := InvocationApp(inv);
      if app.Err? {
        return Failed;
      }
      AloneThroughLock(Model(), LogoutWaits(token.value, app.value), now, who);
      var r := ResolveSession(token.value, Some(app.value), now);
      if r.Err? {
        AloneFinished(Model(), Failed, now, who);
        return Failed;
      }
      AloneThroughLock(Model(), LogoutWaitsAgain(token.value), now, who);
      var removed := token.value in sessions;
      sessions := sessions - {token.value};
      reply := if removed then RevokedToken(token.value) else Failed;
      AloneFinished(Model(), reply, now, who);
    }

    method EnsureAnonymousSession(inv: Invocation, now: nat) returns (reply: Reply, ghost who: Identity)
      modifies this
      ensures match AnonymousEntry(inv)
              case None => reply == Failed && Model() == old(Model())
              case Some(pc) =>
                && (Model(), reply) == Alone(old(Model()), pc, now, who)
                && IsDefaultIdentity(old(users), pc.app, who.0, who.1)
                && match pc.cookie
                   case Err(_) => reply == Failed
                   case Ok(cookie) =>
                     if cookie.Some? && cookie.value in old(sessions)
                     then reply == if old(sessions)[cookie.value].user.app == pc.app then Answered(old(sessions)[cookie.value]) else Failed
                     else reply.Answered? && reply.session.kind == Anonymous && reply.session.token in sessions
                          && reply.session.user == AnonymousUser(pc.app, old(nextUserId), who.0, who.1)
    {
      hide Alone, AnonymousUser, InvocationApp, CookieToken, IsDefaultIdentity;
      var normalized := InvocationApp(inv);
      if normalized.Err? {
        return Failed, ("", []);
      }
      var app := normalized.value;
      var cookie := CookieToken(inv);
      var tenantId, roles := DefaultIdentity(users, app);
      who := (tenantId, roles);
      AloneAnonymous(Model(), app, cookie, now, who);
      var existing := CookieSession(sessions, app, cookie);
      if existing.Err? {
        return Failed, who;
      }
      if existing.value.Some? {
        return Answered(existing.value.value), who;
      }
      hide CookieSession;
      var user := AnonymousUser(app, nextUserId, tenantId, roles);
      nextUserId := nextUserId + 1;
      var session := IssueSession(user, Anonymous, now, who);
      reply := Answered(session);
    }
  }

  lemma EntryKinds(inv: Invocation)
    ensures LoginEntry(inv).Some? ==> LoginEntry(inv).value.LoginWaits?
    ensures RegisterEntry(inv).Some? ==> RegisterEntry(inv).value.RegisterWaits?
  {
  }

  lemma AloneFinished(s: Store, reply: Reply, now: nat, who: Identity)
    ensures Alone(s, Finished(reply), now, who) == (s, reply)
  {
  }
}
