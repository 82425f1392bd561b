/**
 The gateway's in-memory user and session service. Sessions have a sliding lease and expire lazily: a
 stale one stays in the table until something looks it up. One mutex guards everything.
 */
module AuthStore {
  import opened Wrappers
  import opened Text

  const LEASE: nat := 60 * 60 * 24 * 30

  datatype User = User(
    app: string, uid: string, tenantId: string, email: string, password: string, displayName: string,
    roles: seq<string>, anonymous: bool)

  datatype Kind = Authenticated | Anonymous

  datatype Session = Session(token: string, user: User, kind: Kind, issuedAt: nat, lastSeenAt: nat, expiresAt: nat)

  datatype AuthError =
    | AppRequired | IncompleteRegistration | UserExists | BadCredentials
    | MissingBearer | MissingCookie | ExpiredOrInvalid | WrongApp

  /** What the mutex guards. */
  datatype Store = Store(users: map<string, User>, sessions: map<string, Session>, nextUserId: nat, nextSessionId: nat)

  // ---- string helpers ----

  function NormalizeApp(app: string): Result<string, AuthError> {
    var normalized := Lower(Trim(app));
    if normalized == [] then Err(AppRequired) else Ok(normalized)
  }

  function UserKey(app: string, email: string): string {
    Lower(Trim(app)) + ":" + Lower(Trim(email))
  }

  function StripBearer(s: string): string {
    if |s| >= 7 && (s[..7] == "Bearer " || s[..7] == "bearer ") then s[7..] else s
  }

  /** `sanitize_session_token` */
  function SanitizeToken(value: string): Result<string, AuthError> {
    var token := Trim(StripBearer(Trim(value)));
    if token == [] then Err(MissingBearer) else Ok(token)
  }

  function SanitizeCookie(value: string): Result<string, AuthError> {
    var token := Trim(value);
    if token == [] then Err(MissingCookie) else Ok(token)
  }

  function TokenText(kind: Kind, app: string, id: nat): string {
    (match kind case Authenticated => "session" case Anonymous => "anon") + "-" + app + "-" + Decimal(id)
  }

  function NewSession(app: string, id: nat, user: User, kind: Kind, now: nat): Session {
    Session(TokenText(kind, app, id), user, kind, now, now, now + LEASE)
  }

  /** `s` is a token handed out before session id `n`. */
  ghost predicate IssuedBefore(s: string, n: nat) {
    exists kind: Kind, app: string, k: nat :: k < n && s == TokenText(kind, app, k)
  }

  /** The session id can be read back from the token, whatever the app name holds. */
  lemma TokenTellsId(kind: Kind, app: string, m: nat, kind': Kind, app': string, n: nat)
    requires TokenText(kind, app, m) == TokenText(kind', app', n)
    ensures m == n
  {
    var word := match kind case Authenticated => "session" case Anonymous => "anon";
    var word' := match kind' case Authenticated => "session" case Anonymous => "anon";
    hide Decimal;
    DashedSuffixInjective(word + "-" + app, m, word' + "-" + app', n);
  }

  lemma FreshToken(kind: Kind, app: string, n: nat)
    ensures !IssuedBefore(TokenText(kind, app, n), n)
    ensures IssuedBefore(TokenText(kind, app, n), n + 1)
  {
    hide TokenText;
    forall kind': Kind, app': string, k: nat | TokenText(kind, app, n) == TokenText(kind', app', k)
      ensures k == n
    {
      TokenTellsId(kind, app, n, kind', app', k);
    }
  }

  lemma IssuedBeforeGrows(s: string, m: nat, n: nat)
    requires m <= n && IssuedBefore(s, m)
    ensures IssuedBefore(s, n)
  {
    hide TokenText;
    var kind: Kind, app: string, k: nat :| k < m && s == TokenText(kind, app, k);
    assert k < n && s == TokenText(kind, app, k);
  }

  lemma CleanText(t: string)
    requires t != [] && Trimmed(t) && t[0] != 'B' && t[0] != 'b'
    ensures SanitizeToken(t) == Ok(t)
  {
    assert StripBearer(t) == t by {
      assert |t| >= 7 ==> t[..7][0] == t[0];
    }
    hide StripBearer;
  }

  lemma TokenEnds(kind: Kind, app: string, n: nat)
    ensures var t := TokenText(kind, app, n); t != [] && (t[0] == 's' || t[0] == 'a') && IsDigit(t[|t| - 1])
  {
    var digits := Decimal(n);
    hide Decimal;
    assert TokenText(kind, app, n)[|TokenText(kind, app, n)| - 1] == digits[|digits| - 1];
  }

  /** Tokens the service issues are left alone by its own sanitizer. */
  lemma TokensAreClean(kind: Kind, app: string, n: nat)
    ensures SanitizeToken(TokenText(kind, app, n)) == Ok(TokenText(kind, app, n))
  {
    TokenEnds(kind, app, n);
    hide TokenText, SanitizeToken;
    CleanText(TokenText(kind, app, n));
  }

  // ---- one call as a function on the guarded state ----

  datatype Request =
    | Register(app: string, email: string, password: string, displayName: string, tenantId: string, roles: seq<string>)
    | Login(app: string, email: string, password: string)
    | EnsureAnonymous(app: string, tenantId: string, roles: seq<string>)
    | Bearer(value: string)
    | Cookie(app: string, value: string)
    | LogoutBearer(value: string)
    | LogoutCookie(app: string, value: string)

  datatype Answer = Granted(session: Session) | Revoked(token: string) | Refused(error: AuthError)

  /** `text.replace('-', r)` */
  function ReplaceDash(text: string, r: char): (s: string)
    ensures |s| == |text| && forall i | 0 <= i < |text| :: (text[i] == '-' ==> s[i] == r) && (text[i] != '-' ==> s[i] == text[i])
  {
    seq(|text|, i requires 0 <= i < |text| => if text[i] == '-' then r else text[i])
  }

  function AnonymousUser(app: string, id: nat, tenantId: string, roles: seq<string>): User {
    var uid := "anon_" + ReplaceDash(app, '_') + "_" + Decimal(id);
    User(app, uid, tenantId, "anon+" + uid + "@" + app + ".local", "",
         "Anonymous " + ReplaceDash(app, ' ') + " " + Decimal(id), roles, true)
  }

  /**
   `register`, `login` and `ensure_anonymous_session`: the session they grant, the user row they add and
   whether they draw a user id. The identity of a new user is that of some user of the same app, picked
   by the request's `tenantId` and `roles`.
   */
  function Issue(s: Store, request: Request, now: nat): (Answer, Store) {
    match request
    case Register(rawApp, email, password, displayName, tenantId, roles) =>
      (match NormalizeApp(rawApp)
       case Err(e) => (Refused(e), s)
       case Ok(app) =>
         if Trim(email) == [] || ByteLength(Trim(password)) < 6 || Trim(displayName) == [] then (Refused(IncompleteRegistration), s)
         else if UserKey(app, email) in s.users then (Refused(UserExists), s)
         else
           var user := User(app, "u_" + Decimal(s.nextUserId), tenantId, Lower(Trim(email)), password,
                            Trim(displayName), roles, false);
           var session := NewSession(app, s.nextSessionId, user, Authenticated, now);
           (Granted(session),
            Store(s.users[UserKey(app, email) := user], s.sessions[session.token := session],
                  s.nextUserId + 1, s.nextSessionId + 1)))
    case Login(rawApp, email, password) =>
      (match NormalizeApp(rawApp)
       case Err(e) => (Refused(e), s)
       case Ok(app) =>
         if UserKey(app, email) !in s.users || s.users[UserKey(app, email)].password != password
         then (Refused(BadCredentials), s)
         else
           var session := NewSession(app, s.nextSessionId, s.users[UserKey(app, email)], Authenticated, now);
           (Granted(session), s.(sessions := s.sessions[session.token := session], nextSessionId := s.nextSessionId + 1)))
    case EnsureAnonymous(rawApp, tenantId, roles) =>
      (match NormalizeApp(rawApp)
       case Err(e) => (Refused(e), s)
       case Ok(app) =>
         var session := NewSession(app, s.nextSessionId, AnonymousUser(app, s.nextUserId, tenantId, roles), Anonymous, now);
         (Granted(session),
          s.(sessions := s.sessions[session.token := session],
             nextUserId := s.nextUserId + 1, nextSessionId := s.nextSessionId + 1)))
    case _ => (Refused(MissingBearer), s)
  }

  /** `default_identity_for_app`: the tenant and roles of some user of the app, or the fallback. */
  ghost predicate IsDefaultIdentity(users: map<string, User>, app: string, tenantId: string, roles: seq<string>) {
    if exists key :: key in users && users[key].app == app
    then exists key :: key in users && users[key].app == app && users[key].tenantId == tenantId && users[key].roles == roles
    else tenantId == "tenant_local" && roles == ["member"]
  }

  predicate IsIssue(request: Request) {
    request.Register? || request.Login? || request.EnsureAnonymous?
  }

  function Renewed(session: Session, now: nat): Session {
    session.(lastSeenAt := now, expiresAt := now + LEASE)
  }

  /** `resolve_session`: a stale session is removed, a foreign one left alone, a good one renewed. */
  function Resolve(sessions: map<string, Session>, token: string, expectedApp: Option<string>, now: nat)
    : (Result<Session, AuthError>, map<string, Session>)
  {
    if token !in sessions then (Err(ExpiredOrInvalid), sessions)
    else if sessions[token].expiresAt <= now then (Err(ExpiredOrInvalid), sessions - {token})
    else if expectedApp.Some? && sessions[token].user.app != expectedApp.value then (Err(WrongApp), sessions)
    else (Ok(Renewed(sessions[token], now)), sessions[token := Renewed(sessions[token], now)])
  }

  /** The token and expected app a lookup or logout request comes down to. */
  function Target(request: Request): Result<(string, Option<string>), AuthError>
    requires !IsIssue(request)
  {
    match request
    case Bearer(value) => (match SanitizeToken(value) case Err(e) => Err(e) case Ok(token) => Ok((token, None)))
    case LogoutBearer(value) => (match SanitizeToken(value) case Err(e) => Err(e) case Ok(token) => Ok((token, None)))
    case Cookie(app, value) => CookieTarget(app, value)
    case LogoutCookie(app, value) => CookieTarget(app, value)
  }

  function CookieTarget(app: string, value: string): Result<(string, Option<string>), AuthError> {
    match NormalizeApp(app)
    case Err(e) => Err(e)
    case Ok(normalized) =>
      match SanitizeCookie(value)
      case Err(e) => Err(e)
      case Ok(token) => Ok((token, Some(normalized)))
  }

  predicate IsLogout(request: Request) {
    request.LogoutBearer? || request.LogoutCookie?
  }

  /** Resolve a token and, for a logout request, remove it. */
  function LookUp(s: Store, token: string, expectedApp: Option<string>, logout: bool, now: nat): (Answer, Store) {
    var (result, sessions) := Resolve(s.sessions, token, expectedApp, now);
    match result
    case Err(e) => (Refused(e), s.(sessions := sessions))
    case Ok(session) =>
      if logout then (Revoked(token), s.(sessions := sessions - {token}))
      else (Granted(session), s.(sessions := sessions))
  }

  /** One request against the store with lazy expiry. */
  function Lazy(s: Store, request: Request, now: nat): (Answer, Store) {
    if IsIssue(request) then Issue(s, request, now)
    else
      match Target(request)
      case Err(e) => (Refused(e), s)
      case Ok(target) => LookUp(s, target.0, target.1, IsLogout(request), now)
  }

  // ---- who gets in, and as whom ----

  /** Rows are added under new keys only. */
  ghost predicate OnlyGrows(before: map<string, User>, after: map<string, User>) {
    forall key | key in before :: key in after && after[key] == before[key]
  }

  /** A session handed out now, under session number `n`. */
  predicate NewlyIssued(session: Session, word: string, n: nat, kind: Kind, now: nat) {
    && session.token == word + "-" + session.user.app + "-" + Decimal(n)
    && session.kind == kind && session.issuedAt == session.lastSeenAt == now && session.expiresAt == now + 2592000
  }

  lemma NewSessionIs(app: string, n: nat, user: User, now: nat)
    requires user.app == app
    ensures NewlyIssued(NewSession(app, n, user, Authenticated, now), "session", n, Authenticated, now)
    ensures NewlyIssued(NewSession(app, n, user, Anonymous, now), "anon", n, Anonymous, now)
    ensures NewSession(app, n, user, Authenticated, now).user == NewSession(app, n, user, Anonymous, now).user == user
  {
    hide Decimal;
  }

  /** The row key of an e-mail in an app, from the texts as typed. */
  lemma KeyText(rawApp: string, email: string)
    requires NormalizeApp(rawApp).Ok?
    ensures NormalizeApp(rawApp).value == Lower(Trim(rawApp)) != []
    ensures UserKey(NormalizeApp(rawApp).value, email) == Lower(Trim(rawApp)) + ":" + Lower(Trim(email))
  {
    TrimLowerIdempotent(rawApp);
    hide Trim, Lower;
  }

  /** Login lets in exactly who knows the password of the row, as that row's user. */
  lemma LoginSays(s: Store, rawApp: string, email: string, password: string, now: nat)
    ensures var (answer, s') := Issue(s, Login(rawApp, email, password), now);
            var (app, key) := (Lower(Trim(rawApp)), Lower(Trim(rawApp)) + ":" + Lower(Trim(email)));
            && (answer.Granted? <==> app != [] && key in s.users && s.users[key].password == password)
            && (answer.Granted? ==> answer.session.user == s.users[key] && answer.session.kind == Authenticated
                                    && answer.session.token == "session-" + app + "-" + Decimal(s.nextSessionId)
                                    && answer.session.issuedAt == answer.session.lastSeenAt == now
                                    && answer.session.expiresAt == now + 2592000)
            && (!answer.Granted? ==> answer == Refused(if app == [] then AppRequired else BadCredentials) && s' == s)
            && s'.users == s.users && s'.nextUserId == s.nextUserId
  {
    if NormalizeApp(rawApp).Ok? {
      KeyText(rawApp, email);
    }
    hide Trim, Lower, Decimal, UserKey;
    assert "session" + "-" == "session-";
  }

  /** Registration takes a key once, with every field as typed, trimmed or drawn. */
  lemma RegisterSays(s: Store, rawApp: string, email: string, password: string, displayName: string,
                     tenantId: string, roles: seq<string>, now: nat)
    ensures var (answer, s') := Issue(s, Register(rawApp, email, password, displayName, tenantId, roles), now);
            var (app, key) := (Lower(Trim(rawApp)), Lower(Trim(rawApp)) + ":" + Lower(Trim(email)));
            && (answer.Granted? <==> && app != [] && Trim(email) != [] && ByteLength(Trim(password)) >= 6
                                     && Trim(displayName) != [] && key !in s.users)
            && (answer.Granted? ==>
                  && s'.users == s.users[key := answer.session.user] && NewlyIssued(answer.session, "session", s.nextSessionId, Authenticated, now)
                  && var user := answer.session.user;
                  && user.app == app && user.uid == "u_" + Decimal(s.nextUserId) && user.tenantId == tenantId
                  && user.email == Lower(Trim(email)) && user.password == password && user.displayName == Trim(displayName)
                  && user.roles == roles && !user.anonymous
                  && s'.nextUserId == s.nextUserId + 1)
            && (!answer.Granted? ==>
                  && s' == s
                  && answer == Refused(if app == [] then AppRequired
                                       else if Trim(email) == [] || ByteLength(Trim(password)) < 6 || Trim(displayName) == []
                                       then IncompleteRegistration else UserExists))
  {
    if NormalizeApp(rawApp).Ok? {
      KeyText(rawApp, email);
      var user := User(NormalizeApp(rawApp).value, "u_" + Decimal(s.nextUserId), tenantId, Lower(Trim(email)), password,
                       Trim(displayName), roles, false);
      NewSessionIs(NormalizeApp(rawApp).value, s.nextSessionId, user, now);
    }
    hide Trim, Lower, Decimal, UserKey, NewSession, NewlyIssued, ByteLength;
  }

  /** An anonymous session needs only an app, and adds no row. */
  lemma AnonymousSays(s: Store, rawApp: string, tenantId: string, roles: seq<string>, now: nat)
    ensures var (answer, s') := Issue(s, EnsureAnonymous(rawApp, tenantId, roles), now);
            var app := Lower(Trim(rawApp));
            && (answer.Granted? <==> app != [])
            && (answer.Granted? ==>
                  && NewlyIssued(answer.session, "anon", s.nextSessionId, Anonymous, now)
                  && var user := answer.session.user;
                  && user.app == app && user.uid == "anon_" + ReplaceDash(app, '_') + "_" + Decimal(s.nextUserId)
                  && user.tenantId == tenantId && user.email == "anon+" + user.uid + "@" + app + ".local"
                  && user.password == "" && user.displayName == "Anonymous " + ReplaceDash(app, ' ') + " " + Decimal(s.nextUserId)
                  && user.roles == roles && user.anonymous
                  && s'.nextUserId == s.nextUserId + 1)
            && (!answer.Granted? ==> answer == Refused(AppRequired) && s' == s)
            && s'.users == s.users
  {
    if NormalizeApp(rawApp).Ok? {
      NewSessionIs(NormalizeApp(rawApp).value, s.nextSessionId, AnonymousUser(NormalizeApp(rawApp).value, s.nextUserId, tenantId, roles), now);
    }
    hide Trim, Lower, Decimal, NewSession, NewlyIssued, ReplaceDash;
  }

  // ---- the object ----

  /** `default_identity_for_app`: the identity of the first user of the app that the hash map comes to. */
  method DefaultIdentity(users: map<string, User>, app: string) returns (tenantId: string, roles: seq<string>)
    ensures IsDefaultIdentity(users, app, tenantId, roles)
  {
    var rest := users.Keys;
    while rest != {}
      invariant rest <= users.Keys
      invariant forall key | key in users && key !in rest :: users[key].app != app
    {
      var key :| key in rest;
      if users[key].app == app {
        return users[key].tenantId, users[key].roles;
      }
      rest := rest - {key};
    }
    return "tenant_local", ["member"];
  }

  class InMemoryAuthService {
    var users: map<string, User>
    var sessions: map<string, Session>
    var nextUserId: nat
    var nextSessionId: nat

    function Model(): Store
      reads this
    {
      Store(users, sessions, nextUserId, nextSessionId)
    }

    /** Every session is filed under its own token, and no later session id can produce that token again. */
    ghost predicate Valid()
      reads this
    {
      WellKeyed(Model())
    }

    constructor (users: map<string, User>, nextUserId: nat)
      ensures Valid() && this.users == users && sessions == map[]
      ensures this.nextUserId == nextUserId && nextSessionId == 1
    {
      this.users, this.sessions := users, map[];
      this.nextUserId, this.nextSessionId := nextUserId, 1;
    }

    method RegisterUser(rawApp: string, email: string, password: string, displayName: string, now: nat)
      returns (answer: Answer, ghost identity: (string, seq<string>))
      requires Valid()
      modifies this
      ensures Valid()
      ensures (answer, Model()) ==
              Lazy(old(Model()), Register(rawApp, email, password, displayName, identity.0, identity.1), now)
      ensures var key := Lower(Trim(rawApp)) + ":" + Lower(Trim(email));
              && (answer.Granted? <==> && Lower(Trim(rawApp)) != [] && Trim(email) != [] && ByteLength(Trim(password)) >= 6
                                       && Trim(displayName) != [] && key !in old(users))
              && (answer.Granted? ==>
                    && users == old(users)[key := answer.session.user]
                    && answer.session.user.password == password && answer.session.user.email == Lower(Trim(email)))
      ensures answer.Granted? ==>
                IsDefaultIdentity(old(users), answer.session.user.app, answer.session.user.tenantId, answer.session.user.roles)
    {
      hide WellKeyed, TokenText, NormalizeApp, UserKey, Trim, Lower, Decimal, ByteLength, IsDefaultIdentity, NewlyIssued;
      identity := ("", []);
      ghost var before := Model();
      RegisterSays(before, rawApp, email, password, displayName, "", [], now);
      var normalized := NormalizeApp(rawApp);
      if normalized.Err? {
        return Refused(normalized.error), identity;
      }
      var app := normalized.value;
      if Trim(email) == [] || ByteLength(Trim(password)) < 6 || Trim(displayName) == [] {
        return Refused(IncompleteRegistration), identity;
      }
      var key := UserKey(app, email);
      if key in users {
        return Refused(UserExists), identity;
      }
      var tenantId, roles := DefaultIdentity(users, app);
      identity := (tenantId, roles);
      RegisterSays(before, rawApp, email, password, displayName, tenantId, roles, now);
      var userId, sessionId := nextUserId, nextSessionId;
      nextUserId, nextSessionId := nextUserId + 1, nextSessionId + 1;
      var user := User(app, "u_" + Decimal(userId), tenantId, Lower(Trim(email)), password, Trim(displayName), roles, false);
      var session := NewSession(app, sessionId, user, Authenticated, now);
      users := users[key := user];
      sessions := sessions[session.token := session];
      answer := Granted(session);
      LazyKeepsKeys(before, Register(rawApp, email, password, displayName, tenantId, roles), now);
    }

    method LoginUser(rawApp: string, email: string, password: string, now: nat) returns (answer: Answer)
      requires Valid()
      modifies this
      ensures Valid() && (answer, Model()) == Lazy(old(Model()), Login(rawApp, email, password), now)
      ensures var key := Lower(Trim(rawApp)) + ":" + Lower(Trim(email));
              && (answer.Granted? <==> Lower(Trim(rawApp)) != [] && key in old(users) && old(users)[key].password == password)
              && (answer.Granted? ==> answer.session.user == old(users)[key])
    {
      LoginSays(Model(), rawApp, email, password, now);
      hide WellKeyed, TokenText, NormalizeApp, UserKey, Trim, Lower, Decimal;
      LazyKeepsKeys(Model(), Login(rawApp, email, password), now);
      var normalized := NormalizeApp(rawApp);
      if normalized.Err? {
        return Refused(normalized.error);
      }
      var key := UserKey(normalized.value, email);
      if key !in users || users[key].password != password {
        return Refused(BadCredentials);
      }
      var sessionId := nextSessionId;
      nextSessionId := nextSessionId + 1;
      var session := NewSession(normalized.value, sessionId, users[key], Authenticated, now);
      sessions := sessions[session.token := session];
      answer := Granted(session);
    }

    method AnonymousSession(rawApp: string, now: nat) returns (answer: Answer, ghost identity: (string, seq<string>))
      requires Valid()
      modifies this
      ensures Valid()
      ensures (answer, Model()) == Lazy(old(Model()), EnsureAnonymous(rawApp, identity.0, identity.1), now)
      ensures answer.Granted? ==>
                IsDefaultIdentity(old(users), answer.session.user.app, answer.session.user.tenantId, answer.session.user.roles)
    {
      hide WellKeyed, TokenText, NormalizeApp, IsDefaultIdentity, ReplaceDash, Decimal;
      identity := ("", []);
      ghost var before := Model();
      var normalized := NormalizeApp(rawApp);
      if normalized.Err? {
        return Refused(normalized.error), identity;
      }
      var app := normalized.value;
      var tenantId, roles := DefaultIdentity(users, app);
      identity := (tenantId, roles);
      var userId, sessionId := nextUserId, nextSessionId;
      nextUserId, nextSessionId := nextUserId + 1, nextSessionId + 1;
      var session := NewSession(app, sessionId, AnonymousUser(app, userId, tenantId, roles), Anonymous, now);
      sessions := sessions[session.token := session];
      answer := Granted(session);
      LazyKeepsKeys(before, EnsureAnonymous(rawApp, tenantId, roles), now);
    }

    method ResolveSession(token: string, expectedApp: Option<string>, now: nat) returns (r: Result<Session, AuthError>)
      requires Valid()
      modifies this`sessions
      ensures Valid() && (r, sessions) == Resolve(old(sessions), token, expectedApp, now)
    {
      ResolveKeepsKeys(Model(), token, expectedApp, now);
      hide WellKeyed;
      if token !in sessions {
        return Err(ExpiredOrInvalid);
      }
      var existing := sessions[token];
      if existing.expiresAt <= now {
        sessions := sessions - {token};
        return Err(ExpiredOrInvalid);
      }
      if expectedApp.Some? && existing.user.app != expectedApp.value {
        return Err(WrongApp);
      }
      var renewed := existing.(lastSeenAt := now, expiresAt := now + LEASE);
      sessions := sessions[token := renewed];
      return Ok(renewed);
    }

    /** `session_from_bearer` and `session_from_cookie`. */
    method Lookup(request: Request, now: nat) returns (answer: Answer)
      requires Valid() && (request.Bearer? || request.Cookie?)
      modifies this`sessions
      ensures Valid() && (answer, Model()) == Lazy(old(Model()), request, now)
    {
      hide WellKeyed, Target, Resolve;
      var target := Target(request);
      if target.Err? {
        return Refused(target.error);
      }
      var r := ResolveSession(target.value.0, target.value.1, now);
      return if r.Ok? then Granted(r.value) else Refused(r.error);
    }

    /** `logout`: removes whatever is filed under the token, stale or not. */
    method Logout(value: string) returns (answer: Answer)
      requires Valid()
      modifies this`sessions
      ensures Valid() && (answer, Model()) == BareLogout(old(Model()), value)
    {
      hide WellKeyed, SanitizeToken;
      var sanitized := SanitizeToken(value);
      if sanitized.Err? {
        return Refused(sanitized.error);
      }
      var revoked := sanitized.value in sessions;
      ResolveKeepsKeys(Model(), sanitized.value, None, 0);
      sessions := sessions - {sanitized.value};
      return if revoked then Revoked(sanitized.value) else Refused(ExpiredOrInvalid);
    }

    /** `logout_for_request`: resolve first, then `logout` with the same token. */
    method LogoutForRequest(request: Request, now: nat) returns (answer: Answer)
      requires Valid() && IsLogout(request)
      modifies this`sessions
      ensures Valid() && (answer, Model()) == Lazy(old(Model()), request, now)
    {
      hide WellKeyed, Resolve, SanitizeToken, NormalizeApp, SanitizeCookie;
      var target := Target(request);
      if target.Err? {
        return Refused(target.error);
      }
      ghost var before := Model();
      ResolveKeepsKeys(before, target.value.0, target.value.1, now);
      var r := ResolveSession(target.value.0, target.value.1, now);
      if r.Err? {
        return Refused(r.error);
      }
      StoredTokensAreClean(before, target.value.0);
      ResolvedIsStored(before.sessions, target.value.0, target.value.1, now);
      answer := Logout(if request.LogoutBearer? then request.value else r.value.token);
    }
  }

  lemma ResolvedIsStored(sessions: map<string, Session>, token: string, expectedApp: Option<string>, now: nat)
    requires Resolve(sessions, token, expectedApp, now).0.Ok?
    ensures token in Resolve(sessions, token, expectedApp, now).1
  {
  }

  /** `logout` on its own: no expiry check. */
  function BareLogout(s: Store, value: string): (Answer, Store) {
    match SanitizeToken(value)
    case Err(e) => (Refused(e), s)
    case Ok(token) =>
      (if token in s.sessions then Revoked(token) else Refused(ExpiredOrInvalid), s.(sessions := s.sessions - {token}))
  }

  ghost predicate WellKeyed(s: Store) {
    forall token | token in s.sessions :: s.sessions[token].token == token && IssuedBefore(token, s.nextSessionId)
  }

  lemma StoredTokensAreClean(s: Store, token: string)
    requires WellKeyed(s) && token in s.sessions
    ensures SanitizeToken(token) == Ok(token)
  {
    hide TokenText, SanitizeToken;
    var kind: Kind, app: string, k: nat :| k < s.nextSessionId && token == TokenText(kind, app, k);
    TokensAreClean(kind, app, k);
  }

  lemma IssuedKeepsKeys(s: Store, s': Store, kind: Kind, app: string, user: User, now: nat)
    requires WellKeyed(s) && s'.nextSessionId == s.nextSessionId + 1
    requires var session := NewSession(app, s.nextSessionId, user, kind, now);
             s'.sessions == s.sessions[session.token := session]
    ensures WellKeyed(s')
    ensures NewSession(app, s.nextSessionId, user, kind, now).token !in s.sessions
  {
    hide TokenText, IssuedBefore;
    FreshToken(kind, app, s.nextSessionId);
    forall token | token in s'.sessions
      ensures s'.sessions[token].token == token && IssuedBefore(token, s'.nextSessionId)
    {
      if token in s.sessions {
        IssuedBeforeGrows(token, s.nextSessionId, s'.nextSessionId);
      }
    }
  }

  lemma ResolveKeepsKeys(s: Store, token: string, expectedApp: Option<string>, now: nat)
    requires WellKeyed(s)
    ensures WellKeyed(s.(sessions := Resolve(s.sessions, token, expectedApp, now).1))
    ensures WellKeyed(s.(sessions := s.sessions - {token}))
    ensures var r := Resolve(s.sessions, token, expectedApp, now).0;
            r.Ok? ==> token in s.sessions && r.value.token == token
  {
    hide IssuedBefore;
  }

  /** An issuing request that succeeds adds one session under a token no earlier one had. */
  lemma IssueKeepsKeys(s: Store, request: Request, now: nat)
    requires WellKeyed(s) && IsIssue(request)
    ensures WellKeyed(Issue(s, request, now).1)
    ensures var (answer, s') := Issue(s, request, now);
            if answer.Granted? then
              && answer.session.token !in s.sessions
              && !IssuedBefore(answer.session.token, s.nextSessionId)
              && s'.sessions == s.sessions[answer.session.token := answer.session]
              && answer.session.lastSeenAt == now && answer.session.expiresAt == now + LEASE
            else answer.Refused? && s' == s
  {
    hide TokenText, UserKey, AnonymousUser, NormalizeApp, WellKeyed, IssuedBefore, Decimal, Trim;
    var (answer, s') := Issue(s, request, now);
    if answer.Granted? {
      var kind := if request.EnsureAnonymous? then Anonymous else Authenticated;
      IssuedKeepsKeys(s, s', kind, NormalizeApp(request.app).value, answer.session.user, now);
      FreshToken(kind, NormalizeApp(request.app).value, s.nextSessionId);
    }
  }

  lemma LazyKeepsKeys(s: Store, request: Request, now: nat)
    requires WellKeyed(s)
    ensures WellKeyed(Lazy(s, request, now).1)
  {
    hide WellKeyed, Resolve, SanitizeToken, NormalizeApp, SanitizeCookie, IssuedBefore;
    if IsIssue(request) {
      IssueKeepsKeys(s, request, now);
    } else if Target(request).Ok? {
      var target := Target(request).value;
      ResolveKeepsKeys(s, target.0, target.1, now);
      ResolveKeepsKeys(s.(sessions := Resolve(s.sessions, target.0, target.1, now).1), target.0, target.1, now);
    }
  }
}
