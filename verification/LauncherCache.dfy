/**
 The gateway's provider for the standalone user service. It remembers for each session token the app the
 session belongs to, learnt from the service's replies, and names that app in every later call.
 */
module LauncherCache {
  import opened Wrappers
  import opened Text
  import opened Json
  import opened AuthStore
  import opened PublicSession
  import opened UserService
  import opened UserServiceCalls
  import opened UserServiceSessions

  datatype LauncherError =
    | LoginDisabled | RegisterDisabled
    | BadToken(error: AuthError) | AppUnknown
    | CallFailed(message: string) | BadReply(reason: DecodeError)

  // ---- what goes out and what comes back ----

  /** A call that names the app in its input and carries a token in `db.user.<action>`. */
  function TokenCall(app: string, action: string, token: string): Invocation {
    Invocation(app, Some(Object([("app", String(app))])),
               Some(Object([("user", Object([(action, Object([("token", String(token))]))]))])))
  }

  /** A call with plain input. */
  function InputCall(app: string, input: seq<(string, Value)>): Invocation {
    Invocation(app, Some(Object([("app", String(app))] + input)), Some(Object([])))
  }

  /** The data of the service's reply, or the failure of the call, read as a session. */
  function Decoded(reply: Result<Value, LauncherError>): Result<Session, LauncherError> {
    match reply
    case Err(e) => Err(e)
    case Ok(data) => match FromPublicJson(data) case Ok(session) => Ok(session) case Err(e) => Err(BadReply(e))
  }

  function Remembered(cache: map<string, string>, session: Session): map<string, string> {
    cache[session.token := session.user.app]
  }

  /**
   `HttpUserModuleProvider`. `reply` is what comes back from the call a method makes, which is its first result;
   no result there means no call is made.
   */
  class HttpUserModuleProvider {
    const loginEnabled: bool
    const registerEnabled: bool
    var tokenApps: map<string, string>

    constructor (loginEnabled: bool, registerEnabled: bool)
      ensures tokenApps == map[] && this.loginEnabled == loginEnabled && this.registerEnabled == registerEnabled
    {
      this.loginEnabled, this.registerEnabled, tokenApps := loginEnabled, registerEnabled, map[];
    }

    /** The common end of all calls for a session: decode it and remember its app. */
    method AcceptReply(reply: Result<Value, LauncherError>) returns (r: Result<Session, LauncherError>)
      modifies this
      ensures r == Decoded(reply)
      ensures r.Err? ==> tokenApps == old(tokenApps)
      ensures r.Ok? ==> tokenApps == old(tokenApps)[r.value.token := r.value.user.app]
    {
      if reply.Err? {
        return Err(reply.error);
      }
      var session := FromPublicJson(reply.value);
      if session.Err? {
        return Err(BadReply(session.error));
      }
      tokenApps := tokenApps[session.value.token := session.value.user.app];
      return Ok(session.value);
    }

    method Login(app: string, email: string, password: string, reply: Result<Value, LauncherError>)
      returns (sent: Option<Invocation>, r: Result<Session, LauncherError>)
      modifies this
      ensures sent == if loginEnabled then Some(InputCall(app, [("email", String(email)), ("password", String(password))])) else None
      ensures r == if loginEnabled then Decoded(reply) else Err(LoginDisabled)
      ensures tokenApps == if r.Ok? then Remembered(old(tokenApps), r.value) else old(tokenApps)
    {
      if !loginEnabled {
        return None, Err(LoginDisabled);
      }
      sent := Some(InputCall(app, [("email", String(email)), ("password", String(password))]));
      r := AcceptReply(reply);
    }

    method Register(app: string, email: string, password: string, displayName: string, reply: Result<Value, LauncherError>)
      returns (sent: Option<Invocation>, r: Result<Session, LauncherError>)
      modifies this
      ensures sent == if registerEnabled
                      then Some(InputCall(app, [("email", String(email)), ("password", String(password)),
                                                ("displayName", String(displayName))]))
                      else None
      ensures r == if registerEnabled then Decoded(reply) else Err(RegisterDisabled)
      ensures tokenApps == if r.Ok? then Remembered(old(tokenApps), r.value) else old(tokenApps)
    {
      if !registerEnabled {
        return None, Err(RegisterDisabled);
      }
      sent := Some(InputCall(app, [("email", String(email)), ("password", String(password)),
                                   ("displayName", String(displayName))]));
      r := AcceptReply(reply);
    }

    /** `session_from_bearer`: the call is for the remembered app of the cleaned token and carries the text as it came. */
    method SessionFromBearer(bearer: string, reply: Result<Value, LauncherError>)
      returns (sent: Option<Invocation>, r: Result<Session, LauncherError>)
      modifies this
      ensures sent.Some? <==> SanitizeToken(bearer).Ok? && SanitizeToken(bearer).value in old(tokenApps)
      ensures sent.Some? ==> sent.value == TokenCall(old(tokenApps)[SanitizeToken(bearer).value], "me", bearer)
      ensures r == if sent.Some? then Decoded(reply)
                   else if SanitizeToken(bearer).Err? then Err(BadToken(SanitizeToken(bearer).error)) else Err(AppUnknown)
      ensures tokenApps == if r.Ok? then Remembered(old(tokenApps), r.value) else old(tokenApps)
    {
      var token := SanitizeToken(bearer);
      if token.Err? {
        return None, Err(BadToken(token.error));
      }
      if token.value !in tokenApps {
        return None, Err(AppUnknown);
      }
      sent := Some(TokenCall(tokenApps[token.value], "me", bearer));
      r := AcceptReply(reply);
    }

    method SessionFromCookie(app: string, cookie: string, reply: Result<Value, LauncherError>)
      returns (sent: Option<Invocation>, r: Result<Session, LauncherError>)
      modifies this
      ensures sent == Some(TokenCall(Lower(Trim(app)), "cookie", cookie)) && r == Decoded(reply)
      ensures tokenApps == if r.Ok? then Remembered(old(tokenApps), r.value) else old(tokenApps)
    {
      sent := Some(TokenCall(Lower(Trim(app)), "cookie", cookie));
      r := AcceptReply(reply);
    }

    method EnsureAnonymousSession(app: string, reply: Result<Value, LauncherError>)
      returns (sent: Option<Invocation>, r: Result<Session, LauncherError>)
      modifies this
      ensures sent == Some(InputCall(Lower(Trim(app)), [])) && r == Decoded(reply)
      ensures tokenApps == if r.Ok? then Remembered(old(tokenApps), r.value) else old(tokenApps)
    {
      sent := Some(InputCall(Lower(Trim(app)), []));
      r := AcceptReply(reply);
    }

    /** `logout_session`: the entry goes only when the service has confirmed. */
    method LogoutSession(bearer: string, reply: Result<Value, LauncherError>)
      returns (sent: Option<Invocation>, r: Result<(), LauncherError>)
      modifies this
      ensures sent.Some? <==> SanitizeToken(bearer).Ok? && SanitizeToken(bearer).value in old(tokenApps)
      ensures sent.Some? ==> sent.value == TokenCall(old(tokenApps)[SanitizeToken(bearer).value], "logout", bearer)
      ensures r.Ok? <==> sent.Some? && reply.Ok?
      ensures r.Err? ==> r.error == if sent.Some? then reply.error
                                    else if SanitizeToken(bearer).Err? then BadToken(SanitizeToken(bearer).error) else AppUnknown
      ensures tokenApps == if r.Ok? then old(tokenApps) - {SanitizeToken(bearer).value} else old(tokenApps)
    {
      var token := SanitizeToken(bearer);
      if token.Err? {
        return None, Err(BadToken(token.error));
      }
      if token.value !in tokenApps {
        return None, Err(AppUnknown);
      }
      sent := Some(TokenCall(tokenApps[token.value], "logout", bearer));
      if reply.Err? {
        return sent, Err(reply.error);
      }
      tokenApps := tokenApps - {token.value};
      return sent, Ok(());
    }
  }

  /** What the gateway remembers of a session is not lost on the way as JSON. */
  lemma ReplyTellsTheApp(cache: map<string, string>, session: Session)
    requires Fits(session)
    ensures Decoded(Ok(ToPublicJson(session))).Ok?
    ensures Remembered(cache, Decoded(Ok(ToPublicJson(session))).value) == Remembered(cache, session)
  {
    PublicFormReturns(session);
    hide ToPublicJson, FromPublicJson;
  }

  /** A call with a token, read by the service: the action's token, the app from the input, no cookie beside it. */
  lemma TokenCallReads(app: string, action: string, token: string)
    ensures var inv := TokenCall(app, action, token);
            DbToken(inv, action) == Some(token) && InputText(inv, "app") == Some(app)
  {
    var named, user, entry, carried :=
      [("app", String(app))], [("token", String(token))], [(action, Object([("token", String(token))]))],
      [("user", Object([(action, Object([("token", String(token))]))]))];
    GetAt(named, 0);
    GetAt(user, 0);
    GetAt(entry, 0);
    GetAt(carried, 0);
    hide Get;
  }

  lemma NormalAppIsRead(inv: Invocation, app: string)
    requires InputText(inv, "app") == Some(app) && Normal(app)
    ensures InvocationApp(inv) == Ok(app)
  {
    assert Trim(app) != [];
    hide InputText, Trim, Lower;
  }

  lemma TokenIsRead(inv: Invocation, action: string, text: string, token: string)
    requires DbToken(inv, action) == Some(text) && SanitizeToken(text) == Ok(token)
    ensures SessionToken(inv, action) == Ok(token)
  {
    hide DbToken, SanitizeToken;
  }

  /** For an app in normal form the service starts me and logout on the cleaned token and that very app. */
  lemma BearerCallsEnter(app: string, bearer: string, token: string)
    requires Normal(app) && SanitizeToken(bearer) == Ok(token)
    ensures MeEntry(TokenCall(app, "me", bearer)) == Some(MeWaits(token, app))
    ensures LogoutEntry(TokenCall(app, "logout", bearer)) == Some(LogoutWaits(token, app))
  {
    hide TokenCall, SanitizeToken, DbToken, InputText, CookieToken, NormalizeApp, InvocationApp, SessionToken, Normal;
    TokenCallReads(app, "me", bearer);
    TokenCallReads(app, "logout", bearer);
    NormalAppIsRead(TokenCall(app, "me", bearer), app);
    NormalAppIsRead(TokenCall(app, "logout", bearer), app);
    TokenIsRead(TokenCall(app, "me", bearer), "me", bearer, token);
    TokenIsRead(TokenCall(app, "logout", bearer), "logout", bearer, token);
  }

  lemma InputCallReads(app: string, input: seq<(string, Value)>, i: nat)
    requires i < |input| && input[i].0 != "app" && forall j | 0 <= j < i :: input[j].0 != input[i].0
    ensures var inv := InputCall(app, input);
            && InputText(inv, "app") == Some(app)
            && InputText(inv, input[i].0) == AsText(Some(input[i].1))
  {
    var fields := [("app", String(app))] + input;
    GetAt(fields, 0);
    forall j | 0 <= j < i + 1 ensures fields[j].0 != fields[i + 1].0 {
      assert j > 0 ==> fields[j] == input[j - 1];
    }
    GetAt(fields, i + 1);
    hide Get;
  }

  lemma LoginInput(app: string, email: string, password: string)
    ensures var inv := InputCall(app, [("email", String(email)), ("password", String(password))]);
            && inv.input.Some? && InputText(inv, "app") == Some(app)
            && InputText(inv, "email") == Some(email) && InputText(inv, "password") == Some(password)
  {
    var input := [("email", String(email)), ("password", String(password))];
    assert "email" != "app" && "password" != "app" && "email" != "password";
    InputCallReads(app, input, 0);
    InputCallReads(app, input, 1);
    hide InputText;
  }

  lemma RegisterInput(app: string, email: string, password: string, displayName: string)
    ensures var inv := InputCall(app, [("email", String(email)), ("password", String(password)), ("displayName", String(displayName))]);
            && inv.input.Some? && InputText(inv, "app") == Some(app) && InputText(inv, "email") == Some(email)
            && InputText(inv, "password") == Some(password) && InputText(inv, "displayName") == Some(displayName)
  {
    var input := [("email", String(email)), ("password", String(password)), ("displayName", String(displayName))];
    assert |"email"| == 5 && |"app"| == 3 && |"password"| == 8 && |"displayName"| == 11;
    InputCallReads(app, input, 0);
    InputCallReads(app, input, 1);
    InputCallReads(app, input, 2);
    hide InputText;
  }

  /** The gateway's login call starts the service's login on that app, e-mail and password. */
  lemma LoginCallEnters(app: string, email: string, password: string)
    ensures LoginEntry(InputCall(app, [("email", String(email)), ("password", String(password))])) ==
            if Lower(Trim(app)) == [] then None else Some(LoginWaits(Lower(Trim(app)), Lower(Trim(email)), password))
  {
    LoginInput(app, email, password);
    hide InputCall, InputText, Lower, Trim;
  }

  /** Its register call starts a registration with the texts as typed and trimmed, unless one is missing or too short. */
  lemma RegisterCallEnters(app: string, email: string, password: string, displayName: string)
    ensures RegisterEntry(InputCall(app, [("email", String(email)), ("password", String(password)),
                                          ("displayName", String(displayName))])) ==
            if Lower(Trim(app)) == [] || Lower(Trim(email)) == [] || ByteLength(Trim(password)) < 6 || Trim(displayName) == []
            then None
            else Some(RegisterWaits(Registration(Lower(Trim(app)), Lower(Trim(email)), password, Trim(displayName))))
  {
    RegisterInput(app, email, password, displayName);
    hide InputCall, InputText, Lower, Trim, ByteLength;
  }

  lemma CookieCallReads(app: string, cookie: string)
    ensures var inv := TokenCall(app, "cookie", cookie);
            && InputText(inv, "app") == Some(app) && DbToken(inv, "cookie") == Some(cookie) && DbToken(inv, "me").None?
  {
    TokenCallReads(app, "cookie", cookie);
    var entry := [("cookie", Object([("token", String(cookie))]))];
    assert |"cookie"| == 6 && |"me"| == 2;
    assert Get(entry, "me").None?;
    var carried := [("user", Object(entry))];
    GetAt(carried, 0);
  }

  /** Its cookie call starts a lookup of the trimmed cookie for the app. */
  lemma CookieCallEnters(app: string, cookie: string)
    requires Normal(app)
    ensures MeEntry(TokenCall(app, "cookie", cookie)) ==
            if Trim(cookie) == [] then None else Some(MeWaits(Trim(cookie), app))
  {
    CookieCallReads(app, cookie);
    hide TokenCall, InvocationApp, InputText, DbToken, Normal, Trim, NormalizeApp, SanitizeToken;
    NormalAppIsRead(TokenCall(app, "cookie", cookie), app);
  }

  lemma PlainCallReads(app: string)
    ensures InputText(InputCall(app, []), "app") == Some(app) && DbToken(InputCall(app, []), "cookie").None?
  {
    GetAt([("app", String(app))] + [], 0);
    assert Get<Value>([], "user").None?;
  }

  /** Its call for an anonymous session carries no cookie. */
  lemma AnonymousCallEnters(app: string)
    requires Normal(app)
    ensures AnonymousEntry(InputCall(app, [])) == Some(AnonymousWaits(app, Ok(None)))
  {
    PlainCallReads(app);
    hide InputCall, InvocationApp, InputText, DbToken, Normal, NormalizeApp;
    NormalAppIsRead(InputCall(app, []), app);
  }

  // ---- gateway and service together ----

  datatype Joint = Joint(service: Sys, cache: map<string, string>)

  /**
   A service step; a reply reaching the gateway, now, later or never; an entry dropped after a logout. What
   the gateway asks of the service is among the calls any client may make.
   */
  datatype JointLabel = Serve(step: UserService.Label) | Reply(thread: nat) | Drop(token: string)

  ghost predicate JointEnabled(j: Joint, l: JointLabel) {
    match l
    case Serve(step) => Enabled(j.service, step)
    case Reply(thread) => thread < |j.service.threads| && Answer(j.service.threads[thread]).Some?
    case Drop(_) => true
  }

  function Answer(pc: Pc): Option<Session> {
    match pc case Finished(Answered(session)) => Some(session) case _ => None
  }

  ghost function JointNext(j: Joint, l: JointLabel): Joint
    requires JointEnabled(j, l)
  {
    match l
    case Serve(step) => j.(service := Next(j.service, step))
    case Reply(thread) => j.(cache := Remembered(j.cache, Answer(j.service.threads[thread]).value))
    case Drop(token) => j.(cache := j.cache - {token})
  }

  ghost function JointExec(j: Joint, labels: seq<JointLabel>): Option<Joint> {
    if labels == [] then Some(j)
    else
      var n := |labels| - 1;
      match JointExec(j, labels[..n])
      case None => None
      case Some(mid) => if JointEnabled(mid, labels[n]) then Some(JointNext(mid, labels[n])) else None
  }

  ghost predicate JointStart(j: Joint) {
    IsStart(j.service) && j.cache == map[]
  }

  /** A run from `j` ends in `j'`. */
  ghost predicate Leads(j: Joint, labels: seq<JointLabel>, j': Joint) {
    JointExec(j, labels) == Some(j')
  }

  ghost predicate JointReachable(start: Joint, labels: seq<JointLabel>, j: Joint) {
    JointStart(start) && Leads(start, labels, j)
  }

  // ---- every user's app is in normal form ----

  /** The app a call was made for, up to the point where its session's token is drawn. */
  function AppOf(pc: Pc): Option<string> {
    match pc
    case LoginWaits(app, _, _) => Some(app)
    case LoginReads(app, _, _) => Some(app)
    case RegisterWaits(r) => Some(r.app)
    case RegisterChecks(r) => Some(r.app)
    case RegisterWaitsCounter(r) => Some(r.app)
    case RegisterInserts(r) => Some(r.app)
    case AnonymousWaits(app, _) => Some(app)
    case AnonymousReadsCookie(app, _) => Some(app)
    case AnonymousWaitsUsers(app) => Some(app)
    case AnonymousReadsIdentity(app) => Some(app)
    case AnonymousWaitsCounter(app, _, _) => Some(app)
    case AnonymousDrawsId(app, _, _) => Some(app)
    case IssueWaitsCounter(user, _, _, _) => Some(user.app)
    case IssueDrawsToken(user, _, _, _) => Some(user.app)
    case _ => None
  }

  ghost predicate AppsOk(users: map<string, User>, threads: seq<Pc>, issued: map<string, User>) {
    && (forall key | key in users :: Normal(users[key].app))
    && (forall i | 0 <= i < |threads| && AppOf(threads[i]).Some? :: Normal(AppOf(threads[i]).value))
    && (forall token | token in issued :: Normal(issued[token].app))
  }

  lemma EnteredApp(pc: Pc)
    requires Wants(pc).Some?
    ensures AppOf(Entered(pc)) == AppOf(pc)
  {
  }

  /** The users table, the app of the next program point and the recorded user after some work. */
  lemma WorkApps(s: Store, pc: Pc, now: nat, who: Identity)
    requires Wants(pc).None? && !pc.Finished?
    requires forall key | key in s.users :: Normal(s.users[key].app)
    requires AppOf(pc).Some? ==> Normal(AppOf(pc).value)
    ensures var (s', pc') := Work(s, pc, now, who);
            && (forall key | key in s'.users :: Normal(s'.users[key].app))
            && (AppOf(pc').Some? ==> Normal(AppOf(pc').value))
            && (pc'.IssueWaitsSessions? ==> Normal(pc'.issued.user.app))
  {
    WorkUsers(s, pc, now, who);
    WorkApp(s, pc, now, who);
    hide Work, Normal;
  }

  lemma WorkUsers(s: Store, pc: Pc, now: nat, who: Identity)
    requires Wants(pc).None? && !pc.Finished?
    ensures var (s', pc') := Work(s, pc, now, who);
            forall key | key in s'.users ::
              (key in s.users && s'.users[key] == s.users[key]) || AppOf(pc) == Some(s'.users[key].app)
  {
    hide Key, AnonymousUser, Decimal, TokenText, Resolve, CookieSession;
  }

  lemma WorkApp(s: Store, pc: Pc, now: nat, who: Identity)
    requires Wants(pc).None? && !pc.Finished?
    ensures var (s', pc') := Work(s, pc, now, who);
            && (AppOf(pc').Some? ==>
                  AppOf(pc') == AppOf(pc) || exists key :: key in s.users && Some(s.users[key].app) == AppOf(pc'))
            && (pc'.IssueWaitsSessions? ==> AppOf(pc) == Some(pc'.issued.user.app))
  {
    match pc {
      case RegisterInserts(r) =>
        NewUserApps(r, r.app, s.nextUserId, who.0, who.1);
      case AnonymousDrawsId(app, tenantId, roles) =>
        NewUserApps(Registration(app, "", "", ""), app, s.nextUserId, tenantId, roles);
      case IssueDrawsToken(user, kind, issuedAt, keeps) =>
        NewSessionUser(user, s.nextSessionId, kind, issuedAt);
      case _ =>
    }
    hide Key, TokenText, Resolve, CookieSession, RegisteredUser, AnonymousUser, NewSession;
  }

  lemma NewUserApps(r: Registration, app: string, id: nat, tenantId: string, roles: seq<string>)
    ensures RegisteredUser(r, id, tenantId, roles).app == r.app && AnonymousUser(app, id, tenantId, roles).app == app
  {
    hide Decimal, Trim, Lower, ReplaceDash;
  }

  lemma NewSessionUser(user: User, id: nat, kind: Kind, now: nat)
    ensures NewSession(user.app, id, user, kind, now).user == user
  {
    hide TokenText;
  }

  lemma AppsMove(users: map<string, User>, users': map<string, User>, threads: seq<Pc>, issued: map<string, User>,
                 i: nat, pc: Pc)
    requires AppsOk(users, threads, issued) && i < |threads|
    requires forall key | key in users' :: Normal(users'[key].app)
    requires AppOf(pc).Some? ==> Normal(AppOf(pc).value)
    requires pc.IssueWaitsSessions? ==> Normal(pc.issued.user.app)
    ensures AppsOk(users', threads[i := pc], Recorded(issued, pc))
  {
    hide Normal, AppOf;
  }

  lemma AppsStep(s: Sys, l: UserService.Label)
    requires AppsOk(s.store.users, s.threads, s.issued) && Enabled(s, l)
    ensures AppsOk(Next(s, l).store.users, Next(s, l).threads, Next(s, l).issued)
  {
    hide Normal;
    match l {
      case Call(pc) =>
        assert AppOf(pc).Some? ==> Normal(AppOf(pc).value);
      case Step(thread, now, who) =>
        var pc := s.threads[thread];
        assert AppOf(pc).Some? ==> Normal(AppOf(pc).value);
        if Wants(pc).Some? {
          EnteredApp(pc);
          assert !Entered(pc).IssueWaitsSessions?;
          hide Entered, AppOf, AppsOk;
          StillNormal(s);
          AppsMove(s.store.users, s.store.users, s.threads, s.issued, thread, Entered(pc));
        } else {
          hide Work, AppOf;
          WorkApps(s.store, pc, now, who);
          var (store, pc') := Work(s.store, pc, now, who);
          AppsMove(s.store.users, store.users, s.threads, s.issued, thread, pc');
        }
    }
  }

  lemma StillNormal(s: Sys)
    requires AppsOk(s.store.users, s.threads, s.issued)
    ensures forall key | key in s.store.users :: Normal(s.store.users[key].app)
  {
    hide Normal;
  }

  // ---- the record of drawn tokens only grows ----

  predicate Extends(a: map<string, User>, b: map<string, User>) {
    forall token | token in a :: token in b && b[token] == a[token]
  }

  /** A token is drawn once, so the user it was drawn for never changes. */
  lemma IssuedStays(s: Sys, l: UserService.Label)
    requires SysTokensOk(s) && Enabled(s, l)
    ensures Extends(s.issued, Next(s, l).issued)
  {
    if l.Step? && Wants(s.threads[l.thread]).None? {
      DrawnIsNew(s.store, s.threads[l.thread], l.now, l.who);
      hide Work, TokenText;
    }
  }

  lemma DrawnIsNew(s: Store, pc: Pc, now: nat, who: Identity)
    requires Wants(pc).None? && !pc.Finished?
    ensures var pc' := Work(s, pc, now, who).1;
            pc'.IssueWaitsSessions? ==> !IssuedBefore(pc'.issued.token, s.nextSessionId)
  {
    hide Key, AnonymousUser, RegisteredUser, TokenText, Resolve, CookieSession, IssuedBefore;
    if pc.IssueDrawsToken? {
      FreshToken(pc.kind, pc.user.app, s.nextSessionId);
    }
  }

  // ---- coherence ----

  /** Each cached token maps to the app its session was issued for. */
  predicate CacheOk(cache: map<string, string>, issued: map<string, User>) {
    forall token | token in cache :: token in issued && issued[token].app == cache[token]
  }

  ghost predicate JointOk(j: Joint) {
    && SysTokensOk(j.service)
    && AppsOk(j.service.store.users, j.service.threads, j.service.issued)
    && CacheOk(j.cache, j.service.issued)
  }

  lemma ServeKeeps(j: Joint, step: UserService.Label)
    requires JointOk(j) && Enabled(j.service, step)
    ensures JointOk(JointNext(j, Serve(step)))
    ensures Extends(j.service.issued, JointNext(j, Serve(step)).service.issued)
  {
    hide SysTokensOk, AppsOk, Enabled, Next;
    TokensStep(j.service, step);
    AppsStep(j.service, step);
    IssuedStays(j.service, step);
  }

  lemma ReplyIsIssued(s: Sys, thread: nat)
    requires SysTokensOk(s) && thread < |s.threads| && Answer(s.threads[thread]).Some?
    ensures IssuedFor(Answer(s.threads[thread]).value, s.issued)
  {
    assert Carried(s.threads[thread]) == Answer(s.threads[thread]);
  }

  lemma JointStep(j: Joint, l: JointLabel)
    requires JointOk(j) && JointEnabled(j, l)
    ensures JointOk(JointNext(j, l)) && Extends(j.service.issued, JointNext(j, l).service.issued)
  {
    hide SysTokensOk, AppsOk, Enabled, Next;
    match l {
      case Serve(step) => ServeKeeps(j, step);
      case Reply(thread) => ReplyIsIssued(j.service, thread);
      case Drop(_) =>
    }
  }

  lemma {:induction false} JointRun(j: Joint, labels: seq<JointLabel>)
    requires JointOk(j) && JointExec(j, labels).Some?
    ensures JointOk(JointExec(j, labels).value)
    ensures Extends(j.service.issued, JointExec(j, labels).value.service.issued)
  {
    hide JointOk, JointNext, JointEnabled;
    if labels != [] {
      var n := |labels| - 1;
      JointRun(j, labels[..n]);
      JointStep(JointExec(j, labels[..n]).value, labels[n]);
    }
  }

  lemma StartIsOk(j: Joint)
    requires JointStart(j)
    ensures JointOk(j)
  {
    hide Normal;
  }

  /**
   Over every run of gateway and service, with replies delivered late or lost and any other clients at work,
   each cached token maps to the app its session was issued for, in normal form.
   */
  lemma CacheIsCoherent(start: Joint, labels: seq<JointLabel>, j: Joint, token: string)
    requires JointReachable(start, labels, j) && token in j.cache
    ensures token in j.service.issued && j.service.issued[token].app == j.cache[token] && Normal(j.cache[token])
    ensures token in j.service.store.sessions ==> j.service.store.sessions[token].user.app == j.cache[token]
  {
    StartIsOk(start);
    JointRun(start, labels);
    assert token in j.service.store.sessions ==> IssuedFor(j.service.store.sessions[token], j.service.issued);
    hide Normal, JointExec;
  }

  /**
   A lookup of a cached token for its cached app never meets the wrong-app error: not when it is sent, and not
   when the service gets to it later, whatever happened in between.
   */
  lemma CachedTokenNeverMeetsWrongApp(start: Joint, before: seq<JointLabel>, j: Joint, token: string,
                                      between: seq<JointLabel>, j': Joint, now: nat)
    requires JointReachable(start, before, j) && Leads(j, between, j')
    requires token in j.cache
    ensures Normal(j.cache[token])
    ensures Resolve(j'.service.store.sessions, token, Some(j.cache[token]), now).0 != Err(WrongApp)
  {
    hide JointExec, Normal, JointStart;
    StartIsOk(start);
    JointRun(start, before);
    CacheIsCoherent(start, before, j, token);
    JointRun(j, between);
    SessionHasItsApp(j'.service, token);
    hide SysTokensOk, AppsOk;
  }

  /**
   So for the calls the gateway sends: a bearer lookup or logout it sends starts the service's handler on the
   cleaned token and the cached app, and the handler's lookup, whenever it comes, never finds another app's session.
   */
  lemma BearerNeverMeetsWrongApp(start: Joint, before: seq<JointLabel>, j: Joint, bearer: string, token: string,
                                 between: seq<JointLabel>, j': Joint, now: nat)
    requires JointReachable(start, before, j) && Leads(j, between, j')
    requires SanitizeToken(bearer) == Ok(token) && token in j.cache
    ensures MeEntry(TokenCall(j.cache[token], "me", bearer)) == Some(MeWaits(token, j.cache[token]))
    ensures LogoutEntry(TokenCall(j.cache[token], "logout", bearer)) == Some(LogoutWaits(token, j.cache[token]))
    ensures Resolve(j'.service.store.sessions, token, Some(j.cache[token]), now).0 != Err(WrongApp)
  {
    hide JointReachable, Leads, Normal, Resolve, SanitizeToken, MeEntry, LogoutEntry, TokenCall;
    CachedTokenNeverMeetsWrongApp(start, before, j, token, between, j', now);
    BearerCallsEnter(j.cache[token], bearer, token);
  }

  lemma SessionHasItsApp(s: Sys, token: string)
    requires SysTokensOk(s)
    ensures token in s.store.sessions ==> IssuedFor(s.store.sessions[token], s.issued) && s.store.sessions[token].token == token
  {
  }
}
