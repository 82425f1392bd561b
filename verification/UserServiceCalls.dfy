/** From an invocation to the first lock: what the five handlers read from their input, and where they start. */
module UserServiceCalls {
  import opened Wrappers
  import opened Text
  import opened Json
  import opened AuthStore
  import opened UserService

  /** `ServerModuleInvocation`, as far as the handlers look at it. */
  datatype Invocation = Invocation(app: string, input: Option<Value>, db: Option<Value>)

  function InputText(inv: Invocation, key: string): Option<string> {
    match inv.input case None => None case Some(input) => AsText(Member(input, key))
  }

  /** `db.user.<action>.token` */
  function DbToken(inv: Invocation, action: string): Option<string> {
    if inv.db.None? then None
    else
      var user := Member(inv.db.value, "user");
      if user.None? then None
      else
        var entry := Member(user.value, action);
        if entry.None? then None else AsText(Member(entry.value, "token"))
  }

  /** The app login and register name, or else the invocation's. */
  function NamedApp(inv: Invocation): Result<string, AuthError> {
    NormalizeApp(match InputText(inv, "app") case Some(app) => app case None => inv.app)
  }

  /** `normalized_invocation_app`: a blank app in the input counts as none. */
  function InvocationApp(inv: Invocation): Result<string, AuthError> {
    var named := InputText(inv, "app");
    NormalizeApp(if named.Some? && Trim(named.value) != [] then named.value else inv.app)
  }

  /** `read_cookie_session_token` */
  function CookieToken(inv: Invocation): Cookie {
    match DbToken(inv, "cookie")
    case None => Ok(None)
    case Some(text) => match SanitizeCookie(text) case Ok(token) => Ok(Some(token)) case Err(e) => Err(e)
  }

  /** `read_session_token` */
  function SessionToken(inv: Invocation, action: string): Result<string, AuthError> {
    match DbToken(inv, action)
    case Some(text) => SanitizeToken(text)
    case None =>
      if action != "me" then Err(MissingBearer)
      else
        match CookieToken(inv)
        case Ok(Some(token)) => Ok(token)
        case Ok(None) => Err(MissingBearer)
        case Err(e) => Err(e)
  }

  // ---- where each handler starts, if its input is in order ----

  function LoginEntry(inv: Invocation): Option<Pc> {
    var (app, email, password) := (NamedApp(inv), InputText(inv, "email"), InputText(inv, "password"));
    if inv.input.None? || app.Err? || email.None? || password.None? then None
    else Some(LoginWaits(app.value, Lower(Trim(email.value)), password.value))
  }

  function RegisterEntry(inv: Invocation): Option<Pc> {
    var (app, email, password, name) :=
      (NamedApp(inv), InputText(inv, "email"), InputText(inv, "password"), InputText(inv, "displayName"));
    if inv.input.None? || app.Err? || email.None? || password.None? || name.None? then None
    else
      var r := Registration(app.value, Lower(Trim(email.value)), password.value, Trim(name.value));
      if r.email == [] || ByteLength(Trim(r.password)) < 6 || r.displayName == [] then None else Some(RegisterWaits(r))
  }

  function MeEntry(inv: Invocation): Option<Pc> {
    var (token, app) := (SessionToken(inv, "me"), InvocationApp(inv));
    if token.Err? || app.Err? then None else Some(MeWaits(token.value, app.value))
  }

  function LogoutEntry(inv: Invocation): Option<Pc> {
    var (token, app) := (SessionToken(inv, "logout"), InvocationApp(inv));
    if token.Err? || app.Err? then None else Some(LogoutWaits(token.value, app.value))
  }

  function AnonymousEntry(inv: Invocation): Option<Pc> {
    var app := InvocationApp(inv);
    if app.Err? then None else Some(AnonymousWaits(app.value, CookieToken(inv)))
  }

  /** Whatever comes in, a handler that gets as far as its first lock starts at an entry point, its app normalized. */
  lemma EveryCallStartsAtAnEntry(inv: Invocation)
    ensures LoginEntry(inv).Some? ==> IsEntry(LoginEntry(inv).value)
    ensures RegisterEntry(inv).Some? ==> IsEntry(RegisterEntry(inv).value)
    ensures MeEntry(inv).Some? ==> IsEntry(MeEntry(inv).value)
    ensures LogoutEntry(inv).Some? ==> IsEntry(LogoutEntry(inv).value)
    ensures AnonymousEntry(inv).Some? ==> IsEntry(AnonymousEntry(inv).value)
  {
    AppsAreNormal(inv);
    hide NamedApp, InvocationApp, SessionToken, InputText, CookieToken, Normal, Trim, Lower, ByteLength;
  }

  predicate IsNormal(app: Result<string, AuthError>) {
    app.Ok? ==> Normal(app.value)
  }

  lemma AppsAreNormal(inv: Invocation)
    ensures IsNormal(NamedApp(inv)) && IsNormal(InvocationApp(inv))
  {
    hide InputText, NormalizeApp, Trim, Normal;
    var named := InputText(inv, "app");
    NormalizedIsNormal(if named.Some? then named.value else inv.app);
    NormalizedIsNormal(inv.app);
  }

  /** Which app a call is for: the one named in its input, and for all but login and register a blank one counts as none. */
  lemma WhichAppCounts(inv: Invocation, app: string)
    ensures NamedApp(inv) == Ok(app) <==>
            app != [] && app == Lower(Trim(if InputText(inv, "app").Some? then InputText(inv, "app").value else inv.app))
    ensures InvocationApp(inv) == Ok(app) <==>
            && app != []
            && if InputText(inv, "app").Some? && !AllWhitespace(InputText(inv, "app").value)
               then app == Lower(Trim(InputText(inv, "app").value)) else app == Lower(Trim(inv.app))
  {
    if InputText(inv, "app").Some? {
      BlankIff(InputText(inv, "app").value);
    }
    hide InputText, Trim, Lower, AllWhitespace;
  }

  /** The cookie of a call: none, a blank one as the error, or its text without the space around it. */
  predicate CookieIs(inv: Invocation, cookie: Cookie) {
    match DbToken(inv, "cookie")
    case None => cookie == Ok(None)
    case Some(text) => if AllWhitespace(text) then cookie == Err(MissingCookie) else cookie == Ok(Some(Trim(text)))
  }

  /** What me, logout and the anonymous call start on: me turns to the cookie when there is no bearer text, logout does not. */
  lemma WhereTokenCallsStart(inv: Invocation, token: string, app: string, cookie: Cookie)
    ensures MeEntry(inv) == Some(MeWaits(token, app)) <==>
            && InvocationApp(inv) == Ok(app)
            && if DbToken(inv, "me").Some? then SanitizeToken(DbToken(inv, "me").value) == Ok(token)
               else CookieIs(inv, Ok(Some(token)))
    ensures LogoutEntry(inv) == Some(LogoutWaits(token, app)) <==>
            InvocationApp(inv) == Ok(app) && DbToken(inv, "logout").Some? && SanitizeToken(DbToken(inv, "logout").value) == Ok(token)
    ensures AnonymousEntry(inv) == Some(AnonymousWaits(app, cookie)) <==> InvocationApp(inv) == Ok(app) && CookieIs(inv, cookie)
  {
    hide InvocationApp, SessionToken, CookieToken, CookieIs, DbToken, SanitizeToken;
    CookieIsRead(inv, Ok(Some(token)));
    CookieIsRead(inv, cookie);
    BearerIsRead(inv, token);
  }

  lemma CookieIsRead(inv: Invocation, cookie: Cookie)
    ensures CookieToken(inv) == cookie <==> CookieIs(inv, cookie)
  {
    if DbToken(inv, "cookie").Some? {
      BlankIff(DbToken(inv, "cookie").value);
    }
    hide DbToken, Trim, AllWhitespace;
  }

  lemma BearerIsRead(inv: Invocation, token: string)
    ensures SessionToken(inv, "me") == Ok(token) <==>
            if DbToken(inv, "me").Some? then SanitizeToken(DbToken(inv, "me").value) == Ok(token)
            else CookieToken(inv) == Ok(Some(token))
    ensures SessionToken(inv, "logout") == Ok(token) <==>
            DbToken(inv, "logout").Some? && SanitizeToken(DbToken(inv, "logout").value) == Ok(token)
  {
    hide DbToken, SanitizeToken, CookieToken;
    assert "me" != "logout" by {
      assert |"me"| != |"logout"|;
    }
  }

  /** A user's table key does not depend on the case of the e-mail or the space around it. */
  lemma KeyOfTrimmed(app: string, email: string)
    ensures Key(app, Lower(Trim(email))) == Key(app, email)
  {
    TrimLowerIdempotent(email);
    hide Trim, Lower;
  }
}
