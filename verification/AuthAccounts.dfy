/**
 Accounts of the gateway's own user service over whole runs: who can log in after registering, which keys clash,
 and what a logout request has in common with the lookup it starts with.
 */
module AuthAccounts {
  import opened Wrappers
  import opened Text
  import opened AuthStore
  import opened AuthExpiry

  // ---- rows stay ----

  lemma IssueOnlyGrows(s: Store, request: Request, now: nat)
    requires IsIssue(request)
    ensures OnlyGrows(s.users, Issue(s, request, now).1.users)
  {
    hide Issue, NewlyIssued, Trim, Lower, ByteLength, Decimal;
    match request {
      case Register(app, email, password, name, tenantId, roles) =>
        RegisterSays(s, app, email, password, name, tenantId, roles, now);
      case Login(app, email, password) => LoginSays(s, app, email, password, now);
      case EnsureAnonymous(app, tenantId, roles) => AnonymousSays(s, app, tenantId, roles, now);
    }
  }

  lemma RequestOnlyGrows(s: Store, request: Request, now: nat)
    ensures OnlyGrows(s.users, Lazy(s, request, now).1.users)
  {
    hide Issue, Target;
    if IsIssue(request) {
      IssueOnlyGrows(s, request, now);
    }
  }

  lemma {:induction false} RunOnlyGrows(s: Store, run: seq<Timed>)
    ensures OnlyGrows(s.users, After(s, run).1.users)
  {
    hide Lazy;
    if run != [] {
      var n := |run| - 1;
      RunOnlyGrows(s, run[..n]);
      RequestOnlyGrows(After(s, run[..n]).1, run[n].request, run[n].now);
    }
  }

  /**
   Once an account was registered, a later login for the same app and e-mail, in any case and with any space around
   them, is granted for that very user exactly with the password it was registered with, whatever ran in between.
   */
  lemma RegisteredUsersLogIn(s: Store, app: string, email: string, password: string, name: string, tenantId: string,
                             roles: seq<string>, at: nat, run: seq<Timed>, app': string, email': string,
                             password': string, now: nat)
    requires Issue(s, Register(app, email, password, name, tenantId, roles), at).0.Granted?
    requires Lower(Trim(app')) == Lower(Trim(app)) && Lower(Trim(email')) == Lower(Trim(email))
    ensures var (registered, s1) := Issue(s, Register(app, email, password, name, tenantId, roles), at);
            var answer := Issue(After(s1, run).1, Login(app', email', password'), now).0;
            if password' == password then answer.Granted? && answer.session.user == registered.session.user
            else answer == Refused(BadCredentials)
  {
    hide Issue, NewlyIssued, Trim, Lower, ByteLength, Decimal, After;
    RegisterSays(s, app, email, password, name, tenantId, roles, at);
    var (registered, s1) := Issue(s, Register(app, email, password, name, tenantId, roles), at);
    RunOnlyGrows(s1, run);
    LoginSays(After(s1, run).1, app', email', password', now);
  }

  /** Registering it again is refused for ever, under any password. */
  lemma RegisteredOnce(s: Store, app: string, email: string, password: string, name: string, tenantId: string,
                       roles: seq<string>, at: nat, run: seq<Timed>, again: Request, now: nat)
    requires Issue(s, Register(app, email, password, name, tenantId, roles), at).0.Granted?
    requires again.Register? && Lower(Trim(again.app)) == Lower(Trim(app)) && Lower(Trim(again.email)) == Lower(Trim(email))
    ensures var s1 := Issue(s, Register(app, email, password, name, tenantId, roles), at).1;
            Issue(After(s1, run).1, again, now).0.Refused?
  {
    hide Issue, NewlyIssued, Trim, Lower, ByteLength, Decimal, After;
    RegisterSays(s, app, email, password, name, tenantId, roles, at);
    var s1 := Issue(s, Register(app, email, password, name, tenantId, roles), at).1;
    RunOnlyGrows(s1, run);
    RegisterSays(After(s1, run).1, again.app, again.email, again.password, again.displayName, again.tenantId, again.roles, now);
  }

  // ---- which keys clash ----

  lemma ColonCuts(a: string, b: string, c: string, d: string)
    requires a + ":" + b == c + ":" + d && ':' !in a && ':' !in c
    ensures a == c && b == d
  {
    var s := a + ":" + b;
    assert s[|a|] == ':' && s[|c|] == ':';
    assert forall i | 0 <= i < |a| :: s[i] == a[i];
    assert forall i | 0 <= i < |c| :: s[i] == c[i];
    assert |a| == |c|;
    assert s[..|a|] == a && s[..|c|] == c && s[|a| + 1..] == b && s[|c| + 1..] == d;
  }

  /** Between apps without a colon in their names, accounts share a row key exactly when app and e-mail are the same. */
  lemma KeysTellAccounts(app: string, email: string, app': string, email': string)
    requires NormalizeApp(app) == Ok(app) && NormalizeApp(app') == Ok(app') && ':' !in app && ':' !in app'
    ensures UserKey(app, email) == UserKey(app', email') <==> app == app' && Lower(Trim(email)) == Lower(Trim(email'))
  {
    KeyText(app, email);
    KeyText(app', email');
    hide UserKey, Trim, Lower;
    if app + ":" + Lower(Trim(email)) == app' + ":" + Lower(Trim(email')) {
      ColonCuts(app, Lower(Trim(email)), app', Lower(Trim(email')));
    }
  }

  lemma TwoColons(a: string, b: string, c: string)
    ensures (a + ":" + b) + ":" + c == a + ":" + (b + ":" + c)
  {
  }

  /** With a colon in the app name two accounts can share a row. */
  lemma ColonsClash(a: string, b: string, app: string, email: string, email': string)
    requires app == a + ":" + b && email' == b + ":" + email
    requires NormalizeApp(app) == Ok(app) && NormalizeApp(a) == Ok(a)
    requires Lower(Trim(email')) == email' && Lower(Trim(email)) == email
    ensures UserKey(app, email) == UserKey(a, email')
  {
    hide UserKey, Trim, Lower, NormalizeApp;
    KeyText(app, email);
    KeyText(a, email');
    TwoColons(a, b, email);
  }

  // ---- logout requests and lookups ----

  lemma LogoutMirrors(s: Store, token: string, app: Option<string>, now: nat)
    requires WellKeyed(s)
    ensures var (found, kept) := LookUp(s, token, app, false, now);
            var (out, left) := LookUp(s, token, app, true, now);
            && !out.Granted? && !found.Revoked?
            && (found.Granted? <==> out.Revoked?)
            && (found.Granted? ==> found.session.token == token && out == Revoked(token) && token !in left.sessions)
            && (found.Refused? ==> out == found && left == kept)
  {
    hide IssuedBefore;
  }

  /**
   A logout request reports a token revoked exactly when the lookup with the same bearer or cookie would have granted
   its session, and then the token is gone; otherwise it gives the lookup's error.
   */
  lemma LogoutIffLookUp(s: Store, app: string, value: string, now: nat)
    requires WellKeyed(s)
    ensures LogoutAnswers(Lazy(s, Bearer(value), now), Lazy(s, LogoutBearer(value), now))
    ensures LogoutAnswers(Lazy(s, Cookie(app, value), now), Lazy(s, LogoutCookie(app, value), now))
  {
    hide LookUp, SanitizeToken, CookieTarget, WellKeyed;
    if SanitizeToken(value).Ok? {
      LogoutMirrors(s, SanitizeToken(value).value, None, now);
    }
    if CookieTarget(app, value).Ok? {
      LogoutMirrors(s, CookieTarget(app, value).value.0, CookieTarget(app, value).value.1, now);
    }
  }

  predicate LogoutAnswers(lookUp: (Answer, Store), logout: (Answer, Store)) {
    match lookUp.0
    case Granted(session) => logout.0 == Revoked(session.token) && session.token !in logout.1.sessions
    case Refused(error) => logout.0 == Refused(error)
    case Revoked(_) => false
  }

  // ---- the bearer text ----

  /** White space around the text and after the scheme word does not matter; the word is dropped once. */
  lemma BearerTextIsRead(front: string, middle: string, token: string, back: string)
    requires AllWhitespace(front) && AllWhitespace(middle) && AllWhitespace(back) && Trimmed(token) && token != []
    ensures SanitizeToken(front + ("Bearer " + (middle + token)) + back) == Ok(token)
    ensures SanitizeToken(front + ("bearer " + (middle + token)) + back) == Ok(token)
  {
    WordIsDropped("Bearer ", front, middle, token, back);
    WordIsDropped("bearer ", front, middle, token, back);
  }

  lemma WordIsDropped(word: string, front: string, middle: string, token: string, back: string)
    requires word == "Bearer " || word == "bearer "
    requires AllWhitespace(front) && AllWhitespace(middle) && AllWhitespace(back) && Trimmed(token) && token != []
    ensures SanitizeToken(front + (word + (middle + token)) + back) == Ok(token)
  {
    var text := word + (middle + token);
    assert |word| == 7 && !IsWhitespace(word[0]);
    assert text[|text| - 1] == token[|token| - 1] && text[..7] == word && text[7..] == middle + token;
    assert middle + token == middle + token + [];
    hide Trim, AllWhitespace;
    TrimOfPadded(front, text, back);
    assert AllWhitespace([]) by {
      NothingIsBlank();
    }
    TrimOfPadded(middle, token, []);
  }

  lemma NothingIsBlank()
    ensures AllWhitespace([])
  {
  }

  /** Any other text is its own token, without the space around it. */
  lemma PlainTextIsRead(front: string, token: string, back: string)
    requires AllWhitespace(front) && AllWhitespace(back) && Trimmed(token) && token != []
    requires !StartsWith(token, "Bearer ") && !StartsWith(token, "bearer ")
    ensures SanitizeToken(front + token + back) == Ok(token)
  {
    NotStripped(token);
    hide Trim, AllWhitespace, StripBearer, StartsWith;
    TrimOfPadded(front, token, back);
  }

  lemma NotStripped(token: string)
    requires !StartsWith(token, "Bearer ") && !StartsWith(token, "bearer ")
    ensures StripBearer(token) == token
  {
    assert |"Bearer "| == 7 && |"bearer "| == 7;
  }
}
