/**
 Logout requests on the gateway's own store as they are: a lookup under one hold of the mutex and a removal under
 another, with any number of other requests, logouts among them, in between.
 */
module LogoutHolds {
  import opened Wrappers
  import opened AuthStore

  /** The store and the token texts of logouts that have looked up and not yet removed. */
  datatype Gateway = Gateway(store: Store, pending: multiset<string>)

  /** One hold of the mutex. */
  datatype Hold = Whole(request: Request) | LogoutLooksUp(request: Request) | LogoutRemoves(value: string)

  datatype Timed = Timed(now: nat, hold: Hold)

  predicate Enabled(g: Gateway, h: Hold) {
    match h
    case Whole(request) => !IsLogout(request)
    case LogoutLooksUp(request) => IsLogout(request)
    case LogoutRemoves(value) => value in g.pending
  }

  /** What `logout` is then called with: the bearer text as it came, or the resolved session's token. */
  function RemovalText(request: Request, session: Session): string
    requires IsLogout(request)
  {
    if request.LogoutBearer? then request.value else session.token
  }

  /** A hold and the answer the caller gets from it; a lookup that succeeds gives none yet. */
  function Next(g: Gateway, h: Hold, now: nat): (Option<Answer>, Gateway)
    requires Enabled(g, h)
  {
    match h
    case Whole(request) =>
      var (answer, store) := Lazy(g.store, request, now);
      (Some(answer), g.(store := store))
    case LogoutLooksUp(request) =>
      (match Target(request)
       case Err(e) => (Some(Refused(e)), g)
       case Ok(target) =>
         var (result, sessions) := Resolve(g.store.sessions, target.0, target.1, now);
         var store := g.store.(sessions := sessions);
         match result
         case Err(e) => (Some(Refused(e)), g.(store := store))
         case Ok(session) => (None, Gateway(store, g.pending + multiset{RemovalText(request, session)})))
    case LogoutRemoves(value) =>
      var (answer, store) := BareLogout(g.store, value);
      (Some(answer), Gateway(store, g.pending - multiset{value}))
  }

  function Exec(g: Gateway, run: seq<Timed>): (r: Option<(seq<Option<Answer>>, Gateway)>)
    ensures r.Some? ==> |r.value.0| == |run|
  {
    if run == [] then Some(([], g))
    else
      var n := |run| - 1;
      match Exec(g, run[..n])
      case None => None
      case Some(mid) =>
        if !Enabled(mid.1, run[n].hold) then None
        else
          var (answer, g') := Next(mid.1, run[n].hold, run[n].now);
          Some((mid.0 + [answer], g'))
  }

  /** A run is possible and gives these answers. */
  ghost predicate Answers(g: Gateway, run: seq<Timed>, answers: seq<Option<Answer>>) {
    Exec(g, run).Some? && Exec(g, run).value.0 == answers
  }

  // ---- a token is reported revoked once and never granted again ----

  /** Handed out in the past and gone. */
  ghost predicate Gone(s: Store, token: string) {
    IssuedBefore(token, s.nextSessionId) && token !in s.sessions
  }

  predicate Mentions(answer: Option<Answer>, token: string) {
    match answer
    case Some(Granted(session)) => session.token == token
    case Some(Revoked(other)) => other == token
    case _ => false
  }

  lemma GoneLookUp(s: Store, target: string, app: Option<string>, logout: bool, now: nat, token: string)
    requires WellKeyed(s) && Gone(s, token)
    ensures var (answer, s') := LookUp(s, target, app, logout, now); Gone(s', token) && !Mentions(Some(answer), token)
  {
    hide IssuedBefore;
  }

  lemma GoneIssue(s: Store, request: Request, now: nat, token: string)
    requires WellKeyed(s) && Gone(s, token) && IsIssue(request)
    ensures var (answer, s') := Issue(s, request, now); Gone(s', token) && !Mentions(Some(answer), token)
  {
    hide Issue, IssuedBefore;
    IssueKeepsKeys(s, request, now);
    IssueCountsUp(s, request, now);
    IssuedBeforeGrows(token, s.nextSessionId, Issue(s, request, now).1.nextSessionId);
  }

  lemma IssueCountsUp(s: Store, request: Request, now: nat)
    ensures Issue(s, request, now).1.nextSessionId >= s.nextSessionId
  {
    hide NewSession, UserKey, AnonymousUser, NormalizeApp;
  }

  lemma GoneWhole(s: Store, request: Request, now: nat, token: string)
    requires WellKeyed(s) && Gone(s, token)
    ensures var (answer, s') := Lazy(s, request, now); Gone(s', token) && !Mentions(Some(answer), token)
  {
    hide Issue, LookUp, Target, Gone, WellKeyed;
    if IsIssue(request) {
      GoneIssue(s, request, now, token);
    } else if Target(request).Ok? {
      GoneLookUp(s, Target(request).value.0, Target(request).value.1, IsLogout(request), now, token);
    }
  }

  /** Every hold keeps a gone token gone and never mentions it to a caller. */
  lemma GoneStays(g: Gateway, h: Hold, now: nat, token: string)
    requires Enabled(g, h) && WellKeyed(g.store) && Gone(g.store, token)
    ensures var (answer, g') := Next(g, h, now); Gone(g'.store, token) && !Mentions(answer, token)
  {
    hide Lazy, WellKeyed, IssuedBefore, SanitizeToken, Target;
    if h.Whole? {
      GoneWhole(g.store, h.request, now, token);
    }
  }

  lemma NextKeepsKeys(g: Gateway, h: Hold, now: nat)
    requires Enabled(g, h) && WellKeyed(g.store)
    ensures WellKeyed(Next(g, h, now).1.store)
  {
    hide Lazy, WellKeyed, Resolve, SanitizeToken, Target;
    match h {
      case Whole(request) => LazyKeepsKeys(g.store, request, now);
      case LogoutLooksUp(request) =>
        if Target(request).Ok? {
          ResolveKeepsKeys(g.store, Target(request).value.0, Target(request).value.1, now);
        }
      case LogoutRemoves(value) =>
        if SanitizeToken(value).Ok? {
          ResolveKeepsKeys(g.store, SanitizeToken(value).value, None, now);
        }
    }
  }

  /** Reporting a token revoked is what makes it gone. */
  lemma RevokedIsGone(g: Gateway, h: Hold, now: nat, token: string)
    requires Enabled(g, h) && WellKeyed(g.store) && Next(g, h, now).0 == Some(Revoked(token))
    ensures Gone(Next(g, h, now).1.store, token)
  {
    hide IssuedBefore, SanitizeToken, Target, Issue;
    if h.Whole? {
      WholeNeverRevokes(g.store, h.request, now);
    }
  }

  lemma WholeNeverRevokes(s: Store, request: Request, now: nat)
    requires !IsLogout(request)
    ensures !Lazy(s, request, now).0.Revoked?
  {
    hide Target, NewSession, UserKey, AnonymousUser, NormalizeApp;
  }

  ghost predicate RevokedAreGone(answers: seq<Option<Answer>>, s: Store) {
    && WellKeyed(s)
    && forall k, token | 0 <= k < |answers| && answers[k] == Some(Revoked(token)) :: Gone(s, token)
  }

  lemma StepRevokedAreGone(answers: seq<Option<Answer>>, g: Gateway, h: Hold, now: nat)
    requires Enabled(g, h) && RevokedAreGone(answers, g.store)
    ensures RevokedAreGone(answers + [Next(g, h, now).0], Next(g, h, now).1.store)
  {
    NextKeepsKeys(g, h, now);
    var (answer, g') := Next(g, h, now);
    var more := answers + [answer];
    hide Next, Enabled, WellKeyed, Gone;
    forall k, token | 0 <= k < |more| && more[k] == Some(Revoked(token)) ensures Gone(g'.store, token) {
      if k < |answers| {
        assert answers[k] == Some(Revoked(token));
        GoneStays(g, h, now, token);
      } else {
        RevokedIsGone(g, h, now, token);
      }
    }
  }

  lemma {:induction false} RunRevokedAreGone(g: Gateway, run: seq<Timed>)
    requires WellKeyed(g.store) && Exec(g, run).Some?
    ensures RevokedAreGone(Exec(g, run).value.0, Exec(g, run).value.1.store)
  {
    if run != [] {
      var n := |run| - 1;
      RunRevokedAreGone(g, run[..n]);
      var mid := Exec(g, run[..n]).value;
      hide Next, Enabled, RevokedAreGone;
      StepRevokedAreGone(mid.0, mid.1, run[n].hold, run[n].now);
    }
  }

  lemma {:induction false} ExecPrefix(g: Gateway, run: seq<Timed>, n: nat)
    requires n <= |run| && Exec(g, run).Some?
    ensures Exec(g, run[..n]).Some? && Exec(g, run[..n]).value.0 == Exec(g, run).value.0[..n]
  {
    hide Next, Enabled;
    if n < |run| {
      var m := |run| - 1;
      ExecPrefix(g, run[..m], n);
      assert run[..m][..n] == run[..n];
    } else {
      assert run[..n] == run;
    }
  }

  /**
   Over any interleaving of lookups, issues and two-hold logouts: once a token was reported revoked, no later
   answer grants it or reports it revoked again.
   */
  lemma RevokedOnceAndForAll(g: Gateway, run: seq<Timed>, answers: seq<Option<Answer>>, i: nat, j: nat, token: string)
    requires WellKeyed(g.store) && Answers(g, run, answers) && i < j < |run| == |answers|
    requires answers[i] == Some(Revoked(token))
    ensures !Mentions(answers[j], token)
  {
    ExecPrefix(g, run, j);
    ExecPrefix(g, run, j + 1);
    RunRevokedAreGone(g, run[..j]);
    var mid := Exec(g, run[..j]).value;
    assert run[..j + 1][..j] == run[..j];
    assert mid.0[i] == answers[i] && Exec(g, run[..j + 1]).value.0[j] == answers[j];
    hide Next, Mentions, Enabled, Exec;
    LastAnswer(g, run[..j + 1], mid, Exec(g, run[..j + 1]).value);
    GoneStays(mid.1, run[j].hold, run[j].now, token);
  }

  /** The last of these answers is the one the hold gets. */
  predicate EndsWith(answers: seq<Option<Answer>>, before: Gateway, last: Timed) {
    && answers != [] && Enabled(before, last.hold)
    && answers[|answers| - 1] == Next(before, last.hold, last.now).0
  }

  lemma LastAnswer(g: Gateway, run: seq<Timed>, mid: (seq<Option<Answer>>, Gateway), end: (seq<Option<Answer>>, Gateway))
    requires run != [] && Exec(g, run) == Some(end) && Exec(g, run[..|run| - 1]) == Some(mid)
    ensures EndsWith(end.0, mid.1, run[|run| - 1])
  {
    hide Next, Enabled;
  }

  // ---- nothing in between ----

  /** A refused lookup is the whole request. */
  lemma RefusedLookUpIsOneStep(g: Gateway, request: Request, now: nat)
    requires IsLogout(request) && Next(g, LogoutLooksUp(request), now).0.Some?
    ensures var (answer, g') := Next(g, LogoutLooksUp(request), now);
            (answer.value, g'.store) == Lazy(g.store, request, now) && g'.pending == g.pending
  {
    hide SanitizeToken, Target, RemovalText;
  }

  /** A logout whose lookup succeeds, one case at a time: the table in between and the removal. */
  lemma LookUpThenRemove(s: Store, request: Request, token: string, app: Option<string>, session: Session, now: nat)
    requires IsLogout(request) && Target(request) == Ok((token, app)) && Resolve(s.sessions, token, app, now).0 == Ok(session)
    requires SanitizeToken(RemovalText(request, session)) == Ok(token)
    requires token in Resolve(s.sessions, token, app, now).1
    ensures BareLogout(s.(sessions := Resolve(s.sessions, token, app, now).1), RemovalText(request, session)) ==
            Lazy(s, request, now)
  {
    hide SanitizeToken, Target, RemovalText, Resolve;
  }

  /** With no other hold in between, the two holds answer and change the store as the one-step request does. */
  lemma TwoHoldsAreOneStep(g: Gateway, request: Request, now: nat, later: nat) returns (value: string)
    requires IsLogout(request) && WellKeyed(g.store) && Next(g, LogoutLooksUp(request), now).0.None?
    ensures var mid := Next(g, LogoutLooksUp(request), now).1;
            && mid.pending == g.pending + multiset{value} && Enabled(mid, LogoutRemoves(value))
            && var (last, end) := Next(mid, LogoutRemoves(value), later);
            && last.Some? && (last.value, end.store) == Lazy(g.store, request, now) && end.pending == g.pending
  {
    hide SanitizeToken, Target, RemovalText, WellKeyed, Resolve, Lazy, BareLogout;
    var target := Target(request).value;
    var session := Resolve(g.store.sessions, target.0, target.1, now).0.value;
    value := RemovalText(request, session);
    RemovalNamesTarget(g.store, request, target.0, target.1, now);
    LookUpThenRemove(g.store, request, target.0, target.1, session, now);
  }

  lemma RemovalNamesTarget(s: Store, request: Request, token: string, app: Option<string>, now: nat)
    requires IsLogout(request) && WellKeyed(s) && Target(request) == Ok((token, app))
    requires Resolve(s.sessions, token, app, now).0.Ok?
    ensures SanitizeToken(RemovalText(request, Resolve(s.sessions, token, app, now).0.value)) == Ok(token)
    ensures token in Resolve(s.sessions, token, app, now).1
  {
    hide SanitizeToken, NormalizeApp, SanitizeCookie, WellKeyed;
    ResolveKeepsKeys(s, token, app, now);
    StoredTokensAreClean(s, token);
  }
}
