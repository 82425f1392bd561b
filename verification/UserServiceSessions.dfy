/**
 Tokens of the user service over every interleaving of its handlers: each is drawn once, stays with one
 user, is reported revoked at most once, and never resolves after that, although logout checks and
 removes under two separate holds of the sessions table.
 */
module UserServiceSessions {
  import opened Wrappers
  import opened AuthStore
  import opened UserService

  /** A drawn token whose session is not in the table yet. */
  function Pending(pc: Pc): Option<Session> {
    match pc
    case IssueWaitsSessions(session, _) => Some(session)
    case IssueInserts(session, _) => Some(session)
    case _ => None
  }

  /** The session a thread carries or has answered with. */
  function Carried(pc: Pc): Option<Session> {
    match pc
    case RegisterReturns(session) => Some(session)
    case Finished(Answered(session)) => Some(session)
    case _ => Pending(pc)
  }

  function Reported(pc: Pc): Option<string> {
    match pc
    case Finished(RevokedToken(token)) => Some(token)
    case _ => None
  }

  predicate IssuedFor(session: Session, issued: map<string, User>) {
    session.token in issued && issued[session.token] == session.user
  }

  /** Every token ever drawn, against the table, the drawn-but-unfiled tokens and the reported revocations. */
  ghost predicate TokensOk(sessions: map<string, Session>, issued: map<string, User>, next: nat, threads: seq<Pc>) {
    && (forall token | token in issued :: IssuedBefore(token, next))
    && (forall token | token in sessions :: sessions[token].token == token && IssuedFor(sessions[token], issued))
    && (forall i | 0 <= i < |threads| && Carried(threads[i]).Some? :: IssuedFor(Carried(threads[i]).value, issued))
    && (forall i | 0 <= i < |threads| && Pending(threads[i]).Some? :: Pending(threads[i]).value.token !in sessions)
    && (forall i, j | 0 <= i < j < |threads| && Pending(threads[i]).Some? && Pending(threads[j]).Some? ::
          Pending(threads[i]).value.token != Pending(threads[j]).value.token)
    && (forall i | 0 <= i < |threads| && Reported(threads[i]).Some? ::
          Reported(threads[i]).value in issued && Reported(threads[i]).value !in sessions)
    && (forall i, j | 0 <= i < |threads| && 0 <= j < |threads| && Reported(threads[i]).Some? && Pending(threads[j]).Some? ::
          Reported(threads[i]).value != Pending(threads[j]).value.token)
    && (forall i, j | 0 <= i < j < |threads| && Reported(threads[i]).Some? && Reported(threads[j]).Some? ::
          Reported(threads[i]).value != Reported(threads[j]).value)
  }

  ghost predicate SysTokensOk(s: Sys) {
    TokensOk(s.store.sessions, s.issued, s.store.nextSessionId, s.threads)
  }

  // ---- the kinds of step ----

  /** Nothing drawn, filed or reported; sessions may be renewed or dropped. */
  lemma QuietTokens(sessions: map<string, Session>, sessions': map<string, Session>, issued: map<string, User>, next: nat,
                    threads: seq<Pc>, i: nat, pc: Pc)
    requires TokensOk(sessions, issued, next, threads) && i < |threads|
    requires forall token | token in sessions' ::
               token in sessions && sessions'[token].token == token && sessions'[token].user == sessions[token].user
    requires Reported(pc).None? && (Pending(pc).Some? ==> Pending(pc) == Pending(threads[i]))
    requires Carried(pc).Some? ==> IssuedFor(Carried(pc).value, issued)
    ensures TokensOk(sessions', issued, next, threads[i := pc])
  {
    hide IssuedBefore;
  }

  lemma DrawTokens(sessions: map<string, Session>, issued: map<string, User>, next: nat,
                   threads: seq<Pc>, i: nat, pc: Pc, session: Session)
    requires TokensOk(sessions, issued, next, threads) && i < |threads|
    requires Pending(pc) == Carried(pc) == Some(session) && Reported(pc).None?
    requires !IssuedBefore(session.token, next) && IssuedBefore(session.token, next + 1)
    ensures TokensOk(sessions, issued[session.token := session.user], next + 1, threads[i := pc])
  {
    var issued' := issued[session.token := session.user];
    assert session.token !in issued;
    forall token | token in issued' ensures IssuedBefore(token, next + 1) {
      if token in issued {
        IssuedBeforeGrows(token, next, next + 1);
      }
    }
    hide IssuedBefore;
  }

  lemma FileTokens(sessions: map<string, Session>, issued: map<string, User>, next: nat,
                   threads: seq<Pc>, i: nat, pc: Pc, session: Session)
    requires TokensOk(sessions, issued, next, threads) && i < |threads|
    requires Pending(threads[i]) == Some(session) && Pending(pc).None? && Reported(pc).None?
    requires Carried(pc) == Some(session)
    ensures TokensOk(sessions[session.token := session], issued, next, threads[i := pc])
  {
    hide IssuedBefore;
    assert IssuedFor(Carried(threads[i]).value, issued);
    var threads' := threads[i := pc];
    forall j | 0 <= j < |threads'| && Pending(threads'[j]).Some?
      ensures Pending(threads'[j]).value.token != session.token && Pending(threads'[j]).value.token !in sessions
    {
      assert j != i && Pending(threads[j]).Some?;
    }
    forall j | 0 <= j < |threads'| && Reported(threads'[j]).Some?
      ensures Reported(threads'[j]).value != session.token
    {
      assert j != i && Reported(threads[j]).Some?;
    }
  }

  lemma ReportTokens(sessions: map<string, Session>, issued: map<string, User>, next: nat,
                     threads: seq<Pc>, i: nat, token: string)
    requires TokensOk(sessions, issued, next, threads) && i < |threads| && token in sessions
    ensures TokensOk(sessions - {token}, issued, next, threads[i := Finished(RevokedToken(token))])
  {
    hide IssuedBefore;
    assert IssuedFor(sessions[token], issued);
    var threads' := threads[i := Finished(RevokedToken(token))];
    forall j | 0 <= j < |threads'| && Pending(threads'[j]).Some?
      ensures Pending(threads'[j]).value.token != token && Pending(threads'[j]).value.token !in sessions
    {
      assert j != i && Pending(threads[j]).Some?;
    }
    forall j | 0 <= j < |threads'| && j != i && Reported(threads'[j]).Some?
      ensures Reported(threads'[j]).value != token && Reported(threads'[j]).value !in sessions
    {
      assert Reported(threads[j]).Some?;
    }
  }

  lemma CallTokens(sessions: map<string, Session>, issued: map<string, User>, next: nat, threads: seq<Pc>, pc: Pc)
    requires TokensOk(sessions, issued, next, threads)
    requires Carried(pc).None? && Reported(pc).None?
    ensures TokensOk(sessions, issued, next, threads + [pc])
  {
    hide IssuedBefore;
  }

  lemma ResolvedUser(sessions: map<string, Session>, token: string, app: string, now: nat)
    requires forall t | t in sessions :: sessions[t].token == t
    ensures var (r, sessions') := Resolve(sessions, token, Some(app), now);
            && (forall t | t in sessions' ::
                  t in sessions && sessions'[t].token == t && sessions'[t].user == sessions[t].user)
            && (r.Ok? ==> token in sessions && r.value.token == token && r.value.user == sessions[token].user)
  {
  }

  /** The tables after thread `i` worked from program point `pc`. */
  ghost predicate WorkedOk(s: Sys, i: nat, pc: Pc, now: nat, who: Identity)
    requires i < |s.threads| && Wants(pc).None? && !pc.Finished?
  {
    var (store, pc') := Work(s.store, pc, now, who);
    TokensOk(store.sessions, Recorded(s.issued, pc'), store.nextSessionId, s.threads[i := pc'])
  }

  lemma PlainTokens(s: Sys, i: nat, pc: Pc)
    requires SysTokensOk(s) && i < |s.threads|
    requires Reported(pc).None? && Pending(pc).None? && (Carried(pc).Some? ==> IssuedFor(Carried(pc).value, s.issued))
    ensures TokensOk(s.store.sessions, s.issued, s.store.nextSessionId, s.threads[i := pc])
  {
    assert forall token | token in s.store.sessions :: s.store.sessions[token].token == token;
    QuietTokens(s.store.sessions, s.store.sessions, s.issued, s.store.nextSessionId, s.threads, i, pc);
  }

  lemma MeIssued(s: Sys, token: string, app: string, now: nat)
    requires SysTokensOk(s)
    ensures var (r, sessions) := Resolve(s.store.sessions, token, Some(app), now);
            && (forall t | t in sessions ::
                  t in s.store.sessions && sessions[t].token == t && sessions[t].user == s.store.sessions[t].user)
            && (r.Ok? ==> IssuedFor(r.value, s.issued))
  {
    ResolvedUser(s.store.sessions, token, app, now);
    if Resolve(s.store.sessions, token, Some(app), now).0.Ok? {
      assert IssuedFor(s.store.sessions[token], s.issued);
    }
    hide Resolve;
  }

  lemma MeTokens(s: Sys, i: nat, token: string, app: string, now: nat, who: Identity)
    requires SysTokensOk(s) && i < |s.threads|
    ensures WorkedOk(s, i, MeResolves(token, app), now, who)
  {
    hide Key, AnonymousUser, RegisteredUser, NewSession, Resolve, TokensOk, CookieSession;
    MeIssued(s, token, app, now);
    var (r, sessions) := Resolve(s.store.sessions, token, Some(app), now);
    var pc := Finished(if r.Ok? then Answered(r.value) else Failed);
    QuietTokens(s.store.sessions, sessions, s.issued, s.store.nextSessionId, s.threads, i, pc);
  }

  lemma LogoutTokens(s: Sys, i: nat, token: string, app: string, now: nat, who: Identity)
    requires SysTokensOk(s) && i < |s.threads|
    ensures WorkedOk(s, i, LogoutResolves(token, app), now, who)
  {
    hide Key, AnonymousUser, RegisteredUser, NewSession;
    ResolvedUser(s.store.sessions, token, app, now);
    hide Resolve, TokensOk;
    var (store, pc') := Work(s.store, LogoutResolves(token, app), now, who);
    QuietTokens(s.store.sessions, store.sessions, s.issued, s.store.nextSessionId, s.threads, i, pc');
  }

  lemma RemoveTokens(s: Sys, i: nat, token: string, now: nat, who: Identity)
    requires SysTokensOk(s) && i < |s.threads|
    ensures WorkedOk(s, i, LogoutRemoves(token), now, who)
  {
    hide TokensOk;
    if token in s.store.sessions {
      ReportTokens(s.store.sessions, s.issued, s.store.nextSessionId, s.threads, i, token);
    } else {
      assert s.store.sessions - {token} == s.store.sessions;
      PlainTokens(s, i, Finished(Failed));
    }
  }

  lemma DrawnTokens(s: Sys, i: nat, now: nat, who: Identity)
    requires SysTokensOk(s) && i < |s.threads| && s.threads[i].IssueDrawsToken?
    ensures WorkedOk(s, i, s.threads[i], now, who)
  {
    hide TokenText, TokensOk, IssuedBefore;
    var pc := s.threads[i];
    var pc' := Work(s.store, pc, now, who).1;
    FreshToken(pc.kind, pc.user.app, s.store.nextSessionId);
    DrawTokens(s.store.sessions, s.issued, s.store.nextSessionId, s.threads, i, pc', pc'.issued);
  }

  lemma FiledTokens(s: Sys, i: nat, now: nat, who: Identity)
    requires SysTokensOk(s) && i < |s.threads| && s.threads[i].IssueInserts?
    ensures WorkedOk(s, i, s.threads[i], now, who)
  {
    hide TokensOk;
    var pc := s.threads[i];
    FileTokens(s.store.sessions, s.issued, s.store.nextSessionId, s.threads, i, Work(s.store, pc, now, who).1, pc.issued);
  }

  lemma CookieTokens(s: Sys, i: nat, app: string, cookie: Cookie, now: nat, who: Identity)
    requires SysTokensOk(s) && i < |s.threads|
    ensures WorkedOk(s, i, AnonymousReadsCookie(app, cookie), now, who)
  {
    hide Key, AnonymousUser, RegisteredUser, NewSession;
    var pc := Work(s.store, AnonymousReadsCookie(app, cookie), now, who).1;
    if Carried(pc).Some? {
      assert IssuedFor(s.store.sessions[cookie.value.value], s.issued);
    }
    hide TokensOk;
    PlainTokens(s, i, pc);
  }

  /** Work that neither touches the sessions nor draws a token. */
  predicate IsPlain(pc: Pc) {
    pc.LoginReads? || pc.RegisterChecks? || pc.RegisterInserts? || pc.RegisterReturns? || pc.AnonymousReadsIdentity?
    || pc.AnonymousDrawsId?
  }

  lemma PlainWork(s: Store, pc: Pc, now: nat, who: Identity)
    requires IsPlain(pc)
    ensures var (s', pc') := Work(s, pc, now, who);
            && s'.sessions == s.sessions && s'.nextSessionId == s.nextSessionId
            && Pending(pc').None? && Reported(pc').None? && !pc'.IssueWaitsSessions?
            && (Carried(pc').Some? ==> Carried(pc') == Carried(pc))
  {
    hide Key, AnonymousUser, RegisteredUser;
  }

  lemma OtherTokens(s: Sys, i: nat, now: nat, who: Identity)
    requires SysTokensOk(s) && i < |s.threads| && IsPlain(s.threads[i])
    ensures WorkedOk(s, i, s.threads[i], now, who)
  {
    hide Work;
    var pc := s.threads[i];
    PlainWork(s.store, pc, now, who);
    assert Carried(pc).Some? ==> IssuedFor(Carried(pc).value, s.issued);
    hide TokensOk;
    PlainTokens(s, i, Work(s.store, pc, now, who).1);
  }

  lemma WorkTokens(s: Sys, i: nat, now: nat, who: Identity)
    requires SysTokensOk(s) && i < |s.threads|
    requires Wants(s.threads[i]).None? && !s.threads[i].Finished?
    ensures WorkedOk(s, i, s.threads[i], now, who)
  {
    hide Work, TokensOk, WorkedOk;
    match s.threads[i] {
      case MeResolves(token, app) => MeTokens(s, i, token, app, now, who);
      case LogoutResolves(token, app) => LogoutTokens(s, i, token, app, now, who);
      case LogoutRemoves(token) => RemoveTokens(s, i, token, now, who);
      case IssueDrawsToken(_, _, _, _) => DrawnTokens(s, i, now, who);
      case IssueInserts(_, _) => FiledTokens(s, i, now, who);
      case AnonymousReadsCookie(app, cookie) => CookieTokens(s, i, app, cookie, now, who);
      case _ => OtherTokens(s, i, now, who);
    }
  }

  lemma AcquireTokens(s: Sys, i: nat)
    requires SysTokensOk(s) && i < |s.threads| && Wants(s.threads[i]).Some?
    ensures TokensOk(s.store.sessions, s.issued, s.store.nextSessionId, s.threads[i := Entered(s.threads[i])])
  {
    var pc := Entered(s.threads[i]);
    assert Carried(pc) == Carried(s.threads[i]) && Pending(pc) == Pending(s.threads[i]) && Reported(pc).None?;
    assert forall token | token in s.store.sessions :: s.store.sessions[token].token == token;
    QuietTokens(s.store.sessions, s.store.sessions, s.issued, s.store.nextSessionId, s.threads, i, pc);
  }

  lemma TokensStep(s: Sys, l: Label)
    requires SysTokensOk(s) && Enabled(s, l)
    ensures SysTokensOk(Next(s, l))
  {
    match l {
      case Call(pc) =>
        hide TokensOk, Normal;
        CallTokens(s.store.sessions, s.issued, s.store.nextSessionId, s.threads, pc);
      case Step(thread, now, who) =>
        if Wants(s.threads[thread]).Some? {
          AcquireTokens(s, thread);
        } else {
          WorkTokens(s, thread, now, who);
        }
        hide TokensOk, Work, Held, Entered, Recorded;
    }
  }

  lemma {:induction false} TokensReachable(s0: Sys, labels: seq<Label>, s: Sys)
    requires Reachable(s0, labels, s)
    ensures SysTokensOk(s)
  {
    hide Next, Enabled;
    if labels != [] {
      var n := |labels| - 1;
      var mid := Exec(s0, labels[..n]).value;
      TokensReachable(s0, labels[..n], mid);
      TokensStep(mid, labels[n]);
    }
  }

  /** Over any interleaving, at most one call ever reports a given token revoked. */
  lemma RevokedAtMostOnce(s0: Sys, labels: seq<Label>, s: Sys, i: nat, j: nat, token: string)
    requires Reachable(s0, labels, s) && i < |s.threads| && j < |s.threads|
    requires s.threads[i] == s.threads[j] == Finished(RevokedToken(token))
    ensures i == j
  {
    TokensReachable(s0, labels, s);
    assert Reported(s.threads[i]) == Reported(s.threads[j]) == Some(token);
  }

  lemma FinishedStays(s: Sys, l: Label, i: nat)
    requires Enabled(s, l) && i < |s.threads| && s.threads[i].Finished?
    ensures i < |Next(s, l).threads| && Next(s, l).threads[i] == s.threads[i]
  {
    hide Work, Entered, Held, Normal, Recorded;
  }

  /** A finished call keeps its reply for the rest of the run. */
  lemma {:induction false} RepliesStand(s: Sys, labels: seq<Label>, i: nat)
    requires Exec(s, labels).Some? && i < |s.threads| && s.threads[i].Finished?
    ensures i < |Exec(s, labels).value.threads| && Exec(s, labels).value.threads[i] == s.threads[i]
  {
    if labels != [] {
      var n := |labels| - 1;
      RepliesStand(s, labels[..n], i);
      FinishedStays(Exec(s, labels[..n]).value, labels[n], i);
      hide Next, Enabled;
    }
  }

  lemma {:induction false} ExecConcat(s: Sys, a: seq<Label>, b: seq<Label>)
    requires Exec(s, a).Some?
    ensures Exec(s, a + b) == Exec(Exec(s, a).value, b)
  {
    hide Next, Enabled;
    if b == [] {
      assert a + b == a;
    } else {
      var n := |b| - 1;
      assert (a + b)[..|a| + n] == a + b[..n];
      ExecConcat(s, a, b[..n]);
    }
  }

  /** Every lookup of the token by me or logout fails in this state, whenever and for whatever app. */
  ghost predicate LookupsFail(store: Store, token: string) {
    && (forall app, now, who :: Work(store, MeResolves(token, app), now, who).1 == Finished(Failed))
    && (forall app, now, who :: Work(store, LogoutResolves(token, app), now, who).1 == Finished(Failed))
    && (forall now, who :: Work(store, LogoutRemoves(token), now, who).1 == Finished(Failed))
  }

  lemma AbsentTokensFail(store: Store, token: string)
    requires token !in store.sessions
    ensures LookupsFail(store, token)
  {
  }

  lemma ReportedIsAbsent(s: Sys, i: nat, token: string)
    requires SysTokensOk(s) && i < |s.threads| && s.threads[i] == Finished(RevokedToken(token))
    ensures token !in s.store.sessions
  {
    assert Reported(s.threads[i]) == Some(token);
  }

  /**
   Once a token was reported revoked, every later me or logout that looks it up fails, whatever ran in
   between and whatever was already under way.
   */
  lemma RevokedTokensNeverResolve(s0: Sys, before: seq<Label>, s: Sys, i: nat, token: string,
                                  after: seq<Label>, s': Sys)
    requires Reachable(s0, before, s) && i < |s.threads| && s.threads[i] == Finished(RevokedToken(token))
    requires Exec(s, after) == Some(s')
    ensures LookupsFail(s'.store, token)
  {
    ExecConcat(s0, before, after);
    TokensReachable(s0, before + after, s');
    RepliesStand(s, after, i);
    hide Exec, LookupsFail, TokensOk;
    ReportedIsAbsent(s', i, token);
    AbsentTokensFail(s'.store, token);
  }
}
