/**
 The standalone user service: five handlers over four separately locked tables, run by any number of
 threads at once. Each program point below is a place where a handler waits for a lock or holds some;
 a step is one lock acquisition or one stretch of work under the locks held, up to the next release.
 */
module UserService {
  import opened Wrappers
  import opened Text
  import opened AuthStore

  datatype Lock = Users | UserCounter | SessionCounter | Sessions

  function Rank(l: Lock): nat {
    match l
    case Users => 0
    case UserCounter => 1
    case SessionCounter => 2
    case Sessions => 3
  }

  datatype Reply = Answered(session: Session) | RevokedToken(token: string) | Failed

  /** What the caller registers, with e-mail and display name already trimmed. */
  datatype Registration = Registration(app: string, email: string, password: string, displayName: string)

  /** The cookie token of a call: its sanitized text if there is one, or the sanitizer's error. */
  type Cookie = Result<Option<string>, AuthError>

  datatype Pc =
    // login
    | LoginWaits(app: string, email: string, password: string)
    | LoginReads(app: string, email: string, password: string)
    // register: the user counter is taken while the users table is held, and kept to the end
    | RegisterWaits(registration: Registration)
    | RegisterChecks(registration: Registration)
    | RegisterWaitsCounter(registration: Registration)
    | RegisterInserts(registration: Registration)
    | RegisterReturns(session: Session)
    // me
    | MeWaits(token: string, app: string)
    | MeResolves(token: string, app: string)
    // logout: resolve and remove under two separate holds of the sessions table
    | LogoutWaits(token: string, app: string)
    | LogoutResolves(token: string, app: string)
    | LogoutWaitsAgain(token: string)
    | LogoutRemoves(token: string)
    // ensureAnonymousSession
    | AnonymousWaits(app: string, cookie: Cookie)
    | AnonymousReadsCookie(app: string, cookie: Cookie)
    | AnonymousWaitsUsers(app: string)
    | AnonymousReadsIdentity(app: string)
    | AnonymousWaitsCounter(app: string, tenantId: string, roles: seq<string>)
    | AnonymousDrawsId(app: string, tenantId: string, roles: seq<string>)
    // issue_session, on behalf of a handler that may keep the user counter
    | IssueWaitsCounter(user: User, kind: Kind, now: nat, keepsCounter: bool)
    | IssueDrawsToken(user: User, kind: Kind, now: nat, keepsCounter: bool)
    | IssueWaitsSessions(issued: Session, keepsCounter: bool)
    | IssueInserts(issued: Session, keepsCounter: bool)
    | Finished(reply: Reply)

  /** The lock a waiting thread wants next. */
  function Wants(pc: Pc): Option<Lock> {
    match pc
    case LoginWaits(_, _, _) => Some(Users)
    case RegisterWaits(_) => Some(Users)
    case RegisterWaitsCounter(_) => Some(UserCounter)
    case MeWaits(_, _) => Some(Sessions)
    case LogoutWaits(_, _) => Some(Sessions)
    case LogoutWaitsAgain(_) => Some(Sessions)
    case AnonymousWaits(_, _) => Some(Sessions)
    case AnonymousWaitsUsers(_) => Some(Users)
    case AnonymousWaitsCounter(_, _, _) => Some(UserCounter)
    case IssueWaitsCounter(_, _, _, _) => Some(SessionCounter)
    case IssueWaitsSessions(_, _) => Some(Sessions)
    case _ => None
  }

  /** The locks held at a program point. */
  function Held(pc: Pc): set<Lock> {
    match pc
    case LoginReads(_, _, _) => {Users}
    case RegisterChecks(_) => {Users}
    case RegisterWaitsCounter(_) => {Users}
    case RegisterInserts(_) => {Users, UserCounter}
    case RegisterReturns(_) => {UserCounter}
    case MeResolves(_, _) => {Sessions}
    case LogoutResolves(_, _) => {Sessions}
    case LogoutRemoves(_) => {Sessions}
    case AnonymousReadsCookie(_, _) => {Sessions}
    case AnonymousReadsIdentity(_) => {Users}
    case AnonymousDrawsId(_, _, _) => {UserCounter}
    case IssueWaitsCounter(_, _, _, keeps) => if keeps then {UserCounter} else {}
    case IssueDrawsToken(_, _, _, keeps) => if keeps then {UserCounter, SessionCounter} else {SessionCounter}
    case IssueWaitsSessions(_, keeps) => if keeps then {UserCounter} else {}
    case IssueInserts(_, keeps) => if keeps then {UserCounter, Sessions} else {Sessions}
    case _ => {}
  }

  /** Where a waiting thread is once it has the lock. */
  function Entered(pc: Pc): Pc
    requires Wants(pc).Some?
  {
    match pc
    case LoginWaits(app, email, password) => LoginReads(app, email, password)
    case RegisterWaits(r) => RegisterChecks(r)
    case RegisterWaitsCounter(r) => RegisterInserts(r)
    case MeWaits(token, app) => MeResolves(token, app)
    case LogoutWaits(token, app) => LogoutResolves(token, app)
    case LogoutWaitsAgain(token) => LogoutRemoves(token)
    case AnonymousWaits(app, cookie) => AnonymousReadsCookie(app, cookie)
    case AnonymousWaitsUsers(app) => AnonymousReadsIdentity(app)
    case AnonymousWaitsCounter(app, tenantId, roles) => AnonymousDrawsId(app, tenantId, roles)
    case IssueWaitsCounter(user, kind, now, keeps) => IssueDrawsToken(user, kind, now, keeps)
    case IssueWaitsSessions(session, keeps) => IssueInserts(session, keeps)
  }

  function Key(app: string, email: string): string {
    app + ":" + Lower(Trim(email))
  }

  /** Tenant and roles, as `default_identity_for_app` finds them. */
  type Identity = (string, seq<string>)

  /** `read_cookie_session`: a filed session of the right app, stale or not; another app's is an error. */
  function CookieSession(sessions: map<string, Session>, app: string, cookie: Cookie): Result<Option<Session>, AuthError> {
    match cookie
    case Err(e) => Err(e)
    case Ok(None) => Ok(None)
    case Ok(Some(token)) =>
      if token !in sessions then Ok(None)
      else if sessions[token].user.app != app then Err(WrongApp)
      else Ok(Some(sessions[token]))
  }

  function RegisteredUser(r: Registration, id: nat, tenantId: string, roles: seq<string>): User {
    User(r.app, "u_" + Decimal(id), tenantId, r.email, r.password, r.displayName, roles, false)
  }

  /** The work done under the locks held, up to and including the next release. */
  function Work(s: Store, pc: Pc, now: nat, who: Identity): (Store, Pc)
    requires Wants(pc).None? && !pc.Finished?
  {
    match pc
    case LoginReads(app, email, password) =>
      var key := Key(app, email);
      if key !in s.users || s.users[key].password != password then (s, Finished(Failed))
      else (s, IssueWaitsCounter(s.users[key], Authenticated, now, false))
    case RegisterChecks(r) =>
      if Key(r.app, r.email) in s.users then (s, Finished(Failed)) else (s, RegisterWaitsCounter(r))
    case RegisterInserts(r) =>
      var user := RegisteredUser(r, s.nextUserId, who.0, who.1);
      (s.(users := s.users[Key(r.app, r.email) := user], nextUserId := s.nextUserId + 1),
       IssueWaitsCounter(user, Authenticated, now, true))
    case RegisterReturns(session) => (s, Finished(Answered(session)))
    case MeResolves(token, app) =>
      var (r, sessions) := Resolve(s.sessions, token, Some(app), now);
      (s.(sessions := sessions), Finished(if r.Ok? then Answered(r.value) else Failed))
    case LogoutResolves(token, app) =>
      var (r, sessions) := Resolve(s.sessions, token, Some(app), now);
      (s.(sessions := sessions), if r.Ok? then LogoutWaitsAgain(token) else Finished(Failed))
    case LogoutRemoves(token) =>
      (s.(sessions := s.sessions - {token}), Finished(if token in s.sessions then RevokedToken(token) else Failed))
    case AnonymousReadsCookie(app, cookie) =>
      (match CookieSession(s.sessions, app, cookie)
       case Err(_) => (s, Finished(Failed))
       case Ok(None) => (s, AnonymousWaitsUsers(app))
       case Ok(Some(session)) => (s, Finished(Answered(session))))
    case AnonymousReadsIdentity(app) => (s, AnonymousWaitsCounter(app, who.0, who.1))
    case AnonymousDrawsId(app, tenantId, roles) =>
      (s.(nextUserId := s.nextUserId + 1),
       IssueWaitsCounter(AnonymousUser(app, s.nextUserId, tenantId, roles), Anonymous, now, false))
    case IssueDrawsToken(user, kind, issuedAt, keeps) =>
      (s.(nextSessionId := s.nextSessionId + 1),
       IssueWaitsSessions(NewSession(user.app, s.nextSessionId, user, kind, issuedAt), keeps))
    case IssueInserts(session, keeps) =>
      (s.(sessions := s.sessions[session.token := session]),
       if keeps then RegisterReturns(session) else Finished(Answered(session)))
  }

  // ---- any number of threads ----

  /**
   The guarded tables, who owns which lock, one program point per call made so far, and the clock.
   `issued` is a record kept for the proofs: the user each token was drawn for.
   */
  datatype Sys =
    Sys(store: Store, owners: map<Lock, nat>, threads: seq<Pc>, clock: nat, issued: map<string, User>)

  /** `who` is what the hash map's order makes a search for an app's identity find. */
  datatype Label = Call(pc: Pc) | Step(thread: nat, now: nat, who: Identity)

  predicate Normal(app: string) {
    NormalizeApp(app) == Ok(app)
  }

  /** Normalizing twice changes nothing more. */
  lemma NormalizedIsNormal(app: string)
    ensures NormalizeApp(app).Ok? ==> Normal(NormalizeApp(app).value)
  {
    TrimLowerIdempotent(app);
    hide Trim, Lower;
  }

  /** Where a handler starts once its input is checked and the app name normalized. */
  predicate IsEntry(pc: Pc) {
    match pc
    case LoginWaits(app, _, _) => Normal(app)
    case RegisterWaits(r) => Normal(r.app)
    case MeWaits(_, app) => Normal(app)
    case LogoutWaits(_, app) => Normal(app)
    case AnonymousWaits(app, _) => Normal(app)
    case _ => false
  }

  predicate CanStep(s: Sys, thread: nat) {
    && thread < |s.threads|
    && !s.threads[thread].Finished?
    && (Wants(s.threads[thread]).Some? ==> Wants(s.threads[thread]).value !in s.owners)
  }

  /** The identity found, where the work looks for one, is that of some user of the app. */
  ghost predicate FindsIdentity(users: map<string, User>, pc: Pc, who: Identity) {
    match pc
    case RegisterInserts(r) => IsDefaultIdentity(users, r.app, who.0, who.1)
    case AnonymousReadsIdentity(app) => IsDefaultIdentity(users, app, who.0, who.1)
    case _ => true
  }

  ghost predicate Enabled(s: Sys, l: Label) {
    match l
    case Call(pc) => IsEntry(pc)
    case Step(thread, now, who) =>
      CanStep(s, thread) && s.clock <= now && FindsIdentity(s.store.users, s.threads[thread], who)
  }

  ghost function Next(s: Sys, l: Label): Sys
    requires Enabled(s, l)
  {
    match l
    case Call(pc) => s.(threads := s.threads + [pc])
    case Step(thread, now, who) =>
      var pc := s.threads[thread];
      if Wants(pc).Some? then
        s.(owners := s.owners[Wants(pc).value := thread], threads := s.threads[thread := Entered(pc)], clock := now)
      else
        var (store, pc') := Work(s.store, pc, now, who);
        Sys(store, s.owners - (Held(pc) - Held(pc')), s.threads[thread := pc'], now, Recorded(s.issued, pc'))
  }

  function Recorded(issued: map<string, User>, pc: Pc): map<string, User> {
    if pc.IssueWaitsSessions? then issued[pc.issued.token := pc.issued.user] else issued
  }

  ghost function Exec(s: Sys, labels: seq<Label>): Option<Sys> {
    if labels == [] then Some(s)
    else
      var n := |labels| - 1;
      match Exec(s, labels[..n])
      case None => None
      case Some(mid) => if Enabled(mid, labels[n]) then Some(Next(mid, labels[n])) else None
  }

  /** The service as it starts: seeded users of normalized apps, no session, no call in progress. */
  predicate IsStart(s: Sys) {
    && s.store.sessions == map[] && s.owners == map[] && s.threads == [] && s.issued == map[]
    && forall key | key in s.store.users :: Normal(s.store.users[key].app)
  }

  /** A run from `s` ends in `s'`. */
  ghost predicate Runs(s: Sys, labels: seq<Label>, s': Sys) {
    Exec(s, labels) == Some(s')
  }

  ghost predicate Reachable(s0: Sys, labels: seq<Label>, s: Sys) {
    IsStart(s0) && Exec(s0, labels) == Some(s)
  }

  // ---- deadlock freedom ----

  /** A lock is owned by exactly the thread that holds it. */
  ghost predicate LocksOk(owners: map<Lock, nat>, threads: seq<Pc>) {
    && (forall l | l in owners :: owners[l] < |threads| && l in Held(threads[owners[l]]))
    && (forall i, l | 0 <= i < |threads| && l in Held(threads[i]) :: l in owners && owners[l] == i)
  }

  /** Every path takes locks in the order users, user counter, session counter, sessions. */
  lemma LockOrder(pc: Pc)
    ensures Wants(pc).Some? ==> forall l | l in Held(pc) :: Rank(l) < Rank(Wants(pc).value)
    ensures Wants(pc).Some? ==> Held(Entered(pc)) == Held(pc) + {Wants(pc).value}
  {
  }

  lemma WorkOnlyReleases(s: Store, pc: Pc, now: nat, who: Identity)
    requires Wants(pc).None? && !pc.Finished?
    ensures Held(Work(s, pc, now, who).1) <= Held(pc)
  {
    hide NewSession, AnonymousUser, RegisteredUser, Resolve, CookieSession, Key;
  }

  /** The owner table follows a thread from one program point to another. */
  lemma LocksMove(owners: map<Lock, nat>, owners': map<Lock, nat>, threads: seq<Pc>, thread: nat, pc: Pc)
    requires thread < |threads| && LocksOk(owners, threads)
    requires forall l :: l in Held(pc) && l !in Held(threads[thread]) ==> l !in owners
    requires forall l :: l in owners' <==> l in Held(pc) || (l in owners && owners[l] != thread)
    requires forall l | l in owners' :: owners'[l] == if l in Held(pc) then thread else owners[l]
    ensures LocksOk(owners', threads[thread := pc])
  {
    hide Held;
    var threads' := threads[thread := pc];
    forall i, l | 0 <= i < |threads'| && l in Held(threads'[i])
      ensures l in owners' && owners'[l] == i
    {
      if i != thread {
        assert l in Held(threads[i]);
      }
    }
  }

  lemma OwnedIffHeld(owners: map<Lock, nat>, threads: seq<Pc>, thread: nat, l: Lock)
    requires thread < |threads| && LocksOk(owners, threads)
    ensures l in Held(threads[thread]) <==> l in owners && owners[l] == thread
  {
  }

  lemma AcquireKeepsLocks(owners: map<Lock, nat>, threads: seq<Pc>, thread: nat, wanted: Lock, pc: Pc)
    requires thread < |threads| && LocksOk(owners, threads) && wanted !in owners
    requires Held(pc) == Held(threads[thread]) + {wanted}
    ensures LocksOk(owners[wanted := thread], threads[thread := pc])
  {
    forall l ensures l in Held(threads[thread]) <==> l in owners && owners[l] == thread {
      OwnedIffHeld(owners, threads, thread, l);
    }
    hide Held, LocksOk;
    LocksMove(owners, owners[wanted := thread], threads, thread, pc);
  }

  lemma ReleaseKeepsLocks(owners: map<Lock, nat>, threads: seq<Pc>, thread: nat, pc: Pc)
    requires thread < |threads| && LocksOk(owners, threads)
    requires Held(pc) <= Held(threads[thread])
    ensures LocksOk(owners - (Held(threads[thread]) - Held(pc)), threads[thread := pc])
  {
    forall l ensures l in Held(threads[thread]) <==> l in owners && owners[l] == thread {
      OwnedIffHeld(owners, threads, thread, l);
    }
    hide Held, LocksOk;
    LocksMove(owners, owners - (Held(threads[thread]) - Held(pc)), threads, thread, pc);
  }

  lemma CallKeepsLocks(owners: map<Lock, nat>, threads: seq<Pc>, pc: Pc)
    requires LocksOk(owners, threads) && Held(pc) == {}
    ensures LocksOk(owners, threads + [pc])
  {
  }

  lemma LocksStep(s: Sys, l: Label)
    requires LocksOk(s.owners, s.threads) && Enabled(s, l)
    ensures LocksOk(Next(s, l).owners, Next(s, l).threads)
  {
    hide LocksOk, Work, Normal, Recorded;
    match l {
      case Call(pc) =>
        CallKeepsLocks(s.owners, s.threads, pc);
      case Step(thread, now, who) =>
        var pc := s.threads[thread];
        LockOrder(pc);
        hide Held;
        if Wants(pc).Some? {
          AcquireKeepsLocks(s.owners, s.threads, thread, Wants(pc).value, Entered(pc));
        } else {
          WorkOnlyReleases(s.store, pc, now, who);
          ReleaseKeepsLocks(s.owners, s.threads, thread, Work(s.store, pc, now, who).1);
        }
    }
  }

  lemma {:induction false} LocksReachable(s0: Sys, labels: seq<Label>)
    requires LocksOk(s0.owners, s0.threads) && Exec(s0, labels).Some?
    ensures LocksOk(Exec(s0, labels).value.owners, Exec(s0, labels).value.threads)
  {
    if labels != [] {
      var n := |labels| - 1;
      LocksReachable(s0, labels[..n]);
      LocksStep(Exec(s0, labels[..n]).value, labels[n]);
    }
  }

  /** Follow the owner of the wanted lock: each is stopped, if at all, by a lock of higher rank. */
  lemma {:induction false} OwnerChainEnds(s: Sys, thread: nat) returns (free: nat)
    requires LocksOk(s.owners, s.threads) && thread < |s.threads| && !s.threads[thread].Finished?
    ensures CanStep(s, free)
    decreases match Wants(s.threads[thread]) case None => 0 case Some(l) => 4 - Rank(l)
  {
    var pc := s.threads[thread];
    if Wants(pc).None? || Wants(pc).value !in s.owners {
      free := thread;
    } else {
      var owner := s.owners[Wants(pc).value];
      LockOrder(s.threads[owner]);
      free := OwnerChainEnds(s, owner);
    }
  }

  /** In every reachable state with an unfinished call some thread can step, for any number of calls. */
  lemma DeadlockFree(s0: Sys, labels: seq<Label>, s: Sys, thread: nat) returns (l: Label)
    requires Reachable(s0, labels, s)
    requires thread < |s.threads| && !s.threads[thread].Finished?
    ensures l.Step? && Enabled(s, l)
  {
    LocksReachable(s0, labels);
    var free := OwnerChainEnds(s, thread);
    var who := IdentityExists(s.store.users, s.threads[free]);
    l := Step(free, s.clock, who);
  }

  lemma IdentityExists(users: map<string, User>, pc: Pc) returns (who: Identity)
    ensures FindsIdentity(users, pc, who)
  {
    var app := match pc case RegisterInserts(r) => r.app case AnonymousReadsIdentity(app) => app case _ => "";
    if key :| key in users && users[key].app == app {
      who := (users[key].tenantId, users[key].roles);
    } else {
      who := ("tenant_local", ["member"]);
    }
  }

  // ---- every call ends ----

  /** Steps a call can still take. */
  function StepsLeft(pc: Pc): nat {
    match pc
    case LoginWaits(_, _, _) => 7
    case LoginReads(_, _, _) => 6
    case RegisterWaits(_) => 9
    case RegisterChecks(_) => 8
    case RegisterWaitsCounter(_) => 7
    case RegisterInserts(_) => 6
    case RegisterReturns(_) => 1
    case MeWaits(_, _) => 2
    case MeResolves(_, _) => 1
    case LogoutWaits(_, _) => 4
    case LogoutResolves(_, _) => 3
    case LogoutWaitsAgain(_) => 2
    case LogoutRemoves(_) => 1
    case AnonymousWaits(_, _) => 11
    case AnonymousReadsCookie(_, _) => 10
    case AnonymousWaitsUsers(_) => 9
    case AnonymousReadsIdentity(_) => 8
    case AnonymousWaitsCounter(_, _, _) => 7
    case AnonymousDrawsId(_, _, _) => 6
    case IssueWaitsCounter(_, _, _, _) => 5
    case IssueDrawsToken(_, _, _, _) => 4
    case IssueWaitsSessions(_, _) => 3
    case IssueInserts(_, _) => 2
    case Finished(_) => 0
  }

  function TotalLeft(threads: seq<Pc>): nat {
    if threads == [] then 0 else TotalLeft(threads[..|threads| - 1]) + StepsLeft(threads[|threads| - 1])
  }

  lemma {:induction false} TotalUpdate(threads: seq<Pc>, i: nat, pc: Pc)
    requires i < |threads|
    ensures TotalLeft(threads[i := pc]) == TotalLeft(threads) - StepsLeft(threads[i]) + StepsLeft(pc)
  {
    var n := |threads| - 1;
    if i == n {
      assert threads[i := pc][..n] == threads[..n];
    } else {
      assert threads[i := pc][..n] == threads[..n][i := pc];
      TotalUpdate(threads[..n], i, pc);
    }
  }

  lemma StepTakesOne(s: Store, pc: Pc, now: nat, who: Identity)
    requires !pc.Finished?
    ensures Wants(pc).Some? ==> StepsLeft(Entered(pc)) < StepsLeft(pc)
    ensures Wants(pc).None? ==> StepsLeft(Work(s, pc, now, who).1) < StepsLeft(pc)
  {
    hide NewSession, AnonymousUser, RegisteredUser, Resolve, CookieSession, Key;
  }

  predicate NoNewCalls(labels: seq<Label>) {
    forall i | 0 <= i < |labels| :: labels[i].Step?
  }

  /**
   Calls already made take only boundedly many steps between them, however they are scheduled; with
   `DeadlockFree` every call therefore returns.
   */
  lemma {:induction false} CallsTakeBoundedSteps(s: Sys, labels: seq<Label>, s': Sys)
    requires NoNewCalls(labels) && Runs(s, labels, s')
    ensures TotalLeft(s'.threads) + |labels| <= TotalLeft(s.threads)
  {
    if labels != [] {
      var n := |labels| - 1;
      var mid := Exec(s, labels[..n]).value;
      CallsTakeBoundedSteps(s, labels[..n], mid);
      var pc := mid.threads[labels[n].thread];
      StepTakesOne(mid.store, pc, labels[n].now, labels[n].who);
      TotalUpdate(mid.threads, labels[n].thread,
                  if Wants(pc).Some? then Entered(pc) else Work(mid.store, pc, labels[n].now, labels[n].who).1);
    }
  }
}
