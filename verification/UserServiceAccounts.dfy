/**
 Accounts of the user service over every interleaving: registration checks and inserts under one hold of the users
 table, so no row is ever overwritten, and login lets in exactly who knows the row's password.
 */
module UserServiceAccounts {
  import opened Wrappers
  import opened Text
  import opened AuthStore
  import opened UserService

  /** A registration that has found its key free and not inserted yet. */
  function Registering(pc: Pc): Option<Registration> {
    match pc
    case RegisterWaitsCounter(r) => Some(r)
    case RegisterInserts(r) => Some(r)
    case _ => None
  }

  ghost predicate KeysAreFree(users: map<string, User>, threads: seq<Pc>) {
    forall i | 0 <= i < |threads| && Registering(threads[i]).Some? ::
      Key(Registering(threads[i]).value.app, Registering(threads[i]).value.email) !in users
  }

  lemma RegisteringHoldsUsers(pc: Pc)
    ensures Registering(pc).Some? ==> Users in Held(pc)
  {
  }

  lemma FreeMove(users: map<string, User>, threads: seq<Pc>, i: nat, pc: Pc)
    requires KeysAreFree(users, threads) && i < |threads|
    requires Registering(pc).Some? ==> Key(Registering(pc).value.app, Registering(pc).value.email) !in users
    ensures KeysAreFree(users, threads[i := pc])
  {
    hide Key;
  }

  /** While one thread inserts no other is registering: both would hold the users table. */
  lemma FreeInsert(s: Sys, i: nat, users: map<string, User>, pc: Pc)
    requires LocksOk(s.owners, s.threads) && i < |s.threads|
    requires s.threads[i].RegisterInserts? && Registering(pc).None?
    ensures KeysAreFree(users, s.threads[i := pc])
  {
    forall j | 0 <= j < |s.threads| && j != i ensures Registering(s.threads[j]).None? {
      RegisteringHoldsUsers(s.threads[i]);
      RegisteringHoldsUsers(s.threads[j]);
      OwnedIffHeld(s.owners, s.threads, i, Users);
      OwnedIffHeld(s.owners, s.threads, j, Users);
    }
    hide Key;
  }

  /** What work does to the users table and to a registration under way. */
  lemma WorkOnRows(s: Store, pc: Pc, now: nat, who: Identity)
    requires Wants(pc).None? && !pc.Finished?
    ensures var (s', pc') := Work(s, pc, now, who);
            && (!pc.RegisterInserts? ==> s'.users == s.users)
            && (Registering(pc').Some? ==> pc.RegisterChecks? && Registering(pc') == Some(pc.registration)
                                           && Key(pc.registration.app, pc.registration.email) !in s.users)
  {
    hide Key, AnonymousUser, RegisteredUser, NewSession, Resolve, CookieSession;
  }

  lemma InsertedRow(s: Store, r: Registration, now: nat, who: Identity)
    ensures var (s', pc') := Work(s, RegisterInserts(r), now, who);
            && s'.users.Keys == s.users.Keys + {Key(r.app, r.email)}
            && (forall key | key in s.users && key != Key(r.app, r.email) :: s'.users[key] == s.users[key])
            && Registering(pc').None?
            && var row := s'.users[Key(r.app, r.email)];
            && row.app == r.app && row.uid == "u_" + Decimal(s.nextUserId) && row.tenantId == who.0 && row.roles == who.1
            && row.email == r.email && row.password == r.password && row.displayName == r.displayName && !row.anonymous
  {
    hide Key, Decimal;
  }

  ghost predicate RowsOk(s: Sys) {
    LocksOk(s.owners, s.threads) && KeysAreFree(s.store.users, s.threads)
  }

  lemma EnteredRegistering(pc: Pc)
    requires Wants(pc).Some?
    ensures Registering(Entered(pc)) == Registering(pc)
  {
  }

  lemma RowsStep(s: Sys, l: Label)
    requires RowsOk(s) && Enabled(s, l)
    ensures RowsOk(Next(s, l)) && OnlyGrows(s.store.users, Next(s, l).store.users)
  {
    LocksStep(s, l);
    hide LocksOk, Normal, Key;
    match l {
      case Call(pc) =>
      case Step(i, now, who) =>
        var pc := s.threads[i];
        if Registering(pc).Some? {
          StillFree(s.store.users, s.threads, i);
        }
        if Wants(pc).Some? {
          EnteredRegistering(pc);
          FreeMove(s.store.users, s.threads, i, Entered(pc));
        } else {
          WorkOnRows(s.store, pc, now, who);
          hide Work;
          var (store, pc') := Work(s.store, pc, now, who);
          if pc.RegisterInserts? {
            InsertedRow(s.store, pc.registration, now, who);
            FreeInsert(s, i, store.users, pc');
          } else {
            FreeMove(s.store.users, s.threads, i, pc');
          }
        }
    }
  }

  lemma StillFree(users: map<string, User>, threads: seq<Pc>, i: nat)
    requires KeysAreFree(users, threads) && i < |threads| && Registering(threads[i]).Some?
    ensures Key(Registering(threads[i]).value.app, Registering(threads[i]).value.email) !in users
  {
  }

  lemma {:induction false} RowsRun(s: Sys, labels: seq<Label>, s': Sys)
    requires RowsOk(s) && Runs(s, labels, s')
    ensures RowsOk(s') && OnlyGrows(s.store.users, s'.store.users)
  {
    hide RowsOk, Next, Enabled;
    if labels != [] {
      var n := |labels| - 1;
      var mid := Exec(s, labels[..n]).value;
      RowsRun(s, labels[..n], mid);
      RowsStep(mid, labels[n]);
    }
  }

  lemma StartIsOk(s: Sys)
    requires IsStart(s)
    ensures RowsOk(s)
  {
    hide Normal;
  }

  /** Over any interleaving a row once filed stays as it is. */
  lemma RowsAreNeverOverwritten(s0: Sys, before: seq<Label>, s: Sys, after: seq<Label>, s': Sys)
    requires Reachable(s0, before, s) && Runs(s, after, s')
    ensures OnlyGrows(s.store.users, s'.store.users)
  {
    hide RowsOk, IsStart, Exec;
    StartIsOk(s0);
    RowsRun(s0, before, s);
    RowsRun(s, after, s');
  }

  /** Login goes on, as the row's user, exactly when the row is there and the password is its password. */
  lemma LoginLetsIn(s: Store, app: string, email: string, password: string, now: nat, who: Identity)
    ensures var (s', pc') := Work(s, LoginReads(app, email, password), now, who);
            var key := app + ":" + Lower(Trim(email));
            s' == s && if key in s.users && s.users[key].password == password
                       then pc' == IssueWaitsCounter(s.users[key], Authenticated, now, false) else pc' == Finished(Failed)
  {
    hide Trim, Lower;
  }

  /**
   Once a registration has inserted its row, every later login under that app and e-mail, whatever ran in between, is
   let in as that user with the registered password and refused with any other.
   */
  lemma RegisteredCanLogIn(s0: Sys, before: seq<Label>, s: Sys, i: nat, now: nat, who: Identity, after: seq<Label>, s': Sys,
                           password: string, later: nat, who': Identity)
    requires Reachable(s0, before, s) && i < |s.threads| && s.threads[i].RegisterInserts?
    requires Enabled(s, Step(i, now, who)) && Runs(Next(s, Step(i, now, who)), after, s')
    ensures var r := s.threads[i].registration;
            var user := RegisteredUser(r, s.store.nextUserId, who.0, who.1);
            Work(s'.store, LoginReads(r.app, r.email, password), later, who').1 ==
            if password == r.password then IssueWaitsCounter(user, Authenticated, later, false) else Finished(Failed)
  {
    hide RowsOk, IsStart, Exec, Key, Enabled;
    StartIsOk(s0);
    RowsRun(s0, before, s);
    RowsStep(s, Step(i, now, who));
    var mid := Next(s, Step(i, now, who));
    RowsRun(mid, after, s');
    hide Runs, Reachable;
    InsertedRow(s.store, s.threads[i].registration, now, who);
  }

  // ---- user ids ----

  /** A registration that has the user counter: from the insert to the answer. */
  predicate Inserting(pc: Pc) {
    match pc
    case RegisterInserts(_) => true
    case IssueWaitsCounter(_, kind, _, _) => kind == Authenticated && UserCounter in Held(pc)
    case IssueDrawsToken(_, kind, _, _) => kind == Authenticated && UserCounter in Held(pc)
    case IssueWaitsSessions(_, _) => UserCounter in Held(pc)
    case IssueInserts(_, _) => UserCounter in Held(pc)
    case RegisterReturns(_) => true
    case _ => false
  }

  /** How many user ids it has drawn. */
  function Drawn(pc: Pc): nat {
    if pc.RegisterInserts? then 0 else 1
  }

  lemma InsertingMoves(s: Store, pc: Pc, now: nat, who: Identity)
    requires Inserting(pc)
    ensures UserCounter in Held(pc) && !pc.Finished?
    ensures Wants(pc).Some? ==> Inserting(Entered(pc)) && Drawn(Entered(pc)) == Drawn(pc)
    ensures Wants(pc).None? ==>
              var (s', pc') := Work(s, pc, now, who);
              pc'.Finished? || (Inserting(pc') && s'.nextUserId - Drawn(pc') == s.nextUserId - Drawn(pc))
  {
    hide RegisteredUser, NewSession, Key;
  }

  lemma DrawsNeedTheCounter(s: Store, pc: Pc, now: nat, who: Identity)
    requires Wants(pc).None? && !pc.Finished? && UserCounter !in Held(pc)
    ensures Work(s, pc, now, who).0.nextUserId == s.nextUserId
  {
    hide Key, AnonymousUser, RegisteredUser, NewSession, Resolve, CookieSession;
  }

  /** The thread is done, or still on its way with the counter, and nobody else has drawn a user id. */
  ghost predicate KeepsCounter(s: Sys, i: nat, s': Sys)
    requires i < |s.threads|
  {
    && i < |s'.threads|
    && (s'.threads[i].Finished? ||
        (Inserting(s'.threads[i]) && s'.store.nextUserId - Drawn(s'.threads[i]) == s.store.nextUserId - Drawn(s.threads[i])))
  }

  lemma KeepsCounterStep(s: Sys, l: Label, i: nat)
    requires LocksOk(s.owners, s.threads) && Enabled(s, l) && i < |s.threads| && Inserting(s.threads[i])
    ensures KeepsCounter(s, i, Next(s, l))
  {
    match l {
      case Call(pc) =>
      case Step(j, now, who) =>
        InsertingMoves(s.store, s.threads[i], now, who);
        if j != i && Wants(s.threads[j]).None? {
          OwnedIffHeld(s.owners, s.threads, i, UserCounter);
          OwnedIffHeld(s.owners, s.threads, j, UserCounter);
          DrawsNeedTheCounter(s.store, s.threads[j], now, who);
        }
        hide Work, Held, Entered, LocksOk, Inserting, Drawn, FindsIdentity;
    }
  }

  lemma FinishedStays(s: Sys, l: Label, i: nat)
    requires Enabled(s, l) && i < |s.threads| && s.threads[i].Finished?
    ensures i < |Next(s, l).threads| && Next(s, l).threads[i].Finished?
  {
    hide Work, Held, Entered, FindsIdentity;
  }

  /**
   From the insert of its row to its answer a registration keeps the user counter: whatever is interleaved, the only
   user id drawn meanwhile is its own.
   */
  lemma {:induction false} RegistrationKeepsTheCounter(s0: Sys, before: seq<Label>, s: Sys, i: nat, after: seq<Label>, s': Sys)
    requires Reachable(s0, before, s) && i < |s.threads| && s.threads[i].RegisterInserts?
    requires Runs(s, after, s')
    ensures i < |s'.threads|
    ensures !s'.threads[i].Finished? ==>
              && UserCounter in s'.owners && s'.owners[UserCounter] == i
              && s'.store.nextUserId == s.store.nextUserId + if s'.threads[i].RegisterInserts? then 0 else 1
    decreases |after|
  {
    hide IsStart, Next, Enabled, RowsOk, Held;
    StartIsOk(s0);
    RowsRun(s0, before, s);
    CounterRun(s, i, after, s');
    RowsRun(s, after, s');
    LocksOfRows(s');
    if !s'.threads[i].Finished? {
      InsertingMoves(s'.store, s'.threads[i], 0, ("", []));
      OwnedIffHeld(s'.owners, s'.threads, i, UserCounter);
    }
  }

  lemma LocksOfRows(s: Sys)
    requires RowsOk(s)
    ensures LocksOk(s.owners, s.threads)
  {
  }

  lemma {:induction false} CounterRun(s: Sys, i: nat, after: seq<Label>, s': Sys)
    requires RowsOk(s) && i < |s.threads| && Inserting(s.threads[i]) && Runs(s, after, s')
    ensures KeepsCounter(s, i, s')
    decreases |after|
  {
    hide RowsOk, Next, Enabled, Inserting, Drawn;
    if after != [] {
      var n := |after| - 1;
      var mid := Exec(s, after[..n]).value;
      CounterRun(s, i, after[..n], mid);
      RowsRun(s, after[..n], mid);
      LocksOfRows(mid);
      if mid.threads[i].Finished? {
        FinishedStays(mid, after[n], i);
      } else {
        KeepsCounterStep(mid, after[n], i);
      }
    }
  }
}
