/**
 Logout on the gateway's own store. `logout` by itself checks no expiry, which is the one way to see a session
 that has expired but was not looked up since; and a logout request is two holds of the mutex, a lookup and then
 `logout`, with any other requests in between.
 */
module AuthLogout {
  import opened Wrappers
  import opened AuthStore
  import opened AuthExpiry

  // ---- bare logout, against the eager store ----

  /** The eager store after a run. */
  function EagerAfter(s: Store, run: seq<Timed>): Store {
    if run == [] then s
    else var n := |run| - 1; Eager(EagerAfter(s, run[..n]), run[n].request, run[n].now).1
  }

  /** Bare logout on a store that first drops everything stale. */
  function EagerBareLogout(s: Store, value: string, now: nat): (Answer, Store) {
    BareLogout(s.(sessions := Live(s.sessions, now)), value)
  }

  lemma {:induction false} EagerRunIsRelated(s: Store, start: nat, run: seq<Timed>)
    requires Fresh(s) && NonDecreasing(start, run)
    ensures Related(After(s, run).1, EagerAfter(s, run), End(start, run))
  {
    hide Lazy, Eager;
    if run != [] {
      var n := |run| - 1;
      EagerRunIsRelated(s, start, run[..n]);
      var lazy, eager := After(s, run[..n]).1, EagerAfter(s, run[..n]);
      LiveLater(lazy.sessions, eager.sessions, End(start, run[..n]), run[n].now);
      SameStep(lazy, eager, run[n].request, run[n].now);
    }
  }

  /** Filed, though its lease has ended. */
  predicate Stale(sessions: map<string, Session>, token: string, now: nat) {
    token in sessions && sessions[token].expiresAt <= now
  }

  lemma BareLogoutAgreesOn(lazy: Store, eager: Store, value: string, now: nat)
    requires Live(lazy.sessions, now) == Live(eager.sessions, now)
    ensures BareLogout(lazy, value).0 == EagerBareLogout(eager, value, now).0 <==>
            !(SanitizeToken(value).Ok? && Stale(lazy.sessions, SanitizeToken(value).value, now))
  {
    hide SanitizeToken;
    if SanitizeToken(value).Ok? {
      var token := SanitizeToken(value).value;
      assert token in Live(lazy.sessions, now) <==> token in lazy.sessions && now < lazy.sessions[token].expiresAt;
      assert token in Live(eager.sessions, now) <==> token in eager.sessions && now < eager.sessions[token].expiresAt;
    }
  }

  // ---- what is still filed, from the history ----

  /** The request looks the token up, whatever comes of it. */
  predicate LooksUp(request: Request, token: string) {
    !IsIssue(request) && Target(request).Ok? && Target(request).value.0 == token
  }

  /** Nobody looked the token up at or after `limit`. */
  predicate Unseen(run: seq<Timed>, token: string, limit: nat) {
    forall i | 0 <= i < |run| && limit <= run[i].now :: !LooksUp(run[i].request, token)
  }

  /** Handed out, never revoked, and not looked up since its lease ended, if it has. */
  predicate Kept(run: seq<Timed>, events: seq<Event>, token: string) {
    && LastUse(events, token).Some? && !WasRevoked(events, token)
    && Unseen(run, token, LastUse(events, token).value + LEASE)
  }

  ghost predicate FiledIffKept(run: seq<Timed>, events: seq<Event>, sessions: map<string, Session>) {
    forall token :: token in sessions <==> Kept(run, events, token)
  }

  lemma UnseenSnoc(run: seq<Timed>, x: Timed, token: string, limit: nat)
    ensures Unseen(run + [x], token, limit) <==> Unseen(run, token, limit) && (limit <= x.now ==> !LooksUp(x.request, token))
  {
    hide LooksUp;
    if Unseen(run + [x], token, limit) {
      assert (run + [x])[|run|] == x;
      forall i | 0 <= i < |run| && limit <= run[i].now ensures !LooksUp(run[i].request, token) {
        assert (run + [x])[i] == run[i];
      }
    }
  }

  lemma KeptSnoc(run: seq<Timed>, events: seq<Event>, x: Timed, answer: Answer, token: string)
    ensures var e := Event(x.now, answer);
            Kept(run + [x], events + [e], token) <==>
            if Uses(e, token) then !WasRevoked(events, token) && Unseen(run, token, x.now + LEASE)
            else
              && Kept(run, events, token) && answer != Revoked(token)
              && (LastUse(events, token).value + LEASE <= x.now ==> !LooksUp(x.request, token))
  {
    var e := Event(x.now, answer);
    LastUseSnoc(events, e, token);
    hide LooksUp, LastUse, WasRevoked, Unseen;
    if LastUse(events + [e], token).Some? {
      UnseenSnoc(run, x, token, LastUse(events + [e], token).value + LEASE);
    }
  }

  lemma {:induction false} NoneLater(start: nat, run: seq<Timed>, token: string, limit: nat)
    requires NonDecreasing(start, run) && End(start, run) < limit
    ensures Unseen(run, token, limit)
  {
    hide LooksUp;
    if run != [] {
      var n := |run| - 1;
      assert run == run[..n] + [run[n]];
      NoneLater(start, run[..n], token, limit);
      UnseenSnoc(run[..n], run[n], token, limit);
    }
  }

  /** What a lookup or logout request does to the table, by the token it names. */
  lemma LookUpKeeps(s: Store, token: string, app: Option<string>, logout: bool, now: nat, other: string)
    requires WellKeyed(s)
    ensures var (answer, s') := LookUp(s, token, app, logout, now);
            && (other != token ==> (other in s'.sessions <==> other in s.sessions)
                                   && answer != Revoked(other) && !Uses(Event(now, answer), other))
            && (token in s'.sessions <==>
                token in s.sessions && now < s.sessions[token].expiresAt && answer != Revoked(token))
            && (Uses(Event(now, answer), token) ==> token in s'.sessions)
  {
    hide IssuedBefore;
  }

  lemma LookUpStep(run: seq<Timed>, events: seq<Event>, s: Store, start: nat, x: Timed, token: string)
    requires NonDecreasing(start, run) && End(start, run) <= x.now
    requires Tells(events, s, End(start, run)) && FiledIffKept(run, events, s.sessions)
    requires !IsIssue(x.request) && Target(x.request).Ok?
    ensures var (answer, s') := Lazy(s, x.request, x.now);
            token in s'.sessions <==> Kept(run + [x], events + [Event(x.now, answer)], token)
  {
    var target := Target(x.request).value;
    var (answer, s') := Lazy(s, x.request, x.now);
    LookUpKeeps(s, target.0, target.1, IsLogout(x.request), x.now, token);
    KeptSnoc(run, events, x, answer, token);
    assert LooksUp(x.request, token) <==> token == target.0;
    NoneLater(start, run, token, x.now + LEASE);
    hide LookUp, Target, Kept, LastUse, WasRevoked, Unseen, IssuedBefore, WellKeyed, NonDecreasing, End;
  }

  lemma IssueStep(run: seq<Timed>, events: seq<Event>, s: Store, start: nat, x: Timed, token: string)
    requires NonDecreasing(start, run) && End(start, run) <= x.now
    requires Tells(events, s, End(start, run)) && FiledIffKept(run, events, s.sessions)
    requires IsIssue(x.request)
    ensures var (answer, s') := Lazy(s, x.request, x.now);
            token in s'.sessions <==> Kept(run + [x], events + [Event(x.now, answer)], token)
  {
    var (answer, s') := Lazy(s, x.request, x.now);
    IssueKeepsKeys(s, x.request, x.now);
    KeptSnoc(run, events, x, answer, token);
    assert !LooksUp(x.request, token);
    NoneLater(start, run, token, x.now + LEASE);
    hide Issue, LooksUp, Kept, LastUse, Unseen, IssuedBefore, WellKeyed, NonDecreasing, End;
  }

  lemma RefusedStep(run: seq<Timed>, events: seq<Event>, s: Store, x: Timed, token: string)
    requires FiledIffKept(run, events, s.sessions)
    requires !IsIssue(x.request) && Target(x.request).Err?
    ensures var (answer, s') := Lazy(s, x.request, x.now);
            token in s'.sessions <==> Kept(run + [x], events + [Event(x.now, answer)], token)
  {
    var (answer, s') := Lazy(s, x.request, x.now);
    KeptSnoc(run, events, x, answer, token);
    assert !LooksUp(x.request, token);
    hide Target, Kept, LastUse, Unseen, LooksUp;
  }

  /** In every reachable state a token is filed exactly when the history keeps it. */
  lemma {:induction false} TableIsKeptTokens(s: Store, start: nat, run: seq<Timed>)
    requires Fresh(s) && NonDecreasing(start, run)
    ensures FiledIffKept(run, After(s, run).0, After(s, run).1.sessions)
  {
    hide Lazy, Tells, Kept;
    if run != [] {
      var n := |run| - 1;
      var (events, mid) := After(s, run[..n]);
      TableIsKeptTokens(s, start, run[..n]);
      HistoryTells(s, start, run[..n]);
      assert run == run[..n] + [run[n]];
      hide Target;
      forall token
        ensures token in After(s, run).1.sessions <==> Kept(run, After(s, run).0, token)
      {
        if IsIssue(run[n].request) {
          IssueStep(run[..n], events, mid, start, run[n], token);
        } else if Target(run[n].request).Ok? {
          LookUpStep(run[..n], events, mid, start, run[n], token);
        } else {
          RefusedStep(run[..n], events, mid, run[n], token);
        }
      }
    } else {
      assert forall token :: !Kept([], [], token) by {
        NothingKept();
      }
    }
  }

  lemma NothingKept()
    ensures forall token :: !Kept([], [], token)
  {
  }

  /** Handed out, never revoked, out of its lease now, and not looked up since the lease ended. */
  predicate Lingers(run: seq<Timed>, events: seq<Event>, token: string, now: nat) {
    Kept(run, events, token) && LastUse(events, token).value + LEASE <= now
  }

  lemma StaleIffLingers(s: Store, start: nat, run: seq<Timed>, token: string, now: nat)
    requires Fresh(s) && NonDecreasing(start, run)
    ensures Stale(After(s, run).1.sessions, token, now) <==> Lingers(run, After(s, run).0, token, now)
  {
    TableIsKeptTokens(s, start, run);
    HistoryTells(s, start, run);
    hide After, Kept, LastUse, WasRevoked, WellKeyed, IssuedBefore, Resolvable;
  }

  /**
   After any run, bare `logout` answers as the eager store does exactly when the history does not leave the token
   lingering.
   */
  lemma BareLogoutAgreesIff(s: Store, start: nat, run: seq<Timed>, value: string, now: nat)
    requires Fresh(s) && NonDecreasing(start, run) && End(start, run) <= now
    ensures BareLogout(After(s, run).1, value).0 == EagerBareLogout(EagerAfter(s, run), value, now).0 <==>
            !(SanitizeToken(value).Ok? && Lingers(run, After(s, run).0, SanitizeToken(value).value, now))
  {
    var lazy, eager := After(s, run).1, EagerAfter(s, run);
    EagerRunIsRelated(s, start, run);
    LiveLater(lazy.sessions, eager.sessions, End(start, run), now);
    BareLogoutAgreesOn(lazy, eager, value, now);
    hide SanitizeToken, Stale, Lingers, BareLogout, EagerBareLogout, After, EagerAfter, Live;
    if SanitizeToken(value).Ok? {
      StaleIffLingers(s, start, run, SanitizeToken(value).value, now);
    }
  }

  /** A token lingers after a run that hands it out and then lets a lease pass. */
  lemma LoneSessionLingers(s: Store, run: seq<Timed>, token: string)
    requires |run| == 1 && run[0].now == 0 && IsIssue(run[0].request)
    requires After(s, run).0 == [Event(0, Lazy(s, run[0].request, 0).0)]
    requires Uses(After(s, run).0[0], token)
    ensures Lingers(run, After(s, run).0, token, LEASE)
  {
    hide Lazy, After;
    var e := After(s, run).0[0];
    assert [] + [e] == After(s, run).0 && [] + [run[0]] == run;
    KeptSnoc([], [], run[0], e.answer, token);
    LastUseSnoc([], e, token);
    hide Uses, LastUse;
  }

  lemma LoneAnonymousSession(s: Store, app: string, normalized: string, run: seq<Timed>, token: string)
    requires Fresh(s) && NormalizeApp(app) == Ok(normalized) && token == TokenText(Anonymous, normalized, s.nextSessionId)
    requires run == [Timed(0, EnsureAnonymous(app, "tenant_local", ["member"]))]
    ensures After(s, run).0 == [Event(0, Lazy(s, run[0].request, 0).0)] && Uses(After(s, run).0[0], token)
  {
    hide NormalizeApp, TokenText, AnonymousUser;
    assert run[..0] == [];
    assert After(s, run[..0]) == ([], s);
  }

  /**
   A run on which the difference shows, for any app: an anonymous session, nothing for one lease, then bare
   `logout`, which still reports the session revoked, while the eager store refuses.
   */
  lemma BareLogoutRevokesStaleSession(s: Store, app: string, normalized: string) returns (run: seq<Timed>, token: string)
    requires Fresh(s) && NormalizeApp(app) == Ok(normalized)
    ensures NonDecreasing(0, run) && End(0, run) == 0
    ensures BareLogout(After(s, run).1, token).0 == Revoked(token)
    ensures EagerBareLogout(EagerAfter(s, run), token, LEASE).0 == Refused(ExpiredOrInvalid)
  {
    hide NormalizeApp, SanitizeToken, TokenText;
    run := [Timed(0, EnsureAnonymous(app, "tenant_local", ["member"]))];
    token := TokenText(Anonymous, normalized, s.nextSessionId);
    LoneAnonymousSession(s, app, normalized, run, token);
    TokensAreClean(Anonymous, normalized, s.nextSessionId);
    hide After, EagerAfter, Lazy;
    LoneSessionLingers(s, run, token);
    BareLogoutAgreesIff(s, 0, run, token, LEASE);
    StaleIffLingers(s, 0, run, token, LEASE);
    hide Lingers;
  }
}
