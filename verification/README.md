# bladb: a verified model of its stateful core

bladb is a gateway that lets browser apps talk to databases, queues, devices and robots through named
policies. This project models seven of its components and proves what they keep over every run.

- **Flash-sale purchases** (`FlashSale*.dfy`). A buyer's purchase becomes a ticket with a worker thread of its
  own, which claims and later settles the ticket under two separate holds of one mutex, while other threads
  decrement stock and write order rows. The class `FlashSaleModule` has one method for each hold; the
  transition system interleaves any number of tickets. Each run is compared with a one-at-a-time ledger that
  only appends postings and derives every balance from them.
- **Worker retries** (`Worker*.dfy`). The consumer pulls jobs from an abstract transport, runs their steps until
  one fails, reports, and acknowledges, retries or dead-letters. A retried job comes back at the end of the
  queue with its attempt number raised by one; this is an assumption on the transport.
- **Sessions** (`AuthStore.dfy`, `AuthAccounts.dfy`, `AuthExpiry.dfy`, `AuthLogout.dfy`, `LogoutHolds.dfy`,
  `UserService*.dfy`, `LauncherCache.dfy`, `PublicSession.dfy`). The gateway's store with sliding leases that
  expire lazily; the standalone user service with four locks, as program points of any number of concurrent calls;
  and the gateway's memory of which app a token of that service belongs to.
- **Request compiler and resolver** (`ClientCompiler.dfy`, `Resolver.dfy`, `Json.dfy`). The browser client turns
  context values and key templates into JSON markers, the gateway turns markers into values. `render_scalar`
  follows references without a cycle guard, so a resolution may also diverge.
- **Event streams and HTTP reading** (`EventStream.dfy`, `HttpRead.dfy`, `HttpText.dfy`). Incremental parsers over
  chunks, and what they make of a text as it was written. The frames are a subset of server-sent events (sections
  9.2.5 and 9.2.6 of the WHATWG HTML Living Standard), the body length follows Content-Length (section 6.2 of RFC
  9112).
- **Policies, topology, routing** (`Index.dfy`, `PolicyIndex.dfy`, `Topology.dfy`, `Routing.dfy`). Manifest checks,
  hash indexes against linear scans, route keys and shards.
- **Publish/subscribe** (`FanOut.dfy`, `IotModule.dfy`, `Ros2Module.dfy`, `StreamPath.dfy`). Fan-out inside a
  `retain` over live and closed channels.

`Text.dfy` and `Wrappers.dfy` hold the standard-library functions and result types the others need.

Runs are sequences of labels; `Exec` (or `After`) gives the state a run leads to. Clocks, hash functions, text
decoding, step executors, policy match rules and the choice a hash map makes among several users are parameters,
so every theorem holds for all of them.

Where the code's own promise turned out to need a condition, the condition is exact:

- inserted order ids are fresh in every run if and only if no seed row carries `ord_k` with `k` above the number
  of seed rows (`InsertedIdsFreshIff`);
- after any run, `logout` alone answers as an eagerly expiring store if and only if the token is not one whose
  lease ended and that nobody has looked up since (`BareLogoutAgreesIff`);
- for a value that has a meaning, the gateway computes it if and only if no plain object in it imitates a marker
  (`AgreesIffHonest`), and a template marker survives in a result exactly when its `$template` field was not the
  literal `key` and resolves to it (`TemplateBindingSurvivesIff`);
- following references returns, with a text or an error, if and only if it looks no parameter up twice
  (`TerminatesIffNoKeyTwice`);
- stream messages arrive unchanged if and only if every payload is one line (`ArrivesIffCompact`);
- for any header lines, the two HTTP readers expect the same length if and only if the first header they both see
  is a number that no third spelling before it contradicts (`LengthsAgreeIff`), and for any input the gateway takes
  and the server does not refuse, their bodies are equal if and only if they keep equally many of the bytes that
  came (`BodiesAgreeIff`);
- naming the policy an unnamed request was answered with gives the same answer if and only if the last policy of
  that name matches (`NamingAgreesIff`);
- between apps without a colon in their names two accounts share a row exactly when app and e-mail are the same
  (`KeysTellAccounts`), and with a colon different accounts can share one (`ColonsClash`);
- a route key with several fields tells them apart if and only if none holds a colon (`KeyTellsFieldsIff`);
- a device's topic names its tenant if and only if the tenant id holds no slash (`TopicNamesTenantIff`), and a
  command reaches the streams of the tenant that stands before the first slash (`StreamsFollowTenants`).

## Model

| member | source | states |
|---|---|---|
| FlashSale.FlashSaleModule.Enqueue | crates/bladb-gateway/src/local/flash_sale.rs:196-262 | one hold of the mutex: refuses a blank sku or non-positive quantity and changes nothing, else the wallet exists, the ticket with the request's buyer, item, quantity and time is queued under the next id and the position handed out counts the active tickets |
| FlashSale.FlashSaleModule.Claim | crates/bladb-gateway/src/local/flash_sale.rs:575-608 | the worker's first hold marks the ticket as processing and changes nothing else |
| FlashSale.FlashSaleModule.Settle | crates/bladb-gateway/src/local/flash_sale.rs:610-707 | the worker's second hold: sold out and too poor, in that order, fail the ticket; otherwise stock, the ticket's buyer's wallet, order row and ticket change together |
| FlashSale.FlashSaleModule.StockDecr | crates/bladb-gateway/src/local/flash_sale.rs:353-358 | the stock falls by the amount but not below zero |
| FlashSale.FlashSaleModule.OrdersCreate | crates/bladb-gateway/src/local/flash_sale.rs:392-418 | the new row goes to the front with the next order id |
| FlashSale.FlashSaleModule.EnsureWalletBalance | crates/bladb-gateway/src/local/flash_sale.rs:709-720 | a missing wallet is created with the default balance, and no user's balance changes by it |
| FlashSaleProtocol.InvReachable | crates/bladb-gateway/src/local/flash_sale.rs:196-262 | in every reachable state ticket ids, sequence numbers, statuses and thread positions belong together |
| FlashSaleProtocol.NeverNegative | crates/bladb-gateway/src/local/flash_sale.rs:620-669 | stock and wallets never go below zero when the seeds are not negative |
| FlashSaleProtocol.StepWorks | crates/bladb-gateway/src/local/flash_sale.rs:575-707 | twice the queued plus the processing tickets falls by exactly one at every claim and settle |
| FlashSaleProtocol.WorkerRunsAreBounded | crates/bladb-gateway/src/local/flash_sale.rs:575-707 | a run of worker steps alone uses up the measure one by one, so it cannot be longer |
| FlashSaleProtocol.WorkersDrainTheQueue | crates/bladb-gateway/src/local/flash_sale.rs:244-262 | from every reachable state the workers alone can close every ticket, and some worker can always step while one is open |
| FlashSaleProtocol.TicketsPersist | crates/bladb-gateway/src/local/flash_sale.rs:575-707 | tickets are never dropped, keep what was asked for, and closed ones are never touched again |
| FlashSaleLedger.EveryInterleavingIsALedgerRun | crates/bladb-gateway/src/local/flash_sale.rs:575-707 | after any interleaving, stock, all balances, the order table and every ticket's outcome are those of the one-at-a-time ledger given the settlements, decrements and inserts in mutex order |
| FlashSaleLedger.CompletedTicketsOwnDistinctOrders | crates/bladb-gateway/src/local/flash_sale.rs:664-690 | two completed tickets never share an order id |
| FlashSaleLedger.InsertedOrdersBelongToOneTicket | crates/bladb-gateway/src/local/flash_sale.rs:664-690 | every inserted row is a manual one or belongs to exactly one completed ticket, whose order id it carries |
| FlashSaleLedger.InsertedIdsFreshIff | crates/bladb-gateway/src/local/flash_sale.rs:398-410 | inserted ids are unlike all other rows' ids in every run exactly when no seed row carries a later id |
| FlashSaleAccounts.StockAndMoneyAreConserved | crates/bladb-gateway/src/local/flash_sale.rs:620-669 | seed stock = stock + quantity of completed tickets + decrements, and per user seed balance = balance + price times completed quantity |
| FlashSaleAccounts.EnqueuePositionIsReported | crates/bladb-gateway/src/local/flash_sale.rs:214-229 | the position given to a new ticket's thread is the one the ticket then reports |
| FlashSaleAccounts.QueuedPositionsAreRanks | crates/bladb-gateway/src/local/flash_sale.rs:544-562 | queued tickets report distinct positions from one up, in the order of their sequence numbers |
| FlashSaleAccounts.PositionNeverRises | crates/bladb-gateway/src/local/flash_sale.rs:544-562 | along any run a ticket's reported position never rises |
| FlashSaleRequests.TicketsCarryTheirRequests | crates/bladb-gateway/src/local/flash_sale.rs:229-248 | in every reachable state ticket k carries the buyer, item, quantity and time of the k-th accepted request of the run |
| FlashSaleRequests.LabelsDecideTheLedger | crates/bladb-gateway/src/local/flash_sale.rs:575-707 | the ledger of every run is that of entries read off its labels alone: a settlement is a purchase of what the request with the ticket's number asked for |
| FlashSaleRequests.CompletedTicketsBoughtWhatWasAsked | crates/bladb-gateway/src/local/flash_sale.rs:655-690 | a completed ticket's order row and charge name the buyer, item and quantity of its request |
| FlashSaleRequests.PositionsByStatus | crates/bladb-gateway/src/local/flash_sale.rs:544-562 | a closed ticket reports no position, a processing one reports 1, a queued one 1 plus the active tickets issued before it |
| WorkerService.WorkerRuntimeService.ExecuteJob | crates/bladb-worker-runtime/src/service.rs:69-104 | the step loop: a job outside the subscription fails and runs nothing, else steps run in order up to the first failure, and the report or error is that of the run |
| WorkerService.MismatchIff | crates/bladb-worker-runtime/src/service.rs:114-146 | exactly the jobs of the worker whose trigger fits every subject, stream and consumer that is set pass the checks, and the error names the first part that does not fit |
| WorkerService.SuccessDescribesEveryStep | crates/bladb-worker-runtime/src/service.rs:75-104 | a successful report has one result for each step, the i-th naming step i and holding what the first executor for its backend returned |
| WorkerService.FailureStopsAtOneStep | crates/bladb-worker-runtime/src/service.rs:78-92 | an error of a matched job is that of the last step reached, from its first executor or for the want of one, all earlier ones having succeeded |
| WorkerTransport.WorkerTransportConsumer.Finish | crates/bladb-worker-runtime/src/transport.rs:72-98 | one report is published and one settlement made, the one the result, attempt and dead-letter subject call for, and the tick counts it |
| WorkerTransport.WorkerTransportConsumer.RunTick | crates/bladb-worker-runtime/src/transport.rs:58-103 | a tick makes the transport calls of popping up to max(batch, 1) jobs one by one, and one more pull unless the batch got full; its counters are the tallies of those calls |
| WorkerTransport.WorkerTransportConsumer.RunCycles | crates/bladb-worker-runtime/src/transport.rs:105-135 | c cycles pop up to c times max(batch, 1) jobs; totals are the tallies, balance, `idle` says exactly whether the queue emptied before the last cycle, and the number of pulls that found nothing is exact |
| WorkerTransport.TotalsBalance | crates/bladb-worker-runtime/src/transport.rs:12-27 | processed = succeeded + failed = acked + retried + dead-lettered for any stretch of popping, and all are processed while the queue lasts |
| WorkerDelivery.EveryQueueDrains | crates/bladb-worker-runtime/src/transport.rs:58-103 | whatever the executors answer, popping as many jobs as the queue's load empties it |
| WorkerDelivery.EachJobIsSettledOnce | crates/bladb-worker-runtime/src/transport.rs:72-98 | a job is run between once and max(1, limit − attempt + 1) times and gets exactly one ack or dead letter |
| WorkerDelivery.EverySettlementFollowsItsReport | crates/bladb-worker-runtime/src/transport.rs:72-98 | in every run the calls come in threes, take, report, settlement; an ack follows a successful report, or a failed one at the attempt limit without a dead-letter subject; a failed report below the limit is followed by a retry with its error |
| WorkerDelivery.FailingJobsUseEveryAttempt | crates/bladb-worker-runtime/src/transport.rs:85-96 | a job that fails whenever it is run is run exactly max(1, limit − attempt + 1) times and ends in a dead letter exactly when there is a subject for them, else in an ack |
| WorkerDelivery.EarlierStepsRunMoreOften | crates/bladb-worker-runtime/src/service.rs:78-92 | over all attempts of an event, step i ran at least as often as any later step |
| WorkerDelivery.MismatchedJobsRunNothing | crates/bladb-worker-runtime/src/service.rs:114-146 | a job that fails the subscription checks runs no step on any attempt |
| AuthStore.InMemoryAuthService.RegisterUser | crates/bladb-gateway/src/local/auth.rs:99-151 | granted exactly when app, e-mail and display name are not blank, the trimmed password has six bytes and the key is free; then the row has the given data and the identity of some user of the app or the fallback |
| AuthStore.InMemoryAuthService.LoginUser | crates/bladb-gateway/src/local/auth.rs:153-183 | granted exactly when the app is not blank, the key is in the table and the password is that row's; then the session is for that row |
| AuthStore.InMemoryAuthService.AnonymousSession | crates/bladb-gateway/src/local/auth.rs:185-214 | a new anonymous user's session, with an identity of the app |
| AuthStore.LoginSays | crates/bladb-gateway/src/local/auth.rs:153-183 | who is let in, what the session holds and which error comes otherwise, field by field |
| AuthStore.RegisterSays | crates/bladb-gateway/src/local/auth.rs:99-151 | who may register, the row filed and the session issued, field by field |
| AuthStore.AnonymousSays | crates/bladb-gateway/src/local/auth.rs:185-214 | the generated user and session, field by field; no row is filed |
| AuthAccounts.RegisteredUsersLogIn | crates/bladb-gateway/src/local/auth.rs:153-183 | once an account was registered, whatever ran in between, a login in any case and spacing of app and e-mail is granted for that user exactly with its password, and refused as bad credentials with any other |
| AuthAccounts.RegisteredOnce | crates/bladb-gateway/src/local/auth.rs:121-127 | registering it again is refused for ever |
| AuthAccounts.KeysTellAccounts | crates/bladb-gateway/src/local/auth.rs:415-421 | between apps without a colon, accounts share a row exactly when app and e-mail agree |
| AuthAccounts.ColonsClash | crates/bladb-gateway/src/local/auth.rs:415-421 | with a colon in the app name two accounts can share a row |
| AuthStore.InMemoryAuthService.ResolveSession | crates/bladb-gateway/src/local/auth.rs:248-285 | stale sessions are removed, another app's are left alone, good ones are renewed |
| AuthStore.InMemoryAuthService.LogoutForRequest | crates/bladb-gateway/src/local/user.rs:201-219 | both holds with nothing in between: resolves first and then removes the very session it resolved |
| AuthAccounts.LogoutIffLookUp | crates/bladb-gateway/src/local/user.rs:201-219 | a logout reports a token revoked exactly when the lookup with the same text would have granted its session, and otherwise gives the lookup's error |
| AuthStore.TokenTellsId | crates/bladb-gateway/src/local/auth.rs:398-413 | equal tokens come from equal session numbers, whatever dashes the app name holds |
| AuthStore.TokensAreClean | crates/bladb-gateway/src/local/auth.rs:446-459 | issued tokens pass the sanitizer unchanged |
| AuthAccounts.BearerTextIsRead | crates/bladb-gateway/src/local/auth.rs:446-459 | white space around the text and after the scheme word does not matter, and the word is dropped once |
| AuthAccounts.PlainTextIsRead | crates/bladb-gateway/src/local/auth.rs:446-459 | any other text is its own token without the space around it |
| AuthExpiry.LazyExpiryIsInvisible | crates/bladb-gateway/src/local/auth.rs:248-285 | with a clock that never goes back, every answer of the lazily expiring store equals that of one that drops sessions the instant they expire |
| AuthExpiry.BearerResolvesIffHistorySays | crates/bladb-gateway/src/local/auth.rs:216-219 | a bearer token resolves exactly when it was issued, not revoked since, and used within one lease of now |
| AuthExpiry.CookieResolvesIffHistorySays | crates/bladb-gateway/src/local/auth.rs:221-229 | a cookie resolves exactly when its token would as a bearer and the last answer that granted it was for a user of the requested app; attempts for a wrong app count as no use |
| AuthExpiry.DeadTokensStayDead | crates/bladb-gateway/src/local/auth.rs:398-413 | once expired or revoked, a token is never granted again by any later run |
| AuthLogout.TableIsKeptTokens | crates/bladb-gateway/src/local/auth.rs:248-285 | in every reachable state a token is filed exactly when the history shows it handed out, not revoked, and not looked up since its lease ended |
| AuthLogout.BareLogoutAgreesIff | crates/bladb-gateway/src/local/auth.rs:231-246 | after any run, `logout` without the lookup answers as the eager store exactly when the token is not an expired one that nobody looked up since, which the history alone tells |
| AuthLogout.BareLogoutRevokesStaleSession | crates/bladb-gateway/src/local/auth.rs:231-246 | for any fresh service and any app, a run of one anonymous session after which it reports an expired session as revoked and the eager store refuses |
| LogoutHolds.RevokedOnceAndForAll | crates/bladb-gateway/src/local/user.rs:201-219 | with lookup and removal of a logout under two holds and any other holds in between, a token reported revoked is never granted or reported revoked again |
| LogoutHolds.TwoHoldsAreOneStep | crates/bladb-gateway/src/local/user.rs:201-219 | with nothing in between, the two holds answer and change the store as the one-step request does |
| LogoutHolds.RefusedLookUpIsOneStep | crates/bladb-gateway/src/local/user.rs:201-219 | a logout whose lookup is refused ends there, as in one step |
| UserService.DeadlockFree | crates/rust-user-service/src/main.rs:155-325 | in every reachable state with an unfinished call, for any number of calls, some step of some thread is enabled |
| UserService.CallsTakeBoundedSteps | crates/rust-user-service/src/main.rs:155-325 | however scheduled, the calls made so far have only boundedly many steps left |
| UserServiceSessions.TokensReachable | crates/rust-user-service/src/main.rs:434-467 | every token in the table, in flight or answered was drawn once and for the session's user |
| UserServiceSessions.RevokedAtMostOnce | crates/rust-user-service/src/main.rs:265-281 | over any interleaving at most one call reports a token revoked |
| UserServiceSessions.RevokedTokensNeverResolve | crates/rust-user-service/src/main.rs:469-499 | after that report every lookup of the token fails, whatever was already under way |
| UserServiceAccounts.RowsAreNeverOverwritten | crates/rust-user-service/src/main.rs:191-255 | over any interleaving of any number of calls a user row once filed stays as it is |
| UserServiceAccounts.LoginLetsIn | crates/rust-user-service/src/main.rs:155-189 | login goes on as the row's user exactly when the row is there and its password is the given one |
| UserServiceAccounts.RegisteredCanLogIn | crates/rust-user-service/src/main.rs:155-255 | after a registration filed its row, whatever is interleaved later, login is let in as that user with the registered password and refused with any other |
| UserServiceAccounts.RegistrationKeepsTheCounter | crates/rust-user-service/src/main.rs:191-255 | from the insert of its row to its answer a registration keeps the user counter: whatever is interleaved, the only user id drawn meanwhile is its own |
| UserServiceHandlers.AppState.IssueSession | crates/rust-user-service/src/main.rs:434-467 | run alone, it does what its program of lock holds does |
| UserServiceCalls.EveryCallStartsAtAnEntry | crates/rust-user-service/src/main.rs:557-592 | whatever an invocation holds, a handler that reaches its first lock starts at an entry point of the program of lock holds, with its app in normal form |
| UserServiceCalls.KeyOfTrimmed | crates/rust-user-service/src/main.rs:582-584 | a user's table key ignores case and surrounding space of the e-mail |
| UserServiceCalls.WhichAppCounts | crates/rust-user-service/src/main.rs:557-569 | a call is for the app named in its input, else the invocation's; for all but login and register a blank one counts as none |
| UserServiceCalls.WhereTokenCallsStart | crates/rust-user-service/src/main.rs:501-538 | me reads the bearer text and, only without one, the cookie; logout the bearer text alone; the anonymous call the cookie |
| UserServiceHandlers.AppState.Login | crates/rust-user-service/src/main.rs:155-189 | an invocation is refused before any lock or, run alone, changes the tables and replies as the program of lock holds does from its entry |
| UserServiceHandlers.AppState.Register | crates/rust-user-service/src/main.rs:191-255 | the same for register and its input checks, with the identity the search over the users finds |
| UserServiceHandlers.AppState.Me | crates/rust-user-service/src/main.rs:257-263 | the same for me, its token read from the call or its cookie |
| UserServiceHandlers.AppState.Logout | crates/rust-user-service/src/main.rs:265-281 | the same for logout and its two holds |
| UserServiceHandlers.AppState.EnsureAnonymousSession | crates/rust-user-service/src/main.rs:283-326 | the same for the anonymous session, cookie shortcut and identity search included |
| LauncherCache.HttpUserModuleProvider.AcceptReply | crates/bladb-gateway/src/local/user.rs:352-358 | a reply that decodes to a session is returned and its token mapped to its user's app; any other changes nothing |
| LauncherCache.HttpUserModuleProvider.Login | crates/bladb-gateway/src/local/user.rs:442-462 | refused when disabled, else the call sent and the reply accepted |
| LauncherCache.HttpUserModuleProvider.Register | crates/bladb-gateway/src/local/user.rs:464-491 | the same for register |
| LauncherCache.HttpUserModuleProvider.SessionFromBearer | crates/bladb-gateway/src/local/user.rs:493-518 | a call goes out exactly for a token with a remembered app, names that app and carries the text as it came; the reply is decoded and its app remembered |
| LauncherCache.HttpUserModuleProvider.SessionFromCookie | crates/bladb-gateway/src/local/user.rs:520-544 | the call names the app as requested, in lower case, and carries the cookie; the reply is accepted |
| LauncherCache.HttpUserModuleProvider.EnsureAnonymousSession | crates/bladb-gateway/src/local/user.rs:546-564 | the same without a token |
| LauncherCache.HttpUserModuleProvider.LogoutSession | crates/bladb-gateway/src/local/user.rs:566-593 | the call is as for a bearer lookup; the entry is removed exactly when the service confirmed |
| LauncherCache.ReplyTellsTheApp | crates/bladb-gateway/src/local/user.rs:352-358 | what is remembered of a session after its way as JSON is what would be remembered of the session itself |
| LauncherCache.BearerCallsEnter | crates/rust-user-service/src/main.rs:501-569 | for an app in normal form the service starts me and logout on the cleaned token and that very app |
| LauncherCache.LoginCallEnters | crates/rust-user-service/src/main.rs:155-189 | the gateway's login call starts the service on the normalized app, the cleaned e-mail and the password as typed |
| LauncherCache.RegisterCallEnters | crates/rust-user-service/src/main.rs:191-255 | its register call starts the service on the registration typed, or is refused for the same reasons |
| LauncherCache.CookieCallEnters | crates/rust-user-service/src/main.rs:501-569 | its cookie lookup starts the service on the trimmed cookie and the app |
| LauncherCache.AnonymousCallEnters | crates/rust-user-service/src/main.rs:283-326 | its anonymous call starts the service on the app, without a cookie |
| LauncherCache.CacheIsCoherent | crates/bladb-gateway/src/local/user.rs:352-371 | over every run of gateway and service, with replies late or lost, each cached token maps to the app its session was issued for |
| LauncherCache.CachedTokenNeverMeetsWrongApp | crates/rust-user-service/src/main.rs:469-499 | a lookup of a cached token for its cached app never meets the wrong-app error, whatever happens before the service gets to it |
| LauncherCache.BearerNeverMeetsWrongApp | crates/rust-user-service/src/main.rs:469-499 | so the calls the gateway sends for a bearer lookup or logout start the service on token and app for which that error cannot come |
| PublicSession.PublicFormReturns | crates/bladb-gateway/src/local/auth.rs:299-371 | decoding the public JSON of a session recovers every field but the password |
| PublicSession.AcceptedFormIsStable | crates/bladb-gateway/src/local/auth.rs:299-351 | a session decoded from any accepted document survives another encoding and decoding |
| PublicSession.RefusedForTheFirstFault | crates/bladb-gateway/src/local/auth.rs:299-351 | a document is refused exactly for the first thing missing: the token, the user, the roles, then the user's texts in order |
| PublicSession.SessionMembers | crates/bladb-gateway/src/local/auth.rs:353-396 | under which name each field of a session and its user is sent |
| PublicSession.MissingFieldsDefault | crates/bladb-gateway/src/local/auth.rs:299-351 | what a document without the optional fields decodes to |
| Resolver.TerminatesIffNoKeyTwice | crates/bladb-gateway/src/lib.rs:434-454 | following references returns exactly when no parameter is looked up twice, and then within as many hops as there are parameters |
| Resolver.ReferencesAre | crates/bladb-gateway/src/lib.rs:434-445 | exactly the strings `{args.name}` are references, each to its name |
| Resolver.RendersFinalText | crates/bladb-gateway/src/lib.rs:434-454 | a text is rendered exactly when the chain ends at a scalar, and it is that scalar in writing: strings and digits as they are, true, false and null by name |
| Resolver.RenderFailsIff | crates/bladb-gateway/src/lib.rs:434-454 | it fails exactly when the chain stops at a name that is no parameter or at a list or object, and the error says at which |
| Resolver.AcyclicParamsResolve | crates/bladb-gateway/src/lib.rs:337-454 | when no parameter's chain repeats, every document is resolved or refused, none diverges |
| Resolver.ResolveTemplateBinding | crates/bladb-gateway/src/lib.rs:403-432 | the loop that appends parts and values yields the text the resolver gives the marker, or its first error |
| Resolver.TemplateInterleaves | crates/bladb-gateway/src/lib.rs:403-432 | a template renders exactly when each value it uses has a final text, and then to the interleaving of parts and texts |
| Resolver.NoContextBindingSurvives | crates/bladb-gateway/src/lib.rs:337-401 | no resolved document, of any input, holds an object with both `$ctx` and `token` at any depth |
| Resolver.TemplateBindingSurvivesIff | crates/bladb-gateway/src/lib.rs:363-367 | a resolved object reads as a template marker exactly when its `$template` was not the literal `key` but resolved to it |
| Resolver.TemplateBindingSurvives | crates/bladb-gateway/src/lib.rs:363-367 | an input for which that happens |
| ClientCompiler.CompileThenResolve | packages/client/src/index.ts:65-89 | every honest client value, serialized and then resolved, equals the value evaluated outright, errors and divergence included |
| ClientCompiler.AgreesIffHonest | packages/client/src/index.ts:65-89 | for a value that has a meaning, the gateway computes it exactly when no plain object it looks at imitates a marker |
| ClientCompiler.TemplatesSpellTheirValues | crates/bladb-gateway/src/lib.rs:403-454 | a compiled key template resolves to its parts with the texts of its values in between: numbers by their digits, true, false and null by name, strings as they are, claims and parameters by their values |
| ClientCompiler.MalformedMarkers | crates/bladb-gateway/src/lib.rs:337-432 | which error a marker gives whose claim is no text, whose parts or values are no lists, or whose first part is no text |
| ClientCompiler.PrepareMeansEval | crates/bladb-gateway/src/lib.rs:108-196 | the prepared body of an honest request is the client's body evaluated field by field, or its first error |
| ClientCompiler.PreparedPartByPart | crates/bladb-gateway/src/lib.rs:108-196 | a body is prepared exactly when every part resolves, and each part becomes its own resolved value, fields keeping name and place |
| EventStream.ReadStream | packages/client/src/index.ts:898-921 | the nested loops deliver what one parse of the concatenated text delivers, for any chunking, and leave no complete frame behind |
| EventStream.ParseMore | packages/client/src/index.ts:898-921 | parsing may stop anywhere and go on later from the leftover |
| EventStream.StreamDelivers | crates/bladb-gateway/src/main.rs:784-832 | a written stream cut off anywhere and chunked in any way gives exactly the payloads of its complete frames, in order |
| EventStream.ArrivesIffCompact | crates/bladb-gateway/src/main.rs:928-974 | messages and keepalives arrive as written exactly when every payload is a single line |
| HttpRead.ReadGatewayRequest | crates/bladb-gateway/src/main.rs:491-556 | the request depends only on the bytes received, never on how reads split them, and no read is made once it is complete |
| HttpRead.ReadServerRequest | crates/bladb-server/src/http.rs:179-215 | the same for the server's reader: head, length error, and the body as far as it came |
| HttpText.WrittenRequestIsRead | crates/bladb-gateway/src/main.rs:515-556 | a head written as request line and header lines is read with that method and path, and every header name, in any case and spacing, has the trimmed value sent last |
| HttpText.ShortRequestLines | crates/bladb-gateway/src/main.rs:519-530 | an empty head, a blank first line and one of a single word are refused, each for its reason |
| HttpText.NoBlankLineNoRequest | crates/bladb-gateway/src/main.rs:491-522 | input that closes without a blank line is refused by both readers |
| HttpText.WrittenBodyIsRead | crates/bladb-server/src/http.rs:179-239 | a written request whose first length header announces its body is read with that body by the gateway, and by the server when the header is in a spelling it knows |
| HttpText.UsizeOfDecimal | crates/bladb-gateway/src/main.rs:558-570 | a decimal number below 2^64 is read as that number, with or without a plus sign, a larger one as none |
| HttpRead.HeaderEndStays | crates/bladb-gateway/src/main.rs:572-574 | a head end that was found stays where it is when more input comes |
| HttpRead.LengthsAgreeIff | crates/bladb-server/src/http.rs:221-239 | for any header lines the two readers expect the same length exactly when the first header in one of the two spellings is a number and the first number in a third spelling before it, if any, is the same; without such a header, when the first number in a third spelling, if any, is 0 |
| HttpRead.PlainLengthsAgree | crates/bladb-server/src/http.rs:221-239 | so it is when all length headers are in the two spellings and the first is a number |
| HttpRead.OtherSpellingsAreMissed | crates/bladb-gateway/src/main.rs:558-570 | among any header lines without the two spellings the server finds no length, while the gateway takes the first number in a third spelling |
| HttpRead.BodiesAgreeIff | crates/bladb-server/src/http.rs:197-215 | any input the gateway takes: the server refuses it exactly when its first spelled header is no number, and else the bodies are equal exactly when both readers keep equally many of the bytes that came |
| HttpRead.AgreedBodiesIff | crates/bladb-server/src/http.rs:197-215 | when they expect the same length, the bodies are equal exactly when the body came in full or not at all |
| Index.IndexIsScanIff | crates/bladb-gateway/src/lib.rs:59-71 | an index collected from a list answers every lookup as a scan does exactly when names are distinct |
| PolicyIndex.CheckPolicyNames | crates/bladb-core/src/policy.rs:135-149 | accepts exactly manifests with distinct names; the error is the first repeated one |
| PolicyIndex.AcceptedIffIndexed | crates/bladb-gateway/src/lib.rs:59-71 | the manifests it accepts are exactly those whose index is a scan |
| PolicyIndex.NamedAuthorizeIsScan | crates/bladb-gateway/src/lib.rs:78-106 | a named request is answered by the list alone: unknown, mismatched or authorized |
| PolicyIndex.UnnamedAuthorizeIff | crates/bladb-gateway/src/lib.rs:78-106 | for any manifest, an unnamed request gets the first policy that matches and is refused exactly when none does |
| PolicyIndex.UnnamedAuthorizeIsStable | crates/bladb-gateway/src/lib.rs:78-106 | an unnamed request gets the first matching policy, and naming it gets the same answer |
| PolicyIndex.NamedAuthorizeTakesLast | crates/bladb-gateway/src/lib.rs:78-106 | for any manifest, checked or not, a named request is answered by the last policy of that name |
| PolicyIndex.NamingAgreesIff | crates/bladb-gateway/src/lib.rs:78-106 | for any manifest, naming the policy an unnamed request was answered with gives the same answer exactly when the last policy of that name matches too |
| PolicyIndex.RepeatedNamesAreUnstable | crates/bladb-gateway/src/lib.rs:59-71 | an instance in which it does not |
| Topology.CheckTopology | crates/bladb-core/src/cluster.rs:221-250 | accepts exactly manifests with distinct cluster names, no policy assigned twice and valid settings; else the error is the first thing wrong |
| Topology.AssignPolicies | crates/bladb-core/src/cluster.rs:233-242 | the inner loop finds a policy assigned before, within this cluster or an earlier one, and names both clusters |
| Topology.AcceptsPrefix | crates/bladb-core/src/cluster.rs:221-250 | a prefix of an accepted manifest is accepted |
| Topology.ValidateIff | crates/bladb-core/src/cluster.rs:252-345 | the settings checks pass exactly clusters with shards and fields for hashing, subject and stream where the protocol needs them, replicas, and autoscale bounds in order; the reason given is the first that holds |
| Routing.DeriveRouteKey | crates/bladb-gateway/src/routing.rs:151-189 | no key without fields, all fields' texts joined by colons, or the error of the first field that is missing or not scalar |
| Routing.ReadPathIff | crates/bladb-gateway/src/routing.rs:191-207 | a path is read exactly where its segments lead through object fields |
| Routing.FieldTexts | crates/bladb-gateway/src/routing.rs:151-213 | where a field's path leads decides its text: strings and digits as they are, true, false and null by name, lists and objects refused |
| Routing.MissingField | crates/bladb-gateway/src/routing.rs:151-189 | a path that leads nowhere is the missing-field error |
| Routing.KeyTellsFieldsIff | crates/bladb-gateway/src/routing.rs:188-189 | a key stands for one list of fields exactly when there is one field or none holds a colon |
| Routing.RegistryFindsTheCluster | crates/bladb-gateway/src/routing.rs:42-59 | on an accepted manifest the registry's index finds exactly the one cluster that serves a policy |
| Routing.AcceptedManifestsRoute | crates/bladb-gateway/src/routing.rs:66-106 | on an accepted manifest every resolve is right or names a real fault; a hash cluster always gets a shard below its number of shards, other clusters none |
| Routing.KeysFollowFields | crates/bladb-gateway/src/routing.rs:151-213 | two requests to a cluster share a route key exactly when their fields agree, colons aside |
| FanOut.RetainSubscribers | crates/bladb-gateway/src/local/iot.rs:264-273 | the loop inside a publish keeps and sends as the specification function of one publish says |
| FanOut.SubscribersGetExactlyTheirs | crates/bladb-gateway/src/local/iot.rs:239-284 | over every run a receiver has got exactly the matching messages from its subscription to its disconnection, in order, and while connected is never dropped |
| FanOut.LiveSubscribersAreUpToDate | crates/bladb-gateway/src/local/ros2.rs:355-424 | what a connected subscriber has received is the newest part of its feed's log, so its last message is the latest one |
| FanOut.RecentIsTail | crates/bladb-gateway/src/local/ros2.rs:426-450 | the recent messages are the last matching ones, newest first, and the latest is the first of them |
| Iot.TopicNamesTenantIff | crates/bladb-gateway/src/local/iot.rs:264-268 | the tenant read back from a device's topic is the device's exactly when the tenant id holds no slash |
| Iot.StreamsFollowTenants | crates/bladb-gateway/src/local/iot.rs:264-273 | a command reaches exactly the streams of its sender and device whose tenant is the sender's tenant id up to its first slash, so with a slash another tenant's and not the sender's own |
| Iot.CommandReaches | crates/bladb-gateway/src/local/iot.rs:264-273 | one publish gives the command to exactly the open streams of its sender and device whose tenant its topic names, and nothing to others |
| Iot.NothingMissingIff | crates/bladb-gateway/src/local/iot.rs:354-377 | a publish has all its parts exactly when identity, topic, device and the payload's action are there as texts; else the error names one that is not |
| Iot.CommandBodyIff | crates/bladb-gateway/src/local/iot.rs:491-516 | an app call's body is in order exactly when both device and action are there as texts, the device looked for first |
| StreamPath.NamesComeBack | crates/bladb-gateway/src/local/iot.rs:158-174 | a name without slashes is cut out of a stream path as it was put in |
| StreamPath.SlashesBeforeTheEnd | crates/bladb-gateway/src/local/iot.rs:171-174 | slashes between the name and the last part of the path are dropped, however many |
| Iot.IotModule.OpenCommandStream | crates/bladb-gateway/src/local/iot.rs:162-198 | for a stream path, subscribes exactly viewers who can reach the named device, with the error cases in order; other paths are not for it |
| Iot.IotModule.PublishCommandRecord | crates/bladb-gateway/src/local/iot.rs:239-284 | logs the command under the next id and fans it out |
| Iot.IotModule.PostCommand | crates/bladb-gateway/src/local/iot.rs:491-516 | publishes on the device's own topic exactly when session and body are in order and the viewer can reach the device, else the first error |
| Iot.IotModule.Execute | crates/bladb-gateway/src/local/iot.rs:292-394 | publishes exactly when nothing is missing, for the owner and on the device's own topic, else the first error |
| Ros2.Ros2Module.OpenMessageStream | crates/bladb-gateway/src/local/ros2.rs:269-304 | for a stream path and an allowed topic, hands over to a configured backend or subscribes a session of the app, with the error cases in order |
| Ros2.Ros2Module.PublishMessage | crates/bladb-gateway/src/local/ros2.rs:355-401 | publishes exactly for an allowed topic and a robot the sender can use |
| Ros2.Ros2Module.LatestIsHeadOfRecent | crates/bladb-gateway/src/local/ros2.rs:403-450 | the snapshot is the head of the recent messages, which are the last twelve of the feed |
| Ros2.MessageReaches | crates/bladb-gateway/src/local/ros2.rs:355-401 | one publish gives the message to exactly the open feeds of its tenant and topic, and nothing to others |
| Ros2.BackendUrls | crates/bladb-gateway/src/local/ros2.rs:80-86 | the backend address has one slash between base and path, with or without slashes at the seam |

## Left out

- Sockets, threads as system objects, sleeping, clocks, poisoned locks and write errors; reads are lists of chunks, threads are interleaved steps, times are arguments.
- YAML and JSON text, UTF-8 decoding and number printing; documents are trees, a number carries the text it prints as, and object fields stand in the order they are walked.
- 64-bit wrap-around of counters, prices, stock and times; all are mathematical integers.
- ReadGatewayRequest: `header_end + 4 + content_length` is not cut to the machine word, so a length near 2^64 is treated as one that never arrives.
- LogoutForRequest: the two holds of the mutex are one step here and in the expiry theorems; `LogoutHolds` has them apart, with lookups and removals of any number of logouts interleaved, but compares no eager store there.
- RunTick: jobs that other producers add to the queue while a tick runs are not modelled.
- Serialize: an object literal that carries a `__bladb` tag by hand is the tagged value itself, and template parts are taken to be strings.
- Authorize: the engine-specific match rules and the request's own validation are parameters.
- RouteToShard: the standard library's hasher is a parameter.
- SessionFromBearer: the HTTP exchange and the response envelope are not modelled; what comes back is a parameter of the method, and in the joint runs the service's finished calls.
- PublishMessage: publishing and reading through a configured ROS2 backend are not modelled; opening a stream gives the backend's address.
- Seeds from configuration files, cookie headers and every rendering to JSON for display; the service's errors are one refusal.
- The request protocol's flat validation, worker and module configuration, the server launcher, the blog module and the module-runtime loop: case checks and repeats of patterns covered here.
- React hooks, the query builders of the client and the example apps.
