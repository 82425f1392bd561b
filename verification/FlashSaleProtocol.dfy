/**
 Every interleaving of the flash-sale mutex holds: handler calls, and per accepted ticket one worker
 thread that claims and later settles. Sleeps and scheduling delays are arbitrary, so a thread's
 next hold may come at any later point of a run.
 */
module FlashSaleProtocol {
  import opened Wrappers
  import opened Text
  import opened FlashSale

  datatype Label =
    | Enqueue(uid: string, sku: string, quantity: int, now: string)
    | Claim(id: string, now: string)
    | Settle(id: string, now: string)
    | Decr(amount: int)
    | Create(uid: string, sku: string, quantity: int, status: string, now: string)

  /** Where a worker thread stands in `process_ticket`. */
  datatype Pc = AwaitClaim | AwaitSettle | Finished

  /** The guarded state and the worker threads, one per ticket id. */
  datatype Sys = Sys(shop: Shop, threads: map<string, Pc>)

  predicate Enabled(s: Sys, l: Label) {
    match l
    case Claim(id, _) => id in s.threads && s.threads[id] == AwaitClaim
    case Settle(id, _) => id in s.threads && s.threads[id] == AwaitSettle
    case _ => true
  }

  function Next(s: Sys, l: Label): Sys {
    match l
    case Enqueue(uid, sku, quantity, now) =>
      Sys(AfterEnqueue(s.shop, uid, sku, quantity, now),
          if ValidPurchase(sku, quantity) then s.threads[TicketId(s.shop.nextTicketId) := AwaitClaim] else s.threads)
    case Claim(id, now) => Sys(AfterClaim(s.shop, id, now), s.threads[id := AwaitSettle])
    case Settle(id, now) => Sys(AfterSettle(s.shop, id, now), s.threads[id := Finished])
    case Decr(amount) => s.(shop := AfterDecr(s.shop, amount))
    case Create(uid, sku, quantity, status, now) => s.(shop := AfterCreate(s.shop, uid, sku, quantity, status, now))
  }

  /** The state after a run, or `None` when some step of it was not enabled. */
  function Exec(s: Sys, labels: seq<Label>): Option<Sys> {
    if labels == [] then Some(s)
    else
      var n := |labels| - 1;
      match Exec(s, labels[..n])
      case None => None
      case Some(mid) => if Enabled(mid, labels[n]) then Some(Next(mid, labels[n])) else None
  }

  /** A freshly configured module. */
  predicate IsSeed(shop: Shop) {
    shop.tickets == map[] && shop.nextTicketId == 1
  }

  function Start(seed: Shop): Sys {
    Sys(seed, map[])
  }

  ghost predicate Reachable(seed: Shop, labels: seq<Label>, s: Sys) {
    IsSeed(seed) && Exec(Start(seed), labels) == Some(s)
  }

  // ---- the invariant ----

  function Actions(steps: seq<CollaborationStep>): seq<Action> {
    seq(|steps|, i requires 0 <= i < |steps| => steps[i].action)
  }

  function Trail(status: Status): seq<Action> {
    match status
    case Queued => [Enqueued]
    case Processing => [Enqueued, ClaimedByWorker]
    case Completed =>
      [Enqueued, ClaimedByWorker, ReadWallet, ReadStock, ReserveStock, DebitWallet, InsertOrder, CompletedByWorker]
    case Failed => [Enqueued, ClaimedByWorker, ReadWallet, ReadStock, FailedByWorker]
  }

  predicate TicketOk(id: string, t: Ticket, nextTicketId: nat, pc: Pc) {
    && id == t.id == TicketId(t.sequence)
    && 1 <= t.sequence < nextTicketId
    && t.quantity > 0
    && (t.status == Queued <==> pc == AwaitClaim)
    && (t.status == Processing <==> pc == AwaitSettle)
    && (t.status == Completed <==> t.orderId.Some?)
    && NoticeFits(t)
    && Actions(t.steps) == Trail(t.status)
    && |t.steps| > 0 && t.createdAt == t.steps[0].at && t.updatedAt == t.steps[|t.steps| - 1].at
  }

  /** What the ticket says about itself. */
  predicate NoticeFits(t: Ticket) {
    match t.status
    case Queued => t.message == Waiting
    case Processing => t.message == Reserving
    case Completed => t.message == Confirmed
    case Failed => t.message == SoldOut || t.message == TooPoor
  }

  ghost predicate Inv(s: Sys) {
    && s.shop.nextTicketId >= 1
    && s.threads.Keys == s.shop.tickets.Keys
    && (forall id | id in s.shop.tickets :: TicketOk(id, s.shop.tickets[id], s.shop.nextTicketId, s.threads[id]))
    && (forall k: nat | 1 <= k < s.shop.nextTicketId :: TicketId(k) in s.shop.tickets)
  }

  lemma ActionsAppend(a: seq<CollaborationStep>, b: seq<CollaborationStep>)
    ensures Actions(a + b) == Actions(a) + Actions(b)
  {
  }

  lemma NewTicketOk(sequence: nat, uid: string, sku: string, quantity: int, now: string)
    requires sequence >= 1 && quantity > 0
    ensures TicketOk(TicketId(sequence), NewTicket(sequence, uid, sku, quantity, now), sequence + 1, AwaitClaim)
  {
    assert Actions(NewTicket(sequence, uid, sku, quantity, now).steps) == [Enqueued];
  }

  lemma ClaimedTicketOk(id: string, t: Ticket, next: nat, now: string)
    requires TicketOk(id, t, next, AwaitClaim)
    ensures TicketOk(id, Claimed(t, now), next, AwaitSettle)
  {
    ActionsAppend(t.steps, Claimed(t, now).steps[|t.steps|..]);
    assert Claimed(t, now).steps == t.steps + Claimed(t, now).steps[|t.steps|..];
  }

  lemma SettledTicketOk(id: string, t: Ticket, next: nat, refusal: Option<Notice>, orderId: string, now: string)
    requires TicketOk(id, t, next, AwaitSettle)
    requires refusal.Some? ==> refusal.value == SoldOut || refusal.value == TooPoor
    ensures TicketOk(id, SettledTicket(t, refusal, orderId, now), next, Finished)
  {
    hide TicketId;
    var t' := SettledTicket(t, refusal, orderId, now);
    var tail := t'.steps[|t.steps|..];
    assert t'.steps == t.steps + tail;
    ActionsAppend(t.steps, tail);
    assert t'.steps[0] == t.steps[0];
    if refusal.Some? {
      assert Actions(tail) == [ReadWallet, ReadStock, FailedByWorker];
    } else {
      assert Actions(tail) == [ReadWallet, ReadStock, ReserveStock, DebitWallet, InsertOrder, CompletedByWorker];
    }
  }

  /** Replacing one ticket and moving its thread keeps the invariant. */
  lemma InvTouch(s: Sys, s': Sys, id: string, t': Ticket, pc': Pc)
    requires Inv(s) && id in s.shop.tickets
    requires s'.shop.tickets == s.shop.tickets[id := t'] && s'.threads == s.threads[id := pc']
    requires s'.shop.nextTicketId == s.shop.nextTicketId
    requires TicketOk(id, t', s.shop.nextTicketId, pc')
    ensures Inv(s')
  {
    hide TicketId, OrderId;
    forall other | other in s'.shop.tickets
      ensures TicketOk(other, s'.shop.tickets[other], s'.shop.nextTicketId, s'.threads[other])
    {
      if other != id {
        assert other in s.shop.tickets;
      }
    }
    forall k: nat | 1 <= k < s'.shop.nextTicketId
      ensures TicketId(k) in s'.shop.tickets
    {
      assert TicketId(k) in s.shop.tickets;
    }
  }

  /** Adding the next ticket with its thread keeps the invariant. */
  lemma InvAdd(s: Sys, s': Sys, t: Ticket)
    requires Inv(s) && TicketOk(t.id, t, s.shop.nextTicketId + 1, AwaitClaim) && t.sequence == s.shop.nextTicketId
    requires s'.shop.tickets == s.shop.tickets[t.id := t] && s'.threads == s.threads[t.id := AwaitClaim]
    requires s'.shop.nextTicketId == s.shop.nextTicketId + 1
    ensures Inv(s')
  {
    hide TicketId, OrderId;
    forall other | other in s'.shop.tickets
      ensures TicketOk(other, s'.shop.tickets[other], s'.shop.nextTicketId, s'.threads[other])
    {
      if other != t.id {
        assert TicketOk(other, s.shop.tickets[other], s.shop.nextTicketId, s.threads[other]);
      }
    }
    forall k: nat | 1 <= k < s'.shop.nextTicketId
      ensures TicketId(k) in s'.shop.tickets
    {
      assert k < s.shop.nextTicketId ==> TicketId(k) in s.shop.tickets;
    }
  }

  /** The settlement verdict on ticket `id` and the ticket it leaves behind. */
  function Verdict(shop: Shop, id: string): Option<Notice>
    requires id in shop.tickets
  {
    Refusal(shop.stock, Balance(shop, shop.tickets[id].uid), shop.price, shop.tickets[id].quantity)
  }

  function TicketAfterSettle(shop: Shop, id: string, now: string): Ticket
    requires id in shop.tickets
  {
    SettledTicket(shop.tickets[id], Verdict(shop, id), OrderId(|shop.orders| + 1), now)
  }

  lemma SettleTickets(shop: Shop, id: string, now: string)
    requires id in shop.tickets
    ensures AfterSettle(shop, id, now).tickets == shop.tickets[id := TicketAfterSettle(shop, id, now)]
    ensures AfterSettle(shop, id, now).nextTicketId == shop.nextTicketId
  {
  }

  lemma InvStep(s: Sys, l: Label)
    requires Inv(s) && Enabled(s, l)
    ensures Inv(Next(s, l))
  {
    match l {
      case Enqueue(uid, sku, quantity, now) =>
        if ValidPurchase(sku, quantity) {
          NewTicketOk(s.shop.nextTicketId, uid, sku, quantity, now);
          InvAdd(s, Next(s, l), NewTicket(s.shop.nextTicketId, uid, sku, quantity, now));
        }
      case Claim(id, now) =>
        var t := s.shop.tickets[id];
        ClaimedTicketOk(id, t, s.shop.nextTicketId, now);
        InvTouch(s, Next(s, l), id, Claimed(t, now), AwaitSettle);
      case Settle(id, now) =>
        var t' := TicketAfterSettle(s.shop, id, now);
        SettledTicketOk(id, s.shop.tickets[id], s.shop.nextTicketId,
                        Verdict(s.shop, id), OrderId(|s.shop.orders| + 1), now);
        SettleTickets(s.shop, id, now);
        InvTouch(s, Next(s, l), id, t', Finished);
      case _ =>
    }
  }

  /** In every reachable state each ticket's status, thread and step trail agree. */
  lemma {:induction false} InvReachable(seed: Shop, labels: seq<Label>, s: Sys)
    requires Reachable(seed, labels, s)
    ensures Inv(s)
  {
    if labels != [] {
      var n := |labels| - 1;
      var mid := Exec(Start(seed), labels[..n]).value;
      InvReachable(seed, labels[..n], mid);
      InvStep(mid, labels[n]);
    }
  }

  // ---- no oversell ----

  ghost predicate Solvent(shop: Shop) {
    && shop.stock >= 0
    && shop.defaultWallet >= 0
    && forall key | key in shop.wallets :: shop.wallets[key] >= 0
  }

  lemma SettleStaysSolvent(shop: Shop, id: string, now: string)
    requires Solvent(shop) && id in shop.tickets && shop.tickets[id].quantity > 0
    ensures Solvent(AfterSettle(shop, id, now))
  {
    hide OrderId;
  }

  lemma StaysSolvent(s: Sys, l: Label)
    requires Inv(s) && Enabled(s, l) && Solvent(s.shop)
    ensures Solvent(Next(s, l).shop)
  {
    hide OrderId, TicketId;
    if l.Settle? {
      assert TicketOk(l.id, s.shop.tickets[l.id], s.shop.nextTicketId, s.threads[l.id]);
      SettleStaysSolvent(s.shop, l.id, l.now);
    }
  }

  /** Stock and wallets never go below zero, whatever the interleaving of claims, settlements and decrements. */
  lemma {:induction false} NeverNegative(seed: Shop, labels: seq<Label>, s: Sys)
    requires Reachable(seed, labels, s) && Solvent(seed)
    ensures Solvent(s.shop)
  {
    if labels != [] {
      var n := |labels| - 1;
      var mid := Exec(Start(seed), labels[..n]).value;
      NeverNegative(seed, labels[..n], mid);
      InvReachable(seed, labels[..n], mid);
      StaysSolvent(mid, labels[n]);
    }
  }

  // ---- termination of the worker threads ----

  predicate IsWorkerStep(l: Label) {
    l.Claim? || l.Settle?
  }

  function InStatus(s: Sys, status: Status): set<string> {
    set id | id in s.shop.tickets && s.shop.tickets[id].status == status
  }

  /** 2 * queued + processing */
  function Work(s: Sys): nat {
    2 * |InStatus(s, Queued)| + |InStatus(s, Processing)|
  }

  lemma ClaimWorks(s: Sys, s': Sys, id: string, t': Ticket)
    requires id in s.shop.tickets && s.shop.tickets[id].status == Queued && t'.status == Processing
    requires s'.shop.tickets == s.shop.tickets[id := t']
    ensures Work(s') == Work(s) - 1
  {
    assert InStatus(s, Queued) == InStatus(s', Queued) + {id};
    assert InStatus(s', Processing) == InStatus(s, Processing) + {id};
  }

  lemma SettleWorks(s: Sys, s': Sys, id: string, t': Ticket)
    requires id in s.shop.tickets && s.shop.tickets[id].status == Processing && !Active(t')
    requires s'.shop.tickets == s.shop.tickets[id := t']
    ensures Work(s') == Work(s) - 1
  {
    assert InStatus(s, Processing) == InStatus(s', Processing) + {id};
    assert InStatus(s', Queued) == InStatus(s, Queued);
  }

  lemma EnqueueWorks(s: Sys, s': Sys, id: string, t': Ticket)
    requires id !in s.shop.tickets && t'.status == Queued
    requires s'.shop.tickets == s.shop.tickets[id := t']
    ensures Work(s') == Work(s) + 2
  {
    assert InStatus(s', Queued) == InStatus(s, Queued) + {id};
    assert InStatus(s', Processing) == InStatus(s, Processing);
  }

  /** Claim and settle each use up one unit of work; only an accepted purchase adds any. */
  lemma StepWorks(s: Sys, l: Label)
    requires Inv(s) && Enabled(s, l)
    ensures IsWorkerStep(l) ==> Work(Next(s, l)) == Work(s) - 1
    ensures l.Decr? || l.Create? ==> Work(Next(s, l)) == Work(s)
    ensures l.Enqueue? ==> Work(Next(s, l)) == Work(s) + if ValidPurchase(l.sku, l.quantity) then 2 else 0
  {
    hide Inv, Work, TicketId;
    match l {
      case Enqueue(uid, sku, quantity, now) => EnqueueStepWorks(s, uid, sku, quantity, now);
      case Claim(id, now) =>
        ThreadStatus(s, id);
        ClaimWorks(s, Next(s, l), id, Claimed(s.shop.tickets[id], now));
      case Settle(id, now) =>
        ThreadStatus(s, id);
        SettleTickets(s.shop, id, now);
        hide AfterSettle;
        SettleWorks(s, Next(s, l), id, TicketAfterSettle(s.shop, id, now));
      case _ => SameTicketsWork(s, Next(s, l));
    }
  }

  lemma ThreadStatus(s: Sys, id: string)
    requires Inv(s) && id in s.threads
    ensures id in s.shop.tickets
    ensures s.threads[id] == AwaitClaim ==> s.shop.tickets[id].status == Queued
    ensures s.threads[id] == AwaitSettle ==> s.shop.tickets[id].status == Processing
  {
    assert TicketOk(id, s.shop.tickets[id], s.shop.nextTicketId, s.threads[id]);
    hide TicketId;
  }

  lemma SameTicketsWork(s: Sys, s': Sys)
    requires s'.shop.tickets == s.shop.tickets
    ensures Work(s') == Work(s)
  {
    assert InStatus(s', Queued) == InStatus(s, Queued);
  }

  lemma EnqueueStepWorks(s: Sys, uid: string, sku: string, quantity: int, now: string)
    requires Inv(s)
    ensures Work(Next(s, Enqueue(uid, sku, quantity, now))) == Work(s) + if ValidPurchase(sku, quantity) then 2 else 0
  {
    FreshTicketId(s);
    hide Inv, Work, TicketId, Trim, WalletKey;
    var s' := Next(s, Enqueue(uid, sku, quantity, now));
    if ValidPurchase(sku, quantity) {
      var t := NewTicket(s.shop.nextTicketId, uid, sku, quantity, now);
      EnqueueWorks(s, s', t.id, t);
    } else {
      SameTicketsWork(s, s');
    }
  }

  lemma FreshTicketId(s: Sys)
    requires Inv(s)
    ensures TicketId(s.shop.nextTicketId) !in s.shop.tickets
  {
    var id := TicketId(s.shop.nextTicketId);
    if id in s.shop.tickets {
      TicketIdInjective(s.shop.tickets[id].sequence, s.shop.nextTicketId);
    }
  }

  predicate WorkerRun(labels: seq<Label>) {
    forall i | 0 <= i < |labels| :: IsWorkerStep(labels[i])
  }

  /** A run of worker steps alone uses up exactly one unit of work per step, so it is never longer than the work. */
  lemma {:induction false} WorkerRunsAreBounded(s: Sys, labels: seq<Label>)
    requires Inv(s) && WorkerRun(labels) && Exec(s, labels).Some?
    ensures Inv(Exec(s, labels).value)
    ensures Work(Exec(s, labels).value) + |labels| == Work(s)
  {
    if labels != [] {
      var n := |labels| - 1;
      WorkerRunsAreBounded(s, labels[..n]);
      var mid := Exec(s, labels[..n]).value;
      InvStep(mid, labels[n]);
      StepWorks(mid, labels[n]);
    }
  }

  /** While work is left some thread can step; stuck thread states do not exist. */
  lemma SomeWorkerCanStep(s: Sys, now: string) returns (l: Label)
    requires Inv(s) && Work(s) > 0
    ensures IsWorkerStep(l) && Enabled(s, l)
  {
    if InStatus(s, Queued) != {} {
      var id :| id in InStatus(s, Queued);
      l := Claim(id, now);
    } else {
      var id :| id in InStatus(s, Processing);
      l := Settle(id, now);
    }
  }

  lemma ExecCons(s: Sys, l: Label, labels: seq<Label>)
    requires Enabled(s, l)
    ensures Exec(s, [l] + labels) == Exec(Next(s, l), labels)
  {
    if labels == [] {
      assert [l] + labels == [l];
      assert Exec(s, [l][..0]) == Some(s);
    } else {
      var n := |labels| - 1;
      ExecCons(s, l, labels[..n]);
      assert ([l] + labels)[..n + 1] == [l] + labels[..n];
    }
  }

  lemma NoWorkMeansClosed(s: Sys, id: string)
    requires Work(s) == 0 && id in s.shop.tickets
    ensures !Active(s.shop.tickets[id])
  {
    assert id !in InStatus(s, Queued) && id !in InStatus(s, Processing);
  }

  lemma WorkerKeepsKeys(s: Sys, l: Label)
    requires Inv(s) && Enabled(s, l) && IsWorkerStep(l)
    ensures Next(s, l).shop.tickets.Keys == s.shop.tickets.Keys
  {
    hide OrderId;
    if l.Settle? {
      SettleTickets(s.shop, l.id, l.now);
    }
  }

  ghost predicate Drains(s: Sys, labels: seq<Label>) {
    && WorkerRun(labels) && |labels| == Work(s) && Exec(s, labels).Some?
    && var end := Exec(s, labels).value.shop;
    && end.tickets.Keys == s.shop.tickets.Keys
    && forall id | id in end.tickets :: !Active(end.tickets[id])
  }

  lemma DrainsCons(s: Sys, l: Label, rest: seq<Label>)
    requires Enabled(s, l) && IsWorkerStep(l) && Drains(Next(s, l), rest)
    requires Work(Next(s, l)) == Work(s) - 1
    requires Next(s, l).shop.tickets.Keys == s.shop.tickets.Keys
    ensures Drains(s, [l] + rest)
  {
    hide Next, Work;
    ExecCons(s, l, rest);
  }

  /** From any reachable state the workers can finish, in exactly `Work` steps, and then every ticket is closed. */
  lemma {:induction false} WorkersDrainTheQueue(s: Sys, now: string) returns (labels: seq<Label>)
    requires Inv(s)
    ensures Drains(s, labels)
    decreases Work(s)
  {
    hide Next, Inv;
    if Work(s) == 0 {
      labels := [];
      forall id | id in s.shop.tickets ensures !Active(s.shop.tickets[id]) {
        NoWorkMeansClosed(s, id);
      }
    } else {
      hide Drains, Work;
      var l := SomeWorkerCanStep(s, now);
      InvStep(s, l);
      StepWorks(s, l);
      WorkerKeepsKeys(s, l);
      var rest := WorkersDrainTheQueue(Next(s, l), now);
      DrainsCons(s, l, rest);
      labels := [l] + rest;
    }
  }

  // ---- what a ticket asked for never changes ----

  predicate SameRequest(a: Ticket, b: Ticket) {
    a.id == b.id && a.uid == b.uid && a.sku == b.sku && a.quantity == b.quantity && a.sequence == b.sequence
    && a.createdAt == b.createdAt
  }

  lemma SettledKeepsRequest(t: Ticket, refusal: Option<Notice>, orderId: string, now: string)
    ensures SameRequest(t, SettledTicket(t, refusal, orderId, now))
  {
  }

  lemma SettlePersists(s: Sys, id: string, now: string, other: string)
    requires Inv(s) && Enabled(s, Settle(id, now)) && other in s.shop.tickets
    ensures var tickets := AfterSettle(s.shop, id, now).tickets;
            && other in tickets && SameRequest(s.shop.tickets[other], tickets[other])
            && (!Active(s.shop.tickets[other]) ==> tickets[other] == s.shop.tickets[other])
  {
    assert TicketOk(id, s.shop.tickets[id], s.shop.nextTicketId, s.threads[id]);
    hide Inv, OrderId, TicketId;
    SettleTickets(s.shop, id, now);
    hide AfterSettle;
    SettledKeepsRequest(s.shop.tickets[id], Verdict(s.shop, id), OrderId(|s.shop.orders| + 1), now);
  }

  /** Tickets are never dropped, keep what was asked for, and a closed ticket is never touched again. */
  lemma TicketsPersist(s: Sys, l: Label, id: string)
    requires Inv(s) && Enabled(s, l) && id in s.shop.tickets
    ensures id in Next(s, l).shop.tickets
    ensures SameRequest(s.shop.tickets[id], Next(s, l).shop.tickets[id])
    ensures !Active(s.shop.tickets[id]) ==> Next(s, l).shop.tickets[id] == s.shop.tickets[id]
  {
    hide Inv, AfterSettle, AfterEnqueue, AfterClaim, SameRequest, Active;
    match l {
      case Settle(other, now) => SettlePersists(s, other, now, id);
      case Claim(other, now) => ClaimPersists(s, other, now, id);
      case Enqueue(uid, sku, quantity, now) => EnqueuePersists(s, uid, sku, quantity, now, id);
      case _ => SameToItself(s.shop.tickets[id]);
    }
  }

  lemma SameToItself(t: Ticket)
    ensures SameRequest(t, t)
  {
  }

  lemma ClaimPersists(s: Sys, id: string, now: string, other: string)
    requires Inv(s) && Enabled(s, Claim(id, now)) && other in s.shop.tickets
    ensures var tickets := AfterClaim(s.shop, id, now).tickets;
            && other in tickets && SameRequest(s.shop.tickets[other], tickets[other])
            && (!Active(s.shop.tickets[other]) ==> tickets[other] == s.shop.tickets[other])
  {
    assert TicketOk(id, s.shop.tickets[id], s.shop.nextTicketId, s.threads[id]);
    hide Inv, TicketId;
  }

  lemma EnqueuePersists(s: Sys, uid: string, sku: string, quantity: int, now: string, other: string)
    requires Inv(s) && other in s.shop.tickets
    ensures var tickets := AfterEnqueue(s.shop, uid, sku, quantity, now).tickets;
            && other in tickets && tickets[other] == s.shop.tickets[other]
            && SameRequest(s.shop.tickets[other], tickets[other])
  {
    FreshTicketId(s);
    hide Inv, TicketId, Trim, WalletKey;
  }
}
