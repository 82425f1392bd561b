/**
 A one-at-a-time ledger for the flash sale, and the proof that every interleaving ends where the
 ledger ends when it is given the settlements, decrements and order inserts in the order in which
 they took the mutex. The ledger keeps an append-only list of postings and derives balances from it;
 it knows nothing of tickets, threads or wallets.
 */
module FlashSaleLedger {
  import opened Wrappers
  import opened Text
  import opened FlashSale
  import opened FlashSaleProtocol

  datatype Entry =
    | Purchase(ticket: string, uid: string, sku: string, quantity: int, at: string)
    | Manual(uid: string, sku: string, quantity: int, status: string, at: string)
    | Adjust(amount: int)

  /** One order row; `source` names the ticket it was bought by, `charge` what it cost. */
  datatype Posting = Posting(source: Option<string>, row: Order, charge: int)

  datatype Outcome = Accepted(posting: nat) | Refused(reason: Notice)

  datatype Ledger = Ledger(stock: int, postings: seq<Posting>, outcomes: map<string, Outcome>)

  /** What `uid` was charged in total. */
  function Charged(postings: seq<Posting>, uid: string): int {
    if postings == [] then 0
    else
      var last := postings[|postings| - 1];
      Charged(postings[..|postings| - 1], uid) + if last.row.uid == uid then last.charge else 0
  }

  function Funds(seed: Shop, l: Ledger, uid: string): int {
    Balance(seed, uid) - Charged(l.postings, uid)
  }

  function NextOrderId(seed: Shop, l: Ledger): string {
    OrderId(|seed.orders| + |l.postings| + 1)
  }

  function Post(seed: Shop, l: Ledger, e: Entry): Ledger {
    match e
    case Adjust(amount) => l.(stock := if amount > l.stock then 0 else l.stock - amount)
    case Manual(uid, sku, quantity, status, at) =>
      l.(postings := l.postings + [Posting(None, Order(NextOrderId(seed, l), uid, sku, status, quantity, at), 0)])
    case Purchase(ticket, uid, sku, quantity, at) =>
      if l.stock < quantity then l.(outcomes := l.outcomes[ticket := Refused(SoldOut)])
      else if Funds(seed, l, uid) < seed.price * quantity then l.(outcomes := l.outcomes[ticket := Refused(TooPoor)])
      else
        Ledger(
          l.stock - quantity,
          l.postings + [Posting(Some(ticket), Order(NextOrderId(seed, l), uid, sku, QUEUED_CONFIRMED, quantity, at),
                                seed.price * quantity)],
          l.outcomes[ticket := Accepted(|l.postings|)])
  }

  function Books(seed: Shop, entries: seq<Entry>): Ledger {
    if entries == [] then Ledger(seed.stock, [], map[])
    else Post(seed, Books(seed, entries[..|entries| - 1]), entries[|entries| - 1])
  }

  /** What one step hands to the ledger: enqueue and claim hand it nothing. */
  function Committed(s: Sys, l: Label): seq<Entry> {
    match l
    case Settle(id, now) =>
      if id in s.shop.tickets then
        var t := s.shop.tickets[id];
        [Purchase(id, t.uid, t.sku, t.quantity, now)]
      else []
    case Decr(amount) => [Adjust(amount)]
    case Create(uid, sku, quantity, status, now) => [Manual(uid, sku, quantity, status, now)]
    case _ => []
  }

  /** The entries a run commits, in the order of its mutex holds. */
  function Journal(s: Sys, labels: seq<Label>): seq<Entry> {
    if labels == [] || Exec(s, labels[..|labels| - 1]).None? then []
    else
      var n := |labels| - 1;
      Journal(s, labels[..n]) + Committed(Exec(s, labels[..n]).value, labels[n])
  }

  // ---- agreement of the shop with the ledger ----

  /** The order table, newest row first, is the postings on top of the seed rows. */
  ghost predicate OrdersAgree(seed: Shop, orders: seq<Order>, postings: seq<Posting>) {
    && |orders| == |seed.orders| + |postings|
    && orders[|postings|..] == seed.orders
    && forall i | 0 <= i < |postings| ::
         orders[|postings| - 1 - i] == postings[i].row && postings[i].row.id == OrderId(|seed.orders| + i + 1)
  }

  ghost predicate TicketAgrees(seed: Shop, l: Ledger, id: string, t: Ticket) {
    && (Active(t) <==> id !in l.outcomes)
    && (t.status == Failed <==> id in l.outcomes && l.outcomes[id].Refused?)
    && (t.status == Failed ==> l.outcomes[id] == Refused(t.message))
    && (t.status == Completed ==> AcceptedAs(seed, l, id, t))
  }

  ghost predicate AcceptedAs(seed: Shop, l: Ledger, id: string, t: Ticket) {
    && id in l.outcomes && l.outcomes[id].Accepted? && l.outcomes[id].posting < |l.postings|
    && var p := l.postings[l.outcomes[id].posting];
    && p.source == Some(id) && t.orderId == Some(p.row.id)
    && p.row.uid == t.uid && p.row.sku == t.sku && p.row.quantity == t.quantity && p.row.status == QUEUED_CONFIRMED
    && p.charge == seed.price * t.quantity
  }

  /** A posting that names a ticket is the posting that ticket was accepted as. */
  ghost predicate SourcesAgree(l: Ledger, tickets: map<string, Ticket>) {
    forall i | 0 <= i < |l.postings| && l.postings[i].source.Some? ::
      var id := l.postings[i].source.value;
      id in tickets && id in l.outcomes && l.outcomes[id] == Accepted(i)
  }

  ghost predicate MoneyAgrees(seed: Shop, shop: Shop, l: Ledger) {
    && shop.price == seed.price && shop.defaultWallet == seed.defaultWallet
    && shop.stock == l.stock
    && forall uid :: Balance(shop, uid) == Funds(seed, l, uid)
  }

  ghost predicate TicketsAgree(seed: Shop, tickets: map<string, Ticket>, l: Ledger) {
    && l.outcomes.Keys <= tickets.Keys
    && (forall id | id in tickets :: TicketAgrees(seed, l, id, tickets[id]))
    && SourcesAgree(l, tickets)
  }

  ghost predicate Agrees(seed: Shop, shop: Shop, l: Ledger) {
    MoneyAgrees(seed, shop, l) && OrdersAgree(seed, shop.orders, l.postings) && TicketsAgree(seed, shop.tickets, l)
  }

  lemma ChargedAppend(postings: seq<Posting>, p: Posting, uid: string)
    ensures Charged(postings + [p], uid) == Charged(postings, uid) + if p.row.uid == uid then p.charge else 0
  {
    assert (postings + [p])[..|postings|] == postings;
  }

  lemma OrdersAgreeAppend(seed: Shop, orders: seq<Order>, postings: seq<Posting>, p: Posting)
    requires OrdersAgree(seed, orders, postings)
    requires p.row.id == OrderId(|seed.orders| + |postings| + 1)
    ensures OrdersAgree(seed, [p.row] + orders, postings + [p])
  {
    hide OrderId;
    var orders', postings' := [p.row] + orders, postings + [p];
    assert orders'[|postings'|..] == orders[|postings|..];
    forall i | 0 <= i < |postings'|
      ensures orders'[|postings'| - 1 - i] == postings'[i].row && postings'[i].row.id == OrderId(|seed.orders| + i + 1)
    {
      if i < |postings| {
        assert orders'[|postings'| - 1 - i] == orders[|postings| - 1 - i];
      }
    }
  }

  lemma BalanceAfterWallet(shop: Shop, uid: string, other: string)
    ensures Balance(WithWallet(shop, uid), other) == Balance(shop, other)
  {
    WalletKeyInjective(uid, other);
  }

  lemma BalanceAfterDebit(shop: Shop, wallets: map<string, int>, uid: string, amount: int, other: string)
    requires wallets == WithWallet(shop, uid).wallets[WalletKey(uid) := amount]
    ensures Balance(shop.(wallets := wallets), other) == if other == uid then amount else Balance(shop, other)
  {
    WalletKeyInjective(uid, other);
  }

  /** Same stock, orders and balances, tickets that changed only while active: still the same ledger. */
  lemma QuietStep(seed: Shop, shop: Shop, shop': Shop, l: Ledger)
    requires Agrees(seed, shop, l)
    requires shop'.price == shop.price && shop'.defaultWallet == shop.defaultWallet && shop'.stock == shop.stock
    requires shop'.orders == shop.orders
    requires forall uid :: Balance(shop', uid) == Balance(shop, uid)
    requires shop.tickets.Keys <= shop'.tickets.Keys
    requires forall id | id in shop'.tickets ::
               if id in shop.tickets && !Active(shop.tickets[id]) then shop'.tickets[id] == shop.tickets[id]
               else Active(shop'.tickets[id])
    ensures Agrees(seed, shop', l)
  {
    forall id | id in shop'.tickets
      ensures TicketAgrees(seed, l, id, shop'.tickets[id])
    {
      if id in shop.tickets {
        assert TicketAgrees(seed, l, id, shop.tickets[id]);
      }
    }
  }

  lemma EnqueueAgrees(seed: Shop, s: Sys, l: Label, ledger: Ledger)
    requires Inv(s) && Agrees(seed, s.shop, ledger) && l.Enqueue?
    ensures Agrees(seed, Next(s, l).shop, ledger)
  {
    FreshTicketId(s);
    hide TicketId, Inv, Agrees, Trim, WalletKey;
    var shop' := Next(s, l).shop;
    if ValidPurchase(l.sku, l.quantity) {
      forall uid ensures Balance(shop', uid) == Balance(s.shop, uid) {
        BalanceAfterWallet(s.shop, l.uid, uid);
        assert Balance(shop', uid) == Balance(WithWallet(s.shop, l.uid), uid);
      }
      QuietStep(seed, s.shop, shop', ledger);
    }
  }

  lemma ClaimAgrees(seed: Shop, s: Sys, l: Label, ledger: Ledger)
    requires Inv(s) && Enabled(s, l) && Agrees(seed, s.shop, ledger) && l.Claim?
    ensures Agrees(seed, Next(s, l).shop, ledger)
  {
    hide TicketId, OrderId, WalletKey;
    var shop' := Next(s, l).shop;
    assert TicketOk(l.id, s.shop.tickets[l.id], s.shop.nextTicketId, s.threads[l.id]);
    assert forall uid :: Balance(shop', uid) == Balance(s.shop, uid);
    QuietStep(seed, s.shop, shop', ledger);
  }

  lemma RowStepAgrees(seed: Shop, shop: Shop, shop': Shop, l: Ledger, p: Posting)
    requires Agrees(seed, shop, l) && p.source == None && p.charge == 0 && p.row.id == NextOrderId(seed, l)
    requires shop' == shop.(orders := [p.row] + shop.orders)
    ensures Agrees(seed, shop', l.(postings := l.postings + [p]))
  {
    var l' := l.(postings := l.postings + [p]);
    OrdersAgreeAppend(seed, shop.orders, l.postings, p);
    forall uid ensures Balance(shop', uid) == Funds(seed, l', uid) {
      ChargedAppend(l.postings, p, uid);
      assert Balance(shop', uid) == Balance(shop, uid);
    }
    forall id | id in shop'.tickets ensures TicketAgrees(seed, l', id, shop'.tickets[id]) {
      assert TicketAgrees(seed, l, id, shop.tickets[id]);
    }
  }

  lemma RefusedMoney(seed: Shop, shop: Shop, shop': Shop, l: Ledger, uid: string, outcomes: map<string, Outcome>)
    requires MoneyAgrees(seed, shop, l) && shop' == WithWallet(shop, uid).(tickets := shop'.tickets)
    ensures MoneyAgrees(seed, shop', l.(outcomes := outcomes))
  {
    hide WalletKey, Charged;
    forall other ensures Balance(shop', other) == Funds(seed, l.(outcomes := outcomes), other) {
      BalanceAfterWallet(shop, uid, other);
      assert Balance(shop', other) == Balance(WithWallet(shop, uid), other);
    }
  }

  lemma RefusedTickets(seed: Shop, tickets: map<string, Ticket>, l: Ledger, id: string, t': Ticket)
    requires TicketsAgree(seed, tickets, l) && id in tickets && Active(tickets[id]) && t'.status == Failed
    ensures TicketsAgree(seed, tickets[id := t'], l.(outcomes := l.outcomes[id := Refused(t'.message)]))
  {
    var l' := l.(outcomes := l.outcomes[id := Refused(t'.message)]);
    assert TicketAgrees(seed, l, id, tickets[id]);
    forall other | other in tickets ensures TicketAgrees(seed, l', other, tickets[id := t'][other]) {
      assert TicketAgrees(seed, l, other, tickets[other]);
    }
  }

  lemma RefusedAgrees(seed: Shop, shop: Shop, shop': Shop, l: Ledger, id: string, t': Ticket, reason: Notice)
    requires Agrees(seed, shop, l) && id in shop.tickets && Active(shop.tickets[id])
    requires shop' == WithWallet(shop, shop.tickets[id].uid).(tickets := shop.tickets[id := t'])
    requires t'.status == Failed && t'.message == reason
    ensures Agrees(seed, shop', l.(outcomes := l.outcomes[id := Refused(reason)]))
  {
    hide MoneyAgrees, TicketsAgree, OrdersAgree;
    RefusedMoney(seed, shop, shop', l, shop.tickets[id].uid, l.outcomes[id := Refused(reason)]);
    RefusedTickets(seed, shop.tickets, l, id, t');
  }

  /** What an accepted settlement of ticket `id` does to the shop, `p` being the row it inserts. */
  ghost predicate AcceptedStep(seed: Shop, shop: Shop, shop': Shop, l: Ledger, id: string, p: Posting)
    requires id in shop.tickets
  {
    var t := shop.tickets[id];
    && p.source == Some(id) && p.charge == seed.price * t.quantity
    && p.row == Order(NextOrderId(seed, l), t.uid, t.sku, QUEUED_CONFIRMED, t.quantity, p.row.createdAt)
    && shop'.price == shop.price && shop'.defaultWallet == shop.defaultWallet
    && shop'.stock == shop.stock - t.quantity
    && shop'.wallets == WithWallet(shop, t.uid).wallets[WalletKey(t.uid) := Balance(shop, t.uid) - p.charge]
    && shop'.orders == [p.row] + shop.orders
    && shop'.tickets.Keys == shop.tickets.Keys
    && (forall other | other in shop.tickets && other != id :: shop'.tickets[other] == shop.tickets[other])
    && var t' := shop'.tickets[id];
    && t'.status == Completed && t'.orderId == Some(p.row.id)
    && t'.uid == t.uid && t'.sku == t.sku && t'.quantity == t.quantity
  }

  function Accept(l: Ledger, id: string, quantity: int, p: Posting): Ledger {
    Ledger(l.stock - quantity, l.postings + [p], l.outcomes[id := Accepted(|l.postings|)])
  }

  lemma AcceptedFunds(seed: Shop, shop: Shop, shop': Shop, l: Ledger, id: string, p: Posting, uid: string)
    requires id in shop.tickets && AcceptedStep(seed, shop, shop', l, id, p)
    requires Balance(shop, uid) == Funds(seed, l, uid)
    ensures Balance(shop', uid) == Funds(seed, Accept(l, id, shop.tickets[id].quantity, p), uid)
  {
    var t := shop.tickets[id];
    ChargedAppend(l.postings, p, uid);
    BalanceAfterDebit(shop, shop'.wallets, t.uid, Balance(shop, t.uid) - p.charge, uid);
    assert Balance(shop', uid) == Balance(shop.(wallets := shop'.wallets), uid);
  }

  lemma AcceptedTicket(seed: Shop, shop: Shop, shop': Shop, l: Ledger, id: string, p: Posting, other: string)
    requires id in shop.tickets && AcceptedStep(seed, shop, shop', l, id, p)
    requires other in shop.tickets && TicketAgrees(seed, l, other, shop.tickets[other])
    ensures TicketAgrees(seed, Accept(l, id, shop.tickets[id].quantity, p), other, shop'.tickets[other])
  {
  }

  lemma AcceptedTickets(seed: Shop, shop: Shop, shop': Shop, l: Ledger, id: string, p: Posting)
    requires TicketsAgree(seed, shop.tickets, l) && id in shop.tickets && Active(shop.tickets[id])
    requires AcceptedStep(seed, shop, shop', l, id, p)
    ensures TicketsAgree(seed, shop'.tickets, Accept(l, id, shop.tickets[id].quantity, p))
  {
    var l' := Accept(l, id, shop.tickets[id].quantity, p);
    assert TicketAgrees(seed, l, id, shop.tickets[id]);
    forall other | other in shop'.tickets ensures TicketAgrees(seed, l', other, shop'.tickets[other]) {
      AcceptedTicket(seed, shop, shop', l, id, p, other);
    }
    forall i | 0 <= i < |l'.postings| && l'.postings[i].source.Some?
      ensures var source := l'.postings[i].source.value;
              source in shop'.tickets && source in l'.outcomes && l'.outcomes[source] == Accepted(i)
    {
      assert i < |l.postings| ==> l.postings[i] == l'.postings[i];
    }
  }

  lemma AcceptedAgrees(seed: Shop, shop: Shop, shop': Shop, l: Ledger, id: string, p: Posting)
    requires Agrees(seed, shop, l) && id in shop.tickets && Active(shop.tickets[id])
    requires AcceptedStep(seed, shop, shop', l, id, p)
    ensures Agrees(seed, shop', Accept(l, id, shop.tickets[id].quantity, p))
  {
    AcceptedTickets(seed, shop, shop', l, id, p);
    OrdersAgreeAppend(seed, shop.orders, l.postings, p);
    hide TicketsAgree, OrdersAgree;
    forall uid ensures Balance(shop', uid) == Funds(seed, Accept(l, id, shop.tickets[id].quantity, p), uid) {
      AcceptedFunds(seed, shop, shop', l, id, p, uid);
    }
  }

  lemma SettleIsAcceptedStep(seed: Shop, shop: Shop, l: Ledger, id: string, now: string)
    requires id in shop.tickets && Verdict(shop, id).None?
    requires shop.price == seed.price && |shop.orders| == |seed.orders| + |l.postings|
    ensures var t := shop.tickets[id];
            AcceptedStep(seed, shop, AfterSettle(shop, id, now), l, id,
                         Posting(Some(id), Order(NextOrderId(seed, l), t.uid, t.sku, QUEUED_CONFIRMED, t.quantity, now),
                                 seed.price * t.quantity))
  {
  }

  lemma SettleRefused(seed: Shop, shop: Shop, id: string, now: string, ledger: Ledger)
    requires Agrees(seed, shop, ledger) && id in shop.tickets && Active(shop.tickets[id])
    requires Verdict(shop, id).Some?
    ensures Agrees(seed, AfterSettle(shop, id, now),
                   ledger.(outcomes := ledger.outcomes[id := Refused(Verdict(shop, id).value)]))
  {
    RefusedAgrees(seed, shop, AfterSettle(shop, id, now), ledger, id, TicketAfterSettle(shop, id, now),
                  Verdict(shop, id).value);
  }

  /** The ledger refuses and accepts a purchase on the same grounds as the settlement does. */
  lemma SameVerdict(seed: Shop, shop: Shop, id: string, now: string, ledger: Ledger)
    requires Agrees(seed, shop, ledger) && id in shop.tickets
    ensures var t := shop.tickets[id];
            var row := Order(NextOrderId(seed, ledger), t.uid, t.sku, QUEUED_CONFIRMED, t.quantity, now);
            Post(seed, ledger, Purchase(id, t.uid, t.sku, t.quantity, now)) ==
            match Verdict(shop, id)
            case Some(reason) => ledger.(outcomes := ledger.outcomes[id := Refused(reason)])
            case None => Accept(ledger, id, t.quantity, Posting(Some(id), row, seed.price * t.quantity))
  {
    assert Balance(shop, shop.tickets[id].uid) == Funds(seed, ledger, shop.tickets[id].uid);
  }

  lemma SettleAgrees(seed: Shop, shop: Shop, id: string, now: string, ledger: Ledger)
    requires Agrees(seed, shop, ledger) && id in shop.tickets && Active(shop.tickets[id])
    ensures var t := shop.tickets[id];
            Agrees(seed, AfterSettle(shop, id, now), Post(seed, ledger, Purchase(id, t.uid, t.sku, t.quantity, now)))
  {
    SameVerdict(seed, shop, id, now, ledger);
    var t := shop.tickets[id];
    if Verdict(shop, id).Some? {
      SettleRefused(seed, shop, id, now, ledger);
    } else {
      SettleIsAcceptedStep(seed, shop, ledger, id, now);
      hide AfterSettle, Post;
      var row := Order(NextOrderId(seed, ledger), t.uid, t.sku, QUEUED_CONFIRMED, t.quantity, now);
      AcceptedAgrees(seed, shop, AfterSettle(shop, id, now), ledger, id,
                     Posting(Some(id), row, seed.price * t.quantity));
    }
  }

  ghost predicate Synced(seed: Shop, s: Sys, l: Ledger) {
    Inv(s) && Agrees(seed, s.shop, l)
  }

  ghost predicate InStep(seed: Shop, s: Sys, l: Ledger) {
    Agrees(seed, s.shop, l)
  }

  function PostAll(seed: Shop, l: Ledger, entries: seq<Entry>): Ledger {
    if entries == [] then l else Post(seed, l, entries[0])
  }

  lemma BooksAppend(seed: Shop, entries: seq<Entry>, more: seq<Entry>)
    requires |more| <= 1
    ensures Books(seed, entries + more) == PostAll(seed, Books(seed, entries), more)
  {
    hide Post;
    if more == [] {
      assert entries + more == entries;
    } else {
      assert (entries + more)[..|entries|] == entries;
    }
  }

  lemma QuietCommits(seed: Shop, s: Sys, l: Label, ledger: Ledger)
    requires Synced(seed, s, ledger) && Enabled(s, l) && (l.Enqueue? || l.Claim?)
    ensures InStep(seed, Next(s, l), PostAll(seed, ledger, Committed(s, l)))
  {
    hide Inv, Agrees, Next, Post;
    if l.Enqueue? {
      EnqueueAgrees(seed, s, l, ledger);
    } else {
      ClaimAgrees(seed, s, l, ledger);
    }
  }

  lemma ActiveWhenEnabled(s: Sys, id: string, now: string)
    requires Inv(s) && Enabled(s, Settle(id, now))
    ensures id in s.shop.tickets && Active(s.shop.tickets[id])
  {
    assert TicketOk(id, s.shop.tickets[id], s.shop.nextTicketId, s.threads[id]);
  }

  lemma SettleCommits(seed: Shop, s: Sys, id: string, now: string, ledger: Ledger)
    requires Synced(seed, s, ledger) && Enabled(s, Settle(id, now))
    ensures InStep(seed, Next(s, Settle(id, now)), PostAll(seed, ledger, Committed(s, Settle(id, now))))
  {
    hide Inv, Agrees, AfterSettle, Post;
    ActiveWhenEnabled(s, id, now);
    SettleAgrees(seed, s.shop, id, now, ledger);
  }

  lemma AdjustCommits(seed: Shop, s: Sys, amount: int, ledger: Ledger)
    requires Synced(seed, s, ledger)
    ensures InStep(seed, Next(s, Decr(amount)), PostAll(seed, ledger, Committed(s, Decr(amount))))
  {
    hide Inv, Agrees, AfterDecr, Post;
    AdjustAgrees(seed, s.shop, ledger, amount);
  }

  lemma CreateCommits(seed: Shop, s: Sys, l: Label, ledger: Ledger)
    requires Synced(seed, s, ledger) && l.Create?
    ensures InStep(seed, Next(s, l), PostAll(seed, ledger, Committed(s, l)))
  {
    AgreesOrders(seed, s.shop, ledger);
    OrdersAgreeLength(seed, s.shop.orders, ledger.postings);
    hide Inv, Agrees, OrderId, OrdersAgree;
    RowStepAgrees(seed, s.shop, Next(s, l).shop, ledger,
                  Posting(None, Order(NextOrderId(seed, ledger), l.uid, l.sku, l.status, l.quantity, l.now), 0));
  }

  lemma StepAgrees(seed: Shop, s: Sys, l: Label, entries: seq<Entry>)
    requires Synced(seed, s, Books(seed, entries)) && Enabled(s, l)
    ensures InStep(seed, Next(s, l), Books(seed, entries + Committed(s, l)))
  {
    hide Inv, Agrees, Next, Synced, InStep, Post;
    var ledger := Books(seed, entries);
    BooksAppend(seed, entries, Committed(s, l));
    hide Committed, Books, PostAll;
    match l {
      case Settle(id, now) => SettleCommits(seed, s, id, now, ledger);
      case Decr(amount) => AdjustCommits(seed, s, amount, ledger);
      case Create(_, _, _, _, _) => CreateCommits(seed, s, l, ledger);
      case _ => QuietCommits(seed, s, l, ledger);
    }
  }

  lemma AdjustAgrees(seed: Shop, shop: Shop, l: Ledger, amount: int)
    requires Agrees(seed, shop, l)
    ensures Agrees(seed, AfterDecr(shop, amount), Post(seed, l, Adjust(amount)))
  {
    var shop', l' := AfterDecr(shop, amount), Post(seed, l, Adjust(amount));
    assert forall uid :: Balance(shop', uid) == Balance(shop, uid);
    forall id | id in shop'.tickets ensures TicketAgrees(seed, l', id, shop'.tickets[id]) {
      assert TicketAgrees(seed, l, id, shop.tickets[id]);
    }
  }

  /**
   Serializability: whatever the interleaving of any number of ticket threads with enqueues,
   decrements and order inserts, the stock, every balance, the order table and every ticket's
   outcome are those of the one-at-a-time ledger run over the journal.
   */
  lemma {:induction false} EveryInterleavingIsALedgerRun(seed: Shop, labels: seq<Label>, s: Sys)
    requires Reachable(seed, labels, s)
    ensures Agrees(seed, s.shop, Books(seed, Journal(Start(seed), labels)))
  {
    if labels != [] {
      var n := |labels| - 1;
      var mid := Exec(Start(seed), labels[..n]).value;
      EveryInterleavingIsALedgerRun(seed, labels[..n], mid);
      InvReachable(seed, labels[..n], mid);
      hide Agrees, Inv, Next, Books, Enabled;
      StepAgrees(seed, mid, labels[n], Journal(Start(seed), labels[..n]));
    }
  }

  // ---- what the ledger gives: one order per completed ticket ----

  /** Distinct completed tickets hold distinct order ids, each the id of its own row. */
  lemma CompletedTicketsOwnDistinctOrders(seed: Shop, labels: seq<Label>, s: Sys, a: string, b: string)
    requires Reachable(seed, labels, s)
    requires a in s.shop.tickets && s.shop.tickets[a].status == Completed
    requires b in s.shop.tickets && s.shop.tickets[b].status == Completed
    ensures s.shop.tickets[a].orderId == s.shop.tickets[b].orderId ==> a == b
    ensures exists j :: 0 <= j < |s.shop.orders| - |seed.orders| && Some(s.shop.orders[j].id) == s.shop.tickets[a].orderId
                        && s.shop.orders[j].uid == s.shop.tickets[a].uid
                        && s.shop.orders[j].quantity == s.shop.tickets[a].quantity
  {
    hide OrderId, Exec, Journal, Books;
    var l := Books(seed, Journal(Start(seed), labels));
    EveryInterleavingIsALedgerRun(seed, labels, s);
    assert TicketAgrees(seed, l, a, s.shop.tickets[a]) && TicketAgrees(seed, l, b, s.shop.tickets[b]);
    var i, j := l.outcomes[a].posting, l.outcomes[b].posting;
    assert l.postings[i].row.id == OrderId(|seed.orders| + i + 1) && l.postings[j].row.id == OrderId(|seed.orders| + j + 1);
    OrderIdInjective(|seed.orders| + i + 1, |seed.orders| + j + 1);
    assert s.shop.orders[|l.postings| - 1 - i] == l.postings[i].row;
  }

  /** Row `i` of the order table, counted from the newest, is posting `|postings| - 1 - i`. */
  lemma InsertedRow(seed: Shop, orders: seq<Order>, postings: seq<Posting>, i: nat)
    requires OrdersAgree(seed, orders, postings) && i < |postings|
    ensures orders[i] == postings[|postings| - 1 - i].row
    ensures orders[i].id == OrderId(|orders| - i)
  {
    var k := |postings| - 1 - i;
    assert orders[|postings| - 1 - k] == postings[k].row;
  }

  /** A ticket's order id, if it has one, is that of the posting it was accepted as. */
  lemma TicketOrder(seed: Shop, orders: seq<Order>, l: Ledger, id: string, t: Ticket, i: nat)
    requires OrdersAgree(seed, orders, l.postings) && TicketAgrees(seed, l, id, t)
    requires t.status == Completed && i < |l.postings| && t.orderId == Some(l.postings[i].row.id)
    ensures l.postings[i].source == Some(id)
  {
    hide OrderId;
    var m := l.outcomes[id].posting;
    assert l.postings[m].row.id == OrderId(|seed.orders| + m + 1);
    assert l.postings[i].row.id == OrderId(|seed.orders| + i + 1);
    OrderIdInjective(|seed.orders| + m + 1, |seed.orders| + i + 1);
  }

  lemma OnlyCompletedHoldOrders(s: Sys, id: string)
    requires Inv(s) && id in s.shop.tickets && s.shop.tickets[id].orderId.Some?
    ensures s.shop.tickets[id].status == Completed
  {
    assert TicketOk(id, s.shop.tickets[id], s.shop.nextTicketId, s.threads[id]);
  }

  lemma SourceIsCompleted(seed: Shop, shop: Shop, l: Ledger, i: nat)
    requires Agrees(seed, shop, l) && i < |l.postings| && l.postings[i].source.Some?
    ensures var id := l.postings[i].source.value;
            && id in shop.tickets && shop.tickets[id].status == Completed
            && shop.tickets[id].orderId == Some(l.postings[i].row.id)
  {
    var id := l.postings[i].source.value;
    assert id in shop.tickets && l.outcomes[id] == Accepted(i);
    assert TicketAgrees(seed, l, id, shop.tickets[id]);
  }

  /** A ticket holds row `i`'s id exactly when it is the ticket that posting names as its source. */
  lemma OwnsRowIff(seed: Shop, s: Sys, l: Ledger, i: nat, id: string)
    requires Inv(s) && Agrees(seed, s.shop, l) && i < |l.postings| && id in s.shop.tickets
    ensures s.shop.tickets[id].orderId == Some(l.postings[i].row.id) <==> l.postings[i].source == Some(id)
  {
    if s.shop.tickets[id].orderId == Some(l.postings[i].row.id) {
      OnlyCompletedHoldOrders(s, id);
      AgreesOrders(seed, s.shop, l);
      AgreesTicket(seed, s.shop, l, id);
      hide Agrees, Inv;
      TicketOrder(seed, s.shop.orders, l, id, s.shop.tickets[id], i);
    } else if l.postings[i].source == Some(id) {
      SourceIsCompleted(seed, s.shop, l, i);
    }
  }

  /** Row `i` of the order table, counted from the newest, and posting `m` are the same insertion. */
  lemma RowIsPosting(seed: Shop, s: Sys, l: Ledger, i: nat, m: int)
    requires Agrees(seed, s.shop, l) && i < |l.postings| && m == |l.postings| - 1 - i
    ensures |s.shop.orders| == |seed.orders| + |l.postings|
    ensures i < |s.shop.orders| && s.shop.orders[i].id == OrderId(|s.shop.orders| - i) == l.postings[m].row.id
  {
    hide OrderId;
    AgreesOrders(seed, s.shop, l);
    hide Agrees;
    InsertedRow(seed, s.shop.orders, l.postings, i);
  }

  /** Every inserted row was either written by `orders.create` or belongs to exactly one completed ticket. */
  lemma InsertedOrdersBelongToOneTicket(seed: Shop, labels: seq<Label>, s: Sys, i: nat) returns (source: Option<string>)
    requires Reachable(seed, labels, s)
    requires i < |s.shop.orders| - |seed.orders|
    ensures s.shop.orders[i].id == OrderId(|s.shop.orders| - i)
    ensures source.Some? ==>
              source.value in s.shop.tickets && s.shop.tickets[source.value].status == Completed
    ensures forall id | id in s.shop.tickets ::
              s.shop.tickets[id].orderId == Some(s.shop.orders[i].id) <==> source == Some(id)
  {
    hide OrderId, Inv, Books, Journal, Exec, OrdersAgree, Agrees;
    var l := Books(seed, Journal(Start(seed), labels));
    EveryInterleavingIsALedgerRun(seed, labels, s);
    InvReachable(seed, labels, s);
    AgreesOrders(seed, s.shop, l);
    OrdersAgreeLength(seed, s.shop.orders, l.postings);
    var m := |l.postings| - 1 - i;
    RowIsPosting(seed, s, l, i, m);
    source := l.postings[m].source;
    if source.Some? {
      SourceIsCompleted(seed, s.shop, l, m);
    }
    forall id | id in s.shop.tickets
      ensures s.shop.tickets[id].orderId == Some(s.shop.orders[i].id) <==> source == Some(id)
    {
      OwnsRowIff(seed, s, l, m, id);
    }
  }

  lemma OrdersAgreeLength(seed: Shop, orders: seq<Order>, postings: seq<Posting>)
    requires OrdersAgree(seed, orders, postings)
    ensures |orders| == |seed.orders| + |postings|
  {
  }

  lemma AgreesOrders(seed: Shop, shop: Shop, l: Ledger)
    requires Agrees(seed, shop, l)
    ensures OrdersAgree(seed, shop.orders, l.postings)
  {
  }

  lemma AgreesTicket(seed: Shop, shop: Shop, l: Ledger, id: string)
    requires Agrees(seed, shop, l) && id in shop.tickets
    ensures TicketAgrees(seed, l, id, shop.tickets[id])
  {
  }

  /** No seed row carries an id that insertions will hand out. */
  ghost predicate SeedIdsBelow(seed: Shop) {
    forall i, k: nat | 0 <= i < |seed.orders| && k > |seed.orders| :: seed.orders[i].id != OrderId(k)
  }

  ghost predicate InsertedIdsFresh(seed: Shop, orders: seq<Order>) {
    forall i, j | 0 <= i < |orders| - |seed.orders| && 0 <= j < |orders| && orders[i].id == orders[j].id :: i == j
  }

  function Creates(k: nat): seq<Label> {
    seq(k, _ => Create("", "", 0, "", ""))
  }

  lemma {:induction false} CreatesRun(seed: Shop, k: nat)
    requires IsSeed(seed)
    ensures Exec(Start(seed), Creates(k)).Some?
    ensures |Exec(Start(seed), Creates(k)).value.shop.orders| == |seed.orders| + k
  {
    if k > 0 {
      assert Creates(k)[..k - 1] == Creates(k - 1);
      CreatesRun(seed, k - 1);
    }
  }

  lemma SeedRow(seed: Shop, orders: seq<Order>, postings: seq<Posting>, j: nat)
    requires OrdersAgree(seed, orders, postings) && j < |seed.orders|
    ensures orders[|postings| + j] == seed.orders[j]
  {
    assert orders[|postings| + j] == orders[|postings|..][j];
  }

  lemma RowIdsDiffer(seed: Shop, orders: seq<Order>, postings: seq<Posting>, i: nat, j: nat)
    requires OrdersAgree(seed, orders, postings) && SeedIdsBelow(seed)
    requires i < |postings| && j < |orders| && i != j
    ensures orders[i].id != orders[j].id
  {
    hide OrderId;
    InsertedRow(seed, orders, postings, i);
    if j < |postings| {
      InsertedRow(seed, orders, postings, j);
      OrderIdInjective(|orders| - i, |orders| - j);
    } else {
      SeedRow(seed, orders, postings, j - |postings|);
    }
  }

  lemma FreshWhenSeedIdsBelow(seed: Shop, orders: seq<Order>, postings: seq<Posting>)
    requires OrdersAgree(seed, orders, postings) && SeedIdsBelow(seed)
    ensures InsertedIdsFresh(seed, orders)
  {
    assert |orders| == |seed.orders| + |postings|;
    hide OrdersAgree, SeedIdsBelow;
    forall i, j | 0 <= i < |orders| - |seed.orders| && 0 <= j < |orders| && i != j
      ensures orders[i].id != orders[j].id
    {
      RowIdsDiffer(seed, orders, postings, i, j);
    }
  }

  lemma SameIdTwice(seed: Shop, orders: seq<Order>, postings: seq<Posting>, i: nat, k: nat)
    requires OrdersAgree(seed, orders, postings) && |orders| == k > |seed.orders|
    requires i < |seed.orders| && seed.orders[i].id == OrderId(k)
    ensures !InsertedIdsFresh(seed, orders)
  {
    hide OrderId;
    InsertedRow(seed, orders, postings, 0);
    SeedRow(seed, orders, postings, i);
    assert orders[0].id == orders[|postings| + i].id;
  }

  /** A run that inserts orders up to the taken id ends with that id twice in the table. */
  lemma TakenIdComesTwice(seed: Shop, i: nat, k: nat) returns (labels: seq<Label>, s: Sys)
    requires IsSeed(seed) && i < |seed.orders| && k > |seed.orders| && seed.orders[i].id == OrderId(k)
    ensures Reachable(seed, labels, s) && !InsertedIdsFresh(seed, s.shop.orders)
  {
    hide OrderId, Books, Journal, Agrees, OrdersAgree, InsertedIdsFresh, Inv;
    labels := Creates(k - |seed.orders|);
    CreatesRun(seed, k - |seed.orders|);
    hide Creates, Exec;
    s := Exec(Start(seed), labels).value;
    EveryInterleavingIsALedgerRun(seed, labels, s);
    var l := Books(seed, Journal(Start(seed), labels));
    AgreesOrders(seed, s.shop, l);
    SameIdTwice(seed, s.shop.orders, l.postings, i, k);
  }

  lemma FreshInEveryRun(seed: Shop, labels: seq<Label>, s: Sys)
    requires SeedIdsBelow(seed) && Reachable(seed, labels, s)
    ensures InsertedIdsFresh(seed, s.shop.orders)
  {
    EveryInterleavingIsALedgerRun(seed, labels, s);
    var l := Books(seed, Journal(Start(seed), labels));
    AgreesOrders(seed, s.shop, l);
    hide OrdersAgree, SeedIdsBelow, InsertedIdsFresh, Books, Journal, Agrees;
    FreshWhenSeedIdsBelow(seed, s.shop.orders, l.postings);
  }

  /**
   Inserted orders get ids no other row has, in every run, exactly when no seed row already carries
   `ord_k` for a `k` above the number of seed rows.
   */
  lemma InsertedIdsFreshIff(seed: Shop)
    requires IsSeed(seed)
    ensures SeedIdsBelow(seed) <==>
            forall labels, s | Reachable(seed, labels, s) :: InsertedIdsFresh(seed, s.shop.orders)
  {
    hide OrderId, Reachable, InsertedIdsFresh;
    if SeedIdsBelow(seed) {
      forall labels, s | Reachable(seed, labels, s) ensures InsertedIdsFresh(seed, s.shop.orders) {
        FreshInEveryRun(seed, labels, s);
      }
    } else {
      var i, k: nat :| 0 <= i < |seed.orders| && k > |seed.orders| && seed.orders[i].id == OrderId(k);
      var labels, s := TakenIdComesTwice(seed, i, k);
    }
  }
}
