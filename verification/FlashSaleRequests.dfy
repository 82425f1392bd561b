/**
 What a flash-sale run was asked for, read off its labels alone, and where that ends up: on the tickets, in the
 ledger, in the order rows.
 */
module FlashSaleRequests {
  import opened Wrappers
  import opened Text
  import opened FlashSale
  import opened FlashSaleProtocol
  import opened FlashSaleLedger

  datatype Asked = Asked(uid: string, sku: string, quantity: int, at: string)

  /** The purchases a run accepts, in order. */
  function Requests(labels: seq<Label>): seq<Asked> {
    if labels == [] then []
    else
      var n := |labels| - 1;
      Requests(labels[..n]) +
      match labels[n]
      case Enqueue(uid, sku, quantity, now) =>
        if Trim(sku) != [] && quantity > 0 then [Asked(uid, sku, quantity, now)] else []
      case _ => []
  }

  /** Ticket number `k` is for request number `k`. */
  predicate IsFor(t: Ticket, asked: Asked, k: nat) {
    && t.sequence == k
    && t.uid == asked.uid && t.sku == asked.sku && t.quantity == asked.quantity && t.createdAt == asked.at
  }

  ghost predicate Carries(shop: Shop, requests: seq<Asked>) {
    && shop.nextTicketId == |requests| + 1
    && forall k: nat | 1 <= k <= |requests| ::
         TicketId(k) in shop.tickets && IsFor(shop.tickets[TicketId(k)], requests[k - 1], k)
  }

  lemma EnqueueCarries(s: Sys, uid: string, sku: string, quantity: int, now: string, requests: seq<Asked>)
    requires Inv(s) && Carries(s.shop, requests) && Trim(sku) != [] && quantity > 0
    ensures Carries(AfterEnqueue(s.shop, uid, sku, quantity, now), requests + [Asked(uid, sku, quantity, now)])
  {
    hide TicketId, Inv, Trim, WithWallet;
    var n := s.shop.nextTicketId;
    FreshTicketId(s);
    var shop := AfterEnqueue(s.shop, uid, sku, quantity, now);
    var asked := requests + [Asked(uid, sku, quantity, now)];
    forall k: nat | 1 <= k <= |asked|
      ensures TicketId(k) in shop.tickets && IsFor(shop.tickets[TicketId(k)], asked[k - 1], k)
    {
      if k < n {
        assert TicketId(k) in s.shop.tickets && asked[k - 1] == requests[k - 1];
      }
    }
  }

  lemma OtherCarries(s: Sys, l: Label, requests: seq<Asked>)
    requires Inv(s) && Enabled(s, l) && Carries(s.shop, requests)
    requires !l.Enqueue? || Trim(l.sku) == [] || l.quantity <= 0
    ensures Carries(Next(s, l).shop, requests)
  {
    forall k: nat | 1 <= k <= |requests|
      ensures TicketId(k) in Next(s, l).shop.tickets && IsFor(Next(s, l).shop.tickets[TicketId(k)], requests[k - 1], k)
    {
      TicketsPersist(s, l, TicketId(k));
    }
    hide TicketId, OrderId, Inv, WalletKey, Trim;
  }

  /** In every reachable state ticket `k` carries the buyer, item, quantity and time of the `k`-th accepted request. */
  lemma {:induction false} TicketsCarryTheirRequests(seed: Shop, labels: seq<Label>, s: Sys)
    requires Reachable(seed, labels, s)
    ensures Carries(s.shop, Requests(labels))
  {
    hide Carries, Next, Inv, Enabled, Trim;
    if labels != [] {
      var n := |labels| - 1;
      var mid := Exec(Start(seed), labels[..n]).value;
      TicketsCarryTheirRequests(seed, labels[..n], mid);
      InvReachable(seed, labels[..n], mid);
      RequestsStep(mid, labels[n], Requests(labels[..n]));
    } else {
      NothingCarried(seed);
    }
  }

  lemma NothingCarried(seed: Shop)
    requires IsSeed(seed)
    ensures Carries(seed, [])
  {
  }

  lemma RequestsStep(s: Sys, l: Label, requests: seq<Asked>)
    requires Inv(s) && Enabled(s, l) && Carries(s.shop, requests)
    ensures Carries(Next(s, l).shop, requests + match l
                                                case Enqueue(uid, sku, quantity, now) =>
                                                  if Trim(sku) != [] && quantity > 0 then [Asked(uid, sku, quantity, now)] else []
                                                case _ => [])
  {
    hide Carries, Inv, AfterEnqueue, AfterClaim, AfterSettle;
    assert requests + [] == requests;
    if l.Enqueue? && Trim(l.sku) != [] && l.quantity > 0 {
      EnqueueCarries(s, l.uid, l.sku, l.quantity, l.now, requests);
    } else {
      OtherCarries(s, l, requests);
    }
  }

  // ---- the ledger's journal, from the labels alone ----

  ghost predicate Numbered(id: string, k: nat) {
    id == TicketId(k)
  }

  /** The entries of a run: a settlement is a purchase of what the ticket's number was asked for. */
  ghost function LabelJournal(labels: seq<Label>): seq<Entry> {
    if labels == [] then []
    else
      var n := |labels| - 1;
      LabelJournal(labels[..n]) + LabelEntries(Requests(labels[..n]), labels[n])
  }

  ghost function LabelEntries(requests: seq<Asked>, l: Label): seq<Entry> {
    match l
    case Settle(id, now) =>
      if exists k: nat :: 1 <= k <= |requests| && Numbered(id, k) then
        var k: nat :| 1 <= k <= |requests| && Numbered(id, k);
        [Purchase(id, requests[k - 1].uid, requests[k - 1].sku, requests[k - 1].quantity, now)]
      else []
    case Decr(amount) => [Adjust(amount)]
    case Create(uid, sku, quantity, status, now) => [Manual(uid, sku, quantity, status, now)]
    case _ => []
  }

  lemma SameEntries(s: Sys, l: Label, requests: seq<Asked>)
    requires Inv(s) && Enabled(s, l) && Carries(s.shop, requests)
    ensures Committed(s, l) == LabelEntries(requests, l)
  {
    if l.Settle? {
      var t := s.shop.tickets[l.id];
      assert TicketOk(l.id, t, s.shop.nextTicketId, s.threads[l.id]);
      assert Numbered(l.id, t.sequence) && 1 <= t.sequence <= |requests|;
      forall k: nat | Numbered(l.id, k) ensures k == t.sequence {
        TicketIdInjective(k, t.sequence);
      }
      assert IsFor(t, requests[t.sequence - 1], t.sequence);
      hide Inv, Carries, Numbered, TicketId;
    }
  }

  lemma {:induction false} JournalIsFromLabels(seed: Shop, labels: seq<Label>, s: Sys)
    requires Reachable(seed, labels, s)
    ensures Journal(Start(seed), labels) == LabelJournal(labels)
  {
    hide Carries, Next, Inv, Enabled, Requests, Committed, LabelEntries;
    if labels != [] {
      var n := |labels| - 1;
      var mid := Exec(Start(seed), labels[..n]).value;
      JournalIsFromLabels(seed, labels[..n], mid);
      InvReachable(seed, labels[..n], mid);
      TicketsCarryTheirRequests(seed, labels[..n], mid);
      SameEntries(mid, labels[n], Requests(labels[..n]));
    }
  }

  /**
   The outcome of a run follows from its labels: the ledger that is given what was asked for, in the order of the
   settlements, ends with the same stock, balances, order rows and ticket outcomes.
   */
  lemma LabelsDecideTheLedger(seed: Shop, labels: seq<Label>, s: Sys)
    requires Reachable(seed, labels, s)
    ensures Agrees(seed, s.shop, Books(seed, LabelJournal(labels)))
  {
    hide Agrees, Books, Exec, Journal, LabelJournal;
    EveryInterleavingIsALedgerRun(seed, labels, s);
    JournalIsFromLabels(seed, labels, s);
  }

  /** The row a completed ticket was sold for. */
  predicate SoldAs(row: Order, asked: Asked, orderId: Option<string>) {
    && orderId == Some(row.id) && row.uid == asked.uid && row.sku == asked.sku && row.quantity == asked.quantity
    && row.status == "queued-confirmed"
  }

  lemma PostedAs(seed: Shop, shop: Shop, l: Ledger, id: string)
    requires Agrees(seed, shop, l) && id in shop.tickets && shop.tickets[id].status == Completed
    ensures id in l.outcomes && l.outcomes[id].Accepted? && l.outcomes[id].posting < |l.postings|
    ensures var t, m := shop.tickets[id], l.outcomes[id].posting;
            && |l.postings| <= |shop.orders| && shop.orders[|l.postings| - 1 - m] == l.postings[m].row
            && SoldAs(l.postings[m].row, Asked(t.uid, t.sku, t.quantity, t.createdAt), t.orderId)
            && l.postings[m].charge == seed.price * t.quantity
  {
    assert TicketAgrees(seed, l, id, shop.tickets[id]);
    hide TicketsAgree, MoneyAgrees, OrderId;
  }

  /**
   A completed ticket bought what its request asked for: its order row names that buyer, item and quantity, and the
   ledger charged that buyer the price of that quantity.
   */
  lemma CompletedTicketsBoughtWhatWasAsked(seed: Shop, labels: seq<Label>, s: Sys, k: nat)
    requires Reachable(seed, labels, s) && 1 <= k <= |Requests(labels)|
    ensures TicketId(k) in s.shop.tickets
    ensures var (t, asked, l) := (s.shop.tickets[TicketId(k)], Requests(labels)[k - 1], Books(seed, LabelJournal(labels)));
            t.status == Completed ==>
              && t.id in l.outcomes && l.outcomes[t.id].Accepted? && l.outcomes[t.id].posting < |l.postings|
              && var p := l.postings[l.outcomes[t.id].posting];
              && SoldAs(p.row, asked, t.orderId) && p.row in s.shop.orders && p.charge == seed.price * asked.quantity
  {
    TicketsCarryTheirRequests(seed, labels, s);
    LabelsDecideTheLedger(seed, labels, s);
    InvReachable(seed, labels, s);
    var (t, l) := (s.shop.tickets[TicketId(k)], Books(seed, LabelJournal(labels)));
    assert IsFor(t, Requests(labels)[k - 1], k);
    assert TicketOk(TicketId(k), t, s.shop.nextTicketId, s.threads[TicketId(k)]);
    hide Agrees, Exec, Books, LabelJournal, Requests, Inv, TicketId, Carries;
    if t.status == Completed {
      PostedAs(seed, s.shop, l, t.id);
    }
  }

  // ---- positions, by status ----

  /** The active tickets issued before number `k`. */
  ghost function Ahead(shop: Shop, k: nat): set<string> {
    set id | id in shop.tickets && shop.tickets[id].status in {Queued, Processing} && shop.tickets[id].sequence < k
  }

  /**
   A closed ticket reports no position, one that is being processed reports 1, and a queued one reports one more
   than there are active tickets issued before it.
   */
  lemma PositionsByStatus(s: Sys, id: string)
    requires Inv(s) && id in s.shop.tickets
    ensures Position(s.shop.tickets, id) ==
            match s.shop.tickets[id].status
            case Completed => None
            case Failed => None
            case Processing => Some(1)
            case Queued => Some(1 + |Ahead(s.shop, s.shop.tickets[id].sequence)|)
  {
    hide TicketId;
    var t := s.shop.tickets[id];
    forall other | other in s.shop.tickets && s.shop.tickets[other].sequence == t.sequence ensures other == id {
      assert TicketOk(id, t, s.shop.nextTicketId, s.threads[id]);
      assert TicketOk(other, s.shop.tickets[other], s.shop.nextTicketId, s.threads[other]);
    }
    hide Inv;
    if t.status == Queued {
      OneMoreThanAhead(s.shop, id);
    }
  }

  lemma OneMoreThanAhead(shop: Shop, id: string)
    requires id in shop.tickets && shop.tickets[id].status == Queued
    requires forall other | other in shop.tickets && shop.tickets[other].sequence == shop.tickets[id].sequence :: other == id
    ensures |ActiveUpTo(shop.tickets, shop.tickets[id].sequence)| == 1 + |Ahead(shop, shop.tickets[id].sequence)|
  {
    assert ActiveUpTo(shop.tickets, shop.tickets[id].sequence) == Ahead(shop, shop.tickets[id].sequence) + {id};
  }
}
