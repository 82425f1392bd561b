/**
 The flash-sale module: one state behind one mutex, changed in place by HTTP handlers and by one
 worker thread per queue ticket. Each method below is one hold of that mutex.
 */
module FlashSale {
  import opened Wrappers
  import opened Text

  datatype Status = Queued | Processing | Completed | Failed

  /** What a worker reports on a ticket. */
  datatype Notice = Waiting | Reserving | Confirmed | SoldOut | TooPoor

  /** One entry of a ticket's step list, by its role and action. */
  datatype Action =
    | Enqueued | ClaimedByWorker | ReadWallet | ReadStock
    | ReserveStock | DebitWallet | InsertOrder | CompletedByWorker | FailedByWorker

  datatype CollaborationStep = CollaborationStep(action: Action, at: string)

  datatype Order =
    Order(id: string, uid: string, sku: string, status: string, quantity: int, createdAt: string)

  datatype Ticket = Ticket(
    id: string, uid: string, sku: string, quantity: int, sequence: nat, status: Status,
    orderId: Option<string>, message: Notice, createdAt: string, updatedAt: string,
    steps: seq<CollaborationStep>)

  /** What the mutex guards, with the item price and the default wallet balance. */
  datatype Shop = Shop(
    price: int, defaultWallet: int,
    stock: int, wallets: map<string, int>, orders: seq<Order>,
    tickets: map<string, Ticket>, nextTicketId: nat)

  const QUEUED_CONFIRMED := "queued-confirmed"

  function WalletKey(uid: string): string {
    uid + "_wallet"
  }

  function TicketId(sequence: nat): string {
    "ticket_" + Pad4(sequence)
  }

  function OrderId(index: nat): string {
    "ord_" + Pad4(index)
  }

  lemma WalletKeyInjective(a: string, b: string)
    ensures WalletKey(a) == WalletKey(b) ==> a == b
  {
    if WalletKey(a) == WalletKey(b) {
      assert |a| == |b|;
      assert a == WalletKey(a)[..|a|] == WalletKey(b)[..|b|] == b;
    }
  }

  lemma TicketIdInjective(m: nat, n: nat)
    ensures TicketId(m) == TicketId(n) ==> m == n
  {
    if TicketId(m) == TicketId(n) {
      assert Pad4(m) == TicketId(m)[7..] == TicketId(n)[7..] == Pad4(n);
      Pad4Injective(m, n);
    }
  }

  lemma OrderIdInjective(m: nat, n: nat)
    ensures OrderId(m) == OrderId(n) ==> m == n
  {
    if OrderId(m) == OrderId(n) {
      assert Pad4(m) == OrderId(m)[4..] == OrderId(n)[4..] == Pad4(n);
      Pad4Injective(m, n);
    }
  }

  predicate Active(t: Ticket) {
    t.status == Queued || t.status == Processing
  }

  function ActiveIds(tickets: map<string, Ticket>): set<string> {
    set id | id in tickets && Active(tickets[id])
  }

  /** The active tickets whose sequence is at most `sequence`. */
  function ActiveUpTo(tickets: map<string, Ticket>, sequence: nat): set<string> {
    set id | id in tickets && Active(tickets[id]) && tickets[id].sequence <= sequence
  }

  /** `QueueTicket::current_position` */
  function Position(tickets: map<string, Ticket>, id: string): Option<nat>
    requires id in tickets
  {
    match tickets[id].status
    case Completed => None
    case Failed => None
    case Processing => Some(1)
    case Queued => Some(|ActiveUpTo(tickets, tickets[id].sequence)|)
  }

  /** The balance a user has, whether or not the wallet was created yet. */
  function Balance(shop: Shop, uid: string): int {
    if WalletKey(uid) in shop.wallets then shop.wallets[WalletKey(uid)] else shop.defaultWallet
  }

  // ---- one mutex hold as a function on the guarded state ----

  function WithWallet(shop: Shop, uid: string): Shop {
    shop.(wallets := shop.wallets[WalletKey(uid) := Balance(shop, uid)])
  }

  predicate ValidPurchase(sku: string, quantity: int) {
    Trim(sku) != [] && quantity > 0
  }

  function NewTicket(sequence: nat, uid: string, sku: string, quantity: int, now: string): Ticket {
    Ticket(TicketId(sequence), uid, sku, quantity, sequence, Queued, None,
           Waiting, now, now,
           [CollaborationStep(Enqueued, now)])
  }

  function AfterEnqueue(shop: Shop, uid: string, sku: string, quantity: int, now: string): Shop {
    if !ValidPurchase(sku, quantity) then shop
    else
      var ticket := NewTicket(shop.nextTicketId, uid, sku, quantity, now);
      WithWallet(shop, uid).(tickets := shop.tickets[ticket.id := ticket], nextTicketId := shop.nextTicketId + 1)
  }

  function Claimed(t: Ticket, now: string): Ticket {
    t.(status := Processing, message := Reserving, updatedAt := now,
       steps := t.steps + [CollaborationStep(ClaimedByWorker, now)])
  }

  function AfterClaim(shop: Shop, id: string, now: string): Shop {
    if id in shop.tickets then shop.(tickets := shop.tickets[id := Claimed(shop.tickets[id], now)]) else shop
  }

  /** Why a settlement fails, or `None` when it goes through. */
  function Refusal(stock: int, balance: int, price: int, quantity: int): Option<Notice> {
    if stock < quantity then Some(SoldOut)
    else if balance < price * quantity then Some(TooPoor)
    else None
  }

  function Checked(t: Ticket, now: string): seq<CollaborationStep> {
    t.steps + [CollaborationStep(ReadWallet, now),
               CollaborationStep(ReadStock, now)]
  }

  function SettledTicket(t: Ticket, refusal: Option<Notice>, orderId: string, now: string): Ticket {
    match refusal
    case None =>
      t.(status := Completed, orderId := Some(orderId), message := Confirmed, updatedAt := now,
         steps := Checked(t, now) +
                  [CollaborationStep(ReserveStock, now),
                   CollaborationStep(DebitWallet, now),
                   CollaborationStep(InsertOrder, now),
                   CollaborationStep(CompletedByWorker, now)])
    case Some(message) =>
      t.(status := Failed, message := message, updatedAt := now,
         steps := Checked(t, now) +
                  [CollaborationStep(FailedByWorker, now)])
  }

  function AfterSettle(shop: Shop, id: string, now: string): Shop {
    if id !in shop.tickets then shop
    else
      var t := shop.tickets[id];
      var refusal := Refusal(shop.stock, Balance(shop, t.uid), shop.price, t.quantity);
      var orderId := OrderId(|shop.orders| + 1);
      var settled := WithWallet(shop, t.uid).(tickets := shop.tickets[id := SettledTicket(t, refusal, orderId, now)]);
      if refusal.Some? then settled
      else
        settled.(stock := shop.stock - t.quantity,
                 wallets := settled.wallets[WalletKey(t.uid) := Balance(shop, t.uid) - shop.price * t.quantity],
                 orders := [Order(orderId, t.uid, t.sku, QUEUED_CONFIRMED, t.quantity, now)] + shop.orders)
  }

  function AfterDecr(shop: Shop, amount: int): Shop {
    shop.(stock := if shop.stock - amount < 0 then 0 else shop.stock - amount)
  }

  function AfterCreate(shop: Shop, uid: string, sku: string, quantity: int, status: string, now: string): Shop {
    shop.(orders := [Order(OrderId(|shop.orders| + 1), uid, sku, status, quantity, now)] + shop.orders)
  }

  // ---- the object ----

  class FlashSaleModule {
    const price: int
    const defaultWallet: int
    var stock: int
    var wallets: map<string, int>
    var orders: seq<Order>
    var tickets: map<string, Ticket>
    var nextTicketId: nat

    function Model(): Shop
      reads this
    {
      Shop(price, defaultWallet, stock, wallets, orders, tickets, nextTicketId)
    }

    /** `config.wallets.values().copied().max().unwrap_or(1280)` */
    static method DefaultBalance(wallets: map<string, int>) returns (balance: int)
      ensures wallets == map[] ==> balance == 1280
      ensures wallets != map[] ==> balance in wallets.Values
      ensures forall key | key in wallets :: wallets[key] <= balance
    {
      balance := 1280;
      var rest := wallets.Keys;
      while rest != {}
        invariant rest <= wallets.Keys
        invariant rest == wallets.Keys ==> balance == 1280
        invariant rest != wallets.Keys ==> balance in wallets.Values
        invariant forall key | key in wallets && key !in rest :: wallets[key] <= balance
      {
        var key :| key in rest;
        if rest == wallets.Keys || wallets[key] > balance {
          balance := wallets[key];
        }
        rest := rest - {key};
      }
    }

    constructor FromConfig(price: int, stock: int, wallets: map<string, int>, orders: seq<Order>)
      ensures this.price == price && this.stock == stock && this.wallets == wallets && this.orders == orders
      ensures tickets == map[] && nextTicketId == 1
      ensures wallets == map[] ==> defaultWallet == 1280
      ensures wallets != map[] ==> defaultWallet in wallets.Values
      ensures forall key | key in wallets :: wallets[key] <= defaultWallet
    {
      var balance := DefaultBalance(wallets);
      this.price, this.stock, this.wallets, this.orders := price, stock, wallets, orders;
      this.defaultWallet := balance;
      this.tickets, this.nextTicketId := map[], 1;
    }

    /** `ensure_wallet_balance` */
    method EnsureWalletBalance(uid: string) returns (balance: int)
      modifies this`wallets
      ensures Model() == WithWallet(old(Model()), uid)
      ensures balance == Balance(old(Model()), uid)
      ensures wallets.Keys == old(wallets).Keys + {uid + "_wallet"} && wallets[uid + "_wallet"] == balance
      ensures forall key | key in old(wallets) :: wallets[key] == old(wallets)[key]
      ensures uid + "_wallet" !in old(wallets) ==> balance == defaultWallet
    {
      if WalletKey(uid) !in wallets {
        wallets := wallets[WalletKey(uid) := defaultWallet];
      }
      balance := wallets[WalletKey(uid)];
    }

    /** `enqueue_purchase` up to the spawn: the ticket and the position handed to its thread. */
    method Enqueue(uid: string, sku: string, quantity: int, now: string)
      returns (r: Result<(string, nat), AppError>)
      modifies this
      ensures Model() == AfterEnqueue(old(Model()), uid, sku, quantity, now)
      ensures r.Ok? <==> ValidPurchase(sku, quantity)
      ensures r.Ok? <==> Trim(sku) != [] && quantity > 0
      ensures r.Ok? ==> r.value == ("ticket_" + Pad4(old(nextTicketId)), |ActiveIds(old(tickets))| + 1)
      ensures r.Ok? ==>
                && tickets.Keys == old(tickets).Keys + {r.value.0}
                && var t := tickets[r.value.0];
                && t.id == r.value.0 && t.uid == uid && t.sku == sku && t.quantity == quantity
                && t.sequence == old(nextTicketId) && t.status == Queued && t.orderId == None && t.message == Waiting
                && t.createdAt == t.updatedAt == now && t.steps == [CollaborationStep(Enqueued, now)]
      ensures r.Ok? ==> wallets.Keys == old(wallets).Keys + {uid + "_wallet"}
      ensures r.Err? ==> Model() == old(Model())
    {
      hide Pad4, Trim;
      if Trim(sku) == [] || quantity <= 0 {
        return Err(InvalidRequest("queue purchase requires sku and quantity > 0"));
      }
      var sequence := nextTicketId;
      var ticketId := TicketId(sequence);
      nextTicketId := nextTicketId + 1;
      var _ := EnsureWalletBalance(uid);
      var position := |ActiveIds(tickets)| + 1;
      tickets := tickets[ticketId := NewTicket(sequence, uid, sku, quantity, now)];
      return Ok((ticketId, position));
    }

    /** First hold of `process_ticket`. */
    method Claim(id: string, now: string)
      modifies this`tickets
      ensures Model() == AfterClaim(old(Model()), id, now)
    {
      if id in tickets {
        var ticket := tickets[id];
        ticket := ticket.(status := Processing,
                          message := Reserving, updatedAt := now);
        ticket := ticket.(steps := ticket.steps +
                                   [CollaborationStep(ClaimedByWorker, now)]);
        tickets := tickets[id := ticket];
      }
    }

    /** Second hold of `process_ticket`: check, charge, insert the order, close the ticket. */
    method Settle(id: string, now: string)
      modifies this
      ensures Model() == AfterSettle(old(Model()), id, now)
      ensures id in old(tickets) ==> wallets.Keys == old(wallets).Keys + {old(tickets)[id].uid + "_wallet"}
    {
      hide OrderId, TicketId;
      if id !in tickets {
        return;
      }
      var ticket := tickets[id];
      var wallet := EnsureWalletBalance(ticket.uid);
      var due := price * ticket.quantity;
      var orderId := OrderId(|orders| + 1);
      ticket := ticket.(updatedAt := now, steps := Checked(ticket, now));
      if stock < ticket.quantity {
        ticket := Fail(ticket, SoldOut, now);
      } else if wallet < due {
        ticket := Fail(ticket, TooPoor, now);
      } else {
        stock := stock - ticket.quantity;
        wallets := wallets[WalletKey(ticket.uid) := wallets[WalletKey(ticket.uid)] - due];
        orders := [Order(orderId, ticket.uid, ticket.sku, QUEUED_CONFIRMED, ticket.quantity, now)] + orders;
        ticket := ticket.(
        status := Completed, orderId := Some(orderId), message := Confirmed,
        steps := ticket.steps +
        [CollaborationStep(ReserveStock, now),
         CollaborationStep(DebitWallet, now),
         CollaborationStep(InsertOrder, now),
         CollaborationStep(CompletedByWorker, now)]);
      }
      tickets := tickets[id := ticket];
    }

    static function Fail(t: Ticket, message: Notice, now: string): Ticket {
      t.(status := Failed, message := message,
         steps := t.steps +
                  [CollaborationStep(FailedByWorker, now)])
    }

    /** The `flashsale.stock.decr` arm. */
    method StockDecr(amount: Option<int>) returns (left: int)
      modifies this`stock
      ensures Model() == AfterDecr(old(Model()), if amount.Some? then amount.value else 1)
      ensures left == stock
      ensures amount.None? && old(stock) >= 1 ==> stock == old(stock) - 1
      ensures amount.Some? && amount.value <= old(stock) ==> stock == old(stock) - amount.value
      ensures amount.Some? && amount.value > old(stock) ==> stock == 0
    {
      var delta := if amount.Some? then amount.value else 1;
      stock := if stock - delta >= 0 then stock - delta else 0;
      left := stock;
    }

    /** The `flashsale.orders.create` arm. */
    method OrdersCreate(uid: string, sku: string, quantity: int, status: string, now: string)
      modifies this`orders
      ensures Model() == AfterCreate(old(Model()), uid, sku, quantity, status, now)
      ensures orders == [Order("ord_" + Pad4(|old(orders)| + 1), uid, sku, status, quantity, now)] + old(orders)
    {
      hide Pad4;
      var nextIndex := |orders| + 1;
      orders := [Order(OrderId(nextIndex), uid, sku, status, quantity, now)] + orders;
    }
  }
}
