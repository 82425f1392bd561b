/**
 Conservation of stock and money over every run, counted from the tickets themselves, and the queue
 positions users see.
 */
module FlashSaleAccounts {
  import opened Wrappers
  import opened FlashSale
  import opened FlashSaleProtocol

  // ---- conservation ----

  predicate Bought(tickets: map<string, Ticket>, id: string, who: Option<string>) {
    && id in tickets && tickets[id].status == Completed
    && (who.Some? ==> tickets[id].uid == who.value)
  }

  /** Units in the completed tickets (of `who`, or of everyone) among the first `n` tickets issued. */
  function Sold(tickets: map<string, Ticket>, who: Option<string>, n: nat): int {
    if n == 0 then 0
    else Sold(tickets, who, n - 1) +
         if Bought(tickets, TicketId(n), who) then tickets[TicketId(n)].quantity else 0
  }

  function SoldTotal(shop: Shop, who: Option<string>): int
    requires shop.nextTicketId >= 1
  {
    Sold(shop.tickets, who, shop.nextTicketId - 1)
  }

  lemma {:induction false} SoldSame(a: map<string, Ticket>, b: map<string, Ticket>, who: Option<string>, n: nat)
    requires forall k: nat | 1 <= k <= n ::
               var id := TicketId(k);
               && (Bought(a, id, who) <==> Bought(b, id, who))
               && (Bought(a, id, who) ==> a[id].quantity == b[id].quantity)
    ensures Sold(a, who, n) == Sold(b, who, n)
  {
    if n > 0 {
      SoldSame(a, b, who, n - 1);
      assert Bought(a, TicketId(n), who) <==> Bought(b, TicketId(n), who);
    }
  }

  /** Completing ticket number `k` adds its quantity to exactly the totals it belongs to. */
  lemma {:induction false} SoldOneMore(tickets: map<string, Ticket>, k: nat, t': Ticket, who: Option<string>, n: nat)
    requires 1 <= k && TicketId(k) in tickets && tickets[TicketId(k)].status != Completed
    requires t'.status == Completed
    ensures Sold(tickets[TicketId(k) := t'], who, n) ==
            Sold(tickets, who, n) + if k <= n && (who.None? || who.value == t'.uid) then t'.quantity else 0
  {
    hide TicketId;
    if n > 0 {
      SoldOneMore(tickets, k, t', who, n - 1);
      TicketIdInjective(k, n);
    }
  }

  /** Units taken out of stock by `stock.decr` (negative when a negative amount put some back). */
  function Decremented(s: Sys, labels: seq<Label>): int {
    if labels == [] || Exec(s, labels[..|labels| - 1]).None? then 0
    else
      var n := |labels| - 1;
      var mid := Exec(s, labels[..n]).value;
      Decremented(s, labels[..n]) +
      if labels[n].Decr? then mid.shop.stock - Next(mid, labels[n]).shop.stock else 0
  }

  ghost predicate Conserved(seed: Shop, shop: Shop, decremented: int)
    requires shop.nextTicketId >= 1
  {
    && shop.price == seed.price && shop.defaultWallet == seed.defaultWallet
    && seed.stock == shop.stock + SoldTotal(shop, None) + decremented
    && forall uid :: Balance(seed, uid) == Balance(shop, uid) + seed.price * SoldTotal(shop, Some(uid))
  }

  lemma AddSold(shop: Shop, shop': Shop, t: Ticket, who: Option<string>)
    requires shop.nextTicketId >= 1 && t.id == TicketId(shop.nextTicketId) && t.id !in shop.tickets
    requires shop'.tickets == shop.tickets[t.id := t] && shop'.nextTicketId == shop.nextTicketId + 1
    requires t.status != Completed
    ensures SoldTotal(shop', who) == SoldTotal(shop, who)
  {
    hide TicketId;
    SoldSame(shop.tickets, shop'.tickets, who, shop.nextTicketId - 1);
  }

  lemma TouchSold(shop: Shop, shop': Shop, id: string, t': Ticket, who: Option<string>)
    requires id in shop.tickets && shop.tickets[id].status != Completed && t'.status != Completed
    requires shop'.tickets == shop.tickets[id := t'] && shop'.nextTicketId == shop.nextTicketId >= 1
    ensures SoldTotal(shop', who) == SoldTotal(shop, who)
  {
    SoldSame(shop.tickets, shop'.tickets, who, shop.nextTicketId - 1);
  }

  lemma SettleSold(shop: Shop, id: string, now: string, who: Option<string>)
    requires shop.nextTicketId >= 1 && id in shop.tickets && Active(shop.tickets[id])
    requires var t := shop.tickets[id]; 1 <= t.sequence < shop.nextTicketId && id == TicketId(t.sequence)
    ensures var t := shop.tickets[id];
            SoldTotal(AfterSettle(shop, id, now), who) == SoldTotal(shop, who) +
            if Verdict(shop, id).None? && (who.None? || who.value == t.uid) then t.quantity else 0
  {
    SettleTickets(shop, id, now);
    var t, t' := shop.tickets[id], TicketAfterSettle(shop, id, now);
    hide AfterSettle;
    if Verdict(shop, id).None? {
      SoldOneMore(shop.tickets, t.sequence, t', who, shop.nextTicketId - 1);
    } else {
      TouchSold(shop, AfterSettle(shop, id, now), id, t', who);
    }
  }

  /** What a settlement moves: stock by the quantity, the buyer's balance by the price, or nothing. */
  lemma SettleMoves(shop: Shop, id: string, now: string, uid: string)
    requires id in shop.tickets
    ensures var t, shop' := shop.tickets[id], AfterSettle(shop, id, now);
            var units := if Verdict(shop, id).None? then t.quantity else 0;
            && shop'.stock == shop.stock - units
            && Balance(shop', uid) == Balance(shop, uid) - if uid == t.uid then shop.price * units else 0
  {
    WalletKeyInjective(uid, shop.tickets[id].uid);
  }

  lemma SettleConservesFor(seed: Shop, shop: Shop, id: string, now: string, uid: string)
    requires shop.nextTicketId >= 1 && id in shop.tickets && Active(shop.tickets[id]) && shop.price == seed.price
    requires var t := shop.tickets[id]; 1 <= t.sequence < shop.nextTicketId && id == TicketId(t.sequence)
    requires Balance(seed, uid) == Balance(shop, uid) + seed.price * SoldTotal(shop, Some(uid))
    ensures AfterSettle(shop, id, now).nextTicketId >= 1
    ensures var shop' := AfterSettle(shop, id, now);
            Balance(seed, uid) == Balance(shop', uid) + seed.price * SoldTotal(shop', Some(uid))
  {
    assert AfterSettle(shop, id, now).nextTicketId >= 1;
    SettleSold(shop, id, now, Some(uid));
    SettleMoves(shop, id, now, uid);
    hide AfterSettle, SoldTotal, Balance, Verdict, TicketId;
    if Verdict(shop, id).None? && uid == shop.tickets[id].uid {
      Distribute(seed.price, SoldTotal(shop, Some(uid)), shop.tickets[id].quantity);
    }
  }

  lemma SettleConserves(seed: Shop, shop: Shop, id: string, now: string, decremented: int)
    requires shop.nextTicketId >= 1 && id in shop.tickets && Active(shop.tickets[id])
    requires var t := shop.tickets[id]; 1 <= t.sequence < shop.nextTicketId && id == TicketId(t.sequence)
    requires Conserved(seed, shop, decremented)
    ensures Conserved(seed, AfterSettle(shop, id, now), decremented)
  {
    var shop' := AfterSettle(shop, id, now);
    assert shop'.price == shop.price && shop'.defaultWallet == shop.defaultWallet;
    SettleSold(shop, id, now, None);
    SettleMoves(shop, id, now, "");
    hide AfterSettle, SoldTotal, Balance, Verdict, TicketId;
    forall uid
      ensures Balance(seed, uid) == Balance(shop', uid) + seed.price * SoldTotal(shop', Some(uid))
    {
      assert Balance(seed, uid) == Balance(shop, uid) + seed.price * SoldTotal(shop, Some(uid));
      SettleConservesFor(seed, shop, id, now, uid);
    }
  }

  lemma Distribute(a: int, b: int, c: int)
    ensures a * (b + c) == a * b + a * c
  {
  }

  lemma QuietConserves(seed: Shop, shop: Shop, shop': Shop, decremented: int)
    requires shop.nextTicketId >= 1 && shop'.nextTicketId >= 1 && Conserved(seed, shop, decremented)
    requires shop'.price == shop.price && shop'.defaultWallet == shop.defaultWallet
    requires forall uid :: Balance(shop', uid) == Balance(shop, uid)
    requires forall who :: SoldTotal(shop', who) == SoldTotal(shop, who)
    ensures Conserved(seed, shop', decremented + shop.stock - shop'.stock)
  {
  }

  lemma QuietStepSold(s: Sys, l: Label, who: Option<string>)
    requires Inv(s) && Enabled(s, l) && !l.Settle?
    ensures Next(s, l).shop.nextTicketId >= 1
    ensures SoldTotal(Next(s, l).shop, who) == SoldTotal(s.shop, who)
  {
    FreshTicketId(s);
    hide TicketId, WalletKey, OrderId;
    if l.Enqueue? {
      if ValidPurchase(l.sku, l.quantity) {
        AddSold(s.shop, Next(s, l).shop, NewTicket(s.shop.nextTicketId, l.uid, l.sku, l.quantity, l.now), who);
      }
    } else if l.Claim? {
      assert TicketOk(l.id, s.shop.tickets[l.id], s.shop.nextTicketId, s.threads[l.id]);
      hide Inv, TicketOk;
      TouchSold(s.shop, Next(s, l).shop, l.id, Claimed(s.shop.tickets[l.id], l.now), who);
    }
  }

  lemma QuietStepBalance(s: Sys, l: Label, uid: string)
    requires Enabled(s, l) && !l.Settle?
    ensures Balance(Next(s, l).shop, uid) == Balance(s.shop, uid)
  {
    if l.Enqueue? {
      WalletKeyInjective(uid, l.uid);
    }
  }

  lemma QuietStepConserves(seed: Shop, s: Sys, l: Label, decremented: int)
    requires Inv(s) && Enabled(s, l) && !l.Settle? && Conserved(seed, s.shop, decremented)
    ensures Next(s, l).shop.nextTicketId >= 1
    ensures Conserved(seed, Next(s, l).shop, decremented + s.shop.stock - Next(s, l).shop.stock)
  {
    var shop' := Next(s, l).shop;
    QuietStepSold(s, l, None);
    forall who ensures SoldTotal(shop', who) == SoldTotal(s.shop, who) {
      QuietStepSold(s, l, who);
    }
    forall uid ensures Balance(shop', uid) == Balance(s.shop, uid) {
      QuietStepBalance(s, l, uid);
    }
    QuietConserves(seed, s.shop, shop', decremented);
  }

  lemma StepConserves(seed: Shop, s: Sys, l: Label, decremented: int)
    requires Inv(s) && Enabled(s, l) && Conserved(seed, s.shop, decremented)
    ensures Inv(Next(s, l))
    ensures Conserved(seed, Next(s, l).shop,
                      decremented + if l.Decr? then s.shop.stock - Next(s, l).shop.stock else 0)
  {
    InvStep(s, l);
    if l.Settle? {
      assert TicketOk(l.id, s.shop.tickets[l.id], s.shop.nextTicketId, s.threads[l.id]);
      hide Inv, AfterSettle;
      SettleConserves(seed, s.shop, l.id, l.now, decremented);
    } else {
      QuietStepConserves(seed, s, l, decremented);
    }
  }

  /**
   Conservation in every reachable state: the seed stock is what is left, plus the units in
   completed tickets, plus what `stock.decr` took; and each user's starting balance is the current
   one plus the price of the units in that user's completed tickets.
   */
  lemma {:induction false} StockAndMoneyAreConserved(seed: Shop, labels: seq<Label>, s: Sys)
    requires Reachable(seed, labels, s)
    ensures s.shop.nextTicketId >= 1
    ensures Conserved(seed, s.shop, Decremented(Start(seed), labels))
  {
    if labels != [] {
      var n := |labels| - 1;
      var mid := Exec(Start(seed), labels[..n]).value;
      StockAndMoneyAreConserved(seed, labels[..n], mid);
      InvReachable(seed, labels[..n], mid);
      StepConserves(seed, mid, labels[n], Decremented(Start(seed), labels[..n]));
    }
  }

  /** With no `stock.decr` in the run, what left the stock is exactly what completed tickets hold. */
  lemma {:induction false} NothingDecremented(s: Sys, labels: seq<Label>)
    requires forall i | 0 <= i < |labels| :: !labels[i].Decr?
    ensures Decremented(s, labels) == 0
  {
    if labels != [] {
      NothingDecremented(s, labels[..|labels| - 1]);
    }
  }

  // ---- positions ----

  lemma NewestPosition(tickets: map<string, Ticket>, id: string, t: Ticket)
    requires id !in tickets && t.status == Queued
    requires forall other | other in tickets :: tickets[other].sequence < t.sequence
    ensures Position(tickets[id := t], id) == Some(|ActiveIds(tickets)| + 1)
  {
    var more := tickets[id := t];
    forall other ensures other in ActiveUpTo(more, t.sequence) <==> other in ActiveIds(tickets) || other == id {
      assert other in tickets && other != id ==> more[other] == tickets[other];
    }
    hide Active;
    assert ActiveUpTo(more, t.sequence) == ActiveIds(tickets) + {id};
  }

  /** The position handed to a new ticket's thread is the one the ticket then reports. */
  lemma EnqueuePositionIsReported(s: Sys, l: Label)
    requires Inv(s) && l.Enqueue? && ValidPurchase(l.sku, l.quantity)
    ensures var id, shop' := TicketId(s.shop.nextTicketId), Next(s, l).shop;
            id in shop'.tickets && Position(shop'.tickets, id) == Some(|ActiveIds(s.shop.tickets)| + 1)
  {
    hide TicketId, WithWallet, Position;
    FreshTicketId(s);
    forall other | other in s.shop.tickets
      ensures s.shop.tickets[other].sequence < s.shop.nextTicketId
    {
      assert TicketOk(other, s.shop.tickets[other], s.shop.nextTicketId, s.threads[other]);
    }
    NewestPosition(s.shop.tickets, TicketId(s.shop.nextTicketId),
                   NewTicket(s.shop.nextTicketId, l.uid, l.sku, l.quantity, l.now));
  }

  lemma RanksFollowSequence(tickets: map<string, Ticket>, a: string, b: string)
    requires a in tickets && b in tickets && Active(tickets[a]) && Active(tickets[b])
    requires tickets[a].sequence < tickets[b].sequence
    ensures 1 <= |ActiveUpTo(tickets, tickets[a].sequence)| < |ActiveUpTo(tickets, tickets[b].sequence)|
  {
    var ra, rb := ActiveUpTo(tickets, tickets[a].sequence), ActiveUpTo(tickets, tickets[b].sequence);
    assert a in ra && b in rb && b !in ra;
    SubsetSize({a}, ra);
    SubsetSize(ra, rb);
  }

  /** Two queued tickets report positions in the order of their sequence numbers, never the same one. */
  lemma QueuedPositionsAreRanks(s: Sys, a: string, b: string)
    requires Inv(s) && a in s.shop.tickets && b in s.shop.tickets && a != b
    requires s.shop.tickets[a].status == Queued && s.shop.tickets[b].status == Queued
    ensures s.shop.tickets[a].sequence != s.shop.tickets[b].sequence
    ensures s.shop.tickets[a].sequence < s.shop.tickets[b].sequence <==>
            Position(s.shop.tickets, a).value < Position(s.shop.tickets, b).value
    ensures Position(s.shop.tickets, a).value >= 1
  {
    hide TicketId;
    var tickets := s.shop.tickets;
    assert TicketOk(a, tickets[a], s.shop.nextTicketId, s.threads[a]);
    assert TicketOk(b, tickets[b], s.shop.nextTicketId, s.threads[b]);
    hide Inv, ActiveUpTo;
    if tickets[a].sequence < tickets[b].sequence {
      RanksFollowSequence(tickets, a, b);
    } else {
      RanksFollowSequence(tickets, b, a);
    }
  }

  predicate NotAbove(now: Option<nat>, before: Option<nat>) {
    now.None? || (before.Some? && now.value <= before.value)
  }

  lemma RankNeverRises(tickets: map<string, Ticket>, tickets': map<string, Ticket>, sequence: nat)
    requires forall id | id in tickets' && Active(tickets'[id]) && tickets'[id].sequence <= sequence ::
               id in tickets && Active(tickets[id]) && tickets[id].sequence == tickets'[id].sequence
    ensures |ActiveUpTo(tickets', sequence)| <= |ActiveUpTo(tickets, sequence)|
  {
    SubsetSize(ActiveUpTo(tickets', sequence), ActiveUpTo(tickets, sequence));
  }

  lemma ActiveHasRank(tickets: map<string, Ticket>, id: string)
    requires id in tickets && Active(tickets[id])
    ensures |ActiveUpTo(tickets, tickets[id].sequence)| >= 1
  {
    SubsetSize({id}, ActiveUpTo(tickets, tickets[id].sequence));
  }

  lemma PositionStep(s: Sys, l: Label, id: string)
    requires Inv(s) && Enabled(s, l) && id in s.shop.tickets
    ensures id in Next(s, l).shop.tickets
    ensures NotAbove(Position(Next(s, l).shop.tickets, id), Position(s.shop.tickets, id))
  {
    var tickets, tickets' := s.shop.tickets, Next(s, l).shop.tickets;
    TicketsPersist(s, l, id);
    if Active(tickets'[id]) {
      ActiveHasRank(tickets, id);
      forall other | other in tickets' && Active(tickets'[other]) && tickets'[other].sequence <= tickets[id].sequence
        ensures other in tickets && Active(tickets[other]) && tickets[other].sequence == tickets'[other].sequence
      {
        StillActive(s, l, id, other);
      }
      RankNeverRises(tickets, tickets', tickets[id].sequence);
      QueuedOnlyFromQueued(s, l, id);
    }
  }

  lemma QueuedOnlyFromQueued(s: Sys, l: Label, id: string)
    requires Inv(s) && Enabled(s, l) && id in s.shop.tickets && id in Next(s, l).shop.tickets
    ensures Next(s, l).shop.tickets[id].status == Queued ==> s.shop.tickets[id].status == Queued
  {
    hide TicketId, OrderId;
    FreshTicketId(s);
    assert TicketOk(id, s.shop.tickets[id], s.shop.nextTicketId, s.threads[id]);
  }

  lemma StillActive(s: Sys, l: Label, id: string, other: string)
    requires Inv(s) && Enabled(s, l) && id in s.shop.tickets
    requires other in Next(s, l).shop.tickets && Active(Next(s, l).shop.tickets[other])
    requires Next(s, l).shop.tickets[other].sequence <= s.shop.tickets[id].sequence
    ensures other in s.shop.tickets && Active(s.shop.tickets[other])
    ensures s.shop.tickets[other].sequence == Next(s, l).shop.tickets[other].sequence
  {
    assert TicketOk(id, s.shop.tickets[id], s.shop.nextTicketId, s.threads[id]);
    if other in s.shop.tickets {
      TicketsPersist(s, l, other);
    }
  }

  /** Along any run a ticket's reported position only falls, and once it reports none it never reports one again. */
  lemma {:induction false} PositionNeverRises(s: Sys, labels: seq<Label>, id: string)
    requires Inv(s) && Exec(s, labels).Some? && id in s.shop.tickets
    ensures Inv(Exec(s, labels).value) && id in Exec(s, labels).value.shop.tickets
    ensures NotAbove(Position(Exec(s, labels).value.shop.tickets, id), Position(s.shop.tickets, id))
  {
    if labels != [] {
      var n := |labels| - 1;
      PositionNeverRises(s, labels[..n], id);
      var mid := Exec(s, labels[..n]).value;
      PositionStep(mid, labels[n], id);
      InvStep(mid, labels[n]);
    }
  }
}
