/** Stock over whole runs: what a product's stock is, in terms of the last value an
    admin wrote and the orders paid since. */
module StockConservation {
  import opened Common
  import opened Catalogue
  import opened Orders
  import opened OrderLaws
  import opened Payments
  import opened LampShop

  // ----- Newly paid units ------------------------------------------------------------------

  lemma {:induction false} NewlyPaidPrefix(before: seq<Order>, after: seq<Order>, p: Id, m: nat)
    requires OrdersExtend(before, after) && m <= |after|
    ensures NewlyPaid(before, after[..m], p) == PaidQty(after[..m], p) - PaidQty(before[..Min(m, |before|)], p)
    decreases m
  {
    if m > 0 {
      NewlyPaidPrefix(before, after, p, m - 1);
      assert after[..m][..m - 1] == after[..m - 1];
      if m <= |before| {
        assert before[..m][..m - 1] == before[..m - 1];
        assert Settled(before[m - 1], after[m - 1]);
      }
    }
  }

  /** The newly paid quantity is the growth of the paid quantity. */
  lemma {:induction false} NewlyPaidIsGrowth(before: seq<Order>, after: seq<Order>, p: Id)
    requires OrdersExtend(before, after)
    ensures NewlyPaid(before, after, p) == PaidQty(after, p) - PaidQty(before, p)
  {
    NewlyPaidPrefix(before, after, p, |after|);
    assert after[..|after|] == after && before[..|before|] == before;
  }

  // ----- One step --------------------------------------------------------------------------

  /** The stock that a product create or update writes for `p`, if this step is one. */
  function Written(s: Shop, ev: Event, p: Id): Option<int> {
    if ev.Admin? && Apply(s.catalogue, ev.op).Ok? then
      match ev.op
      case CreateProduct(payload) => if p == s.catalogue.nextId then Some(payload.stockQty) else None
      case UpdateProduct(id, payload) => if p == id then Some(payload.stockQty) else None
      case _ => None
    else None
  }

  predicate Live(s: Shop, p: Id) {
    p in s.catalogue.products
  }

  function Stock(s: Shop, p: Id): int
    requires Live(s, p)
  {
    s.catalogue.products[p].stockQty
  }

  lemma {:induction false} WriteSets(s: Shop, ev: Event, p: Id)
    requires Written(s, ev, p).Some?
    ensures Live(ShopNext(s, ev), p) && Stock(ShopNext(s, ev), p) == Written(s, ev, p).value
    ensures ShopNext(s, ev).orders == s.orders
  {
    match ev.op
    case CreateProduct(payload) => ProductRowIsGood(s.catalogue, payload, None, true);
    case UpdateProduct(id, payload) => ProductRowIsGood(s.catalogue, payload, Some(id), s.catalogue.products[id].isActive);
  }

  lemma AdminConserves(s: Shop, op: Op, p: Id)
    requires Written(s, Admin(op), p).None? && Live(ShopNext(s, Admin(op)), p)
    ensures Live(s, p) && Stock(ShopNext(s, Admin(op)), p) == Stock(s, p) && ShopNext(s, Admin(op)).orders == s.orders
  {
  }

  lemma {:induction false} PaymentConserves(s: Shop, i: nat, transactionId: string, now: int, p: Id)
    requires i < |s.orders|
    ensures var t := MarkedPaid(s, i, transactionId, now);
            && t.catalogue.products.Keys == s.catalogue.products.Keys
            && (Live(s, p) ==> Stock(t, p) + PaidQty(t.orders, p) == Stock(s, p) + PaidQty(s.orders, p))
  {
    DecrementedMeaning(s.catalogue.products, s.orders[i].items);
    PaidQtyUpdate(s.orders, i, MarkedPaid(s, i, transactionId, now).orders[i], p);
  }

  lemma {:induction false} RewriteConserves(s: Shop, i: nat, o: Order, p: Id)
    requires i < |s.orders| && o.items == s.orders[i].items && o.paidAt == s.orders[i].paidAt
    ensures PaidQty(s.orders[i := o], p) == PaidQty(s.orders, p)
  {
    PaidQtyUpdate(s.orders, i, o, p);
  }

  lemma {:induction false} RewritesConserve(s: Shop, ev: Event, p: Id)
    requires ev.UpdateStatus? || ev.UpdateInvoice? || ev.ConfirmReceived?
    ensures PaidQty(ShopNext(s, ev).orders, p) == PaidQty(s.orders, p)
  {
    if ev.orderId < |s.orders| {
      RewriteConserves(s, ev.orderId, ShopNext(s, ev).orders[ev.orderId], p);
      assert s.orders[ev.orderId := s.orders[ev.orderId]] == s.orders;
    }
  }

  lemma {:induction false} CheckoutConserves(s: Shop, user: UserId, requested: DeliveryType, viva: Option<string>, p: Id)
    requires CheckedOut(s, user, requested, viva).Ok?
    ensures PaidQty(CheckedOut(s, user, requested, viva).value.orders, p) == PaidQty(s.orders, p)
  {
    var items := ItemsOf(s.catalogue.products, Listed(s.catalogue.products, s.cart, user));
    PaidQtyAppend(s.orders, NewOrder(s, user, items, requested, viva), p);
  }

  lemma {:induction false} OtherConserves(s: Shop, ev: Event, p: Id)
    requires !ev.Admin? && !ev.Confirm? && !ev.Webhook?
    ensures PaidQty(ShopNext(s, ev).orders, p) == PaidQty(s.orders, p)
  {
    if ev.UpdateStatus? || ev.UpdateInvoice? || ev.ConfirmReceived? {
      RewritesConserve(s, ev, p);
    } else if ev.Checkout? && CheckedOut(s, ev.user, ev.requested, ev.viva).Ok? {
      CheckoutConserves(s, ev.user, ev.requested, ev.viva, p);
    }
  }

  /** A step that does not write the stock of a product moves units only between
      its stock and paid orders. */
  lemma {:induction false} StepConserves(s: Shop, ev: Event, p: Id)
    requires Written(s, ev, p).None? && Live(ShopNext(s, ev), p)
    ensures Live(s, p)
    ensures Stock(ShopNext(s, ev), p) + PaidQty(ShopNext(s, ev).orders, p) == Stock(s, p) + PaidQty(s.orders, p)
  {
    match ev
    case Admin(op) => AdminConserves(s, op, p);
    case Confirm(user, wanted, orderCode, transactionId, transaction, now) =>
      match Looked(s.orders, wanted, orderCode, transactionId) {
        case None =>
        case Some(i) =>
          PaymentConserves(s, i, transactionId, now, p);
          PaymentConserves(s, i, "", now, p);
      }
    case Webhook(orderCode, transactionId, statusId, _, now) =>
      match ByCode(s.orders, orderCode) {
        case None =>
        case Some(i) => PaymentConserves(s, i, transactionId, now, p);
      }
    case _ =>
      CatalogueUntouched(s, ev);
      OtherConserves(s, ev, p);
  }

  // ----- Whole runs ------------------------------------------------------------------------

  /** The position of the last step that wrote the stock of `p`. */
  function LastWrite(s: Shop, evs: seq<Event>, p: Id): (r: Option<nat>)
    ensures r.Some? ==> r.value < |evs|
    decreases |evs|
  {
    if evs == [] then None
    else
      var n := |evs| - 1;
      if Written(ShopRun(s, evs[..n]), evs[n], p).Some? then Some(n) else LastWrite(s, evs[..n], p)
  }

  /** Units since the last write, kept by every run. */
  lemma {:induction false} RunConserves(s: Shop, evs: seq<Event>, p: Id)
    requires Live(ShopRun(s, evs), p)
    ensures match LastWrite(s, evs, p)
            case None =>
              && Live(s, p)
              && Stock(ShopRun(s, evs), p) + PaidQty(ShopRun(s, evs).orders, p) == Stock(s, p) + PaidQty(s.orders, p)
            case Some(k) =>
              && Written(ShopRun(s, evs[..k]), evs[k], p).Some?
              && Stock(ShopRun(s, evs), p) + PaidQty(ShopRun(s, evs).orders, p)
                 == Written(ShopRun(s, evs[..k]), evs[k], p).value + PaidQty(ShopRun(s, evs[..k]).orders, p)
    decreases |evs|
  {
    if evs != [] {
      var n := |evs| - 1;
      var before := ShopRun(s, evs[..n]);
      if Written(before, evs[n], p).Some? {
        WriteSets(before, evs[n], p);
      } else {
        StepConserves(before, evs[n], p);
        RunConserves(s, evs[..n], p);
        match LastWrite(s, evs[..n], p) {
          case None =>
          case Some(k) => assert evs[..n][..k] == evs[..k];
        }
      }
    }
  }

  /** In every reachable state the stock of a live product is the last value a
      product create or update wrote, less its units in the orders that became
      paid since. */
  lemma {:induction false} StockIsLastWriteLessPaid(s: Shop, evs: seq<Event>, p: Id)
    requires Live(ShopRun(s, evs), p)
    ensures match LastWrite(s, evs, p)
            case None =>
              && Live(s, p)
              && Stock(ShopRun(s, evs), p) == Stock(s, p) - NewlyPaid(s.orders, ShopRun(s, evs).orders, p)
            case Some(k) =>
              var at := ShopRun(s, evs[..k]);
              && Written(at, evs[k], p).Some?
              && Stock(ShopRun(s, evs), p)
                 == Written(at, evs[k], p).value - NewlyPaid(at.orders, ShopRun(s, evs).orders, p)
  {
    RunConserves(s, evs, p);
    var k := if LastWrite(s, evs, p).Some? then LastWrite(s, evs, p).value else 0;
    RunExtends(s, evs, k);
    NewlyPaidIsGrowth(ShopRun(s, evs[..k]).orders, ShopRun(s, evs).orders, p);
  }

  // ----- No floor under the stock -------------------------------------------------------------

  ghost predicate NoDebt(s: Shop) {
    forall p :: Live(s, p) ==> Stock(s, p) >= 0
  }

  /** Paying an unpaid order keeps every stock at or above zero if and only if
      each live product had at least the units ordered. */
  lemma {:induction false} PaymentKeepsNoDebtIff(s: Shop, i: nat, transactionId: string, now: int)
    requires NoDebt(s) && i < |s.orders| && s.orders[i].paidAt.None?
    ensures NoDebt(MarkedPaid(s, i, transactionId, now))
            <==> forall p :: Live(s, p) ==> ItemsQty(s.orders[i].items, p) <= Stock(s, p)
  {
    var t := MarkedPaid(s, i, transactionId, now);
    DecrementedMeaning(s.catalogue.products, s.orders[i].items);
    assert forall p :: Live(t, p) <==> Live(s, p);
    assert forall p :: Live(s, p) ==> Stock(t, p) == Stock(s, p) - ItemsQty(s.orders[i].items, p);
  }

  /** The order that becomes paid in this step, if any, has enough stock. */
  ghost predicate Enough(s: Shop, ev: Event) {
    forall i: nat, p :: i < |s.orders| && s.orders[i].paidAt.None? && PaymentAccepted(s.orders, ev, i) && Live(s, p) ==>
      ItemsQty(s.orders[i].items, p) <= Stock(s, p)
  }

  lemma {:induction false} AdminKeepsNoDebt(s: Shop, op: Op)
    requires NoDebt(s)
    ensures NoDebt(ShopNext(s, Admin(op)))
  {
    var t := ShopNext(s, Admin(op));
    forall p | Live(t, p) ensures Stock(t, p) >= 0 {
      if Written(s, Admin(op), p).Some? {
        WriteSets(s, Admin(op), p);
      } else {
        AdminConserves(s, op, p);
      }
    }
  }

  /** An event keeps every stock at or above zero if and only if the order that
      becomes paid in it, if any, had enough stock. */
  lemma {:induction false} StepKeepsNoDebtIff(s: Shop, ev: Event)
    requires NoDebt(s)
    ensures NoDebt(ShopNext(s, ev)) <==> Enough(s, ev)
  {
    hide Handle;
    if i: nat :| i < |s.orders| && s.orders[i].paidAt.None? && PaymentAccepted(s.orders, ev, i) {
      AcceptedIsMarked(s, ev, i);
      PaymentKeepsNoDebtIff(s, i, TransactionOf(ev), TimeOf(ev));
      forall j: nat | j < |s.orders| && PaymentAccepted(s.orders, ev, j) ensures j == i {
        OneOrderAccepted(s.orders, ev, i, j);
      }
    } else if ev.Admin? {
      AdminKeepsNoDebt(s, ev.op);
    } else {
      NothingAccepted(s, ev);
      var t := ShopNext(s, ev);
      assert forall p :: Live(t, p) <==> Live(s, p);
      assert forall p :: Live(t, p) ==> Stock(t, p) == Stock(s, p);
    }
  }

  /** Over any run, stock stays at or above zero throughout if and only if every
      order that becomes paid has enough stock at that moment. */
  lemma {:induction false} RunKeepsNoDebtIff(s: Shop, evs: seq<Event>)
    requires NoDebt(s)
    ensures (forall k :: 0 <= k <= |evs| ==> NoDebt(ShopRun(s, evs[..k])))
            <==> (forall k :: 0 <= k < |evs| ==> Enough(ShopRun(s, evs[..k]), evs[k]))
  {
    hide Handle;
    if forall k :: 0 <= k <= |evs| ==> NoDebt(ShopRun(s, evs[..k])) {
      forall k | 0 <= k < |evs| ensures Enough(ShopRun(s, evs[..k]), evs[k]) {
        RunStep(s, evs, k);
        assert NoDebt(ShopRun(s, evs[..k + 1]));
        StepKeepsNoDebtIff(ShopRun(s, evs[..k]), evs[k]);
      }
    }
    if forall k :: 0 <= k < |evs| ==> Enough(ShopRun(s, evs[..k]), evs[k]) {
      forall k | 0 <= k <= |evs| ensures NoDebt(ShopRun(s, evs[..k])) {
        EnoughUpTo(s, evs, k);
      }
    }
  }

  lemma {:induction false} EnoughUpTo(s: Shop, evs: seq<Event>, k: nat)
    requires NoDebt(s) && k <= |evs|
    requires forall j :: 0 <= j < |evs| ==> Enough(ShopRun(s, evs[..j]), evs[j])
    ensures NoDebt(ShopRun(s, evs[..k]))
  {
    hide Handle;
    if k > 0 {
      EnoughUpTo(s, evs, k - 1);
      RunStep(s, evs, k - 1);
      StepKeepsNoDebtIff(ShopRun(s, evs[..k - 1]), evs[k - 1]);
    }
  }

  function LampEvents(u: UserId, v: UserId, c: string, d: string, x: string, y: string): seq<Event> {
    [CartAdd(u, 0, 1), CartAdd(v, 0, 1), Checkout(u, Standard, Some(c)), Checkout(v, Standard, Some(d)),
     Webhook(c, x, "F", Reported("F", c), 1), Webhook(d, y, "F", Reported("F", d), 2)]
  }

  lemma {:induction false} BothOrdered(u: UserId, v: UserId, c: string, d: string, x: string, y: string)
    requires u != v
    ensures ShopRun(Lamps(1, [], []), LampEvents(u, v, c, d, x, y)[..4])
            == Lamps(1, [], [LampOrder(u, c, None, None), LampOrder(v, d, None, None)])
  {
    hide Handle;
    var s, evs := Lamps(1, [], []), LampEvents(u, v, c, d, x, y);
    var lineU, lineV := CartLine(u, 0, 1), CartLine(v, 0, 1);
    var first, second := LampOrder(u, c, None, None), LampOrder(v, d, None, None);
    RunStep(s, evs, 0);
    LampAdd(1, u, [], []);
    RunStep(s, evs, 1);
    LampAdd(1, v, [lineU], []);
    RunStep(s, evs, 2);
    LampCheckout(1, u, c, [lineV], []);
    RunStep(s, evs, 3);
    LampCheckout(1, v, d, [], [first]);
    assert evs[..0] == [] && [] + [lineU] == [lineU] && [lineV] + [] == [lineV] && [] + [first] == [first];
    assert [first] + [second] == [first, second];
  }

  /** Two shoppers, the last unit, a final transaction for each order: the stock
      ends at -1. */
  lemma {:induction false} LastUnitSoldTwice(u: UserId, v: UserId, c: string, d: string, x: string, y: string)
    requires u != v && c != d && c != "" && d != "" && x != "" && y != ""
    ensures NoDebt(Lamps(1, [], []))
    ensures ShopRun(Lamps(1, [], []), LampEvents(u, v, c, d, x, y))
            == Lamps(-1, [], [LampOrder(u, c, Some(x), Some(1)), LampOrder(v, d, Some(y), Some(2))])
  {
    hide Handle;
    var s, evs := Lamps(1, [], []), LampEvents(u, v, c, d, x, y);
    var orders := [LampOrder(u, c, None, None), LampOrder(v, d, None, None)];
    var half := [LampOrder(u, c, Some(x), Some(1)), LampOrder(v, d, None, None)];
    BothOrdered(u, v, c, d, x, y);
    RunStep(s, evs, 4);
    LampWebhook(1, 0, u, c, orders, x, 1);
    assert orders[0 := half[0]] == half;
    RunStep(s, evs, 5);
    assert half[1..] == [half[1]];
    assert ByCode(half, d) == Some(1);
    LampWebhook(0, 1, v, d, half, y, 2);
    assert evs[..6] == evs;
    assert half[1 := LampOrder(v, d, Some(y), Some(2))] == [half[0], LampOrder(v, d, Some(y), Some(2))];
  }
}
