/** What every request writes on an order after checkout: the payment, the status,
    the shipping details and the invoice. */
module Tracking {
  import opened Common
  import opened Catalogue
  import opened Orders
  import opened OrderLaws
  import opened Payments
  import opened LampShop

  /** The payment of an order that had none goes through. */
  predicate PaysNow(s: Shop, ev: Event, i: nat) {
    i < |s.orders| && s.orders[i].paidAt.None? && PaymentAccepted(s.orders, ev, i)
  }

  /** The status that the request writes on order `i`. */
  function StatusWritten(s: Shop, ev: Event, i: nat): Option<OrderStatus>
    requires i < |s.orders|
  {
    if PaysNow(s, ev, i) then Some(Pending)
    else match ev
         case UpdateStatus(j, status, _, _) => if j == i then status else None
         case ConfirmReceived(user, j) =>
           if j == i && s.orders[i].user == user && s.orders[i].status == OnTheWay then Some(Delivered) else None
         case _ => None
  }

  function Or<T>(written: Option<T>, before: T): T {
    if written.Some? then written.value else before
  }

  /** Order `i` after a request, field by field. */
  ghost predicate Tracked(s: Shop, ev: Event, i: nat, after: Order)
    requires i < |s.orders|
  {
    var before := s.orders[i];
    && after.status == Or(StatusWritten(s, ev, i), before.status)
    && after.shippingInfo
       == (if ev.UpdateStatus? && ev.orderId == i && ev.status == Some(OnTheWay) && ev.shippingInfo.Some?
           then ev.shippingInfo else before.shippingInfo)
    && after.invoice
       == (if ev.UpdateStatus? && ev.orderId == i && ev.newInvoice.Some? then ev.newInvoice
           else if ev.UpdateInvoice? && ev.orderId == i then Some(ev.invoice)
           else before.invoice)
    && after.paidAt == (if PaysNow(s, ev, i) then Some(TimeOf(ev)) else before.paidAt)
    && after.vivaTransactionId
       == (if PaysNow(s, ev, i) && TransactionOf(ev) != "" then Some(TransactionOf(ev)) else before.vivaTransactionId)
  }

  lemma {:induction false} PaymentTracked(s: Shop, ev: Event, i: nat)
    requires i < |s.orders| && (ev.Confirm? || ev.Webhook?)
    ensures i < |ShopNext(s, ev).orders| && Tracked(s, ev, i, ShopNext(s, ev).orders[i])
  {
    if j: nat :| PaysNow(s, ev, j) {
      AcceptedIsMarked(s, ev, j);
      if PaymentAccepted(s.orders, ev, i) {
        OneOrderAccepted(s.orders, ev, i, j);
      }
    } else {
      forall j: nat | j < |s.orders| && PaymentAccepted(s.orders, ev, j) ensures s.orders[j].paidAt.Some? {
        assert !PaysNow(s, ev, j);
      }
      RefusedPaymentStays(s, ev);
    }
  }

  /** Every request writes on every order exactly what these say. */
  lemma {:induction false} NextTracked(s: Shop, ev: Event, i: nat)
    requires i < |s.orders|
    ensures i < |ShopNext(s, ev).orders| && Tracked(s, ev, i, ShopNext(s, ev).orders[i])
  {
    if ev.Confirm? || ev.Webhook? {
      PaymentTracked(s, ev, i);
    }
  }

  /** Why a request about an order after checkout is refused. */
  lemma {:induction false} TrackingRefusals(s: Shop, ev: Event)
    requires ev.UpdateStatus? || ev.UpdateInvoice? || ev.ConfirmReceived?
    ensures var known := ev.orderId < |s.orders|;
            var own := known && (ev.ConfirmReceived? ==> s.orders[ev.orderId].user == ev.user);
            && (Handle(s, ev) == Err(OrderNotFound) <==> !known)
            && (Handle(s, ev) == Err(OrderForbidden) <==> known && !own)
            && (Handle(s, ev) == Err(InvalidStatus) <==> own && ev.ConfirmReceived? && s.orders[ev.orderId].status != OnTheWay)
            && (Handle(s, ev).Ok? <==> own && (ev.ConfirmReceived? ==> s.orders[ev.orderId].status == OnTheWay))
  {
  }

  // ----- The catalogue and the delivery prices -------------------------------------------------

  /** Only an admin's catalogue operation changes the catalogue as such, only a payment
      takes stock, and only an admin sets the delivery prices. */
  lemma {:induction false} NextCatalogueAndDelivery(s: Shop, ev: Event, i: nat)
    ensures var t := ShopNext(s, ev);
            && t.delivery == (if ev.SetDelivery? then ev.delivery else s.delivery)
            && (ev.Admin? ==> t.catalogue == Next(s.catalogue, ev.op))
            && (PaysNow(s, ev, i) ==>
                  && t.catalogue == s.catalogue.(products := t.catalogue.products)
                  && t.catalogue.products.Keys == s.catalogue.products.Keys
                  && forall p :: p in s.catalogue.products ==>
                       t.catalogue.products[p]
                       == s.catalogue.products[p].(stockQty := s.catalogue.products[p].stockQty - ItemsQty(s.orders[i].items, p)))
            && (!ev.Admin? && (forall j: nat :: !PaysNow(s, ev, j)) ==> t.catalogue == s.catalogue)
  {
    if ev.Admin? {
      AdminActs(s, ev);
    } else if PaysNow(s, ev, i) {
      AcceptedIsMarked(s, ev, i);
      DecrementedMeaning(s.catalogue.products, s.orders[i].items);
    } else if forall j: nat :: !PaysNow(s, ev, j) {
      forall j: nat | j < |s.orders| && PaymentAccepted(s.orders, ev, j) ensures s.orders[j].paidAt.Some? {
        assert !PaysNow(s, ev, j);
      }
      NothingAccepted(s, ev);
    }
    DeliveryStays(s, ev);
  }

  lemma AdminActs(s: Shop, ev: Event)
    requires ev.Admin?
    ensures ShopNext(s, ev) == s.(catalogue := Next(s.catalogue, ev.op))
  {
    hide Apply;
  }

  lemma {:induction false} DeliveryStays(s: Shop, ev: Event)
    ensures ShopNext(s, ev).delivery == if ev.SetDelivery? then ev.delivery else s.delivery
  {
    hide Apply, Cleared, Decremented, Looked, Listed;
  }

  // ----- Orders that go back ------------------------------------------------------------------

  function Progress(status: OrderStatus): nat {
    match status
    case Pending => 0
    case OnTheWay => 1
    case Delivered => 2
  }

  /** An order goes back to an earlier status if and only if an admin sets it so, or
      it is paid after it was sent: paying always writes PENDING. */
  lemma {:induction false} GoesBackIff(s: Shop, ev: Event, i: nat)
    requires i < |s.orders|
    ensures i < |ShopNext(s, ev).orders|
    ensures Progress(ShopNext(s, ev).orders[i].status) < Progress(s.orders[i].status)
            <==> || (&& ev.UpdateStatus? && ev.orderId == i && ev.status.Some?
                     && Progress(ev.status.value) < Progress(s.orders[i].status))
                 || (PaysNow(s, ev, i) && s.orders[i].status != Pending)
  {
    hide Handle, PaymentAccepted;
    NextTracked(s, ev, i);
  }

  /** Bought, sent by an admin, then paid: the order is PENDING again. */
  lemma {:induction false} SentThenPaid(u: UserId, c: string, tx: string)
    requires c != "" && tx != ""
    ensures var evs := [CartAdd(u, 0, 1), Checkout(u, Standard, Some(c)), UpdateStatus(0, Some(OnTheWay), None, None),
                        Webhook(c, tx, "F", Reported("F", c), 1)];
            && |ShopRun(Lamps(1, [], []), evs[..3]).orders| == |ShopRun(Lamps(1, [], []), evs).orders| == 1
            && ShopRun(Lamps(1, [], []), evs[..3]).orders[0].status == OnTheWay
            && ShopRun(Lamps(1, [], []), evs).orders[0].status == Pending
  {
    hide Handle;
    var s := Lamps(1, [], []);
    var evs := [CartAdd(u, 0, 1), Checkout(u, Standard, Some(c)), UpdateStatus(0, Some(OnTheWay), None, None),
                Webhook(c, tx, "F", Reported("F", c), 1)];
    assert evs[..0] == [] && [] + [LampOrder(u, c, None, None)] == [LampOrder(u, c, None, None)] && evs[..4] == evs;
    BoughtLamp(s, evs, 1, u, c, [], 0);
    RunStep(s, evs, 2);
    var sent := ShopRun(s, evs[..3]);
    assert sent.orders == [LampOrder(u, c, None, None).(status := OnTheWay)] by { SentLamp(u, c); }
    RunStep(s, evs, 3);
    assert ByCode(sent.orders, c) == Some(0);
    NextTracked(sent, evs[3], 0);
    PaymentKeepsCount(sent, evs[3]);
  }

  lemma SentLamp(u: UserId, c: string)
    ensures ShopNext(Lamps(1, [], [LampOrder(u, c, None, None)]), UpdateStatus(0, Some(OnTheWay), None, None)).orders
            == [LampOrder(u, c, None, None).(status := OnTheWay)]
  {
  }

  lemma PaymentKeepsCount(s: Shop, ev: Event)
    requires ev.Webhook?
    ensures |ShopNext(s, ev).orders| == |s.orders|
  {
  }

  /** An admin sets the order delivered, or its owner receives it while on the way. */
  ghost predicate Delivers(s: Shop, ev: Event, i: nat) {
    && i < |s.orders|
    && (|| (ev.UpdateStatus? && ev.orderId == i && ev.status == Some(Delivered))
        || (ev == ConfirmReceived(s.orders[i].user, i) && s.orders[i].status == OnTheWay))
  }

  lemma {:induction false} NewIsPending(s: Shop, ev: Event, i: nat)
    requires |s.orders| <= i < |ShopNext(s, ev).orders|
    ensures ShopNext(s, ev).orders[i].status == Pending
  {
    NewOrdersAreUnpaid(s, ev);
  }

  /** Every order delivered in a run was delivered at one of its steps. */
  lemma {:induction false} DeliveredWas(s: Shop, evs: seq<Event>, i: nat)
    requires i < |ShopRun(s, evs).orders| && ShopRun(s, evs).orders[i].status == Delivered
    requires i < |s.orders| ==> s.orders[i].status != Delivered
    ensures exists k :: 0 <= k < |evs| && Delivers(ShopRun(s, evs[..k]), evs[k], i)
    decreases |evs|
  {
    hide Handle, PaymentAccepted;
    var n := |evs| - 1;
    var before := ShopRun(s, evs[..n]);
    if i >= |before.orders| {
      NewIsPending(before, evs[n], i);
    } else {
      NextTracked(before, evs[n], i);
      if before.orders[i].status == Delivered {
        DeliveredWas(s, evs[..n], i);
        var k :| 0 <= k < n && Delivers(ShopRun(s, evs[..n][..k]), evs[..n][k], i);
        assert evs[..n][..k] == evs[..k];
      } else {
        assert Delivers(before, evs[n], i);
      }
    }
  }
}
