/** When an order becomes paid: what the service accepts, what that does not
    promise, and exactly when it does. */
module Payments {
  import opened Common
  import opened Orders
  import opened OrderLaws
  import opened LampShop

  /** A confirmation by its owner, or a webhook, about order `i`. */
  predicate About(orders: seq<Order>, ev: Event, i: nat) {
    match ev
    case Confirm(user, wanted, orderCode, transactionId, _, _) =>
      Looked(orders, wanted, orderCode, transactionId) == Some(i) && orders[i].user == user
    case Webhook(orderCode, _, _, _, _) => orderCode != "" && ByCode(orders, orderCode) == Some(i)
    case _ => false
  }

  /** What the service takes for a payment of order `i`: the owner's confirmation
      with a final transaction, whichever order that was for, or without any
      but with the order's own code; or a webhook whose status is final or missing. */
  predicate PaymentAccepted(orders: seq<Order>, ev: Event, i: nat) {
    && About(orders, ev, i) && i < |orders|
    && match ev
       case Confirm(_, _, orderCode, transactionId, transaction, _) =>
         if transactionId != "" then transaction.Reported? && transaction.statusId == "F"
         else orderCode != "" && orders[i].vivaOrderCode == Some(orderCode)
       case Webhook(_, _, statusId, _, _) => statusId == "F" || statusId == ""
       case _ => false
  }

  function TransactionOf(ev: Event): string {
    match ev
    case Confirm(_, _, _, transactionId, _, _) => transactionId
    case Webhook(_, transactionId, _, _, _) => transactionId
    case _ => ""
  }

  function TimeOf(ev: Event): int {
    match ev
    case Confirm(_, _, _, _, _, now) => now
    case Webhook(_, _, _, _, now) => now
    case _ => 0
  }

  lemma OneOrderAccepted(orders: seq<Order>, ev: Event, i: nat, j: nat)
    requires PaymentAccepted(orders, ev, i) && PaymentAccepted(orders, ev, j)
    ensures i == j
  {
  }

  /** An accepted payment marks that order paid, with the event's transaction. */
  lemma AcceptedIsMarked(s: Shop, ev: Event, i: nat)
    requires PaymentAccepted(s.orders, ev, i) && s.orders[i].paidAt.None?
    ensures ShopNext(s, ev) == MarkedPaid(s, i, TransactionOf(ev), TimeOf(ev))
  {
  }

  /** The orders of `before` keep their payment, and further ones have none. */
  ghost predicate PaymentsStay(before: seq<Order>, after: seq<Order>) {
    && |before| <= |after|
    && (forall i :: 0 <= i < |before| ==>
          after[i].paidAt == before[i].paidAt && after[i].vivaTransactionId == before[i].vivaTransactionId)
    && (forall i :: |before| <= i < |after| ==> after[i].paidAt.None? && after[i].vivaTransactionId.None?)
  }

  /** Without an accepted payment of an unpaid order, no payment changes, and only
      an admin changes the catalogue. */
  lemma {:induction false} NothingAccepted(s: Shop, ev: Event)
    requires forall i: nat :: i < |s.orders| && PaymentAccepted(s.orders, ev, i) ==> s.orders[i].paidAt.Some?
    ensures PaymentsStay(s.orders, ShopNext(s, ev).orders)
    ensures !ev.Admin? ==> ShopNext(s, ev).catalogue == s.catalogue
  {
    if ev.Confirm? || ev.Webhook? {
      RefusedPaymentStays(s, ev);
    }
  }

  lemma {:induction false} RefusedPaymentStays(s: Shop, ev: Event)
    requires ev.Confirm? || ev.Webhook?
    requires forall i: nat :: i < |s.orders| && PaymentAccepted(s.orders, ev, i) ==> s.orders[i].paidAt.Some?
    ensures ShopNext(s, ev).orders == s.orders && ShopNext(s, ev).catalogue == s.catalogue
  {
    match ev
    case Confirm(_, wanted, orderCode, transactionId, _, _) =>
      match Looked(s.orders, wanted, orderCode, transactionId) {
        case None =>
        case Some(i) => assert PaymentAccepted(s.orders, ev, i) ==> s.orders[i].paidAt.Some?;
      }
    case Webhook(orderCode, _, _, _, _) =>
      match ByCode(s.orders, orderCode) {
        case None =>
        case Some(i) => assert PaymentAccepted(s.orders, ev, i) ==> s.orders[i].paidAt.Some?;
      }
  }

  ghost predicate BecomesPaid(s: Shop, ev: Event, i: nat) {
    && i < |s.orders| && s.orders[i].paidAt.None?
    && i < |ShopNext(s, ev).orders| && ShopNext(s, ev).orders[i].paidAt.Some?
  }

  lemma {:induction false} BecomesPaidIffAccepted(s: Shop, ev: Event, i: nat)
    requires i < |s.orders| && s.orders[i].paidAt.None?
    ensures BecomesPaid(s, ev, i) <==> PaymentAccepted(s.orders, ev, i)
  {
    hide Handle;
    if j: nat :| j < |s.orders| && s.orders[j].paidAt.None? && PaymentAccepted(s.orders, ev, j) {
      AcceptedIsMarked(s, ev, j);
      if PaymentAccepted(s.orders, ev, i) {
        OneOrderAccepted(s.orders, ev, i, j);
      }
    } else {
      NothingAccepted(s, ev);
    }
  }

  /** An order made in a run starts unpaid. */
  lemma NewOrdersAreUnpaid(s: Shop, ev: Event)
    ensures var t := ShopNext(s, ev);
            forall i :: |s.orders| <= i < |t.orders| ==> t.orders[i].paidAt.None? && t.orders[i].status == Pending
  {
  }

  ghost predicate AllAbout(orders: seq<Order>, evs: seq<Event>, i: nat) {
    forall k :: 0 <= k < |evs| ==> About(orders, evs[k], i)
  }

  /** However often and in whatever mix a paid order is confirmed or reported
      again, neither the products nor the orders change. */
  lemma {:induction false} RepeatedPaymentsAreIdle(s: Shop, evs: seq<Event>, i: nat)
    requires i < |s.orders| && s.orders[i].paidAt.Some? && AllAbout(s.orders, evs, i)
    ensures ShopRun(s, evs).catalogue == s.catalogue && ShopRun(s, evs).orders == s.orders
    decreases |evs|
  {
    if evs != [] {
      var n := |evs| - 1;
      RepeatedPaymentsAreIdle(s, evs[..n], i);
      assert About(s.orders, evs[n], i);
    }
  }

  /** Each order paid in a run became paid at one of its steps, by a payment that
      was accepted there. */
  lemma {:induction false} PaidSince(s: Shop, evs: seq<Event>, i: nat)
    requires PaidAlready(ShopRun(s, evs).orders, i) && !PaidAlready(s.orders, i)
    ensures exists k :: 0 <= k < |evs| && BecomesPaid(ShopRun(s, evs[..k]), evs[k], i)
                        && PaymentAccepted(ShopRun(s, evs[..k]).orders, evs[k], i)
    decreases |evs|
  {
    hide Handle;
    var n := |evs| - 1;
    var before := ShopRun(s, evs[..n]);
    NewOrdersAreUnpaid(before, evs[n]);
    if PaidAlready(before.orders, i) {
      PaidSince(s, evs[..n], i);
      var k :| 0 <= k < n && BecomesPaid(ShopRun(s, evs[..n][..k]), evs[..n][k], i)
               && PaymentAccepted(ShopRun(s, evs[..n][..k]).orders, evs[..n][k], i);
      assert evs[..n][..k] == evs[..k];
    } else {
      BecomesPaidIffAccepted(before, evs[n], i);
    }
  }

  // ----- Paid only on a final transaction ----------------------------------------------------

  predicate IsPayment(ev: Event) {
    ev.Confirm? || ev.Webhook?
  }

  /** The payment names a transaction, and Viva reports that one as final. */
  predicate NamesFinal(ev: Event) {
    IsPayment(ev) && ev.transactionId != "" && ev.transaction.Reported? && ev.transaction.statusId == "F"
  }

  /** A confirmation that names no transaction, only the order's own code; or a
      webhook that says it is final, or nothing, of no transaction or of one that
      is not final. */
  predicate Unverified(orders: seq<Order>, ev: Event, i: nat) {
    && About(orders, ev, i) && i < |orders|
    && match ev
       case Confirm(_, _, orderCode, transactionId, _, _) =>
         transactionId == "" && orderCode != "" && orders[i].vivaOrderCode == Some(orderCode)
       case Webhook(_, transactionId, statusId, transaction, _) =>
         (statusId == "F" || statusId == "")
         && (transactionId == "" || !(transaction.Reported? && transaction.statusId == "F"))
       case _ => false
  }

  /** An order becomes paid with no final transaction if and only if the payment is
      unverified. */
  lemma {:induction false} PaidWithoutFinalIff(s: Shop, ev: Event, i: nat)
    requires i < |s.orders| && s.orders[i].paidAt.None?
    ensures BecomesPaid(s, ev, i) && !NamesFinal(ev) <==> Unverified(s.orders, ev, i)
  {
    BecomesPaidIffAccepted(s, ev, i);
  }

  /** Every order that becomes paid in the run does so on a final transaction. */
  ghost predicate PaidOnlyOnFinal(s: Shop, evs: seq<Event>) {
    forall k: nat, i: nat :: k < |evs| && BecomesPaid(ShopRun(s, evs[..k]), evs[k], i) ==> NamesFinal(evs[k])
  }

  /** No step of the run is an unverified payment of an unpaid order. */
  ghost predicate NoneUnverified(s: Shop, evs: seq<Event>) {
    forall k: nat, i: nat :: k < |evs| && Unverified(ShopRun(s, evs[..k]).orders, evs[k], i) ==>
      PaidAlready(ShopRun(s, evs[..k]).orders, i)
  }

  lemma {:induction false} PaidOnlyOnFinalIff(s: Shop, evs: seq<Event>)
    ensures PaidOnlyOnFinal(s, evs) <==> NoneUnverified(s, evs)
  {
    hide Handle;
    forall k: nat, i: nat | k < |evs| && i < |ShopRun(s, evs[..k]).orders| && ShopRun(s, evs[..k]).orders[i].paidAt.None?
      ensures BecomesPaid(ShopRun(s, evs[..k]), evs[k], i) && !NamesFinal(evs[k])
              <==> Unverified(ShopRun(s, evs[..k]).orders, evs[k], i)
    {
      PaidWithoutFinalIff(ShopRun(s, evs[..k]), evs[k], i);
    }
  }

  /** Checkout hands the shopper the order's code; sending it back pays the order. */
  lemma {:induction false} OwnCodePays(u: UserId, c: string)
    requires c != ""
    ensures var evs := [CartAdd(u, 0, 1), Checkout(u, Standard, Some(c)), Confirm(u, Some(0), c, "", LookupFailed, 1)];
            && ShopRun(Lamps(1, [], []), evs) == Lamps(0, [], [LampOrder(u, c, None, Some(1))])
            && BecomesPaid(ShopRun(Lamps(1, [], []), evs[..2]), evs[2], 0) && !NamesFinal(evs[2])
  {
    hide Handle;
    var s := Lamps(1, [], []);
    var evs := [CartAdd(u, 0, 1), Checkout(u, Standard, Some(c)), Confirm(u, Some(0), c, "", LookupFailed, 1)];
    var ordered := [LampOrder(u, c, None, None)];
    BoughtLamp(s, evs, 1, u, c, [], 0);
    RunStep(s, evs, 2);
    assert evs[..0] == [] && [] + ordered == ordered && evs[..3] == evs;
    AcceptedIsMarked(Lamps(1, [], ordered), evs[2], 0);
    LampPaid(1, 0, u, c, ordered, "", 1);
  }

  /** So does a webhook that carries no status, whatever transaction it names. */
  lemma {:induction false} StatuslessWebhookPays(s: Shop, i: nat, c: string, tx: string, transaction: Transaction, now: int)
    requires c != "" && ByCode(s.orders, c) == Some(i) && s.orders[i].paidAt.None?
    ensures BecomesPaid(s, Webhook(c, tx, "", transaction, now), i)
  {
    BecomesPaidIffAccepted(s, Webhook(c, tx, "", transaction, now), i);
  }

  /** And a webhook that only says it is final: Viva is not asked. */
  lemma {:induction false} WebhookWordIsTaken(u: UserId, c: string, tx: string, transaction: Transaction)
    requires c != "" && (tx == "" || !(transaction.Reported? && transaction.statusId == "F"))
    ensures var evs := [CartAdd(u, 0, 1), Checkout(u, Standard, Some(c)), Webhook(c, tx, "F", transaction, 1)];
            && ShopRun(Lamps(1, [], []), evs) == Lamps(0, [], [LampOrder(u, c, if tx != "" then Some(tx) else None, Some(1))])
            && BecomesPaid(ShopRun(Lamps(1, [], []), evs[..2]), evs[2], 0) && !NamesFinal(evs[2])
  {
    hide Handle;
    var s := Lamps(1, [], []);
    var evs := [CartAdd(u, 0, 1), Checkout(u, Standard, Some(c)), Webhook(c, tx, "F", transaction, 1)];
    var ordered := [LampOrder(u, c, None, None)];
    BoughtLamp(s, evs, 1, u, c, [], 0);
    RunStep(s, evs, 2);
    assert evs[..0] == [] && [] + ordered == ordered && evs[..3] == evs;
    AcceptedIsMarked(Lamps(1, [], ordered), evs[2], 0);
    LampPaid(1, 0, u, c, ordered, tx, 1);
  }

  // ----- Paid only by a transaction of that order --------------------------------------------

  /** The payment names a final transaction that Viva reports under the order's code. */
  predicate OwnFinal(orders: seq<Order>, ev: Event, i: nat) {
    && i < |orders| && NamesFinal(ev)
    && orders[i].vivaOrderCode == Some(ev.transaction.orderCode)
  }

  /** A confirmation with a final transaction of another code than its order's, or
      a webhook with one of another code than it names itself. */
  predicate Foreign(orders: seq<Order>, ev: Event, i: nat) {
    && About(orders, ev, i) && i < |orders| && NamesFinal(ev)
    && match ev
       case Confirm(_, _, _, _, transaction, _) => orders[i].vivaOrderCode != Some(transaction.orderCode)
       case Webhook(orderCode, _, statusId, transaction, _) =>
         (statusId == "F" || statusId == "") && transaction.orderCode != orderCode
       case _ => false
  }

  /** An order becomes paid without a final transaction of its own if and only if
      the payment is unverified or its transaction is for another code. */
  lemma {:induction false} PaidWithoutOwnIff(s: Shop, ev: Event, i: nat)
    requires i < |s.orders| && s.orders[i].paidAt.None?
    ensures BecomesPaid(s, ev, i) && !OwnFinal(s.orders, ev, i)
            <==> Unverified(s.orders, ev, i) || Foreign(s.orders, ev, i)
  {
    BecomesPaidIffAccepted(s, ev, i);
  }

  ghost predicate PaidOnlyOnOwn(s: Shop, evs: seq<Event>) {
    forall k: nat, i: nat :: k < |evs| && BecomesPaid(ShopRun(s, evs[..k]), evs[k], i) ==>
      OwnFinal(ShopRun(s, evs[..k]).orders, evs[k], i)
  }

  ghost predicate NoneForeign(s: Shop, evs: seq<Event>) {
    forall k: nat, i: nat :: k < |evs| && Foreign(ShopRun(s, evs[..k]).orders, evs[k], i) ==>
      PaidAlready(ShopRun(s, evs[..k]).orders, i)
  }

  /** Over any run, orders become paid only by final transactions of their own if
      and only if no step pays an unpaid order unverified or by a foreign one. */
  lemma {:induction false} PaidOnlyOnOwnIff(s: Shop, evs: seq<Event>)
    ensures PaidOnlyOnOwn(s, evs) <==> NoneUnverified(s, evs) && NoneForeign(s, evs)
  {
    hide Handle;
    forall k: nat, i: nat | k < |evs| && i < |ShopRun(s, evs[..k]).orders| && ShopRun(s, evs[..k]).orders[i].paidAt.None?
      ensures BecomesPaid(ShopRun(s, evs[..k]), evs[k], i) && !OwnFinal(ShopRun(s, evs[..k]).orders, evs[k], i)
              <==> Unverified(ShopRun(s, evs[..k]).orders, evs[k], i) || Foreign(ShopRun(s, evs[..k]).orders, evs[k], i)
    {
      PaidWithoutOwnIff(ShopRun(s, evs[..k]), evs[k], i);
    }
  }

  /** Two shoppers: the first confirms with the second's final transaction and the
      first's order is paid. */
  lemma {:induction false} OtherOrdersTransactionPays(u: UserId, v: UserId, c: string, d: string, tx: string)
    requires c != d && tx != ""
    ensures var evs := TwoBought(u, c, v, d) + [Confirm(u, Some(0), "", tx, Reported("F", d), 1)];
            && ShopRun(Lamps(2, [], []), evs).orders == [LampOrder(u, c, Some(tx), Some(1)), LampOrder(v, d, None, None)]
            && BecomesPaid(ShopRun(Lamps(2, [], []), evs[..4]), evs[4], 0)
            && NamesFinal(evs[4]) && !OwnFinal(ShopRun(Lamps(2, [], []), evs[..4]).orders, evs[4], 0)
  {
    hide Handle;
    var s, evs := Lamps(2, [], []), TwoBought(u, c, v, d) + [Confirm(u, Some(0), "", tx, Reported("F", d), 1)];
    var orders := [LampOrder(u, c, None, None), LampOrder(v, d, None, None)];
    TwoOrdersMade(u, c, v, d, evs);
    RunStep(s, evs, 4);
    AcceptedIsMarked(Lamps(2, [], orders), evs[4], 0);
    LampPaid(2, 0, u, c, orders, tx, 1);
    assert evs[..5] == evs && orders[0 := LampOrder(u, c, Some(tx), Some(1))] == ShopRun(s, evs).orders;
  }

  // ----- One transaction pays at most one order ----------------------------------------------

  /** No transaction is on two orders. */
  ghost predicate TransactionsOnce(orders: seq<Order>) {
    forall i, j :: 0 <= i < j < |orders| && orders[i].vivaTransactionId.Some? ==>
      orders[i].vivaTransactionId != orders[j].vivaTransactionId
  }

  ghost predicate OnlyPaidCarry(orders: seq<Order>) {
    forall i :: 0 <= i < |orders| && orders[i].vivaTransactionId.Some? ==> orders[i].paidAt.Some?
  }

  /** The step pays an unpaid order with a transaction that some order carries. */
  ghost predicate Reuses(orders: seq<Order>, ev: Event) {
    exists i, j :: 0 <= i < |orders| && 0 <= j < |orders| && orders[i].paidAt.None? && PaymentAccepted(orders, ev, i)
                   && TransactionOf(ev) != "" && orders[j].vivaTransactionId == Some(TransactionOf(ev))
  }

  lemma {:induction false} MarkingKeepsOnceIff(s: Shop, ev: Event, i: nat)
    requires OnlyPaidCarry(s.orders) && PaymentAccepted(s.orders, ev, i) && s.orders[i].paidAt.None?
    ensures var after := MarkedPaid(s, i, TransactionOf(ev), TimeOf(ev)).orders;
            OnlyPaidCarry(after) && (TransactionsOnce(after) <==> TransactionsOnce(s.orders) && !Reuses(s.orders, ev))
  {
    var orders, tx := s.orders, TransactionOf(ev);
    var after := MarkedPaid(s, i, tx, TimeOf(ev)).orders;
    forall j | 0 <= j < |orders| && j != i ensures after[j] == orders[j] {
    }
    if tx != "" && TransactionsOnce(after) {
      forall a, b | 0 <= a < |orders| && 0 <= b < |orders| && PaymentAccepted(orders, ev, a)
        ensures orders[b].vivaTransactionId != Some(tx)
      {
        if b != i {
          assert after[b].vivaTransactionId != after[i].vivaTransactionId;
        }
      }
    }
    if TransactionsOnce(after) {
      forall a, b | 0 <= a < b < |orders| && orders[a].vivaTransactionId.Some?
        ensures orders[a].vivaTransactionId != orders[b].vivaTransactionId
      {
        assert a != i;
        assert b != i ==> after[a].vivaTransactionId != after[b].vivaTransactionId;
      }
    }
    if TransactionsOnce(orders) && !Reuses(orders, ev) {
      forall a, b | 0 <= a < b < |after| && after[a].vivaTransactionId.Some?
        ensures after[a].vivaTransactionId != after[b].vivaTransactionId
      {
        if tx != "" && (a == i || b == i) {
          var other := if a == i then b else a;
          assert orders[other].vivaTransactionId != Some(tx);
        }
      }
    }
  }

  /** A step keeps every transaction on at most one order if and only if it does not
      accept a transaction that some order already carries. */
  lemma {:induction false} StepKeepsOnceIff(s: Shop, ev: Event)
    requires OnlyPaidCarry(s.orders)
    ensures OnlyPaidCarry(ShopNext(s, ev).orders)
    ensures TransactionsOnce(ShopNext(s, ev).orders) <==> TransactionsOnce(s.orders) && !Reuses(s.orders, ev)
  {
    hide Handle;
    if i :| 0 <= i < |s.orders| && s.orders[i].paidAt.None? && PaymentAccepted(s.orders, ev, i) {
      AcceptedIsMarked(s, ev, i);
      MarkingKeepsOnceIff(s, ev, i);
    } else {
      NothingAccepted(s, ev);
      StayingKeepsOnce(s.orders, ShopNext(s, ev).orders);
    }
  }

  lemma {:induction false} StayingKeepsOnce(before: seq<Order>, after: seq<Order>)
    requires PaymentsStay(before, after) && OnlyPaidCarry(before)
    ensures OnlyPaidCarry(after) && (TransactionsOnce(after) <==> TransactionsOnce(before))
  {
    if TransactionsOnce(after) {
      forall a, b | 0 <= a < b < |before| && before[a].vivaTransactionId.Some?
        ensures before[a].vivaTransactionId != before[b].vivaTransactionId
      {
        assert after[a].vivaTransactionId != after[b].vivaTransactionId;
      }
    }
  }

  lemma {:induction false} PaidCarryOverRun(s: Shop, evs: seq<Event>, k: nat)
    requires OnlyPaidCarry(s.orders) && k <= |evs|
    ensures OnlyPaidCarry(ShopRun(s, evs[..k]).orders)
  {
    hide Handle, OnlyPaidCarry;
    if k > 0 {
      PaidCarryOverRun(s, evs, k - 1);
      RunStep(s, evs, k - 1);
      StepKeepsOnceIff(ShopRun(s, evs[..k - 1]), evs[k - 1]);
    }
  }

  /** Once a transaction is on two orders it stays so. */
  lemma {:induction false} OnceBefore(s: Shop, evs: seq<Event>, j: nat, k: nat)
    requires OnlyPaidCarry(s.orders) && j <= k <= |evs| && TransactionsOnce(ShopRun(s, evs[..k]).orders)
    ensures TransactionsOnce(ShopRun(s, evs[..j]).orders)
  {
    hide Handle, Reuses, TransactionsOnce, OnlyPaidCarry;
    if j < k {
      PaidCarryOverRun(s, evs, k - 1);
      RunStep(s, evs, k - 1);
      StepKeepsOnceIff(ShopRun(s, evs[..k - 1]), evs[k - 1]);
      OnceBefore(s, evs, j, k - 1);
    }
  }

  lemma {:induction false} OnceUpTo(s: Shop, evs: seq<Event>, k: nat)
    requires OnlyPaidCarry(s.orders) && TransactionsOnce(s.orders) && k <= |evs|
    requires forall j :: 0 <= j < |evs| ==> !Reuses(ShopRun(s, evs[..j]).orders, evs[j])
    ensures TransactionsOnce(ShopRun(s, evs[..k]).orders)
  {
    hide Handle, Reuses, TransactionsOnce, OnlyPaidCarry;
    if k > 0 {
      OnceUpTo(s, evs, k - 1);
      PaidCarryOverRun(s, evs, k - 1);
      RunStep(s, evs, k - 1);
      StepKeepsOnceIff(ShopRun(s, evs[..k - 1]), evs[k - 1]);
    }
  }

  /** Over any run, one transaction pays at most one order if and only if no step
      accepts a transaction that some order already carries. */
  lemma {:induction false} TransactionsOnceIff(s: Shop, evs: seq<Event>)
    requires OnlyPaidCarry(s.orders) && TransactionsOnce(s.orders)
    ensures TransactionsOnce(ShopRun(s, evs).orders)
            <==> forall k :: 0 <= k < |evs| ==> !Reuses(ShopRun(s, evs[..k]).orders, evs[k])
  {
    hide Handle, Reuses, TransactionsOnce, OnlyPaidCarry;
    assert evs[..|evs|] == evs;
    if TransactionsOnce(ShopRun(s, evs).orders) {
      forall k | 0 <= k < |evs| ensures !Reuses(ShopRun(s, evs[..k]).orders, evs[k]) {
        OnceBefore(s, evs, k + 1, |evs|);
        PaidCarryOverRun(s, evs, k);
        RunStep(s, evs, k);
        StepKeepsOnceIff(ShopRun(s, evs[..k]), evs[k]);
      }
    }
    if forall k :: 0 <= k < |evs| ==> !Reuses(ShopRun(s, evs[..k]).orders, evs[k]) {
      OnceUpTo(s, evs, |evs|);
    }
  }

  function TwoForOne(u: UserId, c: string, d: string, tx: string): seq<Event> {
    TwoBought(u, c, u, d) + [Confirm(u, Some(0), "", tx, Reported("F", c), 1), Confirm(u, Some(1), "", tx, Reported("F", c), 2)]
  }

  /** One shopper, two orders, and one final transaction that pays them both. */
  lemma {:induction false} OneTransactionPaysTwo(u: UserId, c: string, d: string, tx: string)
    requires tx != ""
    ensures var after := ShopRun(Lamps(2, [], []), TwoForOne(u, c, d, tx)).orders;
            && after == [LampOrder(u, c, Some(tx), Some(1)), LampOrder(u, d, Some(tx), Some(2))]
            && !TransactionsOnce(after)
  {
    hide Handle;
    var s, evs := Lamps(2, [], []), TwoForOne(u, c, d, tx);
    var orders := [LampOrder(u, c, None, None), LampOrder(u, d, None, None)];
    var half := [LampOrder(u, c, Some(tx), Some(1)), LampOrder(u, d, None, None)];
    TwoOrdersMade(u, c, u, d, evs);
    RunStep(s, evs, 4);
    AcceptedIsMarked(Lamps(2, [], orders), evs[4], 0);
    LampPaid(2, 0, u, c, orders, tx, 1);
    assert orders[0 := half[0]] == half;
    RunStep(s, evs, 5);
    AcceptedIsMarked(Lamps(1, [], half), evs[5], 1);
    LampPaid(1, 1, u, d, half, tx, 2);
    var after := ShopRun(s, evs).orders;
    assert evs[..6] == evs && half[1 := LampOrder(u, d, Some(tx), Some(2))] == after;
    assert after[0].vivaTransactionId == after[1].vivaTransactionId;
  }
}
