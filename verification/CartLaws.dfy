/** What every request does to every cart, product by product. */
module CartLaws {
  import opened Common
  import opened Catalogue
  import opened Orders
  import opened OrderInvariants
  import opened Payments

  // ----- Edits of the list of lines ---------------------------------------------------------

  lemma {:induction false} QtyOfConcat(a: seq<CartLine>, b: seq<CartLine>, user: UserId, p: Id)
    ensures CartQty(a + b, user, p) == CartQty(a, user, p) + CartQty(b, user, p)
  {
    if a == [] {
      assert a + b == b;
    } else {
      assert (a + b)[1..] == a[1..] + b;
      QtyOfConcat(a[1..], b, user, p);
    }
  }

  function LineQty(line: CartLine, user: UserId, p: Id): int {
    if line.user == user && line.product == p then line.qty else 0
  }

  lemma {:induction false} QtyOfLine(line: CartLine, user: UserId, p: Id)
    ensures CartQty([line], user, p) == LineQty(line, user, p)
  {
    assert [line][1..] == [];
  }

  lemma {:induction false} QtyAround(cart: seq<CartLine>, k: nat, user: UserId, p: Id)
    requires k < |cart|
    ensures CartQty(cart, user, p)
            == CartQty(cart[..k], user, p) + LineQty(cart[k], user, p) + CartQty(cart[k + 1..], user, p)
  {
    assert cart == cart[..k] + ([cart[k]] + cart[k + 1..]);
    QtyOfConcat(cart[..k], [cart[k]] + cart[k + 1..], user, p);
    QtyOfConcat([cart[k]], cart[k + 1..], user, p);
    QtyOfLine(cart[k], user, p);
  }

  lemma {:induction false} QtyOfNone(cart: seq<CartLine>, user: UserId, p: Id)
    requires forall l :: l in cart ==> l.user != user || l.product != p
    ensures CartQty(cart, user, p) == 0
  {
    if cart != [] {
      assert cart[0] in cart && forall l :: l in cart[1..] ==> l in cart;
      QtyOfNone(cart[1..], user, p);
    }
  }

  /** With one line per product, the quantity is that line's. */
  lemma {:induction false} QtyIsLines(cart: seq<CartLine>, user: UserId, p: Id)
    requires CartOk(cart)
    ensures match LineAt(cart, user, p)
            case None => CartQty(cart, user, p) == 0
            case Some(k) => CartQty(cart, user, p) == cart[k].qty
  {
    match LineAt(cart, user, p)
    case None => QtyOfNone(cart, user, p);
    case Some(k) =>
      QtyAround(cart, k, user, p);
      forall l | l in cart[..k] + cart[k + 1..] ensures l.user != user || l.product != p {
        var i :| 0 <= i < |cart| && i != k && cart[i] == l;
      }
      QtyOfNone(cart[..k], user, p);
      QtyOfNone(cart[k + 1..], user, p);
  }

  lemma {:induction false} QtyAfterSet(cart: seq<CartLine>, k: nat, qty: int, user: UserId, p: Id)
    requires k < |cart|
    ensures CartQty(cart[k := cart[k].(qty := qty)], user, p)
            == CartQty(cart, user, p) - LineQty(cart[k], user, p) + LineQty(cart[k].(qty := qty), user, p)
  {
    var after := cart[k := cart[k].(qty := qty)];
    assert after[..k] == cart[..k] && after[k + 1..] == cart[k + 1..];
    QtyAround(cart, k, user, p);
    QtyAround(after, k, user, p);
  }

  lemma {:induction false} QtyAfterAppend(cart: seq<CartLine>, line: CartLine, user: UserId, p: Id)
    ensures CartQty(cart + [line], user, p) == CartQty(cart, user, p) + LineQty(line, user, p)
  {
    QtyOfConcat(cart, [line], user, p);
    QtyOfLine(line, user, p);
  }

  lemma {:induction false} QtyAfterDrop(cart: seq<CartLine>, k: nat, user: UserId, p: Id)
    requires k < |cart|
    ensures CartQty(cart[..k] + cart[k + 1..], user, p) == CartQty(cart, user, p) - LineQty(cart[k], user, p)
  {
    QtyAround(cart, k, user, p);
    QtyOfConcat(cart[..k], cart[k + 1..], user, p);
  }

  // ----- One request ---------------------------------------------------------------------------

  /** The product exists and is active. */
  predicate Buyable(products: map<Id, Product>, p: Id) {
    p in products && products[p].isActive
  }

  /** The request sets the user's quantity of `p`. */
  predicate SetsQty(s: Shop, ev: Event, user: UserId, p: Id) {
    match ev
    case CartAdd(u, q, qty) =>
      && u == user && q == p && Buyable(s.catalogue.products, p)
      && 1 <= CartQty(s.cart, user, p) + qty <= s.catalogue.products[p].stockQty
    case CartUpdate(u, q, qty) =>
      && u == user && q == p
      && (qty < 1 || (Buyable(s.catalogue.products, p) && qty <= s.catalogue.products[p].stockQty && CartQty(s.cart, user, p) > 0))
    case CartRemove(u, q) => u == user && q == p
    case _ => false
  }

  function QtySet(s: Shop, ev: Event): int {
    match ev
    case CartAdd(u, p, qty) => CartQty(s.cart, u, p) + qty
    case CartUpdate(_, _, qty) => if qty < 1 then 0 else qty
    case _ => 0
  }

  predicate MayCheckOut(s: Shop, user: UserId, viva: Option<string>) {
    && viva.Some?
    && (exists l :: l in s.cart && l.user == user && Buyable(s.catalogue.products, l.product))
    && (forall l :: l in s.cart && l.user == user && Buyable(s.catalogue.products, l.product) ==>
          l.qty <= s.catalogue.products[l.product].stockQty)
  }

  /** A payment of order `i` that goes through, or a confirmation of it once paid. */
  predicate Settles(orders: seq<Order>, ev: Event, i: nat) {
    && i < |orders|
    && if orders[i].paidAt.None? then PaymentAccepted(orders, ev, i) else ev.Confirm? && About(orders, ev, i)
  }

  /** The request leaves the user's cart empty: a checkout, or a payment of an order
      of that user. */
  predicate Empties(s: Shop, ev: Event, user: UserId) {
    || (ev.Checkout? && ev.user == user && MayCheckOut(s, user, ev.viva))
    || exists i :: 0 <= i < |s.orders| && Settles(s.orders, ev, i) && s.orders[i].user == user
  }

  lemma {:induction false} AddedQty(s: Shop, ev: Event, user: UserId, p: Id)
    requires CartOk(s.cart) && ev.CartAdd?
    ensures CartQty(ShopNext(s, ev).cart, user, p)
            == if SetsQty(s, ev, user, p) then QtySet(s, ev) else CartQty(s.cart, user, p)
  {
    QtyIsLines(s.cart, ev.user, ev.product);
    match LineAt(s.cart, ev.user, ev.product)
    case None => QtyAfterAppend(s.cart, CartLine(ev.user, ev.product, ev.qty), user, p);
    case Some(k) => QtyAfterSet(s.cart, k, s.cart[k].qty + ev.qty, user, p);
  }

  lemma {:induction false} UpdatedQty(s: Shop, ev: Event, user: UserId, p: Id)
    requires CartOk(s.cart) && (ev.CartUpdate? || ev.CartRemove?)
    ensures CartQty(ShopNext(s, ev).cart, user, p)
            == if SetsQty(s, ev, user, p) then QtySet(s, ev) else CartQty(s.cart, user, p)
  {
    QtyIsLines(s.cart, ev.user, ev.product);
    match LineAt(s.cart, ev.user, ev.product)
    case None =>
    case Some(k) =>
      QtyAfterDrop(s.cart, k, user, p);
      if ev.CartUpdate? { QtyAfterSet(s.cart, k, ev.qty, user, p); }
  }

  lemma {:induction false} CheckoutQty(s: Shop, ev: Event, user: UserId, p: Id)
    requires ev.Checkout?
    ensures CartQty(ShopNext(s, ev).cart, user, p) == if Empties(s, ev, user) then 0 else CartQty(s.cart, user, p)
  {
    CheckoutSucceedsIff(s, ev.user, ev.requested, ev.viva);
    ClearedQty(s.cart, ev.user, user, p);
  }

  lemma {:induction false} PaymentQty(s: Shop, ev: Event, user: UserId, p: Id)
    requires ev.Confirm? || ev.Webhook?
    ensures CartQty(ShopNext(s, ev).cart, user, p) == if Empties(s, ev, user) then 0 else CartQty(s.cart, user, p)
  {
    if i :| 0 <= i < |s.orders| && Settles(s.orders, ev, i) {
      SettlingClears(s, ev, i);
      ClearedQty(s.cart, s.orders[i].user, user, p);
      forall j | 0 <= j < |s.orders| && Settles(s.orders, ev, j) ensures j == i {
        OneSettled(s.orders, ev, i, j);
      }
    } else {
      NothingSettledStays(s, ev);
    }
  }

  lemma OneSettled(orders: seq<Order>, ev: Event, i: nat, j: nat)
    requires Settles(orders, ev, i) && Settles(orders, ev, j)
    ensures i == j
  {
  }

  lemma {:induction false} SettlingClears(s: Shop, ev: Event, i: nat)
    requires (ev.Confirm? || ev.Webhook?) && Settles(s.orders, ev, i)
    ensures ShopNext(s, ev).cart == Cleared(s.cart, s.orders[i].user)
  {
    if s.orders[i].paidAt.None? {
      AcceptedIsMarked(s, ev, i);
    }
  }

  lemma {:induction false} NothingSettledStays(s: Shop, ev: Event)
    requires (ev.Confirm? || ev.Webhook?) && forall i :: 0 <= i < |s.orders| ==> !Settles(s.orders, ev, i)
    ensures ShopNext(s, ev).cart == s.cart
  {
    match ev
    case Confirm(_, wanted, orderCode, transactionId, _, _) =>
      match Looked(s.orders, wanted, orderCode, transactionId) {
        case None =>
        case Some(i) => assert !Settles(s.orders, ev, i);
      }
    case Webhook(orderCode, _, _, _, _) =>
      match ByCode(s.orders, orderCode) {
        case None =>
        case Some(i) => assert !Settles(s.orders, ev, i);
      }
  }

  /** After any request, how many units of any product anybody has in the cart. */
  lemma {:induction false} NextCartQty(s: Shop, ev: Event, user: UserId, p: Id)
    requires CartOk(s.cart)
    ensures CartQty(ShopNext(s, ev).cart, user, p)
            == if Empties(s, ev, user) then 0
               else if SetsQty(s, ev, user, p) then QtySet(s, ev)
               else CartQty(s.cart, user, p)
  {
    if ev.CartAdd? {
      AddedQty(s, ev, user, p);
    } else if ev.CartUpdate? || ev.CartRemove? {
      UpdatedQty(s, ev, user, p);
    } else if ev.Checkout? {
      CheckoutQty(s, ev, user, p);
    } else if ev.Confirm? || ev.Webhook? {
      PaymentQty(s, ev, user, p);
    }
  }

  /** A cart request succeeds if and only if it sets the quantity, and a line to
      change or remove is there. */
  lemma {:induction false} CartRequestOkIff(s: Shop, ev: Event)
    requires CartOk(s.cart) && (ev.CartAdd? || ev.CartUpdate? || ev.CartRemove?)
    ensures Handle(s, ev).Ok?
            <==> SetsQty(s, ev, ev.user, ev.product) && (ev.CartAdd? || CartQty(s.cart, ev.user, ev.product) > 0)
  {
    QtyIsLines(s.cart, ev.user, ev.product);
  }

  /** A confirmation succeeds if and only if it settles an order. */
  lemma {:induction false} ConfirmOkIff(s: Shop, ev: Event)
    requires ev.Confirm?
    ensures Handle(s, ev).Ok? <==> exists i :: 0 <= i < |s.orders| && Settles(s.orders, ev, i)
  {
    match Looked(s.orders, ev.wanted, ev.orderCode, ev.transactionId)
    case None =>
    case Some(i) => assert Handle(s, ev).Ok? <==> Settles(s.orders, ev, i);
  }

  // ----- Why a request is refused -----------------------------------------------------------------

  lemma {:induction false} CartRefusals(s: Shop, ev: Event)
    requires CartOk(s.cart) && (ev.CartAdd? || (ev.CartUpdate? && ev.qty >= 1))
    ensures var onSale := Buyable(s.catalogue.products, ev.product);
            var held := CartQty(s.cart, ev.user, ev.product);
            var asked := if ev.CartAdd? then held + ev.qty else ev.qty;
            && (Handle(s, ev) == Err(ProductMissing) <==> !onSale)
            && (Handle(s, ev) == Err(OutOfStock) <==> onSale && asked > s.catalogue.products[ev.product].stockQty)
            && (Handle(s, ev) == Err(InvalidQty)
                <==> ev.CartAdd? && onSale && asked <= s.catalogue.products[ev.product].stockQty && asked < 1)
            && (Handle(s, ev) == Err(CartLineMissing)
                <==> ev.CartUpdate? && onSale && asked <= s.catalogue.products[ev.product].stockQty && held == 0)
  {
    QtyIsLines(s.cart, ev.user, ev.product);
    hide CartQty;
  }

  lemma {:induction false} CheckoutRefusals(s: Shop, ev: Event)
    requires ev.Checkout?
    ensures var anyLine := exists l :: l in s.cart && l.user == ev.user && Buyable(s.catalogue.products, l.product);
            var within := forall l :: l in s.cart && l.user == ev.user && Buyable(s.catalogue.products, l.product) ==>
                            l.qty <= s.catalogue.products[l.product].stockQty;
            && (Handle(s, ev) == Err(CartEmpty) <==> !anyLine)
            && (Handle(s, ev) == Err(ShopError.OutOfStock) <==> anyLine && !within)
            && (Handle(s, ev) == Err(VivaCheckoutFailed) <==> anyLine && within && ev.viva.None?)
  {
    CheckoutSucceedsIff(s, ev.user, ev.requested, Some(""));
    var lines := Listed(s.catalogue.products, s.cart, ev.user);
    ListedOnSale(s.catalogue.products, s.cart, ev.user);
    assert lines != [] ==> lines[0] in lines;
    hide Listed, Cleared, ItemsOf, InStock, NewOrder;
  }

  lemma {:induction false} ConfirmRefusals(s: Shop, ev: Event)
    requires ev.Confirm?
    ensures var found := Looked(s.orders, ev.wanted, ev.orderCode, ev.transactionId);
            && (Handle(s, ev) == Err(OrderNotFound) <==> found.None?)
            && (Handle(s, ev) == Err(OrderForbidden) <==> found.Some? && s.orders[found.value].user != ev.user)
            && (Handle(s, ev) == Err(PaymentPending)
                <==> found.Some? && s.orders[found.value].user == ev.user && !Settles(s.orders, ev, found.value))
  {
  }

  // ----- Runs ------------------------------------------------------------------------------------

  /** The request is neither the user's own cart request or checkout nor a payment
      of an order of that user. */
  ghost predicate LeavesAlone(s: Shop, ev: Event, user: UserId) {
    !Empties(s, ev, user) && forall p: Id :: !SetsQty(s, ev, user, p)
  }

  lemma {:induction false} AloneStays(s: Shop, ev: Event, user: UserId, p: Id)
    requires CartOk(s.cart) && LeavesAlone(s, ev, user)
    ensures CartQty(ShopNext(s, ev).cart, user, p) == CartQty(s.cart, user, p)
  {
    hide Handle, Empties, SetsQty;
    NextCartQty(s, ev, user, p);
  }

  /** Nobody else's requests, and no payment of somebody else's order, change what a
      shopper has in the cart. */
  lemma {:induction false} CartIsOnesOwn(s: Shop, evs: seq<Event>, user: UserId, p: Id)
    requires CartOk(s.cart) && OrdersAddUp(s.orders)
    requires forall k :: 0 <= k < |evs| ==> LeavesAlone(ShopRun(s, evs[..k]), evs[k], user)
    ensures CartQty(ShopRun(s, evs).cart, user, p) == CartQty(s.cart, user, p)
    decreases |evs|
  {
    hide Handle, LeavesAlone, CartQty, CartOk, OrdersAddUp;
    if evs != [] {
      var n := |evs| - 1;
      forall k | 0 <= k < n ensures LeavesAlone(ShopRun(s, evs[..n][..k]), evs[..n][k], user) {
        assert evs[..n][..k] == evs[..k] && LeavesAlone(ShopRun(s, evs[..k]), evs[k], user);
      }
      CartIsOnesOwn(s, evs[..n], user, p);
      RunAddsUp(s, evs[..n]);
      assert LeavesAlone(ShopRun(s, evs[..n]), evs[n], user);
      AloneStays(ShopRun(s, evs[..n]), evs[n], user, p);
    }
  }
}
