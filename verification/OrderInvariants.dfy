/** What every run keeps of the orders and of the cart. */
module OrderInvariants {
  import opened Common
  import opened Catalogue
  import opened Orders
  import opened OrderLaws

  // ----- Orders add up ---------------------------------------------------------------------

  ghost predicate OrderAddsUp(o: Order) {
    && o.items != []
    && (forall i :: 0 <= i < |o.items| ==> o.items[i].qty >= 1)
    && o.subtotal == Subtotal(o.items) && o.subtotal >= 0
    && o.total == o.subtotal + o.deliveryFee && o.deliveryFee >= 0
    && (o.deliveryType == Standard || o.deliveryType == Express)
    && o.vivaOrderCode.Some?
  }

  ghost predicate OrdersAddUp(orders: seq<Order>) {
    forall i :: 0 <= i < |orders| ==> OrderAddsUp(orders[i])
  }

  // ----- The cart ---------------------------------------------------------------------------

  ghost predicate OneLineEach(cart: seq<CartLine>) {
    forall i, j :: 0 <= i < j < |cart| ==> cart[i].user != cart[j].user || cart[i].product != cart[j].product
  }

  ghost predicate CartOk(cart: seq<CartLine>) {
    OneLineEach(cart) && forall i :: 0 <= i < |cart| ==> cart[i].qty >= 1
  }

  /** Units of `p` in the user's cart. */
  function CartQty(cart: seq<CartLine>, user: UserId, p: Id): int {
    if cart == [] then 0
    else CartQty(cart[1..], user, p) + (if cart[0].user == user && cart[0].product == p then cart[0].qty else 0)
  }

  lemma {:induction false} ClearedMeaning(cart: seq<CartLine>, user: UserId)
    ensures forall l :: l in Cleared(cart, user) <==> l in cart && l.user != user
  {
    if cart != [] {
      ClearedMeaning(cart[1..], user);
      assert forall l :: l in cart <==> l == cart[0] || l in cart[1..];
    }
  }

  lemma {:induction false} ConsKeepsCart(line: CartLine, rest: seq<CartLine>)
    requires CartOk(rest) && line.qty >= 1
    requires forall l :: l in rest ==> l.user != line.user || l.product != line.product
    ensures CartOk([line] + rest)
  {
    var cart := [line] + rest;
    forall i, j | 0 <= i < j < |cart| ensures cart[i].user != cart[j].user || cart[i].product != cart[j].product {
      assert cart[j] == rest[j - 1] && rest[j - 1] in rest;
      assert i > 0 ==> cart[i] == rest[i - 1];
    }
  }

  lemma {:induction false} ClearedKeepsCart(cart: seq<CartLine>, user: UserId)
    requires CartOk(cart)
    ensures CartOk(Cleared(cart, user))
  {
    if cart != [] {
      assert forall i :: 0 <= i < |cart[1..]| ==> cart[1..][i] == cart[i + 1];
      ClearedKeepsCart(cart[1..], user);
      if cart[0].user != user {
        ClearedMeaning(cart[1..], user);
        ConsKeepsCart(cart[0], Cleared(cart[1..], user));
      }
    }
  }

  /** Clearing takes the user's units and nobody else's. */
  lemma {:induction false} ClearedQty(cart: seq<CartLine>, user: UserId, other: UserId, p: Id)
    ensures CartQty(Cleared(cart, user), other, p) == if other == user then 0 else CartQty(cart, other, p)
  {
    if cart != [] {
      ClearedQty(cart[1..], user, other, p);
      var rest := Cleared(cart[1..], user);
      if cart[0].user != user {
        assert Cleared(cart, user) == [cart[0]] + rest && ([cart[0]] + rest)[1..] == rest;
      } else {
        assert Cleared(cart, user) == rest;
      }
    }
  }

  lemma {:induction false} SetKeepsCart(cart: seq<CartLine>, k: nat, qty: int)
    requires CartOk(cart) && k < |cart| && qty >= 1
    ensures CartOk(cart[k := cart[k].(qty := qty)])
  {
    var after := cart[k := cart[k].(qty := qty)];
    forall i | 0 <= i < |after| ensures after[i].user == cart[i].user && after[i].product == cart[i].product && after[i].qty >= 1 {
    }
  }

  lemma {:induction false} AppendKeepsCart(cart: seq<CartLine>, line: CartLine)
    requires CartOk(cart) && line.qty >= 1 && forall l :: l in cart ==> l.user != line.user || l.product != line.product
    ensures CartOk(cart + [line])
  {
    var after := cart + [line];
    forall i, j | 0 <= i < j < |after| ensures after[i].user != after[j].user || after[i].product != after[j].product {
      assert after[i] == cart[i] && cart[i] in cart;
    }
  }

  lemma {:induction false} DropKeepsCart(cart: seq<CartLine>, k: nat)
    requires CartOk(cart) && k < |cart|
    ensures CartOk(cart[..k] + cart[k + 1..])
  {
    var after := cart[..k] + cart[k + 1..];
    assert forall i :: 0 <= i < |after| ==> after[i] == if i < k then cart[i] else cart[i + 1];
  }

  lemma {:induction false} EditsKeepCart(s: Shop, ev: Event)
    requires CartOk(s.cart) && (ev.CartAdd? || ev.CartUpdate? || ev.CartRemove?)
    ensures CartOk(ShopNext(s, ev).cart)
  {
    match LineAt(s.cart, ev.user, ev.product)
    case None =>
      if ev.CartAdd? && ev.qty >= 1 { AppendKeepsCart(s.cart, CartLine(ev.user, ev.product, ev.qty)); }
    case Some(k) =>
      if ev.CartAdd? && s.cart[k].qty + ev.qty >= 1 { SetKeepsCart(s.cart, k, s.cart[k].qty + ev.qty); }
      if ev.CartUpdate? && ev.qty >= 1 { SetKeepsCart(s.cart, k, ev.qty); }
      DropKeepsCart(s.cart, k);
  }

  lemma {:induction false} NextKeepsCart(s: Shop, ev: Event)
    requires CartOk(s.cart)
    ensures CartOk(ShopNext(s, ev).cart)
  {
    match ev
    case Checkout(user, _, _) => ClearedKeepsCart(s.cart, user);
    case Confirm(user, wanted, orderCode, transactionId, _, _) =>
      ClearedKeepsCart(s.cart, user);
    case Webhook(orderCode, _, _, _, _) =>
      match ByCode(s.orders, orderCode) {
        case None =>
        case Some(i) => ClearedKeepsCart(s.cart, s.orders[i].user);
      }
    case _ =>
      if ev.CartAdd? || ev.CartUpdate? || ev.CartRemove? {
        EditsKeepCart(s, ev);
      }
  }

  // ----- Checkout ----------------------------------------------------------------------------

  lemma {:induction false} ListedQty(products: map<Id, Product>, cart: seq<CartLine>, user: UserId, p: Id)
    requires forall i :: 0 <= i < |Listed(products, cart, user)| ==> Listed(products, cart, user)[i].product in products
    ensures ItemsQty(ItemsOf(products, Listed(products, cart, user)), p)
            == if OnSale(products, p) then CartQty(cart, user, p) else 0
  {
    if cart == [] {
      assert Listed(products, cart, user) == [];
    } else {
      var rest := Listed(products, cart[1..], user);
      var lines := Listed(products, cart, user);
      assert forall i :: 0 <= i < |rest| ==> rest[i] == lines[i];
      ListedQty(products, cart[1..], user, p);
      if cart[0].user == user && OnSale(products, cart[0].product) {
        assert lines == rest + [cart[0]];
        assert ItemsOf(products, lines)[..|rest|] == ItemsOf(products, rest);
      } else {
        assert lines == rest;
      }
    }
  }

  /** The subtotal of some items and more is the sum of both, and one item's is its
      price times its quantity. */
  lemma {:induction false} SubtotalAdds(a: seq<OrderItem>, b: seq<OrderItem>, item: OrderItem)
    ensures Subtotal([]) == 0 && Subtotal([item]) == item.price * item.qty
    ensures Subtotal(a + b) == Subtotal(a) + Subtotal(b)
    decreases |b|
  {
    assert [item][..0] == [];
    if b == [] {
      assert a + b == a;
    } else {
      var n := |b| - 1;
      assert (a + b)[..|a + b| - 1] == a + b[..n];
      SubtotalAdds(a, b[..n], item);
    }
  }

  lemma {:induction false} SubtotalIsNonNegative(items: seq<OrderItem>)
    requires forall i :: 0 <= i < |items| ==> items[i].qty >= 1
    ensures Subtotal(items) >= 0
  {
    if items != [] {
      SubtotalIsNonNegative(items[..|items| - 1]);
      PriceTimesQty(items[|items| - 1].price, items[|items| - 1].qty);
    }
  }

  lemma PriceTimesQty(a: nat, b: nat)
    ensures a * b >= 0
  {
  }

  lemma {:induction false} ListedFromCart(products: map<Id, Product>, cart: seq<CartLine>, user: UserId)
    requires CartOk(cart)
    ensures forall i :: 0 <= i < |Listed(products, cart, user)| ==>
              OnSale(products, Listed(products, cart, user)[i].product) && Listed(products, cart, user)[i].qty >= 1
  {
    ListedOnSale(products, cart, user);
    forall i | 0 <= i < |Listed(products, cart, user)|
      ensures OnSale(products, Listed(products, cart, user)[i].product) && Listed(products, cart, user)[i].qty >= 1
    {
      assert Listed(products, cart, user)[i] in cart;
    }
  }

  /** What the shopper is charged: today's name and price for each item, and a fee
      that is waived from the threshold on. */
  ghost predicate ChargedNow(s: Shop, o: Order, requested: DeliveryType) {
    && (forall i :: 0 <= i < |o.items| ==>
          && OnSale(s.catalogue.products, o.items[i].product)
          && o.items[i].name == s.catalogue.products[o.items[i].product].name
          && o.items[i].price == s.catalogue.products[o.items[i].product].price
          && o.items[i].qty <= s.catalogue.products[o.items[i].product].stockQty)
    && (o.subtotal >= s.delivery.maximumPrice ==> o.total == o.subtotal)
    && (o.subtotal < s.delivery.maximumPrice ==>
          o.total == o.subtotal + if requested == Express then s.delivery.expressPrice else s.delivery.standardPrice)
    && (o.deliveryType == Express <==> requested == Express)
  }

  /** Not paid, sent or invoiced yet, and with the code that Viva gave. */
  ghost predicate JustOrdered(o: Order, viva: Option<string>) {
    && o.status == Pending && o.paidAt.None? && o.shippingInfo.None? && o.invoice.None?
    && o.vivaTransactionId.None? && o.vivaOrderCode == viva
  }

  /** A checkout that succeeds adds one unpaid order: the shopper's cart lines that
      are on sale, at today's prices, within stock; it empties that cart alone. */
  lemma {:induction false} CheckoutTakesTheCart(s: Shop, user: UserId, requested: DeliveryType, viva: Option<string>, p: Id, other: UserId)
    requires CartOk(s.cart) && CheckedOut(s, user, requested, viva).Ok?
    ensures var t := CheckedOut(s, user, requested, viva).value;
            && |t.orders| == |s.orders| + 1 && t.orders[..|s.orders|] == s.orders
            && t.catalogue == s.catalogue
            && OrderAddsUp(t.orders[|s.orders|]) && ChargedNow(s, t.orders[|s.orders|], requested)
            && t.orders[|s.orders|].user == user && JustOrdered(t.orders[|s.orders|], viva)
            && ItemsQty(t.orders[|s.orders|].items, p) == (if OnSale(s.catalogue.products, p) then CartQty(s.cart, user, p) else 0)
            && CartQty(t.cart, other, p) == if other == user then 0 else CartQty(s.cart, other, p)
  {
    var lines := Listed(s.catalogue.products, s.cart, user);
    ListedFromCart(s.catalogue.products, s.cart, user);
    ListedQty(s.catalogue.products, s.cart, user, p);
    var items := ItemsOf(s.catalogue.products, lines);
    SubtotalIsNonNegative(items);
    ClearedQty(s.cart, user, other, p);
  }

  /** Checkout succeeds if and only if the shopper has a line on sale, every such
      line is within stock, and the payment could be started. */
  lemma {:induction false} CheckoutSucceedsIff(s: Shop, user: UserId, requested: DeliveryType, viva: Option<string>)
    ensures CheckedOut(s, user, requested, viva).Ok?
            <==> && viva.Some?
                 && (exists l :: l in s.cart && l.user == user && OnSale(s.catalogue.products, l.product))
                 && (forall l :: l in s.cart && l.user == user && OnSale(s.catalogue.products, l.product) ==>
                       l.qty <= s.catalogue.products[l.product].stockQty)
  {
    var lines := Listed(s.catalogue.products, s.cart, user);
    ListedOnSale(s.catalogue.products, s.cart, user);
    if lines != [] {
      assert lines[0] in s.cart;
    }
    if InStock(s.catalogue.products, lines) {
      forall l | l in s.cart && l.user == user && OnSale(s.catalogue.products, l.product)
        ensures l.qty <= s.catalogue.products[l.product].stockQty
      {
        assert l in lines;
      }
    }
    forall i | 0 <= i < |lines| ensures lines[i] in s.cart && lines[i].user == user && OnSale(s.catalogue.products, lines[i].product) {
      assert lines[i] in lines;
    }
  }

  lemma {:induction false} CheckoutAddsUp(s: Shop, ev: Event)
    requires CartOk(s.cart) && OrdersAddUp(s.orders) && ev.Checkout?
    ensures OrdersAddUp(ShopNext(s, ev).orders)
  {
    if CheckedOut(s, ev.user, ev.requested, ev.viva).Ok? {
      CheckoutTakesTheCart(s, ev.user, ev.requested, ev.viva, 0, ev.user);
      var t := ShopNext(s, ev);
      assert forall i :: 0 <= i < |s.orders| ==> t.orders[i] == t.orders[..|s.orders|][i];
    }
  }

  lemma {:induction false} SettledAddsUp(before: seq<Order>, after: seq<Order>)
    requires OrdersAddUp(before) && OrdersExtend(before, after) && |after| == |before|
    ensures OrdersAddUp(after)
  {
    forall i | 0 <= i < |after| ensures OrderAddsUp(after[i]) {
      assert OrderAddsUp(before[i]) && Settled(before[i], after[i]);
    }
  }

  lemma {:induction false} NextAddsUp(s: Shop, ev: Event)
    requires CartOk(s.cart) && OrdersAddUp(s.orders)
    ensures OrdersAddUp(ShopNext(s, ev).orders)
  {
    if ev.Checkout? {
      CheckoutAddsUp(s, ev);
    } else {
      NextExtends(s, ev);
      SettledAddsUp(s.orders, ShopNext(s, ev).orders);
    }
  }

  /** In every reachable state every order's total is the sum of price times
      quantity plus the fee fixed at checkout, and every cart has one line per
      product. */
  lemma {:induction false} RunAddsUp(s: Shop, evs: seq<Event>)
    requires CartOk(s.cart) && OrdersAddUp(s.orders)
    ensures CartOk(ShopRun(s, evs).cart) && OrdersAddUp(ShopRun(s, evs).orders)
    decreases |evs|
  {
    if evs != [] {
      var n := |evs| - 1;
      RunAddsUp(s, evs[..n]);
      NextKeepsCart(ShopRun(s, evs[..n]), evs[n]);
      NextAddsUp(ShopRun(s, evs[..n]), evs[n]);
    }
  }
}
