/** A shop that sells one product, for runs that are worked out in full. */
module LampShop {
  import opened Common
  import opened Catalogue
  import opened Orders

  function Lamps(stock: int, cart: seq<CartLine>, orders: seq<Order>): Shop {
    Shop(Catalogue(map[1 := Category("home")], map[2 := Brand(1, "brand")],
                   map[0 := Product("lamp", "lamp", "l1", 1, 2, 500, stock, true, map[])], 3),
         cart, orders, Delivery(20000, 499, 999))
  }

  function LampOrder(user: UserId, code: string, transactionId: Option<string>, paidAt: Option<int>): Order {
    Order(user, [OrderItem(0, "lamp", 500, 1)], 500, 499, 999, Standard, Pending, None, None, Some(code), transactionId, paidAt)
  }

  lemma {:induction false} RunStep(s: Shop, evs: seq<Event>, k: nat)
    requires k < |evs|
    ensures ShopRun(s, evs[..k + 1]) == ShopNext(ShopRun(s, evs[..k]), evs[k])
  {
    hide Handle;
    assert evs[..k + 1][..k] == evs[..k];
  }

  lemma {:induction false} NotMine(products: map<Id, Product>, cart: seq<CartLine>, user: UserId)
    requires forall l :: l in cart ==> l.user != user
    ensures Listed(products, cart, user) == [] && Cleared(cart, user) == cart
  {
    if cart != [] {
      NotMine(products, cart[1..], user);
    }
  }

  lemma {:induction false} NoLine(cart: seq<CartLine>, user: UserId)
    requires forall l :: l in cart ==> l.user != user
    ensures LineAt(cart, user, 0).None?
  {
    if cart != [] {
      NoLine(cart[1..], user);
    }
  }

  lemma {:induction false} LampAdd(stock: nat, user: UserId, cart: seq<CartLine>, orders: seq<Order>)
    requires stock >= 1 && forall l :: l in cart ==> l.user != user
    ensures ShopNext(Lamps(stock, cart, orders), CartAdd(user, 0, 1)) == Lamps(stock, cart + [CartLine(user, 0, 1)], orders)
  {
    NoLine(cart, user);
  }

  lemma {:induction false} LampCheckout(stock: nat, user: UserId, code: string, rest: seq<CartLine>, orders: seq<Order>)
    requires stock >= 1 && forall l :: l in rest ==> l.user != user
    ensures ShopNext(Lamps(stock, [CartLine(user, 0, 1)] + rest, orders), Checkout(user, Standard, Some(code)))
            == Lamps(stock, rest, orders + [LampOrder(user, code, None, None)])
  {
    var s := Lamps(stock, [CartLine(user, 0, 1)] + rest, orders);
    var line := CartLine(user, 0, 1);
    LampListed(s.catalogue.products, user, rest);
    LampItems(s.catalogue.products, line);
    hide Listed, Cleared, Subtotal, ItemsOf;
  }

  lemma {:induction false} LampItems(products: map<Id, Product>, line: CartLine)
    requires line.product == 0 && line.qty == 1 && 0 in products && products[0].name == "lamp" && products[0].price == 500
    ensures ItemsOf(products, [line]) == [OrderItem(0, "lamp", 500, 1)] && Subtotal(ItemsOf(products, [line])) == 500
  {
    var items := ItemsOf(products, [line]);
    assert items == [OrderItem(0, "lamp", 500, 1)];
    assert items[..0] == [];
  }

  lemma {:induction false} LampListed(products: map<Id, Product>, user: UserId, rest: seq<CartLine>)
    requires OnSale(products, 0) && forall l :: l in rest ==> l.user != user
    ensures Listed(products, [CartLine(user, 0, 1)] + rest, user) == [CartLine(user, 0, 1)]
    ensures Cleared([CartLine(user, 0, 1)] + rest, user) == rest
  {
    assert ([CartLine(user, 0, 1)] + rest)[1..] == rest;
    NotMine(products, rest, user);
  }

  /** Adding a lamp to an empty cart and checking out leaves one more order. */
  lemma {:induction false} BoughtLamp(s: Shop, evs: seq<Event>, stock: nat, user: UserId, code: string, orders: seq<Order>, k: nat)
    requires stock >= 1 && k + 1 < |evs| && ShopRun(s, evs[..k]) == Lamps(stock, [], orders)
    requires evs[k] == CartAdd(user, 0, 1) && evs[k + 1] == Checkout(user, Standard, Some(code))
    ensures ShopRun(s, evs[..k + 2]) == Lamps(stock, [], orders + [LampOrder(user, code, None, None)])
  {
    hide Handle;
    var line := CartLine(user, 0, 1);
    RunStep(s, evs, k);
    LampAdd(stock, user, [], orders);
    assert [] + [line] == [line] + [];
    RunStep(s, evs, k + 1);
    LampCheckout(stock, user, code, [], orders);
  }

  function TwoBought(u: UserId, c: string, v: UserId, d: string): seq<Event> {
    [CartAdd(u, 0, 1), Checkout(u, Standard, Some(c)), CartAdd(v, 0, 1), Checkout(v, Standard, Some(d))]
  }

  lemma {:induction false} TwoOrdersMade(u: UserId, c: string, v: UserId, d: string, evs: seq<Event>)
    requires TwoBought(u, c, v, d) <= evs
    ensures ShopRun(Lamps(2, [], []), evs[..4])
            == Lamps(2, [], [LampOrder(u, c, None, None), LampOrder(v, d, None, None)])
  {
    hide Handle;
    var s := Lamps(2, [], []);
    var first, second := LampOrder(u, c, None, None), LampOrder(v, d, None, None);
    assert evs[..0] == [] && [] + [first] == [first] && [first] + [second] == [first, second];
    BoughtLamp(s, evs, 2, u, c, [], 0);
    BoughtLamp(s, evs, 2, v, d, [first], 2);
  }

  lemma {:induction false} LampPaid(stock: int, i: nat, user: UserId, code: string, orders: seq<Order>, transactionId: string, now: int)
    requires i < |orders| && orders[i] == LampOrder(user, code, None, None)
    ensures MarkedPaid(Lamps(stock, [], orders), i, transactionId, now)
            == Lamps(stock - 1, [],
                     orders[i := LampOrder(user, code, if transactionId != "" then Some(transactionId) else None, Some(now))])
  {
    var s := Lamps(stock, [], orders);
    var items := orders[i].items;
    assert items[..0] == [];
    assert Decremented(s.catalogue.products, items) == Lamps(stock - 1, [], []).catalogue.products;
  }

  lemma {:induction false} LampWebhook(stock: int, i: nat, user: UserId, code: string, orders: seq<Order>, tx: string, now: int)
    requires i < |orders| && ByCode(orders, code) == Some(i) && code != "" && orders[i] == LampOrder(user, code, None, None)
    requires tx != ""
    ensures ShopNext(Lamps(stock, [], orders), Webhook(code, tx, "F", Reported("F", code), now))
            == Lamps(stock - 1, [], orders[i := LampOrder(user, code, Some(tx), Some(now))])
  {
    LampPaid(stock, i, user, code, orders, tx, now);
  }
}
