/** The cart and order services as they change the database. */
module OrderStore {
  import opened Common
  import opened Catalogue
  import opened Orders

  class ShopService {
    var catalogue: Catalogue
    var cart: seq<CartLine>
    var orders: seq<Order>
    var delivery: Delivery

    constructor (s: Shop)
      ensures Contents() == s
    {
      catalogue, cart, orders, delivery := s.catalogue, s.cart, s.orders, s.delivery;
    }

    function Contents(): Shop
      reads this
    {
      Shop(catalogue, cart, orders, delivery)
    }

    // ----- The cart --------------------------------------------------------------

    method Add(user: UserId, product: Id, qty: int) returns (r: Result<(), ShopError>)
      modifies this
      ensures AddedToCart(old(Contents()), user, product, qty) == if r.Ok? then Ok(Contents()) else Err(r.error)
      ensures r.Err? ==> Contents() == old(Contents())
    {
      if product !in catalogue.products || !catalogue.products[product].isActive {
        return Err(ProductMissing);
      }
      var existing := LineAt(cart, user, product);
      var nextQty := (match existing case Some(k) => cart[k].qty case None => 0) + qty;
      if nextQty > catalogue.products[product].stockQty {
        return Err(OutOfStock);
      }
      if nextQty < 1 {
        return Err(InvalidQty);
      }
      match existing {
        case Some(k) => cart := cart[k := cart[k].(qty := nextQty)];
        case None => cart := cart + [CartLine(user, product, qty)];
      }
      return Ok(());
    }

    method UpdateQty(user: UserId, product: Id, qty: int) returns (r: Result<(), ShopError>)
      modifies this
      ensures UpdatedCart(old(Contents()), user, product, qty) == if r.Ok? then Ok(Contents()) else Err(r.error)
      ensures r.Err? ==> Contents() == old(Contents())
    {
      if qty < 1 {
        r := Remove(user, product);
        return;
      }
      if product !in catalogue.products || !catalogue.products[product].isActive {
        return Err(ProductMissing);
      }
      if qty > catalogue.products[product].stockQty {
        return Err(OutOfStock);
      }
      match LineAt(cart, user, product) {
        case None => return Err(CartLineMissing);
        case Some(k) =>
          cart := cart[k := cart[k].(qty := qty)];
          return Ok(());
      }
    }

    method Remove(user: UserId, product: Id) returns (r: Result<(), ShopError>)
      modifies this
      ensures RemovedFromCart(old(Contents()), user, product) == if r.Ok? then Ok(Contents()) else Err(r.error)
      ensures r.Err? ==> Contents() == old(Contents())
    {
      match LineAt(cart, user, product) {
        case None => return Err(CartLineMissing);
        case Some(k) =>
          cart := cart[..k] + cart[k + 1..];
          return Ok(());
      }
    }

    /** Every line of the user goes; every other line stays as often as it was. */
    method Clear(user: UserId)
      modifies this`cart
      ensures forall l :: multiset(cart)[l] == if l.user == user then 0 else multiset(old(cart))[l]
      ensures cart == Cleared(old(cart), user)
    {
      var kept: seq<CartLine> := [];
      for i := |cart| downto 0
        invariant kept == Cleared(cart[i..], user)
      {
        assert cart[i..] == [cart[i]] + cart[i + 1..];
        if cart[i].user != user {
          kept := [cart[i]] + kept;
        }
      }
      assert cart[0..] == cart;
      forall l ensures multiset(kept)[l] == if l.user == user then 0 else multiset(cart)[l] {
        ClearedCount(cart, user, l);
      }
      cart := kept;
    }

    // ----- Checkout ----------------------------------------------------------------

    method WithinStock(lines: seq<CartLine>) returns (ok: bool)
      requires forall i :: 0 <= i < |lines| ==> lines[i].product in catalogue.products
      ensures ok == InStock(catalogue.products, lines)
    {
      for i := 0 to |lines|
        invariant InStock(catalogue.products, lines[..i])
      {
        if lines[i].qty > catalogue.products[lines[i].product].stockQty {
          return false;
        }
        assert forall k :: 0 <= k < |lines[..i + 1]| ==> lines[..i + 1][k] == if k < i then lines[..i][k] else lines[i];
      }
      assert lines[..|lines|] == lines;
      return true;
    }

    /** The order is created before the payment is started, and deleted again when
        the payment cannot be started. */
    method Checkout(user: UserId, requested: DeliveryType, viva: Option<string>) returns (r: Result<nat, ShopError>)
      modifies this
      ensures CheckedOut(old(Contents()), user, requested, viva) == if r.Ok? then Ok(Contents()) else Err(r.error)
      ensures r.Err? ==> Contents() == old(Contents())
      ensures r.Ok? ==> r.value == |old(orders)|
    {
      hide Listed, Cleared, Subtotal, InStock, ItemsOf;
      var lines := Listed(catalogue.products, cart, user);
      if |lines| == 0 {
        return Err(CartEmpty);
      }
      AllOnSale(catalogue.products, cart, user);
      var ok := WithinStock(lines);
      if !ok {
        return Err(OutOfStock);
      }
      var items := ItemsOf(catalogue.products, lines);
      var subtotal := SumOf(items);
      var deliveryFee := 0;
      var deliveryType := requested;
      if subtotal >= delivery.maximumPrice {
        deliveryType := if requested == Express then Express else Standard;
      } else if requested == Express {
        deliveryFee := delivery.expressPrice;
        deliveryType := Express;
      } else {
        deliveryFee := delivery.standardPrice;
        deliveryType := Standard;
      }
      var order := Order(user, items, subtotal, deliveryFee, subtotal + deliveryFee, deliveryType, Pending,
                         None, None, None, None, None);
      var id := |orders|;
      orders := orders + [order];
      match viva {
        case None =>
          orders := orders[..id];
          assert orders == old(orders);
          return Err(VivaCheckoutFailed);
        case Some(code) =>
          orders := orders[id := orders[id].(vivaOrderCode := Some(code))];
          assert orders == old(orders) + [NewOrder(old(Contents()), user, items, requested, viva)];
          Clear(user);
          return Ok(id);
      }
    }

    // ----- Payment -------------------------------------------------------------------

    method DecrementStock(items: seq<OrderItem>)
      modifies this`catalogue
      ensures catalogue == old(catalogue).(products := Decremented(old(catalogue).products, items))
    {
      for i := 0 to |items|
        invariant catalogue == old(catalogue).(products := Decremented(old(catalogue).products, items[..i]))
      {
        assert items[..i + 1][..i] == items[..i];
        var id := items[i].product;
        if id in catalogue.products {
          var row := catalogue.products[id];
          catalogue := catalogue.(products := catalogue.products[id := row.(stockQty := row.stockQty - items[i].qty)]);
        }
      }
      assert items[..|items|] == items;
    }

    method MarkPaidWithViva(i: nat, transactionId: string, now: int)
      requires i < |orders|
      modifies this
      ensures Contents() == MarkedPaid(old(Contents()), i, transactionId, now)
    {
      var order := orders[i];
      if order.paidAt.Some? {
        return;
      }
      DecrementStock(order.items);
      order := order.(status := Pending);
      order := order.(paidAt := Some(now));
      if transactionId != "" {
        order := order.(vivaTransactionId := Some(transactionId));
      }
      orders := orders[i := order];
      Clear(order.user);
    }

    method Lookup(wanted: Option<nat>, orderCode: string, transactionId: string) returns (found: Option<nat>)
      ensures found == Looked(orders, wanted, orderCode, transactionId)
    {
      found := None;
      if wanted.Some? && wanted.value < |orders| {
        found := wanted;
      }
      if found.None? && orderCode != "" {
        found := ByCode(orders, orderCode);
      }
      if found.None? && transactionId != "" {
        found := ByTransaction(orders, transactionId);
      }
    }

    method Confirm(user: UserId, wanted: Option<nat>, orderCode: string, transactionId: string,
                   transaction: Transaction, now: int) returns (r: Result<Order, ShopError>)
      modifies this
      ensures Confirmed(old(Contents()), user, wanted, orderCode, transactionId, transaction, now)
              == if r.Ok? then Ok(Contents()) else Err(r.error)
      ensures r.Err? ==> Contents() == old(Contents())
      ensures r.Ok? ==> r.value in orders && r.value.user == user && r.value.paidAt.Some?
    {
      hide Cleared, Decremented, Looked;
      var found := Lookup(wanted, orderCode, transactionId);
      if found.None? {
        return Err(OrderNotFound);
      }
      var i := found.value;
      if orders[i].user != user {
        return Err(OrderForbidden);
      }
      if orders[i].paidAt.Some? {
        Clear(user);
        return Ok(orders[i]);
      }
      if transactionId != "" {
        if !IsFinal(transaction) {
          return Err(PaymentPending);
        }
        MarkPaidWithViva(i, transactionId, now);
        return Ok(orders[i]);
      }
      if orderCode != "" && orders[i].vivaOrderCode == Some(orderCode) {
        MarkPaidWithViva(i, "", now);
        return Ok(orders[i]);
      }
      return Err(PaymentPending);
    }

    method FulfillFromVivaWebhook(orderCode: string, transactionId: string, statusId: string, now: int)
      modifies this
      ensures Contents() == Fulfilled(old(Contents()), orderCode, transactionId, statusId, now)
    {
      if orderCode == "" {
        return;
      }
      match ByCode(orders, orderCode) {
        case None => return;
        case Some(i) =>
          if orders[i].paidAt.Some? {
            return;
          }
          if statusId == "F" || statusId == "" {
            MarkPaidWithViva(i, transactionId, now);
          }
      }
    }

    // ----- Orders after payment --------------------------------------------------------

    method UpdateStatusByAdmin(i: nat, status: Option<OrderStatus>, shippingInfo: Option<string>, invoice: Option<string>)
      returns (r: Result<Order, ShopError>)
      modifies this`orders
      ensures StatusUpdated(old(Contents()), i, status, shippingInfo, invoice) == if r.Ok? then Ok(Contents()) else Err(r.error)
      ensures r.Err? ==> Contents() == old(Contents())
    {
      if i >= |orders| {
        return Err(OrderNotFound);
      }
      var order := orders[i];
      if status.Some? {
        order := order.(status := status.value);
      }
      if status == Some(OnTheWay) && shippingInfo.Some? {
        order := order.(shippingInfo := shippingInfo);
      }
      if invoice.Some? {
        order := order.(invoice := invoice);
      }
      orders := orders[i := order];
      return Ok(order);
    }

    method UpdateInvoiceByAdmin(i: nat, invoice: string) returns (r: Result<Order, ShopError>)
      modifies this`orders
      ensures InvoiceUpdated(old(Contents()), i, invoice) == if r.Ok? then Ok(Contents()) else Err(r.error)
      ensures r.Err? ==> Contents() == old(Contents())
    {
      if i >= |orders| {
        return Err(OrderNotFound);
      }
      orders := orders[i := orders[i].(invoice := Some(invoice))];
      return Ok(orders[i]);
    }

    method ConfirmReceivedByUser(user: UserId, i: nat) returns (r: Result<Order, ShopError>)
      modifies this`orders
      ensures Received(old(Contents()), user, i) == if r.Ok? then Ok(Contents()) else Err(r.error)
      ensures r.Err? ==> Contents() == old(Contents())
    {
      if i >= |orders| {
        return Err(OrderNotFound);
      }
      if orders[i].user != user {
        return Err(OrderForbidden);
      }
      if orders[i].status != OnTheWay {
        return Err(InvalidStatus);
      }
      orders := orders[i := orders[i].(status := Delivered)];
      return Ok(orders[i]);
    }
  }

  method SumOf(items: seq<OrderItem>) returns (sum: int)
    ensures sum == Subtotal(items)
  {
    sum := 0;
    for i := 0 to |items|
      invariant sum == Subtotal(items[..i])
    {
      assert items[..i + 1][..i] == items[..i];
      sum := sum + items[i].price * items[i].qty;
    }
    assert items[..|items|] == items;
  }

  lemma {:induction false} AllOnSale(products: map<Id, Product>, cart: seq<CartLine>, user: UserId)
    ensures forall i :: 0 <= i < |Listed(products, cart, user)| ==> Listed(products, cart, user)[i].product in products
  {
    ListedOnSale(products, cart, user);
    forall i | 0 <= i < |Listed(products, cart, user)| ensures Listed(products, cart, user)[i].product in products {
      assert Listed(products, cart, user)[i] in Listed(products, cart, user);
    }
  }

  lemma {:induction false} ClearedCount(cart: seq<CartLine>, user: UserId, line: CartLine)
    ensures multiset(Cleared(cart, user))[line] == if line.user == user then 0 else multiset(cart)[line]
  {
    if cart != [] {
      ClearedCount(cart[1..], user, line);
      assert cart == [cart[0]] + cart[1..];
    }
  }
}
