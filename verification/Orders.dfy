/** Carts, checkout and payment over the catalogue, as one state machine. Money
    is in pence; an order's id is its position in creation order. */
module Orders {
  import opened Common
  import opened Catalogue

  type UserId = string

  datatype CartLine = CartLine(user: UserId, product: Id, qty: int)

  datatype OrderStatus = Pending | OnTheWay | Delivered

  datatype DeliveryType = Standard | Express | FreeDelivery | PaidDelivery

  datatype Delivery = Delivery(maximumPrice: nat, standardPrice: nat, expressPrice: nat)

  datatype OrderItem = OrderItem(product: Id, name: string, price: nat, qty: int)

  datatype Order = Order(user: UserId, items: seq<OrderItem>, subtotal: int, deliveryFee: int, total: int,
                         deliveryType: DeliveryType, status: OrderStatus, shippingInfo: Option<string>,
                         invoice: Option<string>, vivaOrderCode: Option<string>, vivaTransactionId: Option<string>,
                         paidAt: Option<int>)

  datatype Shop = Shop(catalogue: Catalogue, cart: seq<CartLine>, orders: seq<Order>, delivery: Delivery)

  /** What Viva answers when asked for a transaction: its status, `F` when it is
      final, and the code of the order it was made for, or no answer. */
  datatype Transaction = Reported(statusId: string, orderCode: string) | LookupFailed

  predicate IsFinal(transaction: Transaction) {
    transaction.Reported? && transaction.statusId == "F"
  }

  /** One request. A missing order code or transaction id is the empty string, as
      both are only tested for truth. A payment carries what Viva would answer
      about the transaction it names; only a confirmation asks. */
  datatype Event =
    | Admin(op: Op)
    | SetDelivery(delivery: Delivery)
    | CartAdd(user: UserId, product: Id, qty: int)
    | CartUpdate(user: UserId, product: Id, qty: int)
    | CartRemove(user: UserId, product: Id)
    | Checkout(user: UserId, requested: DeliveryType, viva: Option<string>)
    | Confirm(user: UserId, wanted: Option<nat>, orderCode: string, transactionId: string,
              transaction: Transaction, now: int)
    | Webhook(orderCode: string, transactionId: string, statusId: string, transaction: Transaction, now: int)
    | UpdateStatus(orderId: nat, status: Option<OrderStatus>, shippingInfo: Option<string>, newInvoice: Option<string>)
    | UpdateInvoice(orderId: nat, invoice: string)
    | ConfirmReceived(user: UserId, orderId: nat)

  datatype ShopError =
    | Refused(cause: Error)
    | ProductMissing | OutOfStock | InvalidQty | CartLineMissing
    | CartEmpty | VivaCheckoutFailed | OrderNotFound | OrderForbidden | PaymentPending | InvalidStatus

  // ----- The cart ------------------------------------------------------------------

  function LineAt(cart: seq<CartLine>, user: UserId, product: Id): (r: Option<nat>)
    ensures r.Some? ==> r.value < |cart| && cart[r.value].user == user && cart[r.value].product == product
    ensures r.None? ==> forall l :: l in cart ==> l.user != user || l.product != product
  {
    if cart == [] then None
    else if cart[0].user == user && cart[0].product == product then Some(0)
    else match LineAt(cart[1..], user, product)
         case None => None
         case Some(k) => Some(k + 1)
  }

  predicate OnSale(products: map<Id, Product>, id: Id) {
    id in products && products[id].isActive
  }

  /** The user's lines whose product is on sale, newest first. */
  function Listed(products: map<Id, Product>, cart: seq<CartLine>, user: UserId): seq<CartLine> {
    if cart == [] then []
    else Listed(products, cart[1..], user)
         + (if cart[0].user == user && OnSale(products, cart[0].product) then [cart[0]] else [])
  }

  function Cleared(cart: seq<CartLine>, user: UserId): seq<CartLine> {
    if cart == [] then []
    else (if cart[0].user == user then [] else [cart[0]]) + Cleared(cart[1..], user)
  }

  function AddedToCart(s: Shop, user: UserId, product: Id, qty: int): Result<Shop, ShopError> {
    if !OnSale(s.catalogue.products, product) then Err(ProductMissing)
    else
      var line := LineAt(s.cart, user, product);
      var nextQty := (if line.Some? then s.cart[line.value].qty else 0) + qty;
      if nextQty > s.catalogue.products[product].stockQty then Err(OutOfStock)
      else if nextQty < 1 then Err(InvalidQty)
      else if line.Some? then Ok(s.(cart := s.cart[line.value := s.cart[line.value].(qty := nextQty)]))
      else Ok(s.(cart := s.cart + [CartLine(user, product, qty)]))
  }

  function RemovedFromCart(s: Shop, user: UserId, product: Id): Result<Shop, ShopError> {
    match LineAt(s.cart, user, product)
    case None => Err(CartLineMissing)
    case Some(k) => Ok(s.(cart := s.cart[..k] + s.cart[k + 1..]))
  }

  function UpdatedCart(s: Shop, user: UserId, product: Id, qty: int): Result<Shop, ShopError> {
    if qty < 1 then RemovedFromCart(s, user, product)
    else if !OnSale(s.catalogue.products, product) then Err(ProductMissing)
    else if qty > s.catalogue.products[product].stockQty then Err(OutOfStock)
    else match LineAt(s.cart, user, product)
         case None => Err(CartLineMissing)
         case Some(k) => Ok(s.(cart := s.cart[k := s.cart[k].(qty := qty)]))
  }

  // ----- Checkout ------------------------------------------------------------------

  predicate InStock(products: map<Id, Product>, lines: seq<CartLine>) {
    forall i :: 0 <= i < |lines| ==> lines[i].product in products && lines[i].qty <= products[lines[i].product].stockQty
  }

  function ItemsOf(products: map<Id, Product>, lines: seq<CartLine>): seq<OrderItem>
    requires forall i :: 0 <= i < |lines| ==> lines[i].product in products
  {
    seq(|lines|, i requires 0 <= i < |lines| =>
      OrderItem(lines[i].product, products[lines[i].product].name, products[lines[i].product].price, lines[i].qty))
  }

  function Subtotal(items: seq<OrderItem>): int {
    if items == [] then 0 else Subtotal(items[..|items| - 1]) + items[|items| - 1].price * items[|items| - 1].qty
  }

  function DeliveryFee(delivery: Delivery, requested: DeliveryType, subtotal: int): nat {
    if subtotal >= delivery.maximumPrice then 0
    else if requested == Express then delivery.expressPrice
    else delivery.standardPrice
  }

  function NewOrder(s: Shop, user: UserId, items: seq<OrderItem>, requested: DeliveryType, viva: Option<string>): Order {
    var subtotal := Subtotal(items);
    var fee := DeliveryFee(s.delivery, requested, subtotal);
    Order(user, items, subtotal, fee, subtotal + fee, if requested == Express then Express else Standard,
          Pending, None, None, viva, None, None)
  }

  lemma {:induction false} ListedOnSale(products: map<Id, Product>, cart: seq<CartLine>, user: UserId)
    ensures forall l :: l in Listed(products, cart, user) <==> l in cart && l.user == user && OnSale(products, l.product)
  {
    if cart != [] {
      ListedOnSale(products, cart[1..], user);
      assert cart == [cart[0]] + cart[1..];
    }
  }

  /** A failed payment start deletes the order again, so nothing changes. */
  function CheckedOut(s: Shop, user: UserId, requested: DeliveryType, viva: Option<string>): Result<Shop, ShopError> {
    var lines := Listed(s.catalogue.products, s.cart, user);
    if lines == [] then Err(CartEmpty)
    else if !InStock(s.catalogue.products, lines) then Err(OutOfStock)
    else if viva.None? then Err(VivaCheckoutFailed)
    else
      var order := NewOrder(s, user, ItemsOf(s.catalogue.products, lines), requested, viva);
      Ok(s.(orders := s.orders + [order], cart := Cleared(s.cart, user)))
  }

  // ----- Payment -------------------------------------------------------------------

  /** `$inc: { stockQty: -qty }`, with no effect on a product that is gone. */
  function TakeStock(products: map<Id, Product>, item: OrderItem): map<Id, Product> {
    if item.product in products
    then products[item.product := products[item.product].(stockQty := products[item.product].stockQty - item.qty)]
    else products
  }

  function Decremented(products: map<Id, Product>, items: seq<OrderItem>): map<Id, Product> {
    if items == [] then products
    else TakeStock(Decremented(products, items[..|items| - 1]), items[|items| - 1])
  }

  /** Stock is taken and the date set the first time only. */
  function MarkedPaid(s: Shop, i: nat, transactionId: string, now: int): Shop
    requires i < |s.orders|
  {
    var o := s.orders[i];
    if o.paidAt.Some? then s
    else
      var paid := o.(status := Pending, paidAt := Some(now),
                     vivaTransactionId := if transactionId != "" then Some(transactionId) else o.vivaTransactionId);
      s.(catalogue := s.catalogue.(products := Decremented(s.catalogue.products, o.items)),
         orders := s.orders[i := paid], cart := Cleared(s.cart, o.user))
  }

  function ByCode(orders: seq<Order>, code: string): (r: Option<nat>)
    ensures r.Some? ==> r.value < |orders| && orders[r.value].vivaOrderCode == Some(code)
                        && forall j :: 0 <= j < r.value ==> orders[j].vivaOrderCode != Some(code)
    ensures r.None? ==> forall j :: 0 <= j < |orders| ==> orders[j].vivaOrderCode != Some(code)
  {
    if orders == [] then None
    else if orders[0].vivaOrderCode == Some(code) then Some(0)
    else match ByCode(orders[1..], code)
         case None => None
         case Some(k) => Some(k + 1)
  }

  function ByTransaction(orders: seq<Order>, transactionId: string): (r: Option<nat>)
    ensures r.Some? ==> r.value < |orders| && orders[r.value].vivaTransactionId == Some(transactionId)
                        && forall j :: 0 <= j < r.value ==> orders[j].vivaTransactionId != Some(transactionId)
    ensures r.None? ==> forall j :: 0 <= j < |orders| ==> orders[j].vivaTransactionId != Some(transactionId)
  {
    if orders == [] then None
    else if orders[0].vivaTransactionId == Some(transactionId) then Some(0)
    else match ByTransaction(orders[1..], transactionId)
         case None => None
         case Some(k) => Some(k + 1)
  }

  predicate HasCode(orders: seq<Order>, code: string) {
    code != "" && exists j :: 0 <= j < |orders| && orders[j].vivaOrderCode == Some(code)
  }

  /** The order a confirmation is about. An id that exists wins, then the first
      order with the code, then the first with the transaction; a code or
      transaction that is missing or matches nothing is passed over. */
  function Looked(orders: seq<Order>, wanted: Option<nat>, orderCode: string, transactionId: string): (r: Option<nat>)
    ensures r.Some? ==> r.value < |orders|
    ensures wanted.Some? && wanted.value < |orders| ==> r == wanted
    ensures !(wanted.Some? && wanted.value < |orders|) && HasCode(orders, orderCode) ==>
              r.Some? && orders[r.value].vivaOrderCode == Some(orderCode)
              && forall j :: 0 <= j < r.value ==> orders[j].vivaOrderCode != Some(orderCode)
    ensures !(wanted.Some? && wanted.value < |orders|) && !HasCode(orders, orderCode) ==>
              (r.None? <==> transactionId == "" || forall j :: 0 <= j < |orders| ==> orders[j].vivaTransactionId != Some(transactionId))
              && (r.Some? ==> orders[r.value].vivaTransactionId == Some(transactionId)
                              && forall j :: 0 <= j < r.value ==> orders[j].vivaTransactionId != Some(transactionId))
  {
    if wanted.Some? && wanted.value < |orders| then wanted
    else if orderCode != "" && ByCode(orders, orderCode).Some? then ByCode(orders, orderCode)
    else if transactionId != "" then ByTransaction(orders, transactionId)
    else None
  }

  function Confirmed(s: Shop, user: UserId, wanted: Option<nat>, orderCode: string,
                     transactionId: string, transaction: Transaction, now: int): Result<Shop, ShopError> {
    match Looked(s.orders, wanted, orderCode, transactionId)
    case None => Err(OrderNotFound)
    case Some(i) =>
      if s.orders[i].user != user then Err(OrderForbidden)
      else if s.orders[i].paidAt.Some? then Ok(s.(cart := Cleared(s.cart, user)))
      else if transactionId != "" then
        if IsFinal(transaction) then Ok(MarkedPaid(s, i, transactionId, now)) else Err(PaymentPending)
      else if orderCode != "" && s.orders[i].vivaOrderCode == Some(orderCode) then Ok(MarkedPaid(s, i, "", now))
      else Err(PaymentPending)
  }

  function Fulfilled(s: Shop, orderCode: string, transactionId: string, statusId: string, now: int): Shop {
    if orderCode == "" then s
    else match ByCode(s.orders, orderCode)
         case None => s
         case Some(i) =>
           if s.orders[i].paidAt.Some? then s
           else if statusId == "F" || statusId == "" then MarkedPaid(s, i, transactionId, now)
           else s
  }

  function StatusUpdated(s: Shop, i: nat, status: Option<OrderStatus>, shippingInfo: Option<string>, invoice: Option<string>)
    : Result<Shop, ShopError>
  {
    if i >= |s.orders| then Err(OrderNotFound)
    else
      var o := s.orders[i];
      var o1 := if status.Some? then o.(status := status.value) else o;
      var o2 := if status == Some(OnTheWay) && shippingInfo.Some? then o1.(shippingInfo := shippingInfo) else o1;
      var o3 := if invoice.Some? then o2.(invoice := invoice) else o2;
      Ok(s.(orders := s.orders[i := o3]))
  }

  function InvoiceUpdated(s: Shop, i: nat, invoice: string): Result<Shop, ShopError> {
    if i >= |s.orders| then Err(OrderNotFound)
    else Ok(s.(orders := s.orders[i := s.orders[i].(invoice := Some(invoice))]))
  }

  function Received(s: Shop, user: UserId, i: nat): Result<Shop, ShopError> {
    if i >= |s.orders| then Err(OrderNotFound)
    else if s.orders[i].user != user then Err(OrderForbidden)
    else if s.orders[i].status != OnTheWay then Err(InvalidStatus)
    else Ok(s.(orders := s.orders[i := s.orders[i].(status := Delivered)]))
  }

  function Administered(s: Shop, op: Op): Result<Shop, ShopError> {
    match Apply(s.catalogue, op)
    case Err(e) => Err(Refused(e))
    case Ok(c) => Ok(s.(catalogue := c))
  }

  /** One request. */
  function Handle(s: Shop, ev: Event): Result<Shop, ShopError> {
    match ev
    case Admin(op) => Administered(s, op)
    case SetDelivery(delivery) => Ok(s.(delivery := delivery))
    case CartAdd(user, product, qty) => AddedToCart(s, user, product, qty)
    case CartUpdate(user, product, qty) => UpdatedCart(s, user, product, qty)
    case CartRemove(user, product) => RemovedFromCart(s, user, product)
    case Checkout(user, requested, viva) => CheckedOut(s, user, requested, viva)
    case Confirm(user, wanted, orderCode, transactionId, transaction, now) =>
      Confirmed(s, user, wanted, orderCode, transactionId, transaction, now)
    case Webhook(orderCode, transactionId, statusId, _, now) => Ok(Fulfilled(s, orderCode, transactionId, statusId, now))
    case UpdateStatus(orderId, status, shippingInfo, invoice) => StatusUpdated(s, orderId, status, shippingInfo, invoice)
    case UpdateInvoice(orderId, invoice) => InvoiceUpdated(s, orderId, invoice)
    case ConfirmReceived(user, orderId) => Received(s, user, orderId)
  }

  /** A refused request changes nothing. */
  function ShopNext(s: Shop, ev: Event): Shop {
    match Handle(s, ev)
    case Ok(t) => t
    case Err(_) => s
  }

  function ShopRun(s: Shop, evs: seq<Event>): Shop
    decreases |evs|
  {
    if evs == [] then s else ShopNext(ShopRun(s, evs[..|evs| - 1]), evs[|evs| - 1])
  }
}
