/** What every run of the shop keeps: stock is conserved, an order is charged and
    paid once, and the cart holds one line per product. */
module OrderLaws {
  import opened Attributes
  import opened Catalogue
  import opened Orders

  // ----- Quantities --------------------------------------------------------------------

  /** How many units of `p` the items hold. */
  function ItemsQty(items: seq<OrderItem>, p: Id): int {
    if items == [] then 0
    else ItemsQty(items[..|items| - 1], p) + (if items[|items| - 1].product == p then items[|items| - 1].qty else 0)
  }

  function PaidPart(o: Order, p: Id): int {
    if o.paidAt.Some? then ItemsQty(o.items, p) else 0
  }

  /** Units of `p` in paid orders. */
  function PaidQty(orders: seq<Order>, p: Id): int {
    if orders == [] then 0 else PaidQty(orders[..|orders| - 1], p) + PaidPart(orders[|orders| - 1], p)
  }

  predicate PaidAlready(orders: seq<Order>, i: nat) {
    i < |orders| && orders[i].paidAt.Some?
  }

  /** Units of `p` in the orders of `after` that are paid there and were not in `before`. */
  function NewlyPaid(before: seq<Order>, after: seq<Order>, p: Id): int
    decreases |after|
  {
    if after == [] then 0
    else
      var n := |after| - 1;
      NewlyPaid(before, after[..n], p)
      + (if after[n].paidAt.Some? && !PaidAlready(before, n) then ItemsQty(after[n].items, p) else 0)
  }

  lemma {:induction false} PaidQtyAppend(orders: seq<Order>, o: Order, p: Id)
    ensures PaidQty(orders + [o], p) == PaidQty(orders, p) + PaidPart(o, p)
  {
    assert (orders + [o])[..|orders|] == orders;
  }

  lemma {:induction false} PaidQtyUpdate(orders: seq<Order>, i: nat, o: Order, p: Id)
    requires i < |orders|
    ensures PaidQty(orders[i := o], p) == PaidQty(orders, p) - PaidPart(orders[i], p) + PaidPart(o, p)
  {
    var n := |orders| - 1;
    if i == n {
      assert orders[i := o][..n] == orders[..n];
    } else {
      PaidQtyUpdate(orders[..n], i, o, p);
      assert orders[i := o][..n] == orders[..n][i := o];
    }
  }

  // ----- Taking stock ------------------------------------------------------------------

  /** The loop of updates takes each product's quantity once and touches nothing else. */
  lemma {:induction false} DecrementedMeaning(products: map<Id, Product>, items: seq<OrderItem>)
    ensures var after := Decremented(products, items);
            && after.Keys == products.Keys
            && forall p :: p in products ==>
                 after[p] == products[p].(stockQty := products[p].stockQty - ItemsQty(items, p))
  {
    if items != [] {
      DecrementedMeaning(products, items[..|items| - 1]);
    }
  }

  ghost predicate StockOnly(before: map<Id, Product>, after: map<Id, Product>) {
    && after.Keys == before.Keys
    && forall p :: p in before ==> after[p] == before[p].(stockQty := after[p].stockQty)
  }

  lemma {:induction false} StockOnlyKeepsRows(c: Catalogue, products: map<Id, Product>)
    requires StockOnly(c.products, products) && DistinctProducts(c) && GoodSlugs(c) && AttributesFit(c)
    ensures var d := c.(products := products); DistinctProducts(d) && GoodSlugs(d) && AttributesFit(d)
  {
    var d := c.(products := products);
    forall k | k in d.products
      ensures && k in c.products && d.products[k].slug == c.products[k].slug && d.products[k].sku == c.products[k].sku
              && d.products[k].category == c.products[k].category && d.products[k].attributes == c.products[k].attributes
    {
    }
  }

  lemma StockOnlyKeepsReferences(c: Catalogue, products: map<Id, Product>)
    requires StockOnly(c.products, products) && IdsUsed(c) && References(c) && DistinctNames(c)
    ensures var d := c.(products := products); IdsUsed(d) && References(d) && DistinctNames(d)
  {
  }

  lemma {:induction false} PaymentKeepsCatalogue(s: Shop, i: nat, transactionId: string, now: int)
    requires Integrity(s.catalogue) && i < |s.orders|
    ensures Integrity(MarkedPaid(s, i, transactionId, now).catalogue)
  {
    var products := Decremented(s.catalogue.products, s.orders[i].items);
    assert StockOnly(s.catalogue.products, products) by {
      DecrementedMeaning(s.catalogue.products, s.orders[i].items);
    }
    StockOnlyKeepsRows(s.catalogue, products);
    StockOnlyKeepsReferences(s.catalogue, products);
  }

  lemma CatalogueUntouched(s: Shop, ev: Event)
    requires !ev.Admin? && !ev.Confirm? && !ev.Webhook?
    ensures ShopNext(s, ev).catalogue == s.catalogue
  {
  }

  lemma {:induction false} NextKeepsCatalogue(s: Shop, ev: Event)
    requires Integrity(s.catalogue)
    ensures Integrity(ShopNext(s, ev).catalogue)
  {
    match ev
    case Admin(op) => NextKeepsIntegrity(s.catalogue, op);
    case Confirm(user, wanted, orderCode, transactionId, transaction, now) =>
      match Looked(s.orders, wanted, orderCode, transactionId) {
        case None =>
        case Some(i) =>
          PaymentKeepsCatalogue(s, i, transactionId, now);
          PaymentKeepsCatalogue(s, i, "", now);
      }
    case Webhook(orderCode, transactionId, statusId, _, now) =>
      match ByCode(s.orders, orderCode) {
        case None =>
        case Some(i) => PaymentKeepsCatalogue(s, i, transactionId, now);
      }
    case _ => CatalogueUntouched(s, ev);
  }

  /** Selling keeps the integrity of the catalogue too. */
  lemma {:induction false} RunKeepsCatalogue(s: Shop, evs: seq<Event>)
    requires Integrity(s.catalogue)
    ensures Integrity(ShopRun(s, evs).catalogue)
    decreases |evs|
  {
    if evs != [] {
      RunKeepsCatalogue(s, evs[..|evs| - 1]);
      NextKeepsCatalogue(ShopRun(s, evs[..|evs| - 1]), evs[|evs| - 1]);
    }
  }

  /** Facets stay exact while the shop sells. */
  lemma {:induction false} FacetsExactWhileSelling(s: Shop, evs: seq<Event>, category: Id, activeOnly: bool, i: nat)
    requires Integrity(s.catalogue) && category in ShopRun(s, evs).catalogue.categories
    requires i < |FieldsOf(ShopRun(s, evs).catalogue.categories[category].name)|
    ensures FacetExact(ShopRun(s, evs).catalogue, category, activeOnly, i)
  {
    RunKeepsCatalogue(s, evs);
    IntegrityMakesFacetsExact(ShopRun(s, evs).catalogue, category, activeOnly, i);
  }

  // ----- Orders only grow and settle once -------------------------------------------------

  /** What no later step changes in an order; once paid, the payment is part of it. */
  ghost predicate Settled(before: Order, after: Order) {
    && after.user == before.user && after.items == before.items
    && after.subtotal == before.subtotal && after.deliveryFee == before.deliveryFee && after.total == before.total
    && after.deliveryType == before.deliveryType && after.vivaOrderCode == before.vivaOrderCode
    && (before.paidAt.Some? ==> after.paidAt == before.paidAt && after.vivaTransactionId == before.vivaTransactionId)
  }

  ghost predicate OrdersExtend(before: seq<Order>, after: seq<Order>) {
    |before| <= |after| && forall i :: 0 <= i < |before| ==> Settled(before[i], after[i])
  }

  lemma PaymentExtends(s: Shop, ev: Event)
    requires ev.Confirm? || ev.Webhook?
    ensures |ShopNext(s, ev).orders| == |s.orders| && OrdersExtend(s.orders, ShopNext(s, ev).orders)
  {
  }

  lemma {:induction false} NextExtends(s: Shop, ev: Event)
    ensures OrdersExtend(s.orders, ShopNext(s, ev).orders)
    ensures !ev.Checkout? ==> |ShopNext(s, ev).orders| == |s.orders|
  {
    if ev.Confirm? || ev.Webhook? {
      PaymentExtends(s, ev);
    }
  }

  lemma {:induction false} ExtendTransitive(a: seq<Order>, b: seq<Order>, c: seq<Order>)
    requires OrdersExtend(a, b) && OrdersExtend(b, c)
    ensures OrdersExtend(a, c)
  {
    forall i | 0 <= i < |a| ensures Settled(a[i], c[i]) {
      assert Settled(a[i], b[i]) && Settled(b[i], c[i]);
    }
  }

  /** Orders are never lost, and their charge and payment never change again. */
  lemma {:induction false} RunExtends(s: Shop, evs: seq<Event>, k: nat)
    requires k <= |evs|
    ensures OrdersExtend(ShopRun(s, evs[..k]).orders, ShopRun(s, evs).orders)
    decreases |evs|
  {
    hide Handle;
    if k == |evs| {
      assert evs[..k] == evs;
    } else {
      var n := |evs| - 1;
      assert evs[..n][..k] == evs[..k];
      RunExtends(s, evs[..n], k);
      NextExtends(ShopRun(s, evs[..n]), evs[n]);
      ExtendTransitive(ShopRun(s, evs[..k]).orders, ShopRun(s, evs[..n]).orders, ShopRun(s, evs).orders);
    }
  }
}
