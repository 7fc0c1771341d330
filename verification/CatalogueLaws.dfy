/** What every admin operation does to every category, brand and product, and the
    brand facet against the products it counts. */
module CatalogueLaws {
  import opened Common
  import opened Slugs
  import opened Attributes
  import opened Catalogue

  // ----- Rows ------------------------------------------------------------------------------------

  function RowAt<T>(rows: map<Id, T>, id: Id): Option<T> {
    if id in rows then Some(rows[id]) else None
  }

  /** The name is not locked and no other category has it, up to case. */
  ghost predicate FreeName(c: Catalogue, name: string, except: Option<Id>) {
    && !IsLockedCategoryName(name)
    && forall k :: k in c.categories && Some(k) != except ==> Lower(c.categories[k].name) != Lower(name)
  }

  ghost predicate Unused(c: Catalogue, category: Id) {
    && (forall k :: k in c.products ==> c.products[k].category != category)
    && (forall k :: k in c.brands ==> c.brands[k].category != category)
  }

  /** The category under `id` after an operation. */
  ghost function CategoryAfter(c: Catalogue, op: Op, id: Id): Option<Category> {
    match op
    case CreateCategory(name) =>
      if id == c.nextId && FreeName(c, Trim(name), None) then Some(Category(Trim(name))) else RowAt(c.categories, id)
    case RenameCategory(j, name) =>
      if j == id && id in c.categories && !IsLockedCategoryName(c.categories[id].name) && FreeName(c, Trim(name), Some(id))
      then Some(Category(Trim(name))) else RowAt(c.categories, id)
    case RemoveCategory(j) =>
      if j == id && id in c.categories && !IsLockedCategoryName(c.categories[id].name) && Unused(c, id)
      then None else RowAt(c.categories, id)
    case _ => RowAt(c.categories, id)
  }

  lemma {:induction false} NextCategory(c: Catalogue, op: Op, id: Id)
    ensures RowAt(Next(c, op).categories, id) == CategoryAfter(c, op, id)
  {
    hide Trim, IsLockedCategoryName, ProductRow;
  }

  ghost function BrandAfter(c: Catalogue, op: Op, id: Id): Option<Brand> {
    match op
    case CreateBrand(category, title) =>
      if id == c.nextId && category in c.categories then Some(Brand(category, title)) else RowAt(c.brands, id)
    case UpdateBrand(j, category, title) =>
      if j == id && id in c.brands && category in c.categories then Some(Brand(category, title)) else RowAt(c.brands, id)
    case DeleteBrand(j) =>
      if j == id && (forall k :: k in c.products ==> c.products[k].brand != id) then None else RowAt(c.brands, id)
    case _ => RowAt(c.brands, id)
  }

  lemma {:induction false} NextBrand(c: Catalogue, op: Op, id: Id)
    ensures RowAt(Next(c, op).brands, id) == BrandAfter(c, op, id)
  {
    hide Trim, IsLockedCategoryName, ProductRow;
  }

  /** Every field of the schema is there, and trimmed it is one of its options. */
  ghost predicate EachGiven(fields: seq<Field>, attributes: map<string, string>) {
    forall i :: 0 <= i < |fields| ==> fields[i].key in attributes && Trim(attributes[fields[i].key]) in fields[i].options
  }

  lemma {:induction false} EachGivenIff(slug: string, attributes: map<string, string>)
    ensures EachGiven(Schema(slug), attributes) <==> AllGiven(Schema(slug), attributes)
    ensures AllGiven(Schema(slug), attributes) ==>
              forall i :: 0 <= i < |Schema(slug)| ==>
                Given(attributes, Schema(slug)[i].key) == Trim(attributes[Schema(slug)[i].key])
  {
    SchemaWellFormed(slug);
    NothingTrimmed();
    var fields := Schema(slug);
    hide Schema, Trim;
    forall i | 0 <= i < |fields|
      ensures fields[i].key !in attributes ==> Given(attributes, fields[i].key) !in fields[i].options
      ensures fields[i].key in attributes ==> Given(attributes, fields[i].key) == Trim(attributes[fields[i].key])
    {
    }
  }

  lemma NothingTrimmed()
    ensures Trim("") == ""
  {
  }

  /** A product may be stored under `id` (a new one for None): its category and brand
      exist and belong together, the category takes products, the SKU is free, and
      every field of the category's schema has one of its options. */
  ghost predicate MayStore(c: Catalogue, payload: ProductPayload, id: Option<Id>) {
    && payload.category in c.categories && payload.brand in c.brands
    && c.brands[payload.brand].category == payload.category
    && Normalize(c.categories[payload.category].name) != "brands"
    && Normalize(c.categories[payload.category].name) != "constructor"
    && (forall k :: k in c.products && Some(k) != id ==> Lower(c.products[k].sku) != Lower(Trim(payload.sku)))
    && EachGiven(FieldsOf(c.categories[payload.category].name), payload.attributes)
  }

  /** The first slug of the name that no other product has. */
  ghost predicate FirstSlug(c: Catalogue, name: string, id: Option<Id>, slug: string) {
    exists j: nat :: slug == Candidate(BaseSlug(name), j)
                     && (forall k :: k in c.products && Some(k) != id ==> c.products[k].slug != slug)
                     && forall i: nat :: i < j ==> exists k :: k in c.products && Some(k) != id
                                                              && c.products[k].slug == Candidate(BaseSlug(name), i)
  }

  /** The row holds what the payload gives, trimmed, with the schema's attributes only. */
  ghost predicate Stores(c: Catalogue, payload: ProductPayload, id: Option<Id>, wasActive: bool, row: Product)
    requires payload.category in c.categories
  {
    && row.name == Trim(payload.name) && row.sku == Trim(payload.sku)
    && row.category == payload.category && row.brand == payload.brand
    && row.price == payload.price && row.stockQty == payload.stockQty
    && row.isActive == (if payload.isActive.Some? then payload.isActive.value else wasActive)
    && FirstSlug(c, Trim(payload.name), id, row.slug)
    && var fields := FieldsOf(c.categories[payload.category].name);
       && row.attributes.Keys == (set i | 0 <= i < |fields| :: fields[i].key)
       && forall k :: k in row.attributes ==> k in payload.attributes && row.attributes[k] == Trim(payload.attributes[k])
  }

  lemma {:induction false} ChosenSlug(c: Catalogue, name: string, id: Option<Id>)
    ensures FirstSlug(c, name, id, FirstFree(TakenSlugs(c, id), BaseSlug(name), 0))
  {
    hide Candidate, BaseSlug;
    var j := FirstFreeIsFree(TakenSlugs(c, id), BaseSlug(name), 0);
    var slug := Candidate(BaseSlug(name), j);
    forall k | k in c.products && Some(k) != id ensures c.products[k].slug != slug {
      assert c.products[k].slug in TakenSlugs(c, id);
    }
    forall i: nat | i < j
      ensures exists k :: k in c.products && Some(k) != id && c.products[k].slug == Candidate(BaseSlug(name), i)
    {
      assert Candidate(BaseSlug(name), i) in TakenSlugs(c, id);
    }
  }

  lemma BrandsIsExcluded(name: string)
    ensures IsProductCategory(name) <==> Normalize(name) != "brands"
  {
    NormalizeIs(EXCLUDED_PRODUCT_CATEGORY, "brands");
  }

  lemma {:induction false} RowKeepsGiven(name: string, attributes: map<string, string>)
    ensures EachGiven(FieldsOf(name), attributes) <==> AllGiven(FieldsOf(name), attributes)
    ensures Sanitize(name, attributes).Ok? ==>
              forall k :: k in Sanitize(name, attributes).value ==>
                k in attributes && Sanitize(name, attributes).value[k] == Trim(attributes[k])
  {
    SanitizeMeaning(name, attributes);
    EachGivenIff(Normalize(name), attributes);
    hide Trim, Normalize, Schema, Sanitize;
  }

  /** The checks pass if and only if the product may be stored, and then the row is so. */
  lemma {:induction false} ProductRowIff(c: Catalogue, payload: ProductPayload, id: Option<Id>, wasActive: bool)
    ensures ProductRow(c, payload, id, wasActive).Ok? <==> MayStore(c, payload, id)
    ensures MayStore(c, payload, id) ==> Stores(c, payload, id, wasActive, ProductRow(c, payload, id, wasActive).value)
  {
    hide FirstSlug, TakenSlugs, FirstFree, BaseSlug, Trim, Lower, Normalize, FieldsOf, EachGiven, AllGiven, Given, Fits, Sanitize;
    if payload.category in c.categories {
      var name := c.categories[payload.category].name;
      BrandsIsExcluded(name);
      SanitizeMeaning(name, payload.attributes);
      RowKeepsGiven(name, payload.attributes);
      ChosenSlug(c, Trim(payload.name), id);
    }
  }

  /** Which check refuses a product: the first that fails. */
  lemma {:induction false} ProductRefusals(c: Catalogue, payload: ProductPayload, id: Option<Id>, wasActive: bool)
    ensures var r := ProductRow(c, payload, id, wasActive);
            var known := payload.category in c.categories;
            var takes := known && Normalize(c.categories[payload.category].name) != "brands";
            var brandKnown := takes && payload.brand in c.brands;
            var belongs := brandKnown && c.brands[payload.brand].category == payload.category;
            var skuFree := belongs && forall k :: k in c.products && Some(k) != id ==> Lower(c.products[k].sku) != Lower(Trim(payload.sku));
            && (r == Err(CategoryNotFound) <==> !known)
            && (r == Err(ProductInvalidCategory) <==> known && !takes)
            && (r == Err(BrandNotFound) <==> takes && !brandKnown)
            && (r == Err(ProductInvalidBrand) <==> brandKnown && !belongs)
            && (r == Err(SkuExists) <==> belongs && !skuFree)
            && (r.Err? && r.error.BadAttribute? <==> skuFree && !MayStore(c, payload, id))
  {
    hide TakenSlugs, FirstFree, BaseSlug, Trim, Lower, Normalize, FieldsOf, EachGiven, AllGiven, Given, Fits, Sanitize;
    if payload.category in c.categories {
      var name := c.categories[payload.category].name;
      BrandsIsExcluded(name);
      SanitizeMeaning(name, payload.attributes);
      RowKeepsGiven(name, payload.attributes);
    }
  }

  /** The product under `id` after an operation. */
  ghost predicate ProductMoves(c: Catalogue, op: Op, id: Id, after: Option<Product>) {
    match op
    case CreateProduct(payload) =>
      if id == c.nextId && MayStore(c, payload, None) then after.Some? && Stores(c, payload, None, true, after.value)
      else after == RowAt(c.products, id)
    case UpdateProduct(j, payload) =>
      if j == id && id in c.products && MayStore(c, payload, Some(id))
      then after.Some? && Stores(c, payload, Some(id), c.products[id].isActive, after.value)
      else after == RowAt(c.products, id)
    case DeleteProduct(j) => if j == id then after.None? else after == RowAt(c.products, id)
    case _ => after == RowAt(c.products, id)
  }

  lemma {:induction false} NextProduct(c: Catalogue, op: Op, id: Id)
    ensures ProductMoves(c, op, id, RowAt(Next(c, op).products, id))
  {
    hide ProductRow, MayStore, Stores, Trim, IsLockedCategoryName;
    match op
    case CreateProduct(payload) => ProductRowIff(c, payload, None, true);
    case UpdateProduct(j, payload) =>
      if j in c.products {
        ProductRowIff(c, payload, Some(j), c.products[j].isActive);
      }
    case _ =>
  }

  /** Which check refuses an operation on categories: the first that fails. */
  lemma {:induction false} CategoryRefusals(c: Catalogue, op: Op, id: Id, name: string)
    requires op == CreateCategory(name) || op == RenameCategory(id, name) || op == RemoveCategory(id)
    ensures var r := Apply(c, op);
            var known := op.CreateCategory? || id in c.categories;
            var locked := || (!op.CreateCategory? && known && IsLockedCategoryName(c.categories[id].name))
                          || (!op.RemoveCategory? && IsLockedCategoryName(Trim(name)));
            var except := if op.CreateCategory? then None else Some(id);
            var taken := exists k :: k in c.categories && Some(k) != except && Lower(c.categories[k].name) == Lower(Trim(name));
            && (r == Err(CategoryNotFound) <==> !known)
            && (r == Err(CategoryLocked) <==> known && locked)
            && (r == Err(CategoryExists) <==> !op.RemoveCategory? && known && !locked && taken)
            && (r == Err(CategoryInUse) <==> op.RemoveCategory? && known && !locked && !Unused(c, id))
  {
    hide Trim, Lower, IsLockedCategoryName;
  }

  lemma {:induction false} BrandRefusals(c: Catalogue, op: Op)
    requires op.CreateBrand? || op.UpdateBrand? || op.DeleteBrand?
    ensures var r := Apply(c, op);
            var known := op.CreateBrand? || op.id in c.brands;
            && (r == Err(BrandNotFound) <==> !known)
            && (r == Err(CategoryNotFound) <==> known && !op.DeleteBrand? && op.category !in c.categories)
            && (r == Err(BrandInUse) <==> op.DeleteBrand? && known && exists k :: k in c.products && c.products[k].brand == op.id)
  {
  }

  /** Only a creation that succeeds uses up an id. */
  lemma {:induction false} NextIds(c: Catalogue, op: Op)
    ensures Next(c, op).nextId
            == c.nextId + if Apply(c, op).Ok? && (op.CreateCategory? || op.CreateBrand? || op.CreateProduct?) then 1 else 0
  {
    hide ProductRow, Trim, IsLockedCategoryName;
  }

  // ----- The brand facet -----------------------------------------------------------------------------

  /** The products of a brand that the facets of a category count. */
  ghost function OfBrand(c: Catalogue, category: Id, activeOnly: bool, brand: Id): set<Id> {
    set k | k in c.products && c.products[k].category == category && (!activeOnly || c.products[k].isActive)
            && c.products[k].brand == brand
  }

  ghost function OfBrandBelow(c: Catalogue, category: Id, activeOnly: bool, brand: Id, n: nat): set<Id> {
    set k | k in OfBrand(c, category, activeOnly, brand) && k < n
  }

  lemma {:induction false} OneMoreOfBrand(c: Catalogue, category: Id, activeOnly: bool, brand: Id, n: nat)
    ensures |OfBrandBelow(c, category, activeOnly, brand, n + 1)|
            == |OfBrandBelow(c, category, activeOnly, brand, n)| + (if n in OfBrand(c, category, activeOnly, brand) then 1 else 0)
  {
    var before, all := OfBrandBelow(c, category, activeOnly, brand, n), OfBrandBelow(c, category, activeOnly, brand, n + 1);
    if n in OfBrand(c, category, activeOnly, brand) {
      assert all == before + {n};
    } else {
      assert all == before;
    }
  }

  lemma {:induction false} OneMoreCounted(items: seq<Item>, item: Item, brand: Id)
    ensures CountBrand(items + [item], brand) == CountBrand(items, brand) + (if item.brand == brand then 1 else 0)
  {
    assert (items + [item])[..|items|] == items;
  }

  lemma {:induction false} CountOfBrand(c: Catalogue, category: Id, activeOnly: bool, brand: Id, n: nat)
    ensures CountBrand(Items(c.products, category, activeOnly, n), brand) == |OfBrandBelow(c, category, activeOnly, brand, n)|
  {
    hide OfBrandBelow;
    if n == 0 {
      NoneOfBrandBelow(c, category, activeOnly, brand);
    } else {
      CountOfBrand(c, category, activeOnly, brand, n - 1);
      ItemsStep(c, category, activeOnly, n - 1);
      OneMoreOfBrand(c, category, activeOnly, brand, n - 1);
      if n - 1 in c.products {
        var item := Item(c.products[n - 1].brand, c.products[n - 1].attributes);
        OneMoreCounted(Items(c.products, category, activeOnly, n - 1), item, brand);
      }
    }
  }

  lemma {:induction false} NoneOfBrandBelow(c: Catalogue, category: Id, activeOnly: bool, brand: Id)
    ensures OfBrandBelow(c, category, activeOnly, brand, 0) == {}
  {
  }

  /** Each brand row counts exactly the products of that brand in the category, only
      the active ones when asked for those. */
  lemma {:induction false} BrandFacetExact(c: Catalogue, category: Id, activeOnly: bool, j: nat)
    requires IdsUsed(c) && j < |BrandsOf(c.brands, category, c.nextId)|
    ensures var listed := BrandsOf(c.brands, category, c.nextId);
            var rows := BrandRows(Items(c.products, category, activeOnly, c.nextId), listed);
            && |rows| == |listed| && InCategory(c.brands, category, listed[j].0)
            && rows[j] == FacetRow(c.brands[listed[j].0].title, |OfBrand(c, category, activeOnly, listed[j].0)|)
  {
    var listed := BrandsOf(c.brands, category, c.nextId);
    var brand := listed[j].0;
    TitlesListed(c.brands, category, c.nextId, j);
    CountOfBrand(c, category, activeOnly, brand, c.nextId);
    assert OfBrandBelow(c, category, activeOnly, brand, c.nextId) == OfBrand(c, category, activeOnly, brand);
  }

  lemma {:induction false} TitlesListed(brands: map<Id, Brand>, category: Id, n: nat, j: nat)
    requires j < |BrandsOf(brands, category, n)|
    ensures var row := BrandsOf(brands, category, n)[j]; InCategory(brands, category, row.0) && row.1 == brands[row.0].title
  {
    if j < |BrandsOf(brands, category, n - 1)| {
      TitlesListed(brands, category, n - 1, j);
    }
  }
}
