/** Categories, brands and products: what each admin operation does to the three
    collections, and what every run of operations keeps. */
module Catalogue {
  import opened Common
  import opened Slugs
  import opened Attributes

  type Id = nat

  datatype Category = Category(name: string)

  datatype Brand = Brand(category: Id, title: string)

  datatype Product = Product(name: string, slug: string, sku: string, category: Id, brand: Id, price: nat,
                             stockQty: int, isActive: bool, attributes: map<string, string>)

  datatype Catalogue = Catalogue(categories: map<Id, Category>, brands: map<Id, Brand>, products: map<Id, Product>, nextId: Id)

  datatype ProductPayload = ProductPayload(name: string, sku: string, category: Id, brand: Id, price: nat,
                                           stockQty: nat, isActive: Option<bool>, attributes: map<string, string>)

  datatype Op =
    | CreateCategory(name: string)
    | RenameCategory(id: Id, name: string)
    | RemoveCategory(id: Id)
    | CreateBrand(category: Id, title: string)
    | UpdateBrand(id: Id, category: Id, title: string)
    | DeleteBrand(id: Id)
    | CreateProduct(payload: ProductPayload)
    | UpdateProduct(id: Id, payload: ProductPayload)
    | DeleteProduct(id: Id)

  datatype Error =
    | CategoryLocked | CategoryExists | CategoryNotFound | CategoryInUse
    | BrandNotFound | BrandInUse
    | ProductNotFound | ProductInvalidCategory | ProductInvalidBrand | SkuExists
    | BadAttribute(cause: AttributeError)

  // ----- The checks ----------------------------------------------------------------

  /** A case-insensitive name match on another category. */
  predicate NameTaken(c: Catalogue, name: string, except: Option<Id>) {
    exists k :: k in c.categories && Some(k) != except && Lower(c.categories[k].name) == Lower(name)
  }

  predicate SkuTaken(c: Catalogue, sku: string, except: Option<Id>) {
    exists k :: k in c.products && Some(k) != except && Lower(c.products[k].sku) == Lower(sku)
  }

  function TakenSlugs(c: Catalogue, except: Option<Id>): set<string> {
    set k | k in c.products && Some(k) != except :: c.products[k].slug
  }

  predicate CategoryUsed(c: Catalogue, id: Id) {
    || (exists k :: k in c.products && c.products[k].category == id)
    || (exists k :: k in c.brands && c.brands[k].category == id)
  }

  predicate BrandUsed(c: Catalogue, id: Id) {
    exists k :: k in c.products && c.products[k].brand == id
  }

  /** The checks `create` and `update` share, in order; the new row on success. */
  function ProductRow(c: Catalogue, payload: ProductPayload, id: Option<Id>, wasActive: bool): Result<Product, Error> {
    if payload.category !in c.categories then Err(CategoryNotFound)
    else
      var categoryName := c.categories[payload.category].name;
      if !IsProductCategory(categoryName) then Err(ProductInvalidCategory)
      else if payload.brand !in c.brands then Err(BrandNotFound)
      else if c.brands[payload.brand].category != payload.category then Err(ProductInvalidBrand)
      else
        var sku := Trim(payload.sku);
        if SkuTaken(c, sku, id) then Err(SkuExists)
        else match Sanitize(categoryName, payload.attributes)
             case Err(e) => Err(BadAttribute(e))
             case Ok(attributes) =>
               var name := Trim(payload.name);
               Ok(Product(name, FirstFree(TakenSlugs(c, id), BaseSlug(name), 0), sku, payload.category, payload.brand,
                          payload.price, payload.stockQty,
                          if payload.isActive.Some? then payload.isActive.value else wasActive, attributes))
  }

  function AddedCategory(c: Catalogue, raw: string): Result<Catalogue, Error> {
    var name := Trim(raw);
    if IsLockedCategoryName(name) then Err(CategoryLocked)
    else if NameTaken(c, name, None) then Err(CategoryExists)
    else Ok(PutCategory(c, c.nextId, Category(name), c.nextId + 1))
  }

  function RenamedCategory(c: Catalogue, id: Id, raw: string): Result<Catalogue, Error> {
    var name := Trim(raw);
    if id !in c.categories then Err(CategoryNotFound)
    else if IsLockedCategoryName(c.categories[id].name) || IsLockedCategoryName(name) then Err(CategoryLocked)
    else if NameTaken(c, name, Some(id)) then Err(CategoryExists)
    else Ok(PutCategory(c, id, Category(name), c.nextId))
  }

  function RemovedCategory(c: Catalogue, id: Id): Result<Catalogue, Error> {
    if id !in c.categories then Err(CategoryNotFound)
    else if IsLockedCategoryName(c.categories[id].name) then Err(CategoryLocked)
    else if CategoryUsed(c, id) then Err(CategoryInUse)
    else Ok(c.(categories := c.categories - {id}))
  }

  function AddedBrand(c: Catalogue, category: Id, title: string): Result<Catalogue, Error> {
    if category !in c.categories then Err(CategoryNotFound)
    else Ok(PutBrand(c, c.nextId, Brand(category, title), c.nextId + 1))
  }

  function UpdatedBrand(c: Catalogue, id: Id, category: Id, title: string): Result<Catalogue, Error> {
    if id !in c.brands then Err(BrandNotFound)
    else if category !in c.categories then Err(CategoryNotFound)
    else Ok(PutBrand(c, id, Brand(category, title), c.nextId))
  }

  function DeletedBrand(c: Catalogue, id: Id): Result<Catalogue, Error> {
    if id !in c.brands then Err(BrandNotFound)
    else if BrandUsed(c, id) then Err(BrandInUse)
    else Ok(c.(brands := c.brands - {id}))
  }

  function AddedProduct(c: Catalogue, payload: ProductPayload): Result<Catalogue, Error> {
    match ProductRow(c, payload, None, true)
    case Err(e) => Err(e)
    case Ok(row) => Ok(PutProduct(c, c.nextId, row, c.nextId + 1))
  }

  function UpdatedProduct(c: Catalogue, id: Id, payload: ProductPayload): Result<Catalogue, Error> {
    if id !in c.products then Err(ProductNotFound)
    else match ProductRow(c, payload, Some(id), c.products[id].isActive)
         case Err(e) => Err(e)
         case Ok(row) => Ok(PutProduct(c, id, row, c.nextId))
  }

  function DeletedProduct(c: Catalogue, id: Id): Result<Catalogue, Error> {
    if id !in c.products then Err(ProductNotFound)
    else Ok(c.(products := c.products - {id}))
  }

  function PutCategory(c: Catalogue, id: Id, row: Category, nextId: Id): Catalogue {
    c.(categories := c.categories[id := row], nextId := nextId)
  }

  function PutBrand(c: Catalogue, id: Id, row: Brand, nextId: Id): Catalogue {
    c.(brands := c.brands[id := row], nextId := nextId)
  }

  function PutProduct(c: Catalogue, id: Id, row: Product, nextId: Id): Catalogue {
    c.(products := c.products[id := row], nextId := nextId)
  }

  /** One request; names and SKUs arrive trimmed by the request schema. */
  function Apply(c: Catalogue, op: Op): Result<Catalogue, Error> {
    match op
    case CreateCategory(name) => AddedCategory(c, name)
    case RenameCategory(id, name) => RenamedCategory(c, id, name)
    case RemoveCategory(id) => RemovedCategory(c, id)
    case CreateBrand(category, title) => AddedBrand(c, category, title)
    case UpdateBrand(id, category, title) => UpdatedBrand(c, id, category, title)
    case DeleteBrand(id) => DeletedBrand(c, id)
    case CreateProduct(payload) => AddedProduct(c, payload)
    case UpdateProduct(id, payload) => UpdatedProduct(c, id, payload)
    case DeleteProduct(id) => DeletedProduct(c, id)
  }

  /** The state after a request: a refused one changes nothing. */
  function Next(c: Catalogue, op: Op): Catalogue {
    match Apply(c, op)
    case Ok(next) => next
    case Err(_) => c
  }

  function Run(c: Catalogue, ops: seq<Op>): Catalogue
    decreases |ops|
  {
    if ops == [] then c else Run(Next(c, ops[0]), ops[1..])
  }

  // ----- What every run keeps --------------------------------------------------------

  ghost predicate IdsUsed(c: Catalogue) {
    && (forall k :: k in c.categories ==> k < c.nextId)
    && (forall k :: k in c.brands ==> k < c.nextId)
    && (forall k :: k in c.products ==> k < c.nextId)
  }

  ghost predicate References(c: Catalogue) {
    && (forall k :: k in c.brands ==> c.brands[k].category in c.categories)
    && (forall k :: k in c.products ==> c.products[k].category in c.categories && c.products[k].brand in c.brands)
  }

  ghost predicate DistinctNames(c: Catalogue) {
    forall j, k :: j in c.categories && k in c.categories && j != k ==>
                     Lower(c.categories[j].name) != Lower(c.categories[k].name)
  }

  ghost predicate DistinctProducts(c: Catalogue) {
    forall j, k :: j in c.products && k in c.products && j != k ==>
                     && Lower(c.products[j].sku) != Lower(c.products[k].sku)
                     && c.products[j].slug != c.products[k].slug
  }

  ghost predicate GoodSlugs(c: Catalogue) {
    forall k :: k in c.products ==> IsSlug(c.products[k].slug)
  }

  /** Each product's attributes fit the schema of its category's name. */
  ghost predicate AttributesFit(c: Catalogue) {
    forall k :: k in c.products && c.products[k].category in c.categories ==>
                  Fits(FieldsOf(c.categories[c.products[k].category].name), c.products[k].attributes)
  }

  ghost predicate Integrity(c: Catalogue) {
    IdsUsed(c) && References(c) && DistinctNames(c) && DistinctProducts(c) && GoodSlugs(c) && AttributesFit(c)
  }

  /** A row that may be stored under `id` (a new row for None). */
  ghost predicate GoodRow(c: Catalogue, row: Product, id: Option<Id>) {
    && row.category in c.categories && row.brand in c.brands
    && IsSlug(row.slug)
    && Fits(FieldsOf(c.categories[row.category].name), row.attributes)
    && (forall k :: k in c.products && Some(k) != id ==>
          Lower(c.products[k].sku) != Lower(row.sku) && c.products[k].slug != row.slug)
  }

  /** What the product checks give about the new row: it may be stored, its brand
      belongs to its category, and it holds the price and stock asked for. */
  lemma {:induction false} ProductRowIsGood(c: Catalogue, payload: ProductPayload, id: Option<Id>, wasActive: bool)
    requires ProductRow(c, payload, id, wasActive).Ok?
    ensures var row := ProductRow(c, payload, id, wasActive).value;
            && GoodRow(c, row, id)
            && c.brands[row.brand].category == row.category
            && IsProductCategory(c.categories[row.category].name)
            && row.stockQty == payload.stockQty && row.price == payload.price
  {
    var row := ProductRow(c, payload, id, wasActive).value;
    SanitizeMeaning(c.categories[payload.category].name, payload.attributes);
    FreeSlugIsGood(TakenSlugs(c, id), row.name);
    forall k | k in c.products && Some(k) != id ensures c.products[k].slug != row.slug {
      assert c.products[k].slug in TakenSlugs(c, id);
    }
  }

  lemma {:induction false} FreeSlugIsGood(taken: set<string>, name: string)
    ensures IsSlug(FirstFree(taken, BaseSlug(name), 0)) && FirstFree(taken, BaseSlug(name), 0) !in taken
  {
    BaseSlugIsSlug(name);
    var j := FirstFreeIsFree(taken, BaseSlug(name), 0);
    CandidateIsSlug(BaseSlug(name), j);
  }

  lemma {:induction false} PutProductDistinct(c: Catalogue, id: Id, row: Product, nextId: Id)
    requires DistinctProducts(c)
    requires forall k :: k in c.products && k != id ==>
               Lower(c.products[k].sku) != Lower(row.sku) && c.products[k].slug != row.slug
    ensures DistinctProducts(PutProduct(c, id, row, nextId))
  {
    var d := PutProduct(c, id, row, nextId);
    forall j, k | j in d.products && k in d.products && j != k
      ensures Lower(d.products[j].sku) != Lower(d.products[k].sku) && d.products[j].slug != d.products[k].slug
    {
      assert j != id ==> d.products[j] == c.products[j];
      assert k != id ==> d.products[k] == c.products[k];
    }
  }

  lemma {:induction false} PutProductFits(c: Catalogue, id: Id, row: Product, nextId: Id)
    requires AttributesFit(c) && GoodSlugs(c) && GoodRow(c, row, Some(id))
    ensures AttributesFit(PutProduct(c, id, row, nextId)) && GoodSlugs(PutProduct(c, id, row, nextId))
  {
    var d := PutProduct(c, id, row, nextId);
    assert forall k :: k in d.products && k != id ==> d.products[k] == c.products[k];
  }

  lemma PutProductReferences(c: Catalogue, id: Id, row: Product, nextId: Id)
    requires IdsUsed(c) && References(c) && DistinctNames(c) && id < nextId && c.nextId <= nextId
    requires row.category in c.categories && row.brand in c.brands
    ensures var d := PutProduct(c, id, row, nextId); IdsUsed(d) && References(d) && DistinctNames(d)
  {
  }

  lemma {:induction false} PutProductKeeps(c: Catalogue, id: Id, row: Product, nextId: Id)
    requires Integrity(c) && GoodRow(c, row, Some(id)) && id < nextId && c.nextId <= nextId
    ensures Integrity(PutProduct(c, id, row, nextId))
  {
    hide IdsUsed, References, DistinctNames, DistinctProducts, GoodSlugs, AttributesFit;
    PutProductReferences(c, id, row, nextId);
    PutProductDistinct(c, id, row, nextId);
    PutProductFits(c, id, row, nextId);
  }

  lemma DropProductKeeps(c: Catalogue, id: Id)
    requires Integrity(c)
    ensures Integrity(c.(products := c.products - {id}))
  {
  }

  lemma PutBrandKeeps(c: Catalogue, id: Id, row: Brand, nextId: Id)
    requires Integrity(c) && row.category in c.categories && id < nextId && c.nextId <= nextId
    ensures Integrity(PutBrand(c, id, row, nextId))
  {
  }

  lemma DropBrandKeeps(c: Catalogue, id: Id)
    requires Integrity(c) && !BrandUsed(c, id)
    ensures Integrity(c.(brands := c.brands - {id}))
  {
  }

  /** A stored category keeps its schema: none before and none after. */
  lemma {:induction false} PutCategoryKeeps(c: Catalogue, id: Id, row: Category, nextId: Id)
    requires Integrity(c) && id < nextId && c.nextId <= nextId
    requires !NameTaken(c, row.name, Some(id)) && FieldsOf(row.name) == []
    ensures Integrity(PutCategory(c, id, row, nextId))
  {
    var d := PutCategory(c, id, row, nextId);
    forall k | k in d.products && d.products[k].category in d.categories
      ensures Fits(FieldsOf(d.categories[d.products[k].category].name), d.products[k].attributes)
    {
      assert d.products[k] == c.products[k];
    }
  }

  lemma {:induction false} DropCategoryFits(c: Catalogue, id: Id)
    requires AttributesFit(c)
    ensures AttributesFit(c.(categories := c.categories - {id}))
  {
    var d := c.(categories := c.categories - {id});
    forall k | k in d.products && d.products[k].category in d.categories
      ensures Fits(FieldsOf(d.categories[d.products[k].category].name), d.products[k].attributes)
    {
      assert d.categories[d.products[k].category] == c.categories[c.products[k].category];
    }
  }

  lemma {:induction false} DropCategoryKeeps(c: Catalogue, id: Id)
    requires Integrity(c) && !CategoryUsed(c, id)
    ensures Integrity(c.(categories := c.categories - {id}))
  {
    DropCategoryFits(c, id);
  }

  lemma {:induction false} CategoryOpsKeepIntegrity(c: Catalogue, op: Op)
    requires Integrity(c) && Apply(c, op).Ok? && (op.CreateCategory? || op.RenameCategory? || op.RemoveCategory?)
    ensures Integrity(Apply(c, op).value)
  {
    match op
    case CreateCategory(name) =>
      SchemaIffLocked(Trim(name));
      PutCategoryKeeps(c, c.nextId, Category(Trim(name)), c.nextId + 1);
    case RenameCategory(id, name) =>
      SchemaIffLocked(Trim(name));
      PutCategoryKeeps(c, id, Category(Trim(name)), c.nextId);
    case RemoveCategory(id) => DropCategoryKeeps(c, id);
  }

  lemma {:induction false} AddedProductKeepsIntegrity(c: Catalogue, payload: ProductPayload)
    requires Integrity(c) && AddedProduct(c, payload).Ok?
    ensures Integrity(AddedProduct(c, payload).value)
  {
    hide Integrity, GoodRow, ProductRow;
    var row := ProductRow(c, payload, None, true).value;
    ProductRowIsGood(c, payload, None, true);
    NewRowIsGood(c, row);
    PutProductKeeps(c, c.nextId, row, c.nextId + 1);
  }

  lemma {:induction false} UpdatedProductKeepsIntegrity(c: Catalogue, id: Id, payload: ProductPayload)
    requires Integrity(c) && UpdatedProduct(c, id, payload).Ok?
    ensures Integrity(UpdatedProduct(c, id, payload).value)
  {
    hide Integrity, GoodRow, ProductRow;
    var row := ProductRow(c, payload, Some(id), c.products[id].isActive).value;
    ProductRowIsGood(c, payload, Some(id), c.products[id].isActive);
    KnownId(c, id);
    PutProductKeeps(c, id, row, c.nextId);
  }

  lemma NewRowIsGood(c: Catalogue, row: Product)
    requires GoodRow(c, row, None)
    ensures GoodRow(c, row, Some(c.nextId))
  {
  }

  lemma KnownId(c: Catalogue, id: Id)
    requires Integrity(c) && id in c.products
    ensures id < c.nextId
  {
  }

  lemma {:induction false} ApplyKeepsIntegrity(c: Catalogue, op: Op)
    requires Integrity(c) && Apply(c, op).Ok?
    ensures Integrity(Apply(c, op).value)
  {
    match op
    case CreateBrand(category, title) => PutBrandKeeps(c, c.nextId, Brand(category, title), c.nextId + 1);
    case UpdateBrand(id, category, title) => PutBrandKeeps(c, id, Brand(category, title), c.nextId);
    case DeleteBrand(id) => DropBrandKeeps(c, id);
    case CreateProduct(payload) => AddedProductKeepsIntegrity(c, payload);
    case UpdateProduct(id, payload) => UpdatedProductKeepsIntegrity(c, id, payload);
    case DeleteProduct(id) => DropProductKeeps(c, id);
    case _ => CategoryOpsKeepIntegrity(c, op);
  }

  /** Every run keeps references, distinct names, SKUs and slugs, well-formed
      slugs, and attributes that fit. */
  lemma {:induction false} RunKeepsIntegrity(c: Catalogue, ops: seq<Op>)
    requires Integrity(c)
    ensures Integrity(Run(c, ops))
    decreases |ops|
  {
    if ops != [] {
      NextKeepsIntegrity(c, ops[0]);
      RunKeepsIntegrity(Next(c, ops[0]), ops[1..]);
    }
  }

  lemma {:induction false} NextKeepsIntegrity(c: Catalogue, op: Op)
    requires Integrity(c)
    ensures Integrity(Next(c, op))
  {
    if Apply(c, op).Ok? {
      ApplyKeepsIntegrity(c, op);
    }
  }

  /** The category `id` as far as it is locked. */
  function LockedRow(c: Catalogue, id: Id): Option<Category> {
    if id in c.categories && IsLockedCategoryName(c.categories[id].name) then Some(c.categories[id]) else None
  }

  lemma CategoryOpsKeepLocked(c: Catalogue, op: Op, id: Id)
    requires Apply(c, op).Ok? && (op.CreateCategory? || op.RenameCategory? || op.RemoveCategory?)
    requires IdsUsed(c)
    ensures LockedRow(Apply(c, op).value, id) == LockedRow(c, id)
  {
  }

  lemma {:induction false} NextKeepsLocked(c: Catalogue, op: Op, id: Id)
    requires IdsUsed(c)
    ensures LockedRow(Next(c, op), id) == LockedRow(c, id)
  {
    if Apply(c, op).Ok? && (op.CreateCategory? || op.RenameCategory? || op.RemoveCategory?) {
      CategoryOpsKeepLocked(c, op, id);
    }
  }

  /** No run renames, removes or makes a locked category, under any id. */
  lemma {:induction false} LockedCategoriesStay(c: Catalogue, ops: seq<Op>, id: Id)
    requires Integrity(c)
    ensures LockedRow(Run(c, ops), id) == LockedRow(c, id)
    decreases |ops|
  {
    hide Integrity, LockedRow;
    if ops != [] {
      IdsOf(c);
      NextKeepsLocked(c, ops[0], id);
      NextKeepsIntegrity(c, ops[0]);
      LockedCategoriesStay(Next(c, ops[0]), ops[1..], id);
    }
  }

  lemma IdsOf(c: Catalogue)
    requires Integrity(c)
    ensures IdsUsed(c)
  {
  }

  /** Every product's brand belongs to the product's category. */
  ghost predicate BrandsMatch(c: Catalogue) {
    forall k :: k in c.products && c.products[k].brand in c.brands ==>
                  c.brands[c.products[k].brand].category == c.products[k].category
  }

  /** That is not an invariant: moving a brand keeps it if and only if the
      brand's products are all in the new category. */
  lemma {:induction false} MovingBrandKeepsMatchIff(c: Catalogue, id: Id, category: Id, title: string)
    requires Integrity(c) && BrandsMatch(c) && UpdatedBrand(c, id, category, title).Ok?
    ensures BrandsMatch(UpdatedBrand(c, id, category, title).value)
            <==> forall k :: k in c.products && c.products[k].brand == id ==> c.products[k].category == category
  {
    var d := UpdatedBrand(c, id, category, title).value;
    var stayed := forall k :: k in c.products && c.products[k].brand == id ==> c.products[k].category == category;
    if BrandsMatch(d) {
      forall k | k in c.products && c.products[k].brand == id ensures c.products[k].category == category {
        assert k in d.products && d.products[k].brand in d.brands;
      }
    }
    if stayed {
      forall k | k in d.products && d.products[k].brand in d.brands
        ensures d.brands[d.products[k].brand].category == d.products[k].category
      {
        assert k in c.products && c.products[k].brand in c.brands;
      }
    }
  }

  lemma PutProductKeepsMatch(c: Catalogue, id: Id, row: Product, nextId: Id)
    requires BrandsMatch(c) && row.brand in c.brands && c.brands[row.brand].category == row.category
    ensures BrandsMatch(PutProduct(c, id, row, nextId))
  {
  }

  lemma {:induction false} ProductOpsKeepMatch(c: Catalogue, op: Op)
    requires Integrity(c) && BrandsMatch(c) && Apply(c, op).Ok? && (op.CreateProduct? || op.UpdateProduct?)
    ensures BrandsMatch(Apply(c, op).value)
  {
    if op.CreateProduct? {
      ProductRowIsGood(c, op.payload, None, true);
      PutProductKeepsMatch(c, c.nextId, ProductRow(c, op.payload, None, true).value, c.nextId + 1);
    } else {
      ProductRowIsGood(c, op.payload, Some(op.id), c.products[op.id].isActive);
      PutProductKeepsMatch(c, op.id, ProductRow(c, op.payload, Some(op.id), c.products[op.id].isActive).value, c.nextId);
    }
  }

  /** No other operation breaks it. */
  lemma {:induction false} OtherOpsKeepMatch(c: Catalogue, op: Op)
    requires Integrity(c) && BrandsMatch(c) && Apply(c, op).Ok? && !op.UpdateBrand?
    ensures BrandsMatch(Apply(c, op).value)
  {
    if op.CreateProduct? || op.UpdateProduct? {
      ProductOpsKeepMatch(c, op);
    }
  }

  /** A brand update that succeeds finds all the brand's products in the new category. */
  ghost predicate MovesWithProducts(c: Catalogue, op: Op) {
    op.UpdateBrand? && Apply(c, op).Ok? ==>
      forall k :: k in c.products && c.products[k].brand == op.id ==> c.products[k].category == op.category
  }

  lemma {:induction false} NextKeepsMatchIff(c: Catalogue, op: Op)
    requires Integrity(c) && BrandsMatch(c)
    ensures BrandsMatch(Next(c, op)) <==> MovesWithProducts(c, op)
  {
    hide Integrity, BrandsMatch;
    if Apply(c, op).Ok? {
      if op.UpdateBrand? {
        MovingBrandKeepsMatchIff(c, op.id, op.category, op.title);
      } else {
        OtherOpsKeepMatch(c, op);
      }
    }
  }

  lemma {:induction false} RunSnoc(c: Catalogue, ops: seq<Op>, k: nat)
    requires k < |ops|
    ensures Run(c, ops[..k + 1]) == Next(Run(c, ops[..k]), ops[k])
    decreases k
  {
    hide Next;
    var more := ops[..k + 1];
    assert more[0] == ops[0] && more[1..] == ops[1..][..k];
    if k == 0 {
      assert ops[..0] == [] && Run(Next(c, ops[0]), []) == Next(c, ops[0]);
    } else {
      RunSnoc(Next(c, ops[0]), ops[1..], k - 1);
      assert ops[..k][0] == ops[0] && ops[..k][1..] == ops[1..][..k - 1] && ops[1..][k - 1] == ops[k];
    }
  }

  lemma {:induction false} MatchUpTo(c: Catalogue, ops: seq<Op>, k: nat)
    requires Integrity(c) && BrandsMatch(c) && k <= |ops|
    requires forall j :: 0 <= j < |ops| ==> MovesWithProducts(Run(c, ops[..j]), ops[j])
    ensures BrandsMatch(Run(c, ops[..k]))
  {
    hide Integrity, BrandsMatch, MovesWithProducts, Next;
    if k > 0 {
      MatchUpTo(c, ops, k - 1);
      RunKeepsIntegrity(c, ops[..k - 1]);
      RunSnoc(c, ops, k - 1);
      NextKeepsMatchIff(Run(c, ops[..k - 1]), ops[k - 1]);
    }
  }

  /** Brand and product categories are equal in every state of a run if and only if
      each brand update that succeeds finds the brand's products in the new category. */
  lemma {:induction false} BrandsMatchThroughoutIff(c: Catalogue, ops: seq<Op>)
    requires Integrity(c) && BrandsMatch(c)
    ensures (forall k :: 0 <= k <= |ops| ==> BrandsMatch(Run(c, ops[..k])))
            <==> forall k :: 0 <= k < |ops| ==> MovesWithProducts(Run(c, ops[..k]), ops[k])
  {
    hide Integrity, BrandsMatch, MovesWithProducts, Next;
    if forall k :: 0 <= k <= |ops| ==> BrandsMatch(Run(c, ops[..k])) {
      forall k | 0 <= k < |ops| ensures MovesWithProducts(Run(c, ops[..k]), ops[k]) {
        RunKeepsIntegrity(c, ops[..k]);
        RunSnoc(c, ops, k);
        NextKeepsMatchIff(Run(c, ops[..k]), ops[k]);
      }
    }
    if forall k :: 0 <= k < |ops| ==> MovesWithProducts(Run(c, ops[..k]), ops[k]) {
      forall k | 0 <= k <= |ops| ensures BrandsMatch(Run(c, ops[..k])) {
        MatchUpTo(c, ops, k);
      }
    }
  }

  // ----- Facets ------------------------------------------------------------------------

  predicate InFacets(p: Product, category: Id, activeOnly: bool) {
    p.category == category && (activeOnly ==> p.isActive)
  }

  /** The products `buildFacets` reads, in id order. */
  function Items(products: map<Id, Product>, category: Id, activeOnly: bool, n: nat): seq<Item> {
    if n == 0 then []
    else Items(products, category, activeOnly, n - 1)
         + (if n - 1 in products && InFacets(products[n - 1], category, activeOnly)
            then [Item(products[n - 1].brand, products[n - 1].attributes)] else [])
  }

  function BrandsOf(brands: map<Id, Brand>, category: Id, n: nat): seq<(Id, string)> {
    if n == 0 then []
    else BrandsOf(brands, category, n - 1)
         + (if n - 1 in brands && brands[n - 1].category == category then [(n - 1, brands[n - 1].title)] else [])
  }

  datatype Facets = Facets(brand: seq<FacetRow>, fields: map<string, seq<FacetRow>>, total: nat)

  /** Counts everything, unless the schema lookup finds something inherited. */
  method BuildFacets(c: Catalogue, category: Id, categoryName: string, activeOnly: bool) returns (r: Result<Facets, AttributeError>)
    ensures r.Ok? <==> !FindsInherited(categoryName)
    ensures r.Ok? ==>
            var facets := r.value;
            var items := Items(c.products, category, activeOnly, c.nextId);
            && facets.total == |items|
            && facets.brand == BrandRows(items, BrandsOf(c.brands, category, c.nextId))
            && facets.fields.Keys == (set i | 0 <= i < |FieldsOf(categoryName)| :: FieldsOf(categoryName)[i].key)
            && forall i :: 0 <= i < |FieldsOf(categoryName)| ==>
                 var f := FieldsOf(categoryName)[i];
                 f.key in facets.fields && facets.fields[f.key] == FieldRows(items, f)
  {
    var items := Items(c.products, category, activeOnly, c.nextId);
    var brandRows := CountBrands(items, BrandsOf(c.brands, category, c.nextId));
    if FindsInherited(categoryName) {
      return Err(NotIterable);
    }
    var fields := FieldsOf(categoryName);
    SchemaWellFormed(Normalize(categoryName));
    var counted: map<string, seq<FacetRow>> := map[];
    for i := 0 to |fields|
      invariant counted.Keys == set k | 0 <= k < i :: fields[k].key
      invariant forall k :: 0 <= k < i ==> fields[k].key in counted && counted[fields[k].key] == FieldRows(items, fields[k])
    {
      var rows := CountField(items, fields[i]);
      counted := counted[fields[i].key := rows];
    }
    return Ok(Facets(brandRows, counted, |items|));
  }

  function BrandProducts(products: map<Id, Product>, brand: Id, activeOnly: bool): (r: set<Id>)
    ensures forall k :: k in r <==> k in products && products[k].brand == brand && (!activeOnly || products[k].isActive)
  {
    set k | k in products && products[k].brand == brand && (activeOnly ==> products[k].isActive)
  }

  /** One aggregate over the listed brands; a brand the aggregate has no group for
      counts zero. */
  method AttachProductCounts(products: map<Id, Product>, brands: seq<Id>, activeOnly: bool) returns (productCounts: seq<nat>)
    ensures |productCounts| == |brands|
    ensures forall i :: 0 <= i < |brands| ==> productCounts[i] == |BrandProducts(products, brands[i], activeOnly)|
  {
    if |brands| == 0 {
      return [];
    }
    var matched := set k | k in products && products[k].brand in brands && (activeOnly ==> products[k].isActive);
    var groups := set k | k in matched :: products[k].brand;
    var countByBrand := map b | b in groups :: |set k | k in matched && products[k].brand == b|;
    productCounts := seq(|brands|, i requires 0 <= i < |brands| => if brands[i] in countByBrand then countByBrand[brands[i]] else 0);
    forall i | 0 <= i < |brands| ensures productCounts[i] == |BrandProducts(products, brands[i], activeOnly)| {
      var group := set k | k in matched && products[k].brand == brands[i];
      assert group == BrandProducts(products, brands[i], activeOnly);
      if brands[i] !in countByBrand {
        assert group == {};
      }
    }
  }

  /** The true number of products a facet row stands for. */
  ghost function ProductsWith(c: Catalogue, category: Id, activeOnly: bool, key: string, value: string): set<Id> {
    set k | k in c.products && c.products[k].category == category && (!activeOnly || c.products[k].isActive)
            && key in c.products[k].attributes && c.products[k].attributes[key] == value
  }

  ghost function ProductsBelow(c: Catalogue, category: Id, activeOnly: bool, key: string, value: string, n: nat): set<Id> {
    set k | k in ProductsWith(c, category, activeOnly, key, value) && k < n
  }

  lemma {:induction false} OneMoreProduct(c: Catalogue, category: Id, activeOnly: bool, key: string, value: string, n: nat)
    ensures |ProductsBelow(c, category, activeOnly, key, value, n + 1)|
            == |ProductsBelow(c, category, activeOnly, key, value, n)|
               + (if n in ProductsWith(c, category, activeOnly, key, value) then 1 else 0)
  {
    var before := ProductsBelow(c, category, activeOnly, key, value, n);
    var all := ProductsBelow(c, category, activeOnly, key, value, n + 1);
    if n in ProductsWith(c, category, activeOnly, key, value) {
      assert all == before + {n};
    } else {
      assert all == before;
    }
  }

  lemma {:induction false} OneMoreItem(items: seq<Item>, item: Item, key: string, value: string)
    ensures CountValue(items + [item], key, value)
            == CountValue(items, key, value) + (if key in item.attributes && item.attributes[key] == value then 1 else 0)
  {
    assert (items + [item])[..|items|] == items;
  }

  /** One more id adds its product's item, or nothing. */
  lemma ItemsStep(c: Catalogue, category: Id, activeOnly: bool, n: nat)
    ensures var counted := n in c.products && InFacets(c.products[n], category, activeOnly);
            Items(c.products, category, activeOnly, n + 1)
            == if counted then Items(c.products, category, activeOnly, n) + [Item(c.products[n].brand, c.products[n].attributes)]
               else Items(c.products, category, activeOnly, n)
  {
  }

  lemma {:induction false} CountStep(c: Catalogue, category: Id, activeOnly: bool, key: string, value: string, n: nat)
    ensures CountValue(Items(c.products, category, activeOnly, n + 1), key, value)
            == CountValue(Items(c.products, category, activeOnly, n), key, value)
               + (if n in ProductsWith(c, category, activeOnly, key, value) then 1 else 0)
  {
    ItemsStep(c, category, activeOnly, n);
    if n in c.products && InFacets(c.products[n], category, activeOnly) {
      OneMoreItem(Items(c.products, category, activeOnly, n), Item(c.products[n].brand, c.products[n].attributes), key, value);
    }
  }

  lemma {:induction false} NoneBelowZero(c: Catalogue, category: Id, activeOnly: bool, key: string, value: string)
    ensures |ProductsBelow(c, category, activeOnly, key, value, 0)| == 0
  {
    assert ProductsBelow(c, category, activeOnly, key, value, 0) == {};
  }

  lemma {:induction false} ItemsCountProducts(c: Catalogue, category: Id, activeOnly: bool, key: string, value: string, n: nat)
    ensures CountValue(Items(c.products, category, activeOnly, n), key, value)
            == |ProductsBelow(c, category, activeOnly, key, value, n)|
  {
    NoneBelowZero(c, category, activeOnly, key, value);
    hide ProductsWith, ProductsBelow;
    if n > 0 {
      ItemsCountProducts(c, category, activeOnly, key, value, n - 1);
      OneMoreProduct(c, category, activeOnly, key, value, n - 1);
      CountStep(c, category, activeOnly, key, value, n - 1);
    }
  }

  lemma {:induction false} ItemsFit(c: Catalogue, category: Id, activeOnly: bool, fields: seq<Field>, n: nat)
    requires Integrity(c) && category in c.categories && fields == FieldsOf(c.categories[category].name)
    ensures forall i :: 0 <= i < |Items(c.products, category, activeOnly, n)| ==>
              Fits(fields, Items(c.products, category, activeOnly, n)[i].attributes)
  {
    if n > 0 {
      ItemsFit(c, category, activeOnly, fields, n - 1);
    }
  }

  /** For field i of the category's schema, each option count is the true number of
      its products, and the counts add up to `_total`. */
  ghost predicate FacetExact(c: Catalogue, category: Id, activeOnly: bool, i: nat)
    requires category in c.categories && i < |FieldsOf(c.categories[category].name)|
  {
    var f := FieldsOf(c.categories[category].name)[i];
    var items := Items(c.products, category, activeOnly, c.nextId);
    var rows := FieldRows(items, f);
    && (forall j :: 0 <= j < |rows| ==> rows[j].count == |ProductsWith(c, category, activeOnly, f.key, rows[j].caption)|)
    && SumCounts(rows) == |items|
  }

  lemma {:induction false} IntegrityMakesFacetsExact(c: Catalogue, category: Id, activeOnly: bool, i: nat)
    requires Integrity(c) && category in c.categories && i < |FieldsOf(c.categories[category].name)|
    ensures FacetExact(c, category, activeOnly, i)
  {
    var fields := FieldsOf(c.categories[category].name);
    var f := fields[i];
    var items := Items(c.products, category, activeOnly, c.nextId);
    forall value ensures CountValue(items, f.key, value) == |ProductsWith(c, category, activeOnly, f.key, value)| {
      ItemsCountProducts(c, category, activeOnly, f.key, value, c.nextId);
      assert ProductsBelow(c, category, activeOnly, f.key, value, c.nextId) == ProductsWith(c, category, activeOnly, f.key, value);
    }
    SchemaWellFormed(Normalize(c.categories[category].name));
    ItemsFit(c, category, activeOnly, fields, c.nextId);
    forall k | 0 <= k < |items| ensures f.key in items[k].attributes && items[k].attributes[f.key] in f.options {
      assert Fits(fields, items[k].attributes);
    }
    CountsAddUp(items, f.key, f.caption, f.options);
  }

  /** In every reachable state, for every field of a category's schema, the facet is exact. */
  lemma {:induction false} FacetsExactOverRuns(start: Catalogue, ops: seq<Op>, category: Id, activeOnly: bool, i: nat)
    requires Integrity(start) && category in Run(start, ops).categories
    requires i < |FieldsOf(Run(start, ops).categories[category].name)|
    ensures FacetExact(Run(start, ops), category, activeOnly, i)
  {
    RunKeepsIntegrity(start, ops);
    IntegrityMakesFacetsExact(Run(start, ops), category, activeOnly, i);
  }

  // ----- Brand facets ------------------------------------------------------------------------

  predicate InCategory(brands: map<Id, Brand>, category: Id, brand: Id) {
    brand in brands && brands[brand].category == category
  }

  lemma {:induction false} BrandsOfMeaning(brands: map<Id, Brand>, category: Id, n: nat)
    ensures forall b: nat :: IsListed(BrandsOf(brands, category, n), b) <==> b < n && InCategory(brands, category, b)
    ensures ListedOnce(BrandsOf(brands, category, n))
  {
    if n > 0 {
      BrandsOfMeaning(brands, category, n - 1);
      var before := BrandsOf(brands, category, n - 1);
      if InCategory(brands, category, n - 1) {
        AppendListed(before, (n - 1, brands[n - 1].title));
      } else {
        assert BrandsOf(brands, category, n) == before;
      }
    }
  }

  predicate Carries(items: seq<Item>, brand: Id) {
    exists i :: 0 <= i < |items| && items[i].brand == brand
  }

  predicate CountedWith(c: Catalogue, category: Id, activeOnly: bool, n: nat, brand: Id) {
    exists k :: k in c.products && k < n && InFacets(c.products[k], category, activeOnly) && c.products[k].brand == brand
  }

  /** The items are the products counted. */
  lemma {:induction false} ItemsMeaning(c: Catalogue, category: Id, activeOnly: bool, n: nat, brand: Id)
    ensures Carries(Items(c.products, category, activeOnly, n), brand) <==> CountedWith(c, category, activeOnly, n, brand)
  {
    if n > 0 {
      ItemsMeaning(c, category, activeOnly, n - 1, brand);
      ItemsStep(c, category, activeOnly, n - 1);
      var before, after := Items(c.products, category, activeOnly, n - 1), Items(c.products, category, activeOnly, n);
      assert forall i :: 0 <= i < |before| ==> after[i] == before[i];
      if Carries(before, brand) {
        var i :| 0 <= i < |before| && before[i].brand == brand;
        assert after[i].brand == brand;
      }
      if n - 1 in c.products && InFacets(c.products[n - 1], category, activeOnly) {
        assert after[|before|].brand == c.products[n - 1].brand;
      }
    }
  }

  /** The brand rows add up to `_total` if and only if the brand of every product
      counted is in the category. */
  lemma {:induction false} BrandRowsAddUpIff(c: Catalogue, category: Id, activeOnly: bool)
    requires IdsUsed(c)
    ensures var items := Items(c.products, category, activeOnly, c.nextId);
            SumCounts(BrandRows(items, BrandsOf(c.brands, category, c.nextId))) == |items|
            <==> forall k :: k in c.products && c.products[k].category == category && (!activeOnly || c.products[k].isActive) ==>
                   InCategory(c.brands, category, c.products[k].brand)
  {
    var items := Items(c.products, category, activeOnly, c.nextId);
    var listed := BrandsOf(c.brands, category, c.nextId);
    BrandsOfMeaning(c.brands, category, c.nextId);
    BrandRowsSumIff(items, listed);
    forall k | k in c.products && InFacets(c.products[k], category, activeOnly)
      ensures Carries(items, c.products[k].brand)
    {
      ItemsMeaning(c, category, activeOnly, c.nextId, c.products[k].brand);
    }
    forall i | 0 <= i < |items| ensures CountedWith(c, category, activeOnly, c.nextId, items[i].brand) {
      ItemsMeaning(c, category, activeOnly, c.nextId, items[i].brand);
    }
    hide Items, BrandsOf, SumCounts, BrandRows;
  }
}
