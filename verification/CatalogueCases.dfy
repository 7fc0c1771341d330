/** Runs of admin operations, from an empty catalogue, that reach what fails. */
module CatalogueCases {
  import opened Common
  import opened Slugs
  import opened Attributes
  import opened Catalogue

  const EMPTY := Catalogue(map[], map[], map[], 0)

  /** A name that every request schema takes: a few small letters. */
  predicate Plain(name: string) {
    2 <= |name| <= 60 && forall i :: 0 <= i < |name| ==> 'a' <= name[i] <= 'z'
  }

  /** One that the catalogue does not treat specially. */
  predicate PlainCategory(name: string) {
    Plain(name) && name !in SCHEMA_SLUGS && name != "brands" && name != "constructor"
  }

  lemma {:induction false} PlainStays(name: string)
    requires Plain(name)
    ensures Trim(name) == name && Lower(name) == name && Normalize(name) == name
  {
    assert !IsSpace(name[0]) && !IsSpace(name[|name| - 1]);
    LowerPointwise(name, name);
  }

  lemma {:induction false} PlainCategoryIsOpen(name: string)
    requires PlainCategory(name)
    ensures FieldsOf(name) == [] && !IsLockedCategoryName(name) && IsProductCategory(name) && !FindsConstructor(name)
  {
    PlainStays(name);
    SchemaExists(name);
    SchemaIffLocked(name);
    NormalizeIs(EXCLUDED_PRODUCT_CATEGORY, "brands");
    hide Trim, Lower, Normalize, IsLockedCategoryName;
  }

  // ----- A brand that moves --------------------------------------------------------------------

  /** The names of the two categories, the brand, the product and its SKU. */
  datatype Names = Names(first: string, second: string, title: string, name: string, sku: string)

  predicate Usable(n: Names) {
    && PlainCategory(n.first) && PlainCategory(n.second) && n.first != n.second
    && Plain(n.title) && Plain(n.name) && Plain(n.sku)
  }

  function Payload(n: Names): ProductPayload {
    ProductPayload(n.name, n.sku, 0, 2, 100, 1, None, map[])
  }

  function OneCategory(n: Names): Catalogue {
    Catalogue(map[0 := Category(n.first)], map[], map[], 1)
  }

  function TwoCategories(n: Names): Catalogue {
    Catalogue(map[0 := Category(n.first), 1 := Category(n.second)], map[], map[], 2)
  }

  function WithBrand(n: Names): Catalogue {
    TwoCategories(n).(brands := map[2 := Brand(0, n.title)], nextId := 3)
  }

  function WithProduct(n: Names, brandCategory: Id): Catalogue {
    Catalogue(map[0 := Category(n.first), 1 := Category(n.second)], map[2 := Brand(brandCategory, n.title)],
              map[3 := Product(n.name, BaseSlug(n.name), n.sku, 0, 2, 100, 1, true, map[])], 4)
  }

  lemma {:induction false} MakesFirst(n: Names)
    requires PlainCategory(n.first)
    ensures AddedCategory(EMPTY, n.first) == Ok(OneCategory(n))
  {
    PlainStays(n.first);
    PlainCategoryIsOpen(n.first);
    hide Trim, Lower, IsLockedCategoryName, FieldsOf, IsProductCategory, FindsConstructor, Normalize, PlainCategory, Plain;
  }

  lemma {:induction false} MakesSecond(n: Names)
    requires PlainCategory(n.first) && PlainCategory(n.second) && n.first != n.second
    ensures AddedCategory(OneCategory(n), n.second) == Ok(TwoCategories(n))
  {
    PlainStays(n.first);
    PlainStays(n.second);
    PlainCategoryIsOpen(n.second);
    hide Trim, Lower, IsLockedCategoryName, FieldsOf, IsProductCategory, FindsConstructor, Normalize, PlainCategory, Plain;
  }

  lemma FreeSlug(name: string)
    ensures FirstFree({}, BaseSlug(name), 0) == BaseSlug(name)
  {
  }

  lemma NoFields()
    ensures SanitizeUpTo([], map[], 0) == Ok(map[])
  {
  }

  lemma NothingTaken(n: Names)
    ensures !SkuTaken(WithBrand(n), n.sku, None) && TakenSlugs(WithBrand(n), None) == {}
  {
  }

  lemma {:induction false} MakesRow(n: Names)
    requires Usable(n)
    ensures ProductRow(WithBrand(n), Payload(n), None, true) == Ok(WithProduct(n, 0).products[3])
  {
    PlainCategoryIsOpen(n.first);
    PlainStays(n.name);
    PlainStays(n.sku);
    NothingTaken(n);
    FreeSlug(n.name);
    NoFields();
    hide SanitizeUpTo, Trim, FieldsOf, IsProductCategory, FindsConstructor, IsLockedCategoryName;
    hide SkuTaken, TakenSlugs, FirstFree, BaseSlug, Usable, PlainCategory, Plain;
  }

  lemma {:induction false} MakesProduct(n: Names)
    requires Usable(n)
    ensures AddedProduct(WithBrand(n), Payload(n)) == Ok(WithProduct(n, 0))
  {
    hide ProductRow, Usable, BaseSlug;
    MakesRow(n);
  }

  function Moving(n: Names): seq<Op> {
    [CreateCategory(n.first), CreateCategory(n.second), CreateBrand(0, n.title), CreateProduct(Payload(n)),
     UpdateBrand(2, 1, n.title)]
  }

  lemma {:induction false} RunCons(c: Catalogue, op: Op, ops: seq<Op>)
    ensures Run(c, [op] + ops) == Run(Next(c, op), ops)
  {
    assert ([op] + ops)[1..] == ops;
  }

  lemma {:induction false} FiveSteps(c: Catalogue, a: Op, b: Op, d: Op, e: Op, f: Op)
    ensures Run(c, [a, b, d, e, f]) == Next(Next(Next(Next(Next(c, a), b), d), e), f)
  {
    hide Next;
    assert [a, b, d, e, f] == [a] + [b, d, e, f] && [b, d, e, f] == [b] + [d, e, f] && [d, e, f] == [d] + [e, f];
    assert [e, f] == [e] + [f] && [f] == [f] + [];
    RunCons(c, a, [b, d, e, f]);
    RunCons(Next(c, a), b, [d, e, f]);
    RunCons(Next(Next(c, a), b), d, [e, f]);
    RunCons(Next(Next(Next(c, a), b), d), e, [f]);
    RunCons(Next(Next(Next(Next(c, a), b), d), e), f, []);
  }

  lemma BrandSteps(n: Names)
    ensures Next(TwoCategories(n), CreateBrand(0, n.title)) == WithBrand(n)
    ensures Next(WithProduct(n, 0), UpdateBrand(2, 1, n.title)) == WithProduct(n, 1)
  {
  }

  lemma {:induction false} OtherSteps(n: Names)
    requires Usable(n)
    ensures Next(EMPTY, CreateCategory(n.first)) == OneCategory(n)
    ensures Next(OneCategory(n), CreateCategory(n.second)) == TwoCategories(n)
    ensures Next(WithBrand(n), CreateProduct(Payload(n))) == WithProduct(n, 0)
  {
    hide AddedCategory, AddedProduct, OneCategory, TwoCategories, WithBrand, WithProduct, Payload, PlainCategory, Plain;
    MakesFirst(n);
    MakesSecond(n);
    MakesProduct(n);
  }

  lemma {:induction false} MovingRuns(n: Names)
    requires Usable(n)
    ensures Run(EMPTY, Moving(n)) == WithProduct(n, 1)
  {
    hide Next, OneCategory, TwoCategories, WithBrand, WithProduct, Payload, Usable;
    BrandSteps(n);
    OtherSteps(n);
    FiveSteps(EMPTY, CreateCategory(n.first), CreateCategory(n.second), CreateBrand(0, n.title), CreateProduct(Payload(n)),
              UpdateBrand(2, 1, n.title));
  }

  /** A brand with one product is moved: the product stays behind, and the brand rows
      of its category no longer add up. */
  lemma {:induction false} MovedBrandLeavesProduct(n: Names)
    requires Usable(n)
    ensures var c := Run(EMPTY, Moving(n));
            var items := Items(c.products, 0, false, c.nextId);
            && Integrity(c) && !BrandsMatch(c)
            && SumCounts(BrandRows(items, BrandsOf(c.brands, 0, c.nextId))) != |items|
  {
    assert Integrity(EMPTY);
    RunKeepsIntegrity(EMPTY, Moving(n));
    MovingRuns(n);
    var c := WithProduct(n, 1);
    assert 3 in c.products && c.products[3].brand in c.brands && c.brands[c.products[3].brand].category == 1;
    assert InFacets(c.products[3], 0, false) && !InCategory(c.brands, 0, c.products[3].brand);
    hide Run, Items, BrandsOf, BrandRows, SumCounts;
    BrandRowsAddUpIff(c, 0, false);
  }

  /** Such names exist. */
  lemma SomeNamesAreUsable()
    ensures Usable(Names("lamps", "tables", "brand", "lamp", "sku"))
  {
    assert "lamps"[0] == 'l' && "tables"[0] == 't' && "brands"[0] == 'b';
    assert |"lamps"| == 5 && |"tables"| == 6 && |"constructor"| == 11;
    assert |SCHEMA_SLUGS[0]| == 10 && |SCHEMA_SLUGS[1]| == 6 && |SCHEMA_SLUGS[2]| == 3 && |SCHEMA_SLUGS[3]| == 11;
    assert SCHEMA_SLUGS[1][0] == 'c';
  }

  // ----- A category called constructor -----------------------------------------------------------

  lemma {:induction false} ConstructorNormal()
    ensures Normalize("constructor") == "constructor" && Trim("constructor") == "constructor"
  {
    var name := "constructor";
    assert |name| == 11 && !IsSpace(name[0]) && !IsSpace(name[10]);
    NormalizeIs(name, name);
  }

  lemma {:induction false} ConstructorHasNoSchema()
    ensures Schema("constructor") == []
  {
    assert |SCHEMA_SLUGS[0]| == 10 && |SCHEMA_SLUGS[1]| == 6 && |SCHEMA_SLUGS[2]| == 3;
    assert |SCHEMA_SLUGS[3]| == 11 && SCHEMA_SLUGS[3][0] == 'a' && |"constructor"| == 11 && "constructor"[0] == 'c';
  }

  lemma {:induction false} ConstructorIsFound()
    ensures FindsConstructor("constructor") && !IsLockedCategoryName("constructor") && Trim("constructor") == "constructor"
  {
    ConstructorNormal();
    ConstructorHasNoSchema();
    hide Normalize, Trim, Schema, IsLockedCategoryName;
    SchemaIffLocked("constructor");
  }

  /** An admin can make a category called `constructor`. */
  lemma {:induction false} ConstructorCanBeMade()
    ensures Run(EMPTY, [CreateCategory("constructor")]) == Catalogue(map[0 := Category("constructor")], map[], map[], 1)
  {
    ConstructorIsFound();
    hide Trim, Lower, IsLockedCategoryName;
    assert [CreateCategory("constructor")] == [CreateCategory("constructor")] + [];
    RunCons(EMPTY, CreateCategory("constructor"), []);
  }

  /** In every state no product can be put into a category of that name. */
  lemma ConstructorTakesNoProduct(c: Catalogue, payload: ProductPayload, id: Option<Id>, wasActive: bool)
    requires payload.category in c.categories && FindsConstructor(c.categories[payload.category].name)
    ensures ProductRow(c, payload, id, wasActive).Err?
  {
  }

  /** The checks of create and update end in the TypeError if and only if everything
      before the attributes passes and the category has that name. */
  lemma {:induction false} ConstructorThrowsIff(c: Catalogue, payload: ProductPayload, id: Option<Id>, wasActive: bool)
    ensures ProductRow(c, payload, id, wasActive) == Err(BadAttribute(NotIterable))
            <==> && payload.category in c.categories && FindsConstructor(c.categories[payload.category].name)
                 && payload.brand in c.brands && c.brands[payload.brand].category == payload.category
                 && !SkuTaken(c, Trim(payload.sku), id)
  {
    if payload.category in c.categories {
      var name := c.categories[payload.category].name;
      ConstructorHoldsProducts(name);
      NoFieldThrows(FieldsOf(name), payload.attributes, |FieldsOf(name)|);
      hide Trim, Lower, FieldsOf, Normalize, FindsConstructor, IsProductCategory, SkuTaken, FirstFree, BaseSlug, TakenSlugs;
    }
  }

  lemma {:induction false} ConstructorHoldsProducts(name: string)
    ensures FindsConstructor(name) ==> IsProductCategory(name)
  {
    NormalizeIs(EXCLUDED_PRODUCT_CATEGORY, "brands");
    assert |"brands"| != |"constructor"|;
  }

  lemma {:induction false} NoFieldThrows(fields: seq<Field>, attributes: map<string, string>, n: nat)
    requires n <= |fields|
    ensures SanitizeUpTo(fields, attributes, n) != Err(NotIterable)
  {
    if n > 0 {
      NoFieldThrows(fields, attributes, n - 1);
    }
  }
}
