/** The product and brand lists: which rows a query by category name and brand titles
    finds, and the page metadata it is answered with. */
module Listings {
  import opened Common
  import opened Slugs
  import opened Catalogue
  import opened CatalogueCases
  import opened Pagination

  const PRODUCT_LIMIT := 8
  const BRAND_LIMIT := 12

  /** The names a query asks for; the empty text and the empty list ask for nothing. */
  datatype Query = Query(category: string, titles: seq<string>)

  /** `findOne` with a case-insensitive `^name$`: the first such category below id n. */
  function CategoryNamed(c: Catalogue, name: string, n: nat): (r: Option<Id>)
    ensures r.Some? ==> r.value in c.categories && Lower(c.categories[r.value].name) == Lower(name)
    ensures r.None? ==> forall id: nat :: id < n && id in c.categories ==> Lower(c.categories[id].name) != Lower(name)
  {
    if n == 0 then None
    else
      var earlier := CategoryNamed(c, name, n - 1);
      if earlier.Some? then earlier
      else if n - 1 in c.categories && Lower(c.categories[n - 1].name) == Lower(name) then Some(n - 1)
      else None
  }

  predicate TitleAsked(titles: seq<string>, title: string) {
    exists i :: 0 <= i < |titles| && Lower(titles[i]) == Lower(title)
  }

  predicate BrandSelected(c: Catalogue, category: Option<Id>, titles: seq<string>, brand: Id) {
    && brand in c.brands && (category.Some? ==> c.brands[brand].category == category.value)
    && TitleAsked(titles, c.brands[brand].title)
  }

  /** The ids the list counts; None is the early return with `emptyResult`. `rest`
      stands for the other filters. */
  function Selected(c: Catalogue, query: Query, rest: Product -> bool): Option<set<Id>> {
    var category := if query.category == "" then None else CategoryNamed(c, query.category, c.nextId);
    if query.category != "" && category.None? then None
    else if query.titles != [] && !(exists b :: b in c.brands && BrandSelected(c, category, query.titles, b)) then None
    else Some(set k | k in c.products && (category.Some? ==> c.products[k].category == category.value)
                      && (query.titles != [] ==> BrandSelected(c, category, query.titles, c.products[k].brand))
                      && rest(c.products[k]))
  }

  /** `emptyResult`. */
  function EmptyMeta(page: Option<int>, limit: Option<int>, defaultLimit: int): Meta {
    var p := Max(1, if page.Some? then page.value else 1);
    var l := ToSafeLimit(if limit.Some? then limit.value else defaultLimit);
    Meta(p, l, 0, 1, false, false)
  }

  function ProductList(c: Catalogue, query: Query, rest: Product -> bool, page: Option<int>, limit: Option<int>): Meta {
    match Selected(c, query, rest)
    case None => EmptyMeta(page, limit, PRODUCT_LIMIT)
    case Some(found) => ListMeta(page, limit, PRODUCT_LIMIT, |found|)
  }

  /** The brand list looks up its category only. */
  function SelectedBrands(c: Catalogue, category: string, rest: Brand -> bool): Option<set<Id>> {
    var id := if category == "" then None else CategoryNamed(c, category, c.nextId);
    if category != "" && id.None? then None
    else Some(set b | b in c.brands && (id.Some? ==> c.brands[b].category == id.value) && rest(c.brands[b]))
  }

  function BrandList(c: Catalogue, category: string, rest: Brand -> bool, page: Option<int>, limit: Option<int>): Meta {
    match SelectedBrands(c, category, rest)
    case None => EmptyMeta(page, limit, BRAND_LIMIT)
    case Some(found) => ListMeta(page, limit, BRAND_LIMIT, |found|)
  }

  // ----- What a query asks for ---------------------------------------------------------------

  predicate InNamed(c: Catalogue, category: string, id: Id) {
    category == "" || (id in c.categories && Lower(c.categories[id].name) == Lower(category))
  }

  /** The products whose own category and own brand have the names asked for. */
  ghost function Asked(c: Catalogue, query: Query, rest: Product -> bool): set<Id> {
    set k | k in c.products && InNamed(c, query.category, c.products[k].category)
            && (query.titles != [] ==> c.products[k].brand in c.brands && TitleAsked(query.titles, c.brands[c.products[k].brand].title))
            && rest(c.products[k])
  }

  /** Some category has the name, and some brand in it one of the titles. */
  ghost predicate NamesExist(c: Catalogue, query: Query) {
    && (query.category == "" || exists id: Id :: id in c.categories && InNamed(c, query.category, id))
    && (query.titles == [] || exists b :: b in c.brands && TitleAsked(query.titles, c.brands[b].title)
                                          && InNamed(c, query.category, c.brands[b].category))
  }

  /** With distinct names, the category found is the one category of that name. */
  lemma {:induction false} NamedIsFound(c: Catalogue, category: string, id: Id)
    requires IdsUsed(c) && DistinctNames(c) && category != "" && id in c.categories
    ensures InNamed(c, category, id) <==> CategoryNamed(c, category, c.nextId) == Some(id)
  {
  }

  lemma {:induction false} SelectedIffNamesExist(c: Catalogue, query: Query, rest: Product -> bool)
    requires Integrity(c)
    ensures Selected(c, query, rest).Some? <==> NamesExist(c, query)
  {
    hide TitleAsked, CategoryNamed, DistinctProducts, GoodSlugs, AttributesFit;
    if query.category != "" {
      forall id | id in c.categories
        ensures InNamed(c, query.category, id) <==> CategoryNamed(c, query.category, c.nextId) == Some(id)
      {
        NamedIsFound(c, query.category, id);
      }
    }
  }

  ghost function FoundOf(selected: Option<set<Id>>): set<Id> {
    if selected.Some? then selected.value else {}
  }

  /** The list finds the products asked for, and no others, if and only if each of
      them has its brand in its own category, or not both names are asked for. */
  lemma {:induction false} ListFindsAskedIff(c: Catalogue, query: Query, rest: Product -> bool)
    requires Integrity(c)
    ensures FoundOf(Selected(c, query, rest)) <= Asked(c, query, rest)
    ensures FoundOf(Selected(c, query, rest)) == Asked(c, query, rest)
            <==> query.category == "" || query.titles == []
                 || forall k :: k in Asked(c, query, rest) ==> c.brands[c.products[k].brand].category == c.products[k].category
  {
    hide TitleAsked, CategoryNamed, DistinctProducts, GoodSlugs, AttributesFit;
    if query.category != "" {
      forall id | id in c.categories
        ensures InNamed(c, query.category, id) <==> CategoryNamed(c, query.category, c.nextId) == Some(id)
      {
        NamedIsFound(c, query.category, id);
      }
    }
    forall k | k in Asked(c, query, rest)
      ensures k in FoundOf(Selected(c, query, rest))
              <==> query.category == "" || query.titles == [] || c.brands[c.products[k].brand].category == c.products[k].category
    {
    }
  }

  predicate AnyProduct(p: Product) {
    true
  }

  /** A moved brand hides its product: asked for by its category and its brand, the
      product that `MovedBrandLeavesProduct` leaves behind is not found. */
  lemma {:induction false} MovedBrandHidesProduct(n: Names)
    requires Usable(n)
    ensures var c, query := Run(EMPTY, Moving(n)), Query(n.first, [n.title]);
            Asked(c, query, AnyProduct) == {3} && FoundOf(Selected(c, query, AnyProduct)) == {}
  {
    hide Run, Moving, Integrity, CategoryNamed, Selected;
    assert Integrity(EMPTY) by { EmptyIsSound(); }
    RunKeepsIntegrity(EMPTY, Moving(n));
    MovingRuns(n);
    var c, query := WithProduct(n, 1), Query(n.first, [n.title]);
    ListFindsAskedIff(c, query, AnyProduct);
    assert query.titles[0] == n.title;
    assert 3 in Asked(c, query, AnyProduct);
  }

  lemma EmptyIsSound()
    ensures Integrity(EMPTY)
  {
  }

  // ----- The metadata against the plugin's ----------------------------------------------------

  predicate FirstPage(page: Option<int>) {
    page.None? || page.value <= 1
  }

  function PageOr1(page: Option<int>): int {
    if page.Some? then page.value else 1
  }

  function LimitOr(limit: Option<int>, defaultLimit: int): int {
    if limit.Some? then limit.value else defaultLimit
  }

  lemma EmptyMetaAgreesIff(page: Option<int>, limit: Option<int>, defaultLimit: int)
    ensures EmptyMeta(page, limit, defaultLimit) == OffsetMeta(PageOr1(page), LimitOr(limit, defaultLimit), 0) <==> FirstPage(page)
  {
    PagesPositive(0, ToSafeLimit(LimitOr(limit, defaultLimit)));
  }

  /** The product list answers with the plugin's metadata for what it finds if and
      only if the names exist or the page asked for is the first. */
  lemma {:induction false} ProductListAgreesIff(
      c: Catalogue, query: Query, rest: Product -> bool, page: Option<int>, limit: Option<int>)
    requires Integrity(c)
    ensures ProductList(c, query, rest, page, limit)
            == OffsetMeta(PageOr1(page), LimitOr(limit, PRODUCT_LIMIT), |FoundOf(Selected(c, query, rest))|)
            <==> NamesExist(c, query) || FirstPage(page)
  {
    hide Integrity, NamesExist, Selected, EmptyMeta, ListMeta, OffsetMeta;
    SelectedIffNamesExist(c, query, rest);
    EmptyMetaAgreesIff(page, limit, PRODUCT_LIMIT);
    ListMetaAgrees(page, limit, PRODUCT_LIMIT, |FoundOf(Selected(c, query, rest))|);
  }

  lemma {:induction false} BrandListAgreesIff(c: Catalogue, category: string, rest: Brand -> bool, page: Option<int>, limit: Option<int>)
    requires Integrity(c)
    ensures BrandList(c, category, rest, page, limit)
            == OffsetMeta(PageOr1(page), LimitOr(limit, BRAND_LIMIT), |FoundOf(SelectedBrands(c, category, rest))|)
            <==> category == "" || (exists id: Id :: id in c.categories && InNamed(c, category, id)) || FirstPage(page)
  {
    hide EmptyMeta, ListMeta, OffsetMeta, CategoryNamed;
    EmptyMetaAgreesIff(page, limit, BRAND_LIMIT);
    ListMetaAgrees(page, limit, BRAND_LIMIT, |FoundOf(SelectedBrands(c, category, rest))|);
  }

  /** Without parameters: the first page, of 8 products or of 12 brands. */
  lemma {:induction false} DefaultPages(c: Catalogue, query: Query, rest: Product -> bool, brands: Brand -> bool)
    ensures ProductList(c, query, rest, None, None).page == 1 && ProductList(c, query, rest, None, None).limit == 8
    ensures BrandList(c, query.category, brands, None, None).page == 1
    ensures BrandList(c, query.category, brands, None, None).limit == 12
  {
    hide Selected, SelectedBrands;
  }

  /** Page 2 of a category nobody has: no previous page, says the list. */
  lemma {:induction false} UnknownCategoryPageTwo(c: Catalogue, query: Query, rest: Product -> bool, limit: Option<int>)
    requires query.category != "" && forall id :: id in c.categories ==> Lower(c.categories[id].name) != Lower(query.category)
    ensures !ProductList(c, query, rest, Some(2), limit).hasPrevPage
    ensures OffsetMeta(2, LimitOr(limit, PRODUCT_LIMIT), |FoundOf(Selected(c, query, rest))|).hasPrevPage
  {
  }
}
