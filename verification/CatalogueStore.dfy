/** The category, brand and product services as they change the database. */
module CatalogueStore {
  import opened Common
  import opened Slugs
  import opened Attributes
  import opened Catalogue

  /** The checks of `create` and `update`, then the slug, then the attributes. */
  method BuildRow(c: Catalogue, payload: ProductPayload, id: Option<Id>, wasActive: bool) returns (r: Result<Product, Error>)
    ensures r == ProductRow(c, payload, id, wasActive)
  {
    if payload.category !in c.categories {
      return Err(CategoryNotFound);
    }
    var categoryName := c.categories[payload.category].name;
    if !IsProductCategory(categoryName) {
      return Err(ProductInvalidCategory);
    }
    if payload.brand !in c.brands {
      return Err(BrandNotFound);
    }
    if c.brands[payload.brand].category != payload.category {
      return Err(ProductInvalidBrand);
    }
    var sku := Trim(payload.sku);
    if SkuTaken(c, sku, id) {
      return Err(SkuExists);
    }
    var name := Trim(payload.name);
    var slug, checks := UniqueSlug(TakenSlugs(c, id), name);
    var attributes := SanitizeAttributes(categoryName, payload.attributes);
    if attributes.Err? {
      return Err(BadAttribute(attributes.error));
    }
    return Ok(Product(name, slug, sku, payload.category, payload.brand, payload.price, payload.stockQty,
                      if payload.isActive.Some? then payload.isActive.value else wasActive, attributes.value));
  }

  class Store {
    var categories: map<Id, Category>
    var brands: map<Id, Brand>
    var products: map<Id, Product>
    var nextId: Id

    constructor (c: Catalogue)
      ensures Contents() == c
    {
      categories, brands, products, nextId := c.categories, c.brands, c.products, c.nextId;
    }

    ghost function Contents(): Catalogue
      reads this
    {
      Catalogue(categories, brands, products, nextId)
    }

    function Snapshot(): (c: Catalogue)
      reads this
      ensures c == Contents()
    {
      Catalogue(categories, brands, products, nextId)
    }

    // ----- Categories ------------------------------------------------------------

    method AddCategory(raw: string) returns (r: Result<Id, Error>)
      modifies this
      ensures AddedCategory(old(Contents()), raw) == if r.Ok? then Ok(Contents()) else Err(r.error)
      ensures r.Err? ==> Contents() == old(Contents())
      ensures r.Ok? ==> r.value == old(nextId)
    {
      var name := Trim(raw);
      if IsLockedCategoryName(name) {
        return Err(CategoryLocked);
      }
      if NameTaken(Snapshot(), name, None) {
        return Err(CategoryExists);
      }
      categories := categories[nextId := Category(name)];
      nextId := nextId + 1;
      return Ok(nextId - 1);
    }

    method ChangeCategory(id: Id, raw: string) returns (r: Result<Category, Error>)
      modifies this
      ensures RenamedCategory(old(Contents()), id, raw) == if r.Ok? then Ok(Contents()) else Err(r.error)
      ensures r.Err? ==> Contents() == old(Contents())
    {
      var name := Trim(raw);
      if id !in categories {
        return Err(CategoryNotFound);
      }
      if IsLockedCategoryName(categories[id].name) {
        return Err(CategoryLocked);
      }
      if IsLockedCategoryName(name) {
        return Err(CategoryLocked);
      }
      if NameTaken(Snapshot(), name, Some(id)) {
        return Err(CategoryExists);
      }
      categories := categories[id := categories[id].(name := name)];
      return Ok(categories[id]);
    }

    method DropCategory(id: Id) returns (r: Result<(), Error>)
      modifies this
      ensures RemovedCategory(old(Contents()), id) == if r.Ok? then Ok(Contents()) else Err(r.error)
      ensures r.Err? ==> Contents() == old(Contents())
    {
      if id !in categories {
        return Err(CategoryNotFound);
      }
      if IsLockedCategoryName(categories[id].name) {
        return Err(CategoryLocked);
      }
      var productCount := |set k | k in products && products[k].category == id|;
      var brandCount := |set k | k in brands && brands[k].category == id|;
      if productCount > 0 || brandCount > 0 {
        InUse(Snapshot(), id);
        return Err(CategoryInUse);
      }
      InUse(Snapshot(), id);
      categories := categories - {id};
      return Ok(());
    }

    // ----- Brands ----------------------------------------------------------------

    method AddBrand(category: Id, title: string) returns (r: Result<Id, Error>)
      modifies this
      ensures AddedBrand(old(Contents()), category, title) == if r.Ok? then Ok(Contents()) else Err(r.error)
      ensures r.Err? ==> Contents() == old(Contents())
      ensures r.Ok? ==> r.value == old(nextId)
    {
      if category !in categories {
        return Err(CategoryNotFound);
      }
      brands := brands[nextId := Brand(category, title)];
      nextId := nextId + 1;
      return Ok(nextId - 1);
    }

    method ChangeBrand(id: Id, category: Id, title: string) returns (r: Result<Brand, Error>)
      modifies this
      ensures UpdatedBrand(old(Contents()), id, category, title) == if r.Ok? then Ok(Contents()) else Err(r.error)
      ensures r.Err? ==> Contents() == old(Contents())
    {
      if id !in brands {
        return Err(BrandNotFound);
      }
      if category !in categories {
        return Err(CategoryNotFound);
      }
      var brand := brands[id];
      brand := brand.(category := category);
      brand := brand.(title := title);
      brands := brands[id := brand];
      return Ok(brand);
    }

    method DropBrand(id: Id) returns (r: Result<(), Error>)
      modifies this
      ensures DeletedBrand(old(Contents()), id) == if r.Ok? then Ok(Contents()) else Err(r.error)
      ensures r.Err? ==> Contents() == old(Contents())
    {
      if id !in brands {
        return Err(BrandNotFound);
      }
      var users := set k | k in products && products[k].brand == id;
      if |users| > 0 {
        assert exists k :: k in users;
        return Err(BrandInUse);
      }
      assert forall k :: k in products && products[k].brand == id ==> k in users;
      brands := brands - {id};
      return Ok(());
    }

    // ----- Products --------------------------------------------------------------

    method Insert(row: Result<Product, Error>) returns (r: Result<Id, Error>)
      modifies this
      ensures match row
              case Ok(p) => r == Ok(old(nextId)) && Contents() == PutProduct(old(Contents()), old(nextId), p, old(nextId) + 1)
              case Err(e) => r == Err(e) && Contents() == old(Contents())
    {
      if row.Err? {
        return Err(row.error);
      }
      r := Ok(nextId);
      products := products[nextId := row.value];
      nextId := nextId + 1;
    }

    method AddProduct(payload: ProductPayload) returns (r: Result<Id, Error>)
      modifies this
      ensures AddedProduct(old(Contents()), payload) == if r.Ok? then Ok(Contents()) else Err(r.error)
      ensures if r.Ok? then r.value == old(nextId) else Contents() == old(Contents())
    {
      hide ProductRow;
      var c := Snapshot();
      var row := BuildRow(c, payload, None, true);
      r := Insert(row);
    }

    method ChangeProduct(id: Id, payload: ProductPayload) returns (r: Result<Product, Error>)
      modifies this
      ensures UpdatedProduct(old(Contents()), id, payload) == if r.Ok? then Ok(Contents()) else Err(r.error)
      ensures r.Err? ==> Contents() == old(Contents())
    {
      if id !in products {
        return Err(ProductNotFound);
      }
      var c := Snapshot();
      var row := BuildRow(c, payload, Some(id), products[id].isActive);
      if row.Err? {
        return Err(row.error);
      }
      products := products[id := row.value];
      return Ok(row.value);
    }

    method DropProduct(id: Id) returns (r: Result<(), Error>)
      modifies this
      ensures DeletedProduct(old(Contents()), id) == if r.Ok? then Ok(Contents()) else Err(r.error)
      ensures r.Err? ==> Contents() == old(Contents())
    {
      if id !in products {
        return Err(ProductNotFound);
      }
      products := products - {id};
      return Ok(());
    }
  }

  lemma InUse(c: Catalogue, id: Id)
    ensures CategoryUsed(c, id)
            <==> |set k | k in c.products && c.products[k].category == id| > 0
                 || |set k | k in c.brands && c.brands[k].category == id| > 0
  {
    var ps := set k | k in c.products && c.products[k].category == id;
    var bs := set k | k in c.brands && c.brands[k].category == id;
    if |ps| > 0 {
      assert exists k :: k in ps;
    } else {
      assert forall k :: k in c.products && c.products[k].category == id ==> k in ps;
    }
    if |bs| > 0 {
      assert exists k :: k in bs;
    } else {
      assert forall k :: k in c.brands && c.brands[k].category == id ==> k in bs;
    }
  }
}
