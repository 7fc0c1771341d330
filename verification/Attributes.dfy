/** The attribute schema of the four locked categories, the check that a product
    fits it, and the facet counts shown beside a product list. */
module Attributes {
  import opened Common
  import opened Slugs

  datatype Field = Field(key: string, caption: string, options: seq<string>)

  /** `NotIterable` is the TypeError of a loop over something that is no array. */
  datatype AttributeError = Required(caption: string) | Invalid(caption: string) | NotIterable

  const LOCKED_CATEGORY_NAMES := ["Cigarettes", "Cigars", "RYO", "Accessories"]
  const EXCLUDED_PRODUCT_CATEGORY := "Brands"

  function Normalize(name: string): string {
    Lower(Trim(name))
  }

  /** `getAttributeFields(name) || []`, as far as the schema object itself goes. */
  function FieldsOf(categoryName: string): seq<Field> {
    Schema(Normalize(categoryName))
  }

  const CIGARETTES := [
    Field("strength", "Strength", ["Ultra Light", "Light", "Medium", "Full Strength"]),
    Field("cigaretteSize", "Cigarette Size", ["King Size", "Super King Size", "Slims"])]

  const CIGARS := [
    Field("vitola", "Size / Vitola", ["Robusto", "Churchill", "Toro", "Corona", "Panetela"]),
    Field("origin", "Origin", ["Cuba", "Nicaragua", "Dominican Republic", "Honduras"]),
    Field("wrapperColor", "Wrapper Colour", ["Natural", "Claro", "Colorado", "Maduro"])]

  const RYO := [
    Field("leafOrigin", "Leaf Origin", ["Virginia", "Burley", "Oriental", "Latakia"]),
    Field("strength", "Strength", ["Medium", "Extra Strong"])]

  const ACCESSORIES := [
    Field("accessoryType", "Category",
          ["Lighters", "Cutters & Guillotines", "Cigar Cases", "Humidors", "Ashtrays", "Pipes", "Gift Sets"]),
    Field("material", "Material", ["Gold Plated", "Sterling Silver", "Leather", "Walnut Wood", "Stainless Steel"])]

  const SCHEMA_SLUGS := ["cigarettes", "cigars", "ryo", "accessories"]

  function Schema(slug: string): seq<Field> {
    if slug == SCHEMA_SLUGS[0] then CIGARETTES
    else if slug == SCHEMA_SLUGS[1] then CIGARS
    else if slug == SCHEMA_SLUGS[2] then RYO
    else if slug == SCHEMA_SLUGS[3] then ACCESSORIES
    else []
  }

  /** `constructor`: the lookup finds the function that every object inherits. It has
      a length, and no iterator. */
  predicate FindsConstructor(name: string) {
    Normalize(name) == "constructor"
  }

  /** Either name for which the lookup finds something inherited that cannot be
      looped over; the prototype itself has no length. */
  predicate FindsInherited(name: string) {
    FindsConstructor(name) || Normalize(name) == "__proto__"
  }

  predicate IsLockedCategoryName(name: string) {
    name != "" && exists i :: 0 <= i < |LOCKED_CATEGORY_NAMES| && Normalize(LOCKED_CATEGORY_NAMES[i]) == Normalize(name)
  }

  predicate IsProductCategory(name: string) {
    Normalize(name) != Normalize(EXCLUDED_PRODUCT_CATEGORY)
  }

  /** Keys and options are listed once each, and no option is empty. */
  predicate WellFormedFields(fields: seq<Field>) {
    && (forall i, j :: 0 <= i < j < |fields| ==> fields[i].key != fields[j].key)
    && (forall i :: 0 <= i < |fields| ==> Distinct(fields[i].options) && "" !in fields[i].options)
  }

  predicate Distinct(options: seq<string>) {
    forall i, j :: 0 <= i < j < |options| ==> options[i] != options[j]
  }

  /** The first and third letter tell the options of one field apart. */
  lemma DistinctByLetters(options: seq<string>, letters: seq<(char, char)>)
    requires |letters| == |options|
    requires forall i :: 0 <= i < |options| ==> |options[i]| >= 3 && (options[i][0], options[i][2]) == letters[i]
    requires forall i, j :: 0 <= i < j < |letters| ==> letters[i] != letters[j]
    ensures Distinct(options) && "" !in options
  {
    forall i, j | 0 <= i < j < |options| ensures options[i] != options[j] {
      assert letters[i] != letters[j];
    }
  }

  lemma CigarettesStrengthOptions()
    ensures Distinct(CIGARETTES[0].options) && "" !in CIGARETTES[0].options
  {
    DistinctByLetters(CIGARETTES[0].options, [('U', 't'), ('L', 'g'), ('M', 'd'), ('F', 'l')]);
  }

  lemma CigarettesCigaretteSizeOptions()
    ensures Distinct(CIGARETTES[1].options) && "" !in CIGARETTES[1].options
  {
    DistinctByLetters(CIGARETTES[1].options, [('K', 'n'), ('S', 'p'), ('S', 'i')]);
  }

  lemma CigarettesWellFormed()
    ensures WellFormedFields(CIGARETTES)
  {
    hide Distinct;
    CigarettesStrengthOptions();
    CigarettesCigaretteSizeOptions();
    assert |CIGARETTES[0].key| == 8 && |CIGARETTES[1].key| == 13;
  }

  lemma CigarsVitolaOptions()
    ensures Distinct(CIGARS[0].options) && "" !in CIGARS[0].options
  {
    DistinctByLetters(CIGARS[0].options, [('R', 'b'), ('C', 'u'), ('T', 'r'), ('C', 'r'), ('P', 'n')]);
  }

  lemma CigarsOriginOptions()
    ensures Distinct(CIGARS[1].options) && "" !in CIGARS[1].options
  {
    DistinctByLetters(CIGARS[1].options, [('C', 'b'), ('N', 'c'), ('D', 'm'), ('H', 'n')]);
  }

  lemma CigarsWrapperColorOptions()
    ensures Distinct(CIGARS[2].options) && "" !in CIGARS[2].options
  {
    DistinctByLetters(CIGARS[2].options, [('N', 't'), ('C', 'a'), ('C', 'l'), ('M', 'd')]);
  }

  lemma CigarsWellFormed()
    ensures WellFormedFields(CIGARS)
  {
    hide Distinct;
    CigarsVitolaOptions();
    CigarsOriginOptions();
    CigarsWrapperColorOptions();
    assert |CIGARS[0].key| == 6 && |CIGARS[1].key| == 6 && |CIGARS[2].key| == 12;
  }

  lemma RyoLeafOriginOptions()
    ensures Distinct(RYO[0].options) && "" !in RYO[0].options
  {
    DistinctByLetters(RYO[0].options, [('V', 'r'), ('B', 'r'), ('O', 'i'), ('L', 't')]);
  }

  lemma RyoStrengthOptions()
    ensures Distinct(RYO[1].options) && "" !in RYO[1].options
  {
    DistinctByLetters(RYO[1].options, [('M', 'd'), ('E', 't')]);
  }

  lemma RyoWellFormed()
    ensures WellFormedFields(RYO)
  {
    hide Distinct;
    RyoLeafOriginOptions();
    RyoStrengthOptions();
    assert |RYO[0].key| == 10 && |RYO[1].key| == 8;
  }

  lemma AccessoriesAccessoryTypeOptions()
    ensures Distinct(ACCESSORIES[0].options) && "" !in ACCESSORIES[0].options
  {
    DistinctByLetters(ACCESSORIES[0].options, [('L', 'g'), ('C', 't'), ('C', 'g'), ('H', 'm'), ('A', 'h'), ('P', 'p'), ('G', 'f')]);
  }

  lemma AccessoriesMaterialOptions()
    ensures Distinct(ACCESSORIES[1].options) && "" !in ACCESSORIES[1].options
  {
    DistinctByLetters(ACCESSORIES[1].options, [('G', 'l'), ('S', 'e'), ('L', 'a'), ('W', 'l'), ('S', 'a')]);
  }

  lemma AccessoriesWellFormed()
    ensures WellFormedFields(ACCESSORIES)
  {
    hide Distinct;
    AccessoriesAccessoryTypeOptions();
    AccessoriesMaterialOptions();
    assert |ACCESSORIES[0].key| == 13 && |ACCESSORIES[1].key| == 8;
  }

  lemma SchemaWellFormed(slug: string)
    ensures WellFormedFields(Schema(slug))
  {
    hide WellFormedFields;
    CigarettesWellFormed();
    CigarsWellFormed();
    RyoWellFormed();
    AccessoriesWellFormed();
    NoFieldsWellFormed();
  }

  lemma NoFieldsWellFormed()
    ensures WellFormedFields([])
  {
  }

  lemma {:induction false} NormalizeIs(name: string, slug: string)
    requires name != "" && !IsSpace(name[0]) && !IsSpace(name[|name| - 1])
    requires |name| == |slug| && forall i :: 0 <= i < |name| ==> LowerChar(name[i]) == slug[i]
    ensures Normalize(name) == slug
  {
    LowerPointwise(name, slug);
  }

  lemma {:induction false} LowerPointwise(s: string, t: string)
    requires |s| == |t| && forall i :: 0 <= i < |s| ==> LowerChar(s[i]) == t[i]
    ensures Lower(s) == t
  {
    if s != "" {
      LowerPointwise(s[1..], t[1..]);
    }
  }

  lemma {:induction false} LockedNamesAreSlugs(i: nat)
    requires i < |LOCKED_CATEGORY_NAMES|
    ensures |LOCKED_CATEGORY_NAMES| == |SCHEMA_SLUGS|
    ensures Normalize(LOCKED_CATEGORY_NAMES[i]) == SCHEMA_SLUGS[i]
  {
    NormalizeIs(LOCKED_CATEGORY_NAMES[i], SCHEMA_SLUGS[i]);
  }

  lemma SchemaExists(slug: string)
    ensures Schema(slug) != [] <==> exists i :: 0 <= i < |SCHEMA_SLUGS| && slug == SCHEMA_SLUGS[i]
  {
  }

  lemma SlugsNotEmpty(i: nat)
    requires i < |SCHEMA_SLUGS|
    ensures SCHEMA_SLUGS[i] != ""
  {
  }

  /** A category has an attribute schema exactly when its name is locked: the two
      tables, kept in different modules, list the same names. */
  lemma {:induction false} SchemaIffLocked(name: string)
    ensures FieldsOf(name) != [] <==> IsLockedCategoryName(name)
  {
    var slug := Normalize(name);
    SchemaExists(slug);
    if Schema(slug) != [] {
      var i :| 0 <= i < |SCHEMA_SLUGS| && slug == SCHEMA_SLUGS[i];
      LockedNamesAreSlugs(i);
      SlugsNotEmpty(i);
      assert Normalize(LOCKED_CATEGORY_NAMES[i]) == Normalize(name);
    }
    if IsLockedCategoryName(name) {
      var i :| 0 <= i < |LOCKED_CATEGORY_NAMES| && Normalize(LOCKED_CATEGORY_NAMES[i]) == Normalize(name);
      LockedNamesAreSlugs(i);
    }
  }

  /** The four locked names, whatever their case and surrounding white space. */
  lemma {:induction false} LockedNames(name: string)
    ensures IsLockedCategoryName(name) <==> Normalize(name) in ["cigarettes", "cigars", "ryo", "accessories"]
  {
    SchemaIffLocked(name);
    SchemaExists(Normalize(name));
    hide Normalize, Schema, IsLockedCategoryName;
  }

  // ----- sanitizeAttributes ----------------------------------------------------------

  function Given(attributes: map<string, string>, key: string): string {
    Trim(if key in attributes then attributes[key] else "")
  }

  /** The first n fields, checked in order. */
  function SanitizeUpTo(fields: seq<Field>, attributes: map<string, string>, n: nat): Result<map<string, string>, AttributeError>
    requires n <= |fields|
  {
    if n == 0 then Ok(map[])
    else match SanitizeUpTo(fields, attributes, n - 1)
         case Err(e) => Err(e)
         case Ok(cleaned) =>
           var f := fields[n - 1];
           var value := Given(attributes, f.key);
           if value == "" then Err(Required(f.caption))
           else if value !in f.options then Err(Invalid(f.caption))
           else Ok(cleaned[f.key := value])
  }

  function Sanitize(categoryName: string, attributes: map<string, string>): Result<map<string, string>, AttributeError> {
    var fields := FieldsOf(categoryName);
    if FindsConstructor(categoryName) then Err(NotIterable) else SanitizeUpTo(fields, attributes, |fields|)
  }

  method SanitizeAttributes(categoryName: string, attributes: map<string, string>)
    returns (r: Result<map<string, string>, AttributeError>)
    ensures r == Sanitize(categoryName, attributes)
  {
    if FindsConstructor(categoryName) {
      return Err(NotIterable);
    }
    var fields := FieldsOf(categoryName);
    if |fields| == 0 {
      return Ok(map[]);
    }
    var cleaned: map<string, string> := map[];
    for i := 0 to |fields|
      invariant SanitizeUpTo(fields, attributes, i) == Ok(cleaned)
    {
      var field := fields[i];
      var value := Given(attributes, field.key);
      if value == "" || value !in field.options {
        FailureStays(fields, attributes, i + 1, |fields|);
        return Err(if value == "" then Required(field.caption) else Invalid(field.caption));
      }
      cleaned := cleaned[field.key := value];
    }
    return Ok(cleaned);
  }

  lemma {:induction false} FailureStays(fields: seq<Field>, attributes: map<string, string>, n: nat, m: nat)
    requires n <= m <= |fields| && SanitizeUpTo(fields, attributes, n).Err?
    ensures SanitizeUpTo(fields, attributes, m) == SanitizeUpTo(fields, attributes, n)
  {
    if n < m {
      FailureStays(fields, attributes, n, m - 1);
    }
  }

  /** Every field of the schema is present with one of its options. */
  predicate Fits(fields: seq<Field>, attributes: map<string, string>) {
    forall i :: 0 <= i < |fields| ==> fields[i].key in attributes && attributes[fields[i].key] in fields[i].options
  }

  predicate AllGiven(fields: seq<Field>, attributes: map<string, string>) {
    forall i :: 0 <= i < |fields| ==> Given(attributes, fields[i].key) in fields[i].options
  }

  lemma {:induction false} OneMoreGiven(fields: seq<Field>, attributes: map<string, string>, n: nat)
    requires 0 < n <= |fields|
    ensures AllGiven(fields[..n], attributes)
            <==> AllGiven(fields[..n - 1], attributes) && Given(attributes, fields[n - 1].key) in fields[n - 1].options
  {
    assert fields[..n] == fields[..n - 1] + [fields[n - 1]];
  }

  lemma {:induction false} SanitizeSucceedsIff(fields: seq<Field>, attributes: map<string, string>, n: nat)
    requires n <= |fields| && WellFormedFields(fields)
    ensures SanitizeUpTo(fields, attributes, n).Ok? <==> AllGiven(fields[..n], attributes)
  {
    if n > 0 {
      SanitizeSucceedsIff(fields, attributes, n - 1);
      OneMoreGiven(fields, attributes, n);
      hide AllGiven;
    }
  }

  lemma {:induction false} SanitizeKeeps(fields: seq<Field>, attributes: map<string, string>, n: nat)
    requires n <= |fields| && SanitizeUpTo(fields, attributes, n).Ok?
    ensures var cleaned := SanitizeUpTo(fields, attributes, n).value;
            && cleaned.Keys == (set i | 0 <= i < n :: fields[i].key)
            && (forall k :: k in cleaned ==> cleaned[k] == Given(attributes, k))
  {
    if n > 0 {
      SanitizeKeeps(fields, attributes, n - 1);
      assert (set i | 0 <= i < n :: fields[i].key) == (set i | 0 <= i < n - 1 :: fields[i].key) + {fields[n - 1].key};
    }
  }

  /** It succeeds if and only if the category is not called `constructor` and every
      field is given one of its options, and then keeps exactly the schema's keys
      with the trimmed values. */
  lemma {:induction false} SanitizeMeaning(categoryName: string, attributes: map<string, string>)
    ensures var fields := FieldsOf(categoryName);
            var r := Sanitize(categoryName, attributes);
            && (r.Ok? <==> !FindsConstructor(categoryName) && AllGiven(fields, attributes))
            && (r.Ok? ==> Fits(fields, r.value)
                          && r.value.Keys == (set i | 0 <= i < |fields| :: fields[i].key)
                          && forall k :: k in r.value ==> r.value[k] == Given(attributes, k))
  {
    var fields := FieldsOf(categoryName);
    SchemaWellFormed(Normalize(categoryName));
    SanitizeSucceedsIff(fields, attributes, |fields|);
    assert fields[..|fields|] == fields;
    if Sanitize(categoryName, attributes).Ok? {
      SanitizeKeeps(fields, attributes, |fields|);
    }
  }

  // ----- Facet counts ------------------------------------------------------------------

  datatype FacetRow = FacetRow(caption: string, count: nat)

  /** The products of a category as `find(...).select('brand attributes')` gives them. */
  datatype Item = Item(brand: nat, attributes: map<string, string>)

  function CountValue(items: seq<Item>, key: string, value: string): nat {
    if items == [] then 0
    else CountValue(items[..|items| - 1], key, value)
         + (if key in items[|items| - 1].attributes && items[|items| - 1].attributes[key] == value then 1 else 0)
  }

  function CountBrand(items: seq<Item>, brand: nat): nat {
    if items == [] then 0
    else CountBrand(items[..|items| - 1], brand) + (if items[|items| - 1].brand == brand then 1 else 0)
  }

  function FieldRows(items: seq<Item>, field: Field): seq<FacetRow> {
    seq(|field.options|, i requires 0 <= i < |field.options| =>
      FacetRow(field.options[i], CountValue(items, field.key, field.options[i])))
  }

  function SumCounts(rows: seq<FacetRow>): nat {
    if rows == [] then 0 else rows[0].count + SumCounts(rows[1..])
  }

  /** One field's counters: start at zero for each option, add one per product. */
  method CountField(items: seq<Item>, field: Field) returns (rows: seq<FacetRow>)
    requires "" !in field.options
    ensures rows == FieldRows(items, field)
  {
    var counts: map<string, nat> := map option | option in field.options :: 0;
    for i := 0 to |items|
      invariant counts.Keys == set option | option in field.options
      invariant forall option :: option in counts ==> counts[option] == CountValue(items[..i], field.key, option)
    {
      assert items[..i + 1][..i] == items[..i];
      if field.key in items[i].attributes {
        var value := items[i].attributes[field.key];
        if value != "" && value in counts {
          counts := counts[value := counts[value] + 1];
        }
      }
    }
    assert items[..|items|] == items;
    rows := seq(|field.options|, i requires 0 <= i < |field.options| =>
      FacetRow(field.options[i], if field.options[i] in counts then counts[field.options[i]] else 0));
  }

  method CountBrands(items: seq<Item>, brands: seq<(nat, string)>) returns (rows: seq<FacetRow>)
    ensures rows == BrandRows(items, brands)
  {
    var brandCounts: map<nat, nat> := map[];
    for i := 0 to |items|
      invariant forall b :: CountBrand(items[..i], b) == if b in brandCounts then brandCounts[b] else 0
    {
      assert items[..i + 1][..i] == items[..i];
      var key := items[i].brand;
      brandCounts := brandCounts[key := (if key in brandCounts then brandCounts[key] else 0) + 1];
    }
    assert items[..|items|] == items;
    rows := seq(|brands|, i requires 0 <= i < |brands| =>
      FacetRow(brands[i].1, if brands[i].0 in brandCounts then brandCounts[brands[i].0] else 0));
  }

  function BrandRows(items: seq<Item>, brands: seq<(nat, string)>): seq<FacetRow> {
    seq(|brands|, i requires 0 <= i < |brands| => FacetRow(brands[i].1, CountBrand(items, brands[i].0)))
  }

  lemma {:induction false} OneOptionEach(options: seq<string>, items: seq<Item>, key: string)
    requires items != [] && Distinct(options)
    ensures var last := items[|items| - 1];
            SumCounts(FieldRows(items, Field(key, "", options)))
            == SumCounts(FieldRows(items[..|items| - 1], Field(key, "", options)))
               + (if key in last.attributes && last.attributes[key] in options then 1 else 0)
  {
    var f := Field(key, "", options);
    if options != [] {
      OneOptionEach(options[1..], items, key);
      var g := Field(key, "", options[1..]);
      assert options == [options[0]] + options[1..];
      assert FieldRows(items, f)[1..] == FieldRows(items, g);
      assert FieldRows(items[..|items| - 1], f)[1..] == FieldRows(items[..|items| - 1], g);
    }
  }

  /** When every product carries one of the field's options, the option counts
      add up to the number of products. */
  lemma {:induction false} CountsAddUp(items: seq<Item>, key: string, caption: string, options: seq<string>)
    requires Distinct(options)
    requires forall i :: 0 <= i < |items| ==> key in items[i].attributes && items[i].attributes[key] in options
    ensures SumCounts(FieldRows(items, Field(key, caption, options))) == |items|
  {
    var f := Field(key, "", options);
    assert FieldRows(items, Field(key, caption, options)) == FieldRows(items, f);
    if items == [] {
      NoItemsNoCounts(key, options);
    } else {
      OneOptionEach(options, items, key);
      CountsAddUp(items[..|items| - 1], key, "", options);
    }
  }

  lemma {:induction false} NoItemsNoCounts(key: string, options: seq<string>)
    ensures SumCounts(FieldRows([], Field(key, "", options))) == 0
  {
    if options != [] {
      NoItemsNoCounts(key, options[1..]);
      assert FieldRows([], Field(key, "", options))[1..] == FieldRows([], Field(key, "", options[1..]));
    }
  }

  // ----- Brand counts ------------------------------------------------------------------------

  predicate IsListed(brands: seq<(nat, string)>, brand: nat) {
    exists i :: 0 <= i < |brands| && brands[i].0 == brand
  }

  predicate ListedOnce(brands: seq<(nat, string)>) {
    forall i, j :: 0 <= i < j < |brands| ==> brands[i].0 != brands[j].0
  }

  lemma {:induction false} AppendListed(brands: seq<(nat, string)>, one: (nat, string))
    requires ListedOnce(brands) && !IsListed(brands, one.0)
    ensures ListedOnce(brands + [one])
    ensures forall b :: IsListed(brands + [one], b) <==> IsListed(brands, b) || b == one.0
  {
    var after := brands + [one];
    forall b | IsListed(brands, b) ensures IsListed(after, b) {
      var i :| 0 <= i < |brands| && brands[i].0 == b;
      assert after[i].0 == b;
    }
    assert after[|brands|].0 == one.0;
  }

  /** How many items carry a brand that is listed. */
  function ListedCount(items: seq<Item>, brands: seq<(nat, string)>): nat {
    if items == [] then 0
    else ListedCount(items[..|items| - 1], brands) + (if IsListed(brands, items[|items| - 1].brand) then 1 else 0)
  }

  lemma {:induction false} ConsListed(brands: seq<(nat, string)>, b: nat)
    requires brands != [] && ListedOnce(brands)
    ensures IsListed(brands, b) <==> brands[0].0 == b || IsListed(brands[1..], b)
    ensures IsListed(brands[1..], b) ==> brands[0].0 != b
    ensures ListedOnce(brands[1..])
  {
    assert forall i :: 0 <= i < |brands[1..]| ==> brands[1..][i] == brands[i + 1];
    if IsListed(brands, b) && brands[0].0 != b {
      var i :| 0 <= i < |brands| && brands[i].0 == b;
      assert brands[1..][i - 1].0 == b;
    }
  }

  lemma {:induction false} OneBrandEach(brands: seq<(nat, string)>, items: seq<Item>)
    requires items != [] && ListedOnce(brands)
    ensures SumCounts(BrandRows(items, brands))
            == SumCounts(BrandRows(items[..|items| - 1], brands)) + (if IsListed(brands, items[|items| - 1].brand) then 1 else 0)
  {
    if brands != [] {
      ConsListed(brands, items[|items| - 1].brand);
      OneBrandEach(brands[1..], items);
      assert BrandRows(items, brands)[1..] == BrandRows(items, brands[1..]);
      assert BrandRows(items[..|items| - 1], brands)[1..] == BrandRows(items[..|items| - 1], brands[1..]);
    }
  }

  lemma {:induction false} NoItemsNoBrands(brands: seq<(nat, string)>)
    ensures SumCounts(BrandRows([], brands)) == 0
  {
    if brands != [] {
      NoItemsNoBrands(brands[1..]);
      assert BrandRows([], brands)[1..] == BrandRows([], brands[1..]);
    }
  }

  lemma {:induction false} SumIsListed(items: seq<Item>, brands: seq<(nat, string)>)
    requires ListedOnce(brands)
    ensures SumCounts(BrandRows(items, brands)) == ListedCount(items, brands)
  {
    if items == [] {
      NoItemsNoBrands(brands);
    } else {
      SumIsListed(items[..|items| - 1], brands);
      OneBrandEach(brands, items);
    }
  }

  lemma {:induction false} AllListedIff(items: seq<Item>, brands: seq<(nat, string)>)
    ensures ListedCount(items, brands) <= |items|
    ensures ListedCount(items, brands) == |items| <==> forall i :: 0 <= i < |items| ==> IsListed(brands, items[i].brand)
  {
    if items != [] {
      AllListedIff(items[..|items| - 1], brands);
    }
  }

  /** The counts of brands listed once each add up to the items if and only if every
      item's brand is listed. */
  lemma {:induction false} BrandRowsSumIff(items: seq<Item>, brands: seq<(nat, string)>)
    requires ListedOnce(brands)
    ensures SumCounts(BrandRows(items, brands)) == |items|
            <==> forall i :: 0 <= i < |items| ==> IsListed(brands, items[i].brand)
  {
    SumIsListed(items, brands);
    AllListedIff(items, brands);
  }
}
