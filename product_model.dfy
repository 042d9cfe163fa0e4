/**
 * The stored product document (models/Product.ts): its fields, the constraints the schema puts on
 * them, the `trim` setters and the defaults, and the uniqueness of `sku` across a catalog.
 * Money and quantities are exact reals.
 */
module ProductModel {
  import opened Wrappers
  import opened Text

  /** A stored product: `IProduct` without its database id and timestamps. */
  datatype Product = Product(
    name: string,
    description: string,
    price: real,
    compareAtPrice: Option<real>,
    cost: real,
    sku: string,
    category: string,
    tags: seq<string>,
    stockQuantity: real,
    lowStockThreshold: real,
    images: seq<string>,
    isActive: bool,
    sales: real)

  const MaxNameLength: nat := 200
  const DefaultStockQuantity: real := 0.0
  const DefaultLowStockThreshold: real := 10.0
  const DefaultSales: real := 0.0

  /** Every constraint of the schema holds of a document as stored (after its setters ran). */
  predicate Valid(p: Product) {
    && IsTrimmed(p.name) && 1 <= |p.name| <= MaxNameLength
    && IsTrimmed(p.description) && |p.description| >= 1
    && p.price >= 0.0
    && (p.compareAtPrice.Some? ==> p.compareAtPrice.value >= 0.0)
    && p.cost >= 0.0
    && IsTrimmed(p.sku) && |p.sku| >= 1
    && IsTrimmed(p.category) && |p.category| >= 1
    && p.stockQuantity >= 0.0
    && p.lowStockThreshold >= 0.0
    && p.sales >= 0.0
  }

  /** A document as handed to `Product.create`: a field left out is `None`. */
  datatype ProductInput = ProductInput(
    name: Option<string>,
    description: Option<string>,
    price: Option<real>,
    compareAtPrice: Option<real>,
    cost: Option<real>,
    sku: Option<string>,
    category: Option<string>,
    tags: Option<seq<string>>,
    stockQuantity: Option<real>,
    lowStockThreshold: Option<real>,
    images: Option<seq<string>>,
    isActive: Option<bool>,
    sales: Option<real>)

  /** A string field declared `required` and `trim`: present, and not empty once trimmed. */
  predicate RequiredText(s: Option<string>) {
    s.Some? && !AllSpace(s.value)
  }

  /** A number field with `min: 0`: absent, or not negative. */
  predicate AbsentOrNonNegative(x: Option<real>) {
    x.None? || x.value >= 0.0
  }

  /** The stored form of a document whose required fields are present: setters and defaults applied. */
  function Stored(i: ProductInput): Product
    requires i.name.Some? && i.description.Some? && i.price.Some? && i.cost.Some?
    requires i.sku.Some? && i.category.Some?
  {
    Product(
      Trim(i.name.value), Trim(i.description.value), i.price.value, i.compareAtPrice, i.cost.value,
      Trim(i.sku.value), Trim(i.category.value), i.tags.GetOr([]),
      i.stockQuantity.GetOr(DefaultStockQuantity), i.lowStockThreshold.GetOr(DefaultLowStockThreshold),
      i.images.GetOr([]), i.isActive.GetOr(true), i.sales.GetOr(DefaultSales))
  }

  /**
   * `Product.create`: the stored product, or `None` when validation fails. The first ensures is
   * the schema's rule field by field on the raw input; the rest give the stored fields: the given value, or the default when the field is left out.
   */
  function Create(i: ProductInput): (r: Option<Product>)
    ensures r.Some? <==>
      && RequiredText(i.name) && |Trim(i.name.value)| <= MaxNameLength
      && RequiredText(i.description)
      && i.price.Some? && i.price.value >= 0.0
      && AbsentOrNonNegative(i.compareAtPrice)
      && i.cost.Some? && i.cost.value >= 0.0
      && RequiredText(i.sku)
      && RequiredText(i.category)
      && AbsentOrNonNegative(i.stockQuantity)
      && AbsentOrNonNegative(i.lowStockThreshold)
      && AbsentOrNonNegative(i.sales)
    ensures r.Some? ==> Valid(r.value)
    ensures r.Some? ==>
      && r.value.name == Trim(i.name.value) && r.value.description == Trim(i.description.value)
      && r.value.sku == Trim(i.sku.value) && r.value.category == Trim(i.category.value)
      && r.value.price == i.price.value && r.value.cost == i.cost.value
      && r.value.compareAtPrice == i.compareAtPrice
    ensures r.Some? ==>
      && r.value.stockQuantity == i.stockQuantity.GetOr(0.0)
      && r.value.lowStockThreshold == i.lowStockThreshold.GetOr(10.0)
      && r.value.tags == i.tags.GetOr([])
      && r.value.images == i.images.GetOr([])
      && r.value.isActive == i.isActive.GetOr(true)
      && r.value.sales == i.sales.GetOr(0.0)
  {
    if i.name.Some? && i.description.Some? && i.price.Some? && i.cost.Some?
       && i.sku.Some? && i.category.Some?
    then
      StoredValid(i);
      if Valid(Stored(i)) then Some(Stored(i)) else None
    else None
  }

  /** Once the required fields are present, the stored form is valid exactly when the schema's rules hold of the raw input. */
  lemma StoredValid(i: ProductInput)
    requires i.name.Some? && i.description.Some? && i.price.Some? && i.cost.Some?
    requires i.sku.Some? && i.category.Some?
    ensures Valid(Stored(i)) <==>
      && !AllSpace(i.name.value) && |Trim(i.name.value)| <= MaxNameLength
      && !AllSpace(i.description.value)
      && i.price.value >= 0.0
      && AbsentOrNonNegative(i.compareAtPrice)
      && i.cost.value >= 0.0
      && !AllSpace(i.sku.value)
      && !AllSpace(i.category.value)
      && AbsentOrNonNegative(i.stockQuantity)
      && AbsentOrNonNegative(i.lowStockThreshold)
      && AbsentOrNonNegative(i.sales)
  {
    var p := Stored(i);
    assert p.name == Trim(i.name.value) && p.description == Trim(i.description.value);
    assert p.sku == Trim(i.sku.value) && p.category == Trim(i.category.value);
  }

  /** A document meeting every rule is stored. */
  lemma CreateAccepts(i: ProductInput)
    requires RequiredText(i.name) && |Trim(i.name.value)| <= MaxNameLength
    requires RequiredText(i.description) && RequiredText(i.sku) && RequiredText(i.category)
    requires i.price.Some? && i.price.value >= 0.0 && i.cost.Some? && i.cost.value >= 0.0
    requires AbsentOrNonNegative(i.compareAtPrice) && AbsentOrNonNegative(i.stockQuantity)
    requires AbsentOrNonNegative(i.lowStockThreshold) && AbsentOrNonNegative(i.sales)
    ensures Create(i).Some?
  {
  }

  /** The document `p` as it would be handed back to `Product.create` (every field present). */
  function AsInput(p: Product): ProductInput {
    ProductInput(
      Some(p.name), Some(p.description), Some(p.price), p.compareAtPrice, Some(p.cost),
      Some(p.sku), Some(p.category), Some(p.tags), Some(p.stockQuantity),
      Some(p.lowStockThreshold), Some(p.images), Some(p.isActive), Some(p.sales))
  }

  /** Saving a stored product again gives back the same product: setters and defaults are idempotent. */
  lemma {:induction false} ResaveIsIdentity(p: Product)
    requires Valid(p)
    ensures Create(AsInput(p)) == Some(p)
  {
    TrimOfTrimmed(p.name);
    TrimOfTrimmed(p.description);
    TrimOfTrimmed(p.sku);
    TrimOfTrimmed(p.category);
  }

  /** A catalog: every product valid, and `sku` unique (the schema's `unique` index). */
  predicate ValidCatalog(ps: seq<Product>) {
    && (forall i :: 0 <= i < |ps| ==> Valid(ps[i]))
    && (forall i, j :: 0 <= i < j < |ps| ==> ps[i].sku != ps[j].sku)
  }

  /** The skus in use. */
  function Skus(ps: seq<Product>): (r: set<string>)
    ensures forall i :: 0 <= i < |ps| ==> ps[i].sku in r
    ensures forall s :: s in r ==> exists i :: 0 <= i < |ps| && ps[i].sku == s
  {
    set i | 0 <= i < |ps| :: ps[i].sku
  }

  /** A valid product joins a catalog, keeping it a catalog, exactly when its sku is not taken. */
  lemma InsertIntoCatalog(ps: seq<Product>, p: Product)
    requires ValidCatalog(ps) && Valid(p)
    ensures ValidCatalog(ps + [p]) <==> p.sku !in Skus(ps)
  {
    var qs := ps + [p];
    if p.sku in Skus(ps) {
      var i :| 0 <= i < |ps| && ps[i].sku == p.sku;
      assert qs[i].sku == qs[|ps|].sku;
    }
  }
}
