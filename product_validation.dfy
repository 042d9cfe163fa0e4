/**
 * The step schemas of the product form (lib/validations/product.ts). Each schema is a function from
 * the object it parses to the list of issues a ZodError would carry, in Zod's order: fields in the
 * order the schema declares them, and for each field every failing check in declaration order.
 * A parse succeeds exactly when that list is empty; it then yields the normalised data, with
 * defaults filled in and keys the schema does not declare stripped.
 */
module ProductValidation {
  import opened Wrappers
  import opened Text
  import ProductModel

  /** The form's field names: the keys of issues and of the form's error map. */
  datatype Field =
    | Name | Description | Category | Sku | Tags
    | Price | CompareAtPrice | Cost | StockQuantity | LowStockThreshold
    | Images | IsActive

  /** The wizard step whose page holds the field's input. */
  function StepOf(f: Field): (k: nat)
    ensures 1 <= k <= 3
  {
    match f
    case Name | Description | Category | Sku | Tags => 1
    case Price | CompareAtPrice | Cost | StockQuantity | LowStockThreshold => 2
    case Images | IsActive => 3
  }

  /** One issue of a ZodError: the first element of its path and its message. */
  datatype Issue = Issue(path: Field, message: string)

  /** A parse: the normalised data, or the issues found. */
  datatype Parsed<T> = Ok(value: T) | Err(issues: seq<Issue>)

  /** What `Number(raw)` yields for a coerced field: the field is absent, a number, or NaN. */
  datatype NumInput = Missing | Num(value: real) | NotNumber

  const NameRequired := "Product name is required"
  const NameTooLong := "Name too long"
  const DescriptionTooShort := "Description must be at least 10 characters"
  const CategoryRequired := "Category is required"
  const SkuRequired := "SKU is required"
  const PriceNegative := "Price must be positive"
  const ComparePriceNegative := "Compare price must be positive"
  const StockNegative := "Stock must be positive"
  const ThresholdNegative := "Threshold must be positive"
  const ImagesRequired := "At least one image is required"
  /** Zod's own messages for a coerced value that is NaN and for a number that is not an integer. */
  const NotANumber := "Expected number, received nan"
  const NotAnInteger := "Expected integer, received float"

  const MaxNameLength: nat := 200
  const MinDescriptionLength: nat := 10
  const DefaultLowStockThreshold: real := 10.0

  predicate IsInteger(x: real) {
    x == x.Floor as real
  }

  /** The messages of `issues` keyed to field `f`, in order. */
  function MessagesFor(issues: seq<Issue>, f: Field): seq<string> {
    if issues == [] then []
    else (if issues[0].path == f then [issues[0].message] else []) + MessagesFor(issues[1..], f)
  }

  lemma {:induction false} MessagesForAppend(a: seq<Issue>, b: seq<Issue>, f: Field)
    ensures MessagesFor(a + b, f) == MessagesFor(a, f) + MessagesFor(b, f)
  {
    if a == [] {
      assert a + b == b;
    } else {
      assert (a + b)[1..] == a[1..] + b;
      MessagesForAppend(a[1..], b, f);
    }
  }

  /** A field that no issue is keyed to has no messages. */
  lemma {:induction false} NoMessages(issues: seq<Issue>, f: Field)
    requires forall n :: 0 <= n < |issues| ==> issues[n].path != f
    ensures MessagesFor(issues, f) == []
  {
    if issues != [] {
      NoMessages(issues[1..], f);
    }
  }

  /** All issues of `issues` belong to fields of step `k`. */
  predicate KeyedToStep(issues: seq<Issue>, k: nat) {
    forall n :: 0 <= n < |issues| ==> StepOf(issues[n].path) == k
  }

  lemma KeyedAppend(a: seq<Issue>, b: seq<Issue>, k: nat)
    requires KeyedToStep(a, k) && KeyedToStep(b, k)
    ensures KeyedToStep(a + b, k)
  {
    forall n | 0 <= n < |a + b|
      ensures StepOf((a + b)[n].path) == k
    {
      if n >= |a| {
        assert (a + b)[n] == b[n - |a|];
      }
    }
  }

  // ---------------------------------------------------------------- step 1: productBasicSchema

  /** The object the form parses at step 1; `tags` is passed but not declared by the schema. */
  datatype BasicInput = BasicInput(name: string, description: string, category: string, tags: seq<string>, sku: string)

  /** The data `productBasicSchema` yields. */
  datatype Basic = Basic(name: string, description: string, category: string, sku: string)

  function BasicIssues(i: BasicInput): (r: seq<Issue>)
    ensures KeyedToStep(r, 1)
    ensures r == [] <==> 1 <= |i.name| <= MaxNameLength && |i.description| >= MinDescriptionLength && i.category != [] && i.sku != []
  {
    NameIssues(i.name) + OtherBasicIssues(i)
  }

  /** The two checks on `name`, in declaration order. */
  function NameIssues(name: string): (r: seq<Issue>)
    ensures KeyedToStep(r, 1)
    ensures r == [] <==> 1 <= |name| <= MaxNameLength
    ensures MessagesFor(r, Name) ==
      if |name| == 0 then [NameRequired] else if |name| > MaxNameLength then [NameTooLong] else []
  {
    var a := if |name| < 1 then [Issue(Name, NameRequired)] else [];
    var b := if |name| > MaxNameLength then [Issue(Name, NameTooLong)] else [];
    MessagesForAppend(a, b, Name);
    MessagesOfOne(|name| < 1, Name, NameRequired, Name);
    MessagesOfOne(|name| > MaxNameLength, Name, NameTooLong, Name);
    a + b
  }

  /** The checks on `description`, `category` and `sku`, in declaration order. */
  function OtherBasicIssues(i: BasicInput): (r: seq<Issue>)
    ensures KeyedToStep(r, 1)
    ensures forall n :: 0 <= n < |r| ==> r[n].path != Name
    ensures r == [] <==> |i.description| >= MinDescriptionLength && i.category != [] && i.sku != []
  {
    (if |i.description| < MinDescriptionLength then [Issue(Description, DescriptionTooShort)] else [])
    + (if |i.category| < 1 then [Issue(Category, CategoryRequired)] else [])
    + (if |i.sku| < 1 then [Issue(Sku, SkuRequired)] else [])
  }

  /** `productBasicSchema.safeParse`: accepts exactly a name of 1 to 200 characters, a description of at least 10, and a non-empty category and sku. */
  function ParseBasic(i: BasicInput): (r: Parsed<Basic>)
    ensures r.Ok? <==> 1 <= |i.name| <= MaxNameLength && |i.description| >= MinDescriptionLength && i.category != [] && i.sku != []
    ensures r.Ok? ==> r.value == Basic(i.name, i.description, i.category, i.sku)
    ensures r.Err? ==> r.issues != [] && KeyedToStep(r.issues, 1)
  {
    var issues := BasicIssues(i);
    if issues == [] then Ok(Basic(i.name, i.description, i.category, i.sku)) else Err(issues)
  }

  /** An empty name and an over-long name each report one message, keyed to `name`. */
  lemma NameMessages(i: BasicInput)
    ensures |i.name| == 0 ==> MessagesFor(BasicIssues(i), Name) == [NameRequired]
    ensures |i.name| > MaxNameLength ==> MessagesFor(BasicIssues(i), Name) == [NameTooLong]
    ensures 1 <= |i.name| <= MaxNameLength ==> MessagesFor(BasicIssues(i), Name) == []
  {
    NoMessages(OtherBasicIssues(i), Name);
    MessagesForAppend(NameIssues(i.name), OtherBasicIssues(i), Name);
  }

  /** The messages of an optional single issue. */
  lemma MessagesOfOne(present: bool, g: Field, message: string, f: Field)
    ensures MessagesFor(if present then [Issue(g, message)] else [], f) ==
      if present && g == f then [message] else []
  {
    if present {
      assert [Issue(g, message)][1..] == [];
    }
  }

  // ---------------------------------------------------------------- step 2: productPricingSchema

  /** The object the form parses at step 2; `cost` is passed but not declared by the schema. */
  datatype PricingInput = PricingInput(
    price: NumInput, compareAtPrice: NumInput, cost: NumInput,
    stockQuantity: NumInput, lowStockThreshold: NumInput)

  /** The data `productPricingSchema` yields. */
  datatype Pricing = Pricing(price: real, compareAtPrice: Option<real>, stockQuantity: real, lowStockThreshold: real)

  /** `z.coerce.number().min(0, message)`. */
  function NonNegativeIssues(f: Field, x: NumInput, message: string): (r: seq<Issue>)
    ensures forall n :: 0 <= n < |r| ==> r[n].path == f
  {
    match x
    case Num(v) => if v < 0.0 then [Issue(f, message)] else []
    case _ => [Issue(f, NotANumber)]
  }

  /** `z.coerce.number().int().min(0, message)`: both checks run, the integer check first. */
  function CountIssues(f: Field, x: NumInput, message: string): (r: seq<Issue>)
    ensures forall n :: 0 <= n < |r| ==> r[n].path == f
  {
    match x
    case Num(v) =>
      (if !IsInteger(v) then [Issue(f, NotAnInteger)] else [])
      + (if v < 0.0 then [Issue(f, message)] else [])
    case _ => [Issue(f, NotANumber)]
  }

  function PricingIssues(i: PricingInput): (r: seq<Issue>)
    ensures KeyedToStep(r, 2)
  {
    var price := NonNegativeIssues(Price, i.price, PriceNegative);
    var compare := if i.compareAtPrice.Missing? then [] else NonNegativeIssues(CompareAtPrice, i.compareAtPrice, ComparePriceNegative);
    var stock := CountIssues(StockQuantity, i.stockQuantity, StockNegative);
    var threshold := if i.lowStockThreshold.Missing? then [] else CountIssues(LowStockThreshold, i.lowStockThreshold, ThresholdNegative);
    KeyedAppend(price, compare, 2);
    KeyedAppend(price + compare, stock, 2);
    KeyedAppend(price + compare + stock, threshold, 2);
    price + compare + stock + threshold
  }

  /** A coerced value that is a number at least zero (and an integer when `integral`). */
  predicate AcceptableNumber(x: NumInput, integral: bool) {
    x.Num? && x.value >= 0.0 && (integral ==> IsInteger(x.value))
  }

  /**
   * `productPricingSchema.safeParse`: accepts exactly a price at least 0, a compare price absent or
   * at least 0, and stock and threshold integers at least 0, the threshold defaulting to 10.
   */
  function ParsePricing(i: PricingInput): (r: Parsed<Pricing>)
    ensures r.Ok? <==>
      && AcceptableNumber(i.price, false)
      && (i.compareAtPrice.Missing? || AcceptableNumber(i.compareAtPrice, false))
      && AcceptableNumber(i.stockQuantity, true)
      && (i.lowStockThreshold.Missing? || AcceptableNumber(i.lowStockThreshold, true))
    ensures r.Ok? ==>
      && r.value.price == i.price.value
      && r.value.compareAtPrice == (if i.compareAtPrice.Num? then Some(i.compareAtPrice.value) else None)
      && r.value.stockQuantity == i.stockQuantity.value
      && r.value.lowStockThreshold == (if i.lowStockThreshold.Num? then i.lowStockThreshold.value else 10.0)
    ensures r.Err? ==> r.issues != [] && KeyedToStep(r.issues, 2)
  {
    var issues := PricingIssues(i);
    if issues == [] then
      Ok(Pricing(
        i.price.value,
        if i.compareAtPrice.Num? then Some(i.compareAtPrice.value) else None,
        i.stockQuantity.value,
        if i.lowStockThreshold.Num? then i.lowStockThreshold.value else DefaultLowStockThreshold))
    else Err(issues)
  }

  /**
   * A negative stock that is not an integer fails both checks; both issues are keyed to
   * `stockQuantity`, the integer one first.
   */
  lemma NegativeFractionalStock(i: PricingInput)
    requires i.stockQuantity.Num? && i.stockQuantity.value < 0.0 && !IsInteger(i.stockQuantity.value)
    ensures MessagesFor(PricingIssues(i), StockQuantity) == [NotAnInteger, StockNegative]
  {
    var a := NonNegativeIssues(Price, i.price, PriceNegative);
    var b := if i.compareAtPrice.Missing? then [] else NonNegativeIssues(CompareAtPrice, i.compareAtPrice, ComparePriceNegative);
    var c := CountIssues(StockQuantity, i.stockQuantity, StockNegative);
    var d := if i.lowStockThreshold.Missing? then [] else CountIssues(LowStockThreshold, i.lowStockThreshold, ThresholdNegative);
    assert PricingIssues(i) == a + b + c + d;
    MessagesForAppend(a + b + c, d, StockQuantity);
    MessagesForAppend(a + b, c, StockQuantity);
    MessagesForAppend(a, b, StockQuantity);
    OtherFieldMessages(Price, i.price, PriceNegative, StockQuantity);
    OtherFieldMessages(CompareAtPrice, i.compareAtPrice, ComparePriceNegative, StockQuantity);
    OtherCountMessages(LowStockThreshold, i.lowStockThreshold, ThresholdNegative, StockQuantity);
    BothCountMessages(i.stockQuantity, StockNegative);
  }

  lemma OtherFieldMessages(g: Field, x: NumInput, message: string, f: Field)
    requires g != f
    ensures MessagesFor(NonNegativeIssues(g, x, message), f) == []
  {
    NoMessages(NonNegativeIssues(g, x, message), f);
  }

  lemma OtherCountMessages(g: Field, x: NumInput, message: string, f: Field)
    requires g != f
    ensures MessagesFor(CountIssues(g, x, message), f) == []
  {
    NoMessages(CountIssues(g, x, message), f);
  }

  lemma BothCountMessages(x: NumInput, message: string)
    requires x.Num? && x.value < 0.0 && !IsInteger(x.value)
    ensures MessagesFor(CountIssues(StockQuantity, x, message), StockQuantity) == [NotAnInteger, message]
  {
    var c := CountIssues(StockQuantity, x, message);
    assert c == [Issue(StockQuantity, NotAnInteger), Issue(StockQuantity, message)];
    assert c[1..] == [Issue(StockQuantity, message)];
    assert c[1..][1..] == [];
    assert MessagesFor(c[1..], StockQuantity) == [message];
  }

  // ---------------------------------------------------------------- step 3: productImagesSchema

  /** The object the form parses at step 3. */
  datatype ImagesInput = ImagesInput(images: seq<string>, isActive: Option<bool>)

  /** The data `productImagesSchema` yields. */
  datatype ImagesData = ImagesData(images: seq<string>, isActive: bool)

  function ImagesIssues(i: ImagesInput): (r: seq<Issue>)
    ensures KeyedToStep(r, 3)
  {
    if |i.images| < 1 then [Issue(Images, ImagesRequired)] else []
  }

  /** `productImagesSchema.safeParse`: accepts exactly a non-empty image list; `isActive` defaults to true. */
  function ParseImages(i: ImagesInput): (r: Parsed<ImagesData>)
    ensures r.Ok? <==> |i.images| >= 1
    ensures r.Ok? ==> r.value.images == i.images && r.value.isActive == i.isActive.GetOr(true)
    ensures r.Err? ==> r.issues == [Issue(Images, ImagesRequired)]
  {
    var issues := ImagesIssues(i);
    if issues == [] then Ok(ImagesData(i.images, i.isActive.GetOr(true))) else Err(issues)
  }

  // ---------------------------------------------------------------- productSchema (the merge)

  /** The object parsed by the merged schema: the three step objects together. */
  datatype FormInput = FormInput(basic: BasicInput, pricing: PricingInput, media: ImagesInput)

  /** The data `productSchema` yields: the declared keys only, so neither `cost` nor `tags`. */
  datatype ProductData = ProductData(basic: Basic, pricing: Pricing, media: ImagesData)

  /** The merged schema's issues: its shape is the three shapes in order. */
  function ProductIssues(i: FormInput): (r: seq<Issue>) {
    BasicIssues(i.basic) + PricingIssues(i.pricing) + ImagesIssues(i.media)
  }

  function ParseProduct(i: FormInput): (r: Parsed<ProductData>) {
    if ProductIssues(i) == [] then
      Ok(ProductData(ParseBasic(i.basic).value, ParsePricing(i.pricing).value, ParseImages(i.media).value))
    else Err(ProductIssues(i))
  }

  /** The messages for `f` that the schema of the step owning `f` reports. */
  function OwnStepMessages(i: FormInput, f: Field): seq<string> {
    if StepOf(f) == 1 then MessagesFor(BasicIssues(i.basic), f)
    else if StepOf(f) == 2 then MessagesFor(PricingIssues(i.pricing), f)
    else MessagesFor(ImagesIssues(i.media), f)
  }

  /** The merged schema accepts exactly what all three step schemas accept, and yields their data. */
  lemma MergeIsConjunction(i: FormInput)
    ensures ParseProduct(i).Ok? <==> ParseBasic(i.basic).Ok? && ParsePricing(i.pricing).Ok? && ParseImages(i.media).Ok?
    ensures ParseProduct(i).Ok? ==>
      ParseProduct(i).value == ProductData(ParseBasic(i.basic).value, ParsePricing(i.pricing).value, ParseImages(i.media).value)
  {
  }

  /**
   * Because the three key sets are disjoint, the messages the merged schema reports for a field are
   * those of the step that owns the field.
   */
  lemma MergeKeepsStepMessages(i: FormInput, f: Field)
    ensures MessagesFor(ProductIssues(i), f) == OwnStepMessages(i, f)
  {
    DisjointMessages(BasicIssues(i.basic), PricingIssues(i.pricing), ImagesIssues(i.media), f);
  }

  lemma DisjointMessages(a: seq<Issue>, b: seq<Issue>, c: seq<Issue>, f: Field)
    requires KeyedToStep(a, 1) && KeyedToStep(b, 2) && KeyedToStep(c, 3)
    ensures MessagesFor(a + b + c, f) ==
      if StepOf(f) == 1 then MessagesFor(a, f) else if StepOf(f) == 2 then MessagesFor(b, f) else MessagesFor(c, f)
  {
    MessagesForAppend(a + b, c, f);
    MessagesForAppend(a, b, f);
    if StepOf(f) != 1 { ForeignMessages(a, 1, f); }
    if StepOf(f) != 2 { ForeignMessages(b, 2, f); }
    if StepOf(f) != 3 { ForeignMessages(c, 3, f); }
  }

  /** Issues keyed to one step carry no message for a field of another step. */
  lemma {:induction false} ForeignMessages(issues: seq<Issue>, k: nat, f: Field)
    requires KeyedToStep(issues, k) && StepOf(f) != k
    ensures MessagesFor(issues, f) == []
  {
    NoMessages(issues, f);
  }

  /** No schema declares `cost` or `tags`: changing only those never changes a verdict or an issue. */
  lemma CostAndTagsUnconstrained(i: FormInput, tags: seq<string>, cost: NumInput)
    ensures BasicIssues(i.basic.(tags := tags)) == BasicIssues(i.basic)
    ensures PricingIssues(i.pricing.(cost := cost)) == PricingIssues(i.pricing)
    ensures ProductIssues(i.(basic := i.basic.(tags := tags), pricing := i.pricing.(cost := cost))) == ProductIssues(i)
  {
  }

  // ---------------------------------------------------------------- storing a parsed record

  /**
   * What `Product.create` receives from the create route: the parsed data, which has no `cost`
   * and no `tags`, and no `sales`.
   */
  function StorageInput(d: ProductData): ProductModel.ProductInput {
    ProductModel.ProductInput(
      Some(d.basic.name), Some(d.basic.description), Some(d.pricing.price), d.pricing.compareAtPrice,
      None, Some(d.basic.sku), Some(d.basic.category), None, Some(d.pricing.stockQuantity),
      Some(d.pricing.lowStockThreshold), Some(d.media.images), Some(d.media.isActive), None)
  }

  /** As written, no record the merged schema accepts can be stored: `cost` is required and stripped. */
  lemma ParsedRecordIsNeverStored(i: FormInput)
    requires ParseProduct(i).Ok?
    ensures ProductModel.Create(StorageInput(ParseProduct(i).value)).None?
  {
  }

  /** The merged schema as evidently intended: it also declares `cost` (a number at least 0) and `tags` (default empty). */
  datatype StorableInput = StorableInput(form: FormInput, cost: NumInput, tags: Option<seq<string>>)

  datatype StorableData = StorableData(data: ProductData, cost: real, tags: seq<string>)

  function StorableIssues(i: StorableInput): seq<Issue> {
    BasicIssues(i.form.basic) + PricingIssues(i.form.pricing)
    + NonNegativeIssues(Cost, i.cost, "Cost must be positive") + ImagesIssues(i.form.media)
  }

  /** The corrected merged schema: accepts what the three steps accept together with a cost at least 0. */
  function ParseStorable(i: StorableInput): (r: Parsed<StorableData>)
    ensures r.Ok? <==> ParseProduct(i.form).Ok? && AcceptableNumber(i.cost, false)
    ensures r.Ok? ==> r.value.data == ParseProduct(i.form).value && r.value.cost == i.cost.value
    ensures r.Ok? ==> r.value.tags == i.tags.GetOr([])
  {
    if StorableIssues(i) == [] then
      Ok(StorableData(ParseProduct(i.form).value, i.cost.value, i.tags.GetOr([])))
    else Err(StorableIssues(i))
  }

  function StorableStorageInput(s: StorableData): ProductModel.ProductInput {
    StorageInput(s.data).(cost := Some(s.cost), tags := Some(s.tags))
  }

  /**
   * With the corrected schema a parsed record is stored, provided its text fields are not blank:
   * Zod counts white space that the model's `trim` setters then remove.
   */
  lemma StorableRecordIsStored(i: StorableInput)
    requires ParseStorable(i).Ok?
    requires !AllSpace(i.form.basic.name) && !AllSpace(i.form.basic.description)
    requires !AllSpace(i.form.basic.category) && !AllSpace(i.form.basic.sku)
    ensures ProductModel.Create(StorableStorageInput(ParseStorable(i).value)).Some?
  {
    var b := i.form.basic;
    var input := StorableStorageInput(ParseStorable(i).value);
    StorableParsed(i);
    assert |Trim(b.name)| <= MaxNameLength;
    ProductModel.CreateAccepts(input);
  }

  /** What the corrected schema hands to `Product.create`, field by field. */
  lemma StorableParsed(i: StorableInput)
    requires ParseStorable(i).Ok?
    ensures var input := StorableStorageInput(ParseStorable(i).value);
      && input.name == Some(i.form.basic.name) && input.description == Some(i.form.basic.description)
      && input.sku == Some(i.form.basic.sku) && input.category == Some(i.form.basic.category)
      && |i.form.basic.name| <= MaxNameLength
      && input.price.Some? && input.price.value >= 0.0
      && ProductModel.AbsentOrNonNegative(input.compareAtPrice)
      && input.cost.Some? && input.cost.value >= 0.0
      && ProductModel.AbsentOrNonNegative(input.stockQuantity)
      && ProductModel.AbsentOrNonNegative(input.lowStockThreshold)
      && input.sales.None?
  {
    var st := ParseStorable(i).value;
    var b, pr := i.form.basic, i.form.pricing;
    assert ProductIssues(i.form) == [];
    assert BasicIssues(b) == [] && PricingIssues(pr) == [];
    assert st.data.basic == Basic(b.name, b.description, b.category, b.sku);
    var p := ParsePricing(pr).value;
    assert st.data.pricing == p;
  }

  /** A blank name of three spaces passes the step schema but is refused when stored. */
  lemma BlankNamePassesSchema()
    ensures ParseBasic(BasicInput("   ", "A sturdy mug", "Home", [], "MUG-1")).Ok?
    ensures !ProductModel.RequiredText(Some("   "))
  {
    assert AllSpace("   ");
  }
}
