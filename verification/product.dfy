/**
 * The product document (server/models/Product.js): the stored record, the
 * shape a request submits before validation, and the schema's required-field
 * check with its `inStock` default.
 */
module ProductModel {
  import opened Wrappers

  /** A document `_id` (an ObjectId string). */
  type Id = string
  /** The `_id` of a Category document: products reference, never embed, it. */
  type CategoryId = string
  /** The address an uploaded image is served from. */
  type Url = string

  /** One purchasable unit of a product, addressed by its position. Amounts are in minor currency units. */
  datatype Variant = Variant(unit: string, weight: int, price: int, offerPrice: int)

  /** The four paths of a variant, as the forms name them. */
  datatype Field = Unit | Weight | Price | OfferPrice

  /** A stored product document. */
  datatype Product = Product(
    id: Id,
    name: string,
    description: seq<string>,
    image: seq<Url>,
    category: CategoryId,
    variants: seq<Variant>,
    inStock: bool)

  /** A submitted variant after casting: a field that is absent or cast to null is None. */
  datatype VariantData = VariantData(
    unit: Option<string>,
    weight: Option<int>,
    price: Option<int>,
    offerPrice: Option<int>)

  /** A submitted product before validation; every top-level field may be absent. */
  datatype ProductData = ProductData(
    name: Option<string>,
    description: Option<seq<string>>,
    image: Option<seq<Url>>,
    category: Option<CategoryId>,
    variants: Option<seq<VariantData>>,
    inStock: Option<bool>)

  /** Which required path failed validation (the first one in schema order). */
  datatype ValidationError = NameRequired | CategoryRequired | VariantFieldRequired

  /** A required String path rejects a missing value and the empty string. */
  predicate RequiredString(s: Option<string>)
  {
    s.Some? && s.value != ""
  }

  predicate IsHexDigit(c: char)
  {
    '0' <= c <= '9' || 'a' <= c <= 'f' || 'A' <= c <= 'F'
  }

  /** Text that casts to an ObjectId: 24 hexadecimal digits. "" and free text do not. */
  predicate IsIdText(s: string)
  {
    |s| == 24 && forall i | 0 <= i < |s| :: IsHexDigit(s[i])
  }

  /** A category reference must be present and cast to an id. */
  predicate RequiredReference(c: Option<CategoryId>)
  {
    c.Some? && IsIdText(c.value)
  }

  /** Every variant path is required; numbers carry no sign or range constraint. */
  predicate ValidVariant(v: VariantData)
  {
    RequiredString(v.unit) && v.weight.Some? && v.price.Some? && v.offerPrice.Some?
  }

  predicate ValidVariants(vs: Option<seq<VariantData>>)
  {
    vs.Some? ==> forall i | 0 <= i < |vs.value| :: ValidVariant(vs.value[i])
  }

  /**
   * The schema's required-field check. An absent array path takes its
   * default `[]`, which `required` accepts, so `description` and `image`
   * never fail it.
   */
  predicate Valid(d: ProductData)
  {
    RequiredString(d.name) && RequiredReference(d.category) && ValidVariants(d.variants)
  }

  /** The value of an optional field, or the default when it is absent. */
  function Or<T>(o: Option<T>, otherwise: T): T
  {
    if o.Some? then o.value else otherwise
  }

  /** A stored variant seen as submitted data: every field present. */
  function DataOf(v: Variant): VariantData
  {
    VariantData(Some(v.unit), Some(v.weight), Some(v.price), Some(v.offerPrice))
  }

  function BuildVariant(v: VariantData): (r: Variant)
    requires ValidVariant(v)
    ensures DataOf(r) == v
  {
    Variant(v.unit.value, v.weight.value, v.price.value, v.offerPrice.value)
  }

  /**
   * Creating a document: validation either fails on a required path or
   * yields the record, with every absent array path defaulting to [] and
   * `inStock` to true.
   */
  function Validate(id: Id, d: ProductData): (r: Result<Product, ValidationError>)
    ensures r.Ok? <==> Valid(d)
    ensures r.Ok? ==> (r.value.id == id && Some(r.value.name) == d.name && Some(r.value.category) == d.category)
    ensures r.Ok? ==> (r.value.description == if d.description.Some? then d.description.value else [])
    ensures r.Ok? ==> (r.value.image == if d.image.Some? then d.image.value else [])
    ensures r.Ok? ==> r.value.inStock == (d.inStock.None? || d.inStock.value)
    ensures r.Ok? && d.variants.None? ==> r.value.variants == []
    ensures r.Ok? && d.variants.Some? ==> (
      |r.value.variants| == |d.variants.value|
      && forall i | 0 <= i < |d.variants.value| :: DataOf(r.value.variants[i]) == d.variants.value[i])
  {
    if !RequiredString(d.name) then Err(NameRequired)
    else if !RequiredReference(d.category) then Err(CategoryRequired)
    else if !ValidVariants(d.variants) then Err(VariantFieldRequired)
    else
      var variants :=
        if d.variants.None? then []
        else seq(|d.variants.value|, i requires 0 <= i < |d.variants.value| => BuildVariant(d.variants.value[i]));
      var inStock := if d.inStock.Some? then d.inStock.value else true;
      Ok(Product(id, d.name.value, Or(d.description, []), Or(d.image, []), d.category.value, variants, inStock))
  }

  /** Any number, negative ones included, passes a variant's numeric paths. */
  lemma NumbersUnconstrained(unit: string, weight: int, price: int, offerPrice: int)
    requires unit != ""
    ensures ValidVariant(VariantData(Some(unit), Some(weight), Some(price), Some(offerPrice)))
  {
  }
}
