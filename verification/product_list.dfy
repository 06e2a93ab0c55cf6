/**
 * The seller's product list (client/src/pages/seller/ProductList.jsx): the
 * stock toggle and the edit dialog, whose buffer holds one product while the
 * seller changes it (the source holds the catalog's own object; the model
 * holds its value), and the request its Save button sends.
 */
module ProductListPage {
  import opened Wrappers
  import opened Text
  import opened ProductModel
  import opened ProductController

  /** The variant "+ Add Variant" appends. */
  const ZeroVariant := Variant("", 0, 0, 0)

  /** The text a number input can hold: empty, or an integer. */
  predicate NumberInput(text: string)
  {
    text == "" || NumberCast(text).Some?
  }

  /** `Number(e.target.value)`: the empty input reads as 0. */
  function InputNumber(text: string): (n: int)
    requires NumberInput(text)
    ensures text == "" ==> n == 0
    ensures text != "" ==> NumberCast(text) == Some(n)
  {
    if text == "" then 0 else NumberCast(text).value
  }

  /** Whether two variants agree on one field. */
  predicate SameField(v: Variant, w: Variant, f: Field)
  {
    match f
    case Unit => v.unit == w.unit
    case Weight => v.weight == w.weight
    case Price => v.price == w.price
    case OfferPrice => v.offerPrice == w.offerPrice
  }

  /** The value of a numeric field. */
  function NumberOf(v: Variant, f: Field): int
    requires f != Unit
  {
    match f
    case Weight => v.weight
    case Price => v.price
    case OfferPrice => v.offerPrice
  }

  /** One variant after its input for `f` changed: that field takes the input, the others stay. */
  function EditedVariant(v: Variant, f: Field, text: string): (r: Variant)
    requires f == Unit || NumberInput(text)
    ensures f == Unit ==> r.unit == text
    ensures f != Unit ==> NumberOf(r, f) == InputNumber(text)
    ensures forall g: Field | g != f :: SameField(r, v, g)
  {
    match f
    case Unit => v.(unit := text)
    case Weight => v.(weight := InputNumber(text))
    case Price => v.(price := InputNumber(text))
    case OfferPrice => v.(offerPrice := InputNumber(text))
  }

  /** The stock checkbox asks for the opposite of the shown product's flag. */
  function StockRequest(product: Product): (request: (Id, bool))
    ensures request.0 == product.id
    ensures request.1 != product.inStock
  {
    (product.id, !product.inStock)
  }

  /** Toggling flips the stored flag of that product and nothing else. */
  lemma ToggleFlips(docs: map<Id, Product>, id: Id)
    requires id in docs && docs[id].id == id
    ensures var (target, inStock) := StockRequest(docs[id]);
      id == target && WithStock(docs, id, inStock)[id] == docs[id].(inStock := !docs[id].inStock)
  {
  }

  /** Toggling twice, each time from the refreshed list, restores the collection. */
  lemma ToggleTwiceRestores(docs: map<Id, Product>, id: Id)
    requires id in docs
    ensures var once := WithStock(docs, id, StockRequest(docs[id]).1);
      WithStock(once, id, StockRequest(once[id]).1) == docs
  {
  }

  /** What Save sends to the edit endpoint. */
  datatype EditRequest = EditRequest(productData: ProductPatch, id: Id, images: seq<File>)

  class ProductListPage {
    /** The product whose dialog is open (null when closed). */
    var editProduct: Option<Product>
    /** The edit buffer: `{}` (None) until the first Edit. */
    var updatedProduct: Option<Product>
    /** The newly chosen image files. */
    var images: seq<File>

    /** The dialog is shown only after an Edit, which also fills the buffer. */
    ghost predicate Valid()
      reads this
    {
      editProduct.Some? ==> updatedProduct.Some?
    }

    /** The dialog's controls are on screen. */
    predicate Open()
      reads this
    {
      editProduct.Some? && updatedProduct.Some?
    }

    constructor ()
      ensures Valid() && editProduct == None && updatedProduct == None && images == []
    {
      editProduct := None;
      updatedProduct := None;
      images := [];
    }

    /** handleEdit: the dialog opens on the product itself (here, its value), with no new images. */
    method HandleEdit(product: Product)
      modifies this
      ensures Valid() && Open()
      ensures editProduct == Some(product) && updatedProduct == Some(product) && images == []
    {
      editProduct := Some(product);
      updatedProduct := Some(product);
      images := [];
    }

    method SetName(text: string)
      requires Valid() && Open()
      modifies this
      ensures Valid() && Open()
      ensures updatedProduct == Some(old(updatedProduct.value).(name := text))
      ensures editProduct == old(editProduct) && images == old(images)
    {
      updatedProduct := Some(updatedProduct.value.(name := text));
    }

    /** The text the description box shows: the lines joined by newlines. */
    function DescriptionText(): (text: string)
      reads this
      requires updatedProduct.Some?
      ensures Split(text, '\n') == updatedProduct.value.description <==>
        |updatedProduct.value.description| >= 1
        && forall i | 0 <= i < |updatedProduct.value.description| :: '\n' !in updatedProduct.value.description[i]
    {
      var lines := updatedProduct.value.description;
      if |lines| >= 1 && forall i | 0 <= i < |lines| :: '\n' !in lines[i] then
        SplitJoin(lines, '\n');
        Join(lines, '\n')
      else
        Join(lines, '\n')
    }

    /** Typing in the description box stores the text split into lines. */
    method SetDescriptionText(text: string)
      requires Valid() && Open()
      modifies this
      ensures Valid() && Open()
      ensures updatedProduct == Some(old(updatedProduct.value).(description := Split(text, '\n')))
      ensures Join(updatedProduct.value.description, '\n') == text
      ensures editProduct == old(editProduct) && images == old(images)
    {
      JoinSplit(text, '\n');
      updatedProduct := Some(updatedProduct.value.(description := Split(text, '\n')));
    }

    method SetCategory(text: CategoryId)
      requires Valid() && Open()
      modifies this
      ensures Valid() && Open()
      ensures updatedProduct == Some(old(updatedProduct.value).(category := text))
      ensures editProduct == old(editProduct) && images == old(images)
    {
      updatedProduct := Some(updatedProduct.value.(category := text));
    }

    /** Choosing files replaces the whole list of new images. */
    method SetImages(files: seq<File>)
      requires Valid() && Open()
      modifies this
      ensures Valid() && Open()
      ensures images == files
      ensures editProduct == old(editProduct) && updatedProduct == old(updatedProduct)
    {
      images := files;
    }

    /** One input of variant `index` changed: only that field of that variant changes. */
    method EditVariant(index: nat, field: Field, text: string)
      requires Valid() && Open()
      requires index < |updatedProduct.value.variants|
      requires field == Unit || NumberInput(text)
      modifies this
      ensures Valid() && Open()
      ensures updatedProduct == Some(old(updatedProduct.value).(variants :=
        old(updatedProduct.value.variants)[index := EditedVariant(old(updatedProduct.value.variants[index]), field, text)]))
      ensures editProduct == old(editProduct) && images == old(images)
    {
      var variants := updatedProduct.value.variants;
      variants := variants[index := EditedVariant(variants[index], field, text)];
      updatedProduct := Some(updatedProduct.value.(variants := variants));
    }

    /** "+ Add Variant": the zero variant is appended, the others kept. */
    method AddVariant()
      requires Valid() && Open()
      modifies this
      ensures Valid() && Open()
      ensures updatedProduct == Some(old(updatedProduct.value).(variants := old(updatedProduct.value.variants) + [ZeroVariant]))
      ensures editProduct == old(editProduct) && images == old(images)
    {
      updatedProduct := Some(updatedProduct.value.(variants := updatedProduct.value.variants + [ZeroVariant]));
    }

    /**
     * The request Save sends: the whole buffer, its id, and the chosen images
     * in order. Applied to the stored document with that id, it stores the
     * buffer itself when no files come (so the images stay those of the
     * buffer), and the buffer with the uploaded URLs as `image` otherwise.
     * The server's cast accepts it exactly when the category is an id.
     */
    function SaveRequest(): (request: EditRequest)
      reads this
      requires updatedProduct.Some?
      ensures request.id == updatedProduct.value.id
      ensures forall stored: Product | stored.id == request.id ::
        Patched(stored, EditPatch(request.productData, [])) == updatedProduct.value
      ensures forall stored: Product, urls: seq<Url> | stored.id == request.id && |urls| > 0 ::
        Patched(stored, EditPatch(request.productData, urls)) == updatedProduct.value.(image := urls)
      ensures CategoryCasts(request.productData) <==> IsIdText(updatedProduct.value.category)
    {
      EditRequest(PatchOf(updatedProduct.value), updatedProduct.value.id, images)
    }

    /** Save: a successful answer closes the dialog; a failed one leaves it open. Buffer and images stay. */
    method Save(success: bool) returns (request: EditRequest)
      requires Valid() && Open()
      modifies this
      ensures Valid()
      ensures request == old(SaveRequest())
      ensures updatedProduct == old(updatedProduct) && images == old(images)
      ensures editProduct == if success then None else old(editProduct)
    {
      request := SaveRequest();
      if success {
        editProduct := None;
      }
    }

    /** Cancel closes the dialog and sends nothing. */
    method Cancel()
      requires Valid()
      modifies this
      ensures Valid() && editProduct == None
      ensures updatedProduct == old(updatedProduct) && images == old(images)
    {
      editProduct := None;
    }
  }
}
