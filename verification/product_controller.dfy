/**
 * The product request handlers (server/controllers/productController.js)
 * over an in-memory product collection. The image host is a parameter: a
 * function from a received file to the URL it is served from, or None when
 * the upload fails.
 */
module ProductController {
  import opened Wrappers
  import opened Sequences
  import opened ProductModel

  /** A file received with a multipart request. */
  datatype File = File(path: string)

  /** Why a handler answered `{ success: false, message }`. */
  datatype Failure =
    | MalformedProductData      // JSON.parse threw
    | UploadFailed              // an image upload was rejected
    | Invalid(error: ValidationError)
    | DuplicateId               // the new document's id is already taken
    | CastFailed                // the id, or the update's category, is not an ObjectId

  /** The JSON answer: `{ success: true, message }` or `{ success: false, message }`. */
  datatype Response = Done(message: string) | Failed(failure: Failure)
  {
    predicate Success() { Done? }
  }

  const AddedMessage := "Product Added"
  const StockMessage := "Stock Updated"
  const UpdatedMessage := "Product Updated"
  const DeletedMessage := "Product Deleted"

  /** `Promise.all(files.map(upload))`: every URL in file order, or None as soon as one upload fails. */
  function UploadAll(files: seq<File>, upload: File -> Option<Url>): (r: Option<seq<Url>>)
    ensures r.Some? <==> forall i | 0 <= i < |files| :: upload(files[i]).Some?
    ensures r.Some? ==> |r.value| == |files|
    ensures r.Some? ==> forall i | 0 <= i < |files| :: upload(files[i]) == Some(r.value[i])
  {
    if files == [] then Some([])
    else
      var rest := UploadAll(files[1..], upload);
      assert forall i | 1 <= i < |files| :: files[1..][i - 1] == files[i];
      if upload(files[0]).Some? && rest.Some? then Some([upload(files[0]).value] + rest.value)
      else None
  }

  /**
   * The update document of findByIdAndUpdate: the top-level fields it sets.
   * Edits send complete records, so a variant list here is a list of complete variants.
   */
  datatype ProductPatch = ProductPatch(
    name: Option<string>,
    description: Option<seq<string>>,
    image: Option<seq<Url>>,
    category: Option<CategoryId>,
    variants: Option<seq<Variant>>,
    inStock: Option<bool>)

  /** An update that sets nothing. */
  const NoChange := ProductPatch(None, None, None, None, None, None)

  /** The stored document after the update: each field present in the patch is replaced. */
  function Patched(p: Product, patch: ProductPatch): (r: Product)
    ensures r.id == p.id
    ensures patch == NoChange ==> r == p
    ensures r.name == if patch.name.Some? then patch.name.value else p.name
    ensures r.description == if patch.description.Some? then patch.description.value else p.description
    ensures r.image == if patch.image.Some? then patch.image.value else p.image
    ensures r.category == if patch.category.Some? then patch.category.value else p.category
    ensures r.variants == if patch.variants.Some? then patch.variants.value else p.variants
    ensures r.inStock == if patch.inStock.Some? then patch.inStock.value else p.inStock
  {
    Product(p.id, Or(patch.name, p.name), Or(patch.description, p.description), Or(patch.image, p.image),
            Or(patch.category, p.category), Or(patch.variants, p.variants), Or(patch.inStock, p.inStock))
  }

  /** Applying the same update twice stores the same document as applying it once. */
  lemma PatchedIdempotent(p: Product, patch: ProductPatch)
    ensures Patched(Patched(p, patch), patch) == Patched(p, patch)
  {
  }

  /** The update that sets what `later` carries and, for the other paths, what `earlier` carries. */
  function Merge(earlier: ProductPatch, later: ProductPatch): ProductPatch
  {
    ProductPatch(Latest(earlier.name, later.name), Latest(earlier.description, later.description),
                 Latest(earlier.image, later.image), Latest(earlier.category, later.category),
                 Latest(earlier.variants, later.variants), Latest(earlier.inStock, later.inStock))
  }

  function Latest<T>(earlier: Option<T>, later: Option<T>): Option<T>
  {
    if later.Some? then later else earlier
  }

  /** Two successive updates store what one merged update stores: a later path overrides an earlier one. */
  lemma PatchedCompose(p: Product, earlier: ProductPatch, later: ProductPatch)
    ensures Patched(Patched(p, earlier), later) == Patched(p, Merge(earlier, later))
  {
  }

  /** Whether findByIdAndUpdate can cast the update: a category it carries must be an id. */
  predicate CategoryCasts(patch: ProductPatch)
  {
    patch.category.None? || IsIdText(patch.category.value)
  }

  /** A whole record sent as an update: every field present. */
  function PatchOf(p: Product): ProductPatch
  {
    ProductPatch(Some(p.name), Some(p.description), Some(p.image), Some(p.category), Some(p.variants), Some(p.inStock))
  }

  /** Sending a whole record stores exactly that record under the target id. */
  lemma PatchOfRoundTrip(stored: Product, sent: Product)
    ensures Patched(stored, PatchOf(sent)) == sent.(id := stored.id)
  {
  }

  /** editProduct's rule: `image` is replaced only when at least one URL came back. */
  function EditPatch(productData: ProductPatch, imagesUrl: seq<Url>): (r: ProductPatch)
    ensures |imagesUrl| > 0 ==> r.image == Some(imagesUrl)
    ensures |imagesUrl| == 0 ==> r == productData
    ensures r.(image := productData.image) == productData
  {
    if |imagesUrl| > 0 then productData.(image := Some(imagesUrl)) else productData
  }

  /** Setting the stock flag of one document, if it exists; nothing else changes. */
  function WithStock(docs: map<Id, Product>, id: Id, inStock: bool): (r: map<Id, Product>)
    ensures r.Keys == docs.Keys
    ensures forall x | x in docs && x != id :: r[x] == docs[x]
    ensures id in docs ==> r[id] == docs[id].(inStock := inStock)
  {
    if id in docs then docs[id := docs[id].(inStock := inStock)] else docs
  }

  /** Setting the same stock flag twice is the same as setting it once. */
  lemma WithStockIdempotent(docs: map<Id, Product>, id: Id, inStock: bool)
    ensures WithStock(WithStock(docs, id, inStock), id, inStock) == WithStock(docs, id, inStock)
  {
  }

  /** The product collection: documents by id, in insertion order. */
  class ProductStore {
    var ids: seq<Id>
    var docs: map<Id, Product>

    ghost predicate Valid()
      reads this
    {
      Distinct(ids)
      && (forall id | id in ids :: id in docs)
      && (forall id | id in docs :: id in ids && docs[id].id == id)
    }

    constructor ()
      ensures Valid() && ids == [] && docs == map[]
    {
      ids := [];
      docs := map[];
    }

    /**
     * addProduct: the submitted fields plus `image` set to the uploaded URLs,
     * one per file in file order. Any failure leaves the collection as it was.
     */
    method AddProduct(productData: Option<ProductData>, files: seq<File>, upload: File -> Option<Url>, newId: Id)
      returns (res: Response)
      requires Valid()
      modifies this
      ensures Valid()
      ensures res.Success() <==>
        productData.Some? && UploadAll(files, upload).Some? && newId !in old(docs)
        && Validate(newId, productData.value.(image := UploadAll(files, upload))).Ok?
      ensures res.Success() ==>
        res == Done(AddedMessage) && ids == old(ids) + [newId]
        && docs == old(docs)[newId := Validate(newId, productData.value.(image := UploadAll(files, upload))).value]
        && docs[newId].image == UploadAll(files, upload).value
      ensures !res.Success() ==> ids == old(ids) && docs == old(docs)
    {
      if productData.None? {
        return Failed(MalformedProductData);
      }
      var imagesUrl := UploadAll(files, upload);
      if imagesUrl.None? {
        return Failed(UploadFailed);
      }
      var created := Validate(newId, productData.value.(image := imagesUrl));
      if created.Err? {
        return Failed(Invalid(created.error));
      }
      if newId in docs {
        return Failed(DuplicateId);
      }
      docs := docs[newId := created.value];
      ids := ids + [newId];
      res := Done(AddedMessage);
    }

    /** productList: every stored product exactly once, in insertion order. */
    function ProductList(): (products: seq<Product>)
      reads this
      requires Valid()
      ensures |products| == |docs|
      ensures forall id | id in docs :: docs[id] in products
      ensures forall i | 0 <= i < |products| :: products[i].id in docs && docs[products[i].id] == products[i]
    {
      var ids, docs := this.ids, this.docs;
      DistinctCardinality(ids);
      assert (set x | x in ids) == docs.Keys;
      var products := seq(|ids|, i requires 0 <= i < |ids| && ids[i] in docs => docs[ids[i]]);
      assert forall id | id in docs :: products[IndexOf(ids, id)] == docs[id];
      products
    }

    /** productById: the document with that id, or null (None) when there is none. */
    function ProductById(id: Id): (product: Result<Option<Product>, Failure>)
      reads this
      requires Valid()
      ensures product.Ok? <==> IsIdText(id)
      ensures product.Ok? ==> (product.value.Some? <==> id in docs)
      ensures product.Ok? && product.value.Some? ==> id in docs && product.value.value == docs[id] && product.value.value.id == id
    {
      if !IsIdText(id) then Err(CastFailed)
      else if id in docs then Ok(Some(docs[id]))
      else Ok(None)
    }

    /**
     * changeStock: sets that product's `inStock`. An id that does not cast
     * fails; an unknown id changes nothing and still succeeds.
     */
    method ChangeStock(id: Id, inStock: bool) returns (res: Response)
      requires Valid()
      modifies this
      ensures Valid() && ids == old(ids)
      ensures res.Success() <==> IsIdText(id)
      ensures res.Success() ==> res == Done(StockMessage) && docs == WithStock(old(docs), id, inStock)
      ensures !res.Success() ==> docs == old(docs)
    {
      if !IsIdText(id) {
        return Failed(CastFailed);
      }
      docs := WithStock(docs, id, inStock);
      res := Done(StockMessage);
    }

    /**
     * editProduct: uploads only when files came; `image` is replaced only by a
     * non-empty upload, otherwise the stored list is whatever the data carries
     * (or stays as it was). Update validators do not run, but the id and the
     * update are cast: an id or a category that is not an ObjectId fails. An
     * unknown id changes nothing and still succeeds. Any failure leaves the
     * collection as it was.
     */
    method EditProduct(id: Id, productData: Option<ProductPatch>, files: seq<File>, upload: File -> Option<Url>)
      returns (res: Response)
      requires Valid()
      modifies this
      ensures Valid() && ids == old(ids) && docs.Keys == old(docs).Keys
      ensures res.Success() <==>
        productData.Some? && (|files| == 0 || UploadAll(files, upload).Some?)
        && IsIdText(id) && CategoryCasts(productData.value)
      ensures res.Success() ==> res == Done(UpdatedMessage)
      ensures !res.Success() || id !in old(docs) ==> docs == old(docs)
      ensures forall x | x in old(docs) && x != id :: docs[x] == old(docs)[x]
      ensures res.Success() && id in old(docs) && |files| == 0 ==>
        docs[id] == Patched(old(docs)[id], productData.value)
      ensures res.Success() && id in old(docs) && |files| > 0 ==>
        docs[id] == Patched(old(docs)[id], productData.value.(image := UploadAll(files, upload)))
      ensures res.Success() && id in old(docs) && |files| > 0 ==> docs[id].image == UploadAll(files, upload).value
    {
      if productData.None? {
        return Failed(MalformedProductData);
      }
      var imagesUrl: seq<Url> := [];
      if |files| > 0 {
        var uploaded := UploadAll(files, upload);
        if uploaded.None? {
          return Failed(UploadFailed);
        }
        imagesUrl := uploaded.value;
      }
      var patch := EditPatch(productData.value, imagesUrl);
      if !IsIdText(id) || !CategoryCasts(patch) {
        return Failed(CastFailed);
      }
      if id in docs {
        docs := docs[id := Patched(docs[id], patch)];
      }
      res := Done(UpdatedMessage);
    }

    /**
     * deleteProduct: removes exactly that id. An id that does not cast fails;
     * an unknown id changes nothing and still succeeds.
     */
    method DeleteProduct(id: Id) returns (res: Response)
      requires Valid()
      modifies this
      ensures Valid()
      ensures res.Success() <==> IsIdText(id)
      ensures res.Success() ==> res == Done(DeletedMessage) && docs == old(docs) - {id} && ids == Without(old(ids), id)
      ensures !res.Success() ==> docs == old(docs) && ids == old(ids)
    {
      if !IsIdText(id) {
        return Failed(CastFailed);
      }
      WithoutDistinct(ids, id);
      docs := docs - {id};
      ids := Without(ids, id);
      res := Done(DeletedMessage);
    }
  }

  /** With no files, the stored image list is the one the data carries, or the old one if it carries none. */
  lemma EditWithoutFilesKeepsImages(stored: Product, productData: ProductPatch)
    ensures Patched(stored, EditPatch(productData, [])).image == Or(productData.image, stored.image)
  {
  }
}
