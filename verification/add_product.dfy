/**
 * The seller's "Add Product" form (client/src/pages/seller/AddProduct.jsx):
 * the typed text of every input, the variant rows, four image slots, the
 * request the form submits and the reset after a successful answer.
 */
module AddProductPage {
  import opened Wrappers
  import opened Text
  import opened ProductModel
  import opened ProductController

  /** One variant row as typed: the text of each of its four inputs. */
  datatype VariantInput = VariantInput(unit: string, weight: string, price: string, offerPrice: string)

  /** The row every new variant starts as. */
  const BlankVariant := VariantInput("", "", "", "")

  /** The form shows four image slots. */
  const ImageSlots := 4

  function TextOf(v: VariantInput, f: Field): string
  {
    match f
    case Unit => v.unit
    case Weight => v.weight
    case Price => v.price
    case OfferPrice => v.offerPrice
  }

  /** `updated[index][field] = value` on one row: that field takes the value, the other three keep theirs. */
  function WithText(v: VariantInput, f: Field, value: string): (r: VariantInput)
    ensures TextOf(r, f) == value
    ensures forall g: Field | g != f :: TextOf(r, g) == TextOf(v, g)
  {
    match f
    case Unit => v.(unit := value)
    case Weight => v.(weight := value)
    case Price => v.(price := value)
    case OfferPrice => v.(offerPrice := value)
  }

  /** `splice(index, 1)`: the row at `index` leaves, the others keep their order; past the end nothing happens. */
  function RemovedAt<T>(s: seq<T>, index: nat): (r: seq<T>)
    ensures index >= |s| ==> r == s
    ensures index < |s| ==> |r| == |s| - 1
    ensures index < |s| ==> forall j | 0 <= j < index :: r[j] == s[j]
    ensures index < |s| ==> forall j | index <= j < |r| :: r[j] == s[j + 1]
  {
    if index < |s| then s[..index] + s[index + 1..] else s
  }

  /**
   * One variant row after JSON.stringify and the schema's casts: the unit
   * stays text, a number path holds the cast of its text ("" casts to null).
   */
  function Cast(v: VariantInput): (r: VariantData)
    ensures ValidVariant(r) <==> Filled(v)
    ensures ValidVariant(r) ==> BuildVariant(r) == Variant(v.unit, NumberCast(v.weight).value,
                                                           NumberCast(v.price).value, NumberCast(v.offerPrice).value)
  {
    VariantData(Some(v.unit), NumberCast(v.weight), NumberCast(v.price), NumberCast(v.offerPrice))
  }

  /** `productData` of the submit handler: no `image` (the server adds it) and no `inStock`. */
  function FormData(name: string, description: string, category: string, variants: seq<VariantInput>): (d: ProductData)
    ensures d.name == Some(name) && d.category == Some(category)
    ensures d.image.None? && d.inStock.None?
    ensures d.description.Some? && |d.description.value| >= 1
    ensures d.description.Some? && forall i | 0 <= i < |d.description.value| :: '\n' !in d.description.value[i]
    ensures d.description.Some? && Join(d.description.value, '\n') == description
    ensures d.variants.Some? && |d.variants.value| == |variants|
    ensures forall i | 0 <= i < |variants| :: d.variants.value[i] == Cast(variants[i])
  {
    JoinSplit(description, '\n');
    ProductData(Some(name), Some(Split(description, '\n')), None, Some(category),
                Some(seq(|variants|, i requires 0 <= i < |variants| => Cast(variants[i]))), None)
  }

  /**
   * The files the request carries: slot contents in slot order. An empty
   * slot (a hole, or a cancelled choice) is appended as text, not as a file.
   */
  function Chosen(files: seq<Option<File>>): (r: seq<File>)
    ensures |r| <= |files|
    ensures forall f | f in r :: Some(f) in files
    ensures forall i | 0 <= i < |files| && files[i].Some? :: files[i].value in r
    ensures (forall i | 0 <= i < |files| :: files[i].Some?) ==> |r| == |files|
  {
    if files == [] then []
    else
      var rest := Chosen(files[1..]);
      assert forall i | 1 <= i < |files| :: files[i] == files[1..][i - 1];
      if files[0].Some? then [files[0].value] + rest else rest
  }

  /** The files of consecutive slot ranges come one range after the other: slot order is kept. */
  lemma {:induction false} ChosenAppend(a: seq<Option<File>>, b: seq<Option<File>>)
    ensures Chosen(a + b) == Chosen(a) + Chosen(b)
  {
    if a != [] {
      assert (a + b)[0] == a[0];
      assert (a + b)[1..] == a[1..] + b;
      ChosenAppend(a[1..], b);
    } else {
      assert a + b == b;
    }
  }

  /** A filled slot contributes its file once; an empty slot contributes nothing. */
  lemma ChosenSlot(slot: Option<File>)
    ensures Chosen([slot]) == if slot.Some? then [slot.value] else []
  {
  }

  /** What the form sends to the add endpoint. */
  datatype AddRequest = AddRequest(productData: ProductData, images: seq<File>)

  class AddProductForm {
    var files: seq<Option<File>>
    var name: string
    var description: string
    var category: string
    var variants: seq<VariantInput>

    /** The state the form opens in and returns to after a successful add. */
    predicate Initial()
      reads this
    {
      files == [] && name == "" && description == "" && category == "" && variants == [BlankVariant]
    }

    /** Every way of changing the rows keeps at least one of them. */
    ghost predicate Valid()
      reads this
    {
      |variants| >= 1
    }

    /** The Remove control is rendered only while there is more than one row. */
    predicate RemoveShown()
      reads this
    {
      |variants| > 1
    }

    constructor ()
      ensures Initial() && Valid()
    {
      files := [];
      name := "";
      description := "";
      category := "";
      variants := [BlankVariant];
    }

    /** addVariant: one blank row more, the others unchanged. */
    method AddVariant()
      modifies this
      ensures old(Valid()) ==> Valid()
      ensures variants == old(variants) + [BlankVariant]
      ensures files == old(files) && name == old(name) && description == old(description) && category == old(category)
    {
      variants := variants + [BlankVariant];
    }

    /**
     * removeVariant. The Remove control is rendered only while RemoveShown()
     * holds, and from such a state at least one row remains.
     */
    method RemoveVariant(index: nat)
      modifies this
      ensures old(RemoveShown()) ==> Valid()
      ensures variants == RemovedAt(old(variants), index)
      ensures files == old(files) && name == old(name) && description == old(description) && category == old(category)
    {
      variants := RemovedAt(variants, index);
    }

    /** updateVariant: one field of one row takes the typed text. */
    method UpdateVariant(index: nat, field: Field, value: string)
      requires index < |variants|
      modifies this
      ensures old(Valid()) ==> Valid()
      ensures variants == old(variants)[index := WithText(old(variants)[index], field, value)]
      ensures files == old(files) && name == old(name) && description == old(description) && category == old(category)
    {
      variants := variants[index := WithText(variants[index], field, value)];
    }

    /**
     * Choosing (or cancelling) a file for slot `index`: only that slot is set;
     * slots between the old end and `index` become holes.
     */
    method ChooseImage(index: nat, file: Option<File>)
      requires index < ImageSlots
      modifies this
      ensures old(Valid()) ==> Valid()
      ensures |files| == if index < old(|files|) then old(|files|) else index + 1
      ensures files[index] == file
      ensures forall j | 0 <= j < |files| && j != index :: files[j] == if j < old(|files|) then old(files[j]) else None
      ensures variants == old(variants) && name == old(name) && description == old(description) && category == old(category)
    {
      var updatedFiles := files;
      if index >= |updatedFiles| {
        updatedFiles := updatedFiles + seq(index + 1 - |updatedFiles|, _ => None);
      }
      files := updatedFiles[index := file];
    }

    /** The fields the schema requires: a name, a category id, and every row filled. */
    predicate Complete()
      reads this
    {
      name != "" && IsIdText(category) && forall i | 0 <= i < |variants| :: Filled(variants[i])
    }

    /**
     * The request the current form would send. Its data passes the schema
     * exactly when the form is complete, whatever image URLs the server adds.
     */
    function Request(): (request: AddRequest)
      reads this
      ensures ProductModel.Valid(request.productData) <==> Complete()
      ensures forall id: Id, urls: seq<Url> :: Validate(id, request.productData.(image := Some(urls))).Ok? <==> Complete()
    {
      AddRequest(FormData(name, description, category, variants), Chosen(files))
    }

    /** onSubmitHandler: sends the request; a successful answer resets every field, a failed one changes nothing. */
    method Submit(success: bool) returns (request: AddRequest)
      modifies this
      ensures old(Valid()) ==> Valid()
      ensures request == old(Request())
      ensures success ==> Initial()
      ensures !success ==> (files == old(files) && name == old(name) && description == old(description)
                            && category == old(category) && variants == old(variants))
    {
      request := Request();
      if success {
        name := "";
        description := "";
        category := "";
        variants := [BlankVariant];
        files := [];
      }
    }
  }

  /** A row whose four inputs are filled with numbers where numbers belong. */
  predicate Filled(v: VariantInput)
  {
    v.unit != "" && NumberCast(v.weight).Some? && NumberCast(v.price).Some? && NumberCast(v.offerPrice).Some?
  }

  /**
   * A form with a name, a category and only filled rows passes the schema
   * once the server adds the uploaded URLs, and each row is stored as typed.
   */
  lemma FilledFormIsStored(id: Id, name: string, description: string, category: string,
                           variants: seq<VariantInput>, urls: seq<Url>)
    requires name != "" && IsIdText(category)
    requires forall i | 0 <= i < |variants| :: Filled(variants[i])
    ensures Validate(id, FormData(name, description, category, variants).(image := Some(urls))).Ok?
    ensures var p := Validate(id, FormData(name, description, category, variants).(image := Some(urls))).value;
      p.image == urls && p.inStock && |p.variants| == |variants|
      && Join(p.description, '\n') == description
      && forall i | 0 <= i < |variants| ::
           p.variants[i] == Variant(variants[i].unit, NumberCast(variants[i].weight).value,
                                    NumberCast(variants[i].price).value, NumberCast(variants[i].offerPrice).value)
  {
  }

  /** A row with any input left empty makes the whole add fail validation. */
  lemma BlankFieldRejected(id: Id, name: string, description: string, category: string,
                           variants: seq<VariantInput>, urls: seq<Url>, index: nat, field: Field)
    requires index < |variants| && TextOf(variants[index], field) == ""
    ensures Validate(id, FormData(name, description, category, variants).(image := Some(urls))).Err?
  {
  }
}
