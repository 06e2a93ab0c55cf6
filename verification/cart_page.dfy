/**
 * The cart view (client/src/pages/Cart.jsx): the lines it derives from the
 * cart object, the quantity selector, the line subtotal, and order placement
 * with its address guard, payload and cart clearing.
 */
module CartPage {
  import opened Wrappers
  import opened Sequences
  import opened ProductModel
  import opened CartItems
  import Text
  import AppContext

  /** An element of `cartArray`: the product spread out plus the line's own fields. */
  datatype CartLine = CartLine(
    product: Product,
    variant: Option<Variant>,     // None stands for the empty object `{}`
    variantIndex: Option<string>, // the text after "|", undefined when absent
    quantity: int,
    cartKey: Key)

  /** The filter of cartArray: a positive quantity and a product present in the catalog. */
  predicate Listed(c: Entries, products: seq<Product>, k: Key)
    requires k in c.qty
  {
    c.qty[k] > 0 && Known(products, ProductIdOf(k))
  }

  /** The map step of cartArray for one key. */
  function LineOf(c: Entries, products: seq<Product>, k: Key): CartLine
    requires k in c.qty && Known(products, ProductIdOf(k))
  {
    CartLine(Find(products, ProductIdOf(k)).value, Resolve(products, k), VariantPartOf(k), c.qty[k], k)
  }

  function Lines(keys: seq<Key>, c: Entries, products: seq<Product>): seq<CartLine>
    requires forall k | k in keys :: k in c.qty
  {
    if keys == [] then []
    else
      var last := keys[|keys| - 1];
      Lines(keys[..|keys| - 1], c, products)
        + (if Listed(c, products, last) then [LineOf(c, products, last)] else [])
  }

  /**
   * `cartArray`: every line is a key of the cart with a positive quantity and
   * a loaded product, carrying that key, its quantity and its product.
   */
  function CartArray(c: Entries, products: seq<Product>): (lines: seq<CartLine>)
    requires c.WellFormed()
    ensures forall i | 0 <= i < |lines| ::
      lines[i].cartKey in c.qty && Listed(c, products, lines[i].cartKey)
      && lines[i].quantity == c.qty[lines[i].cartKey] && lines[i].quantity > 0
      && lines[i].product.id == ProductIdOf(lines[i].cartKey)
  {
    LinesSpec(c.keys, c, products);
    Lines(c.keys, c, products)
  }

  function CartKeys(lines: seq<CartLine>): (keys: seq<Key>)
  {
    seq(|lines|, i requires 0 <= i < |lines| => lines[i].cartKey)
  }

  lemma {:induction false} LinesSpec(keys: seq<Key>, c: Entries, products: seq<Product>)
    requires Distinct(keys) && forall k | k in keys :: k in c.qty
    ensures forall i | 0 <= i < |Lines(keys, c, products)| ::
      Lines(keys, c, products)[i].cartKey in keys
      && Lines(keys, c, products)[i].cartKey in c.qty
      && Listed(c, products, Lines(keys, c, products)[i].cartKey)
      && Lines(keys, c, products)[i] == LineOf(c, products, Lines(keys, c, products)[i].cartKey)
    ensures forall k | k in keys && Listed(c, products, k) :: k in CartKeys(Lines(keys, c, products))
    ensures forall i, j | 0 <= i < j < |Lines(keys, c, products)| ::
      Lines(keys, c, products)[i].cartKey in keys && Lines(keys, c, products)[j].cartKey in keys
      && IndexOf(keys, Lines(keys, c, products)[i].cartKey) < IndexOf(keys, Lines(keys, c, products)[j].cartKey)
  {
    if keys != [] {
      var p, last := keys[..|keys| - 1], keys[|keys| - 1];
      assert keys == p + [last];
      assert Distinct(p);
      LinesSpec(p, c, products);
      var r' := Lines(p, c, products);
      var r := Lines(keys, c, products);
      forall x | x in p ensures IndexOf(keys, x) == IndexOf(p, x) < |p| {
        IndexOfAppend(p, last, x);
      }
      IndexOfUnique(keys, |keys| - 1);
      assert forall i | 0 <= i < |r'| :: r'[i].cartKey in p;
      if Listed(c, products, last) {
        var line := LineOf(c, products, last);
        assert r == r' + [line];
        assert CartKeys(r) == CartKeys(r') + [last];
        forall i | 0 <= i < |r| ensures r[i].cartKey in keys {
          if i < |r'| { assert r[i] == r'[i]; }
        }
        forall i, j | 0 <= i < j < |r|
          ensures r[i].cartKey in keys && r[j].cartKey in keys
          ensures IndexOf(keys, r[i].cartKey) < IndexOf(keys, r[j].cartKey)
        {
          assert r[i] == r'[i];
          if j < |r'| { assert r[j] == r'[j]; }
        }
      } else {
        assert r == r';
      }
    }
  }

  /**
   * cartArray holds exactly the keys with a positive quantity and a loaded
   * product, each once and in key order, each line carrying its key's quantity.
   */
  lemma CartArraySpec(c: Entries, products: seq<Product>)
    requires c.WellFormed()
    ensures forall i | 0 <= i < |CartArray(c, products)| ::
      CartArray(c, products)[i].cartKey in c.qty
      && Listed(c, products, CartArray(c, products)[i].cartKey)
      && CartArray(c, products)[i] == LineOf(c, products, CartArray(c, products)[i].cartKey)
    ensures forall k | k in c.qty && Listed(c, products, k) :: k in CartKeys(CartArray(c, products))
    ensures Distinct(CartKeys(CartArray(c, products)))
    ensures forall i, j | 0 <= i < j < |CartArray(c, products)| ::
      CartArray(c, products)[i].cartKey in c.keys && CartArray(c, products)[j].cartKey in c.keys
      && IndexOf(c.keys, CartArray(c, products)[i].cartKey) < IndexOf(c.keys, CartArray(c, products)[j].cartKey)
  {
    LinesSpec(c.keys, c, products);
    var r := CartArray(c, products);
    var ks := CartKeys(r);
    forall i, j | 0 <= i < j < |ks| ensures ks[i] != ks[j] {
      assert IndexOf(c.keys, r[i].cartKey) < IndexOf(c.keys, r[j].cartKey);
    }
  }

  /**
   * A line added through addToCart is listed while its product is loaded,
   * even when the variant index does not resolve (its variant is then `{}`).
   */
  lemma AddedLineListed(c: Entries, products: seq<Product>, productId: Id, variantIndex: nat)
    requires c.WellFormed() && '|' !in productId
    requires MakeKey(productId, variantIndex) in c.qty && c.qty[MakeKey(productId, variantIndex)] > 0
    requires Known(products, productId)
    ensures MakeKey(productId, variantIndex) in CartKeys(CartArray(c, products))
    ensures var r := CartArray(c, products);
      forall i | 0 <= i < |r| && r[i].cartKey == MakeKey(productId, variantIndex) ::
        r[i].product.id == productId
        && r[i].variantIndex == Some(Text.Decimal(variantIndex))
        && (r[i].variant.None? <==> variantIndex >= |Find(products, productId).value.variants|)
  {
    KeyRoundTrip(productId, variantIndex);
    ResolveMadeKey(products, productId, variantIndex);
    CartArraySpec(c, products);
  }

  /** The subtotal shown for a line; NaN (None) when the line's variant is `{}`. */
  function LineSubtotal(line: CartLine): (r: Option<int>)
    ensures r.Some? <==> line.variant.Some?
  {
    match line.variant
    case None => None
    case Some(v) => Some(v.offerPrice * line.quantity)
  }

  /** The sum of the subtotals that are numbers. */
  function SumSubtotals(lines: seq<CartLine>): int
  {
    if lines == [] then 0
    else
      var last := lines[|lines| - 1];
      SumSubtotals(lines[..|lines| - 1]) + (match LineSubtotal(last) case Some(s) => s case None => 0)
  }

  lemma {:induction false} LinesSumToWeighted(keys: seq<Key>, c: Entries, products: seq<Product>)
    requires forall k | k in keys :: k in c.qty
    requires Positive(c)
    ensures SumSubtotals(Lines(keys, c, products)) == Weighted(keys, c.qty, Pricing(products))
  {
    if keys != [] {
      var p, last := keys[..|keys| - 1], keys[|keys| - 1];
      LinesSumToWeighted(p, c, products);
      var r' := Lines(p, c, products);
      if Listed(c, products, last) {
        var line := LineOf(c, products, last);
        assert Lines(keys, c, products) == r' + [line];
        assert (r' + [line])[..|r' + [line]| - 1] == r';
      } else {
        assert Lines(keys, c, products) == r';
        assert Find(products, ProductIdOf(last)).None?;
        assert OfferPriceOf(products, last) == 0;
        assert Weighted(keys, c.qty, Pricing(products))
          == Weighted(p, c.qty, Pricing(products)) + Pricing(products)(last) * c.qty[last];
      }
    }
  }

  /**
   * With positive quantities, the lines' subtotals add up to getCartAmount:
   * a line whose variant does not resolve is shown but adds nothing.
   */
  lemma SubtotalsSumToAmount(c: Entries, products: seq<Product>)
    requires c.WellFormed() && Positive(c)
    ensures SumSubtotals(CartArray(c, products)) == Amount(c, products)
  {
    LinesSumToWeighted(c.keys, c, products);
  }

  /** The quantity selector's options: `Array(Math.max(quantity, 9))` labelled idx + 1. */
  function QuantityOptions(quantity: int): (options: seq<int>)
    ensures |options| == if quantity > 9 then quantity else 9
  {
    seq(if quantity > 9 then quantity else 9, i => i + 1)
  }

  /** The selector offers exactly 1 .. max(quantity, 9): never 0, always the current quantity. */
  lemma QuantityOptionsRange(quantity: int)
    ensures var options := QuantityOptions(quantity);
      forall x :: x in options <==> 1 <= x <= |options|
    ensures 0 !in QuantityOptions(quantity)
    ensures quantity >= 1 ==> quantity in QuantityOptions(quantity)
  {
    var options := QuantityOptions(quantity);
    forall x | 1 <= x <= |options| ensures x in options {
      assert options[x - 1] == x;
    }
  }

  // ---------------------------------------------------------------------------
  // placeOrder

  datatype Payment = CashOnDelivery | Online

  datatype OrderItem = OrderItem(product: Id, variantIndex: Option<string>, quantity: int)

  datatype OrderPayload = OrderPayload(userId: Id, items: seq<OrderItem>, address: Id)

  /** The request placeOrder sends: to the cash-on-delivery or to the gateway-order endpoint. */
  datatype Request = CodOrder(payload: OrderPayload) | GatewayOrder(payload: OrderPayload)

  /**
   * The server's answer. A transport failure is modelled as success == false;
   * the source's catch shows the error's own message instead.
   */
  datatype Response = Response(success: bool, message: string)

  /** What the user is shown. */
  datatype Outcome =
    | Notice(message: string)   // an error toast
    | NoSession                 // reading `user._id` of a null user throws; the catch shows it
    | Placed(message: string)   // success toast, then the order-history page
    | GatewayOpened             // the payment gateway's checkout is opened

  const SelectAddressMessage := "Please select an address"
  const GatewayFailedMessage := "Failed to create Razorpay order"

  function ItemOf(line: CartLine): OrderItem
  {
    OrderItem(line.product.id, line.variantIndex, line.quantity)
  }

  /** `cartArray.map(item => ({ product, variantIndex, quantity }))`: one item per line, in order. */
  function Items(lines: seq<CartLine>): (items: seq<OrderItem>)
    ensures |items| == |lines|
    ensures forall i | 0 <= i < |lines| :: items[i] == ItemOf(lines[i])
  {
    if lines == [] then []
    else Items(lines[..|lines| - 1]) + [ItemOf(lines[|lines| - 1])]
  }

  /** The number of units an order asks for. */
  function Units(items: seq<OrderItem>): int
  {
    if items == [] then 0
    else Units(items[..|items| - 1]) + items[|items| - 1].quantity
  }

  lemma ItemsAppend(lines: seq<CartLine>, line: CartLine)
    ensures Items(lines + [line]) == Items(lines) + [ItemOf(line)]
  {
    assert (lines + [line])[..|lines|] == lines;
  }

  lemma UnitsAppend(items: seq<OrderItem>, item: OrderItem)
    ensures Units(items + [item]) == Units(items) + item.quantity
  {
    assert (items + [item])[..|items|] == items;
  }

  /** Every key is in the cart and passes cartArray's filter. */
  predicate AllListed(keys: seq<Key>, c: Entries, products: seq<Product>)
  {
    forall k | k in keys :: k in c.qty && Listed(c, products, k)
  }

  /** The count of the keys is the count of all but the last plus the last one's quantity. */
  lemma CountLast(keys: seq<Key>, qty: map<Key, int>)
    requires keys != [] && forall k | k in keys :: k in qty
    ensures Weighted(keys, qty, One) == Weighted(keys[..|keys| - 1], qty, One) + qty[keys[|keys| - 1]]
  {
    assert One(keys[|keys| - 1]) == 1;
  }

  lemma {:induction false} LinesUnits(keys: seq<Key>, c: Entries, products: seq<Product>)
    requires AllListed(keys, c, products)
    ensures Units(Items(Lines(keys, c, products))) == Weighted(keys, c.qty, One)
  {
    if keys != [] {
      var p, last := keys[..|keys| - 1], keys[|keys| - 1];
      assert AllListed(p, c, products) by {
        forall k | k in p ensures k in keys { assert k == keys[IndexOf(p, k)]; }
      }
      LinesUnits(p, c, products);
      var before := Lines(p, c, products);
      var line := LineOf(c, products, last);
      assert Lines(keys, c, products) == before + [line];
      ItemsAppend(before, line);
      UnitsAppend(Items(before), ItemOf(line));
      CountLast(keys, c.qty);
    }
  }

  /**
   * When every product in the cart is loaded and every quantity is positive,
   * the order asks for exactly getCartCount units.
   */
  lemma OrderUnitsMatchCount(c: Entries, products: seq<Product>)
    requires c.WellFormed() && Positive(c)
    requires forall k | k in c.keys :: Known(products, ProductIdOf(k))
    ensures Units(Items(CartArray(c, products))) == Count(c)
  {
    assert AllListed(c.keys, c, products);
    LinesUnits(c.keys, c, products);
  }

  /**
   * The payload items are cartArray projected one to one and in order: each
   * names its key's product id, the variant text after "|" and the stored quantity,
   * which is positive.
   */
  lemma PayloadItems(c: Entries, products: seq<Product>)
    requires c.WellFormed()
    ensures var lines := CartArray(c, products);
      var items := Items(lines);
      |items| == |lines|
      && forall i | 0 <= i < |items| ::
        lines[i].cartKey in c.qty
        && items[i] == OrderItem(ProductIdOf(lines[i].cartKey), VariantPartOf(lines[i].cartKey), c.qty[lines[i].cartKey])
        && items[i].quantity > 0
  {
    CartArraySpec(c, products);
  }

  /** The item for a key made by addToCart names that product and that variant index. */
  lemma ItemOfAddedLine(c: Entries, products: seq<Product>, productId: Id, variantIndex: nat)
    requires c.WellFormed() && '|' !in productId
    ensures var items := Items(CartArray(c, products));
      forall i | 0 <= i < |items| && CartArray(c, products)[i].cartKey == MakeKey(productId, variantIndex) ::
        items[i].product == productId && items[i].variantIndex.Some?
        && Text.ParseIndex(items[i].variantIndex.value) == Some(variantIndex)
  {
    KeyRoundTrip(productId, variantIndex);
    PayloadItems(c, products);
  }

  /**
   * placeOrder. Without a selected address it stops before building a payload;
   * without a user, reading its id throws before any request. Otherwise the
   * payload is sent; only a successful cash-on-delivery answer empties the cart.
   */
  method PlaceOrder(app: AppContext.AppState, user: Option<Id>, selectedAddress: Option<Id>,
                    payment: Payment, response: Response)
    returns (sent: Option<Request>, outcome: Outcome)
    requires app.Valid()
    modifies app
    ensures app.Valid() && app.products == old(app.products)
    ensures selectedAddress.None? ==> sent.None? && outcome == Notice(SelectAddressMessage)
    ensures selectedAddress.Some? && user.None? ==> sent.None? && outcome == NoSession
    ensures selectedAddress.Some? && user.Some? ==>
      var payload := OrderPayload(user.value, Items(CartArray(old(app.cartItems), app.products)), selectedAddress.value);
      sent == Some(if payment == CashOnDelivery then CodOrder(payload) else GatewayOrder(payload))
    ensures sent.Some? && payment == CashOnDelivery ==>
      outcome == if response.success then Placed(response.message) else Notice(response.message)
    ensures sent.Some? && payment == Online ==>
      outcome == if response.success then GatewayOpened else Notice(GatewayFailedMessage)
    ensures app.cartItems == if sent.Some? && payment == CashOnDelivery && response.success
                             then Empty else old(app.cartItems)
  {
    if selectedAddress.None? {
      return None, Notice(SelectAddressMessage);
    }
    if user.None? {
      return None, NoSession;
    }
    var payload := OrderPayload(user.value, Items(CartArray(app.cartItems, app.products)), selectedAddress.value);
    if payment == CashOnDelivery {
      sent := Some(CodOrder(payload));
      if response.success {
        outcome := Placed(response.message);
        app.SetCartItems(Empty);
      } else {
        outcome := Notice(response.message);
      }
    } else {
      sent := Some(GatewayOrder(payload));
      outcome := if response.success then GatewayOpened else Notice(GatewayFailedMessage);
    }
  }
}
