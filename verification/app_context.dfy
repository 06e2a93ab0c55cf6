/**
 * The client state container (client/src/context/AppContext.jsx): the cart
 * object and the loaded catalog, with the cart mutations and the two totals.
 */
module AppContext {
  import opened Wrappers
  import opened ProductModel
  import opened CartItems
  import Text

  class AppState {
    /** The `cartItems` state. */
    var cartItems: Entries
    /** The `products` state: the catalog as last fetched. */
    var products: seq<Product>

    ghost predicate Valid()
      reads this
    {
      cartItems.WellFormed()
    }

    constructor ()
      ensures Valid() && cartItems == Empty && products == []
    {
      cartItems := Empty;
      products := [];
    }

    /** `setCartItems(items)` */
    method SetCartItems(items: Entries)
      requires items.WellFormed()
      modifies this
      ensures Valid() && cartItems == items && products == old(products)
    {
      cartItems := items;
    }

    /** addToCart: one more of the variant, 1 if the key was absent; nothing else changes. */
    method AddToCart(productId: Id, variantIndex: nat)
      requires Valid()
      modifies this
      ensures Valid() && products == old(products)
      ensures var key := MakeKey(productId, variantIndex);
        cartItems == Put(old(cartItems), key, Prior(old(cartItems), key) + 1)
      ensures Count(cartItems) == old(Count(cartItems)) + 1
      ensures Positive(old(cartItems)) ==> Positive(cartItems)
    {
      var key := productId + "|" + Text.Decimal(variantIndex);
      var prev := cartItems;
      // prev[key] ? prev[key] + 1 : 1 -- a stored 0 is falsy and also yields 1
      var next := if key in prev.qty && prev.qty[key] != 0 then prev.qty[key] + 1 else 1;
      cartItems := Put(prev, key, next);
      CountPut(prev, key, next);
    }

    /** removeFromCart: only `cartKey` goes; an absent key leaves the cart as it was. */
    method RemoveFromCart(cartKey: Key)
      requires Valid()
      modifies this
      ensures Valid() && products == old(products)
      ensures cartItems == Delete(old(cartItems), cartKey)
      ensures cartKey !in cartItems.qty
      ensures Count(cartItems) == old(Count(cartItems)) - Prior(old(cartItems), cartKey)
      ensures Positive(old(cartItems)) ==> Positive(cartItems)
    {
      var prev := cartItems;
      cartItems := Delete(prev, cartKey);
      CountDelete(prev, cartKey);
    }

    /** updateCartItem: a quantity <= 0 removes the key, any other is stored as given. */
    method UpdateCartItem(cartKey: Key, quantity: int)
      requires Valid()
      modifies this
      ensures Valid() && products == old(products)
      ensures quantity <= 0 ==> cartItems == Delete(old(cartItems), cartKey)
      ensures quantity > 0 ==> cartItems == Put(old(cartItems), cartKey, quantity)
      ensures cartKey in cartItems.qty ==> cartItems.qty[cartKey] > 0
      ensures Positive(old(cartItems)) ==> Positive(cartItems)
    {
      if quantity <= 0 {
        RemoveFromCart(cartKey);
      } else {
        cartItems := Put(cartItems, cartKey, quantity);
      }
    }

    /** getCartCount: 0 for `{}`; with positive quantities, at least one per line and 0 only for `{}`. */
    function GetCartCount(): (count: int)
      reads this
      requires Valid()
      ensures cartItems == Empty ==> count == 0
      ensures Positive(cartItems) ==> count >= |cartItems.keys| && (count == 0 <==> cartItems == Empty)
    {
      if Positive(cartItems) then
        CountPositive(cartItems);
        Count(cartItems)
      else
        Count(cartItems)
    }

    /** getCartAmount (before display rounding): the `for...in` loop over the cart's keys. */
    method GetCartAmount() returns (totalAmount: int)
      requires Valid()
      ensures totalAmount == Amount(cartItems, products)
    {
      totalAmount := 0;
      var keys := cartItems.keys;
      for i := 0 to |keys|
        invariant totalAmount == Weighted(keys[..i], cartItems.qty, Pricing(products))
      {
        var key := keys[i];
        var product := Find(products, ProductIdOf(key));
        var variant := if product.Some? then VariantAt(product.value, VariantPartOf(key)) else None;
        if variant.Some? {
          totalAmount := totalAmount + variant.value.offerPrice * cartItems.qty[key];
        }
        assert keys[..i + 1][..i] == keys[..i];
      }
      assert keys[..|keys|] == keys;
    }
  }
}
