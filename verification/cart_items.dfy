/**
 * The client cart (client/src/context/AppContext.jsx): a JavaScript object
 * from the key "<productId>|<variantIndex>" to a quantity, the lookup of a
 * key's variant in the loaded catalog, and the two totals derived from it.
 */
module CartItems {
  import opened Wrappers
  import Text
  import opened Sequences
  import opened ProductModel

  type Key = string

  /**
   * The `cartItems` object: its own keys in property order (insertion order;
   * a key holding "|" is never an integer-like name) and the value under each.
   */
  datatype Entries = Entries(keys: seq<Key>, qty: map<Key, int>)
  {
    predicate WellFormed()
    {
      Distinct(keys) && (forall k | k in keys :: k in qty) && (forall k | k in qty :: k in keys)
    }
  }

  /** The empty cart `{}`. */
  const Empty := Entries([], map[])

  /** Every stored quantity is positive. */
  predicate Positive(c: Entries)
  {
    forall k | k in c.qty :: c.qty[k] > 0
  }

  /** `{ ...c, [k]: v }`: only key k changes; an existing key keeps its place, a new one goes last. */
  function Put(c: Entries, k: Key, v: int): (r: Entries)
    requires c.WellFormed()
    ensures r.WellFormed()
    ensures r.qty == c.qty[k := v]
    ensures r.keys == if k in c.qty then c.keys else c.keys + [k]
  {
    Entries(if k in c.qty then c.keys else c.keys + [k], c.qty[k := v])
  }

  /** A copy of c with `delete copy[k]` applied: only key k goes, the others keep their order. */
  function Delete(c: Entries, k: Key): (r: Entries)
    requires c.WellFormed()
    ensures r.WellFormed()
    ensures r.qty == c.qty - {k}
    ensures k !in c.qty ==> r == c
    ensures k in c.qty ==> r.keys == c.keys[..IndexOf(c.keys, k)] + c.keys[IndexOf(c.keys, k) + 1..]
  {
    WithoutDistinct(c.keys, k);
    if k in c.qty then
      WithoutInOrder(c.keys, k);
      Entries(Without(c.keys, k), c.qty - {k})
    else
      Entries(Without(c.keys, k), c.qty - {k})
  }

  /** Deleting is idempotent. */
  lemma DeleteIdempotent(c: Entries, k: Key)
    requires c.WellFormed()
    ensures Delete(Delete(c, k), k) == Delete(c, k)
  {
  }

  // ---------------------------------------------------------------------------
  // The cart key

  /** `${productId}|${variantIndex}`: the id, a bar, then the index's decimal digits. */
  function MakeKey(productId: Id, variantIndex: nat): (key: Key)
    ensures |key| >= |productId| + 2
    ensures key[..|productId|] == productId && key[|productId|] == '|'
    ensures Text.AllDigits(key[|productId| + 1..])
  {
    var key := productId + "|" + Text.Decimal(variantIndex);
    assert key[|productId| + 1..] == Text.Decimal(variantIndex);
    key
  }

  /** The first part of `key.split("|")`. */
  function ProductIdOf(key: Key): Id
  {
    Text.Split(key, '|')[0]
  }

  /** The second part of `key.split("|")`, `undefined` when the key holds no "|". */
  function VariantPartOf(key: Key): Option<string>
  {
    var parts := Text.Split(key, '|');
    if |parts| >= 2 then Some(parts[1]) else None
  }

  /** Splitting a key built by addToCart gives back its product id and variant index. */
  lemma KeyRoundTrip(productId: Id, variantIndex: nat)
    requires '|' !in productId
    ensures ProductIdOf(MakeKey(productId, variantIndex)) == productId
    ensures VariantPartOf(MakeKey(productId, variantIndex)) == Some(Text.Decimal(variantIndex))
    ensures Text.ParseIndex(Text.Decimal(variantIndex)) == Some(variantIndex)
  {
    var d := Text.Decimal(variantIndex);
    assert '|' !in d by {
      forall i | 0 <= i < |d| ensures d[i] != '|' { assert Text.IsDigit(d[i]); }
    }
    Text.SplitAtSeparator(productId, '|', d);
    Text.SplitWithoutSeparator(d, '|');
    Text.DecimalRoundTrip(variantIndex);
  }

  /** Distinct (product, variant) pairs never share a cart line. */
  lemma MakeKeyInjective(p1: Id, v1: nat, p2: Id, v2: nat)
    requires '|' !in p1 && '|' !in p2
    requires MakeKey(p1, v1) == MakeKey(p2, v2)
    ensures p1 == p2 && v1 == v2
  {
    KeyRoundTrip(p1, v1);
    KeyRoundTrip(p2, v2);
  }

  // ---------------------------------------------------------------------------
  // Resolving a key in the loaded catalog

  /** `products.some(p => p._id === id)` */
  predicate Known(products: seq<Product>, id: Id)
  {
    exists i | 0 <= i < |products| :: products[i].id == id
  }

  /** `products.find(p => p._id === id)`: the first product with that id. */
  function Find(products: seq<Product>, id: Id): (r: Option<Product>)
    ensures r.Some? <==> Known(products, id)
    ensures r.Some? ==> r.value.id == id && r.value in products
  {
    if products == [] then None
    else if products[0].id == id then Some(products[0])
    else
      var r := Find(products[1..], id);
      assert Known(products, id) ==> Known(products[1..], id) by {
        if Known(products, id) {
          var i :| 0 <= i < |products| && products[i].id == id;
          assert products[1..][i - 1].id == id;
        }
      }
      r
  }

  /** find returns the first match: the one at index i when no earlier product has the id. */
  lemma {:induction false} FindFirst(products: seq<Product>, i: nat)
    requires i < |products|
    requires forall j | 0 <= j < i :: products[j].id != products[i].id
    ensures Find(products, products[i].id) == Some(products[i])
  {
    if i > 0 {
      FindFirst(products[1..], i - 1);
    }
  }

  /** `product.variants[part]`, where `part` is the text from the key (or `undefined`). */
  function VariantAt(p: Product, part: Option<string>): Option<Variant>
  {
    if part.None? then None
    else
      match Text.ParseIndex(part.value)
      case None => None
      case Some(i) => if i < |p.variants| then Some(p.variants[i]) else None
  }

  /** `products.find(...)?.variants?.[variantIndex]` for the parts of `key`. */
  function Resolve(products: seq<Product>, key: Key): (r: Option<Variant>)
    ensures r.Some? ==> Known(products, ProductIdOf(key))
    ensures r.Some? ==> r.value in Find(products, ProductIdOf(key)).value.variants
  {
    match Find(products, ProductIdOf(key))
    case None => None
    case Some(p) => VariantAt(p, VariantPartOf(key))
  }

  /** A key made by addToCart resolves exactly when its product is loaded and has that variant. */
  lemma ResolveMadeKey(products: seq<Product>, productId: Id, variantIndex: nat)
    requires '|' !in productId
    ensures Resolve(products, MakeKey(productId, variantIndex)).Some? <==>
      Known(products, productId) && variantIndex < |Find(products, productId).value.variants|
    ensures Resolve(products, MakeKey(productId, variantIndex)).Some? ==>
      Resolve(products, MakeKey(productId, variantIndex)).value == Find(products, productId).value.variants[variantIndex]
  {
    KeyRoundTrip(productId, variantIndex);
  }

  // ---------------------------------------------------------------------------
  // Totals

  /** Σ price(k) × qty[k] over `keys`, accumulated in key order. */
  function Weighted(keys: seq<Key>, qty: map<Key, int>, price: Key -> int): int
    requires forall k | k in keys :: k in qty
  {
    if keys == [] then 0
    else
      var last := keys[|keys| - 1];
      Weighted(keys[..|keys| - 1], qty, price) + price(last) * qty[last]
  }

  lemma {:induction false} WeightedFrame(keys: seq<Key>, qty: map<Key, int>, price: Key -> int, k: Key, v: int)
    requires forall x | x in keys :: x in qty
    requires k !in keys
    ensures Weighted(keys, qty[k := v], price) == Weighted(keys, qty, price)
  {
    if keys != [] {
      WeightedFrame(keys[..|keys| - 1], qty, price, k, v);
    }
  }

  lemma {:induction false} WeightedUpdate(keys: seq<Key>, qty: map<Key, int>, price: Key -> int, k: Key, v: int)
    requires forall x | x in keys :: x in qty
    requires Distinct(keys) && k in keys
    ensures Weighted(keys, qty[k := v], price) == Weighted(keys, qty, price) + price(k) * (v - qty[k])
  {
    var p, last := keys[..|keys| - 1], keys[|keys| - 1];
    assert keys == p + [last];
    assert Distinct(p);
    if last == k {
      assert k !in p by {
        forall i | 0 <= i < |p| ensures p[i] != k { assert keys[i] == p[i]; }
      }
      WeightedFrame(p, qty, price, k, v);
    } else {
      WeightedUpdate(p, qty, price, k, v);
    }
  }

  lemma {:induction false} WeightedRemove(keys: seq<Key>, qty: map<Key, int>, price: Key -> int, k: Key)
    requires forall x | x in keys :: x in qty
    requires Distinct(keys)
    ensures Weighted(Without(keys, k), qty - {k}, price)
      == Weighted(keys, qty, price) - (if k in keys then price(k) * qty[k] else 0)
  {
    if keys != [] {
      var p, last := keys[..|keys| - 1], keys[|keys| - 1];
      var rest := qty - {k};
      assert keys == p + [last];
      assert Distinct(p);
      WeightedRemove(p, qty, price, k);
      var w := Without(p, k);
      assert Weighted(keys, qty, price) == Weighted(p, qty, price) + price(last) * qty[last];
      if last == k {
        assert k !in p by {
          forall i | 0 <= i < |p| ensures p[i] != k { assert keys[i] == p[i]; }
        }
        assert Without(keys, k) == w == p;
      } else {
        assert Without(keys, k) == w + [last];
        assert (w + [last])[..|w + [last]| - 1] == w;
        assert rest[last] == qty[last];
        assert Weighted(w + [last], rest, price) == Weighted(w, rest, price) + price(last) * qty[last];
        assert (k in keys) == (k in p);
      }
    }
  }

  /** A sum whose every price is 0 is 0. */
  lemma {:induction false} WeightedZero(keys: seq<Key>, qty: map<Key, int>, price: Key -> int)
    requires forall k | k in keys :: k in qty && price(k) == 0
    ensures Weighted(keys, qty, price) == 0
  {
    if keys != [] {
      WeightedZero(keys[..|keys| - 1], qty, price);
    }
  }

  lemma {:induction false} WeightedAtLeastLength(keys: seq<Key>, qty: map<Key, int>)
    requires forall x | x in keys :: x in qty && qty[x] > 0
    ensures Weighted(keys, qty, One) >= |keys|
  {
    if keys != [] {
      WeightedAtLeastLength(keys[..|keys| - 1], qty);
    }
  }

  function One(k: Key): int { 1 }

  /** getCartCount: the sum of all stored quantities; with positive quantities, at least one per key. */
  function Count(c: Entries): (n: int)
    requires c.WellFormed()
    ensures c == Empty ==> n == 0
    ensures Positive(c) ==> n >= |c.keys|
  {
    if Positive(c) then
      WeightedAtLeastLength(c.keys, c.qty);
      Weighted(c.keys, c.qty, One)
    else
      Weighted(c.keys, c.qty, One)
  }

  /** The offer price a key contributes per unit: 0 when it does not resolve. */
  function OfferPriceOf(products: seq<Product>, key: Key): int
  {
    match Resolve(products, key)
    case Some(v) => v.offerPrice
    case None => 0
  }

  function Pricing(products: seq<Product>): Key -> int
  {
    k => OfferPriceOf(products, k)
  }

  /**
   * getCartAmount before rounding: Σ offerPrice × quantity over the entries
   * that resolve; a cart none of whose keys resolves totals 0.
   */
  function Amount(c: Entries, products: seq<Product>): (a: int)
    requires c.WellFormed()
    ensures (forall k | k in c.keys :: Resolve(products, k).None?) ==> a == 0
  {
    if forall k | k in c.keys :: Resolve(products, k).None? then
      WeightedZero(c.keys, c.qty, Pricing(products));
      Weighted(c.keys, c.qty, Pricing(products))
    else
      Weighted(c.keys, c.qty, Pricing(products))
  }

  /** The previous quantity under a key, 0 when absent. */
  function Prior(c: Entries, k: Key): int
  {
    if k in c.qty then c.qty[k] else 0
  }

  lemma WeightedPut(c: Entries, price: Key -> int, k: Key, v: int)
    requires c.WellFormed()
    ensures Weighted(Put(c, k, v).keys, Put(c, k, v).qty, price)
      == Weighted(c.keys, c.qty, price) + price(k) * (v - Prior(c, k))
  {
    if k in c.qty {
      WeightedUpdate(c.keys, c.qty, price, k, v);
    } else {
      WeightedFrame(c.keys, c.qty, price, k, v);
      var ks := c.keys + [k];
      assert ks[..|ks| - 1] == c.keys;
    }
  }

  /** The count changes by exactly the change in quantity of the one key written. */
  lemma CountPut(c: Entries, k: Key, v: int)
    requires c.WellFormed()
    ensures Count(Put(c, k, v)) == Count(c) + v - Prior(c, k)
  {
    WeightedPut(c, One, k, v);
  }

  /** Removing a key lowers the count by its quantity; an absent key changes nothing. */
  lemma CountDelete(c: Entries, k: Key)
    requires c.WellFormed()
    ensures Count(Delete(c, k)) == Count(c) - Prior(c, k)
  {
    WeightedRemove(c.keys, c.qty, One, k);
  }

  /** The amount changes by the written key's offer price times its change in quantity. */
  lemma AmountPut(c: Entries, products: seq<Product>, k: Key, v: int)
    requires c.WellFormed()
    ensures Amount(Put(c, k, v), products) == Amount(c, products) + OfferPriceOf(products, k) * (v - Prior(c, k))
  {
    WeightedPut(c, Pricing(products), k, v);
  }

  lemma AmountDelete(c: Entries, products: seq<Product>, k: Key)
    requires c.WellFormed()
    ensures Amount(Delete(c, k), products) == Amount(c, products) - OfferPriceOf(products, k) * Prior(c, k)
  {
    WeightedRemove(c.keys, c.qty, Pricing(products), k);
  }

  /** An entry whose product or variant does not resolve never changes the amount. */
  lemma AmountIgnoresUnresolved(c: Entries, products: seq<Product>, k: Key, v: int)
    requires c.WellFormed()
    requires Resolve(products, k).None?
    ensures Amount(Put(c, k, v), products) == Amount(c, products)
  {
    AmountPut(c, products, k, v);
  }

  /** With positive quantities the count is at least the number of lines, so it is 0 only for `{}`. */
  lemma CountPositive(c: Entries)
    requires c.WellFormed() && Positive(c)
    ensures Count(c) >= |c.keys|
    ensures Count(c) == 0 <==> c == Empty
  {
    WeightedAtLeastLength(c.keys, c.qty);
    if c.keys == [] {
      assert c.qty == map[];
    }
  }

  /** The worked example: `{ "p1|0": 2 }` with variant 0 of p1 offered at 50 totals 100 for 2 items. */
  lemma Example(p: Product)
    requires p.id == "p1" && |p.variants| >= 1 && p.variants[0].offerPrice == 50
    ensures Count(Entries(["p1|0"], map["p1|0" := 2])) == 2
    ensures Amount(Entries(["p1|0"], map["p1|0" := 2]), [p]) == 100
  {
    var c := Entries(["p1|0"], map["p1|0" := 2]);
    assert MakeKey("p1", 0) == "p1|0";
    ResolveMadeKey([p], "p1", 0);
    assert Find([p], "p1") == Some(p);
    assert c.keys[..0] == [];
  }
}
