# Farmpick storefront core in Dafny

Farmpick is a grocery storefront. Shoppers collect product variants in a
cart and place orders. Sellers add, edit, restock and delete products. This
project models the logic behind those actions and proves properties of it:

- the client cart (`cartItems`), a JavaScript object from the key
  `"<productId>|<variantIndex>"` to a quantity, with its mutations and its two
  totals (`AppContext.jsx`);
- the cart page: the lines it derives from the cart, the quantity selector,
  the line subtotal, and order placement with its address guard, payload and
  cart clearing (`Cart.jsx`);
- the product document and its schema check (`Product.js`);
- the product request handlers over an in-memory collection
  (`productController.js`);
- the seller's add form and the edit dialog of the seller's product list
  (`AddProduct.jsx`, `ProductList.jsx`).

Files, one module each:

| file | module | models |
|---|---|---|
| `wrappers.dfy` | `Wrappers` | `Option` and `Result` |
| `text.dfy` | `Text` | `split`/`join` on one character, decimal text of an index, the array-index rule for property names, number casting of form text |
| `seqs.dfy` | `Sequences` | distinct sequences, removal of one element, index of an element |
| `product.dfy` | `ProductModel` | the product document, submitted data, the schema's required paths and defaults |
| `cart_items.dfy` | `CartItems` | the cart object (ordered keys plus values), the key format, resolving a key in the catalog, the count and the amount |
| `app_context.dfy` | `AppContext` | class `AppState`: the cart and catalog state with `addToCart`, `updateCartItem`, `removeFromCart`, `getCartCount`, `getCartAmount` |
| `cart_page.dfy` | `CartPage` | `cartArray`, subtotals, quantity options, `placeOrder` |
| `product_controller.dfy` | `ProductController` | class `ProductStore` with `addProduct`, `productList`, `productById`, `changeStock`, `editProduct`, `deleteProduct` |
| `add_product.dfy` | `AddProductPage` | class `AddProductForm`: variant rows, image slots, the submitted request, reset on success |
| `product_list.dfy` | `ProductListPage` | class `ProductListPage`: the edit buffer, variant edits, the save request, the stock toggle request |

Modelling choices:

- Prices, weights and quantities are integers (smallest currency unit).
- The cart object keeps its keys in property order. Spreading a new key
  into a copy appends it. Overwriting an existing key keeps its place.
  `delete` removes the key and keeps the order of the rest. A cart key
  always holds `"|"`, so it is never an integer-like property name, and
  property order is insertion order.
- `variants[text]` finds a variant only when the text is the canonical
  decimal form of an index ("0", "1", ..., no leading zero), as JavaScript
  property lookup on an array does.
- The server's image host is a parameter `upload: File -> Option<Url>`.
  `None` means that upload was rejected. The id a new document gets is a
  parameter too.
- Server answers reach the client pages as a `success` flag (and, for orders,
  a message).
- Mongoose behaviour that the handlers rely on:
  - a required String path rejects `""`;
  - a required Array path accepts any array, even an empty one;
  - an array path that is absent defaults to `[]`, and `inStock` to true;
  - an ObjectId (the category, and the id given to `findById`,
    `findByIdAndUpdate` and `findByIdAndDelete`) casts only from 24 hex
    digits; any other text, `""` included, is a cast error;
  - a Number path casts `""` to null, which fails `required`;
  - `findByIdAndUpdate` runs no validators, but it still casts the id and the
    update, so a category that is not an id fails; for an unknown id it
    changes nothing and does not fail;
  - inserting a document whose id is taken fails.

Facts about the code that the model keeps as written:

- The schema puts no sign or range constraint on a variant's weight, price
  or offer price; it only requires them (`ProductModel.NumbersUnconstrained`).
- With no new files, `editProduct` stores whatever `image` the submitted
  data carries (`ProductController.EditWithoutFilesKeepsImages`). The seller
  dialog sends the buffer's own `image` list back, so through the dialog the
  stored images are kept (`ProductListPage.ProductListPage.SaveRequest`).
- `changeStock` stores the flag it is sent. The flip happens in the client,
  which sends the negation of the shown flag (`ProductListPage.StockRequest`).
- Cart quantities stay positive only if they were positive before:
  `addToCart` stores `1` over a stored `0`, and `updateCartItem` never stores
  a non-positive value (`AppContext.AppState.AddToCart`,
  `AppContext.AppState.UpdateCartItem`). The cart page lists only positive
  quantities (`CartPage.CartArray`).

## Model

| member | source | states |
|---|---|---|
| Text.Split | client/src/pages/seller/AddProduct.jsx:41 | `split` on one character gives at least one part, and no part contains the separator |
| Text.JoinSplit | client/src/pages/seller/ProductList.jsx:121-125 | joining the parts of a split text gives the text back |
| Text.SplitJoin | client/src/pages/seller/ProductList.jsx:121-125 | splitting the joined description gives the lines back, when there is at least one line and none contains a newline |
| Text.SplitAtSeparator | client/src/context/AppContext.jsx:111 | splitting `a`, the bar, then `b` on the bar gives `a` followed by the parts of `b`, when `a` has no bar |
| Text.Decimal | client/src/context/AppContext.jsx:75 | an index's text is non-empty and all digits, and starts with "0" only for index 0 |
| Text.ParseIndex | client/src/context/AppContext.jsx:113 | a key's variant text names an array element exactly when it is a canonical decimal |
| Text.DecimalRoundTrip | client/src/context/AppContext.jsx:75 | reading back the text written for an index gives that index |
| Text.ParseIndexCanonical | client/src/context/AppContext.jsx:113 | text read as index `n` is exactly the text written for `n` |
| Text.NumberCast | server/models/Product.js:15-17 | the empty text casts to null, and a digit string casts to its value |
| Text.NumberCastRoundTrip | server/models/Product.js:15-17 | the text of any integer casts back to that integer |
| Sequences.Without | client/src/context/AppContext.jsx:96-101 | removing `x` keeps every other element and drops only `x`; without `x` nothing changes |
| Sequences.WithoutInOrder | client/src/context/AppContext.jsx:96-101 | removing a present key from a duplicate-free list cuts it out: the keys before and after it keep their order |
| Sequences.WithoutDistinct | client/src/context/AppContext.jsx:96-101 | removal keeps the keys distinct and shortens them by one exactly when `x` was present |
| ProductModel.BuildVariant | server/models/Product.js:12-19 | a stored variant holds exactly the submitted values of its four paths |
| ProductModel.Validate | server/models/Product.js:3-21 | creation succeeds exactly when the name is non-empty text, the category is an ObjectId and every variant path is present; the document holds the submitted values; an absent `description`, `image` or `variants` becomes `[]` and an absent `inStock` true |
| ProductModel.NumbersUnconstrained | server/models/Product.js:15-17 | any weight, price and offer price, negative ones included, pass a variant's checks |
| CartItems.MakeKey | client/src/context/AppContext.jsx:75 | a key is the product id, the bar, then a non-empty run of digits |
| CartItems.Resolve | client/src/context/AppContext.jsx:111-114 | a key resolves only when its product is loaded, and only to one of that product's variants |
| CartItems.Count | client/src/context/AppContext.jsx:104-106 | the empty cart counts 0; with positive quantities the count is at least the number of keys |
| CartItems.Amount | client/src/context/AppContext.jsx:108-117 | when no key resolves to a variant, the amount is 0 |
| CartItems.Put | client/src/context/AppContext.jsx:76-79 | writing one key changes only that key; an existing key keeps its place and a new one goes last |
| CartItems.Delete | client/src/context/AppContext.jsx:97-101 | deleting one key removes only that key and the other keys keep their order; an absent key leaves the cart equal to before |
| CartItems.DeleteIdempotent | client/src/context/AppContext.jsx:96-102 | removing the same key twice equals removing it once |
| CartItems.KeyRoundTrip | client/src/context/AppContext.jsx:75 | splitting a key made by addToCart on the bar gives back its product id and variant index, when the id has no bar |
| CartItems.MakeKeyInjective | client/src/context/AppContext.jsx:75 | different (product, variant) pairs never share a key |
| CartItems.Find | client/src/context/AppContext.jsx:112 | `find` returns a product exactly when one has the id, and the one it returns has that id and is in the catalog |
| CartItems.FindFirst | client/src/context/AppContext.jsx:112 | `find` returns the first product with the id |
| CartItems.ResolveMadeKey | client/src/context/AppContext.jsx:111-114 | a key made by addToCart resolves exactly when its product is loaded and has that variant, and it resolves to that variant |
| CartItems.WeightedUpdate | client/src/context/AppContext.jsx:108-117 | changing one key's quantity changes the weighted sum by the key's price times the change |
| CartItems.WeightedRemove | client/src/context/AppContext.jsx:108-117 | removing one key lowers the weighted sum by that key's share; an absent key changes nothing |
| CartItems.CountPut | client/src/context/AppContext.jsx:104-106 | writing `v` under a key changes the count by `v` minus the previous quantity |
| CartItems.CountDelete | client/src/context/AppContext.jsx:104-106 | removing a key lowers the count by its quantity |
| CartItems.AmountPut | client/src/context/AppContext.jsx:108-117 | writing `v` under a key changes the amount by its offer price times the change in quantity |
| CartItems.AmountDelete | client/src/context/AppContext.jsx:108-117 | removing a key lowers the amount by its offer price times its quantity |
| CartItems.AmountIgnoresUnresolved | client/src/context/AppContext.jsx:113-116 | an entry whose product or variant does not resolve never changes the amount |
| CartItems.CountPositive | client/src/context/AppContext.jsx:104-106 | with positive quantities the count is at least the number of keys, and it is 0 exactly for the empty cart |
| CartItems.Example | client/src/context/AppContext.jsx:104-117 | the cart holding 2 of variant 0 of "p1", offered at 50, counts 2 and totals 100 |
| AppContext.AppState.constructor | client/src/context/AppContext.jsx:24-25 | the context starts with the empty cart `{}` and an empty catalog |
| AppContext.AppState.SetCartItems | client/src/context/AppContext.jsx:44 | replaces the cart with the loaded one and keeps the catalog |
| AppContext.AppState.AddToCart | client/src/context/AppContext.jsx:74-83 | stores the old quantity + 1 under the key, or 1 if it was absent or 0; only that key changes; the count rises by 1; positivity is kept |
| AppContext.AppState.RemoveFromCart | client/src/context/AppContext.jsx:96-102 | deletes only that key; the count falls by its quantity; positivity is kept |
| AppContext.AppState.UpdateCartItem | client/src/context/AppContext.jsx:85-94 | a quantity <= 0 removes the key; any other quantity is stored as given; never stores a non-positive value; positivity is kept |
| AppContext.AppState.GetCartCount | client/src/context/AppContext.jsx:104-106 | 0 for the empty cart; with positive quantities, at least one per line and 0 only for the empty cart |
| AppContext.AppState.GetCartAmount | client/src/context/AppContext.jsx:108-119 | the loop's total is the sum of offer price × quantity over the entries that resolve in the catalog |
| CartPage.CartArray | client/src/pages/Cart.jsx:19-31 | every line comes from a key of the cart with a positive quantity and a loaded product, carries that key's quantity, and its product has the key's id |
| CartPage.LinesSpec | client/src/pages/Cart.jsx:19-31 | the derived lines are exactly the listed keys, each once and in key order, each line built from its own key |
| CartPage.CartArraySpec | client/src/pages/Cart.jsx:19-31 | `cartArray` holds exactly the keys with a positive quantity and a loaded product, each once and in key order, with that key's quantity and key |
| CartPage.AddedLineListed | client/src/pages/Cart.jsx:23-30 | a line added by addToCart is listed while its product is loaded; it has an empty variant exactly when the index is out of range, and it is still kept |
| CartPage.LineSubtotal | client/src/pages/Cart.jsx:180 | a line's subtotal is a number exactly when its variant resolved |
| CartPage.LinesSumToWeighted | client/src/pages/Cart.jsx:180 | with positive quantities, the subtotals of the derived lines add up to the weighted sum over their keys |
| CartPage.SubtotalsSumToAmount | client/src/pages/Cart.jsx:180 | with positive quantities, the subtotals on the page add up to getCartAmount |
| CartPage.QuantityOptions | client/src/pages/Cart.jsx:171-172 | the selector has max(quantity, 9) options |
| CartPage.QuantityOptionsRange | client/src/pages/Cart.jsx:171-172 | the options are exactly 1 .. max(quantity, 9): never 0, and always the current quantity |
| CartPage.Items | client/src/pages/Cart.jsx:64-71 | one payload item per line, in line order, each the projection of its line |
| CartPage.OrderUnitsMatchCount | client/src/pages/Cart.jsx:64-71 | with positive quantities and every product loaded, the quantities in the order payload add up to getCartCount |
| CartPage.PayloadItems | client/src/pages/Cart.jsx:64-71 | the payload items project `cartArray` one to one and in order, onto each key's product id, variant text and positive quantity |
| CartPage.ItemOfAddedLine | client/src/pages/Cart.jsx:66-70 | the item for a key made by addToCart names that product and a variant text that reads back as that index |
| CartPage.PlaceOrder | client/src/pages/Cart.jsx:60-125 | no selected address stops before any request; otherwise the payload goes to the endpoint for the payment option; only a successful cash-on-delivery answer empties the cart |
| ProductController.UploadAll | server/controllers/productController.js:11-16 | the upload succeeds exactly when every file's upload does, and then gives one URL per file, in file order |
| ProductController.Patched | server/controllers/productController.js:94 | an update keeps the document's id; each of the six paths the update carries takes the carried value, and every path it does not carry keeps its stored value; the empty update changes nothing |
| ProductController.PatchedIdempotent | server/controllers/productController.js:94 | applying the same update twice equals applying it once |
| ProductController.PatchedCompose | server/controllers/productController.js:94 | two successive updates store what one merged update stores, where a path the later update carries overrides the earlier one |
| ProductController.PatchOfRoundTrip | server/controllers/productController.js:94 | an update carrying a whole record stores that record under the target id |
| ProductController.EditPatch | server/controllers/productController.js:90-92 | the update's `image` becomes the uploaded URLs when there is at least one; otherwise the data is unchanged |
| ProductController.WithStock | server/controllers/productController.js:59 | sets the flag of that product only; the other documents and ids are unchanged |
| ProductController.WithStockIdempotent | server/controllers/productController.js:56-60 | setting the same stock flag twice equals setting it once |
| ProductController.EditWithoutFilesKeepsImages | server/controllers/productController.js:76-94 | with no files the stored images are those the data carries, or the old ones if it carries none |
| ProductController.ProductStore.AddProduct | server/controllers/productController.js:5-28 | succeeds exactly when the data parses, every upload succeeds, the id is new and the schema accepts the data; the new document's `image` is the uploaded URLs; a failure leaves the collection unchanged |
| ProductController.ProductStore.ProductList | server/controllers/productController.js:31-39 | returns every stored product exactly once, and nothing else |
| ProductController.ProductStore.ProductById | server/controllers/productController.js:43-53 | fails exactly when the id does not cast; otherwise answers the stored document under that id, or none when no document has it |
| ProductController.ProductStore.ChangeStock | server/controllers/productController.js:56-65 | succeeds exactly when the id casts; then sets that product's `inStock` and nothing else, and an unknown id changes nothing; a failure changes nothing |
| ProductController.ProductStore.EditProduct | server/controllers/productController.js:70-101 | succeeds exactly when the data parses, every upload succeeds, the id casts and any category in the data is an id; applies the data to that document only; `image` is replaced only by a non-empty upload, and then holds the uploaded URLs in file order; a failure, or an unknown id, leaves the collection unchanged |
| ProductController.ProductStore.DeleteProduct | server/controllers/productController.js:107-116 | succeeds exactly when the id casts; then removes exactly that id and keeps the other documents; a failure changes nothing |
| AddProductPage.WithText | client/src/pages/seller/AddProduct.jsx:80-84 | setting one field of a row sets that field to the value and leaves the other three unchanged |
| AddProductPage.RemovedAt | client/src/pages/seller/AddProduct.jsx:74-78 | `splice(index, 1)` drops exactly that row and keeps the order of the others; an index past the end changes nothing |
| AddProductPage.Cast | client/src/pages/seller/AddProduct.jsx:39-44 | a row passes the schema's variant checks exactly when its unit and its three numbers are filled in, and then it is stored as typed |
| AddProductPage.FormData | client/src/pages/seller/AddProduct.jsx:39-44 | the submitted data has the name and category as typed, no image, at least one description line, no line holding a newline, lines that join back to the typed text, and one cast row per variant row |
| AddProductPage.Chosen | client/src/pages/seller/AddProduct.jsx:48-50 | the request carries the file of every filled slot and no others; with no empty slots, one file per slot |
| AddProductPage.ChosenAppend | client/src/pages/seller/AddProduct.jsx:48-50 | the files of two runs of slots are the files of the first run followed by those of the second, so slot order is kept |
| AddProductPage.ChosenSlot | client/src/pages/seller/AddProduct.jsx:48-50 | one slot contributes its file when filled and nothing when empty |
| AddProductPage.AddProductForm.constructor | client/src/pages/seller/AddProduct.jsx:7-14 | the form opens with no files, empty text and exactly one blank variant row |
| AddProductPage.AddProductForm.AddVariant | client/src/pages/seller/AddProduct.jsx:70-72 | appends one blank row and keeps the earlier rows |
| AddProductPage.AddProductForm.RemoveVariant | client/src/pages/seller/AddProduct.jsx:74-78 | removes exactly the row at `index` (an index past the end changes nothing); the control is shown only with more than one row, and from such a state at least one row remains |
| AddProductPage.AddProductForm.UpdateVariant | client/src/pages/seller/AddProduct.jsx:80-84 | changes only the given field of the given row |
| AddProductPage.AddProductForm.ChooseImage | client/src/pages/seller/AddProduct.jsx:92-98 | sets only slot `index` (0..3); any slots between the old end and `index` become empty |
| AddProductPage.AddProductForm.Request | client/src/pages/seller/AddProduct.jsx:39-50 | the submitted data passes the schema, with any uploaded URLs added, exactly when the form is complete: a name, a category id and every row filled in |
| AddProductPage.AddProductForm.Submit | client/src/pages/seller/AddProduct.jsx:35-68 | sends the form's request; a successful answer resets every field to its initial value; a failed one changes nothing |
| AddProductPage.FilledFormIsStored | client/src/pages/seller/AddProduct.jsx:39-44 | a form with a name, a category id and fully filled rows passes the schema once the URLs are added; every row is stored as typed and the description joins back to the typed text |
| AddProductPage.BlankFieldRejected | client/src/pages/seller/AddProduct.jsx:39-44 | one empty input in any row makes the add fail validation |
| ProductListPage.InputNumber | client/src/pages/seller/ProductList.jsx:173 | `Number` of an empty input is 0, and of an integer text its value |
| ProductListPage.EditedVariant | client/src/pages/seller/ProductList.jsx:160-196 | an edit sets one variant field to the input's value and leaves the other three unchanged |
| ProductListPage.StockRequest | client/src/pages/seller/ProductList.jsx:79 | the toggle asks for that product's id with the negation of its shown flag |
| ProductListPage.ToggleFlips | client/src/pages/seller/ProductList.jsx:79 | the toggle request stored by the server flips that product's flag |
| ProductListPage.ToggleTwiceRestores | client/src/pages/seller/ProductList.jsx:32-44 | toggling twice, from the refreshed list each time, restores the collection |
| ProductListPage.ProductListPage.constructor | client/src/pages/seller/ProductList.jsx:9-11 | the page starts with the dialog closed, no product in the buffer (`{}`) and no new images |
| ProductListPage.ProductListPage.HandleEdit | client/src/pages/seller/ProductList.jsx:13-17 | opens the dialog on the product itself (the model holds its value) and clears the new images |
| ProductListPage.ProductListPage.SetName | client/src/pages/seller/ProductList.jsx:113-115 | changes only the buffer's name |
| ProductListPage.ProductListPage.DescriptionText | client/src/pages/seller/ProductList.jsx:121 | splitting the shown text gives back the buffer's lines exactly when there is at least one line and none holds a newline |
| ProductListPage.ProductListPage.SetDescriptionText | client/src/pages/seller/ProductList.jsx:122-127 | stores the typed text split into lines, which join back to the typed text |
| ProductListPage.ProductListPage.SetCategory | client/src/pages/seller/ProductList.jsx:134-136 | changes only the buffer's category |
| ProductListPage.ProductListPage.SetImages | client/src/pages/seller/ProductList.jsx:146 | the chosen files replace the list of new images |
| ProductListPage.ProductListPage.EditVariant | client/src/pages/seller/ProductList.jsx:160-196 | changes only the given field of the given variant in the buffer |
| ProductListPage.ProductListPage.AddVariant | client/src/pages/seller/ProductList.jsx:202-209 | appends `{unit: "", weight: 0, price: 0, offerPrice: 0}` and keeps the other variants |
| ProductListPage.ProductListPage.SaveRequest | client/src/pages/seller/ProductList.jsx:220-225 | the request targets the buffer's id; applied to the stored product with no new files it stores exactly the buffer, images included; with new files, the buffer with `image` replaced by the uploaded URLs; the update casts exactly when the buffer's category is an id |
| ProductListPage.ProductListPage.Save | client/src/pages/seller/ProductList.jsx:219-242 | sends the save request; a successful answer closes the dialog; the buffer and images stay |
| ProductListPage.ProductListPage.Cancel | client/src/pages/seller/ProductList.jsx:248 | closes the dialog and keeps the buffer |

## Left out

- HTTP transport, toasts, navigation, `window.confirm` and the cart animation timer: server answers are inputs, and the user-visible result is an `Outcome` value.
- Online payment (`Cart.jsx` lines 88-121): the model stops where the gateway's checkout opens. The gateway and its signature check are outside the model.
- Cloudinary and multer: an upload is the parameter `upload`. Orphaned uploads after a later failure are not modelled.
- The server cart sync effect (`AppContext.jsx` lines 127-142): it is an asynchronous side effect.
- Session bootstrap: `fetchUser`, `fetchSeller`, `fetchProducts` and the category fetch of the add form. `AppState.SetCartItems` stands for the cart these load.
- AppContext.AppState.GetCartAmount: returns the exact integer total; the display rounding `Math.floor(totalAmount * 100) / 100` is left out because amounts are integers in minor units.
- The 2% tax line and `toFixed(2)` on the cart page: floating-point display.
- Mongoose internals: `populate("category")` (the model keeps the category id), timestamps, and ObjectId forms other than 24 hex digits (a 12-byte string, an ObjectId instance).
- ProductModel.Validate: an explicit `null` for `description` or `image` (which `required` rejects) is not modelled; submitted data either carries an array or leaves the path out, and an absent path defaults to `[]`.
- The browser's `required` checks on the add form's inputs: the model submits any form, and the schema check then rejects the blank fields.
- Number inputs with a fractional part: the model's numbers are integers, so a number input holds "" or an integer text (`ProductListPage.ProductListPage.EditVariant` requires this).
- AddProductPage.Cast: reads a number input only as "" or an optional minus followed by digits. Other texts that `Number()` reads and that a number input can hold, such as "1.0", "1e3" or "1.5", make the model call the row unfilled, so `ProductModel.Validate` rejects it where Mongoose would store 1, 1000 or 1.5. The model's numbers are integers.
- ProductController.ProductStore.EditProduct: an update's `variants` is a list of complete variants with integer fields, as the seller dialog sends. A direct request with partial or non-numeric variants, which `findByIdAndUpdate` would store without validation, is not modelled.
- CartPage.PlaceOrder: a transport failure is an answer with `success` false. On the online path the source's catch then shows the error's own message (`Cart.jsx` lines 127-128), while the model shows the gateway failure message.
- ProductListPage.ProductListPage.EditVariant: the source writes the field into a variant object that the catalog and the open dialog share, so an edit is visible in the catalog until the next fetch, even after Cancel. The model copies values and does not capture this aliasing.
- The delete button of the product list (`handleDelete`) and the text inputs of the add form: each only forwards one value (an id to the delete endpoint, a field's text to the form state), and the form's fields are assigned directly.
- `server/routes/productRoute.js`, the seller authorization middleware, `Navbar.jsx` and `Home.jsx`: routing and presentation.
