# Shopping-cart backend (BackendSimulacro), modelled in Dafny

The model covers the request logic of a small shop backend. The shop has users,
products owned by company users, and one shopping cart per user. The cart
controller reads the caller's cart, adds a product to it, overwrites or removes
a line, and checks out. Checkout validates every line against its product's
stock before it changes anything. Then it takes the stock, charges
quantity × price and empties the cart. Beside it sit the product listing
(optionally filtered by owning company), product creation (the owner is the
caller), and the user listing (passwords blanked).

Each endpoint is a pure function `Store × arguments → Reply(store, result)`:

- `store.dfy` (module `Store`) holds the entities (`User`, `Product`, `Cart`,
  `CartItem`), the whole database as one `Store` value, the result and error
  types, and the shared lookups (`FirstIndex` for LINQ's `FirstOrDefault`, and
  `ProductOf` for the `Producto` navigation property).
- `Store.Consistent` is what the database guarantees: unique product keys,
  identity counters ahead of every key, and cart lines whose product exists.
- `Store.Valid` adds the application invariant: at most one line per product in
  a cart.
- `carts.dfy` (module `Carts`) models get, add, update and remove.
- `checkout.dfy` (module `CartCheckout`) models checkout. It has a functional
  definition, the two loops as the controller writes them (proved equal to
  it), and the stock lemmas.
- `products.dfy` (module `Products`) and `users.dfy` (module `Users`) model the
  two other controllers.

A few modelling choices:

- Prices are `int` (cents), so the `decimal` arithmetic is exact.
- The caller's identity is a parameter (`uid`, `caller`).
- New cart lines and products take their ids from the counters `nextItemId`
  and `nextProductId`. These stand for the database's identity columns.
- Every reply carries the store, failures included. The add endpoint saves a
  newly created cart (line 63) before the save that can fail (line 80), so
  that cart persists even when the request fails.
- Adding a product id that names no product breaks the foreign key of
  `CarritoItem.ProductoId`. The model reports that as `StorageFault` and keeps
  the newly created cart.
- `GetCarrito` leaves `ProductoId` unset in its projection, so it reads as 0.
  The add and update projections set it. The model keeps this difference.
- Quantities are never validated by the controller. They are plain `int`, and
  zero or negative quantities pass through unchanged.

## Model

| member | source | states |
|---|---|---|
| Store.FirstIndex | BackendSimulacro/Controllers/CarritosController.cs:66 | the index found is the first whose element satisfies the predicate; None exactly when no element does |
| Store.ProductOf | BackendSimulacro/Controllers/CarritosController.cs:29-32 | the product a line's foreign key resolves to is stored and has that id; with unique keys it is the only such product |
| Carts.GetCart | BackendSimulacro/Controllers/CarritosController.cs:24-46 | NotFound exactly when the caller has no cart; otherwise one view per line in item order, with the product's name and price, subtotal = quantity × price, product id 0; the store is unchanged |
| Carts.LineFor | BackendSimulacro/Controllers/CarritosController.cs:66 | a line for the product is found exactly when the cart has one, and it names that product |
| Carts.AddLine | BackendSimulacro/Controllers/CarritosController.cs:66-78 | merge: the first line for the product grows by exactly the requested amount, no line is added, the others are unchanged; insert: exactly one new line with a fresh id and the requested quantity is appended; the result always has a line for the product; one line per product is preserved and the held quantity grows by exactly the amount |
| Carts.AddProduct | BackendSimulacro/Controllers/CarritosController.cs:51-94 | the caller's cart exists afterwards (created when absent); the cart becomes the merge-or-insert of the old one, with no stock check; an unknown product fails with StorageFault and leaves only the new empty cart; other carts, products and users are unchanged; both invariants are preserved; the response projects the updated cart |
| Carts.ItemAt | BackendSimulacro/Controllers/CarritosController.cs:102-105 | a line with the requested id is found exactly when the cart has one, and the line found has that id |
| Carts.Overwrite | BackendSimulacro/Controllers/CarritosController.cs:109 | the cart keeps its length, line ids and products; with unique line ids exactly the line with the requested id takes the new quantity and every other line is unchanged |
| Carts.UpdateQuantity | BackendSimulacro/Controllers/CarritosController.cs:98-123 | the result is NotFound with the store unchanged exactly when the caller's own cart has no line with that id, and otherwise only that line's quantity is replaced by the new one, the rest of the store is unchanged, and the response shows that line's id, product, name, price, the new quantity and new quantity × price |
| Carts.RemoveItem | BackendSimulacro/Controllers/CarritosController.cs:127-140 | the result is NotFound with the store unchanged exactly when the caller's own cart has no line with that id, and otherwise that one line is deleted, the other lines keep their order, and the rest of the store is unchanged |
| Carts.Without | BackendSimulacro/Controllers/CarritosController.cs:137 | exactly one line, the one with the requested id, is dropped and the others keep their order; with unique line ids the lines kept are exactly those with another id |
| Carts.WithoutKeepsCart | BackendSimulacro/Controllers/CarritosController.cs:137-138 | dropping a line keeps foreign keys resolving, line ids unique and below the counter, and one line per product |
| Carts.AddTwiceAccumulates | BackendSimulacro/Controllers/CarritosController.cs:66-78 | two adds of one product leave exactly one line for it, holding the earlier quantity plus both amounts; one line is added at most |
| Carts.GetAfterAdd | BackendSimulacro/Controllers/CarritosController.cs:83-91 | reading the cart right after an add yields the add's response, except that the product id reads 0 |
| Carts.AddThenUpdateOverwrites | BackendSimulacro/Controllers/CarritosController.cs:109 | updating the line an add produced leaves exactly the new quantity, whatever was added before |
| CartCheckout.FirstShortfall | BackendSimulacro/Controllers/CarritosController.cs:156-160 | the line reported is short of stock and every earlier line is not; none is reported exactly when no line is short |
| CartCheckout.Deduct | BackendSimulacro/Controllers/CarritosController.cs:164-168 | each product loses exactly the total quantity the lines ask of it, and nothing else about it changes |
| CartCheckout.Checkout | BackendSimulacro/Controllers/CarritosController.cs:143-182 | an absent or empty cart gives BadRequest with the empty-cart message; success exactly when every line fits its product's stock; otherwise BadRequest names the first short product in item order; every failure leaves the store unchanged; success deducts stock, empties the cart but keeps it, and charges the total; both invariants are preserved |
| CartCheckout.DemandOfOneLine | BackendSimulacro/Controllers/CarritosController.cs:164-166 | with one line per product, the demand on a product is its line's quantity, or 0 when no line names it |
| CartCheckout.CheckoutNeverOversells | BackendSimulacro/Controllers/CarritosController.cs:156-168 | under the one-line-per-product invariant, every product with a line loses exactly that line's quantity and ends with stock ≥ 0; all other products are unchanged |
| CartCheckout.CheckoutKeepsStockNonNegative | BackendSimulacro/Controllers/CarritosController.cs:156-168 | in a valid store where no stock is negative, no stock is negative after checkout |
| CartCheckout.DuplicateLinesOversell | BackendSimulacro/Controllers/CarritosController.cs:156-168 | without the invariant, two lines of one product each pass validation and drive its stock from 5 to -1 |
| CartCheckout.TotalIsSumOfSubtotals | BackendSimulacro/Controllers/CarritosController.cs:167 | the checkout total equals the sum of any line views whose subtotals are quantity × price |
| CartCheckout.CheckoutChargesCartSubtotals | BackendSimulacro/Controllers/CarritosController.cs:163-168 | the total charged equals the sum of the subtotals the cart showed just before checkout |
| CartCheckout.CheckoutLeavesEmptyCart | BackendSimulacro/Controllers/CarritosController.cs:173-175 | after a successful checkout the cart still exists and reads back with no lines |
| CartCheckout.ValidateStock | BackendSimulacro/Controllers/CarritosController.cs:156-160 | the validation loop stops at exactly the first short line |
| CartCheckout.DeductStock | BackendSimulacro/Controllers/CarritosController.cs:163-168 | the decrement loop produces the deducted table and the total of quantity × price |
| CartCheckout.CheckoutLoops | BackendSimulacro/Controllers/CarritosController.cs:145-181 | the two-loop checkout returns exactly what the functional checkout returns |
| Products.Matching | BackendSimulacro/Controllers/ProductosController.cs:26-29 | without a company id the filter returns the table itself, and with one a product is in the result exactly when it is stored and belongs to that company |
| Products.MatchingCount | BackendSimulacro/Controllers/ProductosController.cs:26-29 | the filter keeps every admitted product exactly as many times as the table holds it and drops every other product |
| Products.MatchingAppend | BackendSimulacro/Controllers/ProductosController.cs:26-29 | filtering commutes with concatenation, so the filter keeps storage order |
| Products.ListProducts | BackendSimulacro/Controllers/ProductosController.cs:24-43 | the listing never fails and leaves the store unchanged; without a filter it has one entry per product, in order, with every field copied; with a filter every entry belongs to that company, and each view appears exactly as often as in the full listing when it belongs to that company and otherwise not at all |
| Products.ViewsCoverMatching | BackendSimulacro/Controllers/ProductosController.cs:31-40 | every filtered entry is admitted by the filter and appears in the full listing; every admitted product is listed |
| Products.FilteredListingCount | BackendSimulacro/Controllers/ProductosController.cs:26-40 | a view appears in a company's listing exactly as often as in the full listing when it belongs to that company, and otherwise never |
| Products.ListingKeepsStorageOrder | BackendSimulacro/Controllers/ProductosController.cs:26-40 | the listing of two concatenated tables is the first table's listing followed by the second's |
| Products.CreateProduct | BackendSimulacro/Controllers/ProductosController.cs:48-71 | exactly one product is appended with a fresh id; the existing products, carts and users are unchanged; the owner is the caller; name, price and stock come from the request; the response fields equal the stored product's; both invariants are preserved |
| Products.AppendKeepsForeignKeys | BackendSimulacro/Controllers/ProductosController.cs:60-61 | appending a product with a fresh id keeps keys unique and every cart line resolvable |
| Products.CreatedProductIsListed | BackendSimulacro/Controllers/ProductosController.cs:48-71 | after a create, the caller's company listing is the old one plus the new product at the end; every other company's listing is unchanged |
| Users.ListUsers | BackendSimulacro/Controllers/UsuariosController.cs:23-36 | the listing never fails and leaves the store unchanged; it has one entry per stored user, in order, with id, name and role copied and the password always "" |
| Users.ListingHidesPasswords | BackendSimulacro/Controllers/UsuariosController.cs:26-32 | two user tables that differ only in passwords give identical listings |

## Left out

- HTTP routing, `[Authorize]` role checks, status-code wrappers and the `CreatedAtAction` location header are framework behaviour. The caller's id is a parameter instead of a parsed claim.
- Entity Framework mechanics (`Include`/`ThenInclude`, change tracking, async saves) are library behaviour. Each request is one atomic transition, except that the add endpoint's early cart save is kept.
- Carts.AddProduct: the model assumes the `Producto` navigation of a newly inserted line is populated when the response is built (CarritosController.cs:87). Whether Entity Framework fixes it up for a product the request never loaded is library behaviour. If it does not, the caller gets a failure, but the line saved at line 80 stays saved. The model always returns the projection.
- Checkout's two separate saves (stock, then line deletion) are one transition here. A fault or a concurrent checkout between them is about concurrency and isolation, not sequential logic.
- Carts.AddProduct: quantities add as unbounded integers. The C# `int` sum `Cantidad += dto.Cantidad` would wrap at 2^31. The request DTO's validation attributes are not part of this model, so the in-range case is modelled.
- CartCheckout.Checkout: stock decrements are unbounded integers, and C# `decimal` overflow of the total is not modelled. Prices are exact integer cents.
- CartCheckout.CheckoutNeverOversells: it covers products that have a line in the cart. A product whose stock was already negative and has no line stays negative, because product creation does not validate stock.
- Cart ids are left out. A cart is identified by its owner's id, which the store uses as its key.
- `BackendSimulacro/Data/AppDbContext.cs` only configures the role enum's storage as an integer. It holds no logic. (It declares no cart tables, though the cart controller uses them; the model assumes they exist.)
- User deletion and its admin rule appear in no controller that is part of this model, so they are not modelled.
