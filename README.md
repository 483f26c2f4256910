# Online bookstore: a verified model of the store's state machine

This project models the in-memory core of a small online bookstore, written in Java as one file, `OnlineBookstore.java`. The store keeps:

- a catalog of books;
- a directory from user name to user;
- one shopping cart per user, mapping book to quantity;
- one order history per user;
- an inventory mapping book to remaining stock.

Users register and log in, edit their carts, and check out. Checkout walks the cart's books in the iteration order of the cart's hash map. For each book it checks the stock and writes back stock minus quantity. When a book cannot be served, it stops with an error, and the books already visited stay decremented. When every book is served, checkout records an order and gives the user a new, empty cart.

Layout, one module per concern:

- `entities.dfy` (`Entities`): `User` and `Book` as classes with constant fields, so maps are keyed on object identity as in the Java code. Also the error kinds and result types.
- `lines.dfy` (`Lines`): key orders (one iteration order of a map's keys) and the price × quantity total, with the proof that the total does not depend on the order.
- `cart.dfy` (`Cart`): `ShoppingCart` as a class over a `map<Book, int>` field, and the functions `Added` and `Removed` its methods are proved against. Also the positive-lines invariant over any sequence of edits, and the two 32-bit overflow findings.
- `orders.dfy` (`Orders`): the immutable `Order` record and its constructor.
- `inventory.dfy` (`Inventory`): checkout's stock loop as a function `RunStock`, its closed form and its consequences.
- `store.dfy` (`Store`): the `OnlineBookstore` class, with its invariant `Valid()` and every store operation.
- `walkthrough.dfy` (`Walkthrough`): clients that follow the original demonstration script, showing what callers can conclude from the contracts.

Modelling decisions:

- Prices are integers in cents.
- The iteration order of a cart's `HashMap` is an explicit `keyOrder` parameter. It must list each key of the cart exactly once (`Lines.IsKeyOrder`). Which decrements have happened when checkout fails depends on that order.
- The Java code crashes with a null dereference on an unregistered user, and when the cart names a book no longer in the inventory. The model returns the explicit errors `UnknownUser` and `NotInInventory(book)` instead. The second one, like the stock-insufficiency exception, leaves the books visited before it decremented.
- Behaviour of the code that the model keeps as written:
  - Quantities are not checked for positivity. `addItem` accepts zero or negative quantities, and so does the model.
  - `removeBook` removes only the first occurrence of the book from the catalog.
  - `addBook` and `removeBook` also change the inventory. Checkout is not the only operation that does.
  - Re-registering a name creates a new user object. The old user object keeps its own cart and history entries, because those maps are keyed by user object. Only the name directory is overwritten.
  - Checkout keeps the decrement-as-you-validate behaviour. It is not replaced by an all-or-nothing commit.

## Model

| member | source | states |
|---|---|---|
| `Entities.User.constructor` | OnlineBookstore.java:14-18 | a new user holds exactly the given name, password and email |
| `Entities.Book.constructor` | OnlineBookstore.java:40-45 | a new book holds exactly the given title, author, price and initial stock |
| `Cart.Added` | OnlineBookstore.java:76-82 | adding to a present book gives old + quantity; an absent book is inserted with the quantity; the key set gains only that book; every other line is unchanged; positive lines stay positive when the quantity is positive |
| `Cart.Removed` | OnlineBookstore.java:84-93 | an absent book is a no-op; a request at or above the current quantity deletes the line; a smaller request stores current − quantity; no key is added and every other line is unchanged; with unbounded quantities, positive lines stay positive whatever the quantity (with Java `int` they need not: see `Cart.RemovedInt32BreaksPositivity`) |
| `Cart.EditsKeepLinesPositive` | OnlineBookstore.java:76-93 | with unbounded quantities, starting from positive lines, any sequence of adds with positive quantities and removes of any quantity leaves every line strictly positive (the 32-bit wrap-arounds of lines 78 and 90 break this: see the findings) |
| `Cart.ShoppingCart.constructor` | OnlineBookstore.java:72-74 | a new cart is empty |
| `Cart.ShoppingCart.AddItem` | OnlineBookstore.java:76-82 | the cart's map becomes `Added` of the old map |
| `Cart.ShoppingCart.RemoveItem` | OnlineBookstore.java:84-93 | the cart's map becomes `Removed` of the old map |
| `Cart.ShoppingCart.GetTotal` | OnlineBookstore.java:99-105 | the result is the sum of price × quantity over the cart's lines, which by `Lines.KeyOrdersAgree` is the same for every iteration order |
| `Cart.WrapInt32` | OnlineBookstore.java:78 | the result is in the 32-bit signed range and congruent to the input modulo 2^32 |
| `Cart.AddedInt32` | OnlineBookstore.java:76-82 | `addItem` with Java `int` arithmetic: a present book stores the wrapped sum of old and quantity, an absent book stores the quantity, the keys grow only by the book, other lines are unchanged, and without overflow it agrees with `Added` |
| `Cart.AddedInt32BreaksPositivity` | OnlineBookstore.java:78 | as written, adding 1 to a line at 2147483647 yields −2147483648, so the positive-lines invariant fails |
| `Cart.RemovedInt32` | OnlineBookstore.java:84-93 | `removeItem` with Java `int` arithmetic: absent book no-op, a request at or above the current quantity deletes the line, a smaller request stores the wrapped difference, and without overflow it agrees with `Removed` |
| `Cart.RemovedInt32BreaksPositivity` | OnlineBookstore.java:87-90 | as written, removing −1 from a line at 2147483647 takes the subtracting branch and yields −2147483648, so the positive-lines invariant fails |
| `Entities.User.CheckPassword` | OnlineBookstore.java:24-26 | exact, case-sensitive equality with the stored password; its property is stated by `Store.OnlineBookstore.Login`'s if-and-only-if |
| `Lines.LinesTotalRemoveAt` | OnlineBookstore.java:118-120 | the total is the line at any position plus the total of the remaining lines |
| `Lines.LinesTotalPermutation` | OnlineBookstore.java:118-120 | two orderings of the same lines, multiplicities included, have the same total |
| `Lines.KeyOrdersAgree` | OnlineBookstore.java:118-120 | any two iteration orders of an item map give the same total, so an order's total depends only on its items |
| `Lines.SumLines` | OnlineBookstore.java:117-120 | the accumulation loop returns the sum of price × quantity over the lines in iteration order |
| `Orders.NewOrder` | OnlineBookstore.java:114-121 | the order keeps the given user and item map, and its total is the sum of price × quantity over those items |
| `Inventory.RunStock` | OnlineBookstore.java:204-211 | the checkout loop as a function; its own contract says the inventory's keys never change, and `Inventory.RunStockClosedForm` states what it computes |
| `Inventory.FirstShortfall` | OnlineBookstore.java:204-209 | the result is the least position whose book is missing from the inventory or has less stock than its quantity, or the length when there is none |
| `Inventory.FirstShortfallFrame` | OnlineBookstore.java:204-209 | the first shortfall depends only on the stock of the listed books |
| `Inventory.DecrementedShift` | OnlineBookstore.java:204-211 | applying the first line and then the next j lines equals applying the first j + 1 lines |
| `Inventory.RunStockClosedForm` | OnlineBookstore.java:204-211 | for duplicate-free keys, the loop completes with every listed book lowered by its quantity when every line fits; otherwise it halts at the first line that does not fit, names that book, and has applied exactly the lines before it |
| `Inventory.RunStockCompletesIff` | OnlineBookstore.java:204-211 | the loop completes if and only if every line's book is in stock with at least its quantity |
| `Inventory.RunStockCompletedEffect` | OnlineBookstore.java:204-211 | after a complete run over a key order of the cart, each cart book's stock has dropped by exactly its quantity; books outside the cart are unchanged; the inventory's keys are the same |
| `Inventory.RunStockHaltedEffect` | OnlineBookstore.java:204-211 | after a failed run, the error names the first unservable book in iteration order; books before it are decremented; it and the later books are unchanged; books outside the cart are unchanged; the keys are the same |
| `Inventory.RunStockKeepsNonNegative` | OnlineBookstore.java:207-210 | if every stock was non-negative before the loop, none is negative after it, whether the loop completes or halts |
| `Store.IndexOf` | OnlineBookstore.java:168 | the result is the position of the first occurrence of the book |
| `Store.RemoveFirst` | OnlineBookstore.java:168 | an absent book leaves the catalog unchanged; otherwise exactly the first occurrence is dropped, the rest keeping their order, one copy leaving the multiset |
| `Store.RemoveFirstUndoesAppend` | OnlineBookstore.java:162-170 | removing a book just appended to a catalog that lacked it gives back the original catalog |
| `Store.OnlineBookstore.constructor` | OnlineBookstore.java:154-160 | a new store is empty and satisfies the invariant |
| `Store.OnlineBookstore.AddBook` | OnlineBookstore.java:162-165 | the book is appended to the catalog and its inventory is set to its initial stock; nothing else changes |
| `Store.OnlineBookstore.RemoveBook` | OnlineBookstore.java:167-170 | the first catalog occurrence and the inventory key are removed; carts keep their lines; nothing else changes |
| `Store.OnlineBookstore.RegisterUser` | OnlineBookstore.java:176-181 | the name maps to a new user with the given fields, a new empty cart and an empty history; the earlier user of that name keeps its entries; every other entry and every existing cart's contents are unchanged |
| `Store.OnlineBookstore.Login` | OnlineBookstore.java:183-189 | a user is returned exactly when the name is registered and the password equals that user's password; the result is that user, bears that name and has a cart and a history |
| `Store.OnlineBookstore.AddToCart` | OnlineBookstore.java:191-194 | for a registered user the cart becomes `Added` of the old cart; an unregistered user gets `UnknownUser`; no store field and no other user's cart changes |
| `Store.OnlineBookstore.RemoveFromCart` | OnlineBookstore.java:196-199 | for a registered user the cart becomes `Removed` of the old cart; an unregistered user gets `UnknownUser`; no store field and no other user's cart changes |
| `Store.OnlineBookstore.TakeStock` | OnlineBookstore.java:204-211 | the loop leaves the inventory exactly as `RunStock` of the old inventory says and returns how the run ended |
| `Store.OnlineBookstore.RecordOrder` | OnlineBookstore.java:212-214 | the order is appended to its user's history and that user gets a new empty cart; other histories and carts, the directory, catalog and inventory are unchanged |
| `Store.OnlineBookstore.Checkout` | OnlineBookstore.java:201-216 | an unregistered user gets `UnknownUser` and nothing changes. Otherwise the inventory ends as `RunStock` says. On success the result is the order of the old cart's items with their price × quantity total, the user's history grows by that one order, the user's cart is new and empty, and every other cart and history is unchanged. On failure the error names the failing book and no cart or history changes |
| `Walkthrough.SuccessfulRun` | OnlineBookstore.java:222-236 | two copies at 10.99 and one at 12.99 against stocks 20 and 15 complete with stocks 18 and 14 and total 34.97 |
| `Walkthrough.OverstockedRun` | OnlineBookstore.java:204-211 | a cart asking 5 of a book with stock 30 and then 25 of a book with stock 20 halts naming the second book, with the first already lowered to 25 |

## Left out

- `main` and all console output, including the invoice printed at the end of `checkout` (OnlineBookstore.java:215, 218-253). `Walkthrough` follows the script's steps with asserts instead of printing.
- `Order.generateInvoice` (OnlineBookstore.java:135-143): string building that depends on Java's formatting of `double`.
- Floating-point prices and totals: prices are integer cents and totals are exact integers.
- `synchronized` and `ConcurrentHashMap`: every operation is one sequential state transition.
- Trivial getters: `Book.getStock`, `User.getEmail`, `getCatalog` and `ShoppingCart.getItems`.
- `Book.setStock`: the model's `Book.stock` is a constant fixed at construction. In Java, `addBook` (line 164) reads the book's current stock field, which `setStock` could have changed before `addBook` runs; the model does not capture that.
- The internal iteration order of `HashMap`: it is the `keyOrder` parameter of `GetTotal`, `NewOrder` and `Checkout`, constrained only to list each key once.
- Java's 32-bit `int` arithmetic on quantities and stock: the model uses unbounded integers. The wrap-arounds of `addItem` (line 78) and of `removeItem` with a negative quantity (line 90) are modelled only in `Cart.AddedInt32` and `Cart.RemovedInt32`, for the findings below. An overflow in `stock - quantity` (line 210) can happen only with a negative cart quantity, and it is not modelled.
- Null-dereference crashes are replaced by the explicit errors `UnknownUser` and `NotInInventory`.

## Findings

| source | as written | input that shows it | evidently intended | confidence | as-written member | corrected member |
|---|---|---|---|---|---|---|
| OnlineBookstore.java:78 | `items.get(book) + quantity` is 32-bit `int` addition, which wraps around | a cart line at 2147483647 followed by `addItem(book, 1)` stores −2147483648 | the line grows by the added quantity and stays positive | not executed; follows from Java's defined `int` overflow | `Cart.AddedInt32BreaksPositivity` | `Cart.Added` (positivity kept, proved in its contract and in `Cart.EditsKeepLinesPositive`) |
| OnlineBookstore.java:90 | `currentQuantity - quantity` is 32-bit `int` subtraction, reached for any quantity below the current one, negative ones included, and it wraps around | a cart line at 2147483647 followed by `removeItem(book, -1)` stores −2147483648 | the line is left at a positive quantity (removing never makes a line non-positive) | not executed; follows from Java's defined `int` overflow | `Cart.RemovedInt32BreaksPositivity` | `Cart.Removed` (positivity kept, proved in its contract and in `Cart.EditsKeepLinesPositive`) |
