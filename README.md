# Cart and order logic of the table-side menu screen

This project models the state behind the customer menu screen of the QR-ordering
client: a menu catalog, the part of it visible under the selected category
filter, and a cart of lines. Each line is `{menu_item_id, name, price, quantity, note}`,
with name and price copied from the catalog item when the line is created.
The screen has five operations, all modelled here:

- the category filter, where `"all"` is a wildcard;
- adding an item, which merges a repeated add into the existing line;
- editing the note of a line;
- the total, the sum of price times quantity over the lines;
- sending the order for the table.

Modules:

- `Wrappers` (wrappers.dfy): `Option`.
- `Catalog` (catalog.dfy): `MenuItem`, the category filter, and lemmas proving that it keeps
  catalog order and the multiplicity of each item.
- `Cart` (cart.dfy): `CartLine` and the pure cart operations. Each computes a new cart
  from the old one, as the screen does before storing it. Also here: the invariants
  "one line per item" and "every quantity at least 1", and lemmas covering single
  adds, whole sequences of adds, note edits and the total.
- `Order` (order.dfy): the submission transition as a pure function of the table id,
  the cart and the endpoint's answer.
- `Session` (session.dfy): class `MenuSession`. Its fields `menu`, `filteredMenu`,
  `activeFilter` and `cart` are the screen's state cells. Its methods overwrite them
  as the screen's handlers do, and their contracts tie the new state to the `Cart`,
  `Catalog` and `Order` functions. A client method replays the Pho/Coke scenario
  (two Pho at 50000 and one Coke at 15000 give a total of 115000; then a note edit,
  a failed send and a successful send).

Prices and quantities are mathematical naturals (whole VND amounts).
The two network calls become inputs:
- the catalog fetch delivers `Some(catalog)` or `None`;
- the order post is answered `Accepted` or `Rejected`.

Where the documented design of the system and the code differ, the model follows the code:
- An unknown filter tag silently gives an empty view. It is not flagged as a
  configuration error.
- A note edit for an item without a line changes nothing and reports nothing.
- The code has no way to lower a quantity or remove a line.

## Model

| member | source | states |
|---|---|---|
| `Catalog.ByCategory` | frontend-customer/src/components/Menu.js:27 | an item is in the category view exactly when it is in the catalog and has that category; the view is never longer than the catalog |
| `Catalog.Filter` | frontend-customer/src/components/Menu.js:24-28 | the tag "all" gives the whole catalog unchanged; any other tag gives exactly the catalog items of that category |
| `Catalog.FilterKeepsOrder` | frontend-customer/src/components/Menu.js:27 | a non-wildcard view is the catalog read at the matching positions in increasing order, i.e. the order-preserving subsequence of items of that category |
| `Catalog.FilterMultiplicity` | frontend-customer/src/components/Menu.js:27 | a non-wildcard view contains each item of that category as many times as the catalog does, and no item of another category |
| `Catalog.UnknownTagShowsNothing` | frontend-customer/src/components/Menu.js:26-27 | a tag other than "all" that no item carries gives the empty view |
| `Cart.Find` | frontend-customer/src/components/Menu.js:32 | the lookup finds nothing exactly when no line has the id; what it finds is a line of the cart with that id |
| `Cart.IncrementLine` | frontend-customer/src/components/Menu.js:34-36 | same length; every line keeps id, name, price and note; quantity rises by one exactly on lines with the id |
| `Cart.AddToCart` | frontend-customer/src/components/Menu.js:31-40 | with a line for the item: same length and ids, lines for the item get one more unit, all other fields unchanged; without: the old cart followed by one line with the item's id, name and price, quantity 1 and an empty note |
| `Cart.AddExisting` | frontend-customer/src/components/Menu.js:32-36 | in a cart with one line per item, adding an item whose line is at position k replaces exactly that line by itself with quantity + 1 |
| `Cart.AddNew` | frontend-customer/src/components/Menu.js:37-38 | adding an item without a line appends exactly the line built from it at the end |
| `Cart.AddKeepsWellFormed` | frontend-customer/src/components/Menu.js:31-40 | adding preserves "no two lines share an id" and "every quantity is at least 1" |
| `Cart.AddTotal` | frontend-customer/src/components/Menu.js:31-40 | in a cart with one line per item, adding raises the total by the existing line's snapshot price, or by the item's price for a new line |
| `Cart.AddTotalAtItemPrice` | frontend-customer/src/components/Menu.js:31-40 | in a cart with one line per item whose line for the item (if any) carries the item's price, adding raises the total by exactly the item's price |
| `Cart.AddQuantity` | frontend-customer/src/components/Menu.js:31-40 | in a cart with one line per item, adding an item adds one unit of that item and none of any other |
| `Cart.AddAllKeepsWellFormed` | frontend-customer/src/components/Menu.js:31-40 | every sequence of adds preserves both cart invariants |
| `Cart.AddAllQuantity` | frontend-customer/src/components/Menu.js:8-40 | from the initial empty cart, after any sequence of adds the cart holds each item exactly as many times as it was added |
| `Cart.RepeatAdd` | frontend-customer/src/components/Menu.js:31-40 | n adds (n at least 1) of the same item to an empty cart give a single line with quantity n, the item's name and price and an empty note |
| `Cart.AddAllSnapshots` | frontend-customer/src/components/Menu.js:38 | every line built by adds from an empty cart carries the id and price of one of the added items |
| `Cart.AddAllTotal` | frontend-customer/src/components/Menu.js:61 | from an empty cart, when the added items agree on each item's price, the total equals the sum of the prices of everything added |
| `Cart.TotalConcat` | frontend-customer/src/components/Menu.js:61 | the left-to-right sum of price times quantity splits over any concatenation of lines |
| `Cart.UpdateNote` | frontend-customer/src/components/Menu.js:43-45 | same length; every line keeps id, name, price and quantity; the note becomes the new text exactly on lines with the id |
| `Cart.UpdateNoteMissing` | frontend-customer/src/components/Menu.js:43-45 | a note edit for an id without a line leaves the cart identical and creates no line |
| `Cart.UpdateNoteKeeps` | frontend-customer/src/components/Menu.js:43-45 | a note edit keeps the total, the quantity of every item and both cart invariants |
| `Cart.UpdateNoteExisting` | frontend-customer/src/components/Menu.js:44 | in a cart with one line per item, a note edit changes only the note of the one line with that id |
| `Order.Submit` | frontend-customer/src/components/Menu.js:48-59 | an empty cart issues no request, ends as EmptyCart and stays empty; otherwise the request is exactly the table id and the current cart; the order counts as sent exactly when the cart is non-empty and the endpoint accepts; sent leaves an empty cart with total 0, anything else leaves the cart and total unchanged |
| `Order.SubmitKeepsWellFormed` | frontend-customer/src/components/Menu.js:51-58 | the cart after a submission, whatever the answer, still satisfies both cart invariants |
| `Order.RetryAfterFailure` | frontend-customer/src/components/Menu.js:55-58 | after a failed submission, sending again posts the very same request |
| `Session.MenuSession.constructor` | frontend-customer/src/components/Menu.js:7-11 | a new screen starts with an empty catalog and view, the "all" filter and an empty cart with total 0 |
| `Session.MenuSession.LoadMenu` | frontend-customer/src/components/Menu.js:14-21 | a delivered catalog replaces both the catalog and the visible items; a failed fetch changes nothing; the cart and the filter are untouched |
| `Session.MenuSession.FilterMenu` | frontend-customer/src/components/Menu.js:24-28 | records the tag and makes the visible items the filter of the current catalog by it; catalog and cart untouched |
| `Session.MenuSession.AddToCart` | frontend-customer/src/components/Menu.js:31-40 | the cart becomes the add of the item to the old cart, the invariants are kept, the total rises by one unit's price, and the catalog state is untouched |
| `Session.MenuSession.UpdateNote` | frontend-customer/src/components/Menu.js:43-45 | the cart becomes the note edit of the old cart; an edit for a missing id leaves it identical; invariants and total kept |
| `Session.MenuSession.SendOrder` | frontend-customer/src/components/Menu.js:48-59 | returns the posted request and the outcome, which match the submission transition; an empty cart posts nothing; success empties the cart (total 0); failure keeps it identical |

## Left out

- The HTTP calls for the catalog and the order are network I/O. Their answers are parameters
  (`Option<seq<MenuItem>>` for the catalog fetch, `Response` for the order post).
- The race between an order post still in flight and new adds is asynchronous interleaving.
  The model treats each submission as one atomic step that completes before the next
  operation.
- The alerts and console logging on an empty cart, on success and on failure are UI side
  effects. `Status` records which of these ends was reached.
- The screen markup, price formatting, the note dialog's bookkeeping and the filter-button
  highlighting are presentation. `activeFilter` is kept as a field but nothing is proved
  about its display.
- JavaScript number semantics: prices and quantities are unbounded naturals, not
  floating-point numbers.
- Removing a line and lowering a quantity are not in the code, so they are not modelled.
- Reporting an unknown filter tag or a note edit for a missing line as an error: the code
  does neither, so the model does neither.
- Cart.AddExisting: stated only for carts with one line per item. For a cart that holds two
  lines for the same item, the code raises both lines, as `AddToCart` states. Every cart
  the screen can reach has one line per item (`Cart.AddAllKeepsWellFormed`).
- Cart.AddTotal: stated only for carts with one line per item, for the same reason.
- Cart.AddTotalAtItemPrice: stated only for carts with one line per item, for the same reason.
- Cart.AddQuantity: stated only for carts with one line per item, for the same reason.
- Cart.UpdateNoteExisting: stated only for carts with one line per item, for the same reason.
