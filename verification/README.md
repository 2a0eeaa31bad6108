# Product-list shopping cart, modelled in Dafny

This project models the cart logic of a one-page product list with a
shopping cart. The page keeps a global object `cart` that maps a product id
to `{ name, price, quantity }`. Five kinds of click change it, through four handler functions:

- add-to-cart: add the product, or raise its quantity;
- the increment and decrement buttons of a product's quantity selector;
- the remove button of a cart row;
- "start new order", which empties the cart.

After every change the cart panel is redrawn. That panel has the rows, the
item count, the total, the empty-cart message and the confirm button. Each
product card's widget is rewritten to show either the "Add to Cart" button
or a quantity selector. The confirm button opens a read-only confirmation
list with the order total.

Files and modules:

- `cart.dfy`, module `CartState`: the cart object and its five mutations.
  The object is a sequence of `(id, Line)` entries in insertion order, which
  is the order `for...in` walks opaque string keys. `AsMap` gives the object
  view that the handlers index. `Valid` is the invariant: ids are unique and
  every stored quantity is at least 1.
- `totals.dfy`, module `Totals`: the item count and the total price, as sums
  over the lines.
- `views.dfy`, module `Views`: the cart panel (`RenderCart`) and the
  confirmation list (`ShowOrderConfirmation`). Both are loops that
  accumulate totals the way the page's `for...in` loops do.
- `page.dfy`, module `ProductPage`: the whole page, that is, the cart plus
  one control widget per product card (`Idle` or `Active(n)`), and the
  click handlers as `Step`. The main result is that, after any sequence of
  clicks, every widget shows exactly `ControlOf(cart, id)`.
- `scenarios.dfy`, module `Scenarios`: worked examples with concrete prices.

Modelling choices:

- Prices are whole cents (`int`).
- Quantities are `int`, so the handler's "delete when 0 or less" test is
  modelled literally.
- `Increment` and `Decrement` on the cart require the line to exist. The
  page handler reads `cart[id].quantity` without a check, so `Step` returns
  `TypeError` for a missing line. `Run` then leaves the page as it was,
  because the handler throws before it changes anything.

Two behaviours are modelled as the code has them:

- The code does not validate prices. The value of `parseFloat` is stored
  as it is, so there is no rejection path, and a price may be any integer.
- The code throws a TypeError on increment or decrement of a product that
  has no cart line. `Step` models that throw; it is not a no-op.

## Model

| member | source | states |
|---|---|---|
| CartState.AddOrIncrement | productlistcart.js:88-98 | The id is present afterwards. A new id gets `{name, price, quantity: 1}` and goes last in the key order. A present id gets quantity + 1 and keeps its name and price; the name and price passed in are ignored. Every other key is unchanged. |
| CartState.Increment | productlistcart.js:141-142 | For a present id, the quantity goes up by exactly 1. Name, price, the other keys and the key order are unchanged. |
| CartState.Decrement | productlistcart.js:143-147 | For a present id, the line is deleted when quantity - 1 <= 0, and the other keys keep their order. Otherwise the quantity goes down by exactly 1, the line is kept and the key order is unchanged. No other key changes its line. |
| CartState.Remove | productlistcart.js:182 | `delete cart[id]`: the key is gone, and every other key keeps its line and its place in the key order. Deleting an absent key returns the cart unchanged. |
| CartState.Clear | productlistcart.js:219 | The new cart object has no keys, whatever the old one held. |
| CartState.EmptyIffNoKeys | productlistcart.js:30 | The cart has no entries exactly when the object has no keys. This is the `Object.keys(cart).length === 0` test. |
| CartState.AddPreservesValid | productlistcart.js:88-98 | Add keeps ids unique and every quantity >= 1. |
| CartState.IncrementPreservesValid | productlistcart.js:141-142 | Increment keeps ids unique and every quantity >= 1. |
| CartState.DecrementPreservesValid | productlistcart.js:143-147 | Decrement keeps every quantity >= 1, because a line that would reach 0 is deleted. |
| CartState.RemovePreservesValid | productlistcart.js:182 | Remove keeps ids unique and every quantity >= 1. |
| CartState.AddThenDecrement | productlistcart.js:88-98 | In a valid cart, adding a product and then decrementing it gives back exactly the original cart, key order included. This holds whether the product was new or already present. |
| CartState.IncrementThenDecrement | productlistcart.js:141-147 | In a valid cart, increment followed by decrement of a present product gives back exactly the original cart. |
| Totals.SumPermutation | productlistcart.js:45-48 | A sum over the lines is the same for any rearrangement of the lines, so the enumeration order does not matter. |
| Totals.TotalsOrderIndependent | productlistcart.js:45-48 | The item count and the total price do not depend on the order in which `for...in` visits the keys. |
| Totals.ItemCountBounds | productlistcart.js:45-47 | In a valid cart, the item count is at least the number of lines. It is 0 exactly when the cart has no keys. |
| Totals.AddTotals | productlistcart.js:88-98 | Add raises the item count by 1. It raises the total by the stored unit price, or by the new price when the line is new. |
| Totals.IncrementTotals | productlistcart.js:141-142 | Increment raises the item count by 1 and the total by the line's unit price. |
| Totals.DecrementTotals | productlistcart.js:143-147 | In a valid cart, decrement lowers the count by 1 and the total by the unit price. This holds both when the line is kept and when it is deleted. |
| Totals.RemoveTotals | productlistcart.js:182 | Remove takes the line's whole quantity out of the count and its quantity x price out of the total. Removing an absent id changes neither. |
| Views.RenderCart | productlistcart.js:23-70 | The empty message is shown exactly when the cart has no keys. Exactly then, the total is hidden and the confirm button disabled. The count is the sum of quantities and the total the sum of quantity x price. There is one row per line, in key order, showing name, quantity, unit price and quantity x price. |
| Views.ShowOrderConfirmation | productlistcart.js:189-210 | The confirmation total is the same `TotalPrice` that `RenderCart` shows for the same cart. Its rows match the panel's rows, in the same order and with the same figures. |
| ProductPage.ResetSelectors | productlistcart.js:222-227 | Starting a new order turns every product's widget into the add button and keeps the set of widgets. |
| ProductPage.SelectorFor | productlistcart.js:111-123 | The quantity selector drawn after an add is always a selector. For a product in the cart it shows exactly `ControlOf`, the product's cart quantity. |
| ProductPage.ControlAfterChange | productlistcart.js:150-160 | The widget rewritten after + or − equals `ControlOf` whenever every stored quantity is at least 1. It can differ only for a stored line of quantity 0, which it shows as the add button. |
| ProductPage.Step | productlistcart.js:82-234 | One click through the four handlers: add-to-cart, + and − in `handleQuantityChange`, remove, confirm and start-new-order. The + and − handler throws exactly when the product has no cart line, and no other handler throws. Confirming an order leaves the page unchanged. |
| ProductPage.ControlTransitions | productlistcart.js:151-160 | The per-product state machine. Add moves Idle to Active(1) and Active(n) to Active(n+1). Increment moves Active(n) to Active(n+1). Decrement moves Active(n) to Active(n-1) when n > 1, and Active(1) to Idle. Remove and clear move to Idle. |
| ProductPage.StepPreservesConsistent | productlistcart.js:150-160 | Every handler keeps the cart valid and keeps every product widget equal to `ControlOf(cart, id)`: the cart quantity when the product is present, the add button when it is absent. |
| ProductPage.ActiveControlNeverThrows | productlistcart.js:141-144 | When the widgets are in sync, a widget that shows a quantity selector has a cart line behind it. So its increment and decrement buttons never hit the TypeError. |
| ProductPage.RunPreservesConsistent | productlistcart.js:239-247 | Any sequence of clicks, dispatched one at a time, keeps the page invariant. |
| ProductPage.ReachablePagesConsistent | productlistcart.js:14-16 | From the loaded page (empty cart, all add buttons), every reachable cart has unique ids and quantities >= 1. In every reachable page, each widget shows its product's cart quantity, or the add button when the product is not in the cart. |
| Scenarios.OneProductWalkthrough | productlistcart.js:88-98 | An example. Adding "Widget" at 9.99 twice and decrementing twice gives totals 9.99, 19.98, 9.99, and then an empty cart. |
| Scenarios.TwoProductTotals | productlistcart.js:45-48 | An example. Adding "Widget" at 9.99 twice and "Gadget" at 3.50 once gives the lines A then B, 3 items and 23.48. |

## Left out

- DOM work is not modelled: element lookups, `innerHTML` templates, `classList` and style changes, icons, and showing or hiding the modal. The panel and widget contents are modelled as data (`CartView`, `Confirmation`, `Control`), not as markup.
- Event-listener (re)attachment is not modelled. `addEventListener` with the same handler is idempotent, and the model has one dispatcher, `Step`.
- Floating point is not modelled: `parseFloat`, `toFixed(2)`, and rounding error in sums of decimal prices. Prices are exact integer cents, so NaN prices and the two-decimal display format are out of scope.
- Property names inherited from `Object.prototype` (`constructor`, `toString`, ...) are not modelled. As product ids they make `cart[productId]` truthy before any add. Product ids are treated as opaque keys with no such names.
- The key order of integer-like ids is not modelled. `for...in` visits those keys in numeric order, not in insertion order. The model keeps insertion order for the rows. `TotalsOrderIndependent` shows that the count and total do not depend on the order.
- ProductPage.Step: product ids are passed to the handlers unchanged. The page does not do that. It writes the id into `data-product-id` attributes of `innerHTML` templates (productlistcart.js:62, 116, 120) and into a double-quoted CSS attribute selector (productlistcart.js:174). An id holding `"` is cut off at that character in the attribute, and one holding `&` can be decoded there as a character reference. A newline or a backslash breaks or changes the CSS string, so `querySelector` throws or matches another id. The model covers only ids that survive HTML attribute quoting and CSS string quoting unchanged.
- ProductPage.ActiveControlNeverThrows: holds only for the ids covered by the line above. An id that the `data-product-id` template cuts off gives a button whose id has no cart line, and its click throws.
