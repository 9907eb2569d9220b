# Shopping cart state machine

A Dafny model of the cart hook of a React Native marketplace app
(`src/hooks/cart.tsx`). The cart is an ordered list of line items (`Product`:
id, title, image URL, price, quantity), keyed by `id`. Three operations change it:

- `addToCart` looks the item's id up with `findIndex`. If no entry has that id,
  it appends the item with quantity 1. Otherwise it adds 1 to the entry it found.
- `increment` adds 1 to the quantity of the entry with the given id.
- `decrement` takes 1 from that quantity. Once the quantity is 0 or below, it
  splices the entry out.

The project has three modules:

- `CartModel` (`cart_model.dfy`) holds the records and the cart as a value.
  `IndexOf` is `findIndex` with its first-match semantics. `AddToCart`,
  `Increment` and `Decrement` are the new cart each operation produces.
  `WellFormed` is the cart invariant: ids are unique and every quantity is at least 1.
- `CartProperties` (`cart_properties.dfy`) proves what the operations promise.
  It covers where entries go, which quantities change and by exactly how much,
  that the invariant is kept, that n additions give quantity n, and how the
  operations undo one another.
- `CartStore` (`cart_store.dfy`) holds the class `CartProvider`. It has a
  `products` field that its methods update step by step, as the hook does.
  Each method's postcondition ties the new `products` to the matching
  `CartModel` function of the old one.

Decisions:

- **Absent id in increment and decrement.** `findIndex` answers -1, and the
  source then reads `newProducts[-1].quantity`. That element is `undefined`,
  so the read throws a TypeError before anything is written. The model makes
  this path explicit. The functions return `NotFound`. The methods return
  `found == false` and leave `products` unchanged. The source handles this
  input (by failing), so the model does not require the id to be present.
- **The invariant is not a precondition.** `loadProducts` installs whatever
  the storage holds without checking it. So every method promises
  "`WellFormed` before implies `WellFormed` after" instead of requiring it.
  The functions are defined on every list, exactly as the code behaves. For
  example, decrement removes an entry whose quantity was already 0 or below.
- **`price`** is carried along and never computed with. It is an `int` here.

## Model

| member | source | states |
|---|---|---|
| CartModel.IndexOf | src/hooks/cart.tsx:46-48 | `findIndex` gives the first position whose id matches, or -1 when none does; it is non-negative exactly when the id is in the cart |
| CartModel.Bump | src/hooks/cart.tsx:61 | `quantity += delta` on the entry at one position: only that entry's quantity changes, length and every other entry stay |
| CartModel.RemoveAt | src/hooks/cart.tsx:96 | `splice(i, 1)`: the length drops by one, entries before i stay and entries after i move down one place in their order |
| CartModel.AddToCart | src/hooks/cart.tsx:46-62 | after addToCart the id is in the cart; the length grows by one exactly when the id was absent |
| CartModel.Increment | src/hooks/cart.tsx:74-79 | increment fails exactly when the id is absent; otherwise the length is unchanged |
| CartModel.Decrement | src/hooks/cart.tsx:90-97 | decrement fails exactly when the id is absent; otherwise the length drops by at most one |
| CartProperties.FirstIndexUnique | src/hooks/cart.tsx:46-48 | the answer of `findIndex` is determined: any first-match position equals `IndexOf` |
| CartProperties.IndexOfUnique | src/hooks/cart.tsx:74-76 | with unique ids, `findIndex` on an entry's id finds that entry's position |
| CartProperties.AddToCartNew | src/hooks/cart.tsx:49-53 | an id not in the cart: one new entry with the item's fields and quantity 1 at the end, earlier entries unchanged and in order |
| CartProperties.AddToCartExisting | src/hooks/cart.tsx:59-62 | an id in the cart: that entry's quantity rises by exactly 1 in its position (its other fields are kept), same length, every other entry unchanged |
| CartProperties.AddToCartQuantityOf | src/hooks/cart.tsx:46-62 | addToCart raises the item's quantity by exactly 1 (an absent id counting as 0) and leaves every other id's quantity unchanged |
| CartProperties.AddToCartWellFormed | src/hooks/cart.tsx:46-61 | addToCart keeps ids unique and quantities at least 1 |
| CartProperties.AddToCartTimesNew | src/hooks/cart.tsx:46-61 | n addToCart calls with an id the cart lacks leave exactly one entry for it, at the end, with quantity n, and the earlier entries untouched |
| CartProperties.AddToCartTimesQuantityOf | src/hooks/cart.tsx:46-61 | n addToCart calls raise the item's quantity by exactly n, whatever the cart held |
| CartProperties.AddToCartExistingIsIncrement | src/hooks/cart.tsx:59-62 | on an id in the cart, addToCart gives the same cart as increment |
| CartProperties.IncrementExisting | src/hooks/cart.tsx:74-79 | increment on a present id raises only that entry's quantity by 1; length, order and all other entries stay |
| CartProperties.IncrementQuantityOf | src/hooks/cart.tsx:74-79 | increment raises its id's quantity by exactly 1 and no other id's |
| CartProperties.IncrementWellFormed | src/hooks/cart.tsx:78 | increment keeps ids unique and quantities at least 1 |
| CartProperties.DecrementAboveOne | src/hooks/cart.tsx:90-94 | decrement on an entry with quantity above 1 lowers it by 1 in place; nothing else changes |
| CartProperties.DecrementRemoves | src/hooks/cart.tsx:94-97 | decrement on an entry with quantity 1 (or less) removes it: the other entries keep their relative order and the id is gone |
| CartProperties.DecrementWellFormed | src/hooks/cart.tsx:94-97 | decrement keeps ids unique and never leaves an entry with quantity 0 or below |
| CartProperties.DecrementQuantityOf | src/hooks/cart.tsx:90-97 | decrement lowers its id's quantity by exactly 1 (reaching 0 means absent) and leaves every other id's quantity unchanged |
| CartProperties.RemoveAtQuantityOf | src/hooks/cart.tsx:96 | splicing out one entry leaves the quantity of every other id unchanged |
| CartProperties.DecrementUndoesAddToCart | src/hooks/cart.tsx:46-97 | on a cart with positive quantities, decrement after addToCart gives back the cart before it, whether the id was new or not |
| CartProperties.DecrementUndoesIncrement | src/hooks/cart.tsx:74-97 | on a cart with positive quantities, decrement after increment gives back the cart before it |
| CartProperties.IncrementUndoesDecrement | src/hooks/cart.tsx:74-94 | increment after a decrement that kept the entry gives back the cart before it |
| CartStore.CartProvider.constructor | src/hooks/cart.tsx:29 | the provider starts with an empty cart |
| CartStore.CartProvider.LoadProducts | src/hooks/cart.tsx:31-42 | a stored snapshot replaces the cart wholesale; with none, the cart is unchanged |
| CartStore.CartProvider.AddToCart | src/hooks/cart.tsx:44-70 | the new `products` is `CartModel.AddToCart` of the old one, and the invariant is kept |
| CartStore.CartProvider.Increment | src/hooks/cart.tsx:72-86 | reports whether the id was found; if so the new `products` is `CartModel.Increment` of the old one, otherwise it is unchanged; the invariant is kept |
| CartStore.CartProvider.Decrement | src/hooks/cart.tsx:88-105 | reports whether the id was found; if so the new `products` is `CartModel.Decrement` of the old one, with the entry spliced out at quantity 0, otherwise it is unchanged; the invariant is kept |

## Left out

- AsyncStorage reads and writes under the key `@Marketplace:products` are left out. They are I/O against an external store. `LoadProducts` takes the already-decoded snapshot as a parameter, where `None` stands for no value, an empty string or a value `JSON.parse` rejects.
- `JSON.parse` and `JSON.stringify` are left out. They are a foreign library, so no persistence round trip is stated.
- React machinery is left out: `useState`, `setProducts` publishing a copy, `useEffect`, `useCallback`, `useMemo` and the context provider. So are the stale-closure and async races between back-to-back calls. These are framework and concurrency behaviour. The model runs the operations one after another, each on the latest state.
- The `useCart` scope check (lines 115-123) is left out. It is a context guard with no cart logic.
- Aliasing is not modelled. The source mutates the caller's object in `addToCart` (lines 50-51). The three operations also write into the array held as React state (`newProducts = products`). The model builds the new entry fresh and replaces the `seq` field.
- Arithmetic on JavaScript `number` is not modelled. Quantities and prices are unbounded integers. Float precision only matters past 2^53 units, and `price` is never computed with.
- The failure of increment and decrement on an absent id is modelled as a result. The TypeError itself, and the rejected promise it causes, are not.
