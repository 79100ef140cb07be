# Boba shop client: menu pagination and cart

A Dafny model of the client-side state machine of the boba-tea ordering site, in its two
browser-script variants:

- `public/cj-tea.js`. The menu is an object of category arrays, browsed by infinite scroll
  over its flattening. The customization form submits a size, sugar and ice level and a list
  of topping ids. The cart is written to browser storage under `"cart"` after every change
  and read back at start-up.
- `public/twinkle-tea.js`. The menu is treated as a plain array of products (see "## Left out" for the shape the bundled server serves). The customization form's
  toppings are checkboxes that each carry a name and a price. The cart lives only in memory,
  and a counter on the page shows its length.

Each script's module-level variables (`menu`, `currentPage`, `cart`, `currentItem`), together
with the page state and storage its handlers update, become a `Shop` class:

- the items rendered so far;
- whether the customization section is visible;
- for cj-tea, the stored snapshot;
- for twinkle-tea, the displayed count.

Each handler becomes a method whose postcondition gives the whole new state in terms of the
old. The class invariant `Valid()` says three things:

- the rendered items are exactly the (flattened) menu window from the page the cursor stood at when the menu arrived up to the cursor's page start (a ghost field `skipped` records that page);
- the current item is one that was rendered;
- for twinkle-tea, the counter equals the cart length.

The array built-ins the scripts use (`slice`, `splice(i, 1)`, `flat()`) are modelled once,
in `JsArray`. The page window and its coverage lemmas are in `Pagination`. Prices are
integer cents.

Files: `wrappers.dfy` (Option, Result), `js_array.dfy`, `pagination.dfy`, `cj_tea.dfy`,
`twinkle_tea.dfy`.

Three things the scripts do not do, and the model does not either:

- They do not recover from a malformed stored cart. In cj-tea, `JSON.parse` at line 127 is
  unguarded. It throws, and `init`'s catch then skips `attachEventListeners` (the form, cart
  and review listeners) and the first `renderMenuPage`; the scroll listener, attached when the
  script loads, keeps working. The model stores an `Option` snapshot, so malformed data cannot occur in it.
- They do not clear `currentItem` after a submit: they only hide the section. The model keeps
  `currentItem`.
- They do not check the ice and sugar levels against the catalog's values: they take whatever
  the form holds, and so does the model.

Pagination coverage (`Pagination.Coverage`) holds for the shops only when the first render
comes after the menu has loaded. The scroll listener in both scripts can render before that
(see "## Findings").

## Model

| member | source | states |
|---|---|---|
| JsArray.Slice | public/cj-tea.js:36-38 | `slice(start, end)` gives `min(end, length) - start` elements (none when the window is empty or starts past the end), element `k` being `s[start + k]` |
| JsArray.SpliceOne | public/cj-tea.js:161-162 | `splice(i, 1)` with `i` in range shortens by one, keeps the elements before `i` and shifts the later ones down by one; out of range it changes nothing |
| JsArray.SpliceOneMultiset | public/cj-tea.js:162 | removal takes out exactly the element at the index and nothing else |
| JsArray.FlatAppend | public/cj-tea.js:38 | flattening distributes over concatenation of the category list |
| JsArray.FlatLayout | public/cj-tea.js:38 | each category occupies a contiguous window of the flattened menu, in category order, with its own item order kept |
| JsArray.FlatEnd | public/cj-tea.js:38 | the last category ends exactly at the end of the flattened menu |
| JsArray.FlatMembers | public/cj-tea.js:38 | an item is in the flattened menu if and only if it is in some category |
| Pagination.PageWindow | public/cj-tea.js:36-38 | page `p` is the window between clipped starts `p*6` and `p*6+6`; it is empty once `p*6` reaches the length (empty or failed menu included), and otherwise has `min(6, remaining)` items |
| Pagination.PageExtendsPrefix | public/cj-tea.js:36-38 | rendering page `p` after the prefix up to its start yields the prefix up to page `p+1`'s start |
| Pagination.EmittedIsPrefix | public/cj-tea.js:36-38 | the first `k` renders from page 0 together emit exactly the list prefix up to `min(6k, N)`, in order |
| Pagination.EndReachedAfterNumPages | public/cj-tea.js:8 | the cursor's start reaches the end if and only if at least `ceil(N/6)` renders have happened |
| Pagination.Coverage | public/cj-tea.js:72 | `ceil(N/6)` renders emit every item exactly once, in order; fewer renders leave some item out |
| Pagination.NothingAfterEnd | public/twinkle-tea.js:48-50 | after `ceil(N/6)` renders, further renders emit nothing and the total stays the whole list |
| Pagination.PagesDisjoint | public/twinkle-tea.js:50 | two different pages of a list without repeats share no item |
| Pagination.PageStartMonotone | public/twinkle-tea.js:48 | a later page never starts earlier |
| Pagination.PageExtendsWindow | public/twinkle-tea.js:48-50 | rendering page `p` after pages `f .. p-1` extends their window to page `p+1`'s start |
| Pagination.LateStartMissesHead | public/twinkle-tea.js:79 | renders that start at a page after the first never show the head of a list without repeats |
| CjTea.FindTopping | public/cj-tea.js:259-261 | the lookup returns the first catalog topping with the id, and nothing exactly when no topping has it |
| CjTea.GetToppingById | public/cj-tea.js:259-261 | the lookup fails if and only if the name `customizations` is unbound where it is defined; with a catalog bound it finds nothing exactly when no catalog entry has the id, and otherwise finds an entry with the id that no earlier entry has |
| CjTea.FirstMatchIsFound | public/cj-tea.js:259-261 | the entry `find` returns is determined by the catalog: any entry with the id that no earlier entry has is the one found |
| CjTea.CalculateItemPriceIn | public/cj-tea.js:248-257 | the `forEach` with the lookup's binding given: with a catalog, the base price plus every matched topping's price; unbound, a price if and only if no id is selected, the first lookup's error being passed on |
| CjTea.CalculateItemPrice | public/cj-tea.js:248-257 | the total is the base price plus the price of each selected id that matches a catalog topping; an empty selection gives the base price |
| CjTea.CalculateItemPriceAsWritten | public/cj-tea.js:248-261 | as written (`customizations` unbound), a price is produced if and only if no topping is selected, and then it is the base price; for every catalog it equals the corrected price exactly when no topping is selected |
| CjTea.ToppingsTotalAppend | public/cj-tea.js:250-255 | the topping total of two concatenated selections is the sum of their totals |
| CjTea.UnmatchedIdsAddNothing | public/cj-tea.js:251-254 | ids that match no catalog topping add nothing |
| CjTea.OneMoreTopping | public/cj-tea.js:250-254 | one more id adds the price of its first matching topping, or nothing when none matches |
| CjTea.ToppingsTotalNonNegative | public/cj-tea.js:248-257 | with non-negative topping prices the customized price is never below the base price |
| CjTea.Shop.constructor | public/cj-tea.js:4-8 | start state: empty menu, cursor 0, empty cart, no current item, storage as found |
| CjTea.Shop.LoadMenu | public/cj-tea.js:22-32 | a successful fetch replaces the initial empty menu, a failed one leaves it empty; the cursor keeps whatever scroll renders during the fetch gave it |
| CjTea.Shop.RenderMenuPage | public/cj-tea.js:34-73 | emits exactly the flattened menu's page at the cursor, in order, appends it to the rendered items and advances the cursor by exactly one, also when nothing is left |
| CjTea.Shop.HandleScrollAsWritten | public/cj-tea.js:75-79 | at the page bottom renders the next page whatever has been loaded; otherwise changes nothing |
| CjTea.Shop.HandleScroll | public/cj-tea.js:75-79 | corrected listener: renders the next page at the bottom only after `init` has rendered, so no page is consumed during the fetch |
| CjTea.Shop.SelectItem | public/cj-tea.js:60-63 | a rendered item becomes the current item and the customization section opens |
| CjTea.Shop.SaveCartToLocalStorage | public/cj-tea.js:120-122 | the snapshot becomes the whole current cart |
| CjTea.Shop.LoadCartFromLocalStorage | public/cj-tea.js:124-130 | a stored snapshot becomes the cart exactly; with none stored the cart is unchanged |
| CjTea.Shop.AddItemToCart | public/cj-tea.js:114-118 | appends the item at the end; earlier entries are unchanged, and the snapshot equals the new cart |
| CjTea.Shop.RemoveItemFromCart | public/cj-tea.js:161-165 | the cart loses exactly the entry at the index, keeping the others in order, and the snapshot equals the new cart |
| CjTea.Shop.SubmitCustomization | public/cj-tea.js:171-191 | appends one entry that copies the current item's name and image and records the form's size, sugar, ice and topping ids; its price is the base price plus the matched toppings' prices; the snapshot is updated, the section hidden, the rest unchanged |
| CjTea.Shop.SubmitCustomizationAsWritten | public/cj-tea.js:171-191 | as written: with any topping selected the handler throws before `addItemToCart`, leaving cart, snapshot and section unchanged; with none, the entry is added at the base price and persisted |
| CjTea.Shop.Init | public/cj-tea.js:11-20 | after start-up: the fetched menu (or empty), the stored cart (or the cart as it was), and the page at the cursor rendered (page 0 unless a scroll came first) with the cursor advanced by one |
| CjTea.CartSurvivesReload | public/cj-tea.js:114-165 | a session that starts up and then adds and removes entries in any order (`Replay` of the operations on the restored cart) leaves a snapshot from which the next session's start-up rebuilds that same cart |
| CjTea.EmptyStorageGivesEmptyCart | public/cj-tea.js:124-126 | with nothing stored the cart after start-up is empty |
| CjTea.ScrollDuringMenuFetchAsWritten | public/cj-tea.js:72-79 | a scroll during the menu fetch makes start-up show page 1, and the first item of a menu without repeats is not shown |
| CjTea.ScrollDuringMenuFetch | public/cj-tea.js:11-20 | with the guarded listener, the same scroll leaves start-up showing page 0, first item included |
| CjTea.ClassicWithBoba | public/cj-tea.js:171-191 | the full flow (start-up, select, submit a 450-cent item with 75-cent Boba) gives a cart of one 525-cent entry with the snapshot equal to it; through the submit as written the cart and storage stay empty and the section stays shown |
| TwinkleTea.CheckedMembers | public/twinkle-tea.js:145 | a box is selected if and only if it is one of the form's boxes and is checked |
| TwinkleTea.CheckedAppend | public/twinkle-tea.js:145 | selection keeps document order across groups of boxes |
| TwinkleTea.NoneChecked | public/twinkle-tea.js:142-148 | with no box checked, the topping list is empty and the topping price is 0 |
| TwinkleTea.NamesAt | public/twinkle-tea.js:146 | the topping list holds one name per selected box, position for position |
| TwinkleTea.PriceSumAppend | public/twinkle-tea.js:143-147 | the topping price of two concatenated selections is the sum of their prices |
| TwinkleTea.PriceSumNonNegative | public/twinkle-tea.js:143-152 | with non-negative box prices the customized price is at least the base price |
| TwinkleTea.Shop.constructor | public/twinkle-tea.js:5-9 | start state: empty menu, cursor 0, empty cart, no current item, counter 0 |
| TwinkleTea.Shop.LoadMenu | public/twinkle-tea.js:33-43 | a successful fetch replaces the initial empty menu, a failed one leaves it empty; the cursor keeps whatever scroll renders during the fetch gave it |
| TwinkleTea.Shop.RenderMenuPage | public/twinkle-tea.js:46-80 | emits exactly `menu[page*6 .. min(page*6+6, N))`, in order, appends it to the rendered items and advances the cursor by one; it emits nothing once past the end |
| TwinkleTea.Shop.HandleScrollAsWritten | public/twinkle-tea.js:83-87 | at the page bottom renders the next page whatever has been loaded; otherwise changes nothing |
| TwinkleTea.Shop.HandleScroll | public/twinkle-tea.js:83-87 | corrected listener: renders the next page at the bottom only after `init` has rendered |
| TwinkleTea.Shop.ShowModal | public/twinkle-tea.js:104-107 | only reveals the customization section |
| TwinkleTea.Shop.HideModal | public/twinkle-tea.js:110-113 | only hides the customization section |
| TwinkleTea.Shop.SelectItem | public/twinkle-tea.js:68-71 | a rendered product becomes the current item and the section opens |
| TwinkleTea.Shop.UpdateCartCount | public/twinkle-tea.js:167-174 | the counter shows the cart's length |
| TwinkleTea.Shop.HandleCustomizationFormSubmit | public/twinkle-tea.js:129-164 | with no current item nothing changes; otherwise exactly one entry is appended, priced at the base price plus the checked boxes' prices, recording ice, sugar and the checked names in checkbox order; the counter equals the cart length, the section is hidden, and menu, cursor and current item are unchanged |
| TwinkleTea.Shop.RemoveCartItem | public/twinkle-tea.js:189-193 | the entry at the index is removed and the others keep their order; the counter equals the cart length |
| TwinkleTea.Shop.Init | public/twinkle-tea.js:13-19 | after start-up: the fetched menu (or empty) and the page at the cursor rendered (page 0 unless a scroll came first) with the cursor advanced by one |
| TwinkleTea.SubmitWithoutSelection | public/twinkle-tea.js:131-134 | a submit before any selection leaves the cart empty and the counter at 0 |
| TwinkleTea.ClassicWithBoba | public/twinkle-tea.js:143-160 | a 450-cent product with Boba (75) checked and Pearl unchecked gives one entry at 525 cents that names only Boba |
| TwinkleTea.ScrollDuringMenuFetchAsWritten | public/twinkle-tea.js:79-87 | a scroll during the fetch makes start-up show page 1, and the first product of a list without repeats is not shown |
| TwinkleTea.ScrollDuringMenuFetch | public/twinkle-tea.js:13-19 | with the guarded listener, start-up shows page 0, first product included |

## Left out

- DOM construction, CSS class toggles and the scroll position test (cj-tea.js:76, twinkle-tea.js:84). Rendering is modelled as the list of rendered items. Whether the viewport is at the page bottom is a parameter of the scroll listener.
- The interleaving of events is not modelled beyond what callers of the methods choose. A scroll render before the load is modelled (`HandleScrollAsWritten`), and so are its consequences (see Findings).
- TwinkleTea.Shop.LoadMenu: the `/products` result is assumed to be an array of products. The server in `app.js` (on twinkle-tea's default port 8000) sends `data/menu.json` whole (app.js:28-29). It also indexes that value by lower-case category name (app.js:35-38), so the value is most likely an object of category arrays. On such an object `menu.slice` (twinkle-tea.js:50) throws a TypeError before `currentPage++`, and no product is ever rendered. This is not modelled, because `data/menu.json` is not part of this model.
- Network I/O. The results of `loadMenu`, `loadConfig`, `loadCustomizations` / `fetchCustomizationOptions` and `postReview` are parameters, or the calls are dropped: the config URL and the review POST do not affect the cart.
- The rendering of options into the form (`renderCustomizationOptions`, `setUpCustomization`). This is DOM population only. The topping catalog is an explicit parameter of the cj-tea submit.
- The cj-tea cart view (`updateCartView`) and the twinkle-tea cart list (`renderCartItems`), apart from their remove handlers. These are DOM only.
- The missing-element branch of `updateCartCount`, which only logs. The model assumes the counter element exists.
- JSON encoding and decoding of the snapshot. The unguarded `JSON.parse` throwing on malformed data is not modelled.
- Floating-point prices, `toFixed(2)` and `parseFloat`. Integer cents stand in for them, so sums are exact.
- Ids compared by `===`. The form yields strings, so a catalog whose ids are numbers would match nothing. The model has string ids throughout.
- Negative indices to `splice`. Indices come from `forEach` and are never negative.
- Order submission and clearing the cart. Neither script has them, so they are not part of this model.
- `app.js`, the static file server and its routes. These are not part of this model.
- CjTea.Shop.SubmitCustomization: requires a current item, because the script dereferences `currentItem` without a check (cj-tea.js:186). It looks toppings up in an explicit catalog rather than raising the as-written ReferenceError (see Findings).
- CjTea.Shop.LoadMenu, TwinkleTea.Shop.LoadMenu: require the menu to be the initial empty one, as it is before the single assignment in `loadMenu`; renders over that empty menu may already have advanced the cursor.

## Findings

| source | as written | input that shows it | evidently intended | confidence | as-written member | corrected member |
|---|---|---|---|---|---|---|
| public/cj-tea.js:259-261 | `getToppingById` reads `customizations`, which is only a local of `fetchCustomizationOptions` (line 95), so the lookup raises a ReferenceError and the submit handler aborts before `addItemToCart` | submit with one topping id selected, e.g. `["boba"]` on a 450-cent item (`CjTea.ClassicWithBoba`) | look the id up in the catalog that filled the form and add its price (525 cents) | high, not executed | CjTea.CalculateItemPriceAsWritten | CjTea.CalculateItemPrice |
| public/cj-tea.js:75-79 | the scroll listener is attached when the script loads. `init` awaits the menu fetch (line 13) before its first render. A scroll to the bottom meanwhile renders the empty menu and still runs `currentPage++` (line 72). `init` then renders page 1, and the first six items are never shown | one scroll event at the page bottom before `/menu` answers (`CjTea.ScrollDuringMenuFetchAsWritten`) | render from page 0 once the menu has arrived, e.g. a listener that renders only after `init`'s first render | plausible, not executed | CjTea.Shop.HandleScrollAsWritten | CjTea.Shop.HandleScroll |
| public/twinkle-tea.js:83-87 | the same race: the listener is attached before `init` awaits `loadMenu` (lines 14-15), and a render over the empty menu still runs `currentPage++` (line 79) | one scroll event at the page bottom before `/products` answers (`TwinkleTea.ScrollDuringMenuFetchAsWritten`) | render from page 0 once the menu has arrived | plausible, not executed | TwinkleTea.Shop.HandleScrollAsWritten | TwinkleTea.Shop.HandleScroll |
