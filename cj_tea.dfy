/**
 * The cj-tea shop script: a menu of categories browsed by infinite scroll,
 * a customization form, and a cart that is written to browser storage
 * (under the key "cart") after every change and read back at start-up.
 * Prices are integer cents.
 */
module CjTea {
  import opened Wrappers
  import opened JsArray
  import opened Pagination

  /** One menu entry as the `/menu` endpoint returns it. */
  datatype MenuItem = MenuItem(name: string, price: int, image: string)

  /** One topping of the customization catalog; the form's option values are topping ids. */
  datatype Topping = Topping(id: string, name: string, price: int)

  /**
   * A cart entry: the menu item's fields copied by value, with the form's
   * size, sugar, ice and topping ids added and the price replaced by the
   * customized price.
   */
  datatype LineItem = LineItem(name: string, image: string, price: int,
                               size: string, sugar: string, ice: string, toppings: seq<string>)

  /** The error the as-written price computation raises. */
  datatype Error = ReferenceError

  /**
   * `getToppingById` looked up in an explicit catalog: the first topping
   * whose id equals `id`, or nothing when no topping has that id.
   */
  function FindTopping(catalog: seq<Topping>, id: string): (r: Option<Topping>)
    ensures r.None? <==> forall k :: 0 <= k < |catalog| ==> catalog[k].id != id
    ensures r.Some? ==> r.value.id == id && r.value in catalog
    ensures r.Some? ==> exists k :: 0 <= k < |catalog| && catalog[k] == r.value
                          && forall j :: 0 <= j < k ==> catalog[j].id != id
  {
    if catalog == [] then None
    else if catalog[0].id == id then Some(catalog[0])
    else
      var r := FindTopping(catalog[1..], id);
      assert r.Some? ==> exists k :: 0 <= k < |catalog| && catalog[k] == r.value
                           && forall j :: 0 <= j < k ==> catalog[j].id != id by {
        if r.Some? {
          var k :| 0 <= k < |catalog[1..]| && catalog[1..][k] == r.value
                   && forall j :: 0 <= j < k ==> catalog[1..][j].id != id;
          assert catalog[k + 1] == r.value;
          assert forall j :: 0 <= j < k + 1 ==> catalog[j].id != id by {
            forall j | 0 <= j < k + 1 ensures catalog[j].id != id {
              if j > 0 { assert catalog[j] == catalog[1..][j - 1]; }
            }
          }
        }
      }
      r
  }

  /** A topping that is the first catalog entry with the id is the one the lookup finds. */
  lemma FirstMatchIsFound(catalog: seq<Topping>, id: string, k: nat)
    requires k < |catalog| && catalog[k].id == id
    requires forall j :: 0 <= j < k ==> catalog[j].id != id
    ensures FindTopping(catalog, id) == Some(catalog[k])
  {
    var r := FindTopping(catalog, id);
    var k' :| 0 <= k' < |catalog| && catalog[k'] == r.value && forall j :: 0 <= j < k' ==> catalog[j].id != id;
    assert k' == k;
  }

  /** What one selected id adds to the price: its topping's price, or nothing when no topping matches. */
  function ToppingPrice(catalog: seq<Topping>, id: string): int
  {
    match FindTopping(catalog, id)
    case Some(t) => t.price
    case None => 0
  }

  /** Reference sum of what the selected ids add, taken in selection order. */
  function ToppingsTotal(ids: seq<string>, catalog: seq<Topping>): int
  {
    if ids == [] then 0
    else ToppingsTotal(ids[..|ids| - 1], catalog) + ToppingPrice(catalog, ids[|ids| - 1])
  }

  /**
   * `getToppingById(toppingId)`. `customizations` is what the name
   * `customizations` is bound to where the function is defined. In the script
   * nothing of that name is in scope there (None), so reading it raises a
   * ReferenceError. With a catalog bound, the lookup is
   * `customizations.toppings.find(...)`.
   */
  function GetToppingById(customizations: Option<seq<Topping>>, toppingId: string)
    : (r: Result<Option<Topping>, Error>)
    ensures r.Err? <==> customizations.None?
    ensures r.Ok? ==> (r.value.None? <==>
              forall k :: 0 <= k < |customizations.value| ==> customizations.value[k].id != toppingId)
    ensures r.Ok? && r.value.Some? ==>
              exists k :: 0 <= k < |customizations.value| && customizations.value[k] == r.value.value
                && r.value.value.id == toppingId
                && forall j :: 0 <= j < k ==> customizations.value[j].id != toppingId
  {
    match customizations
    case None => Err(ReferenceError)
    case Some(catalog) => Ok(FindTopping(catalog, toppingId))
  }

  /**
   * The `forEach` of `calculateItemPrice`, with `customizations` bound as
   * given. Each selected id adds its topping's price. An error from a lookup
   * ends the loop and is passed on, as the throw does.
   */
  method CalculateItemPriceIn(customizations: Option<seq<Topping>>, basePrice: int, toppingIds: seq<string>)
    returns (r: Result<int, Error>)
    ensures customizations.Some? ==> r == Ok(basePrice + ToppingsTotal(toppingIds, customizations.value))
    ensures customizations.None? ==> (r.Ok? <==> toppingIds == [])
    ensures customizations.None? && r.Ok? ==> r.value == basePrice
  {
    var totalPrice := basePrice;
    var i := 0;
    while i < |toppingIds|
      invariant 0 <= i <= |toppingIds|
      invariant customizations.Some? ==>
                  totalPrice == basePrice + ToppingsTotal(toppingIds[..i], customizations.value)
      invariant customizations.None? ==> i == 0 && totalPrice == basePrice
    {
      assert toppingIds[..i + 1][..i] == toppingIds[..i];
      var found := GetToppingById(customizations, toppingIds[i]);
      if found.Err? {
        return Err(found.error);
      }
      var topping := found.value;
      if topping.Some? {
        var k :| 0 <= k < |customizations.value| && customizations.value[k] == topping.value
                 && topping.value.id == toppingIds[i]
                 && forall j :: 0 <= j < k ==> customizations.value[j].id != toppingIds[i];
        FirstMatchIsFound(customizations.value, toppingIds[i], k);
        totalPrice := totalPrice + topping.value.price;
      }
      i := i + 1;
    }
    assert toppingIds[..i] == toppingIds;
    r := Ok(totalPrice);
  }

  /**
   * `calculateItemPrice(basePrice, toppings)` with the lookup made against
   * `catalog`: the base price plus the price of every selected id that
   * names a catalog topping.
   */
  method CalculateItemPrice(basePrice: int, toppingIds: seq<string>, catalog: seq<Topping>)
    returns (totalPrice: int)
    ensures totalPrice == basePrice + ToppingsTotal(toppingIds, catalog)
    ensures toppingIds == [] ==> totalPrice == basePrice
  {
    var r := CalculateItemPriceIn(Some(catalog), basePrice, toppingIds);
    totalPrice := r.value;
  }

  /**
   * `calculateItemPrice` as the script has it, with `customizations`
   * unbound. It yields a price only for an empty selection. For every
   * catalog, it agrees with the corrected price exactly when no topping is
   * selected.
   */
  method CalculateItemPriceAsWritten(basePrice: int, toppingIds: seq<string>)
    returns (r: Result<int, Error>)
    ensures r.Ok? <==> toppingIds == []
    ensures r.Ok? ==> r.value == basePrice
    ensures forall catalog :: r == Ok(basePrice + ToppingsTotal(toppingIds, catalog)) <==> toppingIds == []
  {
    r := CalculateItemPriceIn(None, basePrice, toppingIds);
  }

  /** The total over a concatenation of selections is the sum of the two totals. */
  lemma {:induction false} ToppingsTotalAppend(a: seq<string>, b: seq<string>, catalog: seq<Topping>)
    ensures ToppingsTotal(a + b, catalog) == ToppingsTotal(a, catalog) + ToppingsTotal(b, catalog)
  {
    if b == [] {
      assert a + b == a;
    } else {
      var b' := b[..|b| - 1];
      assert (a + b)[..|a + b| - 1] == a + b';
      ToppingsTotalAppend(a, b', catalog);
    }
  }

  /** Ids that match no catalog topping add nothing to the price. */
  lemma {:induction false} UnmatchedIdsAddNothing(ids: seq<string>, catalog: seq<Topping>)
    requires forall i, k :: 0 <= i < |ids| && 0 <= k < |catalog| ==> catalog[k].id != ids[i]
    ensures ToppingsTotal(ids, catalog) == 0
  {
    if ids != [] {
      UnmatchedIdsAddNothing(ids[..|ids| - 1], catalog);
      assert FindTopping(catalog, ids[|ids| - 1]).None?;
    }
  }

  /** Adding one more selected id raises the price by that id's topping price, or not at all when it matches nothing. */
  lemma OneMoreTopping(ids: seq<string>, id: string, catalog: seq<Topping>)
    ensures (forall k :: 0 <= k < |catalog| ==> catalog[k].id != id) ==>
              ToppingsTotal(ids + [id], catalog) == ToppingsTotal(ids, catalog)
    ensures forall k :: 0 <= k < |catalog| && catalog[k].id == id && (forall j :: 0 <= j < k ==> catalog[j].id != id) ==>
              ToppingsTotal(ids + [id], catalog) == ToppingsTotal(ids, catalog) + catalog[k].price
  {
    assert (ids + [id])[..|ids + [id]| - 1] == ids;
    forall k | 0 <= k < |catalog| && catalog[k].id == id && (forall j :: 0 <= j < k ==> catalog[j].id != id)
      ensures FindTopping(catalog, id) == Some(catalog[k])
    {
      FirstMatchIsFound(catalog, id, k);
    }
  }

  /** With non-negative topping prices, customizing never lowers the price. */
  lemma {:induction false} ToppingsTotalNonNegative(ids: seq<string>, catalog: seq<Topping>)
    requires forall k :: 0 <= k < |catalog| ==> catalog[k].price >= 0
    ensures ToppingsTotal(ids, catalog) >= 0
  {
    if ids != [] {
      ToppingsTotalNonNegative(ids[..|ids| - 1], catalog);
    }
  }

  /**
   * The state the script keeps in its module-level variables, plus the
   * parts of the page and of browser storage that its operations update.
   */
  class Shop {
    /** `menu`: the categories in the order the object lists them, each an ordered list of items. */
    var menu: seq<seq<MenuItem>>
    /** `currentPage`: the next page to render. */
    var currentPage: nat
    /** The items rendered into the menu section so far, in rendering order. */
    var rendered: seq<MenuItem>
    /** `cart`. */
    var cart: seq<LineItem>
    /** `currentItem`: the item whose Add button was clicked last. */
    var currentItem: Option<MenuItem>
    /** The persisted snapshot: the cart stored under "cart", if any. */
    var stored: Option<seq<LineItem>>
    /** Whether the customization section is shown. */
    var customizationVisible: bool
    /** The pages the cursor had passed, over the still-empty menu, when the menu arrived. */
    ghost var skipped: nat

    /**
     * What rendering has shown is exactly the flattened menu from the page
     * the cursor stood at when the menu arrived up to its current page start.
     * The current item is one that was rendered, since only rendered items
     * have an Add button.
     */
    ghost predicate Valid()
      reads this
    {
      && skipped <= currentPage
      && rendered == Flat(menu)[PageStart(skipped, |Flat(menu)|)..PageStart(currentPage, |Flat(menu)|)]
      && (currentItem.Some? ==> currentItem.value in rendered)
    }

    /** The module-level `let`s at page load; `saved` is what browser storage holds under "cart". */
    constructor (saved: Option<seq<LineItem>>)
      ensures Valid()
      ensures menu == [] && currentPage == 0 && rendered == [] && cart == []
      ensures currentItem == None && stored == saved && !customizationVisible && skipped == 0
    {
      menu := [];
      currentPage := 0;
      rendered := [];
      cart := [];
      currentItem := None;
      stored := saved;
      customizationVisible := false;
      skipped := 0;
    }

    /**
     * `loadMenu`: `fetched` is the outcome of the request, None when it fails
     * (the menu then stays empty). Until it completes the menu is the initial
     * empty one, but scroll-triggered renders may already have advanced the
     * cursor.
     */
    method LoadMenu(fetched: Option<seq<seq<MenuItem>>>)
      requires Valid() && menu == []
      modifies this
      ensures Valid()
      ensures menu == fetched.GetOr(old(menu)) && skipped == old(currentPage)
      ensures currentPage == old(currentPage) && rendered == [] && currentItem == None
      ensures cart == old(cart) && stored == old(stored) && customizationVisible == old(customizationVisible)
    {
      if fetched.Some? {
        menu := fetched.value;
      }
      skipped := currentPage;
    }

    /**
     * `renderMenuPage`: renders the flattened menu's items of the current
     * page, in order, then advances the cursor by exactly one, whether or not
     * anything was left to render.
     */
    method RenderMenuPage() returns (emitted: seq<MenuItem>)
      requires Valid()
      modifies this
      ensures Valid()
      ensures emitted == Page(Flat(menu), old(currentPage))
      ensures old(currentPage) * ItemsPerPage >= |Flat(menu)| ==> emitted == []
      ensures forall k :: 0 <= k < |emitted| ==> emitted[k] == Flat(menu)[old(currentPage) * ItemsPerPage + k]
      ensures rendered == old(rendered) + emitted
      ensures currentPage == old(currentPage) + 1
      ensures menu == old(menu) && cart == old(cart) && currentItem == old(currentItem)
      ensures stored == old(stored) && customizationVisible == old(customizationVisible)
      ensures skipped == old(skipped)
    {
      var start := currentPage * ItemsPerPage;
      var end := start + ItemsPerPage;
      var itemsToRender := Slice(Flat(menu), start, end);
      var i := 0;
      while i < |itemsToRender|
        invariant 0 <= i <= |itemsToRender|
        invariant rendered == old(rendered) + itemsToRender[..i]
        invariant menu == old(menu) && currentPage == old(currentPage) && cart == old(cart)
        invariant currentItem == old(currentItem) && stored == old(stored)
        invariant customizationVisible == old(customizationVisible) && skipped == old(skipped)
      {
        rendered := rendered + [itemsToRender[i]];
        i := i + 1;
      }
      assert itemsToRender[..i] == itemsToRender;
      PageExtendsWindow(Flat(menu), skipped, currentPage);
      PageWindow(Flat(menu), currentPage);
      currentPage := currentPage + 1;
      emitted := itemsToRender;
    }

    /**
     * The scroll listener as the script has it. It is attached when the
     * script loads, before the menu arrives. At the bottom of the page it
     * renders the next page, whatever has been loaded.
     */
    method HandleScrollAsWritten(atBottom: bool) returns (emitted: seq<MenuItem>)
      requires Valid()
      modifies this
      ensures Valid()
      ensures atBottom ==> emitted == Page(Flat(menu), old(currentPage)) && currentPage == old(currentPage) + 1
      ensures !atBottom ==> emitted == [] && currentPage == old(currentPage)
      ensures rendered == old(rendered) + emitted
      ensures menu == old(menu) && cart == old(cart) && currentItem == old(currentItem)
      ensures stored == old(stored) && customizationVisible == old(customizationVisible)
      ensures skipped == old(skipped)
    {
      emitted := [];
      if atBottom {
        emitted := RenderMenuPage();
      }
    }

    /**
     * The scroll listener with the guard it evidently needs: it renders only
     * once `init` has rendered the first page, so a scroll during the menu
     * fetch consumes no page.
     */
    method HandleScroll(atBottom: bool) returns (emitted: seq<MenuItem>)
      requires Valid()
      modifies this
      ensures Valid()
      ensures atBottom && old(currentPage) > 0 ==>
                emitted == Page(Flat(menu), old(currentPage)) && currentPage == old(currentPage) + 1
      ensures !(atBottom && old(currentPage) > 0) ==> emitted == [] && currentPage == old(currentPage)
      ensures rendered == old(rendered) + emitted
      ensures menu == old(menu) && cart == old(cart) && currentItem == old(currentItem)
      ensures stored == old(stored) && customizationVisible == old(customizationVisible)
      ensures skipped == old(skipped)
    {
      emitted := [];
      if atBottom && currentPage > 0 {
        emitted := RenderMenuPage();
      }
    }

    /** The Add button of a rendered item: it becomes the current item and the customization section opens. */
    method SelectItem(item: MenuItem)
      requires Valid() && item in rendered
      modifies this
      ensures Valid()
      ensures currentItem == Some(item) && customizationVisible
      ensures menu == old(menu) && currentPage == old(currentPage) && rendered == old(rendered)
      ensures cart == old(cart) && stored == old(stored) && skipped == old(skipped)
    {
      currentItem := Some(item);
      customizationVisible := true;
    }

    /** `saveCartToLocalStorage`: the snapshot becomes the whole current cart. */
    method SaveCartToLocalStorage()
      requires Valid()
      modifies this
      ensures Valid()
      ensures stored == Some(cart)
      ensures menu == old(menu) && currentPage == old(currentPage) && rendered == old(rendered)
      ensures cart == old(cart) && currentItem == old(currentItem)
      ensures customizationVisible == old(customizationVisible) && skipped == old(skipped)
    {
      stored := Some(cart);
    }

    /**
     * `loadCartFromLocalStorage`: a stored snapshot replaces the cart; with
     * none stored the cart is left as it was.
     */
    method LoadCartFromLocalStorage()
      requires Valid()
      modifies this
      ensures Valid()
      ensures cart == old(stored).GetOr(old(cart))
      ensures old(stored).Some? ==> stored == Some(cart)
      ensures menu == old(menu) && currentPage == old(currentPage) && rendered == old(rendered)
      ensures stored == old(stored) && currentItem == old(currentItem)
      ensures customizationVisible == old(customizationVisible) && skipped == old(skipped)
    {
      if stored.Some? {
        cart := stored.value;
      }
    }

    /** `addItemToCart`: appends at the end, then persists the cart. */
    method AddItemToCart(item: LineItem)
      requires Valid()
      modifies this
      ensures Valid()
      ensures cart == old(cart) + [item]
      ensures |cart| == |old(cart)| + 1 && cart[..|old(cart)|] == old(cart) && cart[|old(cart)|] == item
      ensures stored == Some(cart)
      ensures menu == old(menu) && currentPage == old(currentPage) && rendered == old(rendered)
      ensures currentItem == old(currentItem) && customizationVisible == old(customizationVisible)
      ensures skipped == old(skipped)
    {
      cart := cart + [item];
      SaveCartToLocalStorage();
    }

    /**
     * `removeItemFromCart(index)`: `cart.splice(index, 1)`, then persists.
     * The index is the position of a rendered cart entry.
     */
    method RemoveItemFromCart(index: nat)
      requires Valid()
      modifies this
      ensures Valid()
      ensures cart == SpliceOne(old(cart), index)
      ensures index < |old(cart)| ==> cart == old(cart)[..index] + old(cart)[index + 1..]
      ensures stored == Some(cart)
      ensures menu == old(menu) && currentPage == old(currentPage) && rendered == old(rendered)
      ensures currentItem == old(currentItem) && customizationVisible == old(customizationVisible)
      ensures skipped == old(skipped)
    {
      cart := SpliceOne(cart, index);
      SaveCartToLocalStorage();
    }

    /**
     * The customization form's submit handler, with the topping lookup made
     * against `catalog`. The script dereferences `currentItem` without a
     * check, so an item must have been selected.
     */
    method SubmitCustomization(size: string, sugar: string, ice: string,
                               toppingIds: seq<string>, catalog: seq<Topping>)
      requires Valid() && currentItem.Some?
      modifies this
      ensures Valid()
      ensures var item := old(currentItem).value;
        cart == old(cart) + [LineItem(item.name, item.image,
                                      item.price + ToppingsTotal(toppingIds, catalog),
                                      size, sugar, ice, toppingIds)]
      ensures stored == Some(cart) && !customizationVisible
      ensures menu == old(menu) && currentPage == old(currentPage) && rendered == old(rendered)
      ensures currentItem == old(currentItem) && skipped == old(skipped)
    {
      var item := currentItem.value;
      var price := CalculateItemPrice(item.price, toppingIds, catalog);
      var newItem := LineItem(item.name, item.image, price, size, sugar, ice, toppingIds);
      AddItemToCart(newItem);
      customizationVisible := false;
    }

    /**
     * The submit handler as the script has it. The price comes from the
     * as-written computation. With any topping selected, the ReferenceError
     * ends the handler before `addItemToCart`: the cart and the snapshot are
     * untouched and the section stays as it was. With none selected, the
     * entry is added at the base price.
     */
    method SubmitCustomizationAsWritten(size: string, sugar: string, ice: string, toppingIds: seq<string>)
      returns (thrown: Option<Error>)
      requires Valid() && currentItem.Some?
      modifies this
      ensures Valid()
      ensures thrown.Some? <==> toppingIds != []
      ensures toppingIds != [] ==>
        cart == old(cart) && stored == old(stored) && customizationVisible == old(customizationVisible)
      ensures toppingIds == [] ==>
        var item := old(currentItem).value;
        && cart == old(cart) + [LineItem(item.name, item.image, item.price, size, sugar, ice, [])]
        && stored == Some(cart) && !customizationVisible
      ensures menu == old(menu) && currentPage == old(currentPage) && rendered == old(rendered)
      ensures currentItem == old(currentItem) && skipped == old(skipped)
    {
      var item := currentItem.value;
      var price := CalculateItemPriceAsWritten(item.price, toppingIds);
      if price.Err? {
        return Some(price.error);
      }
      var newItem := LineItem(item.name, item.image, price.value, size, sugar, ice, toppingIds);
      AddItemToCart(newItem);
      customizationVisible := false;
      thrown := None;
    }

    /**
     * `init`: loads the menu, restores the persisted cart and renders the
     * page the cursor stands at. That is page 0 unless a scroll during the
     * fetch has already advanced the cursor.
     */
    method Init(fetched: Option<seq<seq<MenuItem>>>)
      requires Valid() && menu == []
      modifies this
      ensures Valid()
      ensures menu == fetched.GetOr(old(menu)) && skipped == old(currentPage)
      ensures cart == old(stored).GetOr(old(cart)) && stored == old(stored)
      ensures currentPage == old(currentPage) + 1 && rendered == Page(Flat(menu), old(currentPage))
      ensures currentItem == None && customizationVisible == old(customizationVisible)
    {
      LoadMenu(fetched);
      LoadCartFromLocalStorage();
      var _ := RenderMenuPage();
    }
  }

  /** A change a session makes to its cart: `addItemToCart(item)` or `removeItemFromCart(index)`. */
  datatype CartOp = Add(item: LineItem) | Remove(index: nat)

  /** The cart that results from applying `ops` in order to `cart`. */
  function Replay(cart: seq<LineItem>, ops: seq<CartOp>): seq<LineItem>
  {
    if ops == [] then cart
    else
      var rest := Replay(cart, ops[..|ops| - 1]);
      match ops[|ops| - 1]
      case Add(item) => rest + [item]
      case Remove(index) => SpliceOne(rest, index)
  }

  /**
   * A reload keeps the cart: a session that starts up and then adds and
   * removes entries in any order leaves in storage a snapshot from which the
   * next session's start-up rebuilds the same cart.
   */
  method CartSurvivesReload(saved: Option<seq<LineItem>>, fetched: Option<seq<seq<MenuItem>>>, ops: seq<CartOp>)
    returns (before: seq<LineItem>, after: seq<LineItem>)
    ensures before == Replay(saved.GetOr([]), ops)
    ensures after == before
  {
    var first := new Shop(saved);
    first.Init(fetched);
    var i := 0;
    while i < |ops|
      invariant 0 <= i <= |ops|
      invariant fresh(first) && first.Valid()
      invariant first.cart == Replay(saved.GetOr([]), ops[..i])
      invariant first.stored.GetOr([]) == first.cart
    {
      assert ops[..i + 1][..i] == ops[..i];
      match ops[i] {
        case Add(item) => first.AddItemToCart(item);
        case Remove(index) => first.RemoveItemFromCart(index);
      }
      i := i + 1;
    }
    assert ops[..i] == ops;
    before := first.cart;
    var second := new Shop(first.stored);
    second.Init(fetched);
    after := second.cart;
  }

  /** With nothing in storage the cart after start-up is empty. */
  method EmptyStorageGivesEmptyCart(fetched: Option<seq<seq<MenuItem>>>) returns (cart: seq<LineItem>)
    ensures cart == []
  {
    var shop := new Shop(None);
    shop.Init(fetched);
    cart := shop.cart;
  }

  /**
   * A scroll to the page bottom while the menu is being fetched, through the
   * listener as written. The empty menu consumes page 0, so start-up shows
   * page 1 and the menu's first item is not shown. By `LateStartMissesHead`
   * it never is, since the rendered window always starts at page 1.
   */
  method ScrollDuringMenuFetchAsWritten(categories: seq<seq<MenuItem>>) returns (shown: seq<MenuItem>)
    ensures shown == Page(Flat(categories), 1)
    ensures Distinct(Flat(categories)) && Flat(categories) != [] ==> Flat(categories)[0] !in shown
  {
    var shop := new Shop(None);
    var _ := shop.HandleScrollAsWritten(true);
    shop.Init(Some(categories));
    shown := shop.rendered;
    if Distinct(Flat(categories)) && Flat(categories) != [] {
      LateStartMissesHead(Flat(categories), 1, 2);
      PageWindow(Flat(categories), 1);
    }
  }

  /** The same scroll through the guarded listener: start-up shows page 0, with the menu's first item. */
  method ScrollDuringMenuFetch(categories: seq<seq<MenuItem>>) returns (shown: seq<MenuItem>)
    ensures shown == Page(Flat(categories), 0)
    ensures Flat(categories) != [] ==> Flat(categories)[0] in shown
  {
    var shop := new Shop(None);
    var _ := shop.HandleScroll(true);
    shop.Init(Some(categories));
    shown := shop.rendered;
    PageWindow(Flat(categories), 0);
  }

  /**
   * A Classic milk tea at 450 cents with Boba at 75 cents. Submitted with
   * the lookup made against the catalog, the cart holds one 525-cent entry
   * and the snapshot matches it. Through the submit as written, the
   * ReferenceError leaves the cart and the storage empty and the
   * customization section shown.
   */
  method ClassicWithBoba()
    returns (cart: seq<LineItem>, stored: Option<seq<LineItem>>,
             cartAsWritten: seq<LineItem>, storedAsWritten: Option<seq<LineItem>>, shownAsWritten: bool)
    ensures cart == [LineItem("Classic", "classic.png", 525, "M", "50%", "Less Ice", ["boba"])]
    ensures stored == Some(cart)
    ensures cartAsWritten == [] && storedAsWritten == None && shownAsWritten
  {
    var classic := MenuItem("Classic", 450, "classic.png");
    var catalog := [Topping("boba", "Boba", 75)];
    assert Flat([[classic]]) == [classic] by {
      assert [[classic]][1..] == [];
    }
    assert FindTopping(catalog, "boba") == Some(catalog[0]);
    assert ["boba"][..0] == [];

    var shop := new Shop(None);
    shop.Init(Some([[classic]]));
    assert shop.rendered == [classic];
    shop.SelectItem(classic);
    shop.SubmitCustomization("M", "50%", "Less Ice", ["boba"], catalog);
    cart, stored := shop.cart, shop.stored;

    var shopAsWritten := new Shop(None);
    shopAsWritten.Init(Some([[classic]]));
    assert shopAsWritten.rendered == [classic];
    shopAsWritten.SelectItem(classic);
    var _ := shopAsWritten.SubmitCustomizationAsWritten("M", "50%", "Less Ice", ["boba"]);
    cartAsWritten, storedAsWritten := shopAsWritten.cart, shopAsWritten.stored;
    shownAsWritten := shopAsWritten.customizationVisible;
  }
}
