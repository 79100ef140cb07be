/**
 * The twinkle-tea shop script: a plain list of products browsed by infinite
 * scroll, a customization form whose toppings are checkboxes carrying their
 * own prices, and an in-memory cart whose size is shown in a counter.
 * Nothing is persisted. Prices are integer cents.
 */
module TwinkleTea {
  import opened Wrappers
  import opened JsArray
  import opened Pagination

  /** One product as the `/products` endpoint returns it. */
  datatype MenuItem = MenuItem(name: string, price: int)

  /** One topping checkbox of the form, in document order: its value is the topping name, its data-price the topping price. */
  datatype Checkbox = Checkbox(value: string, price: int, checked: bool)

  /** The selections recorded with a cart entry. */
  datatype Customization = Customization(iceLevel: string, sugarLevel: string, toppings: seq<string>)

  /** A cart entry: the product's name, its customized price, and its customization. */
  datatype LineItem = LineItem(name: string, price: int, customization: Customization)

  /** The checked boxes in document order, as `querySelectorAll("input[type=checkbox]:checked")` yields them. */
  function Checked(boxes: seq<Checkbox>): seq<Checkbox>
  {
    if boxes == [] then []
    else (if boxes[0].checked then [boxes[0]] else []) + Checked(boxes[1..])
  }

  /** The boxes' values, in order. */
  function Names(boxes: seq<Checkbox>): seq<string>
  {
    if boxes == [] then [] else Names(boxes[..|boxes| - 1]) + [boxes[|boxes| - 1].value]
  }

  /** The sum of the boxes' prices. */
  function PriceSum(boxes: seq<Checkbox>): int
  {
    if boxes == [] then 0 else PriceSum(boxes[..|boxes| - 1]) + boxes[|boxes| - 1].price
  }

  /** A box is selected exactly when it is one of the form's boxes and it is checked. */
  lemma {:induction false} CheckedMembers(boxes: seq<Checkbox>, b: Checkbox)
    ensures b in Checked(boxes) <==> b in boxes && b.checked
  {
    if boxes != [] {
      CheckedMembers(boxes[1..], b);
      assert boxes == [boxes[0]] + boxes[1..];
    }
  }

  /** Selection keeps document order: the boxes of a first group come before those of a second. */
  lemma {:induction false} CheckedAppend(a: seq<Checkbox>, b: seq<Checkbox>)
    ensures Checked(a + b) == Checked(a) + Checked(b)
  {
    if a == [] {
      assert a + b == b;
    } else {
      var head := if a[0].checked then [a[0]] else [];
      assert (a + b)[0] == a[0] && (a + b)[1..] == a[1..] + b;
      assert Checked(a + b) == head + Checked(a[1..] + b);
      CheckedAppend(a[1..], b);
      assert Checked(a) == head + Checked(a[1..]);
    }
  }

  /** With no box checked nothing is selected, so the customized price is the base price and the topping list is empty. */
  lemma {:induction false} NoneChecked(boxes: seq<Checkbox>)
    requires forall k :: 0 <= k < |boxes| ==> !boxes[k].checked
    ensures Checked(boxes) == [] && Names(Checked(boxes)) == [] && PriceSum(Checked(boxes)) == 0
  {
    if boxes != [] {
      NoneChecked(boxes[1..]);
    }
  }

  /** Names lists one value per box, position for position. */
  lemma {:induction false} NamesAt(boxes: seq<Checkbox>)
    ensures |Names(boxes)| == |boxes|
    ensures forall k :: 0 <= k < |boxes| ==> Names(boxes)[k] == boxes[k].value
  {
    if boxes != [] {
      NamesAt(boxes[..|boxes| - 1]);
    }
  }

  /** The price of a concatenation of selections is the sum of their prices. */
  lemma {:induction false} PriceSumAppend(a: seq<Checkbox>, b: seq<Checkbox>)
    ensures PriceSum(a + b) == PriceSum(a) + PriceSum(b)
  {
    if b == [] {
      assert a + b == a;
    } else {
      var b' := b[..|b| - 1];
      assert (a + b)[..|a + b| - 1] == a + b';
      PriceSumAppend(a, b');
    }
  }

  /** With non-negative topping prices, the customized price is at least the base price. */
  lemma {:induction false} PriceSumNonNegative(boxes: seq<Checkbox>)
    requires forall k :: 0 <= k < |boxes| ==> boxes[k].price >= 0
    ensures PriceSum(boxes) >= 0
  {
    if boxes != [] {
      PriceSumNonNegative(boxes[..|boxes| - 1]);
    }
  }

  /**
   * The state the script keeps in its module-level variables, plus the parts
   * of the page its operations update.
   */
  class Shop {
    /** `menu`: the product list. */
    var menu: seq<MenuItem>
    /** `currentPage`: the next page to render. */
    var currentPage: nat
    /** The products rendered into the menu view so far, in rendering order. */
    var rendered: seq<MenuItem>
    /** `cart`. */
    var cart: seq<LineItem>
    /** `currentItem`: the product whose add button was clicked last. */
    var currentItem: Option<MenuItem>
    /** The number shown in the `#cartCount` element. */
    var cartCount: nat
    /** Whether the customization section is shown. */
    var customizationVisible: bool
    /** The pages the cursor had passed, over the still-empty menu, when the menu arrived. */
    ghost var skipped: nat

    /**
     * What rendering has shown is exactly the menu from the page the cursor
     * stood at when the menu arrived up to its current page start. The counter
     * shows the cart's length, and the current item is one that was rendered.
     */
    ghost predicate Valid()
      reads this
    {
      && skipped <= currentPage
      && rendered == menu[PageStart(skipped, |menu|)..PageStart(currentPage, |menu|)]
      && cartCount == |cart|
      && (currentItem.Some? ==> currentItem.value in rendered)
    }

    /** The module-level `let`s at page load, with the counter at zero. */
    constructor ()
      ensures Valid()
      ensures menu == [] && currentPage == 0 && rendered == [] && cart == []
      ensures currentItem == None && cartCount == 0 && !customizationVisible && skipped == 0
    {
      menu := [];
      currentPage := 0;
      rendered := [];
      cart := [];
      currentItem := None;
      cartCount := 0;
      customizationVisible := false;
      skipped := 0;
    }

    /**
     * `loadMenu`: `fetched` is the outcome of the request, None when it fails
     * (the menu then stays empty). Until it completes the menu is the initial
     * empty one, but scroll-triggered renders may already have advanced the
     * cursor.
     */
    method LoadMenu(fetched: Option<seq<MenuItem>>)
      requires Valid() && menu == []
      modifies this
      ensures Valid()
      ensures menu == fetched.GetOr(old(menu)) && skipped == old(currentPage)
      ensures currentPage == old(currentPage) && rendered == [] && currentItem == None
      ensures cart == old(cart) && cartCount == old(cartCount)
      ensures customizationVisible == old(customizationVisible)
    {
      if fetched.Some? {
        menu := fetched.value;
      }
      skipped := currentPage;
    }

    /**
     * `renderMenuPage`: renders `menu.slice(start, start + 6)` for the current
     * page, in order, then advances the cursor by exactly one, whether or not
     * anything was left to render.
     */
    method RenderMenuPage() returns (emitted: seq<MenuItem>)
      requires Valid()
      modifies this
      ensures Valid()
      ensures emitted == Page(menu, old(currentPage))
      ensures old(currentPage) * ItemsPerPage >= |menu| ==> emitted == []
      ensures forall k :: 0 <= k < |emitted| ==> emitted[k] == menu[old(currentPage) * ItemsPerPage + k]
      ensures rendered == old(rendered) + emitted
      ensures currentPage == old(currentPage) + 1
      ensures menu == old(menu) && cart == old(cart) && cartCount == old(cartCount)
      ensures currentItem == old(currentItem) && customizationVisible == old(customizationVisible)
      ensures skipped == old(skipped)
    {
      var start := currentPage * ItemsPerPage;
      var end := start + ItemsPerPage;
      var itemsToRender := Slice(menu, start, end);
      var i := 0;
      while i < |itemsToRender|
        invariant 0 <= i <= |itemsToRender|
        invariant rendered == old(rendered) + itemsToRender[..i]
        invariant menu == old(menu) && currentPage == old(currentPage) && cart == old(cart)
        invariant cartCount == old(cartCount) && currentItem == old(currentItem)
        invariant customizationVisible == old(customizationVisible) && skipped == old(skipped)
      {
        rendered := rendered + [itemsToRender[i]];
        i := i + 1;
      }
      assert itemsToRender[..i] == itemsToRender;
      PageExtendsWindow(menu, skipped, currentPage);
      PageWindow(menu, currentPage);
      currentPage := currentPage + 1;
      emitted := itemsToRender;
    }

    /**
     * The scroll listener as the script has it. It is attached when the
     * script loads, before the menu arrives. At the bottom of the page it
     * renders the next page, whatever has been loaded.
     */
    method HandleScrollAsWritten(atBottom: bool) returns (emitted: seq<MenuItem>)
      requires Valid()
      modifies this
      ensures Valid()
      ensures atBottom ==> emitted == Page(menu, old(currentPage)) && currentPage == old(currentPage) + 1
      ensures !atBottom ==> emitted == [] && currentPage == old(currentPage)
      ensures rendered == old(rendered) + emitted
      ensures menu == old(menu) && cart == old(cart) && cartCount == old(cartCount)
      ensures currentItem == old(currentItem) && customizationVisible == old(customizationVisible)
      ensures skipped == old(skipped)
    {
      emitted := [];
      if atBottom {
        emitted := RenderMenuPage();
      }
    }

    /**
     * The scroll listener with the guard it evidently needs: it renders only
     * once `init` has rendered the first page, so a scroll during the menu
     * fetch consumes no page.
     */
    method HandleScroll(atBottom: bool) returns (emitted: seq<MenuItem>)
      requires Valid()
      modifies this
      ensures Valid()
      ensures atBottom && old(currentPage) > 0 ==>
                emitted == Page(menu, old(currentPage)) && currentPage == old(currentPage) + 1
      ensures !(atBottom && old(currentPage) > 0) ==> emitted == [] && currentPage == old(currentPage)
      ensures rendered == old(rendered) + emitted
      ensures menu == old(menu) && cart == old(cart) && cartCount == old(cartCount)
      ensures currentItem == old(currentItem) && customizationVisible == old(customizationVisible)
      ensures skipped == old(skipped)
    {
      emitted := [];
      if atBottom && currentPage > 0 {
        emitted := RenderMenuPage();
      }
    }

    /** `showModal`: only reveals the customization section. */
    method ShowModal()
      modifies this`customizationVisible
      ensures customizationVisible
    {
      customizationVisible := true;
    }

    /** `hideModal`: only hides the customization section. */
    method HideModal()
      modifies this`customizationVisible
      ensures !customizationVisible
    {
      customizationVisible := false;
    }

    /** The add button of a rendered product: it becomes the current item and the customization section opens. */
    method SelectItem(item: MenuItem)
      requires Valid() && item in rendered
      modifies this
      ensures Valid()
      ensures currentItem == Some(item) && customizationVisible
      ensures menu == old(menu) && currentPage == old(currentPage) && rendered == old(rendered)
      ensures cart == old(cart) && cartCount == old(cartCount) && skipped == old(skipped)
    {
      currentItem := Some(item);
      ShowModal();
    }

    /** `updateCartCount`: the counter shows the cart's length. */
    method UpdateCartCount()
      modifies this`cartCount
      ensures cartCount == |cart|
    {
      cartCount := |cart|;
    }

    /**
     * `handleCustomizationFormSubmit`: with no current item it changes
     * nothing; otherwise it appends one entry priced at the product price
     * plus the checked toppings' prices, records the ice level, the sugar
     * level and the checked topping names in checkbox order, updates the
     * counter and hides the customization section.
     */
    method HandleCustomizationFormSubmit(iceLevel: string, sugarLevel: string, boxes: seq<Checkbox>)
      requires Valid()
      modifies this
      ensures Valid()
      ensures old(currentItem).None? ==>
        cart == old(cart) && cartCount == old(cartCount) && customizationVisible == old(customizationVisible)
      ensures old(currentItem).Some? ==>
        var item := old(currentItem).value;
        && cart == old(cart) + [LineItem(item.name, item.price + PriceSum(Checked(boxes)),
                                         Customization(iceLevel, sugarLevel, Names(Checked(boxes))))]
        && !customizationVisible
      ensures cartCount == |cart|
      ensures menu == old(menu) && currentPage == old(currentPage) && rendered == old(rendered)
      ensures currentItem == old(currentItem) && skipped == old(skipped)
    {
      if currentItem.None? {
        return;
      }
      var item := currentItem.value;
      var checked := Checked(boxes);
      var toppings: seq<string> := [];
      var toppingPrice := 0;
      var i := 0;
      while i < |checked|
        invariant 0 <= i <= |checked|
        invariant toppings == Names(checked[..i])
        invariant toppingPrice == PriceSum(checked[..i])
      {
        assert checked[..i + 1][..i] == checked[..i];
        toppings := toppings + [checked[i].value];
        toppingPrice := toppingPrice + checked[i].price;
        i := i + 1;
      }
      assert checked[..i] == checked;
      var customizedItem := LineItem(item.name, item.price + toppingPrice,
                                     Customization(iceLevel, sugarLevel, toppings));
      cart := cart + [customizedItem];
      UpdateCartCount();
      HideModal();
    }

    /** The remove button of the cart entry at `index`: `cart.splice(index, 1)`, then the counter is updated. */
    method RemoveCartItem(index: nat)
      requires Valid()
      modifies this
      ensures Valid()
      ensures cart == SpliceOne(old(cart), index)
      ensures index < |old(cart)| ==> cart == old(cart)[..index] + old(cart)[index + 1..]
      ensures cartCount == |cart|
      ensures menu == old(menu) && currentPage == old(currentPage) && rendered == old(rendered)
      ensures currentItem == old(currentItem) && customizationVisible == old(customizationVisible)
      ensures skipped == old(skipped)
    {
      cart := SpliceOne(cart, index);
      UpdateCartCount();
    }

    /**
     * `init`: loads the menu and renders the page the cursor stands at. That
     * is page 0 unless a scroll during the fetch has already advanced the
     * cursor.
     */
    method Init(fetched: Option<seq<MenuItem>>)
      requires Valid() && menu == []
      modifies this
      ensures Valid()
      ensures menu == fetched.GetOr(old(menu)) && skipped == old(currentPage)
      ensures currentPage == old(currentPage) + 1 && rendered == Page(menu, old(currentPage))
      ensures cart == old(cart) && currentItem == None
      ensures customizationVisible == old(customizationVisible)
    {
      LoadMenu(fetched);
      var _ := RenderMenuPage();
    }
  }

  /** Submitting right after start-up, with no product selected, leaves the cart empty and the counter at zero. */
  method SubmitWithoutSelection(fetched: Option<seq<MenuItem>>, boxes: seq<Checkbox>)
    returns (cartBefore: seq<LineItem>, countBefore: nat)
    ensures cartBefore == [] && countBefore == 0
  {
    var shop := new Shop();
    shop.Init(fetched);
    shop.HandleCustomizationFormSubmit("Less Ice", "50%", boxes);
    cartBefore, countBefore := shop.cart, shop.cartCount;
  }

  /**
   * A Classic at 450 cents with the Boba box (75 cents) checked and the Pearl
   * box unchecked: the cart holds one entry at 525 cents naming only Boba.
   */
  method ClassicWithBoba() returns (cart: seq<LineItem>, count: nat)
    ensures cart == [LineItem("Classic", 525, Customization("Less Ice", "50%", ["Boba"]))]
    ensures count == 1
  {
    var shop := new Shop();
    var classic := MenuItem("Classic", 450);
    shop.Init(Some([classic]));
    assert shop.rendered == [classic];
    shop.SelectItem(classic);
    var boxes := [Checkbox("Boba", 75, true), Checkbox("Pearl", 50, false)];
    assert Checked(boxes) == [boxes[0]] by {
      assert boxes[1..][1..] == [];
    }
    assert Names([boxes[0]]) == ["Boba"] && PriceSum([boxes[0]]) == 75 by {
      assert [boxes[0]][..0] == [];
    }
    shop.HandleCustomizationFormSubmit("Less Ice", "50%", boxes);
    cart, count := shop.cart, shop.cartCount;
  }

  /**
   * A scroll to the page bottom while the products are being fetched,
   * through the listener as written. The empty menu consumes page 0, so
   * start-up shows page 1 and the first product is not shown. By
   * `LateStartMissesHead` it never is, since the rendered window always
   * starts at page 1.
   */
  method ScrollDuringMenuFetchAsWritten(products: seq<MenuItem>) returns (shown: seq<MenuItem>)
    ensures shown == Page(products, 1)
    ensures Distinct(products) && products != [] ==> products[0] !in shown
  {
    var shop := new Shop();
    var _ := shop.HandleScrollAsWritten(true);
    shop.Init(Some(products));
    shown := shop.rendered;
    if Distinct(products) && products != [] {
      LateStartMissesHead(products, 1, 2);
      PageWindow(products, 1);
    }
  }

  /** The same scroll through the guarded listener: start-up shows page 0, with the first product. */
  method ScrollDuringMenuFetch(products: seq<MenuItem>) returns (shown: seq<MenuItem>)
    ensures shown == Page(products, 0)
    ensures products != [] ==> products[0] in shown
  {
    var shop := new Shop();
    var _ := shop.HandleScroll(true);
    shop.Init(Some(products));
    shown := shop.rendered;
    PageWindow(products, 0);
  }
}
