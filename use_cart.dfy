/**
 * `useCart`: the stock guard in front of `ADD_TO_CART`, the dispatching
 * wrappers, and the three-key queries over the cart's lines.
 */
module UseCart {
  import opened Wrappers
  import opened Entities
  import opened KeyValueStore
  import opened AppContext

  /** `new Error('Product is out of stock')`. */
  datatype CartError = OutOfStock

  /**
   * `addToCart(product, size, color, quantity = 1)`: the action dispatched, or
   * the error thrown before anything is dispatched when the product is out of
   * stock.
   */
  function AddToCartAction(product: Product, size: Option<string>, color: Option<string>,
                           quantity: Option<int>): (r: Result<Action, CartError>)
    ensures r.Failure? <==> !product.inStock
    ensures r.Success? ==> r.value == AddToCart(product, size, color, Some(quantity.GetOr(1)))
  {
    if !product.inStock then Failure(OutOfStock)
    else Success(AddToCart(product, size, color, Some(quantity.GetOr(1))))
  }

  /** One call of `addToCart`: the new state, or the unchanged state and the error thrown. */
  function TryAdd(state: AppState, product: Product, size: Option<string>, color: Option<string>,
                  quantity: Option<int>, entries: map<string, Entry<Json>>, cartItemId: string)
    : (AppState, Option<CartError>)
  {
    match AddToCartAction(product, size, color, quantity)
    case Success(action) => (Next(state, action, entries, cartItemId), None)
    case Failure(error) => (state, Some(error))
  }

  /** A request to `addToCart`. */
  datatype AddRequest = AddRequest(product: Product, size: Option<string>, color: Option<string>,
                                   quantity: Option<int>)

  /** A run of `addToCart` calls, each with its fresh line id; the errors in the order thrown. */
  function TryAddEach(state: AppState, requests: seq<AddRequest>, entries: map<string, Entry<Json>>,
                      cartItemIds: seq<string>): (AppState, seq<CartError>)
    requires |cartItemIds| == |requests|
    decreases |requests|
  {
    if requests == [] then (state, [])
    else
      var req := requests[0];
      var (next, error) := TryAdd(state, req.product, req.size, req.color, req.quantity, entries, cartItemIds[0]);
      var (last, errors) := TryAddEach(next, requests[1..], entries, cartItemIds[1..]);
      (last, (if error.Some? then [error.value] else []) + errors)
  }

  /** Adding only products out of stock leaves the state as it was and throws every time. */
  lemma {:induction false} OutOfStockAddsChangeNothing(state: AppState, requests: seq<AddRequest>,
                                                       entries: map<string, Entry<Json>>,
                                                       cartItemIds: seq<string>)
    requires |cartItemIds| == |requests|
    requires forall k :: 0 <= k < |requests| ==> !requests[k].product.inStock
    ensures TryAddEach(state, requests, entries, cartItemIds).0 == state
    ensures TryAddEach(state, requests, entries, cartItemIds).1 == seq(|requests|, _ => OutOfStock)
    decreases |requests|
  {
    if requests != [] {
      OutOfStockAddsChangeNothing(state, requests[1..], entries, cartItemIds[1..]);
      assert seq(|requests|, _ => OutOfStock) == [OutOfStock] + seq(|requests| - 1, _ => OutOfStock);
    }
  }

  // ---------------------------------------------------------------------------
  // Queries
  // ---------------------------------------------------------------------------

  /** `isInCart(productId, size, color)`: `items.some(...)` on the three keys. */
  function IsInCart(cart: Cart, productId: string, size: Option<string>, color: Option<string>): (r: bool)
    ensures r <==> exists k :: 0 <= k < |cart.items| && cart.items[k].IsLine(productId, size, color)
    decreases |cart.items|
  {
    if cart.items == [] then false
    else if cart.items[0].IsLine(productId, size, color) then true
    else
      var rest := cart.(items := cart.items[1..]);
      var r := IsInCart(rest, productId, size, color);
      assert r ==> exists k :: 0 <= k < |cart.items| && cart.items[k].IsLine(productId, size, color) by {
        if r {
          var k :| 0 <= k < |rest.items| && rest.items[k].IsLine(productId, size, color);
          assert cart.items[k + 1] == rest.items[k];
        }
      }
      assert (exists k :: 0 <= k < |cart.items| && cart.items[k].IsLine(productId, size, color)) ==> r by {
        if exists k :: 0 <= k < |cart.items| && cart.items[k].IsLine(productId, size, color) {
          var k :| 0 <= k < |cart.items| && cart.items[k].IsLine(productId, size, color);
          assert k != 0;
          assert rest.items[k - 1] == cart.items[k];
        }
      }
      r
  }

  /** `getCartItem(productId, size, color)`: `items.find(...)`, the first matching line. */
  function GetCartItem(cart: Cart, productId: string, size: Option<string>, color: Option<string>)
    : (r: Option<CartItem>)
    ensures r.Some? ==> exists k :: 0 <= k < |cart.items| && cart.items[k] == r.value
                          && (forall j :: 0 <= j < k ==> !cart.items[j].IsLine(productId, size, color))
    ensures r.Some? ==> r.value.IsLine(productId, size, color)
    ensures r.None? ==> forall k :: 0 <= k < |cart.items| ==> !cart.items[k].IsLine(productId, size, color)
    decreases |cart.items|
  {
    if cart.items == [] then None
    else if cart.items[0].IsLine(productId, size, color) then Some(cart.items[0])
    else
      var rest := cart.(items := cart.items[1..]);
      var r := GetCartItem(rest, productId, size, color);
      assert r.Some? ==> exists k :: 0 <= k < |cart.items| && cart.items[k] == r.value
                          && (forall j :: 0 <= j < k ==> !cart.items[j].IsLine(productId, size, color)) by {
        if r.Some? {
          var k :| 0 <= k < |rest.items| && rest.items[k] == r.value
                   && (forall j :: 0 <= j < k ==> !rest.items[j].IsLine(productId, size, color));
          assert cart.items[k + 1] == r.value;
          forall j | 0 <= j < k + 1 ensures !cart.items[j].IsLine(productId, size, color) {
            if j > 0 {
              assert cart.items[j] == rest.items[j - 1];
            }
          }
        }
      }
      assert r.None? ==> forall k :: 0 <= k < |cart.items| ==> !cart.items[k].IsLine(productId, size, color) by {
        if r.None? {
          forall k | 0 <= k < |cart.items| ensures !cart.items[k].IsLine(productId, size, color) {
            if k > 0 {
              assert cart.items[k] == rest.items[k - 1];
            }
          }
        }
      }
      r
  }

  /** `getCartItemQuantity(productId, size, color)`: the first matching line's quantity, or 0. */
  function GetCartItemQuantity(cart: Cart, productId: string, size: Option<string>, color: Option<string>)
    : (r: int)
    ensures var i := FindLine(cart.items, productId, size, color);
      r == if i >= 0 then cart.items[i].quantity else 0
  {
    GetCartItemIsFindLine(cart, productId, size, color);
    match GetCartItem(cart, productId, size, color)
    case Some(item) => item.quantity
    case None => 0
  }

  /** `isInCart` and `getCartItem` agree on the same three keys. */
  lemma IsInCartIffFound(cart: Cart, productId: string, size: Option<string>, color: Option<string>)
    ensures IsInCart(cart, productId, size, color) <==> GetCartItem(cart, productId, size, color).Some?
  {
    if GetCartItem(cart, productId, size, color).Some? {
      var k :| 0 <= k < |cart.items| && cart.items[k] == GetCartItem(cart, productId, size, color).value;
    }
  }

  /** `getCartItem` finds the line the reducer's `findIndex` finds. */
  lemma GetCartItemIsFindLine(cart: Cart, productId: string, size: Option<string>, color: Option<string>)
    ensures var i := FindLine(cart.items, productId, size, color);
      GetCartItem(cart, productId, size, color) == if i >= 0 then Some(cart.items[i]) else None
  {
    var i := FindLine(cart.items, productId, size, color);
    var r := GetCartItem(cart, productId, size, color);
    if r.Some? {
      var k :| 0 <= k < |cart.items| && cart.items[k] == r.value
               && (forall j :: 0 <= j < k ==> !cart.items[j].IsLine(productId, size, color));
      FindLineIsFirst(cart.items, productId, size, color, k);
    }
  }

  /** On the empty cart every query answers false, none or 0. */
  lemma EmptyCartQueries(productId: string, size: Option<string>, color: Option<string>)
    ensures !IsInCart(EmptyCart, productId, size, color)
    ensures GetCartItem(EmptyCart, productId, size, color) == None
    ensures GetCartItemQuantity(EmptyCart, productId, size, color) == 0
  {
  }

  /**
   * After `addToCart` of an in-stock product the line is in the cart and its
   * quantity has grown by the requested quantity (1 by default).
   */
  lemma AddRaisesQuantity(state: AppState, product: Product, size: Option<string>, color: Option<string>,
                          quantity: Option<int>, entries: map<string, Entry<Json>>, cartItemId: string)
    requires product.inStock
    ensures var (next, error) := TryAdd(state, product, size, color, quantity, entries, cartItemId);
      && error == None
      && IsInCart(next.cart, product.id, size, color)
      && GetCartItemQuantity(next.cart, product.id, size, color)
         == GetCartItemQuantity(state.cart, product.id, size, color) + quantity.GetOr(1)
  {
    var q := quantity.GetOr(1);
    var next := Next(state, AddToCart(product, size, color, Some(q)), entries, cartItemId);
    assert TryAdd(state, product, size, color, quantity, entries, cartItemId) == (next, None);
    var added := AddItems(state.cart.items, product, size, color, q, cartItemId);
    assert next.cart == CartOf(added);
    AddFindsGrownLine(state.cart.items, product, size, color, q, cartItemId);
    GetCartItemIsFindLine(state.cart, product.id, size, color);
    GetCartItemIsFindLine(next.cart, product.id, size, color);
    IsInCartIffFound(next.cart, product.id, size, color);
  }

  /** After `ADD_TO_CART` the first matching line holds the old quantity (0 if none) plus the added one. */
  lemma AddFindsGrownLine(items: seq<CartItem>, product: Product, size: Option<string>, color: Option<string>,
                          quantity: int, cartItemId: string)
    ensures var added := AddItems(items, product, size, color, quantity, cartItemId);
      var i := FindLine(items, product.id, size, color);
      var j := FindLine(added, product.id, size, color);
      && 0 <= j < |added|
      && added[j].quantity == (if i >= 0 then items[i].quantity else 0) + quantity
  {
    var i := FindLine(items, product.id, size, color);
    var added := AddItems(items, product, size, color, quantity, cartItemId);
    if i >= 0 {
      AddMergesMatchingLine(items, product, size, color, quantity, cartItemId, i);
      FindLineIsFirst(added, product.id, size, color, i);
    } else {
      AddAppendsNewLine(items, product, size, color, quantity, cartItemId);
      FindLineIsFirst(added, product.id, size, color, |items|);
    }
  }
}
