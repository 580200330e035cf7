/**
 * The application store of the storefront: `initialState`, the actions, and
 * `appReducer`. Each case builds the next state as a value; the cart cases also
 * write the new cart through to `localStorage` under `'cart'` (or remove that
 * key), and `LOAD_CART` reads it back. `AppProvider` owns the state and the
 * storage; mounting it loads the cart and the saved language.
 */
module AppContext {
  import opened Wrappers
  import opened Entities
  import opened JsBuiltins
  import opened Helpers
  import opened KeyValueStore

  /** The values the store writes: the cart under `'cart'`, the language under `'language'`. */
  datatype Json = CartJson(cart: Cart) | StringJson(text: string)

  /** `{ ...state.filters, ...payload }`: each present key of the payload replaces the old value. */
  datatype FiltersPatch = FiltersPatch(
    category: Option<string>,
    inStock: Option<bool>,
    priceRange: Option<Option<PriceRange>>,
    sizes: Option<seq<string>>)

  datatype AppState = AppState(
    language: string,
    products: seq<Product>,
    featuredProducts: seq<Product>,
    categories: seq<Category>,
    loading: bool,
    error: Option<string>,
    cart: Cart,
    user: Option<string>,
    searchQuery: string,
    selectedCategory: string,
    sortBy: string,
    filters: Filters)

  const EmptyCart := Cart([], 0, 0)

  const InitialState := AppState(
    "th", [], [], [], false, None, EmptyCart, None, "", "all", "featured",
    Filters("", false, None, []))

  datatype Action =
    | SetLanguage(language: string)
    | SetProducts(products: seq<Product>)
    | SetFeaturedProducts(featured: seq<Product>)
    | SetCategories(categories: seq<Category>)
    | SetLoading(loading: bool)
    | SetError(error: Option<string>)
    | AddToCart(product: Product, size: Option<string>, color: Option<string>, quantity: Option<int>)
    | RemoveFromCart(cartItemId: string)
    | UpdateCartItem(cartItemId: string, newQuantity: int)
    | ClearCart
    | LoadCart
    | SetUser(user: Option<string>)
    | LogoutUser
    | SetSearchQuery(query: string)
    | SetSelectedCategory(selected: string)
    | SetSortBy(sortBy: string)
    | SetFilters(patch: FiltersPatch)
    | Unknown(actionType: string)
  {
    predicate ChangesCart() {
      AddToCart? || RemoveFromCart? || UpdateCartItem? || ClearCart? || LoadCart?
    }

    /** The actions whose new cart is written to storage under `'cart'`. */
    predicate WritesCart() {
      AddToCart? || RemoveFromCart? || UpdateCartItem?
    }
  }

  // ---------------------------------------------------------------------------
  // Cart lines
  // ---------------------------------------------------------------------------

  /** `items.findIndex(...)` on the three-key line identity: the first match, or -1. */
  function FindLine(items: seq<CartItem>, productId: string, size: Option<string>, color: Option<string>)
    : (r: int)
    ensures -1 <= r < |items|
    ensures r >= 0 ==> items[r].IsLine(productId, size, color)
    ensures r >= 0 ==> forall k :: 0 <= k < r ==> !items[k].IsLine(productId, size, color)
    ensures r == -1 ==> forall k :: 0 <= k < |items| ==> !items[k].IsLine(productId, size, color)
  {
    if items == [] then -1
    else if items[0].IsLine(productId, size, color) then 0
    else
      var r := FindLine(items[1..], productId, size, color);
      if r == -1 then -1 else r + 1
  }

  /** The line `ADD_TO_CART` creates: a snapshot of the product with a fresh line id. */
  function NewLine(product: Product, size: Option<string>, color: Option<string>, quantity: int,
                   cartItemId: string): CartItem
  {
    CartItem(product.id, cartItemId, product.name, product.price,
             if |product.images| > 0 then Some(product.images[0]) else None,
             size, color, quantity, product.inStock)
  }

  /** The items after `ADD_TO_CART`: merge into the matching line, or append a new one. */
  function AddItems(items: seq<CartItem>, product: Product, size: Option<string>, color: Option<string>,
                    quantity: int, cartItemId: string): seq<CartItem>
  {
    var i := FindLine(items, product.id, size, color);
    if i >= 0 then items[i := items[i].(quantity := items[i].quantity + quantity)]
    else items + [NewLine(product, size, color, quantity, cartItemId)]
  }

  function OtherLine(cartItemId: string): CartItem -> bool {
    (item: CartItem) => item.cartItemId != cartItemId
  }

  /** The items after `REMOVE_FROM_CART`. */
  function RemoveItems(items: seq<CartItem>, cartItemId: string): seq<CartItem> {
    Filter(items, OtherLine(cartItemId))
  }

  function SetQuantityOf(cartItemId: string, quantity: int): CartItem -> CartItem {
    (item: CartItem) => if item.cartItemId == cartItemId then item.(quantity := quantity) else item
  }

  predicate HasQuantity(item: CartItem) {
    item.quantity > 0
  }

  function Max0(n: int): int {
    if n > 0 then n else 0
  }

  /** The items after `UPDATE_CART_ITEM`: set `max(0, quantity)`, then drop every line at 0 or below. */
  function UpdateItems(items: seq<CartItem>, cartItemId: string, quantity: int): seq<CartItem> {
    Filter(Map(items, SetQuantityOf(cartItemId, Max0(quantity))), HasQuantity)
  }

  /** A cart whose `total` and `itemCount` are recomputed from its items. */
  function CartOf(items: seq<CartItem>): Cart {
    Cart(items, CalculateCartTotal(items), CalculateCartItemCount(items))
  }

  /** `total` and `itemCount` agree with the items. */
  predicate Consistent(cart: Cart) {
    cart.total == CalculateCartTotal(cart.items) && cart.itemCount == CalculateCartItemCount(cart.items)
  }

  /** `savedCart || emptyCart` for what `storage.get('cart')` returned. */
  function CartFrom(saved: Option<Json>): Cart {
    match saved
    case Some(CartJson(cart)) => cart
    case _ => EmptyCart
  }

  /** The cart stored under `'cart'`, if any, is consistent. */
  predicate StoredCartConsistent(entries: map<string, Entry<Json>>) {
    var saved: Option<Json> := Read(entries, "cart");
    match saved
    case Some(CartJson(cart)) => Consistent(cart)
    case _ => true
  }

  function MergeFilters(filters: Filters, patch: FiltersPatch): Filters {
    Filters(
      patch.category.GetOr(filters.category),
      patch.inStock.GetOr(filters.inStock),
      patch.priceRange.GetOr(filters.priceRange),
      patch.sizes.GetOr(filters.sizes))
  }

  /** The patch whose keys are those of `second`, then those of `first` that `second` lacks. */
  function Overlay(first: FiltersPatch, second: FiltersPatch): FiltersPatch {
    FiltersPatch(
      if second.category.Some? then second.category else first.category,
      if second.inStock.Some? then second.inStock else first.inStock,
      if second.priceRange.Some? then second.priceRange else first.priceRange,
      if second.sizes.Some? then second.sizes else first.sizes)
  }

  // ---------------------------------------------------------------------------
  // appReducer
  // ---------------------------------------------------------------------------

  /** The cases of `appReducer` that set fields of the state and nothing else. */
  function SetFields(state: AppState, action: Action): AppState {
    match action
    case SetLanguage(language) => state.(language := language)
    case SetProducts(products) => state.(products := products, loading := false, error := None)
    case SetFeaturedProducts(featured) => state.(featuredProducts := featured)
    case SetCategories(categories) => state.(categories := categories)
    case SetLoading(loading) => state.(loading := loading)
    case SetError(error) => state.(error := error, loading := false)
    case SetUser(user) => state.(user := user)
    case LogoutUser => state.(user := None)
    case SetSearchQuery(query) => state.(searchQuery := query)
    case SetSelectedCategory(selected) => state.(selectedCategory := selected)
    case SetSortBy(sortBy) => state.(sortBy := sortBy)
    case SetFilters(patch) => state.(filters := MergeFilters(state.filters, patch))
    case _ => state
  }

  /**
   * The state `appReducer` returns. `entries` is what `localStorage` holds when
   * the action is reduced (read by `LOAD_CART`); `cartItemId` is what
   * `generateId()` returns if `ADD_TO_CART` creates a line.
   */
  function Next(state: AppState, action: Action, entries: map<string, Entry<Json>>, cartItemId: string)
    : (r: AppState)
    ensures action.WritesCart() || action.ClearCart? ==> Consistent(r.cart)
  {
    match action
    case AddToCart(product, size, color, quantity) =>
      state.(cart := CartOf(AddItems(state.cart.items, product, size, color, quantity.GetOr(1), cartItemId)))
    case RemoveFromCart(id) => state.(cart := CartOf(RemoveItems(state.cart.items, id)))
    case UpdateCartItem(id, quantity) => state.(cart := CartOf(UpdateItems(state.cart.items, id, quantity)))
    case ClearCart => state.(cart := EmptyCart)
    case LoadCart => state.(cart := CartFrom(Read(entries, "cart")))
    case _ => SetFields(state, action)
  }

  /** What `localStorage` holds after `appReducer` produced `next` from `action`. */
  function Persist(entries: map<string, Entry<Json>>, action: Action, next: AppState, accepted: bool)
    : map<string, Entry<Json>>
  {
    if action.WritesCart() then Write(entries, "cart", CartJson(next.cart), accepted)
    else if action.ClearCart? then Delete(entries, "cart")
    else entries
  }

  /**
   * `appReducer` with its storage effects: `accepted` is whether the browser
   * takes the write of `'cart'`.
   */
  method AppReducer(state: AppState, action: Action, storage: Storage<Json>, cartItemId: string,
                    accepted: bool)
    returns (next: AppState)
    modifies storage
    ensures next == Next(state, action, old(storage.entries), cartItemId)
    ensures storage.entries == Persist(old(storage.entries), action, next, accepted)
  {
    match action {
      case AddToCart(product, size, color, quantity) =>
        var newCart := CartOf(AddItems(state.cart.items, product, size, color, quantity.GetOr(1), cartItemId));
        storage.Set("cart", CartJson(newCart), accepted);
        next := state.(cart := newCart);
        assert action.WritesCart();
      case RemoveFromCart(id) =>
        var newCart := CartOf(RemoveItems(state.cart.items, id));
        storage.Set("cart", CartJson(newCart), accepted);
        next := state.(cart := newCart);
        assert action.WritesCart();
      case UpdateCartItem(id, quantity) =>
        var newCart := CartOf(UpdateItems(state.cart.items, id, quantity));
        storage.Set("cart", CartJson(newCart), accepted);
        next := state.(cart := newCart);
        assert action.WritesCart();
      case ClearCart =>
        storage.Remove("cart");
        next := state.(cart := EmptyCart);
      case LoadCart =>
        var saved := storage.Get("cart");
        next := state.(cart := CartFrom(saved));
      case _ =>
        next := SetFields(state, action);
        assert !action.WritesCart() && !action.ClearCart?;
    }
  }

  /** The language effect: a changed language is written under `'language'`. */
  function SaveLanguage(entries: map<string, Entry<Json>>, before: string, after: string, accepted: bool)
    : map<string, Entry<Json>>
  {
    if before != after then Write(entries, "language", StringJson(after), accepted) else entries
  }

  /** `if (savedLanguage)`: a stored non-empty string. */
  function SavedLanguage(entries: map<string, Entry<Json>>): Option<string> {
    var saved: Option<Json> := Read(entries, "language");
    match saved
    case Some(StringJson(language)) => if language != "" then Some(language) else None
    case _ => None
  }

  /** The state after mounting: `LOAD_CART`, then `SET_LANGUAGE` with a saved language. */
  function Mounted(entries: map<string, Entry<Json>>): AppState {
    var loaded := Next(InitialState, LoadCart, entries, "");
    match SavedLanguage(entries)
    case Some(language) => loaded.(language := language)
    case None => loaded
  }

  /**
   * The storage after mounting: the language effect first writes the initial
   * `'th'`, then the restored language if that differs. Each write is accepted
   * or refused on its own (`initialAccepted`, `restoredAccepted`).
   */
  function MountedEntries(entries: map<string, Entry<Json>>, initialAccepted: bool, restoredAccepted: bool)
    : map<string, Entry<Json>>
  {
    var first := Write(entries, "language", StringJson(InitialState.language), initialAccepted);
    SaveLanguage(first, InitialState.language, Mounted(entries).language, restoredAccepted)
  }

  /** `AppProvider`: the reducer's state and the storage it writes through to. */
  class AppProvider {
    var state: AppState
    const storage: Storage<Json>

    /** The store as the page first renders it, after the mount effects have run. */
    ghost predicate Valid()
      reads this, storage
    {
      Consistent(state.cart) && StoredCartConsistent(storage.entries)
    }

    constructor(storage: Storage<Json>, initialAccepted: bool, restoredAccepted: bool)
      modifies storage
      ensures this.storage == storage
      ensures state == Mounted(old(storage.entries))
      ensures storage.entries == MountedEntries(old(storage.entries), initialAccepted, restoredAccepted)
      ensures StoredCartConsistent(old(storage.entries)) ==> Valid()
    {
      this.storage := storage;
      var loaded := AppReducer(InitialState, LoadCart, storage, "", initialAccepted);
      var savedLanguage := storage.Get("language");
      storage.Set("language", StringJson(InitialState.language), initialAccepted);
      var mounted := loaded;
      if savedLanguage.Some? && savedLanguage.value.StringJson? && savedLanguage.value.text != "" {
        mounted := loaded.(language := savedLanguage.value.text);
        if mounted.language != InitialState.language {
          storage.Set("language", StringJson(mounted.language), restoredAccepted);
        }
      }
      state := mounted;
    }

    /**
     * `dispatch(action)`, followed by the language effect when the language
     * changed. The reducer's write of `'cart'` and the effect's write of
     * `'language'` are accepted or refused independently.
     */
    method Dispatch(action: Action, cartItemId: string, cartAccepted: bool, languageAccepted: bool)
      modifies this, storage
      ensures state == Next(old(state), action, old(storage.entries), cartItemId)
      ensures storage.entries
           == SaveLanguage(Persist(old(storage.entries), action, state, cartAccepted),
                           old(state).language, state.language, languageAccepted)
      ensures action.WritesCart() || action.ClearCart? ==> Consistent(state.cart)
      ensures old(Valid()) ==> Valid()
    {
      ghost var entries := storage.entries;
      var next := AppReducer(state, action, storage, cartItemId, cartAccepted);
      if next.language != state.language {
        storage.Set("language", StringJson(next.language), languageAccepted);
      }
      KeepsConsistent(state, action, entries, cartItemId, cartAccepted);
      state := next;
    }
  }

  // ---------------------------------------------------------------------------
  // Properties of the reducer
  // ---------------------------------------------------------------------------

  /** `FindLine` is the index of the first matching line. */
  lemma FindLineIsFirst(items: seq<CartItem>, productId: string, size: Option<string>,
                        color: Option<string>, i: nat)
    requires i < |items| && items[i].IsLine(productId, size, color)
    requires forall k :: 0 <= k < i ==> !items[k].IsLine(productId, size, color)
    ensures FindLine(items, productId, size, color) == i
  {
  }

  /**
   * `ADD_TO_CART` onto a matching line grows only that line's quantity, by the
   * given quantity; the number, order and contents of the other lines are kept.
   */
  lemma AddMergesMatchingLine(items: seq<CartItem>, product: Product, size: Option<string>,
                              color: Option<string>, quantity: int, cartItemId: string, i: nat)
    requires i < |items| && items[i].IsLine(product.id, size, color)
    requires forall k :: 0 <= k < i ==> !items[k].IsLine(product.id, size, color)
    ensures var r := AddItems(items, product, size, color, quantity, cartItemId);
      && |r| == |items|
      && r[i] == items[i].(quantity := items[i].quantity + quantity)
      && forall k :: 0 <= k < |items| && k != i ==> r[k] == items[k]
  {
    FindLineIsFirst(items, product.id, size, color, i);
  }

  /**
   * `ADD_TO_CART` with no matching line appends one line at the end: the
   * product's id, name, price, first image and stock flag, the chosen size,
   * colour and quantity, and the fresh line id.
   */
  lemma AddAppendsNewLine(items: seq<CartItem>, product: Product, size: Option<string>,
                          color: Option<string>, quantity: int, cartItemId: string)
    requires forall k :: 0 <= k < |items| ==> !items[k].IsLine(product.id, size, color)
    ensures var r := AddItems(items, product, size, color, quantity, cartItemId);
      && |r| == |items| + 1 && r[..|items|] == items
      && r[|items|].IsLine(product.id, size, color)
      && r[|items|].cartItemId == cartItemId
      && r[|items|].name == product.name && r[|items|].price == product.price
      && r[|items|].image == (if product.images == [] then None else Some(product.images[0]))
      && r[|items|].quantity == quantity && r[|items|].inStock == product.inStock
  {
    var r := AddItems(items, product, size, color, quantity, cartItemId);
    assert r == items + [NewLine(product, size, color, quantity, cartItemId)];
    assert r[..|items|] == items;
  }

  /**
   * Recomputing the sums after `ADD_TO_CART` is the same as adding the added
   * quantity, at the price of the line it lands in, to the old sums.
   */
  lemma AddIncrementsSums(items: seq<CartItem>, product: Product, size: Option<string>,
                          color: Option<string>, quantity: int, cartItemId: string)
    ensures var r := AddItems(items, product, size, color, quantity, cartItemId);
      var i := FindLine(items, product.id, size, color);
      && CalculateCartTotal(r)
         == CalculateCartTotal(items) + quantity * (if i >= 0 then items[i].price else product.price)
      && CalculateCartItemCount(r) == CalculateCartItemCount(items) + quantity
  {
    var i := FindLine(items, product.id, size, color);
    var r := AddItems(items, product, size, color, quantity, cartItemId);
    if i >= 0 {
      assert r == items[i := items[i].(quantity := items[i].quantity + quantity)];
      MergeIncrementsSums(items, i, quantity);
    } else {
      var line := NewLine(product, size, color, quantity, cartItemId);
      assert r == items + [line];
      CartSumsAppend(items, [line]);
      CartSumsSingle(line);
      assert LineTotal(line) == quantity * product.price;
    }
  }

  lemma MergeIncrementsSums(items: seq<CartItem>, i: nat, quantity: int)
    requires i < |items|
    ensures var r := items[i := items[i].(quantity := items[i].quantity + quantity)];
      && CalculateCartTotal(r) == CalculateCartTotal(items) + quantity * items[i].price
      && CalculateCartItemCount(r) == CalculateCartItemCount(items) + quantity
  {
    var x := items[i].(quantity := items[i].quantity + quantity);
    CartSumsReplace(items, i, x);
    calc {
      LineTotal(x);
      items[i].price * (items[i].quantity + quantity);
      { MulDistributes(items[i].price, items[i].quantity, quantity); }
      LineTotal(items[i]) + quantity * items[i].price;
    }
  }

  lemma MulDistributes(a: int, b: int, c: int)
    ensures a * (b + c) == a * b + c * a
  {
  }

  /**
   * The cart actions recompute `total` and `itemCount`, so whatever the state
   * they leave a consistent cart, and `CLEAR_CART` or an accepted write leaves
   * a consistent stored cart. From a consistent store, every action keeps both
   * consistent: the invariant of the store holds after every action.
   */
  lemma KeepsConsistent(state: AppState, action: Action, entries: map<string, Entry<Json>>,
                        cartItemId: string, accepted: bool)
    ensures var next := Next(state, action, entries, cartItemId);
      (action.WritesCart() || action.ClearCart?) ==> Consistent(next.cart)
    ensures var next := Next(state, action, entries, cartItemId);
      (action.ClearCart? || (action.WritesCart() && accepted))
      ==> StoredCartConsistent(Persist(entries, action, next, accepted))
    ensures Consistent(state.cart) && StoredCartConsistent(entries) ==>
      var next := Next(state, action, entries, cartItemId);
      && Consistent(next.cart)
      && StoredCartConsistent(Persist(entries, action, next, accepted))
      && forall before, after, languageAccepted :: StoredCartConsistent(
           SaveLanguage(Persist(entries, action, next, accepted), before, after, languageAccepted))
  {
    var next := Next(state, action, entries, cartItemId);
    var persisted := Persist(entries, action, next, accepted);
    assert Read(persisted, "cart") == Read(entries, "cart") || Read(persisted, "cart") == None
        || Read(persisted, "cart") == Some(CartJson(next.cart));
    if Consistent(state.cart) && StoredCartConsistent(entries) {
      forall before, after, languageAccepted
        ensures StoredCartConsistent(SaveLanguage(persisted, before, after, languageAccepted))
      {
        assert Read(SaveLanguage(persisted, before, after, languageAccepted), "cart") == Read(persisted, "cart");
      }
    }
  }

  /**
   * `REMOVE_FROM_CART` keeps exactly the lines with another line id, each as
   * often as before and in their original order; an unknown id leaves the
   * items as they were.
   */
  lemma RemoveKeepsOtherLines(items: seq<CartItem>, cartItemId: string)
    ensures var r := RemoveItems(items, cartItemId);
      && IsSubsequence(r, items)
      && (forall x :: x in r <==> x in items && x.cartItemId != cartItemId)
      && (forall x :: multiset(r)[x] == if x.cartItemId != cartItemId then multiset(items)[x] else 0)
      && ((forall k :: 0 <= k < |items| ==> items[k].cartItemId != cartItemId) ==> r == items)
  {
    FilterCounts(items, OtherLine(cartItemId));
    FilterIsSubsequence(items, OtherLine(cartItemId));
    FilterMembers(items, OtherLine(cartItemId));
    if forall k :: 0 <= k < |items| ==> items[k].cartItemId != cartItemId {
      FilterKeepsAll(items, OtherLine(cartItemId));
    }
  }

  /** The head of a `Map` and the rest of it. */
  lemma MapCons<T, U>(s: seq<T>, f: T -> U)
    requires s != []
    ensures Map(s, f) == [f(s[0])] + Map(s[1..], f)
  {
  }

  /**
   * `UPDATE_CART_ITEM` to a quantity of 0 or below removes the line, just as
   * `REMOVE_FROM_CART` does, provided every other line has a positive quantity.
   */
  lemma {:induction false} UpdateToZeroIsRemove(items: seq<CartItem>, cartItemId: string, quantity: int)
    requires quantity <= 0
    requires forall k :: 0 <= k < |items| && items[k].cartItemId != cartItemId ==> items[k].quantity > 0
    ensures UpdateItems(items, cartItemId, quantity) == RemoveItems(items, cartItemId)
  {
    if items != [] {
      var f := SetQuantityOf(cartItemId, Max0(quantity));
      MapCons(items, f);
      var mapped := Map(items, f);
      assert mapped[0] == f(items[0]) && mapped[1..] == Map(items[1..], f);
      UpdateToZeroIsRemove(items[1..], cartItemId, quantity);
    }
  }

  /** The same equivalence on the whole store: equal carts and equal storage. */
  lemma UpdateToZeroActsAsRemove(state: AppState, cartItemId: string, quantity: int,
                                 entries: map<string, Entry<Json>>, freshId: string, accepted: bool)
    requires quantity <= 0
    requires forall k :: 0 <= k < |state.cart.items| && state.cart.items[k].cartItemId != cartItemId
               ==> state.cart.items[k].quantity > 0
    ensures var updated := Next(state, UpdateCartItem(cartItemId, quantity), entries, freshId);
      var removed := Next(state, RemoveFromCart(cartItemId), entries, freshId);
      && updated == removed
      && Persist(entries, UpdateCartItem(cartItemId, quantity), updated, accepted)
         == Persist(entries, RemoveFromCart(cartItemId), removed, accepted)
  {
    UpdateToZeroIsRemove(state.cart.items, cartItemId, quantity);
  }

  /**
   * After `UPDATE_CART_ITEM` every line has a positive quantity; the other
   * lines with a positive quantity are kept; with a positive quantity the
   * updated lines are kept with it; nothing else appears.
   */
  lemma UpdateItemsContents(items: seq<CartItem>, cartItemId: string, quantity: int)
    ensures var r := UpdateItems(items, cartItemId, quantity);
      && |r| <= |items|
      && (forall x :: x in r ==> x.quantity > 0)
      && (forall x :: x in items && x.cartItemId != cartItemId && x.quantity > 0 ==> x in r)
      && (quantity > 0 ==> forall x :: x in items && x.cartItemId == cartItemId ==> x.(quantity := quantity) in r)
      && (forall x :: x in r ==>
            || (x in items && x.cartItemId != cartItemId)
            || (exists y :: y in items && y.cartItemId == cartItemId && x == y.(quantity := quantity)))
  {
    var f := SetQuantityOf(cartItemId, Max0(quantity));
    var mapped := Map(items, f);
    FilterMembers(mapped, HasQuantity);
    forall x | x in items ensures f(x) in mapped {
      var k :| 0 <= k < |items| && items[k] == x;
      assert mapped[k] == f(x);
    }
    forall x | x in mapped ensures exists y :: y in items && x == f(y) {
      var k :| 0 <= k < |mapped| && mapped[k] == x;
      assert items[k] in items && x == f(items[k]);
    }
  }

  /**
   * `UPDATE_CART_ITEM` with an id no line has is not a no-op: it still drops
   * the lines whose quantity is 0 or below (which `ADD_TO_CART` can create).
   */
  lemma UpdateUnknownIdDropsEmptyLines(items: seq<CartItem>, cartItemId: string, quantity: int)
    requires forall k :: 0 <= k < |items| ==> items[k].cartItemId != cartItemId
    ensures UpdateItems(items, cartItemId, quantity) == Filter(items, HasQuantity)
  {
    var f := SetQuantityOf(cartItemId, Max0(quantity));
    assert Map(items, f) == items;
  }

  /** `CLEAR_CART` then `LOAD_CART` gives the empty cart: the key was removed, not overwritten. */
  lemma ClearThenLoadIsEmpty(state: AppState, entries: map<string, Entry<Json>>, freshId: string,
                             accepted: bool)
    ensures var cleared := Next(state, ClearCart, entries, freshId);
      var stored := Persist(entries, ClearCart, cleared, accepted);
      && cleared.cart == EmptyCart
      && Read(stored, "cart") == None
      && Next(cleared, LoadCart, stored, freshId).cart == EmptyCart
  {
  }

  /**
   * After a cart action whose write went through, `LOAD_CART` gives back the
   * same state; a refused write leaves the storage as it was.
   */
  lemma WriteThroughThenLoad(state: AppState, action: Action, entries: map<string, Entry<Json>>,
                             cartItemId: string, accepted: bool)
    requires action.WritesCart()
    ensures var next := Next(state, action, entries, cartItemId);
      var stored := Persist(entries, action, next, accepted);
      && (accepted ==> Next(next, LoadCart, stored, cartItemId) == next)
      && (!accepted ==> stored == entries)
  {
  }

  /**
   * Each action changes only its own fields: the products, loading and error
   * fields only on `SET_PRODUCTS`, `SET_LOADING` and `SET_ERROR`; the cart and
   * the storage only on the cart actions; an unknown action nowhere.
   */
  lemma ActionsTouchOwnFields(state: AppState, action: Action, entries: map<string, Entry<Json>>,
                              cartItemId: string, accepted: bool)
    ensures var next := Next(state, action, entries, cartItemId);
      && (next.language != state.language ==> action.SetLanguage?)
      && (next.products != state.products ==> action.SetProducts?)
      && (next.featuredProducts != state.featuredProducts ==> action.SetFeaturedProducts?)
      && (next.categories != state.categories ==> action.SetCategories?)
      && (next.loading != state.loading ==> action.SetProducts? || action.SetLoading? || action.SetError?)
      && (next.error != state.error ==> action.SetProducts? || action.SetError?)
      && (next.cart != state.cart ==> action.ChangesCart())
      && (next.user != state.user ==> action.SetUser? || action.LogoutUser?)
      && (next.searchQuery != state.searchQuery ==> action.SetSearchQuery?)
      && (next.selectedCategory != state.selectedCategory ==> action.SetSelectedCategory?)
      && (next.sortBy != state.sortBy ==> action.SetSortBy?)
      && (next.filters != state.filters ==> action.SetFilters?)
      && (!action.ChangesCart() ==> Persist(entries, action, next, accepted) == entries)
      && (action.SetProducts? ==> !next.loading && next.error == None)
      && (action.SetError? ==> !next.loading)
      && (action.Unknown? ==> next == state)
  {
  }

  /** `SET_FILTERS` keeps the keys its payload lacks, and two merges are one merge of the overlay. */
  lemma MergeFiltersCompose(filters: Filters, first: FiltersPatch, second: FiltersPatch)
    ensures MergeFilters(filters, FiltersPatch(None, None, None, None)) == filters
    ensures MergeFilters(MergeFilters(filters, first), second) == MergeFilters(filters, Overlay(first, second))
  {
  }

  /**
   * Two additions of the same product, size and colour make one line: the
   * same items as one addition of the summed quantity.
   */
  lemma AddTwiceMerges(items: seq<CartItem>, product: Product, size: Option<string>,
                       color: Option<string>, first: int, second: int, firstId: string, secondId: string)
    ensures AddItems(AddItems(items, product, size, color, first, firstId), product, size, color, second, secondId)
         == AddItems(items, product, size, color, first + second, firstId)
  {
    var i := FindLine(items, product.id, size, color);
    var once := AddItems(items, product, size, color, first, firstId);
    if i >= 0 {
      AddMergesMatchingLine(items, product, size, color, first, firstId, i);
      FindLineIsFirst(once, product.id, size, color, i);
    } else {
      AddAppendsNewLine(items, product, size, color, first, firstId);
      FindLineIsFirst(once, product.id, size, color, |items|);
      assert once[|items| := once[|items|].(quantity := first + second)]
          == items + [NewLine(product, size, color, first + second, firstId)];
    }
  }

  /**
   * The cart walk-through: product `'1'` at 1200 in size M and colour
   * น้ำเงิน, added once (1200, 1 item), added again with quantity 2 (one line
   * of 3, 3600), then updated to 0 (the empty cart).
   */
  lemma CartWalkThrough(state: AppState, product: Product, entries: map<string, Entry<Json>>,
                        firstId: string, secondId: string)
    requires product.id == "1" && product.price == 1200
    requires state.cart == EmptyCart
    ensures var size, color := Some("M"), Some("น้ำเงิน");
      var s1 := Next(state, AddToCart(product, size, color, Some(1)), entries, firstId);
      var s2 := Next(s1, AddToCart(product, size, color, Some(2)), entries, secondId);
      var s3 := Next(s2, UpdateCartItem(firstId, 0), entries, secondId);
      && |s1.cart.items| == 1 && s1.cart.total == 1200 && s1.cart.itemCount == 1
      && |s2.cart.items| == 1 && s2.cart.items[0].quantity == 3
      && s2.cart.total == 3600 && s2.cart.itemCount == 3
      && s3.cart == EmptyCart
  {
    var size, color := Some("M"), Some("น้ำเงิน");
    var line := NewLine(product, size, color, 1, firstId);
    var s1 := Next(state, AddToCart(product, size, color, Some(1)), entries, firstId);
    assert AddItems([], product, size, color, 1, firstId) == [line];
    assert s1.cart == CartOf([line]);
    CartSumsSingle(line);
    var merged := line.(quantity := 3);
    var s2 := Next(s1, AddToCart(product, size, color, Some(2)), entries, secondId);
    FindLineIsFirst([line], product.id, size, color, 0);
    assert AddItems([line], product, size, color, 2, secondId) == [merged];
    assert s2.cart == CartOf([merged]);
    CartSumsSingle(merged);
    var s3 := Next(s2, UpdateCartItem(firstId, 0), entries, secondId);
    UpdateOnlyLineToZero(merged);
    assert s3.cart == CartOf(UpdateItems([merged], firstId, 0));
  }

  /** Updating the only line of a cart to 0 empties it. */
  lemma UpdateOnlyLineToZero(line: CartItem)
    ensures UpdateItems([line], line.cartItemId, 0) == []
  {
    var f := SetQuantityOf(line.cartItemId, Max0(0));
    var zero := line.(quantity := 0);
    assert f(line) == zero;
    var mapped := Map([line], f);
    assert mapped == [zero] by {
      assert |mapped| == 1 && mapped[0] == f(line);
    }
    assert Filter([zero], HasQuantity) == [] + Filter([zero][1..], HasQuantity);
  }

  /**
   * The reducer does not keep quantities positive: `ADD_TO_CART` with a
   * quantity of 0 or below creates (or leaves) a line with that quantity.
   */
  lemma AddAcceptsNonPositiveQuantity(state: AppState, product: Product, size: Option<string>,
                                      color: Option<string>, quantity: int, entries: map<string, Entry<Json>>,
                                      cartItemId: string)
    requires quantity <= 0 && state.cart.items == []
    ensures var next := Next(state, AddToCart(product, size, color, Some(quantity)), entries, cartItemId);
      && |next.cart.items| == 1 && next.cart.items[0].quantity == quantity
      && next.cart.itemCount == quantity
  {
    var line := NewLine(product, size, color, quantity, cartItemId);
    assert AddItems([], product, size, color, quantity, cartItemId) == [line];
    CartSumsSingle(line);
  }
}
