# mini_shop storefront core, in Dafny

A model of the logic inside the mini_shop React storefront, a Thai clothing shop. The model covers:

- **The application store.** This is `initialState` and `appReducer` in `src/context/AppContext.js`. It includes the shopping-cart state machine: adding merges lines on product id, size and colour; removing and updating quantities recompute `total` and `itemCount`. Each cart action writes the new cart through to `localStorage` under `'cart'`, and `LOAD_CART` reads it back. The model also covers the `AppProvider` that loads the cart and the saved language on mount and stores every change of language.
- **The `useCart` hook.** It holds the out-of-stock guard in front of `ADD_TO_CART` and the three-key cart queries.
- **The `useLanguage` hook.** It holds the language toggle and the text lookups.
- **The pure helpers of `src/utils/helpers.js`.** These are:
  - the localized-text fallback;
  - the cart sums;
  - text truncation;
  - image-url sizing;
  - the Thai phone check and formatter;
  - the e-mail check;
  - the product sort and the product filter;
  - the `storage` wrapper around `localStorage`.
- **The product listing of `src/pages/Products.js`.** This is the URL defaults, the case-insensitive search, the category filter and the sort, plus the category, sort and clear handlers.
- **The checkout form of `src/pages/Checkout.js`.** This is the validator, the input handler, the submit ordering and the shipping rule.

Modules, one per file:

- `Wrappers`: `Option` and `Result`.
- `JsBuiltins`: the JavaScript built-ins the code leans on. These are `Array.prototype.filter` and `map`, `String.prototype.includes`, `trim` and `slice`.
- `Entities`: products, categories, cart lines, carts and filters. Localized text is a record of a Thai and an English string.
- `Helpers`: `helpers.js` without `sortProducts` and `storage`.
- `Sorting`: `sortProducts`. It is a stable insertion sort of a fresh array. It is proved equal to a functional specification, and that specification is proved ordered, a permutation and stable.
- `KeyValueStore`: the `storage` wrapper. It is a class over a map from key to entry, where an entry is a stored value or an unreadable one.
- `AppContext`: the reducer and the provider.
- `UseCart` and `UseLanguage`: the two hooks.
- `ProductsPage`: `URLSearchParams`, the listing effect and the page's handlers.
- `Checkout`: the checkout page.

Behaviours of the code worth noting, where a reader might expect otherwise:

- `ADD_TO_CART` does not keep quantities at 1 or above. Only the UI does that.
- `UPDATE_CART_ITEM` with an unknown line id is not a no-op. It still drops every line whose quantity is 0 or below, and it still writes the cart.
- `REMOVE_FROM_CART` with an unknown line id still writes the cart.
- Updating a line to 0 matches removing it only when every other line has a positive quantity.
- The provider stores whatever value `SET_LANGUAGE` received, not only `'th'` or `'en'`.
- On mount, the language effect first writes the initial `'th'`, and then the restored language.
- The listing's search falls back from the current language to the Thai text only, never to the English text.
- The default `'featured'` sort does reorder the listing.
- Toggling twice from a language other than Thai or English ends on English.

Three things are given as parameters rather than computed:

- what `generateId()` returns;
- whether the browser accepts a `localStorage` write;
- the outcome of `toLowerCase` and `localeCompare`.

## Model

| member | source | states |
|---|---|---|
| Helpers.GetText | src/utils/helpers.js:19-21 | the text in the requested language when non-empty, else the Thai text when non-empty, else the English one; empty exactly when all three are empty |
| Helpers.GetTextUnknownLanguageIsThai | src/utils/helpers.js:19-21 | a language other than th and en reads like Thai |
| Helpers.CalculateCartTotal | src/utils/helpers.js:47-51 | the sum of price times quantity over the lines; never negative when no line has a negative price or quantity |
| Helpers.CalculateCartItemCount | src/utils/helpers.js:54-56 | the sum of the quantities; never negative when no line has a negative quantity |
| Helpers.CartSumsAppend | src/utils/helpers.js:47-56 | both sums distribute over concatenation of line lists |
| Helpers.CartSumsSingle | src/utils/helpers.js:47-56 | the sums of a single line are its price times quantity and its quantity |
| Helpers.CartSumsReplace | src/utils/helpers.js:47-56 | replacing one line changes each sum by the difference of that line's contributions |
| Helpers.TruncateText | src/utils/helpers.js:116-119 | a text no longer than the maximum is returned unchanged; a longer one becomes its first max characters (none for a negative max) followed by `...` |
| Helpers.TruncateTextIdempotent | src/utils/helpers.js:116-119 | truncating twice with the same maximum gives the same text as truncating once |
| Helpers.ImageUrlAppendsWidth | src/utils/helpers.js:122-138 | the empty url gives the empty string; a non-Unsplash url is unchanged; an Unsplash url gets one width parameter after `&` if it already has a query, else after `?`, and stays an Unsplash url with a query |
| Helpers.ImageUrlTwice | src/utils/helpers.js:131-135 | sizing an Unsplash url a second time appends a second width with `&` |
| Helpers.GetImageUrl | src/utils/helpers.js:122-138 | the url is always a prefix of the result, and the result is the url itself exactly when the url is empty or not an Unsplash url |
| Helpers.IsValidThaiPhone | src/utils/helpers.js:30-33 | true exactly when, after dashes and white space are deleted, the number is `+66` or `0` followed by 8 or 9 ASCII digits |
| Helpers.ValidThaiPhoneLength | src/utils/helpers.js:30-33 | a valid number has 9 to 12 characters once the separators are removed |
| Helpers.ThaiPhoneIgnoresSeparator | src/utils/helpers.js:32 | inserting a dash or white space anywhere never changes validity |
| Helpers.FormatThaiPhoneKeepsDigits | src/utils/helpers.js:36-44 | formatting keeps the digits of the number, in order |
| Helpers.FormatThaiPhoneShape | src/utils/helpers.js:36-44 | with a leading `66` the result is `+66 ` and the following digits grouped two, three and the rest; with a leading `0` the digits grouped three, three and the rest; both use only digits, `+` and spaces and are 4 and 2 characters longer than the digits; any other input comes back unchanged |
| Helpers.IsValidEmail | src/utils/helpers.js:24-27 | true exactly when the address splits into a non-empty local part, `@`, a non-empty domain, `.` and a non-empty tail, none of them holding `@` or white space (the domain may hold further dots) |
| Helpers.FilterProducts | src/utils/helpers.js:161-186 | the stage-by-stage narrowing equals one filter by the conjunction of the active tests, is an order-preserving subsequence, and holds a product exactly when it passes category, stock, price range and sizes |
| Helpers.AdmittedProducts | src/utils/helpers.js:161-186 | the products kept by the filter are an order-preserving subsequence and are exactly those that pass every active test |
| JsBuiltins.Includes | src/utils/helpers.js:131-132 | `includes` holds exactly when the substring occurs at some position |
| JsBuiltins.TrimEmptyIffBlank | src/pages/Checkout.js:93 | `trim()` is empty exactly when every character is white space |
| KeyValueStore.Read | src/utils/helpers.js:60-68 | `storage.get` returns a value exactly when the key holds a readable entry |
| KeyValueStore.Write | src/utils/helpers.js:70-76 | after `storage.set` the key reads the value if the browser took the write, else what it read before; every other key reads as before |
| KeyValueStore.Delete | src/utils/helpers.js:78-84 | after `storage.remove` the key reads nothing; every other key reads as before |
| KeyValueStore.Storage.constructor | src/utils/helpers.js:59 | the storage starts with the given entries |
| KeyValueStore.Storage.Get | src/utils/helpers.js:60-68 | returns what `Read` gives for the current entries, changing nothing |
| KeyValueStore.Storage.Set | src/utils/helpers.js:70-76 | the entries become `Write` of the old entries |
| KeyValueStore.Storage.Remove | src/utils/helpers.js:78-84 | the entries become `Delete` of the old entries |
| Sorting.InsertPermutes | src/utils/helpers.js:141-157 | inserting an element adds exactly that element to the multiset |
| Sorting.InsertKeepsOrder | src/utils/helpers.js:141-157 | inserting into a key-ordered sequence keeps it ordered |
| Sorting.InsertIsStable | src/utils/helpers.js:141-157 | the inserted element lands after every element with an equal key |
| Sorting.SortIsOrdered | src/utils/helpers.js:146-154 | the sort's result is ordered by the comparator's key |
| Sorting.SortPermutes | src/utils/helpers.js:141-157 | the sort's result is a permutation of its input |
| Sorting.SortIsStable | src/utils/helpers.js:146-154 | elements with equal keys keep their relative input order, as the stable `Array.prototype.sort` does |
| Sorting.StableOrderIsUnique | src/utils/helpers.js:146-154 | two key-ordered sequences that agree on the elements of every key are equal, so any stable sort gives this result |
| Sorting.InsertAt | src/utils/helpers.js:146-154 | inserting into a sorted sequence puts the element at the first index whose key is greater |
| Sorting.InsertInPlace | src/utils/helpers.js:146-154 | one in-place step: the sorted prefix with the next element inserted, the rest of the array untouched |
| Sorting.SortInPlace | src/utils/helpers.js:146-154 | the array ends up holding the insertion sort of what it held |
| Sorting.SortProducts | src/utils/helpers.js:141-157 | the sorted copy equals the specification `SortedProducts`; the input sequence is not changed |
| Sorting.SortProductsSpec | src/utils/helpers.js:141-157 | a permutation of the input; `price-low` non-decreasing and `price-high` non-increasing prices; `featured` puts every featured product before every other; ties keep input order; an unknown key keeps the input order |
| Sorting.EqualPricesKeepOrder | src/utils/helpers.js:146 | two equally priced products keep their order under `price-low` |
| AppContext.FindLine | src/context/AppContext.js:112-114 | `findIndex` on product id, size and colour: the first matching line, or -1 when none matches |
| AppContext.FindLineIsFirst | src/context/AppContext.js:112-114 | the index of the first matching line is what `findIndex` returns |
| AppContext.Next | src/context/AppContext.js:68-264 | in any state, the cart actions and `CLEAR_CART` leave a cart whose total and count match its items |
| AppContext.AppReducer | src/context/AppContext.js:68-264 | the next state is the reducer's transition `Next`, and the storage becomes `Persist`: the new cart under `'cart'` for add, remove and update, the key removed for clear, untouched otherwise |
| AppContext.AppProvider.constructor | src/context/AppContext.js:270-287 | the state after mount is the loaded cart with the saved non-empty language; storage gets `'th'`, then the restored language if it differs, each write accepted or refused on its own; a consistent stored cart gives a consistent store |
| AppContext.AppProvider.Dispatch | src/context/AppContext.js:270-287 | in any state: the state becomes the reducer's next state, storage receives the reducer's writes and then the new language if it changed, the cart write and the language write each accepted or refused on its own, a cart action leaves a consistent cart, and a consistent store stays consistent |
| AppContext.AddMergesMatchingLine | src/context/AppContext.js:110-122 | adding onto a matching line grows only that line's quantity, by the given quantity; line count, order and every other line are unchanged |
| AppContext.AddAppendsNewLine | src/context/AppContext.js:123-136 | with no matching line exactly one line is appended, carrying the product's id, name, price, first image and stock flag, the size, colour, quantity and the fresh line id |
| AppContext.AddIncrementsSums | src/context/AppContext.js:109-154 | after an add, the total grows by quantity times the price of the line it lands in, and the item count by the quantity |
| AppContext.KeepsConsistent | src/context/AppContext.js:109-222 | in any state the cart actions leave `total` and `itemCount` equal to the sums over the items, and `CLEAR_CART` or an accepted write leaves a consistent stored cart; from a consistent store every action keeps both consistent |
| AppContext.RemoveKeepsOtherLines | src/context/AppContext.js:156-174 | removing keeps exactly the lines with another line id, each as many times as before and in their original order; an unknown id leaves the items unchanged |
| AppContext.UpdateToZeroIsRemove | src/context/AppContext.js:176-200 | updating a line to 0 or below gives the items that removing it gives, when every other line has a positive quantity |
| AppContext.UpdateToZeroActsAsRemove | src/context/AppContext.js:156-200 | under the same condition, the two actions give equal states and equal storage |
| AppContext.UpdateItemsContents | src/context/AppContext.js:179-183 | after an update every line has a positive quantity, the other positive lines are kept, a positive quantity keeps the updated line with it, and every line of the result is either an untouched line with another id or an input line with the updated id whose only change is the new quantity |
| AppContext.UpdateUnknownIdDropsEmptyLines | src/context/AppContext.js:179-183 | an update with an unknown id still drops every line of quantity 0 or below |
| AppContext.ClearThenLoadIsEmpty | src/context/AppContext.js:202-222 | clearing empties the cart and removes the key, so a later load gives the empty cart |
| AppContext.WriteThroughThenLoad | src/context/AppContext.js:148-222 | after add, remove or update, loading gives back the same state if the write was accepted; a refused write leaves storage unchanged |
| AppContext.ActionsTouchOwnFields | src/context/AppContext.js:70-107 | each action changes only its own fields; `SET_PRODUCTS` also clears loading and error, `SET_ERROR` clears loading, non-cart actions leave storage alone, an unknown action changes nothing |
| AppContext.MergeFiltersCompose | src/context/AppContext.js:255-259 | `SET_FILTERS` keeps the keys its payload lacks, and two merges equal one merge of the overlaid payloads |
| AppContext.AddTwiceMerges | src/context/AppContext.js:109-136 | two additions of the same product, size and colour equal one addition of the summed quantity |
| AppContext.CartWalkThrough | src/context/AppContext.js:109-200 | product 1 at 1200 in M/น้ำเงิน: one add gives 1200 and 1 item, a second add of 2 gives one line of 3 at 3600, an update to 0 gives the empty cart |
| AppContext.AddAcceptsNonPositiveQuantity | src/context/AppContext.js:109-154 | the reducer accepts a quantity of 0 or below and creates a line with it |
| UseCart.AddToCartAction | src/hooks/useCart.js:11-20 | an out-of-stock product fails with the stock error; otherwise the action is `ADD_TO_CART` with the product, size, colour and the quantity, 1 by default |
| UseCart.OutOfStockAddsChangeNothing | src/hooks/useCart.js:11-14 | a run of adds of out-of-stock products leaves the state unchanged and throws once per call |
| UseCart.AddRaisesQuantity | src/hooks/useCart.js:11-20 | after adding an in-stock product the line is in the cart and its quantity grew by the requested quantity |
| UseCart.IsInCart | src/hooks/useCart.js:44-51 | true exactly when some line has that product id, size and colour |
| UseCart.GetCartItem | src/hooks/useCart.js:54-61 | the first line with that product id, size and colour, or none when no line has them |
| UseCart.GetCartItemQuantity | src/hooks/useCart.js:64-67 | the quantity of the line the reducer's `findIndex` finds, or 0 when there is none |
| UseCart.IsInCartIffFound | src/hooks/useCart.js:44-61 | `isInCart` holds exactly when `getCartItem` finds a line |
| UseCart.GetCartItemIsFindLine | src/hooks/useCart.js:54-61 | `getCartItem` finds the line the reducer's `findIndex` finds |
| UseCart.EmptyCartQueries | src/hooks/useCart.js:8 | on the empty cart the queries answer false, none and 0 |
| UseLanguage.ToggleLanguage | src/hooks/useLanguage.js:14-17 | Thai toggles to English and every other language to Thai |
| UseLanguage.ToggleTwice | src/hooks/useLanguage.js:14-17 | toggling twice returns Thai or English; any other language ends on English |
| UseLanguage.ToggleFlipsStore | src/hooks/useLanguage.js:9-22 | dispatching the toggle flips the store between Thai and English, `t` reads the new language, and the cart is untouched |
| UseLanguage.NeverBothLanguages | src/hooks/useLanguage.js:30-37 | `isThaiLanguage` and `isEnglishLanguage` are never both true |
| UseLanguage.TFallsBack | src/hooks/useLanguage.js:20-22 | `t` gives the current language's text when present, else Thai, else English |
| UseLanguage.T | src/hooks/useLanguage.js:20-22 | `t` gives the current language's text when present, else Thai, else English, and agrees with `getTextInLanguage` at the store's current language |
| UseLanguage.GetTextInLanguage | src/hooks/useLanguage.js:25-27 | a language other than Thai and English reads as Thai; the text is empty exactly when all three texts are |
| UseLanguage.IsThaiLanguage | src/hooks/useLanguage.js:30-32 | true exactly when the toggle would switch to English |
| UseLanguage.IsEnglishLanguage | src/hooks/useLanguage.js:35-37 | when true, the toggle switches to Thai and `isThaiLanguage` is false |
| ProductsPage.Get | src/pages/Products.js:47-48 | `get` gives the value of the first pair with that name, and nothing exactly when no pair has it |
| ProductsPage.GetAfterDelete | src/pages/Products.js:81-82 | after `delete` the name reads nothing and every other name reads as before |
| ProductsPage.GetAfterSet | src/pages/Products.js:83-84 | after `set` the name reads the value and every other name reads as before |
| ProductsPage.CandidatesAreOneFilter | src/pages/Products.js:53-70 | the search stage followed by the category stage is one filter by both tests |
| ProductsPage.Listing | src/pages/Products.js:53-73 | the listing is a rearrangement of the search-and-category candidates, ascending by price for `price-low` and descending for `price-high` |
| ProductsPage.ListingContents | src/pages/Products.js:53-73 | the listing is `sortProducts` of an order-preserving subsequence of the catalogue, holding exactly the products that pass the search and the category |
| ProductsPage.UnfilteredListingIsSorted | src/pages/Products.js:47-73 | with no search and category `all`, the listing is `sortProducts` of the whole catalogue |
| ProductsPage.PantsListing | src/pages/Products.js:68-73 | category `pants` under an unknown sort key gives exactly the pants, in catalogue order |
| ProductsPage.CategoryChangeRoundTrip | src/pages/Products.js:78-87 | after a category change the effect reads back that category (`all` for an empty id) and the search is unchanged |
| ProductsPage.ClearedListing | src/pages/Products.js:93-97 | after clearing, the parameters read category `all` and no search, and the listing is the catalogue sorted by `featured` |
| ProductsPage.ProductsPage.constructor | src/pages/Products.js:45-50 | the page starts with category `all`, sort `featured` and an empty listing |
| ProductsPage.ProductsPage.RefreshListing | src/pages/Products.js:45-76 | the listing becomes `Listing` of the inputs, the selected category becomes the URL's, and the inputs are unchanged |
| ProductsPage.ProductsPage.HandleCategoryChange | src/pages/Products.js:78-87 | the selected category is set, and the parameters drop `category` for `all` and set it otherwise; nothing else changes |
| ProductsPage.ProductsPage.HandleSortChange | src/pages/Products.js:89-91 | only the sort key changes |
| ProductsPage.ProductsPage.ClearFilters | src/pages/Products.js:93-97 | the category becomes `all`, the sort `featured`, and the parameters empty |
| Checkout.FormData.With | src/pages/Checkout.js:73-76 | the named field takes the value and every other field keeps its own |
| Checkout.RequiredErrors | src/pages/Checkout.js:91-96 | the required message on exactly the required fields that are blank after trimming |
| Checkout.FormatErrors | src/pages/Checkout.js:99-106 | a non-empty malformed e-mail or phone gets the invalid-format message, replacing any earlier one; other fields are unchanged |
| Checkout.CardErrors | src/pages/Checkout.js:109-119 | for `credit-card`, the required message on each blank card field; other fields are unchanged |
| Checkout.CollectErrors | src/pages/Checkout.js:87-119 | the three stages build exactly the error map `ValidationErrors` |
| Checkout.ValidationErrors | src/pages/Checkout.js:87-119 | only required and card fields get errors; each message is the required one, or the invalid-format one on the e-mail or the phone |
| Checkout.EmailError | src/pages/Checkout.js:91-101 | the e-mail's error is the invalid-format message when it is non-empty and malformed, else the required message when blank, else none |
| Checkout.PhoneError | src/pages/Checkout.js:91-106 | the phone's error is the invalid-format message when it is non-empty and malformed, else the required message when blank, else none |
| Checkout.RequiredErrorIffBlank | src/pages/Checkout.js:91-96 | each required field other than e-mail and phone has an error exactly when blank, and the error is the required message |
| Checkout.FormatErrorsOverrideRequired | src/pages/Checkout.js:91-106 | the e-mail has an error exactly when it is blank or invalid, and a non-empty invalid address gets the invalid-format message; likewise the phone |
| Checkout.CardErrorsOnlyForCreditCard | src/pages/Checkout.js:109-119 | a card field has an error exactly when paying by credit card and the field is blank; never with a bank transfer |
| Checkout.ValidEmailNotBlank | src/pages/Checkout.js:93-100 | a valid e-mail is never blank after trimming |
| Checkout.ValidPhoneNotBlank | src/pages/Checkout.js:93-106 | a valid phone is never blank after trimming |
| Checkout.ValidIffComplete | src/pages/Checkout.js:87-122 | the form is valid exactly when every required field is filled, the e-mail and phone are valid, and for a credit card the card fields are filled |
| Checkout.WhitespaceEmailIsMalformed | src/pages/Checkout.js:91-101 | a non-empty e-mail of white space only gets the invalid-format message, not the required one |
| Checkout.ShippingCost | src/pages/Checkout.js:66 | shipping is 0 exactly when the subtotal exceeds 1000, and 50 otherwise |
| Checkout.ShippingNonIncreasing | src/pages/Checkout.js:66 | a larger subtotal never pays more shipping; 1000 pays 50 and 1001 pays 0 |
| Checkout.CheckoutPage.constructor | src/pages/Checkout.js:13-30 | the page starts with the initial form, no errors and not submitting |
| Checkout.CheckoutPage.HandleInputChange | src/pages/Checkout.js:71-85 | the named field takes the value; its error is reset to empty only when it held a message |
| Checkout.CheckoutPage.ValidateForm | src/pages/Checkout.js:87-123 | the errors become `ValidationErrors` of the form in the store's language, and the result is whether that map is empty |
| Checkout.CheckoutPage.HandleSubmit | src/pages/Checkout.js:125-148 | the form is kept and the errors become `ValidationErrors` of it; an invalid form leaves the store and storage untouched; a valid one empties the cart, removes only the `'cart'` key from storage and ends not submitting; a consistent store stays consistent |

## Left out

- Checkout.CheckoutPage.HandleSubmit: the two-second wait, `alert` and `navigate('/')` are not modelled. The error branch of the `try` is not modelled either, because `clearCart` cannot throw in this model.
- The 7% tax and the final totals (`src/pages/Checkout.js:67-69`) use floating-point arithmetic and are not modelled.
- `formatPrice` is not modelled: it formats numbers through `Intl.NumberFormat`.
- `localeCompare` for the `name-th` and `name-en` sorts is a caller-given rank (`Sorting.Collation`), not Unicode collation.
- `toLowerCase` in the listing search is a caller-given function.
- `generateId` is not modelled; the id it would return is a parameter of the reducer.
- Sorting.SortProducts: the only comparators modelled are those that take the difference of an integer key, and every sort key in the source is of that shape.
- KeyValueStore.Storage: JSON text is not modelled.
  - A `localStorage` read failure or unparsable text is an `Unreadable` entry that reads as nothing.
  - A refused write is the `accepted` flag. Each `setItem` call has its own flag, as each has its own `try`.
  - Logging to the console is not modelled.
- AppContext.AppReducer: a non-cart value stored under `'cart'` reads as the empty cart. The real code would return that value as the cart.
- AppContext.AppReducer: `state.cart` is always present, so the `|| []` fallbacks over it are not modelled, and neither are `useCart`'s `state.cart || ...` or its `Array.isArray` checks.
- AppContext.AppReducer: the `SET_LOADING` payload is a boolean and the user is an opaque string.
- AppContext.SavedLanguage: only a non-empty string stored under `'language'` is restored. The code dispatches any truthy stored value as the language, including an object, a number or `true`. The model's language is a string, so it ignores those entries and keeps `'th'`.
- Products, featured products, categories and the user are set only by plain field assignment.
- `removeFromCart`, `updateCartItem`, `clearCart` and `setLanguage` in the hooks only dispatch. They are modelled as the corresponding actions of `AppContext.Next`.
- Numbers are unbounded integers. Prices in the catalogue are whole baht, and JavaScript number rounding is not modelled.
- String lengths count characters, not UTF-16 code units.
- `getImageUrl`'s unknown size prints `undefined` as text (`Helpers.SizeParam`). The default size argument is not modelled, because the caller always passes a size.
- `debounce`, `isProductInStock`, `getAvailableSizes` and `getAvailableColors` are not part of this model.
- React rendering, hook scheduling and routing are not part of this model. The listing effect runs when `ProductsPage.ProductsPage.RefreshListing` is called.
