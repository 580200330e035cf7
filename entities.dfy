/**
 * The records the storefront passes around: localized text, catalogue products
 * and categories, cart lines and the cart, and the product-listing filters.
 */
module Entities {
  import opened Wrappers

  /**
   * A `{ th, en }` text object. A key that is missing and a key that holds `''`
   * behave alike under JavaScript's `||`, so both are the empty string here.
   */
  datatype Text = Text(th: string, en: string) {
    /** `textObj[language]`: any language other than `th` and `en` has no entry. */
    function At(language: string): string {
      if language == "th" then th else if language == "en" then en else ""
    }
  }

  /** A catalogue product (prices are whole baht). */
  datatype Product = Product(
    id: string,
    name: Text,
    description: Text,
    price: int,
    category: string,
    images: seq<string>,
    sizes: seq<string>,
    colors: seq<string>,
    inStock: bool,
    featured: bool)

  datatype Category = Category(id: string, name: Text)

  /**
   * A cart line. `size` and `color` are `None` when the shopper chose none;
   * `image` is `None` when the product had no image (`images[0]` is `undefined`).
   */
  datatype CartItem = CartItem(
    id: string,
    cartItemId: string,
    name: Text,
    price: int,
    image: Option<string>,
    size: Option<string>,
    color: Option<string>,
    quantity: int,
    inStock: bool)
  {
    /** The three-key line identity used by the reducer and the cart queries. */
    predicate IsLine(productId: string, size': Option<string>, color': Option<string>) {
      id == productId && size == size' && color == color'
    }
  }

  /** The cart as stored in the application state and in local storage. */
  datatype Cart = Cart(items: seq<CartItem>, total: int, itemCount: int)

  datatype PriceRange = PriceRange(min: int, max: int)

  /**
   * The listing filters. `category == ""` stands for an absent category, and
   * `sizes == []` for an absent or empty sizes list.
   */
  datatype Filters = Filters(
    category: string,
    inStock: bool,
    priceRange: Option<PriceRange>,
    sizes: seq<string>)
}
