/**
 * The product listing page: the URL parameters `category` and `search`, the
 * listing effect (search, then category, then `sortProducts`) and the handlers
 * that change the parameters and the sort order.
 */
module ProductsPage {
  import opened Wrappers
  import opened Entities
  import opened JsBuiltins
  import opened Sorting

  // ---------------------------------------------------------------------------
  // URLSearchParams
  // ---------------------------------------------------------------------------

  /** A `URLSearchParams` object: its name-value pairs in order. */
  type Params = seq<(string, string)>

  /** `params.get(name)`: the value of the first pair with that name. */
  function Get(params: Params, name: string): (r: Option<string>)
    ensures r.None? <==> forall i :: 0 <= i < |params| ==> params[i].0 != name
    ensures r.Some? ==> exists i :: 0 <= i < |params| && params[i] == (name, r.value)
                          && forall j :: 0 <= j < i ==> params[j].0 != name
  {
    if params == [] then None
    else if params[0].0 == name then Some(params[0].1)
    else
      var r := Get(params[1..], name);
      assert r.Some? ==> exists i :: 0 <= i < |params| && params[i] == (name, r.value)
                          && forall j :: 0 <= j < i ==> params[j].0 != name by {
        if r.Some? {
          var i :| 0 <= i < |params| - 1 && params[1..][i] == (name, r.value)
                   && forall j :: 0 <= j < i ==> params[1..][j].0 != name;
          assert params[i + 1] == (name, r.value);
          forall j | 0 <= j < i + 1 ensures params[j].0 != name {
            if j > 0 {
              assert params[j] == params[1..][j - 1];
            }
          }
        }
      }
      assert r.None? ==> forall i :: 0 <= i < |params| ==> params[i].0 != name by {
        if r.None? {
          forall i | 0 <= i < |params| ensures params[i].0 != name {
            if i > 0 {
              assert params[i] == params[1..][i - 1];
            }
          }
        }
      }
      r
  }

  function OtherName(name: string): ((string, string)) -> bool {
    (pair: (string, string)) => pair.0 != name
  }

  /** `params.delete(name)`: drops every pair with that name. */
  function Delete(params: Params, name: string): Params {
    Filter(params, OtherName(name))
  }

  /**
   * `params.set(name, value)`: the first pair with that name takes the value
   * and the later ones are dropped; without one, the pair is appended.
   */
  function Set(params: Params, name: string, value: string): Params {
    if params == [] then [(name, value)]
    else if params[0].0 == name then [(name, value)] + Delete(params[1..], name)
    else [params[0]] + Set(params[1..], name, value)
  }

  /** After `delete(name)` the name is gone and every other name reads as before. */
  lemma {:induction false} GetAfterDelete(params: Params, name: string, other: string)
    ensures Get(Delete(params, name), name) == None
    ensures other != name ==> Get(Delete(params, name), other) == Get(params, other)
  {
    if params != [] {
      GetAfterDelete(params[1..], name, other);
      var rest := Delete(params[1..], name);
      if params[0].0 != name {
        assert Delete(params, name) == [params[0]] + rest;
        assert ([params[0]] + rest)[1..] == rest;
      } else {
        assert Delete(params, name) == rest;
      }
    }
  }

  /** After `set(name, value)` the name reads `value` and every other name reads as before. */
  lemma {:induction false} GetAfterSet(params: Params, name: string, value: string, other: string)
    ensures Get(Set(params, name, value), name) == Some(value)
    ensures other != name ==> Get(Set(params, name, value), other) == Get(params, other)
  {
    if params != [] {
      if params[0].0 == name {
        GetAfterDelete(params[1..], name, other);
        assert ([(name, value)] + Delete(params[1..], name))[1..] == Delete(params[1..], name);
      } else {
        GetAfterSet(params[1..], name, value, other);
        assert ([params[0]] + Set(params[1..], name, value))[1..] == Set(params[1..], name, value);
      }
    }
  }

  /** `searchParams.get('category') || 'all'`. */
  function CategoryParam(params: Params): string {
    match Get(params, "category")
    case Some(category) => if category != "" then category else "all"
    case None => "all"
  }

  /** `searchParams.get('search') || ''`. */
  function SearchParam(params: Params): string {
    Get(params, "search").GetOr("")
  }

  // ---------------------------------------------------------------------------
  // The listing
  // ---------------------------------------------------------------------------

  /**
   * The text the search looks at: the entry for `language || 'th'` when it is
   * non-empty, else the Thai entry (the English one is not consulted).
   */
  function SearchText(text: Text, language: string): string {
    var lang := if language != "" then language else "th";
    if text.At(lang) != "" then text.At(lang) else text.th
  }

  /**
   * The search test: the lower-cased query occurs in the lower-cased name or
   * description. `lower` is `String.prototype.toLowerCase`.
   */
  predicate MatchesSearch(product: Product, search: string, language: string, lower: string -> string) {
    var query := lower(search);
    Includes(lower(SearchText(product.name, language)), query)
    || Includes(lower(SearchText(product.description, language)), query)
  }

  function SearchTest(search: string, language: string, lower: string -> string): Product -> bool {
    (p: Product) => MatchesSearch(p, search, language, lower)
  }

  function CategoryTest(category: string): Product -> bool {
    (p: Product) => p.category == category
  }

  /** What the listing keeps of a product, before sorting. */
  predicate Listed(product: Product, params: Params, language: string, lower: string -> string) {
    && (SearchParam(params) != "" ==> MatchesSearch(product, SearchParam(params), language, lower))
    && (CategoryParam(params) != "all" ==> product.category == CategoryParam(params))
  }

  function ListedTest(params: Params, language: string, lower: string -> string): Product -> bool {
    (p: Product) => Listed(p, params, language, lower)
  }

  /** The products the effect keeps, in catalogue order: the search stage, then the category stage. */
  function Candidates(products: seq<Product>, params: Params, language: string, lower: string -> string)
    : seq<Product>
  {
    var category, search := CategoryParam(params), SearchParam(params);
    var searched := if search != "" then Filter(products, SearchTest(search, language, lower)) else products;
    if category != "all" then Filter(searched, CategoryTest(category)) else searched
  }

  /** The list the effect stores in `filteredProducts`. */
  function Listing(products: seq<Product>, params: Params, sortBy: string, language: string,
                   lower: string -> string, collation: Collation): (r: seq<Product>)
    ensures multiset(r) == multiset(Candidates(products, params, language, lower))
    ensures sortBy == "price-low" ==> forall i, j :: 0 <= i < j < |r| ==> r[i].price <= r[j].price
    ensures sortBy == "price-high" ==> forall i, j :: 0 <= i < j < |r| ==> r[i].price >= r[j].price
  {
    SortProductsSpec(Candidates(products, params, language, lower), sortBy, collation);
    SortedProducts(Candidates(products, params, language, lower), sortBy, collation)
  }

  /**
   * The stages of the effect are one filter by the conjunction of the tests:
   * the candidates are the catalogue's products that pass both stages, in
   * catalogue order.
   */
  lemma CandidatesAreOneFilter(products: seq<Product>, params: Params, language: string,
                               lower: string -> string)
    ensures Candidates(products, params, language, lower) == Filter(products, ListedTest(params, language, lower))
  {
    var category, search := CategoryParam(params), SearchParam(params);
    var listed := ListedTest(params, language, lower);
    if search != "" && category != "all" {
      FilterTwice(products, SearchTest(search, language, lower), CategoryTest(category), listed);
    } else if search != "" {
      FilterCongruent(products, SearchTest(search, language, lower), listed);
    } else if category != "all" {
      FilterCongruent(products, CategoryTest(category), listed);
    } else {
      FilterKeepsAll(products, listed);
    }
  }

  /**
   * The listing is `sortProducts` of an order-preserving subsequence of the
   * catalogue, and holds exactly the catalogue's products that pass the search
   * and the category.
   */
  lemma ListingContents(products: seq<Product>, params: Params, sortBy: string, language: string,
                        lower: string -> string, collation: Collation)
    ensures var candidates := Candidates(products, params, language, lower);
      && IsSubsequence(candidates, products)
      && Listing(products, params, sortBy, language, lower, collation) == SortedProducts(candidates, sortBy, collation)
    ensures forall p :: p in Listing(products, params, sortBy, language, lower, collation)
                    <==> p in products && Listed(p, params, language, lower)
  {
    var candidates := Candidates(products, params, language, lower);
    CandidatesAreOneFilter(products, params, language, lower);
    FilterIsSubsequence(products, ListedTest(params, language, lower));
    FilterMembers(products, ListedTest(params, language, lower));
    SortProductsSpec(candidates, sortBy, collation);
    var r := Listing(products, params, sortBy, language, lower, collation);
    assert forall p :: p in r <==> p in multiset(r);
  }

  /** With no search and the category `'all'` the listing is `sortProducts` of the whole catalogue. */
  lemma UnfilteredListingIsSorted(products: seq<Product>, params: Params, sortBy: string, language: string,
                                  lower: string -> string, collation: Collation)
    requires SearchParam(params) == "" && CategoryParam(params) == "all"
    ensures Listing(products, params, sortBy, language, lower, collation) == SortedProducts(products, sortBy, collation)
  {
  }

  /**
   * Category `pants` and an empty search under a sort key the page does not
   * know: exactly the pants of the catalogue, in catalogue order.
   */
  lemma PantsListing(products: seq<Product>, sortBy: string, language: string, lower: string -> string,
                     collation: Collation)
    requires ParseSortKey(sortBy) == Unsorted
    ensures var r := Listing(products, [("category", "pants")], sortBy, language, lower, collation);
      && r == Filter(products, CategoryTest("pants"))
      && IsSubsequence(r, products)
      && forall p :: p in r <==> p in products && p.category == "pants"
  {
    assert Get([("category", "pants")], "search") == None;
    FilterIsSubsequence(products, CategoryTest("pants"));
    FilterMembers(products, CategoryTest("pants"));
  }

  /** The parameters after `handleCategoryChange(categoryId)`. */
  function CategoryChanged(params: Params, categoryId: string): Params {
    if categoryId == "all" then Delete(params, "category") else Set(params, "category", categoryId)
  }

  /**
   * `handleCategoryChange` round-trips through the URL: the effect then reads
   * back the chosen category (an empty id reads as `'all'`), and the search is
   * untouched.
   */
  lemma CategoryChangeRoundTrip(params: Params, categoryId: string)
    ensures CategoryParam(CategoryChanged(params, categoryId)) == if categoryId == "" then "all" else categoryId
    ensures SearchParam(CategoryChanged(params, categoryId)) == SearchParam(params)
  {
    if categoryId == "all" {
      GetAfterDelete(params, "category", "search");
    } else {
      GetAfterSet(params, "category", categoryId, "search");
    }
  }

  /** After `clearFilters` the listing is the whole catalogue sorted by `featured`. */
  lemma ClearedListing(products: seq<Product>, language: string, lower: string -> string,
                       collation: Collation)
    ensures CategoryParam([]) == "all" && SearchParam([]) == ""
    ensures Listing(products, [], "featured", language, lower, collation)
         == SortedProducts(products, "featured", collation)
  {
  }

  /** The page component's state. */
  class ProductsPage {
    /** `products` from `useProducts` and `state.language` from the store. */
    var products: seq<Product>
    var language: string
    var searchParams: Params
    var selectedCategory: string
    var sortBy: string
    var filteredProducts: seq<Product>

    constructor(products: seq<Product>, language: string, searchParams: Params)
      ensures this.products == products && this.language == language && this.searchParams == searchParams
      ensures selectedCategory == "all" && sortBy == "featured" && filteredProducts == []
    {
      this.products := products;
      this.language := language;
      this.searchParams := searchParams;
      selectedCategory := "all";
      sortBy := "featured";
      filteredProducts := [];
    }

    /** The listing effect. */
    method RefreshListing(lower: string -> string, collation: Collation)
      modifies this
      ensures filteredProducts == Listing(products, searchParams, sortBy, language, lower, collation)
      ensures selectedCategory == CategoryParam(searchParams)
      ensures products == old(products) && language == old(language)
      ensures searchParams == old(searchParams) && sortBy == old(sortBy)
    {
      var category := CategoryParam(searchParams);
      var search := SearchParam(searchParams);
      selectedCategory := category;
      var filtered := products;
      if search != "" {
        filtered := Filter(filtered, SearchTest(search, language, lower));
      }
      if category != "all" {
        filtered := Filter(filtered, CategoryTest(category));
      }
      filtered := SortProducts(filtered, sortBy, collation);
      filteredProducts := filtered;
    }

    method HandleCategoryChange(categoryId: string)
      modifies this
      ensures selectedCategory == categoryId
      ensures searchParams == CategoryChanged(old(searchParams), categoryId)
      ensures products == old(products) && language == old(language)
      ensures sortBy == old(sortBy) && filteredProducts == old(filteredProducts)
    {
      selectedCategory := categoryId;
      var newParams := searchParams;
      if categoryId == "all" {
        newParams := Delete(newParams, "category");
      } else {
        newParams := Set(newParams, "category", categoryId);
      }
      searchParams := newParams;
    }

    method HandleSortChange(newSortBy: string)
      modifies this
      ensures sortBy == newSortBy
      ensures products == old(products) && language == old(language) && searchParams == old(searchParams)
      ensures selectedCategory == old(selectedCategory) && filteredProducts == old(filteredProducts)
    {
      sortBy := newSortBy;
    }

    method ClearFilters()
      modifies this
      ensures selectedCategory == "all" && sortBy == "featured" && searchParams == []
      ensures products == old(products) && language == old(language)
      ensures filteredProducts == old(filteredProducts)
    {
      selectedCategory := "all";
      sortBy := "featured";
      searchParams := [];
    }
  }
}
