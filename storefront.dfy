/** The storefront page's state: the catalog, the view the filter effect
    derives from it, the three query controls, and the in-memory cart. Every
    control change is followed by the filter effect, so the view always equals
    the catalog query of the current controls (`Valid`). */
module Storefront {
  import opened Products
  import opened Lists
  import Catalog
  import opened CartLines

  class StorefrontPage {
    var products: seq<Product>
    var filteredProducts: seq<Product>
    var searchQuery: string
    var selectedCategory: string
    var sortBy: string
    var cartItems: seq<CartLine>

    /** The view matches the controls and the cart keeps one line per product, each at least 1. */
    predicate Valid()
      reads this
    {
      && filteredProducts == Catalog.View(products, searchQuery, selectedCategory, sortBy)
      && WellFormed(cartItems)
    }

    /** The page after the catalog has been loaded: no query, every category,
        'featured' order, an empty cart, and the view equal to the catalog. */
    constructor (catalog: seq<Product>)
      ensures products == catalog && filteredProducts == catalog
      ensures searchQuery == "" && selectedCategory == "all" && sortBy == "featured"
      ensures cartItems == []
      ensures Valid()
    {
      products := catalog;
      filteredProducts := catalog;
      searchQuery := "";
      selectedCategory := "all";
      sortBy := "featured";
      cartItems := [];
      Catalog.DefaultViewIsCatalog(catalog);
    }

    /** The filter effect: copy the catalog, apply the search step when the
        query is non-empty, the category step unless it is 'all', then sort. */
    method ApplyFilters()
      modifies this
      ensures filteredProducts == Catalog.View(products, searchQuery, selectedCategory, sortBy)
      ensures products == old(products) && cartItems == old(cartItems)
      ensures searchQuery == old(searchQuery) && selectedCategory == old(selectedCategory) && sortBy == old(sortBy)
    {
      var filtered := products;
      if searchQuery != "" {
        filtered := Filter(filtered, Catalog.QueryTest(searchQuery));
      }
      if selectedCategory != "all" {
        filtered := Filter(filtered, Catalog.CategoryTest(selectedCategory));
      }
      filtered := Catalog.SortStep(sortBy, filtered);
      filteredProducts := filtered;
    }

    method SetSearchQuery(query: string)
      requires Valid()
      modifies this
      ensures Valid()
      ensures searchQuery == query
      ensures products == old(products) && cartItems == old(cartItems)
      ensures selectedCategory == old(selectedCategory) && sortBy == old(sortBy)
    {
      searchQuery := query;
      ApplyFilters();
    }

    method SetSelectedCategory(category: string)
      requires Valid()
      modifies this
      ensures Valid()
      ensures selectedCategory == category
      ensures products == old(products) && cartItems == old(cartItems)
      ensures searchQuery == old(searchQuery) && sortBy == old(sortBy)
    {
      selectedCategory := category;
      ApplyFilters();
    }

    method SetSortBy(key: string)
      requires Valid()
      modifies this
      ensures Valid()
      ensures sortBy == key
      ensures products == old(products) && cartItems == old(cartItems)
      ensures searchQuery == old(searchQuery) && selectedCategory == old(selectedCategory)
    {
      sortBy := key;
      ApplyFilters();
    }

    /** The category menu. */
    function Categories(): (r: seq<string>)
      reads this
      ensures |r| >= 1 && r[0] == "all"
    {
      Catalog.Categories(products)
    }

    /** `cartItemsCount`, shown on the cart badge: at least one per line in a valid page. */
    function CartItemsCount(): (r: int)
      reads this
      ensures Valid() ==> r >= |cartItems|
      ensures Valid() ==> (r == 0 <==> cartItems == [])
    {
      if WellFormed(cartItems) then
        ItemCountBounds(cartItems);
        ItemCount(cartItems)
      else ItemCount(cartItems)
    }

    method AddToCart(p: Product)
      requires Valid()
      modifies this
      ensures Valid()
      ensures cartItems == AddOne(old(cartItems), p)
      ensures CartItemsCount() == old(CartItemsCount()) + 1
      ensures products == old(products) && filteredProducts == old(filteredProducts)
      ensures searchQuery == old(searchQuery) && selectedCategory == old(selectedCategory) && sortBy == old(sortBy)
    {
      AddOneWellFormed(cartItems, p);
      AddOneSums(cartItems, p);
      cartItems := AddOne(cartItems, p);
    }

    /** Zero removes the line; the drawer never sends a negative quantity. */
    method UpdateCartQuantity(id: string, quantity: int)
      requires Valid() && quantity >= 0
      modifies this
      ensures Valid()
      ensures cartItems == SetQuantity(old(cartItems), id, quantity)
      ensures products == old(products) && filteredProducts == old(filteredProducts)
      ensures searchQuery == old(searchQuery) && selectedCategory == old(selectedCategory) && sortBy == old(sortBy)
    {
      if quantity == 0 {
        RemoveFromCart(id);
        return;
      }
      SetQuantityWellFormed(cartItems, id, quantity);
      cartItems := MapWhere(cartItems, IdIs(id), WithQuantity(quantity));
    }

    method RemoveFromCart(id: string)
      requires Valid()
      modifies this
      ensures Valid()
      ensures cartItems == RemoveLine(old(cartItems), id)
      ensures !HasLine(cartItems, id)
      ensures products == old(products) && filteredProducts == old(filteredProducts)
      ensures searchQuery == old(searchQuery) && selectedCategory == old(selectedCategory) && sortBy == old(sortBy)
    {
      RemoveLineWellFormed(cartItems, id);
      RemoveLineSpec(cartItems, id);
      cartItems := RemoveLine(cartItems, id);
    }
  }
}
