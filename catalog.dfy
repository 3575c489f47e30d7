/** The storefront's catalog query (the filter effect of the index page and
    its `categories` list): a case-insensitive search over title,
    description and category, then an exact category filter, then the sort
    step. The source list is never changed; the result is a new view. */
module Catalog {
  import opened Products
  import opened Strings
  import opened Lists
  import opened Sorting

  /** The search callback: the lowered query occurs in the lowered title,
      description or category. */
  predicate MatchesQuery(p: Product, query: string)
  {
    || Contains(Lower(p.title), Lower(query))
    || Contains(Lower(p.description), Lower(query))
    || Contains(Lower(p.category), Lower(query))
  }

  /** The category callback: an exact comparison of labels. */
  predicate InCategory(p: Product, category: string)
  {
    p.category == category
  }

  /** What the view should hold: products the query matches (an empty query
      matches all) in the chosen category ('all' matches all). */
  predicate Selected(p: Product, query: string, category: string)
  {
    (query == "" || MatchesQuery(p, query)) && (category == "all" || p.category == category)
  }

  /** The selected products in catalog order. */
  function Selection(products: seq<Product>, query: string, category: string): seq<Product>
  {
    Filter(products, p => Selected(p, query, category))
  }

  /** The search callback as a value. */
  function QueryTest(query: string): Product -> bool
  {
    p => MatchesQuery(p, query)
  }

  /** The category callback as a value. */
  function CategoryTest(category: string): Product -> bool
  {
    p => InCategory(p, category)
  }

  /** The search step: filter only when the query is non-empty. */
  function SearchStep(products: seq<Product>, query: string): seq<Product>
  {
    if query != "" then Filter(products, QueryTest(query)) else products
  }

  /** The category step: filter unless the category is 'all'. */
  function CategoryStep(products: seq<Product>, category: string): seq<Product>
  {
    if category != "all" then Filter(products, CategoryTest(category)) else products
  }

  /** The sort step: the comparator the key selects, or none. */
  function SortStep(sortKey: string, products: seq<Product>): seq<Product>
  {
    Sort(ParseSortOrder(sortKey), products)
  }

  /** The body of the filter effect: copy, search, category, then sort. */
  function View(products: seq<Product>, query: string, category: string, sortKey: string): seq<Product>
  {
    SortStep(sortKey, CategoryStep(SearchStep(products, query), category))
  }

  /** The search and category steps together filter by `Selected`. */
  lemma FilterStepsAreSelection(products: seq<Product>, query: string, category: string)
    ensures CategoryStep(SearchStep(products, query), category) == Selection(products, query, category)
  {
    var sel := p => Selected(p, query, category);
    if query != "" && category != "all" {
      FilterTwice(products, QueryTest(query), CategoryTest(category), sel);
    } else if query != "" {
      FilterCongruent(products, QueryTest(query), sel);
    } else if category != "all" {
      FilterCongruent(products, CategoryTest(category), sel);
    } else {
      FilterKeepsAll(products, sel);
    }
  }

  /** The two filter steps together keep exactly the selected products, in catalog order. */
  lemma FilterStepsSelect(products: seq<Product>, query: string, category: string)
    ensures View(products, query, category, "featured") == Selection(products, query, category)
  {
    FilterStepsAreSelection(products, query, category);
    SortFeaturedIsIdentity(CategoryStep(SearchStep(products, query), category));
  }

  /** The view holds exactly the selected products, in comparator order, each
      group of ties in catalog order; 'featured' (or an unknown key) is the
      selection itself. */
  lemma ViewSpec(products: seq<Product>, query: string, category: string, sortKey: string)
    ensures var v := View(products, query, category, sortKey);
            var sel := Selection(products, query, category);
            var order := ParseSortOrder(sortKey);
            && multiset(v) == multiset(sel)
            && Ordered(order, v)
            && Stable(order, v, sel)
            && (order == Featured ==> v == sel)
  {
    var order := ParseSortOrder(sortKey);
    var sel := Selection(products, query, category);
    FilterStepsSelect(products, query, category);
    var inCategory := CategoryStep(SearchStep(products, query), category);
    SortFeaturedIsIdentity(inCategory);
    assert inCategory == sel;
    SortOrdered(order, sel);
    SortStable(order, sel);
  }

  /** A product is in the view exactly when it is in the catalog and selected. */
  lemma ViewMembership(products: seq<Product>, query: string, category: string, sortKey: string, p: Product)
    ensures p in View(products, query, category, sortKey) <==> p in products && Selected(p, query, category)
  {
    ViewSpec(products, query, category, sortKey);
    var v := View(products, query, category, sortKey);
    var sel := Selection(products, query, category);
    assert p in v <==> p in multiset(v);
    assert p in sel <==> p in multiset(sel);
  }

  /** What each sort key means for any two products of the view. */
  lemma ViewKeyOrder(products: seq<Product>, query: string, category: string, sortKey: string)
    ensures var v := View(products, query, category, sortKey);
            forall i, j :: 0 <= i < j < |v| ==>
              && (sortKey == "price-low" ==> v[i].price <= v[j].price)
              && (sortKey == "price-high" ==> v[i].price >= v[j].price)
              && (sortKey == "rating" ==> v[i].rating >= v[j].rating)
              && (sortKey == "newest" ==> !StrLess(v[i].id, v[j].id))
  {
    ViewSpec(products, query, category, sortKey);
  }

  /** With an empty query and 'all', the 'featured' view is the whole catalog. */
  lemma DefaultViewIsCatalog(products: seq<Product>)
    ensures View(products, "", "all", "featured") == products
  {
    FilterStepsSelect(products, "", "all");
    FilterKeepsAll(products, p => Selected(p, "", "all"));
  }

  /** The empty query matches every product, so skipping the search filter
      when the query is empty agrees with `MatchesQuery`. */
  lemma EmptyQueryMatches(p: Product)
    ensures MatchesQuery(p, "")
  {
    ContainsEmpty(Lower(p.title));
  }

  /** Searching ignores ASCII case in the query. */
  lemma QueryCaseInsensitive(p: Product, query: string)
    ensures MatchesQuery(p, query) <==> MatchesQuery(p, Lower(query))
  {
    LowerIdempotent(query);
  }

  // ---------------------------------------------------------------------------
  // categories = ['all', ...new Set(products.map(p => p.category))]

  /** `products.map(p => p.category)`. */
  function CategoryLabels(products: seq<Product>): (r: seq<string>)
    ensures |r| == |products|
    ensures forall i :: 0 <= i < |products| ==> r[i] == products[i].category
  {
    if products == [] then [] else [products[0].category] + CategoryLabels(products[1..])
  }

  /** The iteration order of `new Set(s)`: each value once, where it first appears. */
  function Distinct(s: seq<string>): (r: seq<string>)
  {
    if s == [] then []
    else
      var d := Distinct(s[..|s| - 1]);
      if s[|s| - 1] in d then d else d + [s[|s| - 1]]
  }

  /** Position of the first occurrence of `x` in `s`, or `|s|` when there is none. */
  function FirstIndex(s: seq<string>, x: string): (i: nat)
    ensures i <= |s|
    ensures i < |s| <==> x in s
    ensures i < |s| ==> s[i] == x
    ensures forall j :: 0 <= j < i ==> s[j] != x
  {
    if s == [] then 0 else if s[0] == x then 0 else 1 + FirstIndex(s[1..], x)
  }

  lemma {:induction false} FirstIndexInPrefix(s: seq<string>, n: nat, x: string)
    requires n <= |s| && x in s[..n]
    ensures FirstIndex(s, x) == FirstIndex(s[..n], x)
  {
    var i := FirstIndex(s[..n], x);
    var k := FirstIndex(s, x);
    assert s[i] == x;
    assert k <= i;
    assert s[..n][k] == x;
  }

  /** `Distinct` holds exactly the values of `s`. */
  lemma {:induction false} DistinctMembers(s: seq<string>)
    ensures forall x :: x in Distinct(s) <==> x in s
  {
    if s != [] {
      var n := |s| - 1;
      DistinctMembers(s[..n]);
      assert s == s[..n] + [s[n]];
    }
  }

  /** `Distinct` never lists a value twice. */
  lemma {:induction false} DistinctUnique(s: seq<string>)
    ensures forall i, j :: 0 <= i < j < |Distinct(s)| ==> Distinct(s)[i] != Distinct(s)[j]
  {
    if s != [] {
      DistinctUnique(s[..|s| - 1]);
    }
  }

  /** `Distinct` lists values in order of their first appearance in `s`. */
  lemma {:induction false} DistinctOrder(s: seq<string>)
    ensures forall i, j :: 0 <= i < j < |Distinct(s)| ==>
              FirstIndex(s, Distinct(s)[i]) < FirstIndex(s, Distinct(s)[j])
  {
    if s != [] {
      var n := |s| - 1;
      var init := s[..n];
      var last := s[n];
      DistinctOrder(init);
      DistinctMembers(init);
      var d := Distinct(init);
      forall x | x in d
        ensures FirstIndex(s, x) == FirstIndex(init, x) < n
      {
        FirstIndexInPrefix(s, n, x);
      }
      if last !in d {
        assert last !in init;
        assert FirstIndex(s, last) == n;
      }
    }
  }

  /** `Distinct` lists every value of `s` once, in order of first appearance. */
  lemma DistinctSpec(s: seq<string>)
    ensures forall x :: x in Distinct(s) <==> x in s
    ensures forall i, j :: 0 <= i < j < |Distinct(s)| ==> Distinct(s)[i] != Distinct(s)[j]
    ensures forall i, j :: 0 <= i < j < |Distinct(s)| ==>
              FirstIndex(s, Distinct(s)[i]) < FirstIndex(s, Distinct(s)[j])
  {
    DistinctMembers(s);
    DistinctUnique(s);
    DistinctOrder(s);
  }

  /** The category menu of the storefront. */
  function Categories(products: seq<Product>): (r: seq<string>)
    ensures |r| >= 1 && r[0] == "all"
  {
    ["all"] + Distinct(CategoryLabels(products))
  }

  /** After 'all', the menu lists each product category exactly once, ordered
      by where it first appears in the catalog. */
  lemma CategoriesSpec(products: seq<Product>)
    ensures var r := Categories(products);
            var labels := CategoryLabels(products);
            && (forall c :: c in r[1..] <==> exists p :: p in products && p.category == c)
            && (forall i, j :: 1 <= i < j < |r| ==> r[i] != r[j])
            && (forall i, j :: 1 <= i < j < |r| ==> FirstIndex(labels, r[i]) < FirstIndex(labels, r[j]))
  {
    var labels := CategoryLabels(products);
    DistinctSpec(labels);
    var r := Categories(products);
    assert r[1..] == Distinct(labels);
    forall c
      ensures c in r[1..] <==> exists p :: p in products && p.category == c
    {
      if c in labels {
        var i :| 0 <= i < |labels| && labels[i] == c;
        assert products[i] in products;
      }
      if exists p :: p in products && p.category == c {
        var p :| p in products && p.category == c;
        var i :| 0 <= i < |products| && products[i] == p;
        assert labels[i] == c;
      }
    }
  }
}
