/** The storefront's sort step: `filtered.sort(compare)` with one of four
    comparators chosen by the sort key, or no sorting at all for 'featured'
    (and for any key the switch does not name).

    `Array.prototype.sort` is stable. The library's algorithm is not part of
    this model: `Sort` is a stable insertion sort, and `SortIsTheStableSort`
    shows that every ordered, stable permutation equals it, so any stable
    sorting algorithm produces exactly `Sort`'s result. */
module Sorting {
  import opened Products
  import opened Strings
  import opened Lists

  datatype SortOrder = Featured | PriceLow | PriceHigh | Rating | Newest

  /** The `switch (sortBy)` of the filter effect; unknown keys fall to the default branch. */
  function ParseSortOrder(key: string): (order: SortOrder)
    ensures order == Featured <==>
      key != "price-low" && key != "price-high" && key != "rating" && key != "newest"
  {
    if key == "price-low" then PriceLow
    else if key == "price-high" then PriceHigh
    else if key == "rating" then Rating
    else if key == "newest" then Newest
    else Featured
  }

  /** The comparator returns a negative number for `(a, b)`: `a` must come before `b`.
      'price-low' is `a.price - b.price`, 'price-high' is `b.price - a.price`,
      'rating' is `b.rating - a.rating`, 'newest' is `b.id.localeCompare(a.id)`. */
  predicate Precedes(order: SortOrder, a: Product, b: Product)
  {
    match order
    case Featured => false
    case PriceLow => a.price < b.price
    case PriceHigh => a.price > b.price
    case Rating => a.rating > b.rating
    case Newest => StrLess(b.id, a.id)
  }

  /** The comparator returns zero: the two products tie. */
  predicate SameRank(order: SortOrder, a: Product, b: Product)
  {
    !Precedes(order, a, b) && !Precedes(order, b, a)
  }

  /** Every comparator is a strict weak order: irreflexive, asymmetric, and
      whatever lies strictly between two ranks is comparable to both. */
  lemma PrecedesIsStrictWeakOrder(order: SortOrder, a: Product, b: Product, c: Product)
    ensures !Precedes(order, a, a)
    ensures Precedes(order, a, b) ==> !Precedes(order, b, a)
    ensures Precedes(order, a, c) ==> Precedes(order, a, b) || Precedes(order, b, c)
  {
    if order == Newest {
      StrLessIrreflexive(a.id);
      if StrLess(b.id, a.id) && StrLess(a.id, b.id) {
        StrLessTransitive(a.id, b.id, a.id);
      }
      if StrLess(c.id, a.id) && b.id != a.id && b.id != c.id {
        StrLessTotal(a.id, b.id);
        if StrLess(a.id, b.id) {
          StrLessTransitive(c.id, a.id, b.id);
        }
      }
    }
  }

  /** Ties are an equivalence: a product that ties with `k` ties with everything `k` ties with. */
  lemma SameRankTransitive(order: SortOrder, a: Product, b: Product, c: Product)
    requires SameRank(order, a, b) && SameRank(order, b, c)
    ensures SameRank(order, a, c)
  {
    PrecedesIsStrictWeakOrder(order, a, b, c);
    PrecedesIsStrictWeakOrder(order, c, b, a);
  }

  /** No later element must come strictly before an earlier one. */
  predicate Ordered(order: SortOrder, s: seq<Product>)
  {
    forall i, j :: 0 <= i < j < |s| ==> !Precedes(order, s[j], s[i])
  }

  /** The elements of `s` that tie with `k`, in their order in `s`. */
  function Ties(order: SortOrder, s: seq<Product>, k: Product): seq<Product>
  {
    if s == [] then []
    else (if SameRank(order, s[0], k) then [s[0]] else []) + Ties(order, s[1..], k)
  }

  /** `r` keeps every group of tied elements of `s` in its original relative order. */
  ghost predicate Stable(order: SortOrder, r: seq<Product>, s: seq<Product>)
  {
    forall k :: Ties(order, r, k) == Ties(order, s, k)
  }

  /** Put `x` before the first element that does not strictly precede it. */
  function Insert(order: SortOrder, x: Product, s: seq<Product>): (r: seq<Product>)
    ensures multiset(r) == multiset(s) + multiset{x}
  {
    if s == [] then [x]
    else if Precedes(order, s[0], x) then
      assert s == [s[0]] + s[1..];
      [s[0]] + Insert(order, x, s[1..])
    else [x] + s
  }

  /** The stable sort of `s` by the comparator of `order`. */
  function Sort(order: SortOrder, s: seq<Product>): (r: seq<Product>)
    ensures multiset(r) == multiset(s)
  {
    if s == [] then []
    else
      assert s == [s[0]] + s[1..];
      Insert(order, s[0], Sort(order, s[1..]))
  }

  /** In an ordered sequence nothing after the first element comes strictly before it. */
  lemma LaterNotBeforeHead(order: SortOrder, s: seq<Product>, y: Product)
    requires Ordered(order, s) && s != [] && y in s[1..]
    ensures !Precedes(order, y, s[0])
  {
    var m :| 0 <= m < |s[1..]| && s[1..][m] == y;
    assert s[m + 1] == y;
  }

  lemma {:induction false} InsertOrdered(order: SortOrder, x: Product, s: seq<Product>)
    requires Ordered(order, s)
    ensures Ordered(order, Insert(order, x, s))
  {
    if s != [] {
      var r := Insert(order, x, s);
      if Precedes(order, s[0], x) {
        var rest := Insert(order, x, s[1..]);
        InsertOrdered(order, x, s[1..]);
        assert r == [s[0]] + rest;
        forall j | 0 < j < |r|
          ensures !Precedes(order, r[j], s[0])
        {
          assert r[j] == rest[j - 1];
          assert r[j] in multiset(rest);
          if r[j] == x {
            PrecedesIsStrictWeakOrder(order, s[0], x, s[0]);
          } else {
            assert r[j] in multiset(s[1..]);
            LaterNotBeforeHead(order, s, r[j]);
          }
        }
      } else {
        forall j | 0 <= j < |s|
          ensures !Precedes(order, s[j], x)
        {
          PrecedesIsStrictWeakOrder(order, s[j], s[0], x);
        }
      }
    }
  }

  /** The result of `Sort` is in comparator order. */
  lemma {:induction false} SortOrdered(order: SortOrder, s: seq<Product>)
    ensures Ordered(order, Sort(order, s))
  {
    if s != [] {
      SortOrdered(order, s[1..]);
      InsertOrdered(order, s[0], Sort(order, s[1..]));
    }
  }

  /** Filtering a sequence that starts with `x`. */
  lemma TiesCons(order: SortOrder, x: Product, s: seq<Product>, k: Product)
    ensures Ties(order, [x] + s, k) == (if SameRank(order, x, k) then [x] else []) + Ties(order, s, k)
  {
    assert ([x] + s)[1..] == s;
  }

  /** A product strictly before `x` does not tie with anything `x` ties with. */
  lemma BeforeIsNotTied(order: SortOrder, y: Product, x: Product, k: Product)
    requires Precedes(order, y, x) && SameRank(order, x, k)
    ensures !SameRank(order, y, k)
  {
    PrecedesIsStrictWeakOrder(order, y, k, x);
  }

  /** The step of `InsertTies` where `x` goes past the first element `y`. */
  lemma InsertTiesPast(order: SortOrder, x: Product, y: Product, rest: seq<Product>, tail: seq<Product>, k: Product)
    requires Precedes(order, y, x)
    requires Ties(order, tail, k) == (if SameRank(order, x, k) then [x] else []) + Ties(order, rest, k)
    ensures Ties(order, [y] + tail, k)
         == (if SameRank(order, x, k) then [x] else []) + Ties(order, [y] + rest, k)
  {
    TiesCons(order, y, tail, k);
    TiesCons(order, y, rest, k);
    if SameRank(order, x, k) {
      BeforeIsNotTied(order, y, x, k);
    }
  }

  /** Inserting `x` adds it at the front of its own tie group and disturbs no other group. */
  lemma {:induction false} InsertTies(order: SortOrder, x: Product, s: seq<Product>, k: Product)
    ensures Ties(order, Insert(order, x, s), k)
         == (if SameRank(order, x, k) then [x] else []) + Ties(order, s, k)
  {
    if s == [] {
      TiesCons(order, x, [], k);
    } else if Precedes(order, s[0], x) {
      InsertTies(order, x, s[1..], k);
      InsertTiesPast(order, x, s[0], s[1..], Insert(order, x, s[1..]), k);
      assert [s[0]] + s[1..] == s;
    } else {
      TiesCons(order, x, s, k);
    }
  }

  /** `Sort` is stable: every tie group keeps its order from the input. */
  lemma {:induction false} SortStable(order: SortOrder, s: seq<Product>)
    ensures Stable(order, Sort(order, s), s)
  {
    if s != [] {
      SortStable(order, s[1..]);
      forall k
        ensures Ties(order, Sort(order, s), k) == Ties(order, s, k)
      {
        InsertTies(order, s[0], Sort(order, s[1..]), k);
        TiesCons(order, s[0], s[1..], k);
        assert [s[0]] + s[1..] == s;
      }
    }
  }

  /** 'featured' (and every unknown key) keeps the input order. */
  lemma {:induction false} SortFeaturedIsIdentity(s: seq<Product>)
    ensures Sort(Featured, s) == s
  {
    if s != [] {
      SortFeaturedIsIdentity(s[1..]);
      assert [s[0]] + s[1..] == s;
    }
  }

  /** The first elements of two ordered arrangements of the same elements tie. */
  lemma HeadsTie(order: SortOrder, a: seq<Product>, b: seq<Product>)
    requires Ordered(order, a) && Ordered(order, b)
    requires multiset(a) == multiset(b) && a != []
    ensures b != [] && SameRank(order, a[0], b[0])
  {
    assert |b| == |multiset(b)| == |multiset(a)| == |a|;
    assert b[0] in multiset(a);
    var i :| 0 <= i < |a| && a[i] == b[0];
    assert a[0] in multiset(b);
    var j :| 0 <= j < |b| && b[j] == a[0];
    PrecedesIsStrictWeakOrder(order, a[0], a[0], a[0]);
  }

  /** Sequences with the same tie groups and tying first elements start with the same element. */
  lemma HeadsEqual(order: SortOrder, a: seq<Product>, b: seq<Product>)
    requires a != [] && b != [] && SameRank(order, a[0], b[0])
    requires Ties(order, a, a[0]) == Ties(order, b, a[0])
    ensures a[0] == b[0]
  {
    PrecedesIsStrictWeakOrder(order, a[0], a[0], a[0]);
    TiesCons(order, a[0], a[1..], a[0]);
    TiesCons(order, b[0], b[1..], a[0]);
    assert a == [a[0]] + a[1..] && b == [b[0]] + b[1..];
    assert Ties(order, a, a[0])[0] == a[0];
    assert Ties(order, b, a[0])[0] == b[0];
  }

  /** Dropping a common first element keeps the tie groups equal. */
  lemma TailTies(order: SortOrder, a: seq<Product>, b: seq<Product>, k: Product)
    requires a != [] && b != [] && a[0] == b[0]
    requires Ties(order, a, k) == Ties(order, b, k)
    ensures Ties(order, a[1..], k) == Ties(order, b[1..], k)
  {
    var head: seq<Product> := if SameRank(order, a[0], k) then [a[0]] else [];
    assert Ties(order, a, k) == head + Ties(order, a[1..], k);
    assert Ties(order, b, k) == head + Ties(order, b[1..], k);
    assert Ties(order, a[1..], k) == (head + Ties(order, a[1..], k))[|head|..];
    assert Ties(order, b[1..], k) == (head + Ties(order, b[1..], k))[|head|..];
  }

  /** Dropping the first element keeps a sequence ordered. */
  lemma OrderedTail(order: SortOrder, a: seq<Product>)
    requires Ordered(order, a) && a != []
    ensures Ordered(order, a[1..])
  {
    forall i, j | 0 <= i < j < |a| - 1
      ensures !Precedes(order, a[1..][j], a[1..][i])
    {
      assert a[1..][j] == a[j + 1] && a[1..][i] == a[i + 1];
    }
  }

  /** Dropping a common first element keeps the multisets equal. */
  lemma MultisetTail(a: seq<Product>, b: seq<Product>)
    requires a != [] && b != [] && a[0] == b[0] && multiset(a) == multiset(b)
    ensures multiset(a[1..]) == multiset(b[1..])
  {
    assert a == [a[0]] + a[1..] && b == [b[0]] + b[1..];
    assert multiset(a[1..]) == multiset(a) - multiset{a[0]};
    assert multiset(b[1..]) == multiset(b) - multiset{b[0]};
  }

  /** Two ordered, stable arrangements of the same elements are the same sequence. */
  lemma {:induction false} OrderedStableUnique(order: SortOrder, a: seq<Product>, b: seq<Product>)
    requires Ordered(order, a) && Ordered(order, b)
    requires multiset(a) == multiset(b)
    requires forall k :: Ties(order, a, k) == Ties(order, b, k)
    ensures a == b
    decreases |a|
  {
    if a == [] {
      assert |b| == |multiset(b)| == 0;
    } else {
      HeadsTie(order, a, b);
      HeadsEqual(order, a, b);
      forall k
        ensures Ties(order, a[1..], k) == Ties(order, b[1..], k)
      {
        TailTies(order, a, b, k);
      }
      MultisetTail(a, b);
      OrderedTail(order, a);
      OrderedTail(order, b);
      OrderedStableUnique(order, a[1..], b[1..]);
      assert a == [a[0]] + a[1..] && b == [b[0]] + b[1..];
    }
  }

  /** Any result a stable sort with this comparator may produce is `Sort`'s result. */
  lemma SortIsTheStableSort(order: SortOrder, s: seq<Product>, r: seq<Product>)
    requires multiset(r) == multiset(s)
    requires Ordered(order, r)
    requires Stable(order, r, s)
    ensures r == Sort(order, s)
  {
    SortOrdered(order, s);
    SortStable(order, s);
    OrderedStableUnique(order, r, Sort(order, s));
  }
}
