/** The cart drawer: it renders the lines it is given, their total, and the
    quantity requests its buttons send back to the page. It holds no state;
    what a request does to the cart is the page's `SetQuantity`/`RemoveLine`. */
module CartDrawer {
  import opened CartLines

  /** The minus button asks for `Math.max(0, item.quantity - 1)`. */
  function MinusRequest(quantity: int): (r: int)
    ensures r >= 0
    ensures quantity >= 1 ==> (r == 0 <==> quantity == 1)
    ensures quantity >= 1 ==> r == quantity - 1
  {
    if quantity - 1 > 0 then quantity - 1 else 0
  }

  /** The plus button asks for `item.quantity + 1`. */
  function PlusRequest(quantity: int): (r: int)
    ensures r > quantity
    ensures r == quantity + 1
  {
    quantity + 1
  }

  /** The title shows `items.length`. */
  function HeaderCount(items: seq<CartLine>): nat
  {
    |items|
  }

  /** The checkout button is disabled for an empty list. */
  predicate CheckoutDisabled(items: seq<CartLine>)
  {
    |items| == 0
  }

  /** The ids of the lines. */
  function Ids(items: seq<CartLine>): (r: set<string>)
    ensures forall id :: id in r <==> HasLine(items, id)
  {
    if items == [] then {}
    else
      var rest := Ids(items[1..]);
      assert forall id :: HasLine(items[1..], id) ==> HasLine(items, id) by {
        forall id | HasLine(items[1..], id)
          ensures HasLine(items, id)
        {
          var i :| 0 <= i < |items[1..]| && items[1..][i].id == id;
          assert items[i + 1].id == id;
        }
      }
      {items[0].id} + rest
  }

  /** In a well-formed cart the header counts products: one line per id. */
  lemma {:induction false} HeaderCountsProducts(items: seq<CartLine>)
    requires DistinctIds(items)
    ensures HeaderCount(items) == |Ids(items)|
  {
    if items != [] {
      var rest := items[1..];
      HeaderCountsProducts(rest);
      assert forall i :: 0 <= i < |rest| ==> rest[i] == items[i + 1];
      assert !HasLine(rest, items[0].id);
    }
  }

  /** Checkout is disabled exactly when the cart holds no units. */
  lemma CheckoutDisabledWhenNoUnits(items: seq<CartLine>)
    requires WellFormed(items)
    ensures CheckoutDisabled(items) <==> ItemCount(items) == 0
  {
    ItemCountBounds(items);
  }

  /** Minus on a line of one unit removes it; on a larger line it takes one unit away.
      Either way the cart stays well formed and the drawer total drops by the unit price. */
  lemma MinusOnLine(items: seq<CartLine>, k: nat)
    requires WellFormed(items) && k < |items|
    ensures var r := SetQuantity(items, items[k].id, MinusRequest(items[k].quantity));
            && WellFormed(r)
            && (items[k].quantity == 1 ==> r == RemoveLine(items, items[k].id) && |r| == |items| - 1)
            && (items[k].quantity > 1 ==> |r| == |items| && r[k].quantity == items[k].quantity - 1)
            && ItemCount(r) == ItemCount(items) - 1
            && Subtotal(r) == Subtotal(items) - items[k].price
  {
    var l := items[k];
    var q := MinusRequest(l.quantity);
    SetQuantityWellFormed(items, l.id, q);
    SetQuantitySums(items, l.id, q, k);
    assert LineAmount(l.(quantity := q)) == LineAmount(l) - l.price;
    if l.quantity == 1 {
      RemoveOneLine(items, k);
    } else {
      SetQuantityPositive(items, l.id, q, k);
    }
  }

  /** Removing the `k`-th line of a cart with distinct ids shortens it by one. */
  lemma {:induction false} RemoveOneLine(items: seq<CartLine>, k: nat)
    requires DistinctIds(items) && k < |items|
    ensures |RemoveLine(items, items[k].id)| == |items| - 1
  {
    var id := items[k].id;
    if k == 0 {
      RemoveHead(items, id);
    } else {
      RemoveOneLine(items[1..], k - 1);
      RemoveOther(items, id);
    }
  }

  /** Plus raises that line by one unit and nothing else; the total grows by its unit price. */
  lemma PlusOnLine(items: seq<CartLine>, k: nat)
    requires WellFormed(items) && k < |items|
    ensures var r := SetQuantity(items, items[k].id, PlusRequest(items[k].quantity));
            && WellFormed(r)
            && |r| == |items|
            && r[k] == items[k].(quantity := items[k].quantity + 1)
            && (forall i :: 0 <= i < |items| && i != k ==> r[i] == items[i])
            && ItemCount(r) == ItemCount(items) + 1
            && Subtotal(r) == Subtotal(items) + items[k].price
  {
    var l := items[k];
    var q := PlusRequest(l.quantity);
    SetQuantityWellFormed(items, l.id, q);
    SetQuantitySums(items, l.id, q, k);
    SetQuantityPositive(items, l.id, q, k);
    assert LineAmount(l.(quantity := q)) == LineAmount(l) + l.price;
  }

  /** The bin button takes the whole line, its units and its amount out of the cart. */
  lemma BinOnLine(items: seq<CartLine>, k: nat)
    requires WellFormed(items) && k < |items|
    ensures var r := RemoveLine(items, items[k].id);
            && WellFormed(r)
            && |r| == |items| - 1
            && ItemCount(r) == ItemCount(items) - items[k].quantity
            && Subtotal(r) == Subtotal(items) - LineAmount(items[k])
  {
    RemoveLineWellFormed(items, items[k].id);
    RemoveOneLine(items, k);
    SumsRemoveOne(items, items[k].id, k);
  }
}
