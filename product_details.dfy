/** The product page: a quantity selector clamped to [1, stock] and an
    "add to cart" button that merges the chosen quantity into the cart kept
    in local storage. This cart is independent of the storefront's in-memory
    cart; `MergeOneIsAddOne` shows the two agree when one unit is added. */
module ProductDetails {
  import opened Outcomes
  import opened Products
  import opened Storage
  import opened CartLines
  import opened CartStorage

  /** What the button writes back: the first line of the product gets the
      chosen quantity more, otherwise a line with that quantity is pushed. */
  function Merge(lines: seq<CartLine>, p: Product, quantity: int): seq<CartLine>
  {
    match FindLine(lines, p.id)
    case Some(k) => lines[k := lines[k].(quantity := lines[k].quantity + quantity)]
    case None => lines + [Snapshot(p, quantity)]
  }

  /** The handler's search for the product's line followed by the update or the push. */
  method MergeInto(lines: seq<CartLine>, p: Product, quantity: int) returns (r: seq<CartLine>)
    ensures r == Merge(lines, p, quantity)
  {
    var i := 0;
    while i < |lines| && lines[i].id != p.id
      invariant 0 <= i <= |lines|
      invariant forall j :: 0 <= j < i ==> lines[j].id != p.id
    {
      i := i + 1;
    }
    if i < |lines| {
      FindLineFirst(lines, p.id, i);
      r := lines[i := lines[i].(quantity := lines[i].quantity + quantity)];
    } else {
      assert FindLine(lines, p.id) == None;
      r := lines + [Snapshot(p, quantity)];
    }
  }

  /** A stored line of the product: its quantity grows by the chosen amount and no line is added. */
  lemma MergeExisting(lines: seq<CartLine>, p: Product, quantity: int, k: nat)
    requires DistinctIds(lines) && k < |lines| && lines[k].id == p.id
    ensures var r := Merge(lines, p, quantity);
            && |r| == |lines|
            && r[k] == lines[k].(quantity := lines[k].quantity + quantity)
            && forall i :: 0 <= i < |lines| && i != k ==> r[i] == lines[i]
  {
  }

  /** No stored line of the product: one line with the chosen quantity is appended, the others stay. */
  lemma MergeNew(lines: seq<CartLine>, p: Product, quantity: int)
    requires !HasLine(lines, p.id)
    ensures var r := Merge(lines, p, quantity);
            && |r| == |lines| + 1
            && r[..|lines|] == lines
            && r[|lines|] == CartLine(p.id, p.title, p.price, p.image, quantity)
  {
  }

  /** Ids that were distinct stay distinct; with a positive quantity the whole cart invariant is kept. */
  lemma MergeWellFormed(lines: seq<CartLine>, p: Product, quantity: int)
    requires DistinctIds(lines)
    ensures DistinctIds(Merge(lines, p, quantity))
    ensures PositiveQuantities(lines) && quantity >= 1 ==> WellFormed(Merge(lines, p, quantity))
  {
  }

  /** Adding one unit on this page is what the storefront's `addToCart` does. */
  lemma MergeOneIsAddOne(lines: seq<CartLine>, p: Product)
    requires DistinctIds(lines)
    ensures Merge(lines, p, 1) == AddOne(lines, p)
  {
    var r := AddOne(lines, p);
    match FindLine(lines, p.id)
    case Some(k) =>
      forall i | 0 <= i < |lines|
        ensures Merge(lines, p, 1)[i] == r[i]
      {
      }
    case None =>
  }

  /** Two additions of the same product add up in one line. */
  lemma MergeTwice(lines: seq<CartLine>, p: Product, a: int, b: int)
    requires DistinctIds(lines)
    ensures Merge(Merge(lines, p, a), p, b) == Merge(lines, p, a + b)
  {
    var once := Merge(lines, p, a);
    match FindLine(lines, p.id)
    case Some(k) =>
      FindLineFirst(once, p.id, k);
    case None =>
      FindLineFirst(once, p.id, |lines|);
  }

  lemma {:induction false} ItemCountUpdateAt(lines: seq<CartLine>, k: nat, line: CartLine)
    requires k < |lines|
    ensures ItemCount(lines[k := line]) == ItemCount(lines) - lines[k].quantity + line.quantity
    ensures Subtotal(lines[k := line]) == Subtotal(lines) - LineAmount(lines[k]) + LineAmount(line)
  {
    if k > 0 {
      ItemCountUpdateAt(lines[1..], k - 1, line);
      assert lines[k := line][1..] == lines[1..][k - 1 := line];
    } else {
      assert lines[k := line][1..] == lines[1..];
    }
  }

  /** The stored cart gains exactly the chosen number of units. */
  lemma MergeItemCount(lines: seq<CartLine>, p: Product, quantity: int)
    ensures ItemCount(Merge(lines, p, quantity)) == ItemCount(lines) + quantity
  {
    match FindLine(lines, p.id)
    case Some(k) =>
      ItemCountUpdateAt(lines, k, lines[k].(quantity := lines[k].quantity + quantity));
    case None =>
      ItemCountAppend(lines, Snapshot(p, quantity));
  }

  // ---------------------------------------------------------------------------
  // The quantity selector

  /** The minus button: `Math.max(1, quantity - 1)`. */
  function SelectorMinus(quantity: int): (r: int)
    ensures r >= 1
    ensures quantity > 1 ==> r == quantity - 1
    ensures quantity <= 1 ==> r == 1
  {
    if quantity - 1 > 1 then quantity - 1 else 1
  }

  /** The plus button: `Math.min(product.stock, quantity + 1)`. */
  function SelectorPlus(quantity: int, stock: int): (r: int)
    ensures r <= stock
    ensures quantity < stock ==> r == quantity + 1
    ensures quantity >= stock ==> r == stock
  {
    if stock < quantity + 1 then stock else quantity + 1
  }

  /** A run of clicks on the selector: `true` for plus, `false` for minus. */
  function AfterClicks(quantity: int, stock: int, plus: seq<bool>): int
    decreases |plus|
  {
    if plus == [] then quantity
    else AfterClicks(if plus[0] then SelectorPlus(quantity, stock) else SelectorMinus(quantity), stock, plus[1..])
  }

  /** The selector shows only when something is in stock; starting from 1 (or
      anywhere in range) the quantity stays within [1, stock] whatever is clicked. */
  lemma {:induction false} ClicksStayInRange(quantity: int, stock: int, plus: seq<bool>)
    requires stock > 0 && 1 <= quantity <= stock
    ensures 1 <= AfterClicks(quantity, stock, plus) <= stock
    decreases |plus|
  {
    if plus != [] {
      ClicksStayInRange(if plus[0] then SelectorPlus(quantity, stock) else SelectorMinus(quantity), stock, plus[1..]);
    }
  }

  /** The page's state: the product that was fetched (if any) and the selected quantity. */
  class ProductDetailsPage {
    var product: Option<Product>
    var quantity: int

    /** The page after the fetch, with the selector at 1. */
    constructor (fetched: Option<Product>)
      ensures product == fetched && quantity == 1
    {
      product := fetched;
      quantity := 1;
    }

    /** Quantity within [1, stock], as the selector keeps it. */
    predicate InRange()
      reads this
    {
      product.Some? && 1 <= quantity <= product.value.stock
    }

    method Decrement()
      modifies this
      ensures product == old(product)
      ensures quantity == SelectorMinus(old(quantity))
      ensures old(InRange()) ==> InRange()
    {
      quantity := SelectorMinus(quantity);
    }

    /** The plus button is rendered only for a product in stock. */
    method Increment()
      requires product.Some? && product.value.stock > 0
      modifies this
      ensures product == old(product)
      ensures quantity == SelectorPlus(old(quantity), product.value.stock)
      ensures old(InRange()) ==> InRange()
    {
      quantity := SelectorPlus(quantity, product.value.stock);
    }

    /** `addToCart`: nothing without a product; otherwise read the stored cart
        (a missing key reads as empty), find the product's line, add to it or
        push a new one, and write the array back under the same key. A stored
        value that is not an array of lines makes the handler fail before it
        writes, so storage is left as it was. */
    method AddToCart(storage: LocalStorage) returns (written: bool)
      modifies storage
      ensures product.None? ==> !written
      ensures written <==> product.Some? && ReadCart(old(storage.GetItem(CartKey))).Some?
      ensures written ==> storage.entries == old(storage.entries)[CartKey :=
                EncodeCart(Merge(ReadCart(old(storage.GetItem(CartKey))).value, product.value, quantity))]
      ensures !written ==> storage.entries == old(storage.entries)
    {
      if product.None? {
        return false;
      }
      var p := product.value;
      var stored := ReadCart(storage.GetItem(CartKey));
      if stored.None? {
        return false;
      }
      var cart := MergeInto(stored.value, p, quantity);
      storage.SetItem(CartKey, EncodeCart(cart));
      written := true;
    }
  }
}
