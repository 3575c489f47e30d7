/** Cart lines and the rules the storefront applies to them: add one unit of a
    product, set a line's quantity (zero removes it), remove a line, and the
    two sums shown to the shopper (units and money). Each rule builds a new
    list, as the React state updaters do. */
module CartLines {
  import opened Outcomes
  import opened Products
  import opened Lists

  /** A line snapshots the product's id, title, price and image when it is first added. */
  datatype CartLine = CartLine(id: string, title: string, price: real, image: string, quantity: int)

  function Snapshot(p: Product, quantity: int): (line: CartLine)
    ensures line.id == p.id && line.title == p.title && line.price == p.price && line.image == p.image
    ensures line.quantity == quantity
  {
    CartLine(p.id, p.title, p.price, p.image, quantity)
  }

  /** The test `item.id === id`. */
  function IdIs(id: string): CartLine -> bool
  {
    (l: CartLine) => l.id == id
  }

  /** The test `item.id !== id`. */
  function IdIsNot(id: string): CartLine -> bool
  {
    (l: CartLine) => l.id != id
  }

  /** `{ ...item, quantity: item.quantity + 1 }` */
  function Incremented(l: CartLine): CartLine
  {
    l.(quantity := l.quantity + 1)
  }

  /** `{ ...item, quantity }` */
  function WithQuantity(quantity: int): CartLine -> CartLine
  {
    (l: CartLine) => l.(quantity := quantity)
  }

  predicate HasLine(lines: seq<CartLine>, id: string)
  {
    exists i :: 0 <= i < |lines| && lines[i].id == id
  }

  /** `lines.find(item => item.id === id)`, as the index of the first line found. */
  function FindLine(lines: seq<CartLine>, id: string): (r: Option<nat>)
    ensures r.None? <==> !HasLine(lines, id)
    ensures r.Some? ==> r.value < |lines| && lines[r.value].id == id
    ensures r.Some? ==> forall j :: 0 <= j < r.value ==> lines[j].id != id
  {
    if lines == [] then None
    else if lines[0].id == id then Some(0)
    else
      match FindLine(lines[1..], id)
      case None => None
      case Some(k) => Some(k + 1)
  }

  /** The first line of the product is the one `find` returns. */
  lemma FindLineFirst(lines: seq<CartLine>, id: string, k: nat)
    requires k < |lines| && lines[k].id == id
    requires forall j :: 0 <= j < k ==> lines[j].id != id
    ensures FindLine(lines, id) == Some(k)
  {
    assert HasLine(lines, id);
  }

  predicate DistinctIds(lines: seq<CartLine>)
  {
    forall i, j :: 0 <= i < j < |lines| ==> lines[i].id != lines[j].id
  }

  predicate PositiveQuantities(lines: seq<CartLine>)
  {
    forall i :: 0 <= i < |lines| ==> lines[i].quantity >= 1
  }

  /** The cart invariant: one line per product, no line with a quantity below one. */
  predicate WellFormed(lines: seq<CartLine>)
  {
    DistinctIds(lines) && PositiveQuantities(lines)
  }

  // ---------------------------------------------------------------------------
  // The three updaters of the storefront

  /** `addToCart`: one more unit of a product already in the cart, otherwise a
      new line with quantity 1 at the end. */
  function AddOne(lines: seq<CartLine>, p: Product): seq<CartLine>
  {
    if HasLine(lines, p.id) then MapWhere(lines, IdIs(p.id), Incremented)
    else lines + [Snapshot(p, 1)]
  }

  /** `removeFromCart`: drop every line of that product. */
  function RemoveLine(lines: seq<CartLine>, id: string): seq<CartLine>
  {
    Filter(lines, IdIsNot(id))
  }

  /** `updateCartQuantity`: zero removes the line; any other number replaces its quantity. */
  function SetQuantity(lines: seq<CartLine>, id: string, quantity: int): seq<CartLine>
  {
    if quantity == 0 then RemoveLine(lines, id)
    else MapWhere(lines, IdIs(id), WithQuantity(quantity))
  }

  /** `cartItemsCount`: the sum of the quantities. */
  function ItemCount(lines: seq<CartLine>): int
  {
    if lines == [] then 0 else lines[0].quantity + ItemCount(lines[1..])
  }

  /** The drawer's `total` and the checkout's `totalAmount`: the sum of price times quantity. */
  function Subtotal(lines: seq<CartLine>): real
  {
    if lines == [] then 0.0 else LineAmount(lines[0]) + Subtotal(lines[1..])
  }

  /** `item.price * item.quantity` */
  function LineAmount(l: CartLine): real
  {
    l.price * l.quantity as real
  }

  // ---------------------------------------------------------------------------
  // What each updater does to the lines

  /** Adding a product already in the cart raises that line by one and leaves every other line alone. */
  lemma AddOneExisting(lines: seq<CartLine>, p: Product, k: nat)
    requires DistinctIds(lines) && k < |lines| && lines[k].id == p.id
    ensures var r := AddOne(lines, p);
            && |r| == |lines|
            && r[k] == lines[k].(quantity := lines[k].quantity + 1)
            && forall i :: 0 <= i < |lines| && i != k ==> r[i] == lines[i]
  {
  }

  /** Adding a product not yet in the cart appends one line snapshotting it, with quantity 1. */
  lemma AddOneNew(lines: seq<CartLine>, p: Product)
    requires !HasLine(lines, p.id)
    ensures var r := AddOne(lines, p);
            && |r| == |lines| + 1
            && r[..|lines|] == lines
            && r[|lines|] == CartLine(p.id, p.title, p.price, p.image, 1)
  {
  }

  /** Setting a positive quantity replaces that line's quantity only; the length is unchanged. */
  lemma SetQuantityPositive(lines: seq<CartLine>, id: string, quantity: int, k: nat)
    requires DistinctIds(lines) && quantity != 0 && k < |lines| && lines[k].id == id
    ensures var r := SetQuantity(lines, id, quantity);
            && |r| == |lines|
            && r[k] == lines[k].(quantity := quantity)
            && forall i :: 0 <= i < |lines| && i != k ==> r[i] == lines[i]
  {
  }

  /** Setting quantity zero removes the line: no line of that product is left, the others keep their order. */
  lemma SetQuantityZero(lines: seq<CartLine>, id: string)
    ensures SetQuantity(lines, id, 0) == RemoveLine(lines, id)
    ensures !HasLine(SetQuantity(lines, id, 0), id)
    ensures IsSubsequence(SetQuantity(lines, id, 0), lines)
  {
    FilterIsSubsequence(lines, IdIsNot(id));
  }

  /** An id with no line: setting its quantity changes nothing. */
  lemma {:induction false} SetQuantityUnknown(lines: seq<CartLine>, id: string, quantity: int)
    requires !HasLine(lines, id)
    ensures SetQuantity(lines, id, quantity) == lines
  {
    if quantity == 0 {
      FilterKeepsAll(lines, IdIsNot(id));
    } else {
      var r := MapWhere(lines, IdIs(id), WithQuantity(quantity));
      assert forall i :: 0 <= i < |lines| ==> r[i] == lines[i];
    }
  }

  /** Removing keeps exactly the lines of other products, in order, and removing twice is removing once. */
  lemma RemoveLineSpec(lines: seq<CartLine>, id: string)
    ensures var r := RemoveLine(lines, id);
            && !HasLine(r, id)
            && (forall l :: l in r <==> l in lines && l.id != id)
            && IsSubsequence(r, lines)
            && RemoveLine(r, id) == r
            && (!HasLine(lines, id) ==> r == lines)
  {
    FilterIsSubsequence(lines, IdIsNot(id));
    FilterIdempotent(lines, IdIsNot(id));
    if !HasLine(lines, id) {
      FilterKeepsAll(lines, IdIsNot(id));
    }
  }

  // ---------------------------------------------------------------------------
  // The cart invariant is kept

  lemma AddOneWellFormed(lines: seq<CartLine>, p: Product)
    requires WellFormed(lines)
    ensures WellFormed(AddOne(lines, p))
  {
  }

  lemma RemoveLineWellFormed(lines: seq<CartLine>, id: string)
    requires WellFormed(lines)
    ensures WellFormed(RemoveLine(lines, id))
  {
    var r := RemoveLine(lines, id);
    FilterIsSubsequence(lines, IdIsNot(id));
    SubsequenceKeepsDistinct(r, lines);
  }

  /** A subsequence of a cart with distinct ids has distinct ids. */
  lemma {:induction false} SubsequenceKeepsDistinct(a: seq<CartLine>, b: seq<CartLine>)
    requires IsSubsequence(a, b) && DistinctIds(b)
    ensures DistinctIds(a)
    ensures forall i :: 0 <= i < |a| ==> a[i] in b
    decreases |b|
  {
    if a != [] && b != [] {
      if a[0] == b[0] && IsSubsequence(a[1..], b[1..]) {
        SubsequenceKeepsDistinct(a[1..], b[1..]);
        forall j | 0 < j < |a|
          ensures a[0].id != a[j].id
        {
          assert a[j] == a[1..][j - 1] && a[j] in b[1..];
          var m :| 0 <= m < |b[1..]| && b[1..][m] == a[j];
          assert b[m + 1] == a[j];
        }
      } else {
        SubsequenceKeepsDistinct(a, b[1..]);
      }
    }
  }

  /** A quantity the drawer or the page may send (zero or more) keeps the cart well formed. */
  lemma SetQuantityWellFormed(lines: seq<CartLine>, id: string, quantity: int)
    requires WellFormed(lines) && quantity >= 0
    ensures WellFormed(SetQuantity(lines, id, quantity))
  {
    if quantity == 0 {
      RemoveLineWellFormed(lines, id);
    }
  }

  /** One shopper action on the storefront cart. */
  datatype CartAction = Add(product: Product) | Update(id: string, quantity: int) | Remove(id: string)

  function Apply(lines: seq<CartLine>, action: CartAction): seq<CartLine>
  {
    match action
    case Add(p) => AddOne(lines, p)
    case Update(id, q) => SetQuantity(lines, id, q)
    case Remove(id) => RemoveLine(lines, id)
  }

  function Replay(lines: seq<CartLine>, actions: seq<CartAction>): seq<CartLine>
    decreases |actions|
  {
    if actions == [] then lines else Replay(Apply(lines, actions[0]), actions[1..])
  }

  predicate NoNegativeUpdates(actions: seq<CartAction>)
  {
    forall i :: 0 <= i < |actions| && actions[i].Update? ==> actions[i].quantity >= 0
  }

  /** From the empty cart (or any well-formed one), every run of adds, removes and
      updates to zero or more leaves one line per product and no quantity below one. */
  lemma {:induction false} ReplayWellFormed(lines: seq<CartLine>, actions: seq<CartAction>)
    requires WellFormed(lines) && NoNegativeUpdates(actions)
    ensures WellFormed(Replay(lines, actions))
    decreases |actions|
  {
    if actions != [] {
      var next := Apply(lines, actions[0]);
      match actions[0] {
        case Add(p) => AddOneWellFormed(lines, p);
        case Update(id, q) => SetQuantityWellFormed(lines, id, q);
        case Remove(id) => RemoveLineWellFormed(lines, id);
      }
      ReplayWellFormed(next, actions[1..]);
    }
  }

  // ---------------------------------------------------------------------------
  // The sums follow the updates

  lemma {:induction false} ItemCountAppend(lines: seq<CartLine>, line: CartLine)
    ensures ItemCount(lines + [line]) == ItemCount(lines) + line.quantity
    ensures Subtotal(lines + [line]) == Subtotal(lines) + LineAmount(line)
  {
    if lines != [] {
      assert (lines + [line])[1..] == lines[1..] + [line];
      ItemCountAppend(lines[1..], line);
    }
  }

  /** Changing the one line of product `id` changes the sums by that line's difference. */
  lemma {:induction false} SumsChangeOne(lines: seq<CartLine>, id: string, f: CartLine -> CartLine, k: nat)
    requires DistinctIds(lines) && k < |lines| && lines[k].id == id
    ensures var r := MapWhere(lines, IdIs(id), f);
            && ItemCount(r) == ItemCount(lines) - lines[k].quantity + f(lines[k]).quantity
            && Subtotal(r) == Subtotal(lines) - LineAmount(lines[k]) + LineAmount(f(lines[k]))
  {
    var r := MapWhere(lines, IdIs(id), f);
    assert r[1..] == MapWhere(lines[1..], IdIs(id), f);
    if k == 0 {
      var rest := lines[1..];
      assert forall i :: 0 <= i < |rest| ==> rest[i].id != id;
      assert r[1..] == rest;
    } else {
      SumsChangeOne(lines[1..], id, f, k - 1);
    }
  }

  /** Removing the one line of product `id` takes its units and its amount out of the sums. */
  lemma {:induction false} SumsRemoveOne(lines: seq<CartLine>, id: string, k: nat)
    requires DistinctIds(lines) && k < |lines| && lines[k].id == id
    ensures ItemCount(RemoveLine(lines, id)) == ItemCount(lines) - lines[k].quantity
    ensures Subtotal(RemoveLine(lines, id)) == Subtotal(lines) - LineAmount(lines[k])
  {
    var rest := lines[1..];
    if k == 0 {
      RemoveHead(lines, id);
    } else {
      SumsRemoveOne(rest, id, k - 1);
      RemoveOther(lines, id);
    }
  }

  /** Removing the product of the first line of a cart with distinct ids leaves the rest. */
  lemma RemoveHead(lines: seq<CartLine>, id: string)
    requires DistinctIds(lines) && lines != [] && lines[0].id == id
    ensures RemoveLine(lines, id) == lines[1..]
  {
    var rest := lines[1..];
    assert forall i :: 0 <= i < |rest| ==> IdIsNot(id)(rest[i]);
    FilterKeepsAll(rest, IdIsNot(id));
  }

  /** Removing another product keeps the first line. */
  lemma RemoveOther(lines: seq<CartLine>, id: string)
    requires lines != [] && lines[0].id != id
    ensures RemoveLine(lines, id) == [lines[0]] + RemoveLine(lines[1..], id)
  {
  }

  /** The unit price an `addToCart` of `p` adds: the price snapshotted in the
      existing line, or the product's current price for a new line. */
  function UnitPriceAdded(lines: seq<CartLine>, p: Product): real
  {
    match FindLine(lines, p.id)
    case Some(k) => lines[k].price
    case None => p.price
  }

  /** One more unit costs one more unit price. */
  lemma IncrementedAmount(l: CartLine)
    ensures LineAmount(Incremented(l)) == LineAmount(l) + l.price
  {
  }

  /** A new line of one unit costs the unit price. */
  lemma SingleAmount(p: Product)
    ensures LineAmount(Snapshot(p, 1)) == p.price
  {
  }

  /** `addToCart` adds exactly one unit to the count, and the total grows by one unit price. */
  lemma AddOneSums(lines: seq<CartLine>, p: Product)
    requires DistinctIds(lines)
    ensures ItemCount(AddOne(lines, p)) == ItemCount(lines) + 1
    ensures Subtotal(AddOne(lines, p)) == Subtotal(lines) + UnitPriceAdded(lines, p)
  {
    match FindLine(lines, p.id)
    case Some(k) =>
      SumsChangeOne(lines, p.id, Incremented, k);
      IncrementedAmount(lines[k]);
    case None =>
      ItemCountAppend(lines, Snapshot(p, 1));
      SingleAmount(p);
  }

  /** Setting the quantity of a product in the cart moves the count from its
      old quantity to the new one, and the total from the old line amount to
      the new one (zero when the line is removed). */
  lemma SetQuantitySums(lines: seq<CartLine>, id: string, quantity: int, k: nat)
    requires DistinctIds(lines) && k < |lines| && lines[k].id == id
    ensures ItemCount(SetQuantity(lines, id, quantity)) == ItemCount(lines) - lines[k].quantity + quantity
    ensures Subtotal(SetQuantity(lines, id, quantity))
         == Subtotal(lines) - LineAmount(lines[k]) + LineAmount(lines[k].(quantity := quantity))
  {
    if quantity == 0 {
      SumsRemoveOne(lines, id, k);
      assert LineAmount(lines[k].(quantity := 0)) == 0.0;
    } else {
      SumsChangeOne(lines, id, WithQuantity(quantity), k);
    }
  }

  /** In a well-formed cart the count is at least the number of lines, so it is
      zero exactly when the cart is empty. */
  lemma {:induction false} ItemCountBounds(lines: seq<CartLine>)
    requires PositiveQuantities(lines)
    ensures ItemCount(lines) >= |lines|
    ensures ItemCount(lines) == 0 <==> lines == []
  {
    if lines != [] {
      ItemCountBounds(lines[1..]);
    }
  }
}
