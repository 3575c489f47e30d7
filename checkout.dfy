/** The checkout page: the cart read from local storage, the delivery form,
    and `submitOrder` — check the required fields, then the cart, then build
    the order, send it to the store, and clear the stored cart only once the
    store has accepted it. */
module Checkout {
  import opened Outcomes
  import opened Strings
  import opened Storage
  import opened CartLines
  import opened CartStorage
  import opened Orders

  /** The flat shipping fee. */
  const ShippingFee: real := 50.0

  /** Why a submission is refused before anything is sent. */
  datatype Rejection = MissingFields | EmptyCart

  /** The two checks, in their order: name, phone and address must be
      non-empty (as typed, without trimming; city is marked required on the
      form but not checked), then the cart must have a line. */
  function Validate(customer: Customer, cart: seq<CartLine>): (r: Option<Rejection>)
    ensures r == Some(MissingFields) <==> customer.name == "" || customer.phone == "" || customer.address == ""
    ensures r == Some(EmptyCart) <==>
              customer.name != "" && customer.phone != "" && customer.address != "" && cart == []
    ensures r.None? <==> customer.name != "" && customer.phone != "" && customer.address != "" && cart != []
  {
    if customer.name == "" || customer.phone == "" || customer.address == "" then Some(MissingFields)
    else if cart == [] then Some(EmptyCart)
    else None
  }

  /** The city field plays no part in validation. */
  lemma CityNotChecked(customer: Customer, cart: seq<CartLine>, city: string)
    ensures Validate(customer.(city := city), cart) == Validate(customer, cart)
  {
  }

  /** The order record built from the form and the cart at time `now` (milliseconds). */
  function NewOrder(now: int, customer: Customer, cart: seq<CartLine>, createdAt: string): (o: Order)
    ensures o.customer == customer && o.items == cart
    ensures o.status == Requested && o.createdAt == createdAt
  {
    var subtotal := Subtotal(cart);
    Order("ORDER-" + IntToString(now), customer, cart, Totals(subtotal, ShippingFee, subtotal + ShippingFee),
          Requested, createdAt)
  }

  /** The new order's id is "ORDER-" and the time, its totals are the cart
      total, the fee of 50 and their sum, and the board offers dispatch or
      cancellation for it. */
  lemma NewOrderSpec(now: int, customer: Customer, cart: seq<CartLine>, createdAt: string)
    ensures var o := NewOrder(now, customer, cart, createdAt);
            && |o.id| > 6 && o.id[..6] == "ORDER-"
            && o.totals.subtotal == Subtotal(cart)
            && o.totals.shipping == 50.0
            && o.totals.total == o.totals.subtotal + o.totals.shipping
            && OfferedActions(o.status) == {Dispatch, Cancel}
  {
    var o := NewOrder(now, customer, cart, createdAt);
    assert o.id == "ORDER-" + IntToString(now);
  }

  /** Orders placed at different times get different ids. */
  lemma NewOrderIdsDiffer(now: int, later: int, customer: Customer, cart: seq<CartLine>, c2: Customer, cart2: seq<CartLine>, at: string, at2: string)
    requires now != later
    ensures NewOrder(now, customer, cart, at).id != NewOrder(later, c2, cart2, at2).id
  {
    var a := IntToString(now);
    var b := IntToString(later);
    IntToStringInjective(now, later);
    assert ("ORDER-" + a)[6..] == a;
    assert ("ORDER-" + b)[6..] == b;
  }

  /** What the submit button led to. */
  datatype Submission =
    | Rejected(reason: Rejection)
    | NotPlaced(order: Order)
    | Placed(order: Order)

  class CheckoutPage {
    var cartItems: seq<CartLine>
    var customerInfo: Customer

    /** The page reads the stored cart once, when it opens; a missing key is an empty cart. */
    constructor (storage: LocalStorage)
      requires ReadCart(storage.GetItem(CartKey)).Some?
      ensures cartItems == ReadCart(storage.GetItem(CartKey)).value
      ensures customerInfo == Customer("", "", "", "", "", "", "", "")
    {
      cartItems := ReadCart(storage.GetItem(CartKey)).value;
      customerInfo := Customer("", "", "", "", "", "", "", "");
    }

    /** `totalAmount`: the cart total shown in the summary and sent as the subtotal. */
    function TotalAmount(): (r: real)
      reads this
      ensures (forall i :: 0 <= i < |cartItems| ==> cartItems[i].price >= 0.0 && cartItems[i].quantity >= 0)
              ==> r >= 0.0
    {
      NonNegativeSubtotal(cartItems);
      Subtotal(cartItems)
    }

    method SetCustomerInfo(info: Customer)
      modifies this
      ensures customerInfo == info && cartItems == old(cartItems)
    {
      customerInfo := info;
    }

    /** `submitOrder` with the clock reading `now`, the timestamp `createdAt`
        and the store's answer `insert`. A rejection sends nothing; the stored
        cart is removed only after the store accepts the order. */
    method SubmitOrder(storage: LocalStorage, now: int, createdAt: string, insert: Ack) returns (result: Submission)
      modifies storage
      ensures Validate(customerInfo, cartItems).Some? ==>
                result == Rejected(Validate(customerInfo, cartItems).value) && storage.entries == old(storage.entries)
      ensures Validate(customerInfo, cartItems).None? && insert.Done? ==>
                result == Placed(NewOrder(now, customerInfo, cartItems, createdAt))
                && storage.entries == old(storage.entries) - {CartKey}
      ensures Validate(customerInfo, cartItems).None? && insert.Failed? ==>
                result == NotPlaced(NewOrder(now, customerInfo, cartItems, createdAt))
                && storage.entries == old(storage.entries)
    {
      if customerInfo.name == "" || customerInfo.phone == "" || customerInfo.address == "" {
        return Rejected(MissingFields);
      }
      if |cartItems| == 0 {
        return Rejected(EmptyCart);
      }
      var order := NewOrder(now, customerInfo, cartItems, createdAt);
      if insert.Failed? {
        return NotPlaced(order);
      }
      storage.RemoveItem(CartKey);
      result := Placed(order);
    }
  }

  lemma {:induction false} NonNegativeSubtotal(lines: seq<CartLine>)
    ensures (forall i :: 0 <= i < |lines| ==> lines[i].price >= 0.0 && lines[i].quantity >= 0) ==> Subtotal(lines) >= 0.0
  {
    if lines != [] && forall i :: 0 <= i < |lines| ==> lines[i].price >= 0.0 && lines[i].quantity >= 0 {
      NonNegativeSubtotal(lines[1..]);
      assert LineAmount(lines[0]) >= 0.0;
    }
  }
}
