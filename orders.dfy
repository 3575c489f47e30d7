/** Orders as the checkout page creates them and the admin console's order
    board shows and moves them along: search, the four status tabs, the
    status buttons each card offers, and the status update after the store
    confirms it. Statuses are the Arabic labels the store holds. */
module Orders {
  import opened Outcomes
  import opened Strings
  import opened Lists
  import opened CartLines

  const Requested: string := "مطلوبة الآن"
  const Shipping: string := "قيد التوصيل"
  const Delivered: string := "تم التوصيل"
  const Cancelled: string := "ملغي"

  /** The four statuses the board has a tab for. */
  predicate Known(status: string)
  {
    status == Requested || status == Shipping || status == Delivered || status == Cancelled
  }

  datatype Customer = Customer(
    name: string,
    email: string,
    phone: string,
    secondPhone: string,
    address: string,
    floor: string,
    city: string,
    notes: string)

  datatype Totals = Totals(subtotal: real, shipping: real, total: real)

  datatype Order = Order(
    id: string,
    customer: Customer,
    items: seq<CartLine>,
    totals: Totals,
    status: string,
    createdAt: string)

  // ---------------------------------------------------------------------------
  // Search and status tabs

  /** The search callback: the lowered query occurs in the lowered id or
      customer name, or the query occurs as typed in the phone number. */
  predicate MatchesOrder(o: Order, query: string)
  {
    || Contains(Lower(o.id), Lower(query))
    || Contains(Lower(o.customer.name), Lower(query))
    || Contains(o.customer.phone, query)
  }

  function OrderTest(query: string): Order -> bool
  {
    o => MatchesOrder(o, query)
  }

  /** `filterOrders`: a copy of the orders, searched only when the query is non-empty. */
  function FilterOrders(orders: seq<Order>, query: string): seq<Order>
  {
    if query != "" then Filter(orders, OrderTest(query)) else orders
  }

  function StatusIs(status: string): Order -> bool
  {
    (o: Order) => o.status == status
  }

  /** `getOrdersByStatus`: the searched orders with exactly this status. */
  function ByStatus(filtered: seq<Order>, status: string): seq<Order>
  {
    Filter(filtered, StatusIs(status))
  }

  /** The search keeps, in their order, exactly the orders it matches; an
      empty query keeps them all. */
  lemma FilterOrdersSpec(orders: seq<Order>, query: string)
    ensures var r := FilterOrders(orders, query);
            && IsSubsequence(r, orders)
            && (forall o :: o in r <==> o in orders && (query == "" || MatchesOrder(o, query)))
            && (query == "" ==> r == orders)
  {
    var r := FilterOrders(orders, query);
    if query != "" {
      FilterIsSubsequence(orders, OrderTest(query));
    } else {
      SubsequenceReflexive(orders);
    }
  }

  lemma {:induction false} SubsequenceReflexive(s: seq<Order>)
    ensures IsSubsequence(s, s)
  {
    if s != [] {
      SubsequenceReflexive(s[1..]);
    }
  }

  /** A tab lists exactly the searched orders of its status, so no order is on two tabs. */
  lemma ByStatusSpec(filtered: seq<Order>, status: string, other: string)
    ensures forall o :: o in ByStatus(filtered, status) <==> o in filtered && o.status == status
    ensures status != other ==> forall o :: !(o in ByStatus(filtered, status) && o in ByStatus(filtered, other))
  {
    var r := ByStatus(filtered, status);
    forall o | o in r
      ensures o in filtered && o.status == status
    {
      var i :| 0 <= i < |r| && r[i] == o;
    }
    forall o | o in filtered && o.status == status
      ensures o in r
    {
      var i :| 0 <= i < |filtered| && filtered[i] == o;
    }
  }

  /** When every order has one of the four statuses, the tab counts add up to the number of searched orders. */
  lemma {:induction false} TabCountsAddUp(filtered: seq<Order>)
    requires forall i :: 0 <= i < |filtered| ==> Known(filtered[i].status)
    ensures |ByStatus(filtered, Requested)| + |ByStatus(filtered, Shipping)|
          + |ByStatus(filtered, Delivered)| + |ByStatus(filtered, Cancelled)| == |filtered|
  {
    if filtered != [] {
      TabCountsAddUp(filtered[1..]);
    }
  }

  // ---------------------------------------------------------------------------
  // The fulfilment lifecycle

  /** The status buttons an order card can show. */
  datatype Action = Dispatch | Cancel | Deliver

  /** Buttons rendered for a status: 'Requested' shows dispatch and cancel,
      'Shipping' shows deliver, every other status shows none. */
  function OfferedActions(status: string): (r: set<Action>)
    ensures status != Requested && status != Shipping ==> r == {}
  {
    if status == Requested then {Dispatch, Cancel}
    else if status == Shipping then {Deliver}
    else {}
  }

  /** The status each button requests. */
  function Target(a: Action): (s: string)
    ensures Known(s) && s != Requested
  {
    match a
    case Dispatch => Shipping
    case Cancel => Cancelled
    case Deliver => Delivered
  }

  /** The lifecycle the buttons allow. */
  predicate CanTransition(from: string, to: string)
  {
    || (from == Requested && to == Shipping)
    || (from == Requested && to == Cancelled)
    || (from == Shipping && to == Delivered)
  }

  /** The buttons offer exactly the transitions of the lifecycle: no more, no fewer. */
  lemma OfferedAreTheTransitions(from: string, to: string)
    ensures (exists a :: a in OfferedActions(from) && Target(a) == to) <==> CanTransition(from, to)
  {
    if CanTransition(from, to) {
      if from == Requested && to == Shipping {
        assert Dispatch in OfferedActions(from);
      } else if from == Requested {
        assert Cancel in OfferedActions(from);
      } else {
        assert Deliver in OfferedActions(from);
      }
    }
  }

  /** Requested, then Shipping, then one of the two final statuses. */
  function Rank(status: string): int
  {
    if status == Requested then 0 else if status == Shipping then 1 else 2
  }

  /** Status after a run of button clicks on one card; a click on a button
      the card does not show does nothing. */
  function AfterClicks(status: string, clicks: seq<Action>): string
    decreases |clicks|
  {
    if clicks == [] then status
    else
      var next := if clicks[0] in OfferedActions(status) then Target(clicks[0]) else status;
      AfterClicks(next, clicks[1..])
  }

  /** Each click moves forward in the lifecycle; Delivered and Cancelled are
      final, and an order out for delivery can no longer be cancelled. */
  lemma {:induction false} ClicksMoveForward(status: string, clicks: seq<Action>)
    requires Known(status)
    ensures var s := AfterClicks(status, clicks);
            && Known(s)
            && Rank(s) >= Rank(status)
            && (status == Delivered || status == Cancelled ==> s == status)
            && (status == Shipping ==> s != Cancelled)
    decreases |clicks|
  {
    if clicks != [] {
      var next := if clicks[0] in OfferedActions(status) then Target(clicks[0]) else status;
      ClicksMoveForward(next, clicks[1..]);
    }
  }

  // ---------------------------------------------------------------------------
  // The update

  function OrderIdIs(id: string): Order -> bool
  {
    (o: Order) => o.id == id
  }

  function WithStatus(status: string): Order -> Order
  {
    (o: Order) => o.(status := status)
  }

  /** The board's list after a confirmed update: every order with that id gets
      the new status (and nothing else: the reason is not copied in). */
  function SetStatus(orders: seq<Order>, id: string, status: string): seq<Order>
  {
    MapWhere(orders, OrderIdIs(id), WithStatus(status))
  }

  /** Only the orders with the target id change, and only in their status. */
  lemma SetStatusSpec(orders: seq<Order>, id: string, status: string)
    ensures var r := SetStatus(orders, id, status);
            && |r| == |orders|
            && (forall i :: 0 <= i < |orders| && orders[i].id != id ==> r[i] == orders[i])
            && (forall i :: 0 <= i < |orders| && orders[i].id == id ==>
                  r[i].status == status && r[i].(status := orders[i].status) == orders[i])
  {
  }

  /** Updating twice to the same status is updating once; an unknown id changes nothing. */
  lemma SetStatusIdempotent(orders: seq<Order>, id: string, status: string)
    ensures SetStatus(SetStatus(orders, id, status), id, status) == SetStatus(orders, id, status)
    ensures (forall i :: 0 <= i < |orders| ==> orders[i].id != id) ==> SetStatus(orders, id, status) == orders
  {
    var once := SetStatus(orders, id, status);
    assert forall i :: 0 <= i < |orders| ==> SetStatus(once, id, status)[i] == once[i];
    if forall i :: 0 <= i < |orders| ==> orders[i].id != id {
      assert forall i :: 0 <= i < |orders| ==> once[i] == orders[i];
    }
  }

  /** The fields sent to the store: the status, and `cancel_reason` only for a non-empty reason. */
  datatype StatusPatch = StatusPatch(status: string, cancelReason: Option<string>)

  function Patch(newStatus: string, reason: Option<string>): (p: StatusPatch)
    ensures p.status == newStatus
    ensures p.cancelReason.Some? <==> reason.Some? && reason.value != ""
    ensures p.cancelReason.Some? ==> p.cancelReason == reason
  {
    if reason.Some? && reason.value != "" then StatusPatch(newStatus, reason) else StatusPatch(newStatus, None)
  }

  /** The order board: the loaded orders, the search box, the searched list
      the tabs draw from, and the reason typed in the cancel dialog. */
  class OrdersBoard {
    var orders: seq<Order>
    var filteredOrders: seq<Order>
    var searchQuery: string
    var cancelReason: string

    /** The searched list is the search of the current orders (the effect has run). */
    predicate Valid()
      reads this
    {
      filteredOrders == FilterOrders(orders, searchQuery)
    }

    /** The board after the fetch, with an empty search. */
    constructor (loaded: seq<Order>)
      ensures orders == loaded && filteredOrders == loaded
      ensures searchQuery == "" && cancelReason == ""
      ensures Valid()
    {
      orders := loaded;
      filteredOrders := loaded;
      searchQuery := "";
      cancelReason := "";
    }

    /** The orders listed on one status tab. */
    function OrdersByStatus(status: string): (r: seq<Order>)
      reads this
      ensures forall i :: 0 <= i < |r| ==> r[i].status == status && r[i] in filteredOrders
    {
      ByStatus(filteredOrders, status)
    }

    method SetSearchQuery(query: string)
      modifies this
      ensures searchQuery == query && orders == old(orders) && cancelReason == old(cancelReason)
      ensures Valid()
    {
      searchQuery := query;
      filteredOrders := FilterOrders(orders, searchQuery);
    }

    /** `updateOrderStatus`: send the patch; when the store confirms, set the
        status of the orders with that id; on an error keep every order. The
        search effect runs again on the new list. */
    method UpdateOrderStatus(orderId: string, newStatus: string, reason: Option<string>, outcome: Ack)
      returns (sent: StatusPatch)
      requires Valid()
      modifies this
      ensures sent == Patch(newStatus, reason)
      ensures outcome.Done? ==> orders == SetStatus(old(orders), orderId, newStatus)
      ensures outcome.Failed? ==> orders == old(orders) && filteredOrders == old(filteredOrders)
      ensures searchQuery == old(searchQuery) && cancelReason == old(cancelReason)
      ensures Valid()
    {
      sent := Patch(newStatus, reason);
      if outcome.Done? {
        orders := SetStatus(orders, orderId, newStatus);
        filteredOrders := FilterOrders(orders, searchQuery);
      }
    }

    method SetCancelReason(reason: string)
      modifies this
      ensures cancelReason == reason
      ensures orders == old(orders) && filteredOrders == old(filteredOrders) && searchQuery == old(searchQuery)
    {
      cancelReason := reason;
    }

    /** The cancel dialog's confirm button: request 'Cancelled' with the typed
        reason, then clear the reason whatever the store answered. */
    method ConfirmCancel(orderId: string, outcome: Ack) returns (sent: StatusPatch)
      requires Valid()
      modifies this
      ensures sent == Patch(Cancelled, Some(old(cancelReason)))
      ensures outcome.Done? ==> orders == SetStatus(old(orders), orderId, Cancelled)
      ensures outcome.Failed? ==> orders == old(orders)
      ensures cancelReason == "" && searchQuery == old(searchQuery)
      ensures Valid()
    {
      sent := UpdateOrderStatus(orderId, Cancelled, Some(cancelReason), outcome);
      cancelReason := "";
    }
  }
}
