/**
 * The administrator's order list, `app/admin/orders/page.tsx`: the optimistic status update
 * and the search box over customer names and order numbers.
 */
module AdminOrders {
  import Strings
  import Seqs
  import OrderStatus

  datatype Order = Order(
    id: int,
    customer_name: string,
    order_total: real,
    total_amount: real,
    status: string,
    created_at: string,
    phone_number: string)

  /**
   * `prev.map(order => order.id === orderId ? { ...order, status: newStatus } : order)`:
   * the orders with the given id take the new status; nothing else changes.
   */
  function SetStatus(orders: seq<Order>, orderId: int, newStatus: string): (r: seq<Order>)
    ensures |r| == |orders|
    ensures forall i :: 0 <= i < |orders| ==>
              && r[i].status == (if orders[i].id == orderId then newStatus else orders[i].status)
              && r[i].(status := orders[i].status) == orders[i]
  {
    if orders == [] then []
    else
      var head := if orders[0].id == orderId then orders[0].(status := newStatus) else orders[0];
      [head] + SetStatus(orders[1..], orderId, newStatus)
  }

  /** Repeating an update changes nothing more. */
  lemma SetStatusIdempotent(orders: seq<Order>, orderId: int, newStatus: string)
    ensures SetStatus(SetStatus(orders, orderId, newStatus), orderId, newStatus)
         == SetStatus(orders, orderId, newStatus)
  {
    var once := SetStatus(orders, orderId, newStatus);
    var twice := SetStatus(once, orderId, newStatus);
    assert forall i :: 0 <= i < |once| ==> twice[i] == once[i];
  }

  /** After an update every order with that id shows the new status and a new status only there. */
  lemma SetStatusEffect(orders: seq<Order>, orderId: int, newStatus: string)
    ensures forall o :: o in SetStatus(orders, orderId, newStatus) && o.id == orderId ==> o.status == newStatus
    ensures forall i :: 0 <= i < |orders| && orders[i].id != orderId ==>
              SetStatus(orders, orderId, newStatus)[i] == orders[i]
  {
    var r := SetStatus(orders, orderId, newStatus);
    forall o | o in r && o.id == orderId
      ensures o.status == newStatus
    {
      var i :| 0 <= i < |r| && r[i] == o;
      assert r[i].(status := orders[i].status) == orders[i];
    }
  }

  datatype Toast = ToastSuccess(message: string) | ToastError(message: string)

  datatype StatusUpdate = StatusUpdate(orders: seq<Order>, toast: Toast)

  /**
   * `handleStatusUpdate` once the database update has answered: on an error the list is left
   * as it was and an error toast is shown; otherwise the list is updated and the success toast
   * names the order and the status.
   */
  function HandleStatusUpdate(orders: seq<Order>, orderId: int, newStatus: string, updateFailed: bool)
    : (r: StatusUpdate)
    ensures updateFailed ==> r.orders == orders && r.toast == ToastError("Failed to update status.")
    ensures !updateFailed ==>
              && r.orders == SetStatus(orders, orderId, newStatus)
              && r.toast == ToastSuccess("Order #" + Strings.IntToString(orderId) + " updated to " + newStatus)
  {
    if updateFailed then StatusUpdate(orders, ToastError("Failed to update status."))
    else StatusUpdate(SetStatus(orders, orderId, newStatus),
                      ToastSuccess("Order #" + Strings.IntToString(orderId) + " updated to " + newStatus))
  }

  /** Choosing a status from the menu and choosing it again leaves the list as after the first choice. */
  lemma StatusUpdateTwice(orders: seq<Order>, orderId: int, k: int)
    requires 0 <= k < |OrderStatus.OrderStatuses|
    ensures var s := OrderStatus.OrderStatuses[k];
      HandleStatusUpdate(HandleStatusUpdate(orders, orderId, s, false).orders, orderId, s, false).orders
        == HandleStatusUpdate(orders, orderId, s, false).orders
  {
    SetStatusIdempotent(orders, orderId, OrderStatus.OrderStatuses[k]);
  }

  /** The search predicate: the name matches ignoring case, or the order number includes the term as typed. */
  predicate MatchesSearch(o: Order, term: string) {
    Strings.Contains(Strings.ToLower(o.customer_name), Strings.ToLower(term))
      || Strings.Contains(Strings.IntToString(o.id), term)
  }

  function SearchFor(term: string): Order -> bool {
    (o: Order) => MatchesSearch(o, term)
  }

  /** Every name includes the empty string, so a blank search hides nothing. */
  lemma EmptySearchKeepsAll(orders: seq<Order>, term: string)
    ensures term == "" ==> Seqs.Filter(orders, SearchFor(term)) == orders
  {
    if term == "" {
      forall i | 0 <= i < |orders|
        ensures SearchFor(term)(orders[i])
      {
        Strings.ContainsEmpty(Strings.ToLower(orders[i].customer_name));
      }
      Seqs.FilterKeepsAll(orders, SearchFor(term));
    }
  }

  /** `filteredOrders`: the matching orders, in the fetched order. */
  function FilteredOrders(orders: seq<Order>, term: string): (r: seq<Order>)
    ensures forall o :: o in r <==> o in orders && MatchesSearch(o, term)
    ensures forall o :: multiset(r)[o] == if MatchesSearch(o, term) then multiset(orders)[o] else 0
    ensures Seqs.IsSubsequence(r, orders)
    ensures term == "" ==> r == orders
  {
    Seqs.FilterMembers(orders, SearchFor(term));
    Seqs.FilterCounts(orders, SearchFor(term));
    Seqs.FilterIsSubsequence(orders, SearchFor(term));
    EmptySearchKeepsAll(orders, term);
    Seqs.Filter(orders, SearchFor(term))
  }

  /** Typing an order's number finds that order. */
  lemma SearchByNumberFindsOrder(orders: seq<Order>, o: Order)
    requires o in orders
    ensures o in FilteredOrders(orders, Strings.IntToString(o.id))
  {
    Strings.ContainsSelf(Strings.IntToString(o.id));
  }
}
