/**
 * The customer's order history, `app/account/orders/page.tsx`: the sign-in check that
 * either redirects to the login page or queries the signed-in user's orders.
 */
module AccountOrders {
  import opened Wrappers
  import OrderStatus

  datatype Order = Order(
    id: int,
    order_total: real,
    total_amount: real,
    status: string,
    created_at: string,
    customer_name: string)

  datatype PageState = PageState(isAuthChecking: bool, loading: bool, orders: seq<Order>)

  /** Both flags start raised, so the spinner shows until the check has run. */
  const InitialState := PageState(true, true, [])

  /** The spinner shows while the sign-in check or the orders query is pending. */
  predicate ShowsSpinner(s: PageState) {
    s.isAuthChecking || s.loading
  }

  /** How the orders query came back. */
  datatype OrdersFetch = FetchError | Fetched(rows: seq<Order>)

  datatype Effect =
    | ToastError(message: string)
    | Push(path: string)
    | QueryOrders(userId: string)

  datatype Outcome = Outcome(state: PageState, effects: seq<Effect>)

  /**
   * `checkAuthAndFetch`, with the signed-in user's id (if any) and the query's answer as
   * inputs. Without a user: an error toast and a push to /login, no query, and `loading`
   * stays raised. With a user: one query for that user's orders, whose rows are shown, or an
   * error toast with the list left as it was.
   */
  function CheckAuthAndFetch(s: PageState, userId: Option<string>, fetch: OrdersFetch): (r: Outcome)
    ensures !r.state.isAuthChecking
    ensures userId.None? ==>
              && r.effects == [ToastError("Please log in to view your order history."), Push("/login")]
              && r.state.loading == s.loading && r.state.orders == s.orders
    ensures userId.Some? ==>
              && |r.effects| > 0 && r.effects[0] == QueryOrders(userId.value)
              && !r.state.loading
              && r.state.orders == (if fetch.Fetched? then fetch.rows else s.orders)
              && (fetch.FetchError? <==> ToastError("Failed to load your order history.") in r.effects)
  {
    var checked := s.(isAuthChecking := false);
    match userId
    case None =>
      Outcome(checked, [ToastError("Please log in to view your order history."), Push("/login")])
    case Some(uid) =>
      match fetch
      case FetchError =>
        Outcome(checked.(loading := false), [QueryOrders(uid), ToastError("Failed to load your order history.")])
      case Fetched(rows) =>
        Outcome(checked.(loading := false, orders := rows), [QueryOrders(uid)])
  }

  /**
   * A visitor who is not signed in is sent to /login and no orders are queried; the page
   * keeps showing its spinner behind the redirect.
   */
  lemma SignedOutRedirectsWithoutQuery(fetch: OrdersFetch)
    ensures var r := CheckAuthAndFetch(InitialState, None, fetch);
      && Push("/login") in r.effects
      && (forall e :: e in r.effects ==> !e.QueryOrders?)
      && ShowsSpinner(r.state)
  {
  }

  /** A signed-in user's query asks for that user's orders only, and the spinner goes away. */
  lemma SignedInQueriesOwnOrders(uid: string, fetch: OrdersFetch)
    ensures var r := CheckAuthAndFetch(InitialState, Some(uid), fetch);
      && (forall e :: e in r.effects && e.QueryOrders? ==> e.userId == uid)
      && Push("/login") !in r.effects
      && !ShowsSpinner(r.state)
  {
  }

  /** The history's status badges use the shared colour rule. */
  function BadgeClass(o: Order): (cls: string)
    ensures o.status == "Delivered" ==> cls == OrderStatus.Green
    ensures o.status == "Shipped" ==> cls == OrderStatus.Blue
    ensures o.status == "Cancelled" ==> cls == OrderStatus.Red
    ensures o.status == "Processing" ==> cls == OrderStatus.Yellow
  {
    OrderStatus.StatusColor(o.status)
  }
}
