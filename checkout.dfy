/**
 * The checkout page, `app/checkout/page.tsx`: the shipping form, the order header and
 * detail rows built from the cart, and the order-submission procedure (header insert,
 * detail insert, cart clearing), with the database calls' outcomes taken as inputs.
 */
module Checkout {
  import opened Wrappers
  import Strings
  import Pricing
  import Cart

  datatype ShippingData = ShippingData(
    customer_name: string,
    customer_email: string,
    phone_number: string,
    address_line_1: string,
    address_line_2: string,
    city: string,
    state: string,
    zip_code: string,
    country: string)

  /** The signed-in user as the page reads it: an id, and an e-mail and a full name that may be missing. */
  datatype User = User(id: string, email: Option<string>, full_name: Option<string>)

  /** `x || ""`: a missing or empty value is the empty string. */
  function OrEmpty(x: Option<string>): (r: string)
    ensures x.Some? ==> r == x.value
    ensures x.None? ==> r == ""
  {
    x.GetOr("")
  }

  /** The form's initial state: name and e-mail from the user when known, country "India", the rest empty. */
  function InitialShippingData(user: Option<User>): (d: ShippingData)
    ensures d.customer_name == (if user.Some? then OrEmpty(user.value.full_name) else "")
    ensures d.customer_email == (if user.Some? then OrEmpty(user.value.email) else "")
    ensures d.country == "India"
    ensures d.phone_number == d.address_line_1 == d.address_line_2 == d.city == d.state == d.zip_code == ""
  {
    ShippingData(
      if user.Some? then OrEmpty(user.value.full_name) else "",
      if user.Some? then OrEmpty(user.value.email) else "",
      "", "", "", "", "", "", "India")
  }

  /** The `name` attributes of the form's inputs. */
  datatype ShippingField =
    | CustomerName | CustomerEmail | PhoneNumber | AddressLine1 | AddressLine2
    | City | State | ZipCode | Country

  function FieldValue(d: ShippingData, f: ShippingField): string {
    match f
    case CustomerName => d.customer_name
    case CustomerEmail => d.customer_email
    case PhoneNumber => d.phone_number
    case AddressLine1 => d.address_line_1
    case AddressLine2 => d.address_line_2
    case City => d.city
    case State => d.state
    case ZipCode => d.zip_code
    case Country => d.country
  }

  /** `handleInputChange`: `{ ...shippingData, [name]: value }` changes the named field only. */
  function UpdateShipping(d: ShippingData, f: ShippingField, value: string): (r: ShippingData)
    ensures FieldValue(r, f) == value
    ensures forall g :: g != f ==> FieldValue(r, g) == FieldValue(d, g)
  {
    match f
    case CustomerName => d.(customer_name := value)
    case CustomerEmail => d.(customer_email := value)
    case PhoneNumber => d.(phone_number := value)
    case AddressLine1 => d.(address_line_1 := value)
    case AddressLine2 => d.(address_line_2 := value)
    case City => d.(city := value)
    case State => d.(state := value)
    case ZipCode => d.(zip_code := value)
    case Country => d.(country := value)
  }

  /** The row inserted into `orders`; the shipping fields are spread into it. */
  datatype OrderHeader = OrderHeader(
    user_id: Option<string>,
    order_total: real,
    shipping_cost: real,
    total_amount: real,
    status: string,
    payment_method: string,
    shipping: ShippingData)

  /**
   * `orderHeader`: the cart total, the shipping charge by the free-shipping rule, their sum,
   * status "Processing", payment "Mock Payment" and the form as filled in.
   */
  function OrderHeaderFor(user: Option<User>, cartTotal: real, form: ShippingData): (h: OrderHeader)
    ensures h.order_total == cartTotal
    ensures h.shipping_cost == (if cartTotal > 150.0 then 0.0 else 15.0)
    ensures h.total_amount == h.order_total + h.shipping_cost == Pricing.GrandTotal(cartTotal)
    ensures h.status == "Processing" && h.payment_method == "Mock Payment"
    ensures h.shipping == form
    ensures h.user_id == (if user.Some? then Some(user.value.id) else None)
  {
    var shippingCost := Pricing.ShippingCost(cartTotal);
    var totalAmount := cartTotal + shippingCost;
    OrderHeader(if user.Some? then Some(user.value.id) else None, cartTotal, shippingCost, totalAmount,
                "Processing", "Mock Payment", form)
  }

  /** A row inserted into `order_details`. */
  datatype OrderDetail = OrderDetail(
    order_id: int,
    product_id: int,
    product_name: string,
    unit_price: real,
    quantity: int,
    size: Option<string>)

  /** `orderDetails`: one row per cart line, in cart order, all under the new order's id. */
  function OrderDetails(orderId: int, items: seq<Cart.CartItem>): (rows: seq<OrderDetail>)
    ensures |rows| == |items|
    ensures forall i :: 0 <= i < |items| ==>
              && rows[i].order_id == orderId
              && rows[i].product_id == items[i].id
              && rows[i].product_name == items[i].name
              && rows[i].unit_price == items[i].price
              && rows[i].quantity == items[i].quantity
              && rows[i].size == items[i].size
  {
    if items == [] then []
    else
      var item := items[0];
      [OrderDetail(orderId, item.id, item.name, item.price, item.quantity, item.size)]
        + OrderDetails(orderId, items[1..])
  }

  function DetailQuantities(rows: seq<OrderDetail>): int {
    if rows == [] then 0 else rows[0].quantity + DetailQuantities(rows[1..])
  }

  /** The detail rows order exactly as many units as the cart counts. */
  lemma {:induction false} DetailsKeepCartCount(orderId: int, items: seq<Cart.CartItem>)
    ensures DetailQuantities(OrderDetails(orderId, items)) == Cart.SumQuantities(items)
  {
    if items != [] {
      DetailsKeepCartCount(orderId, items[1..]);
      assert OrderDetails(orderId, items)[1..] == OrderDetails(orderId, items[1..]);
    }
  }

  /** How the `orders` insert came back. */
  datatype HeaderInsert =
    | HeaderError(message: string)
    | NoHeaderRow
    | HeaderInserted(id: int)

  /** How the `order_details` insert came back. */
  datatype DetailsInsert = DetailsError(message: string) | DetailsInserted

  /**
   * How `await clearCart()` came back. The cart context in `context/CartContext.tsx` provides
   * no `clearCart`, so with that context the call throws a `TypeError`.
   */
  datatype ClearOutcome = ClearResolved | ClearThrew(message: string)

  /** What the submission does outside the page: database calls, cart clearing, toasts, navigation. */
  datatype Effect =
    | ToastLoading(message: string)
    | InsertOrder(header: OrderHeader)
    | InsertOrderDetails(rows: seq<OrderDetail>)
    | ClearCart
    | ToastSuccess(message: string)
    | ToastError(message: string)
    | Navigate(path: string)

  /** The message of the error thrown when the header insert fails. */
  function HeaderFailureMessage(header: HeaderInsert): string {
    match header
    case HeaderError(m) => if m != "" then m else "Failed to create order header."
    case _ => "Failed to create order header."
  }

  function DetailsFailureMessage(message: string): string {
    if message != "" then message else "Failed to insert order details."
  }

  /** The catch block's toast: `error.message || "Checkout failed. Please try again."`. */
  function CaughtMessage(message: string): string {
    if message != "" then message else "Checkout failed. Please try again."
  }

  const SuccessPrefix := "/checkout/success?orderId="

  function SuccessPath(orderId: int): string {
    SuccessPrefix + Strings.IntToString(orderId)
  }

  /** The success page can read the order id back from the query string. */
  lemma SuccessPathCarriesOrderId(orderId: nat)
    ensures |SuccessPath(orderId)| > |SuccessPrefix|
    ensures SuccessPath(orderId)[..|SuccessPrefix|] == SuccessPrefix
    ensures Strings.DigitsValue(SuccessPath(orderId)[|SuccessPrefix|..]) == orderId
  {
    var path := SuccessPath(orderId);
    assert path[|SuccessPrefix|..] == Strings.NatToString(orderId);
    Strings.NatToStringValue(orderId);
  }

  /** The effects of `handleOrderSubmission`, in the order it performs them. */
  function SubmissionEffects(user: Option<User>, items: seq<Cart.CartItem>, cartTotal: real,
                             form: ShippingData, header: HeaderInsert, details: DetailsInsert,
                             clear: ClearOutcome): seq<Effect>
  {
    var start := [ToastLoading("Processing Mock Payment..."), InsertOrder(OrderHeaderFor(user, cartTotal, form))];
    match header
    case HeaderInserted(orderId) =>
      var withDetails := start + [InsertOrderDetails(OrderDetails(orderId, items))];
      (match details
       case DetailsError(m) => withDetails + [ToastError(DetailsFailureMessage(m))]
       case DetailsInserted =>
         (match clear
          case ClearResolved =>
            withDetails + [ClearCart, ToastSuccess("Payment Successful! Order Confirmed."), Navigate(SuccessPath(orderId))]
          case ClearThrew(m) =>
            withDetails + [ClearCart, ToastError(CaughtMessage(m))]))
    case _ => start + [ToastError(HeaderFailureMessage(header))]
  }

  /**
   * `clearCart` is called exactly when both inserts succeed, and then only after the header
   * insert and the detail insert, in that order.
   */
  lemma ClearCartOnlyAfterBothInserts(user: Option<User>, items: seq<Cart.CartItem>, cartTotal: real,
                                      form: ShippingData, header: HeaderInsert, details: DetailsInsert,
                                      clear: ClearOutcome)
    ensures var effects := SubmissionEffects(user, items, cartTotal, form, header, details, clear);
      && (ClearCart in effects <==> header.HeaderInserted? && details.DetailsInserted?)
      && (forall j :: 0 <= j < |effects| && effects[j] == ClearCart ==>
            effects[1] == InsertOrder(OrderHeaderFor(user, cartTotal, form)) &&
            effects[2].InsertOrderDetails? && 2 < j)
  {
  }

  /**
   * When the header insert fails or returns no row, nothing else is written and the cart is
   * kept: the submission ends with an error toast.
   */
  lemma HeaderFailureWritesNothingElse(user: Option<User>, items: seq<Cart.CartItem>, cartTotal: real,
                                       form: ShippingData, header: HeaderInsert, details: DetailsInsert,
                                       clear: ClearOutcome)
    requires !header.HeaderInserted?
    ensures var effects := SubmissionEffects(user, items, cartTotal, form, header, details, clear);
      && (forall e :: e in effects ==> !e.InsertOrderDetails? && e != ClearCart && !e.Navigate?)
      && effects[|effects| - 1] == ToastError(HeaderFailureMessage(header))
      && HeaderFailureMessage(header) != ""
  {
  }

  /** Every detail row written carries the id the header insert returned, and covers the whole cart. */
  lemma DetailsUseReturnedId(user: Option<User>, items: seq<Cart.CartItem>, cartTotal: real,
                             form: ShippingData, orderId: int, details: DetailsInsert, clear: ClearOutcome)
    ensures var effects := SubmissionEffects(user, items, cartTotal, form, HeaderInserted(orderId), details, clear);
      forall e :: e in effects && e.InsertOrderDetails? ==>
        |e.rows| == |items| && forall r :: r in e.rows ==> r.order_id == orderId
  {
  }

  /**
   * Only a submission whose three steps all succeed confirms and navigates, and it navigates
   * last, to the new order's success page.
   */
  lemma NavigatesOnlyOnFullSuccess(user: Option<User>, items: seq<Cart.CartItem>, cartTotal: real,
                                   form: ShippingData, header: HeaderInsert, details: DetailsInsert,
                                   clear: ClearOutcome)
    ensures var effects := SubmissionEffects(user, items, cartTotal, form, header, details, clear);
      && ((exists e :: e in effects && e.Navigate?) <==>
            header.HeaderInserted? && details.DetailsInserted? && clear.ClearResolved?)
      && (header.HeaderInserted? && details.DetailsInserted? && clear.ClearResolved? ==>
            effects[|effects| - 1] == Navigate(SuccessPath(header.id)))
  {
    var effects := SubmissionEffects(user, items, cartTotal, form, header, details, clear);
    if header.HeaderInserted? && details.DetailsInserted? && clear.ClearResolved? {
      assert effects[|effects| - 1].Navigate?;
    }
  }

  /**
   * When `clearCart` throws after both inserts, the order and its detail rows have been
   * written, yet the visitor sees an error toast and stays on the checkout page.
   */
  lemma ClearCartThrowAfterWrites(user: Option<User>, items: seq<Cart.CartItem>, cartTotal: real,
                                  form: ShippingData, orderId: int, message: string)
    ensures var effects := SubmissionEffects(user, items, cartTotal, form, HeaderInserted(orderId),
                                             DetailsInserted, ClearThrew(message));
      && InsertOrder(OrderHeaderFor(user, cartTotal, form)) in effects
      && InsertOrderDetails(OrderDetails(orderId, items)) in effects
      && (forall e :: e in effects ==> !e.Navigate? && !e.ToastSuccess?)
      && effects[|effects| - 1] == ToastError(CaughtMessage(message))
      && CaughtMessage(message) != ""
  {
    var effects := SubmissionEffects(user, items, cartTotal, form, HeaderInserted(orderId),
                                     DetailsInserted, ClearThrew(message));
    assert effects[1] == InsertOrder(OrderHeaderFor(user, cartTotal, form));
    assert effects[2] == InsertOrderDetails(OrderDetails(orderId, items));
  }

  /** The checkout page's own state and the effects it has performed. */
  class CheckoutPage {
    var loading: bool
    var effects: seq<Effect>

    constructor ()
      ensures !loading && effects == []
    {
      loading := false;
      effects := [];
    }

    /** The effect hook: an empty cart while not submitting sends the visitor to /cart. */
    function RedirectsToCart(lineCount: nat): bool
      reads this
    {
      lineCount == 0 && !loading
    }

    /**
     * `handleOrderSubmission`: insert the header; on failure stop with an error; insert the
     * details under the returned id; on failure stop with an error; clear the cart, and if that
     * throws stop with an error; confirm and navigate to the success page. `loading` is set for the duration and reset at the end,
     * so once the submission is over an emptied cart meets the redirect hook's condition again.
     */
    method HandleOrderSubmission(user: Option<User>, items: seq<Cart.CartItem>, cartTotal: real,
                                 form: ShippingData, header: HeaderInsert, details: DetailsInsert,
                                 clear: ClearOutcome)
      modifies this
      ensures !loading
      ensures RedirectsToCart(0)
      ensures effects == old(effects) + SubmissionEffects(user, items, cartTotal, form, header, details, clear)
    {
      loading := true;
      var performed := [ToastLoading("Processing Mock Payment...")];
      var orderHeader := OrderHeaderFor(user, cartTotal, form);
      performed := performed + [InsertOrder(orderHeader)];
      if !header.HeaderInserted? {
        performed := performed + [ToastError(HeaderFailureMessage(header))];
      } else {
        var orderId := header.id;
        var orderDetails := OrderDetails(orderId, items);
        performed := performed + [InsertOrderDetails(orderDetails)];
        if details.DetailsError? {
          performed := performed + [ToastError(DetailsFailureMessage(details.message))];
        } else {
          performed := performed + [ClearCart];
          if clear.ClearThrew? {
            performed := performed + [ToastError(CaughtMessage(clear.message))];
          } else {
            performed := performed + [ToastSuccess("Payment Successful! Order Confirmed.")];
            performed := performed + [Navigate(SuccessPath(orderId))];
          }
        }
      }
      effects := effects + performed;
      loading := false;
    }
  }
}
