/**
 * Order statuses and their badge colours. The same `statusColor` chain appears in
 * `app/admin/orders/page.tsx` (the status selector) and `app/account/orders/page.tsx`
 * (the order history); it is defined once here.
 */
module OrderStatus {

  /** `ORDER_STATUSES`: the statuses an administrator can select, in menu order. */
  const OrderStatuses: seq<string> := ["Processing", "Shipped", "Delivered", "Cancelled"]

  const Green := "text-green-400 bg-green-900/20 border-green-500/30"
  const Blue := "text-blue-400 bg-blue-900/20 border-blue-500/30"
  const Red := "text-red-400 bg-red-900/20 border-red-500/30"
  const Yellow := "text-yellow-400 bg-yellow-900/20 border-yellow-500/30"

  /** The four badge classes differ from one another. */
  lemma ColoursDistinct()
    ensures Green != Blue && Green != Red && Green != Yellow
    ensures Blue != Red && Blue != Yellow && Red != Yellow
  {
    assert |Green| == 50 && |Blue| == 47 && |Red| == 44 && |Yellow| == 53;
  }

  /**
   * `statusColor`: Delivered is green, Shipped blue, Cancelled red, and every other
   * string, "Processing" and unknown or misspelt statuses alike, yellow.
   */
  function StatusColor(status: string): (cls: string)
    ensures cls == Green <==> status == "Delivered"
    ensures cls == Blue <==> status == "Shipped"
    ensures cls == Red <==> status == "Cancelled"
    ensures cls == Yellow <==> status != "Delivered" && status != "Shipped" && status != "Cancelled"
  {
    ColoursDistinct();
    if status == "Delivered" then Green
    else if status == "Shipped" then Blue
    else if status == "Cancelled" then Red
    else Yellow
  }

  /** The selectable statuses get four different colours, "Processing" the yellow one. */
  lemma SelectableStatusesDistinct(i: int, j: int)
    requires 0 <= i < j < |OrderStatuses|
    ensures StatusColor(OrderStatuses[i]) != StatusColor(OrderStatuses[j])
    ensures StatusColor(OrderStatuses[0]) == Yellow
  {
    var s := OrderStatuses;
    assert s[0] == "Processing" && s[1] == "Shipped" && s[2] == "Delivered" && s[3] == "Cancelled";
    assert s[0] != "Delivered" && s[0] != "Shipped" && s[0] != "Cancelled";
  }

  /** Any status outside the selectable four falls back to the yellow badge. */
  lemma UnknownStatusIsYellow(status: string)
    requires status !in OrderStatuses
    ensures StatusColor(status) == Yellow
  {
    assert OrderStatuses[1] == "Shipped" && OrderStatuses[2] == "Delivered" && OrderStatuses[3] == "Cancelled";
  }
}
