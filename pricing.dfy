/**
 * The shipping rule shared by the cart page and the checkout page: orders above 150 ship
 * free, every other order pays a flat 15. Money is an exact decimal here.
 */
module Pricing {

  const FreeShippingAbove: real := 150.0
  const FlatShipping: real := 15.0

  /** `cartTotal > 150 ? 0 : 15`. */
  function ShippingCost(cartTotal: real): real {
    if cartTotal > FreeShippingAbove then 0.0 else FlatShipping
  }

  /** `cartTotal + shippingCost`, the amount shown and charged. */
  function GrandTotal(cartTotal: real): real {
    cartTotal + ShippingCost(cartTotal)
  }

  /**
   * Shipping is free exactly above the threshold; a total of exactly 150 still pays the
   * flat rate, and the only other possible charge is 15.
   */
  lemma ShippingRule(cartTotal: real)
    ensures ShippingCost(cartTotal) == 0.0 <==> cartTotal > 150.0
    ensures ShippingCost(cartTotal) == 0.0 || ShippingCost(cartTotal) == 15.0
    ensures ShippingCost(150.0) == 15.0
  {
  }

  /** Spending more never raises the shipping charge. */
  lemma ShippingNeverRisesWithSpend(t1: real, t2: real)
    requires t1 <= t2
    ensures ShippingCost(t2) <= ShippingCost(t1)
  {
  }

  /**
   * The grand total is the cart total plus at most 15, equal to it above the threshold,
   * and at most 165 when shipping is charged.
   */
  lemma GrandTotalBounds(cartTotal: real)
    ensures cartTotal <= GrandTotal(cartTotal) <= cartTotal + 15.0
    ensures cartTotal > 150.0 ==> GrandTotal(cartTotal) == cartTotal
    ensures cartTotal <= 150.0 ==> GrandTotal(cartTotal) == cartTotal + 15.0 <= 165.0
  {
  }
}
