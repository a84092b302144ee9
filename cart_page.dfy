/**
 * The rules of the cart page, `app/cart/page.tsx`: line subtotals, the header label, the
 * decrement control, and the quick-view image carousel.
 */
module CartPage {
  import opened Wrappers
  import JsNumber
  import Cart

  /** `item.price * item.quantity`. */
  function LineSubtotal(item: Cart.CartItem): real {
    item.price * item.quantity as real
  }

  /** A merge by `addToCart` adds one unit price to the line's subtotal. */
  lemma SubtotalAfterMerge(item: Cart.CartItem)
    ensures LineSubtotal(Cart.Bumped(item)) == LineSubtotal(item) + item.price
  {
  }

  /** `cartItems.length === 1 ? 'Item' : 'Items'`. */
  function ItemLabel(lineCount: nat): string {
    if lineCount == 1 then "Item" else "Items"
  }

  /** The singular is used for exactly one line, the plural for none and for many. */
  lemma ItemLabelAgreement(lineCount: nat)
    ensures ItemLabel(lineCount) == "Item" <==> lineCount == 1
    ensures ItemLabel(lineCount) == "Items" <==> lineCount != 1
  {
  }

  /** `disabled={item.quantity <= 1}` on the decrement button. */
  function DecrementDisabled(item: Cart.CartItem): bool {
    item.quantity <= 1
  }

  /** Whenever the decrement button is enabled, one unit less still leaves at least one. */
  lemma DecrementKeepsOne(item: Cart.CartItem)
    ensures !DecrementDisabled(item) <==> item.quantity - 1 >= 1
  {
  }

  /** The product-detail query as the carousel sees it. */
  datatype DetailsFetch =
    | FetchFailed
    | NoRow
    | Row(image_urls: Option<seq<string>>)

  /** `useState<string[]>([item.image_url])`. */
  function InitialImages(item: Cart.CartItem): (images: seq<string>)
    ensures images == [item.image_url]
  {
    [item.image_url]
  }

  /**
   * The image list after the detail fetch: replaced only by a non-empty fetched list, kept
   * as it was on an error, a missing row, a missing or an empty list.
   */
  function ImagesAfterFetch(images: seq<string>, fetch: DetailsFetch): (r: seq<string>)
    ensures |images| > 0 ==> |r| > 0
    ensures r == images || (fetch.Row? && fetch.image_urls == Some(r) && |r| > 0)
    ensures fetch.Row? && fetch.image_urls.Some? && |fetch.image_urls.value| > 0 ==> r == fetch.image_urls.value
  {
    match fetch
    case Row(Some(urls)) => if |urls| > 0 then urls else images
    case _ => images
  }

  /** The carousel always has at least one image: the line's own. */
  lemma ImagesNeverEmpty(item: Cart.CartItem, fetch: DetailsFetch)
    ensures |ImagesAfterFetch(InitialImages(item), fetch)| > 0
  {
  }

  /** `(prev + 1) % productImages.length`, with JavaScript's `%`. */
  function NextImage(prev: int, n: int): (r: int)
    requires n > 0
    ensures 0 <= prev < n ==> 0 <= r < n
    ensures 0 <= prev < n - 1 ==> r == prev + 1
    ensures prev == n - 1 ==> r == 0
  {
    JsNumber.Rem(prev + 1, n)
  }

  /** `(prev - 1 + productImages.length) % productImages.length`, with JavaScript's `%`. */
  function PrevImage(prev: int, n: int): (r: int)
    requires n > 0
    ensures 0 <= prev < n ==> 0 <= r < n
    ensures 0 < prev < n ==> r == prev - 1
    ensures prev == 0 ==> r == n - 1
  {
    JsNumber.Rem(prev - 1 + n, n)
  }

  /** Back undoes forward and forward undoes back. */
  lemma PrevUndoesNext(i: int, n: int)
    requires 0 <= i < n
    ensures PrevImage(NextImage(i, n), n) == i
    ensures NextImage(PrevImage(i, n), n) == i
  {
  }

  /** `k` presses of the forward arrow. */
  function NextTimes(i: int, n: int, k: nat): int
    requires n > 0
  {
    if k == 0 then i else NextImage(NextTimes(i, n, k - 1), n)
  }

  /** Presses compose: `a` presses then `b` presses are `a + b` presses. */
  lemma {:induction false} NextTimesAdd(i: int, n: int, a: nat, b: nat)
    requires n > 0
    ensures NextTimes(i, n, a + b) == NextTimes(NextTimes(i, n, a), n, b)
  {
    if b > 0 {
      NextTimesAdd(i, n, a, b - 1);
    }
  }

  /** Below the end of the ring, each press moves one place forward. */
  lemma {:induction false} NextTimesClimbs(i: int, n: int, k: nat)
    requires 0 <= i && i + k < n
    ensures NextTimes(i, n, k) == i + k
  {
    if k > 0 {
      NextTimesClimbs(i, n, k - 1);
    }
  }

  /** `n` forward presses bring the carousel back to where it was. */
  lemma FullTurnIsIdentity(i: int, n: int)
    requires 0 <= i < n
    ensures NextTimes(i, n, n) == i
  {
    var up := n - 1 - i;
    NextTimesAdd(i, n, up, i + 1);
    NextTimesClimbs(i, n, up);
    NextTimesAdd(n - 1, n, 1, i);
    assert NextTimes(n - 1, n, 1) == 0;
    NextTimesClimbs(0, n, i);
  }
}
