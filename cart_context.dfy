/**
 * The shopping-cart store of `context/CartContext.tsx`: one state cell holding the list of
 * cart lines, the derived `cartCount`, and `addToCart`, which merges a line by product id
 * or appends it.
 */
module Cart {
  import opened Wrappers

  /**
   * A cart line. The declared type has `id, name, price, image_url, quantity`; callers also
   * pass a `size`, which the object spread keeps at run time, so the model carries it as an
   * optional field. It plays no part in merging.
   */
  datatype CartItem = CartItem(
    id: int,
    name: string,
    price: real,
    image_url: string,
    quantity: int,
    size: Option<string>)

  /** `cartItems.reduce((acc, item) => acc + item.quantity, 0)`. */
  function SumQuantities(items: seq<CartItem>): int {
    if items == [] then 0 else items[0].quantity + SumQuantities(items[1..])
  }

  /** The reduce over an extended list adds the new line's quantity. */
  lemma {:induction false} SumQuantitiesAppend(items: seq<CartItem>, x: CartItem)
    ensures SumQuantities(items + [x]) == SumQuantities(items) + x.quantity
  {
    if items != [] {
      assert (items + [x])[1..] == items[1..] + [x];
      SumQuantitiesAppend(items[1..], x);
    }
  }

  predicate HasId(items: seq<CartItem>, id: int) {
    exists i :: 0 <= i < |items| && items[i].id == id
  }

  /** No two lines share a product id. */
  predicate UniqueIds(items: seq<CartItem>) {
    forall i, j :: 0 <= i < j < |items| ==> items[i].id != items[j].id
  }

  /** How many lines carry the product id. */
  function Occurrences(items: seq<CartItem>, id: int): nat {
    if items == [] then 0 else (if items[0].id == id then 1 else 0) + Occurrences(items[1..], id)
  }

  /** `items.find(item => item.id === id)`: the first line with that id, if any. */
  function FindById(items: seq<CartItem>, id: int): (r: Option<CartItem>)
    ensures r.None? <==> !HasId(items, id)
    ensures r.Some? ==> exists i :: 0 <= i < |items| && items[i] == r.value && r.value.id == id &&
                                    forall j :: 0 <= j < i ==> items[j].id != id
  {
    if items == [] then None
    else if items[0].id == id then Some(items[0])
    else
      var r := FindById(items[1..], id);
      assert HasId(items, id) ==> HasId(items[1..], id) by {
        if HasId(items, id) {
          var k :| 0 <= k < |items| && items[k].id == id;
          assert items[1..][k - 1].id == id;
        }
      }
      if r.Some? then
        var k :| 0 <= k < |items[1..]| && items[1..][k] == r.value && r.value.id == id &&
                 forall j :: 0 <= j < k ==> items[1..][j].id != id;
        assert items[k + 1] == r.value;
        r
      else r
  }

  /** `{ ...item, quantity: item.quantity + 1 }` */
  function Bumped(item: CartItem): CartItem {
    item.(quantity := item.quantity + 1)
  }

  /**
   * `items.map(item => item.id === id ? { ...item, quantity: item.quantity + 1 } : item)`:
   * every line with the id gains one unit; every other line is the same value as before.
   */
  function BumpMatching(items: seq<CartItem>, id: int): (r: seq<CartItem>)
    ensures |r| == |items|
    ensures forall i :: 0 <= i < |items| ==>
              r[i] == if items[i].id == id then Bumped(items[i]) else items[i]
  {
    if items == [] then []
    else [if items[0].id == id then Bumped(items[0]) else items[0]] + BumpMatching(items[1..], id)
  }

  /** The state updater passed to `setCartItems` by `addToCart`. */
  function AddToCartUpdate(prevItems: seq<CartItem>, newItem: CartItem): seq<CartItem> {
    if FindById(prevItems, newItem.id).Some? then BumpMatching(prevItems, newItem.id)
    else prevItems + [newItem]
  }

  /** A new product id is appended as the last line; the earlier lines stay as they were, in order. */
  lemma AddNewIdAppends(prevItems: seq<CartItem>, newItem: CartItem)
    requires !HasId(prevItems, newItem.id)
    ensures |AddToCartUpdate(prevItems, newItem)| == |prevItems| + 1
    ensures AddToCartUpdate(prevItems, newItem)[|prevItems|] == newItem
    ensures AddToCartUpdate(prevItems, newItem)[..|prevItems|] == prevItems
  {
    assert (prevItems + [newItem])[..|prevItems|] == prevItems;
  }

  /**
   * A known product id keeps the length; the matching line gains exactly one unit (the
   * incoming quantity is ignored) and keeps its own name, price, image and size; every
   * other line is untouched.
   */
  lemma AddKnownIdMerges(prevItems: seq<CartItem>, newItem: CartItem)
    requires HasId(prevItems, newItem.id)
    ensures |AddToCartUpdate(prevItems, newItem)| == |prevItems|
    ensures forall i :: 0 <= i < |prevItems| && prevItems[i].id == newItem.id ==>
              AddToCartUpdate(prevItems, newItem)[i] ==
              CartItem(prevItems[i].id, prevItems[i].name, prevItems[i].price, prevItems[i].image_url,
                       prevItems[i].quantity + 1, prevItems[i].size)
    ensures forall i :: 0 <= i < |prevItems| && prevItems[i].id != newItem.id ==>
              AddToCartUpdate(prevItems, newItem)[i] == prevItems[i]
  {
  }

  /** Lines of other products are never changed, whichever branch is taken. */
  lemma AddLeavesOtherLines(prevItems: seq<CartItem>, newItem: CartItem, i: int)
    requires 0 <= i < |prevItems| && prevItems[i].id != newItem.id
    ensures i < |AddToCartUpdate(prevItems, newItem)|
    ensures AddToCartUpdate(prevItems, newItem)[i] == prevItems[i]
  {
  }

  /** Merging never introduces a duplicate product id. */
  lemma AddPreservesUniqueIds(prevItems: seq<CartItem>, newItem: CartItem)
    requires UniqueIds(prevItems)
    ensures UniqueIds(AddToCartUpdate(prevItems, newItem))
  {
    var r := AddToCartUpdate(prevItems, newItem);
    if !HasId(prevItems, newItem.id) {
      forall i, j | 0 <= i < j < |r|
        ensures r[i].id != r[j].id
      {
        if j == |prevItems| {
          assert r[i] == prevItems[i];
        } else {
          assert r[i] == prevItems[i] && r[j] == prevItems[j];
        }
      }
    }
  }

  /** Bumping every line with an id raises the total by the number of such lines. */
  lemma {:induction false} SumQuantitiesBump(items: seq<CartItem>, id: int)
    ensures SumQuantities(BumpMatching(items, id)) == SumQuantities(items) + Occurrences(items, id)
  {
    if items != [] {
      SumQuantitiesBump(items[1..], id);
      var r := BumpMatching(items, id);
      assert r[1..] == BumpMatching(items[1..], id);
    }
  }

  /** With unique ids, a present id occurs on exactly one line. */
  lemma {:induction false} UniqueIdOccursOnce(items: seq<CartItem>, id: int)
    requires UniqueIds(items)
    ensures Occurrences(items, id) == if HasId(items, id) then 1 else 0
  {
    if items != [] {
      assert UniqueIds(items[1..]) by {
        forall i, j | 0 <= i < j < |items[1..]|
          ensures items[1..][i].id != items[1..][j].id
        {
          assert items[1..][i] == items[i + 1] && items[1..][j] == items[j + 1];
        }
      }
      UniqueIdOccursOnce(items[1..], id);
      if items[0].id == id {
        assert !HasId(items[1..], id);
      } else {
        assert HasId(items, id) <==> HasId(items[1..], id) by {
          if HasId(items, id) {
            var k :| 0 <= k < |items| && items[k].id == id;
            assert items[1..][k - 1].id == id;
          }
          if HasId(items[1..], id) {
            var k :| 0 <= k < |items[1..]| && items[1..][k].id == id;
            assert items[k + 1].id == id;
          }
        }
      }
    }
  }

  /**
   * How `cartCount` moves: by the incoming quantity on an append, and by one per matching
   * line on a merge, which is exactly one when ids are unique.
   */
  lemma CartCountAfterAdd(prevItems: seq<CartItem>, newItem: CartItem)
    ensures !HasId(prevItems, newItem.id) ==>
              SumQuantities(AddToCartUpdate(prevItems, newItem)) == SumQuantities(prevItems) + newItem.quantity
    ensures HasId(prevItems, newItem.id) ==>
              SumQuantities(AddToCartUpdate(prevItems, newItem)) ==
              SumQuantities(prevItems) + Occurrences(prevItems, newItem.id)
    ensures UniqueIds(prevItems) && HasId(prevItems, newItem.id) ==>
              SumQuantities(AddToCartUpdate(prevItems, newItem)) == SumQuantities(prevItems) + 1
  {
    if HasId(prevItems, newItem.id) {
      SumQuantitiesBump(prevItems, newItem.id);
      if UniqueIds(prevItems) {
        UniqueIdOccursOnce(prevItems, newItem.id);
      }
    } else {
      SumQuantitiesAppend(prevItems, newItem);
    }
  }

  /** A run of `addToCart` calls, oldest first. */
  function AddAll(items: seq<CartItem>, added: seq<CartItem>): seq<CartItem>
    decreases |added|
  {
    if added == [] then items else AddAll(AddToCartUpdate(items, added[0]), added[1..])
  }

  /**
   * Adding the same product id `k` times to a cart without it leaves one line for it: the
   * first incoming line, with its quantity raised by `k - 1`, whatever quantities the later
   * calls carried.
   */
  lemma {:induction false} RepeatedAddsMerge(items: seq<CartItem>, added: seq<CartItem>)
    requires |added| > 0 && !HasId(items, added[0].id)
    requires forall i :: 0 <= i < |added| ==> added[i].id == added[0].id
    ensures AddAll(items, added) ==
            items + [added[0].(quantity := added[0].quantity + |added| - 1)]
  {
    var first := added[0];
    var once := AddToCartUpdate(items, first);
    assert once == items + [first];
    RepeatedMergesFrom(items, first, added[1..]);
  }

  /** A repeat add of the last line's product bumps that line and nothing else. */
  lemma MergeIntoLast(items: seq<CartItem>, line: CartItem, x: CartItem)
    requires !HasId(items, line.id) && x.id == line.id
    ensures AddToCartUpdate(items + [line], x) == items + [Bumped(line)]
  {
    var cart := items + [line];
    assert cart[|items|].id == x.id;
    var next := AddToCartUpdate(cart, x);
    assert |next| == |items| + 1;
    forall i | 0 <= i < |next|
      ensures next[i] == (items + [Bumped(line)])[i]
    {
      if i < |items| {
        assert cart[i] == items[i];
      }
    }
  }

  lemma AddAllStep(items: seq<CartItem>, added: seq<CartItem>)
    requires added != []
    ensures AddAll(items, added) == AddAll(AddToCartUpdate(items, added[0]), added[1..])
  {
  }

  lemma {:induction false} RepeatedMergesFrom(items: seq<CartItem>, line: CartItem, rest: seq<CartItem>)
    requires !HasId(items, line.id)
    requires forall i :: 0 <= i < |rest| ==> rest[i].id == line.id
    ensures AddAll(items + [line], rest) == items + [line.(quantity := line.quantity + |rest|)]
    decreases |rest|
  {
    if rest == [] {
      assert line.(quantity := line.quantity + 0) == line;
    } else {
      var bumped := Bumped(line);
      var tail := rest[1..];
      assert AddAll(items + [line], rest) == AddAll(items + [bumped], tail) by {
        MergeIntoLast(items, line, rest[0]);
        AddAllStep(items + [line], rest);
      }
      assert forall i :: 0 <= i < |tail| ==> tail[i].id == bumped.id by {
        assert forall i :: 0 <= i < |tail| ==> tail[i] == rest[i + 1];
      }
      RepeatedMergesFrom(items, bumped, tail);
      assert bumped.(quantity := bumped.quantity + |tail|) == line.(quantity := line.quantity + |rest|);
    }
  }

  /** The cart provider: the `cartItems` state cell and the operations over it. */
  class CartProvider {
    var cartItems: seq<CartItem>

    /** `useState<CartItem[]>([])`: every session starts with an empty cart. */
    constructor ()
      ensures cartItems == []
      ensures CartCount() == 0
    {
      cartItems := [];
    }

    /** `cartCount`, recomputed from the lines on every render. */
    function CartCount(): int
      reads this
    {
      SumQuantities(cartItems)
    }

    /** `addToCart(newItem)`: merge by id or append, through the state updater. */
    method AddToCart(newItem: CartItem)
      modifies this
      ensures cartItems == AddToCartUpdate(old(cartItems), newItem)
      ensures HasId(old(cartItems), newItem.id) ==> |cartItems| == |old(cartItems)|
      ensures !HasId(old(cartItems), newItem.id) ==> cartItems == old(cartItems) + [newItem]
      ensures UniqueIds(old(cartItems)) ==> UniqueIds(cartItems)
      ensures !HasId(old(cartItems), newItem.id) ==> CartCount() == old(CartCount()) + newItem.quantity
      ensures UniqueIds(old(cartItems)) && HasId(old(cartItems), newItem.id) ==>
                CartCount() == old(CartCount()) + 1
    {
      ghost var before := cartItems;
      if UniqueIds(before) {
        AddPreservesUniqueIds(before, newItem);
      }
      CartCountAfterAdd(before, newItem);
      cartItems := AddToCartUpdate(cartItems, newItem);
    }
  }
}
