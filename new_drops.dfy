/**
 * The rules of the "new drops" page, `app/shop/new-drops/page.tsx`: the size family a
 * product is sold in, the quick-add and size-picker decisions, the category filter and the
 * grouping of products by subcategory.
 */
module NewDrops {
  import opened Wrappers
  import opened Strings
  import Seqs
  import Cart
  import Home

  datatype Product = Product(
    id: int,
    name: string,
    price: real,
    image_url: string,
    image_urls: Option<seq<string>>,
    category: string,
    subcategory: Option<string>,
    created_at: string)

  /** `SIZE_CONFIG`: the sizes offered by each size family, in display order. */
  const SizeConfig: map<string, seq<string>> := map[
    "apparel" := ["XS", "S", "M", "L", "XL", "XXL"],
    "footwear" := ["US 6", "US 7", "US 8", "US 9", "US 10", "US 11"],
    "gloves" := ["Size 7", "Size 8", "Size 9", "Size 10", "Size 11"],
    "balls" := ["Size 4", "Size 5"],
    "equipment" := ["One Size"]
  ]

  /** `subcategory?.toLowerCase() || ""`. */
  function LowerSub(subcategory: Option<string>): string {
    match subcategory
    case None => ""
    case Some(s) => ToLower(s)
  }

  /**
   * `determineSizeType`: an ordered, case-insensitive chain of tests from the category and
   * subcategory to a size family; the result is always a family of `SIZE_CONFIG`.
   */
  function DetermineSizeType(category: string, subcategory: Option<string>): (family: string)
    ensures family in SizeConfig && |SizeConfig[family]| > 0
  {
    var cat := ToLower(category);
    var sub := LowerSub(subcategory);
    if cat == "boots" then "footwear"
    else if cat == "goalkeeper" then "gloves"
    else if cat == "footballs" then "balls"
    else if Contains(sub, "sock") then "footwear"
    else if Contains(sub, "shin") || Contains(sub, "guard") then "apparel"
    else if cat == "training gear" then "equipment"
    else if cat == "accessories" then "equipment"
    else if Contains(cat, "boot") || Contains(cat, "shoe") then "footwear"
    else if Contains(cat, "glove") then "gloves"
    else if Contains(cat, "ball") then "balls"
    else "apparel"
  }

  /**
   * The order of the chain decides conflicts: an exact category wins over any subcategory
   * test; a sock or shin-guard subcategory wins over the equipment categories and over the
   * substring tests on the category; those substring tests are tried boot/shoe, then glove,
   * then ball.
   */
  lemma SizeTypePrecedence(category: string, subcategory: Option<string>)
    ensures var cat, sub, r := ToLower(category), LowerSub(subcategory), DetermineSizeType(category, subcategory);
      && (cat == "boots" ==> r == "footwear")
      && (cat == "goalkeeper" ==> r == "gloves")
      && (cat == "footballs" ==> r == "balls")
      && (cat != "boots" && cat != "goalkeeper" && cat != "footballs" && Contains(sub, "sock") ==> r == "footwear")
      && ((cat != "boots" && cat != "goalkeeper" && cat != "footballs" && !Contains(sub, "sock") &&
           (Contains(sub, "shin") || Contains(sub, "guard"))) ==> r == "apparel")
      && (((cat == "training gear" || cat == "accessories") && !Contains(sub, "sock") &&
           !Contains(sub, "shin") && !Contains(sub, "guard")) ==> r == "equipment")
      && (r == "equipment" ==> cat == "training gear" || cat == "accessories")
      && ((cat !in {"boots", "goalkeeper", "footballs", "training gear", "accessories"} &&
           !Contains(sub, "sock") && !Contains(sub, "shin") && !Contains(sub, "guard")) ==>
            && ((Contains(cat, "boot") || Contains(cat, "shoe")) ==> r == "footwear")
            && ((!Contains(cat, "boot") && !Contains(cat, "shoe") && Contains(cat, "glove")) ==> r == "gloves")
            && ((!Contains(cat, "boot") && !Contains(cat, "shoe") && !Contains(cat, "glove") &&
                 Contains(cat, "ball")) ==> r == "balls"))
  {
  }

  /** A product matching no keyword at all is sized as apparel. */
  lemma UnmatchedIsApparel(category: string, subcategory: Option<string>)
    requires var cat, sub := ToLower(category), LowerSub(subcategory);
      && cat !in {"boots", "goalkeeper", "footballs", "training gear", "accessories"}
      && !Contains(sub, "sock") && !Contains(sub, "shin") && !Contains(sub, "guard")
      && !Contains(cat, "boot") && !Contains(cat, "shoe") && !Contains(cat, "glove") && !Contains(cat, "ball")
    ensures DetermineSizeType(category, subcategory) == "apparel"
  {
  }

  /** The three exact category names decide the family on their own. */
  lemma ExactCategoryFamily(category: string, subcategory: Option<string>)
    ensures ToLower(category) == "boots" ==> DetermineSizeType(category, subcategory) == "footwear"
    ensures ToLower(category) == "goalkeeper" ==> DetermineSizeType(category, subcategory) == "gloves"
    ensures ToLower(category) == "footballs" ==> DetermineSizeType(category, subcategory) == "balls"
  {
  }

  /** The picker offers a family of sizes, none of them empty. */
  lemma SizesAreNonEmpty(family: string, i: int)
    requires family in SizeConfig && 0 <= i < |SizeConfig[family]|
    ensures SizeConfig[family][i] != ""
  {
  }

  /** Equipment is the one family with a single size, "One Size". */
  lemma EquipmentIsOnlySingleSize(family: string)
    requires family in SizeConfig
    ensures |SizeConfig[family]| == 1 <==> family == "equipment"
    ensures SizeConfig["equipment"] == ["One Size"]
  {
  }

  /** The cart line the page adds for a product in a size: always one unit. */
  function CartLineFor(p: Product, size: string): Cart.CartItem {
    Cart.CartItem(p.id, p.name, p.price, p.image_url, 1, Some(size))
  }

  /** The size picker's state: `showSizeModal`, `selectedProduct`, `selectedSize`. */
  datatype SizeModal = SizeModal(showSizeModal: bool, selectedProduct: Option<Product>, selectedSize: string)

  const ClosedModal: SizeModal := SizeModal(false, None, "")

  /** What one handler does: the picker afterwards, and the line passed to `addToCart`, if any. */
  datatype PageStep = PageStep(modal: SizeModal, added: Option<Cart.CartItem>)

  /**
   * `handleQuickAdd`: a product of the single-size family is added at once in that size;
   * any other product opens the picker on it with no size chosen.
   */
  function QuickAdd(modal: SizeModal, p: Product): (r: PageStep)
    ensures var sizes := SizeConfig[DetermineSizeType(p.category, p.subcategory)];
      && (r.added.Some? <==> |sizes| == 1)
      && (r.added.Some? ==> r.modal == modal && r.added.value == CartLineFor(p, sizes[0]))
      && (r.added.None? ==> r.modal == SizeModal(true, Some(p), ""))
  {
    if DetermineSizeType(p.category, p.subcategory) == "equipment" then
      PageStep(modal, Some(CartLineFor(p, "One Size")))
    else
      PageStep(SizeModal(true, Some(p), ""), None)
  }

  /** `currentSizes`: the sizes of the selected product's family, apparel when none is selected. */
  function CurrentSizes(modal: SizeModal): (sizes: seq<string>)
    ensures |sizes| > 0
    ensures modal.selectedProduct.None? ==> sizes == SizeConfig["apparel"]
  {
    var family := if modal.selectedProduct.Some? then
                    DetermineSizeType(modal.selectedProduct.value.category, modal.selectedProduct.value.subcategory)
                  else "apparel";
    SizeConfig[family]
  }

  /** A size button: `setSelectedSize(size)`. */
  function SelectSize(modal: SizeModal, size: string): SizeModal {
    modal.(selectedSize := size)
  }

  /**
   * `handleAddToCart`: nothing happens without a selected product and a non-empty size;
   * otherwise one unit in the chosen size is added and the picker is closed and reset.
   */
  function ConfirmAdd(modal: SizeModal): (r: PageStep)
    ensures r.added.None? <==> modal.selectedProduct.None? || modal.selectedSize == ""
    ensures r.added.None? ==> r.modal == modal
    ensures r.added.Some? ==> r.modal == ClosedModal &&
                              r.added.value == CartLineFor(modal.selectedProduct.value, modal.selectedSize)
  {
    if modal.selectedProduct.None? || modal.selectedSize == "" then PageStep(modal, None)
    else PageStep(ClosedModal, Some(CartLineFor(modal.selectedProduct.value, modal.selectedSize)))
  }

  /**
   * Opening the picker on a product and choosing one of the offered sizes always adds that
   * product in that size, and the size belongs to the product's family.
   */
  lemma PickedSizeIsAdded(modal: SizeModal, p: Product, i: int)
    requires QuickAdd(modal, p).added.None?
    requires 0 <= i < |CurrentSizes(QuickAdd(modal, p).modal)|
    ensures var chosen := CurrentSizes(QuickAdd(modal, p).modal)[i];
      && chosen in SizeConfig[DetermineSizeType(p.category, p.subcategory)]
      && ConfirmAdd(SelectSize(QuickAdd(modal, p).modal, chosen)) == PageStep(ClosedModal, Some(CartLineFor(p, chosen)))
  {
    var family := DetermineSizeType(p.category, p.subcategory);
    SizesAreNonEmpty(family, i);
  }

  /** The cart after a handler: `addToCart` is called exactly when the handler adds a line. */
  function CartAfter(items: seq<Cart.CartItem>, step: PageStep): seq<Cart.CartItem> {
    match step.added
    case None => items
    case Some(line) => Cart.AddToCartUpdate(items, line)
  }

  /** Quick-adding equipment to a cart that lacks the product appends one unit in "One Size". */
  lemma QuickAddEquipmentAppends(items: seq<Cart.CartItem>, modal: SizeModal, p: Product)
    requires DetermineSizeType(p.category, p.subcategory) == "equipment"
    requires !Cart.HasId(items, p.id)
    ensures CartAfter(items, QuickAdd(modal, p)) == items + [CartLineFor(p, "One Size")]
    ensures CartLineFor(p, "One Size").quantity == 1
  {
  }

  /** The page's click handler for quick-add, acting on the shared cart. */
  method HandleQuickAdd(cart: Cart.CartProvider, modal: SizeModal, p: Product) returns (modal': SizeModal)
    modifies cart
    ensures modal' == QuickAdd(modal, p).modal
    ensures cart.cartItems == CartAfter(old(cart.cartItems), QuickAdd(modal, p))
  {
    var step := QuickAdd(modal, p);
    if step.added.Some? {
      cart.AddToCart(step.added.value);
    }
    modal' := step.modal;
  }

  /** The picker's confirm button, acting on the shared cart. */
  method HandleAddToCart(cart: Cart.CartProvider, modal: SizeModal) returns (modal': SizeModal)
    modifies cart
    ensures modal' == ConfirmAdd(modal).modal
    ensures cart.cartItems == CartAfter(old(cart.cartItems), ConfirmAdd(modal))
  {
    var step := ConfirmAdd(modal);
    if step.added.Some? {
      cart.AddToCart(step.added.value);
    }
    modal' := step.modal;
  }

  function InCategory(active: string): Product -> bool {
    (p: Product) => p.category == active
  }

  /**
   * `filteredProducts`: every product under "All", otherwise exactly those whose category
   * equals the active one (case-sensitively), in their original order.
   */
  function FilteredProducts(products: seq<Product>, active: string): (r: seq<Product>)
    ensures active == "All" ==> r == products
    ensures forall p :: p in r <==> p in products && (active == "All" || p.category == active)
    ensures forall p :: multiset(r)[p] ==
              if active == "All" || p.category == active then multiset(products)[p] else 0
    ensures Seqs.IsSubsequence(r, products)
  {
    if active == "All" then
      Seqs.SubsequenceOfSelf(products);
      products
    else
      Seqs.FilterMembers(products, InCategory(active));
      Seqs.FilterCounts(products, InCategory(active));
      Seqs.FilterIsSubsequence(products, InCategory(active));
      Seqs.Filter(products, InCategory(active))
  }

  /** `product.subcategory || "General"`: a missing or empty subcategory groups under "General". */
  function SubKey(p: Product): string {
    match p.subcategory
    case None => "General"
    case Some(s) => if s == "" then "General" else s
  }

  function HasKey(key: string): Product -> bool {
    (p: Product) => SubKey(p) == key
  }

  /** A group as specified: the first two products, in order, whose key is `key`. */
  function Bucket(ps: seq<Product>, key: string): seq<Product> {
    Seqs.Take(Seqs.Filter(ps, HasKey(key)), 2)
  }

  /** The keys in the order they are first met: the order `Object.entries` lists them. */
  function GroupOrder(ps: seq<Product>): seq<string> {
    if ps == [] then []
    else
      var before := GroupOrder(ps[..|ps| - 1]);
      if SubKey(ps[|ps| - 1]) in before then before else before + [SubKey(ps[|ps| - 1])]
  }

  /** The key order lists each key of the products once. */
  lemma {:induction false} GroupOrderKeys(ps: seq<Product>)
    ensures forall k :: k in GroupOrder(ps) <==> exists p :: p in ps && SubKey(p) == k
    ensures forall i, j :: 0 <= i < j < |GroupOrder(ps)| ==> GroupOrder(ps)[i] != GroupOrder(ps)[j]
  {
    if ps != [] {
      var init := ps[..|ps| - 1];
      GroupOrderKeys(init);
      assert ps == init + [ps[|ps| - 1]];
    }
  }

  lemma BucketOfFreshKey(ps: seq<Product>, key: string)
    requires forall p :: p in ps ==> SubKey(p) != key
    ensures Bucket(ps, key) == []
  {
    Seqs.FilterNone(ps, HasKey(key));
  }

  /** One more product grows its own group while that group holds fewer than two. */
  lemma BucketStep(ps: seq<Product>, p: Product, key: string)
    ensures Bucket(ps + [p], key) ==
            if SubKey(p) == key && |Bucket(ps, key)| < 2 then Bucket(ps, key) + [p] else Bucket(ps, key)
  {
    Seqs.FilterAppend(ps, p, HasKey(key));
    var f := Seqs.Filter(ps, HasKey(key));
    if SubKey(p) == key {
      Seqs.TakeAppend(f, p, 2);
    }
  }

  /** The keys of the products, as a set. */
  function Keys(ps: seq<Product>): set<string> {
    if ps == [] then {} else Keys(ps[..|ps| - 1]) + {SubKey(ps[|ps| - 1])}
  }

  lemma {:induction false} KeysMembers(ps: seq<Product>)
    ensures Keys(ps) == set p | p in ps :: SubKey(p)
  {
    if ps != [] {
      var init := ps[..|ps| - 1];
      KeysMembers(init);
      assert ps == init + [ps[|ps| - 1]];
    }
  }

  lemma KeysStep(ps: seq<Product>, p: Product)
    ensures Keys(ps + [p]) == Keys(ps) + {SubKey(p)}
  {
    assert (ps + [p])[..|ps|] == ps;
  }

  /** What the grouping loop has built after the products `seen`. */
  ghost predicate GroupsInv(seen: seq<Product>, groups: map<string, seq<Product>>, order: seq<string>) {
    && groups.Keys == Keys(seen)
    && (forall k :: k in groups ==> groups[k] == Bucket(seen, k))
    && order == GroupOrder(seen)
  }

  /** One turn of the loop keeps `GroupsInv`: the key is created if new, and grows while short of two. */
  lemma GroupStep(seen: seq<Product>, product: Product, groups: map<string, seq<Product>>, order: seq<string>,
                  groups': map<string, seq<Product>>, order': seq<string>)
    requires GroupsInv(seen, groups, order)
    requires var key := SubKey(product);
      && order' == (if key in groups then order else order + [key])
      && groups'.Keys == groups.Keys + {key}
      && (forall k :: k in groups && k != key ==> groups'[k] == groups[k])
      && groups'[key] == (var before := if key in groups then groups[key] else [];
                          if |before| < 2 then before + [product] else before)
    ensures GroupsInv(seen + [product], groups', order')
  {
    var key := SubKey(product);
    var all := seen + [product];
    KeysStep(seen, product);
    assert key in order <==> key in groups by {
      GroupOrderKeys(seen);
      KeysMembers(seen);
    }
    assert GroupOrder(all) == order' by {
      assert all[..|seen|] == seen;
    }
    if key !in groups {
      assert Bucket(seen, key) == [] by {
        KeysMembers(seen);
        BucketOfFreshKey(seen, key);
      }
    }
    forall k | k in groups'
      ensures groups'[k] == Bucket(all, k)
    {
      BucketStep(seen, product, k);
    }
  }

  /**
   * The `groupedDrops` loop: each product goes under its key, a key is created the first
   * time it is met, and a group stops growing at two products.
   */
  method GroupDrops(filtered: seq<Product>) returns (groups: map<string, seq<Product>>, order: seq<string>)
    ensures groups.Keys == set p | p in filtered :: SubKey(p)
    ensures forall k :: k in groups ==> groups[k] == Bucket(filtered, k)
    ensures order == GroupOrder(filtered)
  {
    groups, order := map[], [];
    ghost var seen: seq<Product> := [];
    var i := 0;
    while i < |filtered|
      invariant 0 <= i <= |filtered|
      invariant seen == filtered[..i]
      invariant GroupsInv(seen, groups, order)
    {
      var product := filtered[i];
      var subKey := SubKey(product);
      ghost var groups0, order0 := groups, order;
      if subKey !in groups {
        groups := groups[subKey := []];
        order := order + [subKey];
      }
      if |groups[subKey]| < 2 {
        groups := groups[subKey := groups[subKey] + [product]];
      }
      GroupStep(seen, product, groups0, order0, groups, order);
      seen := seen + [product];
      Seqs.PrefixGrows(filtered, i);
      i := i + 1;
    }
    assert seen == filtered;
    KeysMembers(filtered);
  }

  /** Every group holds one or two products, all with that group's key, in filtered order. */
  lemma GroupsAreSmall(filtered: seq<Product>, key: string)
    requires exists p :: p in filtered && SubKey(p) == key
    ensures 1 <= |Bucket(filtered, key)| <= 2
    ensures forall q :: q in Bucket(filtered, key) ==> q in filtered && SubKey(q) == key
    ensures Seqs.IsSubsequence(Bucket(filtered, key), filtered)
  {
    var kept := Seqs.Filter(filtered, HasKey(key));
    var bucket := Bucket(filtered, key);
    Seqs.FilterMembers(filtered, HasKey(key));
    Seqs.FilterIsSubsequence(filtered, HasKey(key));
    var p :| p in filtered && SubKey(p) == key;
    assert p in kept;
    assert bucket == Seqs.Take(kept, 2);
    forall q | q in bucket
      ensures q in kept
    {
      var i :| 0 <= i < |bucket| && bucket[i] == q;
      assert kept[i] == q;
    }
    assert bucket == kept[..|bucket|];
    Seqs.SubsequencePrefix(kept, filtered, |bucket|);
  }

  /** The link of a group's header and its "view all" card: the first product's category page. */
  function GroupLink(items: seq<Product>): (href: string)
    ensures items == [] ==> href == "#"
    ensures items != [] ==> href == Home.CardHref(items[0].category)
  {
    if |items| > 0 then Home.CardHref(items[0].category) else "#"
  }
}
