/**
 * The administrator's product list, `app/admin/dashboard/page.tsx`: the combined name search
 * and category filter, and the optimistic removal after a delete.
 */
module AdminDashboard {
  import Strings
  import Seqs

  datatype Product = Product(id: int, name: string, price: real, category: string, image_url: string)

  /** `matchesSearch && matchesCategory`. */
  predicate Shown(p: Product, searchTerm: string, selectedCategory: string) {
    && Strings.Contains(Strings.ToLower(p.name), Strings.ToLower(searchTerm))
    && (selectedCategory == "All" || p.category == selectedCategory)
  }

  function ShownBy(searchTerm: string, selectedCategory: string): Product -> bool {
    (p: Product) => Shown(p, searchTerm, selectedCategory)
  }

  /** A blank search with the "All" button hides nothing. */
  lemma NoFilterKeepsAll(products: seq<Product>, searchTerm: string, selectedCategory: string)
    ensures searchTerm == "" && selectedCategory == "All" ==>
              Seqs.Filter(products, ShownBy(searchTerm, selectedCategory)) == products
  {
    if searchTerm == "" && selectedCategory == "All" {
      forall i | 0 <= i < |products|
        ensures ShownBy(searchTerm, selectedCategory)(products[i])
      {
        Strings.ContainsEmpty(Strings.ToLower(products[i].name));
      }
      Seqs.FilterKeepsAll(products, ShownBy(searchTerm, selectedCategory));
    }
  }

  /**
   * `filteredProducts`: a product is listed exactly when its lower-cased name includes the
   * lower-cased term and the category button is "All" or its own category; order is kept.
   */
  function FilteredProducts(products: seq<Product>, searchTerm: string, selectedCategory: string)
    : (r: seq<Product>)
    ensures forall p :: p in r <==>
              && p in products
              && Strings.Contains(Strings.ToLower(p.name), Strings.ToLower(searchTerm))
              && (selectedCategory == "All" || p.category == selectedCategory)
    ensures forall p :: multiset(r)[p] ==
              if Shown(p, searchTerm, selectedCategory) then multiset(products)[p] else 0
    ensures Seqs.IsSubsequence(r, products)
    ensures searchTerm == "" && selectedCategory == "All" ==> r == products
  {
    Seqs.FilterMembers(products, ShownBy(searchTerm, selectedCategory));
    Seqs.FilterCounts(products, ShownBy(searchTerm, selectedCategory));
    Seqs.FilterIsSubsequence(products, ShownBy(searchTerm, selectedCategory));
    NoFilterKeepsAll(products, searchTerm, selectedCategory);
    Seqs.Filter(products, ShownBy(searchTerm, selectedCategory))
  }

  function OtherThan(id: int): Product -> bool {
    (p: Product) => p.id != id
  }

  /** `list.filter(p => p.id !== id)`: every copy of every other product, in order, and nothing with the id. */
  function WithoutId(list: seq<Product>, id: int): (r: seq<Product>)
    ensures forall p :: p in r <==> p in list && p.id != id
    ensures forall p :: multiset(r)[p] == if p.id != id then multiset(list)[p] else 0
    ensures Seqs.IsSubsequence(r, list)
    ensures (forall p :: p in list ==> p.id != id) ==> r == list
  {
    Seqs.FilterMembers(list, OtherThan(id));
    Seqs.FilterCounts(list, OtherThan(id));
    Seqs.FilterIsSubsequence(list, OtherThan(id));
    AbsentIdKeepsAll(list, id);
    Seqs.Filter(list, OtherThan(id))
  }

  /**
   * The product list after a delete confirmation, as written: the confirmation closure
   * filters `captured`, the list as it was when `handleDelete` opened the toast, and not the
   * list `current` on screen when the button is pressed. A failed delete leaves `current`.
   */
  function AfterDelete(captured: seq<Product>, current: seq<Product>, id: int, deleteFailed: bool)
    : (r: seq<Product>)
    ensures deleteFailed ==> r == current
    ensures !deleteFailed ==> forall p :: multiset(r)[p] == if p.id != id then multiset(captured)[p] else 0
    ensures !deleteFailed ==> Seqs.IsSubsequence(r, captured)
  {
    if deleteFailed then current else WithoutId(captured, id)
  }

  /**
   * Two confirmation toasts opened on the same list (they stay open until clicked): confirming
   * the delete of `a`, then the delete of another id, brings `a` back on screen although it
   * was deleted from the database.
   */
  lemma StaleDeleteRestoresProduct(products: seq<Product>, a: Product, otherId: int)
    requires a in products && a.id != otherId
    ensures var afterA := AfterDelete(products, products, a.id, false);
      && a !in afterA
      && a in AfterDelete(products, afterA, otherId, false)
  {
  }

  /**
   * The delete as evidently intended, with the updater form `setProducts(prev => prev.filter(…))`
   * used for the status update on the orders page: the list on screen loses the id.
   */
  function DeleteFromLatest(current: seq<Product>, id: int, deleteFailed: bool): (r: seq<Product>)
    ensures deleteFailed ==> r == current
    ensures !deleteFailed ==> forall p :: multiset(r)[p] == if p.id != id then multiset(current)[p] else 0
    ensures Seqs.IsSubsequence(r, current)
  {
    if deleteFailed then
      Seqs.SubsequenceOfSelf(current);
      current
    else WithoutId(current, id)
  }

  /** With the corrected delete, two confirmed deletes leave neither product, and every other one once as before. */
  lemma TwoDeletesRemoveBoth(products: seq<Product>, a: int, b: int)
    ensures var r := DeleteFromLatest(DeleteFromLatest(products, a, false), b, false);
      forall p :: multiset(r)[p] == if p.id != a && p.id != b then multiset(products)[p] else 0
  {
  }

  /** Deleting an id that is not listed removes nothing. */
  lemma AbsentIdKeepsAll(products: seq<Product>, id: int)
    ensures (forall p :: p in products ==> p.id != id) ==> Seqs.Filter(products, OtherThan(id)) == products
  {
    if forall p :: p in products ==> p.id != id {
      Seqs.FilterKeepsAll(products, OtherThan(id));
    }
  }

  /**
   * Deleting a product and then filtering lists the same products as filtering and then
   * removing that product from what was listed.
   */
  lemma DeleteCommutesWithFilter(products: seq<Product>, id: int, searchTerm: string, selectedCategory: string)
    ensures FilteredProducts(DeleteFromLatest(products, id, false), searchTerm, selectedCategory)
         == DeleteFromLatest(FilteredProducts(products, searchTerm, selectedCategory), id, false)
  {
    Seqs.FilterCommutes(products, OtherThan(id), ShownBy(searchTerm, selectedCategory));
  }
}
