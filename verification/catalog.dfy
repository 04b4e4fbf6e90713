/**
 * The fixed product catalog of the shop and lookup by product id.
 * Prices are integer cents and ratings are integer tenths of a star;
 * the catalog is built once and never changes during a session.
 */
module Catalog {
  import opened Wrappers
  import Seqs

  type Id = int

  datatype Product = Product(
    id: Id,
    name: string,
    emoji: string,
    price: nat,        // cents
    description: string,
    rating: nat,       // tenths of a star
    reviews: nat,
    stock: nat
  )

  /** No two catalog entries share an id. */
  predicate UniqueIds(catalog: seq<Product>) {
    forall i, j :: 0 <= i < j < |catalog| ==> catalog[i].id != catalog[j].id
  }

  /** True when some entry of `catalog` has id `id`. */
  predicate HasId(catalog: seq<Product>, id: Id) {
    exists i :: 0 <= i < |catalog| && catalog[i].id == id
  }

  /** The reference catalog of six products. */
  const Products: seq<Product> := [
    Product(1, "Premium Headphones", "\U{1F3A7}", 9999,
            "High-quality sound with noise cancellation", 48, 245, 15),
    Product(2, "Smartwatch Pro", "\U{231A}", 19999,
            "Stay connected with style and fitness tracking", 46, 189, 12),
    Product(3, "Wireless Speaker", "\U{1F50A}", 7999,
            "Portable and powerful sound quality", 47, 312, 20),
    Product(4, "Camera Pro", "\U{1F4F7}", 29999,
            "Professional-grade photography made easy", 49, 156, 8),
    Product(5, "Tablet Ultra", "\U{1F4F1}", 14999,
            "Portable power for work and entertainment", 45, 423, 18),
    Product(6, "Laptop Slim", "\U{1F4BB}", 89999,
            "Lightweight yet powerful performance", 49, 567, 5)
  ]

  /** The reference catalog satisfies the catalog invariant. */
  lemma ProductsUnique()
    ensures UniqueIds(Products)
    ensures forall i :: 0 <= i < |Products| ==> Products[i].id == i + 1
  {
  }

  /**
   * First entry of `catalog` whose id is `id`. The lookup fails exactly
   * when no entry carries the id, and with unique ids it returns the one
   * entry that does.
   */
  function FindProduct(catalog: seq<Product>, id: Id): (r: Option<Product>)
    ensures r.Some? ==> r.value in catalog && r.value.id == id
    ensures r.None? <==> !HasId(catalog, id)
    ensures UniqueIds(catalog) ==>
      forall i :: 0 <= i < |catalog| && catalog[i].id == id ==> r == Some(catalog[i])
  {
    match Seqs.Find(catalog, (p: Product) => p.id == id)
    case None => None
    case Some(i) => Some(catalog[i])
  }

  /** Lookup in the reference catalog: ids 1 to 6 exist, nothing else does. */
  function GetProductById(id: Id): (r: Option<Product>)
    ensures r.Some? <==> 1 <= id <= 6
    ensures r.Some? ==> r.value == Products[id - 1]
  {
    ProductsUnique();
    FindProduct(Products, id)
  }
}
