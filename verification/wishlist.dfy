/**
 * The wishlist store: catalog products saved for later, toggled in and
 * out one id at a time.
 */
module Wishlist {
  import opened Wrappers
  import opened Catalog
  import opened Notifications
  import Seqs

  /** What a toggle did, and the notification it raises. */
  datatype ToggleOutcome = Removed | Added | UnknownProduct {
    /**
     * A removal is informational and an addition a success; an unknown id
     * is reported as an error.
     */
    function Kind(): (k: NoteKind)
      ensures k == Info <==> this == Removed
      ensures k == Success <==> this == Added
      ensures k == Error <==> this == UnknownProduct
      ensures k != Warning
    {
      match this
      case Removed => Info
      case Added => Success
      case UnknownProduct => Error
    }
  }

  datatype ToggleResult = ToggleResult(wishlist: seq<Product>, outcome: ToggleOutcome)

  /**
   * Remove every entry for `id` if there is one; otherwise append the
   * catalog's product `id` at the end. An id the catalog does not know
   * leaves the wishlist as it is.
   */
  function ToggleWishlist(catalog: seq<Product>, wishlist: seq<Product>, id: Id): (r: ToggleResult)
    ensures HasId(r.wishlist, id) <==> !HasId(wishlist, id) && HasId(catalog, id)
    ensures HasId(wishlist, id) ==>
      && r.outcome == Removed
      && Seqs.IsSubsequence(r.wishlist, wishlist)
      && forall p :: multiset(r.wishlist)[p] == if p.id != id then multiset(wishlist)[p] else 0
    ensures !HasId(wishlist, id) && HasId(catalog, id) ==>
      r == ToggleResult(wishlist + [FindProduct(catalog, id).value], Added)
    ensures !HasId(catalog, id) && !HasId(wishlist, id) ==>
      r == ToggleResult(wishlist, UnknownProduct)
  {
    if HasId(wishlist, id) then
      var keep := (p: Product) => p.id != id;
      Seqs.FilterCounts(wishlist, keep);
      var kept := Seqs.Filter(wishlist, keep);
      assert forall i :: 0 <= i < |kept| ==> kept[i] in kept;
      ToggleResult(kept, Removed)
    else
      match FindProduct(catalog, id)
      case None => ToggleResult(wishlist, UnknownProduct)
      case Some(p) =>
        var grown := wishlist + [p];
        assert grown[|wishlist|].id == id;
        ToggleResult(grown, Added)
  }

  /** Toggling a catalog product twice from outside the wishlist restores it. */
  lemma ToggleTwiceRestores(catalog: seq<Product>, wishlist: seq<Product>, id: Id)
    requires HasId(catalog, id)
    requires !HasId(wishlist, id)
    ensures var once := ToggleWishlist(catalog, wishlist, id);
      var twice := ToggleWishlist(catalog, once.wishlist, id);
      once.outcome == Added && twice.outcome == Removed && twice.wishlist == wishlist
  {
    var p := FindProduct(catalog, id).value;
    var keep := (q: Product) => q.id != id;
    Seqs.FilterAppend(wishlist, [p], keep);
    assert forall i :: 0 <= i < |wishlist| ==> keep(wishlist[i]);
  }

  /** Toggling keeps at most one entry per product id. */
  lemma TogglePreservesUniqueIds(catalog: seq<Product>, wishlist: seq<Product>, id: Id)
    requires UniqueIds(wishlist)
    ensures UniqueIds(ToggleWishlist(catalog, wishlist, id).wishlist)
  {
    var r := ToggleWishlist(catalog, wishlist, id);
    if HasId(wishlist, id) {
      Seqs.SubsequencePairwise(r.wishlist, wishlist, (a: Product, b: Product) => a.id != b.id);
    }
  }

  /**
   * Reference scenario: toggling Smartwatch Pro on an empty wishlist adds
   * it, toggling again empties the wishlist.
   */
  lemma SmartwatchToggledTwice()
    ensures ToggleWishlist(Products, [], 2) == ToggleResult([Products[1]], Added)
    ensures ToggleWishlist(Products, [Products[1]], 2) == ToggleResult([], Removed)
  {
    ProductsUnique();
    assert FindProduct(Products, 2) == Some(Products[1]);
    assert HasId(Products, 2);
    ToggleTwiceRestores(Products, [], 2);
  }
}
