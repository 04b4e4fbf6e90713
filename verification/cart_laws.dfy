/**
 * Laws of the cart store: which operations keep the cart invariant, how
 * the summary moves under each operation, and the reference scenarios.
 */
module CartLaws {
  import opened Wrappers
  import opened Catalog
  import opened Cart
  import Seqs

  /** Adding keeps lines unique, positive and catalog-backed. */
  lemma AddPreservesWellFormed(catalog: seq<Product>, cart: seq<CartLine>, id: Id)
    requires WellFormed(catalog, cart)
    ensures WellFormed(catalog, AddToCart(catalog, cart, id).cart)
  {
    var r := AddToCart(catalog, cart, id);
    if Stocked(catalog, id) && !HasLine(cart, id) {
      assert r.cart == cart + [CartLine(FindProduct(catalog, id).value, 1)];
    }
  }

  /** Adding keeps unique lines with quantities between one and the stock. */
  lemma AddPreservesValid(catalog: seq<Product>, cart: seq<CartLine>, id: Id)
    requires Valid(catalog, cart)
    ensures Valid(catalog, AddToCart(catalog, cart, id).cart)
  {
    var r := AddToCart(catalog, cart, id);
    AddPreservesWellFormed(catalog, cart, id);
    if Stocked(catalog, id) {
      var p := FindProduct(catalog, id).value;
      if HasLine(cart, id) {
        var i := LineIndex(cart, id).value;
        assert cart[i].product == p;
      } else {
        assert r.cart == cart + [CartLine(p, 1)];
      }
    }
  }

  /** Removing keeps lines unique, positive and catalog-backed. */
  lemma RemovePreservesWellFormed(catalog: seq<Product>, cart: seq<CartLine>, id: Id)
    requires WellFormed(catalog, cart)
    ensures WellFormed(catalog, RemoveFromCart(cart, id))
  {
    var r := RemoveFromCart(cart, id);
    LinesOfSubsequence(r, cart);
  }

  /** Removing keeps the cart invariant, whatever the id. */
  lemma RemovePreservesValid(catalog: seq<Product>, cart: seq<CartLine>, id: Id)
    requires Valid(catalog, cart)
    ensures Valid(catalog, RemoveFromCart(cart, id))
  {
    var r := RemoveFromCart(cart, id);
    LinesOfSubsequence(r, cart);
  }

  /** A subsequence of a cart keeps its lines unique and draws every line from it. */
  lemma LinesOfSubsequence(r: seq<CartLine>, cart: seq<CartLine>)
    requires Seqs.IsSubsequence(r, cart)
    requires UniqueLines(cart)
    ensures UniqueLines(r)
    ensures forall i :: 0 <= i < |r| ==> r[i] in cart
  {
    Seqs.SubsequencePairwise(r, cart, (a: CartLine, b: CartLine) => a.product.id != b.product.id);
  }

  /** Setting a quantity keeps lines unique, positive and catalog-backed. */
  lemma UpdatePreservesWellFormed(catalog: seq<Product>, cart: seq<CartLine>, id: Id, n: int)
    requires WellFormed(catalog, cart)
    ensures WellFormed(catalog, UpdateCartQuantity(cart, id, n))
  {
  }

  /** Setting a quantity within the stock keeps the full cart invariant. */
  lemma UpdateWithinStockPreservesValid(catalog: seq<Product>, cart: seq<CartLine>, id: Id, n: int)
    requires Valid(catalog, cart)
    requires FindProduct(catalog, id).Some? && n <= FindProduct(catalog, id).value.stock
    ensures Valid(catalog, UpdateCartQuantity(cart, id, n))
  {
    if HasLine(cart, id) {
      var i := LineIndex(cart, id).value;
      assert cart[i].product == FindProduct(catalog, id).value;
    }
  }

  /**
   * Unlike an add, setting a quantity is not capped by the stock: one
   * Premium Headphones line (stock 15) set to 16 leaves the valid carts.
   */
  lemma UpdateMayExceedStock()
    ensures var cart := AddToCart(Products, [], 1).cart;
      && Valid(Products, cart)
      && WellFormed(Products, UpdateCartQuantity(cart, 1, 16))
      && !Valid(Products, UpdateCartQuantity(cart, 1, 16))
  {
    ProductsUnique();
    var p := Products[0];
    assert FindProduct(Products, 1) == Some(p);
    var cart := AddToCart(Products, [], 1).cart;
    assert cart == [CartLine(p, 1)];
    assert UpdateCartQuantity(cart, 1, 16) == [CartLine(p, 16)];
  }

  /**
   * A successful add raises the item count by one and the total by the
   * product's price; a rejected or capped add changes neither.
   */
  lemma AddChangesSummary(catalog: seq<Product>, cart: seq<CartLine>, id: Id)
    requires WellFormed(catalog, cart)
    ensures var r := AddToCart(catalog, cart, id);
      var s, s' := GetCartSummary(cart), GetCartSummary(r.cart);
      if r.outcome == Incremented || r.outcome == Appended then
        && s'.totalItems == s.totalItems + 1
        && s'.totalPrice == s.totalPrice + FindProduct(catalog, id).value.price
      else
        s' == s
  {
    var r := AddToCart(catalog, cart, id);
    if Stocked(catalog, id) {
      var p := FindProduct(catalog, id).value;
      if HasLine(cart, id) {
        var i := LineIndex(cart, id).value;
        assert cart[i].product == p;
        if cart[i].quantity < p.stock {
          assert r.cart == cart[i := CartLine(p, cart[i].quantity + 1)];
          TotalsIncrement(cart, i);
        }
      } else {
        TotalsAppend(cart, [CartLine(p, 1)]);
      }
    }
  }

  /** One more unit on line `i` adds one item and one unit price. */
  lemma TotalsIncrement(cart: seq<CartLine>, i: nat)
    requires i < |cart|
    ensures var l := cart[i];
      var c := cart[i := CartLine(l.product, l.quantity + 1)];
      && TotalItems(c) == TotalItems(cart) + 1
      && TotalPrice(c) == TotalPrice(cart) + l.product.price
  {
    var l := cart[i];
    TotalsReplace(cart, i, CartLine(l.product, l.quantity + 1));
    LineValueStep(l.product, l.quantity);
  }

  /** One more unit of a line is worth one more unit price. */
  lemma LineValueStep(p: Product, q: int)
    ensures LineValue(CartLine(p, q + 1)) == LineValue(CartLine(p, q)) + p.price
  {
    var price: int := p.price;
    assert price * (q + 1) == price * q + price;
  }

  /**
   * Removing takes exactly the removed line's quantity and value off the
   * summary; removing an absent id changes nothing.
   */
  lemma RemoveChangesSummary(cart: seq<CartLine>, id: Id)
    requires UniqueLines(cart)
    ensures var s, s' := GetCartSummary(cart), GetCartSummary(RemoveFromCart(cart, id));
      if HasLine(cart, id) then
        var l := cart[LineIndex(cart, id).value];
        && s'.totalItems == s.totalItems - l.quantity
        && s'.totalPrice == s.totalPrice - LineValue(l)
      else
        s' == s
  {
    if HasLine(cart, id) {
      var i := LineIndex(cart, id).value;
      RemoveCutsOut(cart, id, i);
      TotalsDrop(cart, i);
    }
  }

  /** With unique lines, removing an id cuts exactly its one line out. */
  lemma {:induction false} RemoveCutsOut(cart: seq<CartLine>, id: Id, i: nat)
    requires UniqueLines(cart)
    requires i < |cart| && cart[i].product.id == id
    ensures RemoveFromCart(cart, id) == cart[..i] + cart[i + 1..]
  {
    var keep := (l: CartLine) => l.product.id != id;
    var tail := cart[1..];
    if i == 0 {
      assert forall k :: 0 <= k < |tail| ==> keep(tail[k]);
      assert Seqs.Filter(tail, keep) == tail;
    } else {
      RemoveCutsOut(tail, id, i - 1);
      Seqs.CutAfterHead(cart, i);
    }
  }

  /** Cutting line `i` out takes its quantity and value off the totals. */
  lemma {:induction false} TotalsDrop(cart: seq<CartLine>, i: nat)
    requires i < |cart|
    ensures TotalItems(cart[..i] + cart[i + 1..]) == TotalItems(cart) - cart[i].quantity
    ensures TotalPrice(cart[..i] + cart[i + 1..]) == TotalPrice(cart) - LineValue(cart[i])
  {
    if i == 0 {
      assert cart[..i] + cart[i + 1..] == cart[1..];
    } else {
      var tail := cart[1..];
      TotalsDrop(tail, i - 1);
      Seqs.CutAfterHead(cart, i);
    }
  }

  /**
   * Reference scenario: adding Premium Headphones twice to an empty cart
   * gives one line of quantity two, two items and 199.98 in total.
   */
  lemma HeadphonesTwice()
    ensures var cart := AddToCart(Products, AddToCart(Products, [], 1).cart, 1).cart;
      && cart == [CartLine(Products[0], 2)]
      && GetCartSummary(cart) == Summary(2, 19998)
  {
    ProductsUnique();
    var p := Products[0];
    assert FindProduct(Products, 1) == Some(p);
    var once := AddToCart(Products, [], 1).cart;
    assert once == [CartLine(p, 1)];
    assert LineIndex(once, 1) == Some(0);
    var twice := AddToCart(Products, once, 1).cart;
    assert twice == [CartLine(p, 2)];
    assert twice[1..] == [];
    assert p.price == 9999;
    assert TotalItems(twice) == 2 + TotalItems([]);
    assert TotalPrice(twice) == 9999 * 2 + TotalPrice([]);
  }
}
