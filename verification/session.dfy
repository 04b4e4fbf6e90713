/**
 * A shopping session as a sequence of cart actions applied in order, and
 * what every such session keeps true of the cart.
 */
module Session {
  import opened Wrappers
  import opened Catalog
  import opened Cart
  import CartLaws

  /** The cart entry points a page can trigger. */
  datatype CartAction = Add(id: Id) | Remove(id: Id) | SetQuantity(id: Id, quantity: int)

  function Apply(catalog: seq<Product>, cart: seq<CartLine>, a: CartAction): seq<CartLine> {
    match a
    case Add(id) => AddToCart(catalog, cart, id).cart
    case Remove(id) => RemoveFromCart(cart, id)
    case SetQuantity(id, n) => UpdateCartQuantity(cart, id, n)
  }

  /** The cart after applying `actions` in order. */
  function Run(catalog: seq<Product>, cart: seq<CartLine>, actions: seq<CartAction>): seq<CartLine>
    decreases |actions|
  {
    if |actions| == 0 then cart
    else Run(catalog, Apply(catalog, cart, actions[0]), actions[1..])
  }

  /** The session only adds and removes. */
  predicate AddsAndRemoves(actions: seq<CartAction>) {
    forall k :: 0 <= k < |actions| ==> !actions[k].SetQuantity?
  }

  /** Adds and removes never break the stock bound or line uniqueness. */
  lemma {:induction false} RunAddRemoveKeepsValid(
    catalog: seq<Product>, cart: seq<CartLine>, actions: seq<CartAction>)
    requires Valid(catalog, cart)
    requires AddsAndRemoves(actions)
    ensures Valid(catalog, Run(catalog, cart, actions))
    decreases |actions|
  {
    if |actions| > 0 {
      match actions[0] {
        case Add(id) => CartLaws.AddPreservesValid(catalog, cart, id);
        case Remove(id) => CartLaws.RemovePreservesValid(catalog, cart, id);
      }
      RunAddRemoveKeepsValid(catalog, Apply(catalog, cart, actions[0]), actions[1..]);
    }
  }

  /** Starting from an empty cart, any session of adds and removes gives a valid cart. */
  lemma FromEmptyCartValid(catalog: seq<Product>, actions: seq<CartAction>)
    requires AddsAndRemoves(actions)
    ensures Valid(catalog, Run(catalog, [], actions))
  {
    RunAddRemoveKeepsValid(catalog, [], actions);
  }

  /**
   * With quantity updates allowed, lines stay unique and positive, but
   * (see CartLaws.UpdateMayExceedStock) not necessarily within stock.
   */
  lemma {:induction false} RunKeepsWellFormed(
    catalog: seq<Product>, cart: seq<CartLine>, actions: seq<CartAction>)
    requires WellFormed(catalog, cart)
    ensures WellFormed(catalog, Run(catalog, cart, actions))
    decreases |actions|
  {
    if |actions| > 0 {
      match actions[0] {
        case Add(id) => CartLaws.AddPreservesWellFormed(catalog, cart, id);
        case Remove(id) => CartLaws.RemovePreservesWellFormed(catalog, cart, id);
        case SetQuantity(id, n) => CartLaws.UpdatePreservesWellFormed(catalog, cart, id, n);
      }
      RunKeepsWellFormed(catalog, Apply(catalog, cart, actions[0]), actions[1..]);
    }
  }

  /** The cart after `n` successive adds of product `id`. */
  function AddTimes(catalog: seq<Product>, cart: seq<CartLine>, id: Id, n: nat): seq<CartLine> {
    if n == 0 then cart else AddToCart(catalog, AddTimes(catalog, cart, id, n - 1), id).cart
  }

  /** Adding a stocked product `n` times, up to its stock, gives one line of quantity `n`. */
  lemma {:induction false} AddUpToStock(catalog: seq<Product>, id: Id, n: nat)
    requires Stocked(catalog, id)
    requires 1 <= n <= FindProduct(catalog, id).value.stock
    ensures AddTimes(catalog, [], id, n) == [CartLine(FindProduct(catalog, id).value, n)]
  {
    var p := FindProduct(catalog, id).value;
    if n > 1 {
      AddUpToStock(catalog, id, n - 1);
      var prev := [CartLine(p, n - 1)];
      assert LineIndex(prev, id) == Some(0);
    }
  }

  /**
   * Once a line holds the whole stock, one more add is refused with a
   * warning and leaves the cart as it was.
   */
  lemma StockCeiling(catalog: seq<Product>, id: Id)
    requires Stocked(catalog, id)
    ensures var p := FindProduct(catalog, id).value;
      var full := AddTimes(catalog, [], id, p.stock);
      && full == [CartLine(p, p.stock)]
      && AddToCart(catalog, full, id) == AddResult(full, AtStockLimit)
  {
    var p := FindProduct(catalog, id).value;
    AddUpToStock(catalog, id, p.stock);
    assert LineIndex([CartLine(p, p.stock)], id) == Some(0);
  }
}
