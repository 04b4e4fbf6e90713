/**
 * The cart store: an ordered list of lines, one per product, each a
 * snapshot of the catalog entry plus a quantity. Adding respects the
 * product's stock; setting a quantity only enforces a floor of one.
 */
module Cart {
  import opened Wrappers
  import opened Catalog
  import opened Notifications
  import Seqs

  /** A product snapshot taken at first add, plus the quantity ordered. */
  datatype CartLine = CartLine(product: Product, quantity: int)

  /** True when some line of `cart` is for product `id`. */
  predicate HasLine(cart: seq<CartLine>, id: Id) {
    exists i :: 0 <= i < |cart| && cart[i].product.id == id
  }

  /** At most one line per product id. */
  predicate UniqueLines(cart: seq<CartLine>) {
    forall i, j :: 0 <= i < j < |cart| ==> cart[i].product.id != cart[j].product.id
  }

  /**
   * The shape every reachable cart has: unique lines, each with a
   * positive quantity and carrying the catalog's own record of its product.
   */
  predicate WellFormed(catalog: seq<Product>, cart: seq<CartLine>) {
    && UniqueLines(cart)
    && forall i :: 0 <= i < |cart| ==>
         && cart[i].quantity >= 1
         && FindProduct(catalog, cart[i].product.id) == Some(cart[i].product)
  }

  /** A well-formed cart in which no line asks for more than the stock. */
  predicate Valid(catalog: seq<Product>, cart: seq<CartLine>) {
    && WellFormed(catalog, cart)
    && forall i :: 0 <= i < |cart| ==> cart[i].quantity <= cart[i].product.stock
  }

  /** Position of the first line for product `id`. */
  function LineIndex(cart: seq<CartLine>, id: Id): (r: Option<nat>)
    ensures r.Some? ==> r.value < |cart| && cart[r.value].product.id == id
    ensures r.Some? ==> forall j :: 0 <= j < r.value ==> cart[j].product.id != id
    ensures r.None? <==> !HasLine(cart, id)
  {
    Seqs.Find(cart, (l: CartLine) => l.product.id == id)
  }

  /** The product exists in the catalog and has a positive stock. */
  predicate Stocked(catalog: seq<Product>, id: Id) {
    FindProduct(catalog, id).Some? && FindProduct(catalog, id).value.stock > 0
  }

  /** What an add did, and the notification it raises. */
  datatype AddOutcome = Rejected | Incremented | AtStockLimit | Appended {
    /** Rejection is an error, the stock ceiling a warning, every change a success. */
    function Kind(): (k: NoteKind)
      ensures k == Error <==> this == Rejected
      ensures k == Warning <==> this == AtStockLimit
      ensures k == Success <==> this == Incremented || this == Appended
      ensures k != Info
    {
      match this
      case Rejected => Error
      case Incremented => Success
      case AtStockLimit => Warning
      case Appended => Success
    }
  }

  datatype AddResult = AddResult(cart: seq<CartLine>, outcome: AddOutcome)

  /**
   * Add one unit of product `id`. Unknown and out-of-stock products are
   * rejected; an existing line grows by one while it is below the stock;
   * otherwise a new line with quantity one goes at the end.
   */
  function AddToCart(catalog: seq<Product>, cart: seq<CartLine>, id: Id): (r: AddResult)
    ensures r.outcome == Rejected <==> !Stocked(catalog, id)
    ensures r.outcome.Kind() == Error <==> !Stocked(catalog, id)
    ensures r.outcome == Rejected ==> r.cart == cart
    ensures Stocked(catalog, id) && !HasLine(cart, id) ==>
      r.outcome == Appended && r.cart == cart + [CartLine(FindProduct(catalog, id).value, 1)]
    ensures Stocked(catalog, id) && HasLine(cart, id) ==>
      var i := LineIndex(cart, id).value;
      if cart[i].quantity < FindProduct(catalog, id).value.stock then
        && r.outcome == Incremented
        && |r.cart| == |cart|
        && r.cart[i] == CartLine(cart[i].product, cart[i].quantity + 1)
        && (forall j :: 0 <= j < |cart| && j != i ==> r.cart[j] == cart[j])
      else
        r.outcome == AtStockLimit && r.outcome.Kind() == Warning && r.cart == cart
  {
    match FindProduct(catalog, id)
    case None => AddResult(cart, Rejected)
    case Some(p) =>
      if p.stock == 0 then AddResult(cart, Rejected)
      else
        match LineIndex(cart, id)
        case None => AddResult(cart + [CartLine(p, 1)], Appended)
        case Some(i) =>
          if cart[i].quantity < p.stock then
            AddResult(cart[i := cart[i].(quantity := cart[i].quantity + 1)], Incremented)
          else
            AddResult(cart, AtStockLimit)
  }

  /**
   * Drop the line for product `id`. Every other line stays, in order, with
   * its multiplicity; a cart without such a line comes back unchanged.
   */
  function RemoveFromCart(cart: seq<CartLine>, id: Id): (r: seq<CartLine>)
    ensures !HasLine(r, id)
    ensures Seqs.IsSubsequence(r, cart)
    ensures forall l :: multiset(r)[l] == if l.product.id != id then multiset(cart)[l] else 0
    ensures forall l :: l in cart && l.product.id != id ==> l in r
    ensures !HasLine(cart, id) ==> r == cart
  {
    var keep := (l: CartLine) => l.product.id != id;
    Seqs.FilterCounts(cart, keep);
    var r := Seqs.Filter(cart, keep);
    assert forall i :: 0 <= i < |r| ==> r[i] in r;
    r
  }

  /**
   * Set the quantity of the first line for product `id` to the larger of
   * one and `n`. There is no upper bound: unlike an add, this may push a
   * line past the product's stock.
   */
  function UpdateCartQuantity(cart: seq<CartLine>, id: Id, n: int): (r: seq<CartLine>)
    ensures |r| == |cart|
    ensures forall j :: 0 <= j < |cart| ==> r[j].product == cart[j].product
    ensures forall j :: 0 <= j < |cart| && cart[j].product.id != id ==> r[j] == cart[j]
    ensures !HasLine(cart, id) ==> r == cart
    ensures HasLine(cart, id) ==>
      var i := LineIndex(cart, id).value;
      && r[i].quantity >= 1
      && r[i].quantity >= n
      && (r[i].quantity == 1 || r[i].quantity == n)
      && forall j :: 0 <= j < |cart| && j != i ==> r[j] == cart[j]
  {
    match LineIndex(cart, id)
    case None => cart
    case Some(i) => cart[i := cart[i].(quantity := if n < 1 then 1 else n)]
  }

  /** Sum of the quantities of all lines. */
  function TotalItems(cart: seq<CartLine>): (r: int)
    ensures (forall i :: 0 <= i < |cart| ==> cart[i].quantity >= 1) ==> r >= |cart|
  {
    if |cart| == 0 then 0 else cart[0].quantity + TotalItems(cart[1..])
  }

  /** Price times quantity of one line, in cents. */
  function LineValue(l: CartLine): int {
    l.product.price * l.quantity
  }

  /** Sum of the line values, in cents. */
  function TotalPrice(cart: seq<CartLine>): (r: int)
    ensures (forall i :: 0 <= i < |cart| ==> cart[i].quantity >= 0) ==> r >= 0
  {
    if |cart| == 0 then 0 else LineValue(cart[0]) + TotalPrice(cart[1..])
  }

  datatype Summary = Summary(totalItems: int, totalPrice: int)

  /** Item count and total price (cents) of the cart. */
  function GetCartSummary(cart: seq<CartLine>): (s: Summary)
    ensures |cart| == 0 ==> s == Summary(0, 0)
    ensures (forall i :: 0 <= i < |cart| ==> cart[i].quantity >= 1) ==>
      s.totalItems >= |cart| && s.totalPrice >= 0
  {
    Summary(TotalItems(cart), TotalPrice(cart))
  }

  /** The totals of a concatenation are the sums of the parts' totals. */
  lemma {:induction false} TotalsAppend(a: seq<CartLine>, b: seq<CartLine>)
    ensures TotalItems(a + b) == TotalItems(a) + TotalItems(b)
    ensures TotalPrice(a + b) == TotalPrice(a) + TotalPrice(b)
  {
    if |a| == 0 {
      assert a + b == b;
    } else {
      assert (a + b)[1..] == a[1..] + b;
      TotalsAppend(a[1..], b);
    }
  }

  /** Replacing one line changes the totals by that line's difference only. */
  lemma TotalsReplace(cart: seq<CartLine>, i: nat, l: CartLine)
    requires i < |cart|
    ensures TotalItems(cart[i := l]) == TotalItems(cart) - cart[i].quantity + l.quantity
    ensures TotalPrice(cart[i := l]) == TotalPrice(cart) - LineValue(cart[i]) + LineValue(l)
  {
    var pre, post := cart[..i], cart[i + 1..];
    assert cart == pre + [cart[i]] + post;
    assert cart[i := l] == pre + [l] + post;
    TotalsAppend(pre + [cart[i]], post);
    TotalsAppend(pre, [cart[i]]);
    TotalsAppend(pre + [l], post);
    TotalsAppend(pre, [l]);
  }
}
