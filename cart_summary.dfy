/**
 * The cart page's arithmetic: cart lines joined to their catalog products,
 * the subtotal, shipping and total in cents, and the quantities the − and +
 * buttons ask for.
 */
module CartSummary {
  import opened Wrappers
  import opened JsNumber
  import opened Sequences
  import opened Catalog
  import opened Cart

  /** Orders from $80 on ship free; below that shipping costs $7.95. */
  const FreeShippingFrom: Num := 8000
  const ShippingFee: Num := 795

  /** A cart line with the catalog product it refers to. */
  datatype CartItem = CartItem(line: CartLine, product: Product)

  // ---------------------------------------------------------------------------
  // Joining lines to products
  // ---------------------------------------------------------------------------

  /** `products.find(x => x.id === id)`: the first product with that id. */
  function FindProduct(products: seq<Product>, id: string): (r: Option<Product>)
    ensures r.Some? ==> r.value in products && r.value.id == id
    ensures r.None? <==> forall i :: 0 <= i < |products| ==> products[i].id != id
  {
    if products == [] then None
    else if products[0].id == id then Some(products[0])
    else
      var r := FindProduct(products[1..], id);
      assert forall i :: 1 <= i < |products| ==> products[i] == products[1..][i - 1];
      r
  }

  function InCatalog(products: seq<Product>): CartLine -> bool {
    (l: CartLine) => FindProduct(products, l.productId).Some?
  }

  /** The lines mapped to line-and-product pairs, with lines of unknown products dropped. */
  function JoinLines(lines: seq<CartLine>, products: seq<Product>): seq<CartItem> {
    if lines == [] then []
    else match FindProduct(products, lines[0].productId)
      case Some(p) => [CartItem(lines[0], p)] + JoinLines(lines[1..], products)
      case None => JoinLines(lines[1..], products)
  }

  function LinesOf(items: seq<CartItem>): (r: seq<CartLine>)
    ensures |r| == |items| && forall i :: 0 <= i < |items| ==> r[i] == items[i].line
  {
    seq(|items|, i requires 0 <= i < |items| => items[i].line)
  }

  /** The joined lines are the cart's lines of known products, in cart order. */
  lemma {:induction false} JoinKeepsOrder(lines: seq<CartLine>, products: seq<Product>)
    ensures LinesOf(JoinLines(lines, products)) == Filter(lines, InCatalog(products))
  {
    if lines != [] {
      var l, tail := lines[0], lines[1..];
      JoinKeepsOrder(tail, products);
      FilterCons(l, tail, InCatalog(products));
      assert lines == [l] + tail;
      var rest := JoinLines(tail, products);
      match FindProduct(products, l.productId)
      case Some(p) =>
        assert LinesOf([CartItem(l, p)] + rest) == [l] + LinesOf(rest);
      case None =>
    }
  }

  /** Each joined line carries the first catalog product with the line's product id. */
  lemma {:induction false} JoinFindsProducts(lines: seq<CartLine>, products: seq<Product>)
    ensures forall x :: x in JoinLines(lines, products) ==>
      x.line in lines && FindProduct(products, x.line.productId) == Some(x.product)
  {
    if lines != [] {
      JoinFindsProducts(lines[1..], products);
      assert forall l :: l in lines[1..] ==> l in lines;
    }
  }

  // ---------------------------------------------------------------------------
  // Subtotal, shipping, total
  // ---------------------------------------------------------------------------

  function Amount(): CartItem -> int {
    (x: CartItem) => x.product.price * x.line.qty
  }

  /** `subtotal`: price times quantity, added up over the joined lines. */
  function Subtotal(items: seq<CartItem>): Num {
    SumOf(items, Amount())
  }

  /** A line's amount when unknown products count as nothing. */
  function LineAmount(products: seq<Product>): CartLine -> int {
    (l: CartLine) => match FindProduct(products, l.productId)
      case Some(p) => p.price * l.qty
      case None => 0
  }

  /** Dropping the lines of unknown products is the same as charging nothing for them. */
  lemma {:induction false} SubtotalByLines(lines: seq<CartLine>, products: seq<Product>)
    ensures Subtotal(JoinLines(lines, products)) == SumOf(lines, LineAmount(products))
  {
    if lines != [] {
      SubtotalByLines(lines[1..], products);
      var rest := JoinLines(lines[1..], products);
      match FindProduct(products, lines[0].productId)
      case Some(p) =>
        var x := CartItem(lines[0], p);
        assert ([x] + rest)[1..] == rest;
      case None =>
    }
  }

  /** With non-negative prices and positive quantities the subtotal is never negative. */
  lemma SubtotalNonNegative(lines: seq<CartLine>, products: seq<Product>)
    requires PositiveQtys(lines)
    requires forall i :: 0 <= i < |products| ==> products[i].price >= 0
    ensures Subtotal(JoinLines(lines, products)) >= 0
  {
    var items := JoinLines(lines, products);
    JoinFindsProducts(lines, products);
    forall i | 0 <= i < |items| ensures Amount()(items[i]) >= 0 {
      var x := items[i];
      assert x in items;
      var k :| 0 <= k < |lines| && lines[k] == x.line;
      NonNegativeProduct(x.product.price, x.line.qty);
    }
    SumOfAtLeast(items, Amount(), 0);
  }

  lemma NonNegativeProduct(a: int, b: int)
    requires a >= 0 && b >= 0
    ensures a * b >= 0
  {
  }

  /** `shipping`: free from the threshold on and for an empty order, the flat fee otherwise. */
  function Shipping(subtotal: Num): (r: Num)
    ensures r == 0 || r == ShippingFee
    ensures r == 0 <==> subtotal >= FreeShippingFrom || subtotal == 0
  {
    if subtotal >= FreeShippingFrom || subtotal == 0 then 0 else ShippingFee
  }

  function Total(subtotal: Num): Num {
    subtotal + Shipping(subtotal)
  }

  /** The total is the subtotal plus at most the fee, and is zero only for an empty order. */
  lemma TotalBounds(subtotal: Num)
    requires subtotal >= 0
    ensures subtotal <= Total(subtotal) <= subtotal + ShippingFee
    ensures Total(subtotal) == 0 <==> subtotal == 0
    ensures subtotal >= FreeShippingFrom ==> Total(subtotal) == subtotal
  {
  }

  /** Just below the threshold an order costs more in total than one at the threshold. */
  lemma TotalDropsAtThreshold()
    ensures Total(FreeShippingFrom - 1) == 8794 && Total(FreeShippingFrom) == 8000
  {
  }

  // ---------------------------------------------------------------------------
  // The quantity buttons
  // ---------------------------------------------------------------------------

  function Min(a: int, b: int): int {
    if a <= b then a else b
  }

  /** The − button: one less, but never below 1. */
  function Decrement(qty: int): (r: int)
    ensures r >= 1
    ensures qty > 1 ==> r == qty - 1
    ensures qty <= 1 ==> r == 1
  {
    Max(1, qty - 1)
  }

  /** The most the + button allows: the stock, and at least 1. */
  function MaxQty(stock: int): int {
    Max(1, stock)
  }

  /** The + button: one more, capped at the allowed maximum. */
  function Increment(qty: int, stock: int): int {
    Min(MaxQty(stock), qty + 1)
  }

  /** The + button is disabled when the product is out of stock or the line is at the maximum. */
  predicate IncrementDisabled(qty: int, stock: int) {
    stock <= 0 || qty >= MaxQty(stock)
  }

  /**
   * While the + button is enabled it adds exactly one item and never goes past
   * the stock; it is disabled exactly when the stock is gone or reached.
   */
  lemma IncrementWithinStock(qty: int, stock: int)
    ensures !IncrementDisabled(qty, stock) ==> Increment(qty, stock) == qty + 1 && qty + 1 <= stock
    ensures IncrementDisabled(qty, stock) <==> stock <= 0 || qty >= stock
    ensures Increment(qty, stock) <= MaxQty(stock)
  {
  }

  /**
   * What the buttons ask for is what `setQty` stores: neither request is
   * raised by `setQty`'s floor of 1, so the line ends with exactly that quantity.
   */
  lemma ButtonsSetExactly(lines: seq<CartLine>, i: nat, stock: int)
    requires DistinctIds(lines) && i < |lines| && lines[i].qty >= 1
    ensures var q := lines[i].qty;
      && SetQtyInLines(lines, lines[i].lineId, Decrement(q))[i].qty == Decrement(q)
      && SetQtyInLines(lines, lines[i].lineId, Increment(q, stock))[i].qty == Increment(q, stock)
      && (!IncrementDisabled(q, stock) ==> TotalItems(SetQtyInLines(lines, lines[i].lineId, Increment(q, stock))) == TotalItems(lines) + 1)
  {
    var q := lines[i].qty;
    SetQtyOne(lines, lines[i].lineId, Increment(q, stock), i);
  }
}
