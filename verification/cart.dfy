/** The shopping cart of pos/views.py: adding a product by SKU
    (`add_product_view`) and the running total on the main screen (`pos_view`). */
module ShoppingCart {
  import opened Models
  import opened Text

  /** `Product.objects.get(sku=sku)`: the unique product carrying `sku`, if any. */
  function FindBySku(c: Catalog, sku: string): (r: Option<ProductId>)
    requires UniqueSkus(c)
    ensures r.Some? ==> r.value in c && c[r.value].sku == sku
    ensures r.None? <==> forall id :: id in c ==> c[id].sku != sku
  {
    if exists id :: id in c && c[id].sku == sku then
      var id :| id in c && c[id].sku == sku;
      Some(id)
    else None
  }

  /** Because SKUs are unique, looking one up finds the only product that has it. */
  lemma SkuLookupFindsOwner(c: Catalog, id: ProductId)
    requires UniqueSkus(c) && id in c
    ensures FindBySku(c, c[id].sku) == Some(id)
  {
  }

  /** The cart holds at most one line per product. */
  predicate NoDuplicateLines(cart: CartLines)
  {
    forall i, j :: 0 <= i < |cart| && 0 <= j < |cart| && i != j ==> cart[i].product != cart[j].product
  }

  /** Every line holds at least one unit. */
  predicate PositiveQuantities(cart: CartLines)
  {
    forall i :: 0 <= i < |cart| ==> cart[i].quantity >= 1
  }

  /** The index of the first line for product `id`, if the cart has one. */
  function LineFor(cart: CartLines, id: ProductId): (r: Option<nat>)
    ensures r.Some? ==> r.value < |cart| && cart[r.value].product == id
    ensures r.Some? ==> forall j :: 0 <= j < r.value ==> cart[j].product != id
    ensures r.None? <==> forall j :: 0 <= j < |cart| ==> cart[j].product != id
  {
    if |cart| == 0 then None
    else if cart[0].product == id then Some(0)
    else match LineFor(cart[1..], id)
      case None => None
      case Some(k) => Some(k + 1)
  }

  datatype AddError = BlankSku | UnknownSku | OutOfStock | NotEnoughStock(available: int)

  /** The result of adding: the new cart, or a rejection that leaves the cart as it was. */
  datatype AddResult = Added(cart: CartLines) | AddRejected(error: AddError)
  {
    function CartAfter(before: CartLines): CartLines
    {
      if Added? then cart else before
    }
  }

  /** `add_product_view` on a POST carrying `rawSku` (the empty string when the field is missing). */
  function AddProduct(c: Catalog, cart: CartLines, rawSku: string): (r: AddResult)
    requires UniqueSkus(c)
    ensures r == AddRejected(BlankSku) <==> AllWhitespace(rawSku)
    ensures r == AddRejected(UnknownSku) <==> !AllWhitespace(rawSku) && FindBySku(c, Strip(rawSku)).None?
    ensures r.Added? ==> var id := FindBySku(c, Strip(rawSku)).value;
      && c[id].stock > 0
      && LineFor(r.cart, id).Some?
      && r.cart[LineFor(r.cart, id).value].quantity <= c[id].stock
    ensures r.Added? && NoDuplicateLines(cart) ==> NoDuplicateLines(r.cart)
    ensures r.Added? && PositiveQuantities(cart) ==> PositiveQuantities(r.cart)
  {
    var sku := Strip(rawSku);
    if sku == [] then AddRejected(BlankSku)
    else match FindBySku(c, sku)
      case None => AddRejected(UnknownSku)
      case Some(id) =>
        var p := c[id];
        if p.stock <= 0 then AddRejected(OutOfStock)
        else match LineFor(cart, id)
          case Some(k) =>
            if cart[k].quantity + 1 > p.stock then AddRejected(NotEnoughStock(p.stock))
            else
              var cart' := cart[k := cart[k].(quantity := cart[k].quantity + 1)];
              BumpKeepsShape(cart, k);
              Added(cart')
          case None =>
            var cart' := cart + [CartLine(id, p.name, p.sku, p.price, 1)];
            AppendKeepsShape(cart, CartLine(id, p.name, p.sku, p.price, 1));
            Added(cart')
  }

  /** One more unit on line `k` keeps that line the product's line, keeps one
      line per product and keeps every quantity positive. */
  lemma BumpKeepsShape(cart: CartLines, k: nat)
    requires k < |cart| && LineFor(cart, cart[k].product) == Some(k)
    ensures var cart' := cart[k := cart[k].(quantity := cart[k].quantity + 1)];
            && LineFor(cart', cart[k].product) == Some(k)
            && (NoDuplicateLines(cart) ==> NoDuplicateLines(cart'))
            && (PositiveQuantities(cart) ==> PositiveQuantities(cart'))
  {
    LineForAfterUpdate(cart, k, cart[k].(quantity := cart[k].quantity + 1));
  }

  /** A new line for a product with no line becomes its line, keeps one line
      per product and, with a positive quantity, keeps every quantity positive. */
  lemma AppendKeepsShape(cart: CartLines, line: CartLine)
    requires LineFor(cart, line.product).None? && line.quantity >= 1
    ensures && LineFor(cart + [line], line.product) == Some(|cart|)
            && (NoDuplicateLines(cart) ==> NoDuplicateLines(cart + [line]))
            && (PositiveQuantities(cart) ==> PositiveQuantities(cart + [line]))
  {
    LineForAppended(cart, line);
  }

  lemma LineForAfterUpdate(cart: CartLines, k: nat, line: CartLine)
    requires k < |cart| && LineFor(cart, cart[k].product) == Some(k) && line.product == cart[k].product
    ensures LineFor(cart[k := line], line.product) == Some(k)
  {
    var cart' := cart[k := line];
    var r := LineFor(cart', line.product);
    assert r.Some? by { assert cart'[k].product == line.product; }
  }

  lemma {:induction false} LineForAppended(cart: CartLines, line: CartLine)
    requires LineFor(cart, line.product).None?
    ensures LineFor(cart + [line], line.product) == Some(|cart|)
  {
    if |cart| > 0 {
      assert cart[0].product != line.product;
      assert (cart + [line])[1..] == cart[1..] + [line];
      assert LineFor(cart[1..], line.product).None? by {
        assert forall j :: 0 <= j < |cart[1..]| ==> cart[1..][j] == cart[j + 1];
      }
      LineForAppended(cart[1..], line);
    }
  }

  /** A product whose stock is not positive is refused and the cart is kept. */
  lemma AddRefusesEmptyShelf(c: Catalog, cart: CartLines, rawSku: string, id: ProductId)
    requires UniqueSkus(c) && id in c && Strip(rawSku) == c[id].sku && |c[id].sku| > 0 && c[id].stock <= 0
    ensures AddProduct(c, cart, rawSku) == AddRejected(OutOfStock)
    ensures AddProduct(c, cart, rawSku).CartAfter(cart) == cart
  {
    SkuLookupFindsOwner(c, id);
  }

  /** Adding a product that already has a line raises that line by one unit and
      touches nothing else, or is refused when that would exceed the stock. */
  lemma AddMergesExistingLine(c: Catalog, cart: CartLines, rawSku: string, id: ProductId, k: nat)
    requires UniqueSkus(c) && id in c && Strip(rawSku) == c[id].sku && |c[id].sku| > 0 && c[id].stock > 0
    requires k < |cart| && cart[k].product == id && NoDuplicateLines(cart)
    ensures var r := AddProduct(c, cart, rawSku);
      && (r.Added? <==> cart[k].quantity + 1 <= c[id].stock)
      && (r.AddRejected? ==> r.error == NotEnoughStock(c[id].stock))
      && (r.Added? ==> |r.cart| == |cart|
                       && r.cart[k] == cart[k].(quantity := cart[k].quantity + 1)
                       && forall j :: 0 <= j < |cart| && j != k ==> r.cart[j] == cart[j])
  {
    SkuLookupFindsOwner(c, id);
    assert LineFor(cart, id) == Some(k);
  }

  /** Adding a product with no line appends one line of quantity 1 holding the
      product's current name, SKU and price. */
  lemma AddAppendsNewLine(c: Catalog, cart: CartLines, rawSku: string, id: ProductId)
    requires UniqueSkus(c) && id in c && Strip(rawSku) == c[id].sku && |c[id].sku| > 0 && c[id].stock > 0
    requires forall j :: 0 <= j < |cart| ==> cart[j].product != id
    ensures AddProduct(c, cart, rawSku) == Added(cart + [CartLine(id, c[id].name, c[id].sku, c[id].price, 1)])
  {
    SkuLookupFindsOwner(c, id);
  }

  /** Sum of price times quantity over the cart's lines. */
  function CartTotal(cart: CartLines): Cents
  {
    if |cart| == 0 then 0
    else CartTotal(cart[..|cart| - 1]) + LineSubtotal(cart[|cart| - 1].quantity, cart[|cart| - 1].price)
  }

  /** The lines whose product still exists: `pos_view` skips the others. */
  function ShownLines(c: Catalog, cart: CartLines): (shown: CartLines)
    ensures |shown| <= |cart|
    ensures forall i :: 0 <= i < |shown| ==> shown[i].product in c
    ensures forall l :: l in shown <==> l in cart && l.product in c
    ensures (forall i :: 0 <= i < |cart| ==> cart[i].product in c) ==> shown == cart
  {
    if |cart| == 0 then []
    else
      var rest := ShownLines(c, cart[..|cart| - 1]);
      var last := cart[|cart| - 1];
      if last.product in c then
        assert cart == cart[..|cart| - 1] + [last];
        rest + [last]
      else rest
  }

  /** Filtering a cart in two parts filters each part and keeps their order:
      together with the one-line case, the lines shown are exactly the lines
      whose product exists, in cart order. */
  lemma {:induction false} ShownLinesConcat(c: Catalog, a: CartLines, b: CartLines)
    ensures ShownLines(c, a + b) == ShownLines(c, a) + ShownLines(c, b)
    decreases |b|
  {
    if |b| == 0 {
      assert a + b == a;
    } else {
      var n := |b| - 1;
      assert (a + b)[..|a + b| - 1] == a + b[..n];
      assert (a + b)[|a + b| - 1] == b[n];
      ShownLinesConcat(c, a, b[..n]);
    }
  }

  /** A single line is shown exactly when its product exists. */
  lemma ShownLine(c: Catalog, l: CartLine)
    ensures ShownLines(c, [l]) == if l.product in c then [l] else []
  {
    assert [l][..0] == [];
  }

  /** The cart total of two parts is the sum of their totals. */
  lemma {:induction false} CartTotalConcat(a: CartLines, b: CartLines)
    ensures CartTotal(a + b) == CartTotal(a) + CartTotal(b)
    decreases |b|
  {
    if |b| == 0 {
      assert a + b == a;
    } else {
      var n := |b| - 1;
      assert (a + b)[..|a + b| - 1] == a + b[..n];
      assert (a + b)[|a + b| - 1] == b[n];
      CartTotalConcat(a, b[..n]);
    }
  }

  /** The total on the main screen: the cart total over the lines still on sale. */
  function ScreenTotal(c: Catalog, cart: CartLines): (t: Cents)
    ensures (forall i :: 0 <= i < |cart| ==> cart[i].product in c) ==> t == CartTotal(cart)
  {
    CartTotal(ShownLines(c, cart))
  }

  /** The screen total adds up line by line: a line whose product is gone adds
      nothing, and every other line adds its price times its quantity. */
  lemma ScreenTotalAppend(c: Catalog, cart: CartLines, l: CartLine)
    ensures ScreenTotal(c, cart + [l])
         == ScreenTotal(c, cart) + (if l.product in c then LineSubtotal(l.quantity, l.price) else 0)
  {
    var front := ShownLines(c, cart);
    var tail := ShownLines(c, [l]);
    ShownLinesConcat(c, cart, [l]);
    ShownLine(c, l);
    CartTotalConcat(front, tail);
    assert ScreenTotal(c, cart + [l]) == CartTotal(front) + CartTotal(tail);
    if l.product in c {
      assert tail == [l];
      assert [l][..0] == [];
    } else {
      assert tail == [];
    }
  }

  /** One submission of the add form, against the catalog as it stood then. */
  datatype Scan = Scan(catalog: Catalog, rawSku: string)

  predicate ScansWellFormed(scans: seq<Scan>)
  {
    forall i :: 0 <= i < |scans| ==> UniqueSkus(scans[i].catalog)
  }

  /** The cart after a run of add submissions, rejected ones leaving it as it was. */
  function Replay(cart: CartLines, scans: seq<Scan>): CartLines
    requires ScansWellFormed(scans)
    decreases |scans|
  {
    if |scans| == 0 then cart
    else Replay(AddProduct(scans[0].catalog, cart, scans[0].rawSku).CartAfter(cart), scans[1..])
  }

  /** Every cart the add form can build holds at most one line per product and
      at least one unit per line. */
  lemma {:induction false} ReplayKeepsCartShape(cart: CartLines, scans: seq<Scan>)
    requires ScansWellFormed(scans) && NoDuplicateLines(cart) && PositiveQuantities(cart)
    ensures NoDuplicateLines(Replay(cart, scans)) && PositiveQuantities(Replay(cart, scans))
    decreases |scans|
  {
    if |scans| > 0 {
      ReplayKeepsCartShape(AddProduct(scans[0].catalog, cart, scans[0].rawSku).CartAfter(cart), scans[1..]);
    }
  }
}
