/** `checkout_view` of pos/views.py as an all-or-nothing transition on the
    in-memory store: it either fails and changes nothing, or it records one
    sale with one line per cart line, takes the sold units off the shelf and
    empties the cart. */
module Checkout {
  import opened Models
  import opened ShoppingCart
  import opened Sessions

  datatype CheckoutError =
    | NoOpenSession
    | EmptyCart
    | ProductGone(product: ProductId)
    | InsufficientStock(product: ProductId, available: int, requested: int)
    | ConstraintViolated

  datatype CheckoutResult =
    | Completed(store: Store, cart: CartLines, sale: nat)
    | Failed(error: CheckoutError)

  /** No line asks for a negative number of units: the CHECK on the sale line's
      quantity column holds for every line the cart would write. */
  predicate NonnegativeQuantities(cart: CartLines)
  {
    forall i :: 0 <= i < |cart| ==> cart[i].quantity >= 0
  }

  /** The product of `line` exists and has at least the line's quantity in stock. */
  predicate Stocked(c: Catalog, line: CartLine)
  {
    line.product in c && c[line.product].stock >= line.quantity
  }

  /** The validation loop: the index of the first line whose product is missing or short. */
  function FirstProblem(c: Catalog, cart: CartLines): (r: Option<nat>)
    ensures r.None? <==> forall i :: 0 <= i < |cart| ==> Stocked(c, cart[i])
    ensures r.Some? ==> r.value < |cart| && !Stocked(c, cart[r.value])
    ensures r.Some? ==> forall j :: 0 <= j < r.value ==> Stocked(c, cart[j])
  {
    if |cart| == 0 then None
    else if !Stocked(c, cart[0]) then Some(0)
    else
      match FirstProblem(c, cart[1..])
      case None =>
        assert forall j :: 1 <= j < |cart| ==> cart[1..][j - 1] == cart[j];
        None
      case Some(i) =>
        assert forall j :: 1 <= j <= i ==> cart[1..][j - 1] == cart[j];
        Some(i + 1)
  }

  /** The error reported for a line that fails validation. */
  function ProblemOf(c: Catalog, line: CartLine): CheckoutError
  {
    if line.product !in c then ProductGone(line.product)
    else InsufficientStock(line.product, c[line.product].stock, line.quantity)
  }

  /** Total quantity of product `id` over all cart lines. */
  function Demand(cart: CartLines, id: ProductId): int
  {
    if |cart| == 0 then 0
    else (if cart[0].product == id then cart[0].quantity else 0) + Demand(cart[1..], id)
  }

  /** `c'` is `c` with each product's stock lowered by the quantity the cart asks for it. */
  predicate StockTaken(c: Catalog, cart: CartLines, c': Catalog)
  {
    && c'.Keys == c.Keys
    && forall id :: id in c ==> c'[id] == c[id].(stock := c[id].stock - Demand(cart, id))
  }

  /** The decrement loop, one line after another: each step saves the product
      with the stock the previous step left, less the line's quantity, then
      writes the sale line. A step that leaves a negative stock, or writes a
      negative quantity, violates that column's nonnegative constraint and
      aborts the transaction. */
  function Decrement(c: Catalog, cart: CartLines): (r: Option<Catalog>)
    ensures r.Some? ==> StockTaken(c, cart, r.value)
    ensures r.Some? ==> forall id :: id in c && c[id].stock >= 0 ==> r.value[id].stock >= 0
    ensures r.Some? ==> NonnegativeQuantities(cart)
  {
    if |cart| == 0 then Some(c)
    else
      var line := cart[0];
      if line.product !in c then None
      else
        if c[line.product].stock - line.quantity < 0 || line.quantity < 0 then None
        else
          match Decrement(TakeLine(c, line), cart[1..])
          case None => None
          case Some(c2) =>
            StepThenRest(c, cart, c2);
            QuantitiesFromTail(cart);
            Some(c2)
  }

  /** One step of the loop: the line's quantity taken off its product. */
  function TakeLine(c: Catalog, line: CartLine): Catalog
    requires line.product in c
  {
    c[line.product := c[line.product].(stock := c[line.product].stock - line.quantity)]
  }

  /** A nonnegative first line in front of nonnegative lines. */
  lemma QuantitiesFromTail(cart: CartLines)
    requires |cart| > 0 && cart[0].quantity >= 0 && NonnegativeQuantities(cart[1..])
    ensures NonnegativeQuantities(cart)
  {
    forall i | 1 <= i < |cart| ensures cart[i].quantity >= 0 {
      assert cart[i] == cart[1..][i - 1];
    }
  }

  /** Lowering stocks without making any negative keeps a catalog valid: names,
      SKUs and prices are untouched. */
  lemma TakenStaysValid(c: Catalog, cart: CartLines, c': Catalog)
    requires ValidCatalog(c) && StockTaken(c, cart, c')
    requires forall id :: id in c && c[id].stock >= 0 ==> c'[id].stock >= 0
    ensures ValidCatalog(c')
  {
    forall a, b | a in c' && b in c' && c'[a].sku == c'[b].sku ensures a == b {
      assert c'[a].sku == c[a].sku && c'[b].sku == c[b].sku;
    }
  }

  lemma TakenStaysValidIf(c: Catalog, cart: CartLines, c': Catalog)
    requires StockTaken(c, cart, c')
    requires forall id :: id in c && c[id].stock >= 0 ==> c'[id].stock >= 0
    ensures ValidCatalog(c) ==> ValidCatalog(c')
  {
    if ValidCatalog(c) { TakenStaysValid(c, cart, c'); }
  }

  /** Taking the first line off and then the rest takes the whole cart off. */
  lemma StepThenRest(c: Catalog, cart: CartLines, c2: Catalog)
    requires |cart| > 0 && cart[0].product in c
    requires StockTaken(TakeLine(c, cart[0]), cart[1..], c2)
    ensures StockTaken(c, cart, c2)
  {
    var c1 := TakeLine(c, cart[0]);
    forall id | id in c ensures c2[id] == c[id].(stock := c[id].stock - Demand(cart, id)) {
      assert c2[id] == c1[id].(stock := c1[id].stock - Demand(cart[1..], id));
    }
  }

  /** With one line per product and no negative quantity, every line passing
      validation means every step of the loop keeps both constraints. */
  lemma {:induction false} DecrementSucceeds(c: Catalog, cart: CartLines)
    requires NoDuplicateLines(cart) && NonnegativeQuantities(cart)
    requires forall i :: 0 <= i < |cart| ==> Stocked(c, cart[i])
    ensures Decrement(c, cart).Some?
  {
    if |cart| > 0 {
      var line := cart[0];
      var c1 := TakeLine(c, line);
      assert Stocked(c, line);
      TailKeepsOneLinePerProduct(cart);
      OtherLinesStayStocked(c, cart);
      DecrementSucceeds(c1, cart[1..]);
      assert Decrement(c1, cart[1..]).Some?;
    }
  }

  /** Dropping the first line keeps one line per product, and nonnegative quantities. */
  lemma TailKeepsOneLinePerProduct(cart: CartLines)
    requires |cart| > 0 && NoDuplicateLines(cart)
    ensures NoDuplicateLines(cart[1..])
    ensures NonnegativeQuantities(cart) ==> NonnegativeQuantities(cart[1..])
  {
    var rest := cart[1..];
    assert forall i :: 0 <= i < |rest| ==> rest[i] == cart[i + 1];
    forall i, j | 0 <= i < |rest| && 0 <= j < |rest| && i != j
      ensures rest[i].product != rest[j].product
    {
      assert rest[i] == cart[i + 1] && rest[j] == cart[j + 1];
    }
  }

  /** Taking the first line's quantity off its product leaves the other lines,
      which name other products, as well stocked as before. */
  lemma OtherLinesStayStocked(c: Catalog, cart: CartLines)
    requires |cart| > 0 && NoDuplicateLines(cart)
    requires forall i :: 0 <= i < |cart| ==> Stocked(c, cart[i])
    ensures cart[0].product in c
    ensures forall i :: 0 <= i < |cart[1..]| ==> Stocked(TakeLine(c, cart[0]), cart[1..][i])
  {
    var line := cart[0];
    var c1 := TakeLine(c, line);
    var rest := cart[1..];
    forall i | 0 <= i < |rest|
      ensures Stocked(c1, rest[i])
    {
      assert rest[i] == cart[i + 1];
      assert rest[i].product != line.product;
    }
  }

  /** With one line per product, the demand for a product is its line's quantity. */
  lemma {:induction false} DemandOfOwnLine(cart: CartLines, k: nat)
    requires NoDuplicateLines(cart) && k < |cart|
    ensures Demand(cart, cart[k].product) == cart[k].quantity
  {
    if k == 0 {
      DemandAbsent(cart[1..], cart[0].product);
    } else {
      assert cart[1..][k - 1] == cart[k];
      TailKeepsOneLinePerProduct(cart);
      DemandOfOwnLine(cart[1..], k - 1);
    }
  }

  /** A product with no line has no demand. */
  lemma {:induction false} DemandAbsent(cart: CartLines, id: ProductId)
    requires forall i :: 0 <= i < |cart| ==> cart[i].product != id
    ensures Demand(cart, id) == 0
  {
    if |cart| > 0 {
      assert forall i :: 0 <= i < |cart[1..]| ==> cart[1..][i] == cart[i + 1];
      DemandAbsent(cart[1..], id);
    }
  }

  /** The sale lines written for the cart: product, quantity and snapshot price
      from the cart line, name from the product row. */
  function SaleLines(sale: nat, c: Catalog, cart: CartLines): (items: seq<SaleItem>)
    requires forall i :: 0 <= i < |cart| ==> cart[i].product in c
    ensures |items| == |cart|
    ensures forall i :: 0 <= i < |cart| ==>
      items[i] == SaleItem(sale, cart[i].product, c[cart[i].product].name, cart[i].quantity, cart[i].price)
    ensures ItemsSubtotal(items) == CartTotal(cart)
  {
    if |cart| == 0 then []
    else
      var n := |cart| - 1;
      var front := SaleLines(sale, c, cart[..n]);
      var items := front + [SaleItem(sale, cart[n].product, c[cart[n].product].name, cart[n].quantity, cart[n].price)];
      assert items[..n] == front;
      items
  }

  /** `request.POST.get('payment_method', 'cash')`: a missing field means cash,
      and a submitted value is taken as it is, declared method or not. */
  function PaymentChoice(field: Option<string>): (m: string)
    ensures field.None? ==> m == Cash
    ensures field.Some? ==> m == field.value
    ensures DeclaredPaymentMethod(m) <==> field.None? || DeclaredPaymentMethod(field.value)
  {
    if field.Some? then field.value else DefaultPaymentMethod
  }

  /** `st'` is `st` with `sale` appended as sale number `id`, followed by one
      sale line per cart line carrying the line's product, the product's name,
      and the line's quantity and price; the sessions are untouched. */
  predicate SaleRecorded(st: Store, cart: CartLines, sale: Sale, st': Store, id: nat)
  {
    && id == |st.sales|
    && st'.sessions == st.sessions
    && st'.sales == st.sales + [sale]
    && LinesAppended(st.catalog, st.items, cart, st'.items, id)
  }

  /** `items'` is `items` followed by one line of sale `id` per cart line, with
      the cart line's product, that product's name in `c`, and the cart line's
      quantity and price, adding up to the cart total. */
  predicate LinesAppended(c: Catalog, items: seq<SaleItem>, cart: CartLines, items': seq<SaleItem>, id: nat)
  {
    && |items'| == |items| + |cart|
    && items'[..|items|] == items
    && (forall i :: 0 <= i < |cart| ==>
          cart[i].product in c
          && items'[|items| + i] == SaleItem(id, cart[i].product, c[cart[i].product].name, cart[i].quantity, cart[i].price))
    && ItemsSubtotal(items'[|items|..]) == CartTotal(cart)
  }

  /** Appending the sale lines of the cart appends them in the sense above. */
  lemma AppendSaleLines(items: seq<SaleItem>, id: nat, c: Catalog, cart: CartLines)
    requires forall i :: 0 <= i < |cart| ==> cart[i].product in c
    ensures LinesAppended(c, items, cart, items + SaleLines(id, c, cart), id)
  {
    var lines := SaleLines(id, c, cart);
    var items' := items + lines;
    assert items'[..|items|] == items;
    assert items'[|items|..] == lines;
    assert forall i :: 0 <= i < |cart| ==> items'[|items| + i] == lines[i];
  }

  /** What a successful checkout wrote, comparing the store before (`st`) and
      after (`st'`): one new sale of the cart total in `session` with `payment`,
      numbered `id`, with its lines, and the sold units taken off the shelf. */
  predicate Committed(st: Store, cart: CartLines, session: nat, payment: string, day: int, st': Store, id: nat)
  {
    && SaleRecorded(st, cart, Sale(Some(session), CartTotal(cart), payment, day), st', id)
    && StockTaken(st.catalog, cart, st'.catalog)
  }

  /** The transaction after validation: decrement and record, or roll back when
      a step of the loop breaks a nonnegative constraint. */
  function Commit(st: Store, cart: CartLines, session: nat, payment: string, day: int): (r: CheckoutResult)
    requires forall i :: 0 <= i < |cart| ==> Stocked(st.catalog, cart[i])
    ensures r.Failed? ==> r.error == ConstraintViolated && !(NoDuplicateLines(cart) && NonnegativeQuantities(cart))
    ensures r.Completed? ==> r.cart == [] && NonnegativeQuantities(cart) && Committed(st, cart, session, payment, day, r.store, r.sale)
    ensures r.Completed? && ValidCatalog(st.catalog) ==> ValidCatalog(r.store.catalog)
  {
    match Decrement(st.catalog, cart)
    case None =>
      assert !(NoDuplicateLines(cart) && NonnegativeQuantities(cart)) by {
        if NoDuplicateLines(cart) && NonnegativeQuantities(cart) { DecrementSucceeds(st.catalog, cart); }
      }
      Failed(ConstraintViolated)
    case Some(c') =>
      assert forall i :: 0 <= i < |cart| ==> cart[i].product in st.catalog by {
        forall i | 0 <= i < |cart| ensures cart[i].product in st.catalog { assert Stocked(st.catalog, cart[i]); }
      }
      TakenStaysValidIf(st.catalog, cart, c');
      Completed(Record(st, c', Sale(Some(session), CartTotal(cart), payment, day), cart), [], |st.sales|)
  }

  /** `checkout_view` on a POST by `user`, with the cart from the web session. */
  function Checkout(st: Store, cart: CartLines, user: UserId, paymentField: Option<string>, day: int): (r: CheckoutResult)
    ensures r == Failed(NoOpenSession) <==> ActiveSession(st.sessions, user).None?
    ensures r == Failed(EmptyCart) <==> ActiveSession(st.sessions, user).Some? && cart == []
    ensures r.Failed? && r.error == ConstraintViolated ==> !(NoDuplicateLines(cart) && NonnegativeQuantities(cart))
    ensures r.Completed? ==> forall i :: 0 <= i < |cart| ==> Stocked(st.catalog, cart[i])
    ensures r.Completed? ==> NonnegativeQuantities(cart)
    ensures r.Completed? ==> r.cart == [] && ActiveSession(st.sessions, user).Some?
    ensures r.Completed? ==>
      Committed(st, cart, ActiveSession(st.sessions, user).value, PaymentChoice(paymentField), day, r.store, r.sale)
    ensures r.Completed? && ValidCatalog(st.catalog) ==> ValidCatalog(r.store.catalog)
  {
    match ActiveSession(st.sessions, user)
    case None => Failed(NoOpenSession)
    case Some(k) =>
      if cart == [] then Failed(EmptyCart)
      else match FirstProblem(st.catalog, cart)
        case Some(i) => Failed(ProblemOf(st.catalog, cart[i]))
        case None => Commit(st, cart, k, PaymentChoice(paymentField), day)
  }

  /** The writes of a successful checkout: the decremented catalog, the new
      sale and its lines. */
  function Record(st: Store, c': Catalog, sale: Sale, cart: CartLines): (st': Store)
    requires forall i :: 0 <= i < |cart| ==> cart[i].product in st.catalog
    ensures st'.catalog == c'
    ensures SaleRecorded(st, cart, sale, st', |st.sales|)
  {
    AppendSaleLines(st.items, |st.sales|, st.catalog, cart);
    Store(c', st.sessions, st.sales + [sale], st.items + SaleLines(|st.sales|, st.catalog, cart))
  }

  /** With one line per product and no negative quantity, checkout succeeds
      exactly when the user has an open session, the cart is not empty and every
      line's product is in stock for the line's quantity. */
  lemma CheckoutSucceedsIff(st: Store, cart: CartLines, user: UserId, paymentField: Option<string>, day: int)
    requires NoDuplicateLines(cart) && NonnegativeQuantities(cart)
    ensures Checkout(st, cart, user, paymentField, day).Completed?
        <==> ActiveSession(st.sessions, user).Some? && cart != []
             && forall i :: 0 <= i < |cart| ==> Stocked(st.catalog, cart[i])
  {
    if forall i :: 0 <= i < |cart| ==> Stocked(st.catalog, cart[i]) {
      DecrementSucceeds(st.catalog, cart);
    }
  }

  /** With one line per product, a checkout takes exactly each line's quantity
      off that line's product, leaves products without a line alone, and no
      stock goes negative. */
  lemma CheckoutStockEffect(st: Store, cart: CartLines, user: UserId, paymentField: Option<string>, day: int)
    requires NoDuplicateLines(cart) && ValidCatalog(st.catalog)
    requires Checkout(st, cart, user, paymentField, day).Completed?
    ensures var c' := Checkout(st, cart, user, paymentField, day).store.catalog;
      && (forall k :: 0 <= k < |cart| ==> c'[cart[k].product].stock == st.catalog[cart[k].product].stock - cart[k].quantity)
      && (forall id :: id in st.catalog && (forall k :: 0 <= k < |cart| ==> cart[k].product != id) ==> c'[id] == st.catalog[id])
      && (forall id :: id in c' ==> c'[id].stock >= 0)
  {
    var r := Checkout(st, cart, user, paymentField, day);
    assert StockTaken(st.catalog, cart, r.store.catalog);
    assert forall k :: 0 <= k < |cart| ==> Stocked(st.catalog, cart[k]);
    TakenPerLine(st.catalog, cart, r.store.catalog);
  }

  /** What taking stock means line by line, when each product has one line. */
  lemma TakenPerLine(c: Catalog, cart: CartLines, c': Catalog)
    requires NoDuplicateLines(cart) && StockTaken(c, cart, c')
    requires forall k :: 0 <= k < |cart| ==> Stocked(c, cart[k])
    ensures forall k :: 0 <= k < |cart| ==>
      cart[k].product in c' && c'[cart[k].product].stock == c[cart[k].product].stock - cart[k].quantity
    ensures forall id :: id in c && (forall k :: 0 <= k < |cart| ==> cart[k].product != id) ==> c'[id] == c[id]
  {
    forall k | 0 <= k < |cart| && cart[k].product in c
      ensures c'[cart[k].product].stock == c[cart[k].product].stock - cart[k].quantity
    {
      DemandOfOwnLine(cart, k);
    }
    forall id | id in c && (forall k :: 0 <= k < |cart| ==> cart[k].product != id) ensures c'[id] == c[id] {
      DemandAbsent(cart, id);
    }
  }

  /** Why the one-line-per-product invariant matters: two lines for the same
      product can each pass validation while together asking for more than the
      shelf holds; the decrement then hits the nonnegative constraint. */
  lemma DuplicateLinesHitConstraint()
    ensures var c := map[7 := Product("Pen", "P1", 150, 1)];
            var cart := [CartLine(7, "Pen", "P1", 150, 1), CartLine(7, "Pen", "P1", 150, 1)];
            var st := Store(c, [DrawerSession(1, 0, None, 0, None, "")], [], []);
            && (forall i :: 0 <= i < |cart| ==> Stocked(c, cart[i]))
            && Checkout(st, cart, 1, None, 0) == Failed(ConstraintViolated)
  {
    var c := map[7 := Product("Pen", "P1", 150, 1)];
    var cart := [CartLine(7, "Pen", "P1", 150, 1), CartLine(7, "Pen", "P1", 150, 1)];
    var st := Store(c, [DrawerSession(1, 0, None, 0, None, "")], [], []);
    assert ActiveSession(st.sessions, 1) == Some(0);
    assert FirstProblem(c, cart) == None;
    var c1 := c[7 := c[7].(stock := 0)];
    assert cart[1..] == [cart[1]];
    assert Decrement(c1, cart[1..]) == None;
    assert Decrement(c, cart) == None;
  }

  /** Submitting checkout twice sells once: the first success empties the cart,
      so the second attempt is refused as an empty cart and changes nothing. */
  lemma DoubleSubmitSellsOnce(st: Store, cart: CartLines, user: UserId, paymentField: Option<string>, day: int)
    requires Checkout(st, cart, user, paymentField, day).Completed?
    ensures var r := Checkout(st, cart, user, paymentField, day);
            Checkout(r.store, r.cart, user, paymentField, day) == Failed(EmptyCart)
  {
  }

  /** A cash checkout raises the session's cash takings, and so the cash the
      drawer is expected to hold at closing, by exactly the sale total. */
  lemma CashCheckoutRaisesExpectedCash(st: Store, cart: CartLines, user: UserId, day: int)
    requires Checkout(st, cart, user, Some(Cash), day).Completed?
    ensures var k := ActiveSession(st.sessions, user).value;
            var r := Checkout(st, cart, user, Some(Cash), day);
            MethodTotal(r.store.sales, k, Cash) == MethodTotal(st.sales, k, Cash) + CartTotal(cart)
  {
    var k := ActiveSession(st.sessions, user).value;
    AppendSale(st.sales, Sale(Some(k), CartTotal(cart), Cash, day), k, Cash);
  }

  /** The total shown on the main screen is what checkout charges, as long as
      every product in the cart still exists. */
  lemma ScreenTotalIsCharged(st: Store, cart: CartLines, user: UserId, paymentField: Option<string>, day: int)
    requires Checkout(st, cart, user, paymentField, day).Completed?
    ensures var r := Checkout(st, cart, user, paymentField, day);
            r.store.sales[r.sale].total == ScreenTotal(st.catalog, cart)
  {
  }

  /** A cart built by the add form never trips a nonnegative constraint at checkout. */
  lemma ScannedCartKeepsStockNonnegative(st: Store, scans: seq<Scan>, user: UserId, paymentField: Option<string>, day: int)
    requires ScansWellFormed(scans)
    ensures Checkout(st, Replay([], scans), user, paymentField, day) != Failed(ConstraintViolated)
  {
    ReplayKeepsCartShape([], scans);
  }

  /** A line with a negative quantity passes validation, since any stock covers
      it, but the sale line it writes breaks the quantity constraint and the
      whole checkout rolls back. */
  lemma NegativeQuantityHitsConstraint()
    ensures var c := map[7 := Product("Pen", "P1", 150, 1)];
            var cart := [CartLine(7, "Pen", "P1", 150, -2)];
            var st := Store(c, [DrawerSession(1, 0, None, 0, None, "")], [], []);
            && (forall i :: 0 <= i < |cart| ==> Stocked(c, cart[i]))
            && Checkout(st, cart, 1, None, 0) == Failed(ConstraintViolated)
  {
    var c := map[7 := Product("Pen", "P1", 150, 1)];
    var cart := [CartLine(7, "Pen", "P1", 150, -2)];
    var st := Store(c, [DrawerSession(1, 0, None, 0, None, "")], [], []);
    assert ActiveSession(st.sessions, 1) == Some(0);
    assert FirstProblem(c, cart) == None;
    assert Decrement(c, cart) == None;
  }

  /** A successful checkout keeps the store valid, provided the prices the cart
      carries fit the unit-price column: the catalog stays valid, the sessions
      are untouched, and every new sale line has a nonnegative quantity. */
  lemma CheckoutKeepsStoreValid(st: Store, cart: CartLines, user: UserId, paymentField: Option<string>, day: int)
    requires ValidStore(st)
    requires forall i :: 0 <= i < |cart| ==> FitsMoneyColumn(cart[i].price)
    requires Checkout(st, cart, user, paymentField, day).Completed?
    ensures ValidStore(Checkout(st, cart, user, paymentField, day).store)
  {
    var r := Checkout(st, cart, user, paymentField, day);
    assert NonnegativeQuantities(cart);
    assert LinesAppended(st.catalog, st.items, cart, r.store.items, r.sale);
    AppendedLinesValid(st.catalog, st.items, cart, r.store.items, r.sale);
  }

  /** Sale lines appended from a cart with nonnegative quantities and
      column-sized prices keep every sale line valid. */
  lemma AppendedLinesValid(c: Catalog, items: seq<SaleItem>, cart: CartLines, items': seq<SaleItem>, id: nat)
    requires LinesAppended(c, items, cart, items', id)
    requires forall i :: 0 <= i < |items| ==> ValidSaleItem(items[i])
    requires NonnegativeQuantities(cart)
    requires forall i :: 0 <= i < |cart| ==> FitsMoneyColumn(cart[i].price)
    ensures forall i :: 0 <= i < |items'| ==> ValidSaleItem(items'[i])
  {
    forall i | 0 <= i < |items'| ensures ValidSaleItem(items'[i]) {
      if i < |items| {
        assert items'[i] == items'[..|items|][i];
      } else {
        var j := i - |items|;
        assert items'[|items| + j].quantity == cart[j].quantity;
      }
    }
  }
}
