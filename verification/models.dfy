/** The rows of pos/models.py as immutable values, with the column constraints
    the database enforces stated as validity predicates. Money is counted in
    integer cents: every money column is a decimal with two places. */
module Models {

  datatype Option<+T> = None | Some(value: T)

  type ProductId = nat
  type UserId = nat

  /** An amount of money in cents. */
  type Cents = int

  /** A decimal column with at most 10 digits, 2 of them after the point,
      holds magnitudes below 10^8 units, i.e. below 10^10 cents. */
  const MoneyLimit: int := 10_000_000_000

  predicate FitsMoneyColumn(c: Cents)
  {
    -MoneyLimit < c < MoneyLimit
  }

  /** A product row; `stock` is a PositiveIntegerField. */
  datatype Product = Product(name: string, sku: string, price: Cents, stock: int)

  predicate ValidProduct(p: Product)
  {
    p.stock >= 0 && FitsMoneyColumn(p.price)
  }

  /** The product table, keyed by primary key. */
  type Catalog = map<ProductId, Product>

  /** The `unique=True` constraint on `sku`. */
  predicate UniqueSkus(c: Catalog)
  {
    forall a, b :: a in c && b in c && c[a].sku == c[b].sku ==> a == b
  }

  predicate ValidCatalog(c: Catalog)
  {
    UniqueSkus(c) && forall id :: id in c ==> ValidProduct(c[id])
  }

  /** The two declared payment-method choices and the column default. */
  const Cash: string := "cash"
  const Card: string := "card"
  const DefaultPaymentMethod: string := Cash

  predicate DeclaredPaymentMethod(m: string)
  {
    m == Cash || m == Card
  }

  /** A cash-drawer session. `end` is the closing time (null while open);
      times and dates are abstract instants and day numbers. */
  datatype DrawerSession = DrawerSession(
    user: UserId,
    start: int,
    end: Option<int>,
    startingBalance: Cents,
    endingBalance: Option<Cents>,
    notes: string)
  {
    /** The `end_time__isnull=True` filter every caller uses for "active". */
    predicate Active()
    {
      end.None?
    }
  }

  /** A closed session carries its closing balance; an open one may not. */
  predicate ValidSession(s: DrawerSession)
  {
    FitsMoneyColumn(s.startingBalance)
    && (s.end.Some? ==> s.endingBalance.Some?)
    && (s.endingBalance.Some? ==> FitsMoneyColumn(s.endingBalance.value))
  }

  /** A sale. `session` is the index of the cash-drawer session it was rung up in;
      `day` is the calendar date of `created_at`. The payment method is a plain
      string: the declared choices are not enforced when a row is created. */
  datatype Sale = Sale(session: Option<nat>, total: Cents, paymentMethod: string, day: int)

  /** A sale line: product name and unit price are copied at checkout. */
  datatype SaleItem = SaleItem(sale: nat, product: ProductId, productName: string, quantity: int, unitPrice: Cents)

  /** A returned line of a sale. */
  datatype SaleReturnItem = SaleReturnItem(product: ProductId, quantity: int, unitPrice: Cents)

  predicate ValidSaleItem(i: SaleItem)
  {
    i.quantity >= 0 && FitsMoneyColumn(i.unitPrice)
  }

  predicate ValidReturnItem(r: SaleReturnItem)
  {
    r.quantity >= 0 && FitsMoneyColumn(r.unitPrice)
  }

  /** Quantity times unit price: the subtotal of any priced line. */
  function LineSubtotal(quantity: int, unitPrice: Cents): Cents
  {
    quantity * unitPrice
  }

  /** `SaleReturnItem.get_subtotal`. */
  function ReturnSubtotal(r: SaleReturnItem): (c: Cents)
    ensures ValidReturnItem(r) && r.unitPrice >= 0 ==> c >= 0
    ensures r.quantity == 0 ==> c == 0
    ensures r.quantity > 0 ==> (c == 0 <==> r.unitPrice == 0)
    ensures r.quantity > 0 && r.unitPrice > 0 ==> c >= r.unitPrice
  {
    LineSubtotal(r.quantity, r.unitPrice)
  }

  /** Sum of the subtotals of a run of sale lines. */
  function ItemsSubtotal(items: seq<SaleItem>): Cents
  {
    if |items| == 0 then 0
    else ItemsSubtotal(items[..|items| - 1]) + LineSubtotal(items[|items| - 1].quantity, items[|items| - 1].unitPrice)
  }

  /** One line of the shopping cart kept in the web session: a snapshot of the
      product taken when it was first added, plus the quantity. */
  datatype CartLine = CartLine(product: ProductId, name: string, sku: string, price: Cents, quantity: int)

  type CartLines = seq<CartLine>

  /** The in-memory stand-in for the database: every table the core reads or writes. */
  datatype Store = Store(catalog: Catalog, sessions: seq<DrawerSession>, sales: seq<Sale>, items: seq<SaleItem>)

  predicate ValidStore(st: Store)
  {
    && ValidCatalog(st.catalog)
    && (forall i :: 0 <= i < |st.sessions| ==> ValidSession(st.sessions[i]))
    && (forall i :: 0 <= i < |st.items| ==> ValidSaleItem(st.items[i]))
  }
}
