/** The sales figures of the staff dashboard and the sales report
    (`admin_dashboard` and `sales_report_view` in pos/views.py, and their twins
    `pos_dashboard_view` and `sales_report_admin_view` in pos/admin.py). Dates
    are day numbers; the date arithmetic itself is the framework's. */
module Reports {
  import opened Models
  import AdminDisplay

  // ---- Filtered sums over the sale table ----

  /** `Sum('total_amount') or 0` over the sales `keep` selects. */
  function TotalWhere(sales: seq<Sale>, keep: Sale -> bool): Cents
  {
    if |sales| == 0 then 0
    else TotalWhere(sales[..|sales| - 1], keep) + (if keep(sales[|sales| - 1]) then sales[|sales| - 1].total else 0)
  }

  /** `.count()` over the sales `keep` selects. */
  function CountWhere(sales: seq<Sale>, keep: Sale -> bool): (n: nat)
    ensures n <= |sales|
  {
    if |sales| == 0 then 0
    else CountWhere(sales[..|sales| - 1], keep) + (if keep(sales[|sales| - 1]) then 1 else 0)
  }

  /** Two filters that never select the same sale add up to their union. */
  lemma {:induction false} DisjointFiltersAdd(sales: seq<Sale>, a: Sale -> bool, b: Sale -> bool, both: Sale -> bool)
    requires forall i :: 0 <= i < |sales| ==> !(a(sales[i]) && b(sales[i]))
    requires forall i :: 0 <= i < |sales| ==> (both(sales[i]) <==> a(sales[i]) || b(sales[i]))
    ensures TotalWhere(sales, both) == TotalWhere(sales, a) + TotalWhere(sales, b)
    ensures CountWhere(sales, both) == CountWhere(sales, a) + CountWhere(sales, b)
  {
    if |sales| > 0 {
      DisjointFiltersAdd(sales[..|sales| - 1], a, b, both);
    }
  }

  /** If every selected sale lies in [lo, hi], the total lies between count * lo and count * hi. */
  lemma {:induction false} TotalBounds(sales: seq<Sale>, keep: Sale -> bool, lo: Cents, hi: Cents)
    requires forall i :: 0 <= i < |sales| && keep(sales[i]) ==> lo <= sales[i].total <= hi
    ensures CountWhere(sales, keep) * lo <= TotalWhere(sales, keep) <= CountWhere(sales, keep) * hi
  {
    if |sales| > 0 {
      TotalBounds(sales[..|sales| - 1], keep, lo, hi);
      var n := CountWhere(sales[..|sales| - 1], keep);
      assert (n + 1) * lo == n * lo + lo && (n + 1) * hi == n * hi + hi;
    }
  }

  // ---- Sales report over a date range ----

  /** `created_at__date__range=[start, end]`: both ends included. */
  function InRange(start: int, end: int): Sale -> bool
  {
    (s: Sale) => start <= s.day <= end
  }

  datatype Report = Report(total: Cents, transactions: nat)

  /** The report's totals for [start, end] (zero and zero when nothing matches). */
  function SalesReport(sales: seq<Sale>, start: int, end: int): (r: Report)
    ensures r.transactions == 0 ==> r.total == 0
    ensures start > end ==> r == Report(0, 0)
  {
    EmptyFilter(sales, InRange(start, end));
    Report(TotalWhere(sales, InRange(start, end)), CountWhere(sales, InRange(start, end)))
  }

  /** Recording one more sale changes the report only when the sale falls in
      the range, and then by exactly that sale's amount and one transaction. */
  lemma SalesReportAppend(sales: seq<Sale>, s: Sale, start: int, end: int)
    ensures var r := SalesReport(sales, start, end);
            SalesReport(sales + [s], start, end)
            == if start <= s.day <= end then Report(r.total + s.total, r.transactions + 1) else r
  {
    assert (sales + [s])[..|sales + [s]| - 1] == sales;
  }

  /** A filter that selects nothing sums to zero, and one with zero count selects nothing. */
  lemma {:induction false} EmptyFilter(sales: seq<Sale>, keep: Sale -> bool)
    ensures CountWhere(sales, keep) == 0 ==> TotalWhere(sales, keep) == 0
    ensures (forall i :: 0 <= i < |sales| ==> !keep(sales[i])) ==> CountWhere(sales, keep) == 0
  {
    if |sales| > 0 {
      EmptyFilter(sales[..|sales| - 1], keep);
    }
  }

  /** Reports over adjacent ranges add up to the report over their union. */
  lemma ReportRangesAdd(sales: seq<Sale>, start: int, mid: int, end: int)
    requires start <= mid < end
    ensures SalesReport(sales, start, end).total == SalesReport(sales, start, mid).total + SalesReport(sales, mid + 1, end).total
    ensures SalesReport(sales, start, end).transactions
         == SalesReport(sales, start, mid).transactions + SalesReport(sales, mid + 1, end).transactions
  {
    DisjointFiltersAdd(sales, InRange(start, mid), InRange(mid + 1, end), InRange(start, end));
  }

  // ---- Dashboard ----

  /** `today_sales / today_transactions if today_transactions > 0 else 0`, exactly. */
  function AverageTicket(total: Cents, count: nat): (avg: real)
    ensures count > 0 ==> avg * (count as real) == total as real
    ensures count == 0 ==> avg == 0.0
  {
    if count > 0 then (total as real) / (count as real) else 0.0
  }

  /** The average ticket lies between the smallest and the largest sale of the day. */
  lemma AverageWithinDay(sales: seq<Sale>, today: int, lo: Cents, hi: Cents)
    requires forall i :: 0 <= i < |sales| && sales[i].day == today ==> lo <= sales[i].total <= hi
    requires SalesReport(sales, today, today).transactions > 0
    ensures var r := SalesReport(sales, today, today);
            lo as real <= AverageTicket(r.total, r.transactions) <= hi as real
  {
    var r := SalesReport(sales, today, today);
    TotalBounds(sales, InRange(today, today), lo, hi);
    QuotientBetween(r.total, r.transactions, lo, hi);
  }

  /** Dividing a total that lies between n * lo and n * hi by n lands between lo and hi. */
  lemma QuotientBetween(total: int, n: nat, lo: int, hi: int)
    requires n > 0 && n * lo <= total <= n * hi
    ensures lo as real <= AverageTicket(total, n) <= hi as real
  {
    var m := n as real;
    var q := (total as real) / m;
    assert q * m == total as real;
    assert (q - lo as real) * m == (total - n * lo) as real;
    assert (hi as real - q) * m == (n * hi - total) as real;
  }

  datatype Dashboard = Dashboard(
    todaySales: Cents, todayTransactions: nat, averageTicket: real, openSessions: nat,
    weekSales: Cents, cashToday: Cents, cardToday: Cents)

  function PaidWith(day: int, payment: string): Sale -> bool
  {
    (s: Sale) => s.day == day && s.paymentMethod == payment
  }

  /** `created_at__date__gte=week_ago`, with week_ago seven days before today. */
  function SinceDay(first: int): Sale -> bool
  {
    (s: Sale) => s.day >= first
  }

  /** Number of sessions still open, across all users. */
  function OpenSessionCount(sessions: seq<DrawerSession>): (n: nat)
    ensures n == |OpenPositions(sessions)|
    ensures n <= |sessions|
    ensures n == 0 <==> forall i :: 0 <= i < |sessions| ==> !sessions[i].Active()
  {
    if |sessions| == 0 then
      assert OpenPositions(sessions) == {};
      0
    else
      var last := |sessions| - 1;
      var front := sessions[..last];
      var n := OpenSessionCount(front) + (if sessions[last].Active() then 1 else 0);
      assert forall i :: 0 <= i < last ==> front[i] == sessions[i];
      OpenPositionsSplit(sessions);
      n
  }

  /** The positions of the sessions that have no end yet. */
  function OpenPositions(sessions: seq<DrawerSession>): set<int>
  {
    set i | 0 <= i < |sessions| && sessions[i].Active()
  }

  /** The open positions of a table are those of all but its last row, plus
      the last row's position when that session is open. */
  lemma OpenPositionsSplit(sessions: seq<DrawerSession>)
    requires |sessions| > 0
    ensures var last := |sessions| - 1;
            OpenPositions(sessions)
            == OpenPositions(sessions[..last]) + (if sessions[last].Active() then {last} else {})
    ensures |sessions| - 1 !in OpenPositions(sessions[..|sessions| - 1])
  {
    var last := |sessions| - 1;
    assert forall i :: 0 <= i < last ==> sessions[..last][i] == sessions[i];
  }

  /** The dashboard's headline metrics for `today`. */
  function DashboardFor(sales: seq<Sale>, sessions: seq<DrawerSession>, today: int): (d: Dashboard)
    ensures d.todayTransactions > 0 ==> d.averageTicket * (d.todayTransactions as real) == d.todaySales as real
    ensures d.todayTransactions == 0 ==> d.todaySales == 0 && d.averageTicket == 0.0
    ensures d.todaySales == SalesReport(sales, today, today).total
    ensures d.todayTransactions == SalesReport(sales, today, today).transactions
    ensures d.openSessions == OpenSessionCount(sessions) == |OpenPositions(sessions)|
    ensures d.weekSales == TotalWhere(sales, SinceDay(today - 7))
    ensures d.cashToday == TotalWhere(sales, PaidWith(today, Cash)) && d.cardToday == TotalWhere(sales, PaidWith(today, Card))
  {
    var day := SalesReport(sales, today, today);
    Dashboard(day.total, day.transactions, AverageTicket(day.total, day.transactions),
              OpenSessionCount(sessions), TotalWhere(sales, SinceDay(today - 7)),
              TotalWhere(sales, PaidWith(today, Cash)), TotalWhere(sales, PaidWith(today, Card)))
  }

  /** When the day's sales all used a declared payment method, the cash and card
      figures split the day's total. */
  lemma CashAndCardSplitToday(sales: seq<Sale>, sessions: seq<DrawerSession>, today: int)
    requires forall i :: 0 <= i < |sales| && sales[i].day == today ==> DeclaredPaymentMethod(sales[i].paymentMethod)
    ensures var d := DashboardFor(sales, sessions, today); d.cashToday + d.cardToday == d.todaySales
  {
    DisjointFiltersAdd(sales, PaidWith(today, Cash), PaidWith(today, Card), InRange(today, today));
  }

  /** A filter over sales that are never negative never sums below zero. */
  lemma {:induction false} NonnegativeTotal(sales: seq<Sale>, keep: Sale -> bool)
    requires forall i :: 0 <= i < |sales| ==> sales[i].total >= 0
    ensures TotalWhere(sales, keep) >= 0
  {
    if |sales| > 0 {
      NonnegativeTotal(sales[..|sales| - 1], keep);
    }
  }

  /** Today's sales are part of the week's, as long as no sale is negative. */
  lemma TodayWithinWeek(sales: seq<Sale>, sessions: seq<DrawerSession>, today: int)
    requires forall i :: 0 <= i < |sales| ==> sales[i].total >= 0
    ensures var d := DashboardFor(sales, sessions, today); d.todaySales <= d.weekSales
  {
    var older := (s: Sale) => today - 7 <= s.day && s.day != today;
    DisjointFiltersAdd(sales, InRange(today, today), older, SinceDay(today - 7));
    NonnegativeTotal(sales, older);
  }

  // ---- Sales report request ----

  /** `sales_report_view` on a POST: `start` and `end` are the submitted dates,
      `None` when a field is missing or does not parse. Without both dates the
      page shows zero totals. */
  function ReportRequest(sales: seq<Sale>, start: Option<int>, end: Option<int>): (r: Report)
    ensures start.None? || end.None? ==> r == Report(0, 0)
    ensures start.Some? && end.Some? ==> r == SalesReport(sales, start.value, end.value)
    ensures r.transactions == 0 ==> r.total == 0
  {
    if start.Some? && end.Some? then SalesReport(sales, start.value, end.value) else Report(0, 0)
  }

  // ---- Stock lists ----

  /** The rows of `xs` that `keep` selects, in their original order. */
  function Select<T>(xs: seq<T>, keep: T -> bool): (r: seq<T>)
    ensures |r| <= |xs|
    ensures forall i :: 0 <= i < |r| ==> keep(r[i])
    ensures multiset(r) <= multiset(xs)
    ensures forall x :: x in xs && keep(x) ==> x in r
  {
    if |xs| == 0 then []
    else
      var rest := Select(xs[..|xs| - 1], keep);
      var last := xs[|xs| - 1];
      assert xs == xs[..|xs| - 1] + [last];
      if keep(last) then rest + [last] else rest
  }

  /** Ascending by stock. */
  predicate SortedByStock(ps: seq<Product>)
  {
    forall i, j :: 0 <= i < j < |ps| ==> ps[i].stock <= ps[j].stock
  }

  /** Inserts `p` before the first row with at least its stock. */
  function InsertByStock(p: Product, sorted: seq<Product>): (r: seq<Product>)
    requires SortedByStock(sorted)
    ensures SortedByStock(r)
    ensures multiset(r) == multiset(sorted) + multiset{p}
    ensures |r| == |sorted| + 1
    ensures r[0] == p || (|sorted| > 0 && r[0] == sorted[0])
  {
    if |sorted| == 0 then [p]
    else if p.stock <= sorted[0].stock then [p] + sorted
    else
      var rest := InsertByStock(p, sorted[1..]);
      assert sorted == [sorted[0]] + sorted[1..];
      ConsSorted(sorted[0], rest);
      [sorted[0]] + rest
  }

  /** A row no heavier than the head of a sorted run can go in front of it. */
  lemma ConsSorted(x: Product, rest: seq<Product>)
    requires SortedByStock(rest) && |rest| > 0 && x.stock <= rest[0].stock
    ensures SortedByStock([x] + rest)
  {
    var r := [x] + rest;
    forall i, j | 0 <= i < j < |r| ensures r[i].stock <= r[j].stock {
      if i == 0 {
        assert r[j] == rest[j - 1];
      } else {
        assert r[i] == rest[i - 1] && r[j] == rest[j - 1];
      }
    }
  }

  /** `order_by('stock')`: a permutation of the rows, ascending by stock. */
  function SortByStock(ps: seq<Product>): (r: seq<Product>)
    ensures SortedByStock(r)
    ensures multiset(r) == multiset(ps)
  {
    if |ps| == 0 then []
    else
      assert ps == [ps[0]] + ps[1..];
      InsertByStock(ps[0], SortByStock(ps[1..]))
  }

  /** The `[:5]` slice. */
  const ListLimit: nat := 5

  function FirstFive<T>(xs: seq<T>): (r: seq<T>)
    ensures |r| <= ListLimit
    ensures |xs| <= ListLimit ==> r == xs
    ensures |xs| > ListLimit ==> |r| == ListLimit && r == xs[..ListLimit]
    ensures multiset(r) <= multiset(xs)
  {
    if |xs| <= ListLimit then xs
    else
      assert xs == xs[..ListLimit] + xs[ListLimit..];
      xs[..ListLimit]
  }

  function IsLowStock(p: Product): bool
  {
    0 < p.stock < AdminDisplay.LowStockThreshold
  }

  function IsOutOfStock(p: Product): bool
  {
    p.stock == 0
  }

  /** The `stock__gt=0, stock__lt=10` filter, in table order. */
  function LowStockRows(rows: seq<Product>): (low: seq<Product>)
    ensures forall i :: 0 <= i < |low| ==> 0 < low[i].stock < AdminDisplay.LowStockThreshold
    ensures multiset(low) <= multiset(rows)
    ensures forall p :: p in rows && 0 < p.stock < AdminDisplay.LowStockThreshold ==> p in low
  {
    var low := Select(rows, IsLowStock);
    assert forall i :: 0 <= i < |low| ==> IsLowStock(low[i]);
    low
  }

  /** The filtered rows, lowest stock first. */
  function SortedLowStock(rows: seq<Product>): (sorted: seq<Product>)
    ensures SortedByStock(sorted)
    ensures multiset(sorted) == multiset(LowStockRows(rows))
    ensures forall i :: 0 <= i < |sorted| ==> 0 < sorted[i].stock < AdminDisplay.LowStockThreshold
  {
    var sorted := SortByStock(LowStockRows(rows));
    AllLowStock(LowStockRows(rows), sorted);
    sorted
  }

  /** `low_stock_products`: products with stock strictly between 0 and the
      low-stock threshold, lowest stock first, at most five. `rows` is the
      product table in primary-key order. */
  function LowStockList(rows: seq<Product>): (r: seq<Product>)
    ensures |r| <= ListLimit
    ensures forall i :: 0 <= i < |r| ==> 0 < r[i].stock < AdminDisplay.LowStockThreshold
    ensures SortedByStock(r)
    ensures multiset(r) <= multiset(rows)
  {
    var sorted := SortedLowStock(rows);
    var r := FirstFive(sorted);
    assert r == sorted[..|r|];
    PrefixSorted(sorted, |r|);
    assert forall i :: 0 <= i < |r| ==> r[i] == sorted[i];
    assert multiset(r) <= multiset(rows) by {
      assert multiset(r) <= multiset(sorted);
      assert multiset(sorted) <= multiset(rows);
    }
    r
  }

  /** A prefix of a sorted run is sorted. */
  lemma PrefixSorted(ps: seq<Product>, n: nat)
    requires SortedByStock(ps) && n <= |ps|
    ensures SortedByStock(ps[..n])
  {
    var q := ps[..n];
    forall i, j | 0 <= i < j < |q| ensures q[i].stock <= q[j].stock {
      assert q[i] == ps[i] && q[j] == ps[j];
    }
  }

  /** Any rearrangement of low-stock rows holds only low-stock rows. */
  lemma AllLowStock(low: seq<Product>, ps: seq<Product>)
    requires forall i :: 0 <= i < |low| ==> 0 < low[i].stock < AdminDisplay.LowStockThreshold
    requires multiset(ps) == multiset(low)
    ensures forall i :: 0 <= i < |ps| ==> 0 < ps[i].stock < AdminDisplay.LowStockThreshold
  {
    forall i | 0 <= i < |ps| ensures 0 < ps[i].stock < AdminDisplay.LowStockThreshold {
      assert ps[i] in multiset(low);
    }
  }

  /** A low-stock product left off the list was crowded out: the list is full
      and every product on it has no more stock than the one left off. */
  lemma LowStockShowsTheLowest(rows: seq<Product>, p: Product)
    requires p in rows && 0 < p.stock < AdminDisplay.LowStockThreshold
    requires p !in LowStockList(rows)
    ensures |LowStockList(rows)| == ListLimit
    ensures forall i :: 0 <= i < ListLimit ==> LowStockList(rows)[i].stock <= p.stock
  {
    var sorted := SortedLowStock(rows);
    assert p in sorted by {
      assert p in LowStockRows(rows);
      assert p in multiset(sorted);
    }
    CrowdedOut(sorted, p);
  }

  /** A row of a sorted run that misses its first five was beaten by all five. */
  lemma CrowdedOut(sorted: seq<Product>, p: Product)
    requires SortedByStock(sorted) && p in sorted && p !in FirstFive(sorted)
    ensures |FirstFive(sorted)| == ListLimit
    ensures forall i :: 0 <= i < ListLimit ==> FirstFive(sorted)[i].stock <= p.stock
  {
    var j :| 0 <= j < |sorted| && sorted[j] == p;
    var r := FirstFive(sorted);
    assert forall i :: 0 <= i < |r| ==> r[i] == sorted[i];
    assert j >= |r|;
  }

  /** `out_of_stock_products`: the first five products whose stock is zero. */
  function OutOfStockList(rows: seq<Product>): (r: seq<Product>)
    ensures |r| <= ListLimit
    ensures forall i :: 0 <= i < |r| ==> r[i].stock == 0
    ensures multiset(r) <= multiset(rows)
    ensures forall p :: p in rows && p.stock == 0 && p !in r ==> |r| == ListLimit
  {
    FirstFive(Select(rows, IsOutOfStock))
  }

  /** The two stock lists never share a product. */
  lemma StockListsDisjoint(rows: seq<Product>)
    ensures forall p :: p in LowStockList(rows) ==> p !in OutOfStockList(rows)
  {
  }

  // ---- Top products ----

  /** Units sold under `name`: `Sum('quantity')` in the top-products query. */
  function UnitsSold(items: seq<SaleItem>, name: string): int
  {
    if |items| == 0 then 0
    else UnitsSold(items[..|items| - 1], name) + (if items[|items| - 1].productName == name then items[|items| - 1].quantity else 0)
  }

  /** `total_revenue` as the query computes it: `Sum('unit_price')`, one unit
      price per line whatever the quantity. */
  function RevenueAsWritten(items: seq<SaleItem>, name: string): Cents
  {
    if |items| == 0 then 0
    else RevenueAsWritten(items[..|items| - 1], name) + (if items[|items| - 1].productName == name then items[|items| - 1].unitPrice else 0)
  }

  /** Revenue as the figure is meant: the sum of the line subtotals. */
  function Revenue(items: seq<SaleItem>, name: string): Cents
  {
    if |items| == 0 then 0
    else Revenue(items[..|items| - 1], name)
         + (if items[|items| - 1].productName == name then LineSubtotal(items[|items| - 1].quantity, items[|items| - 1].unitPrice) else 0)
  }

  /** One line selling three units at 1.50 already shows the query's figure a
      third of the money taken. */
  lemma RevenueAsWrittenIgnoresQuantity()
    ensures var items := [SaleItem(0, 0, "Cafe", 3, 150)];
            RevenueAsWritten(items, "Cafe") == 150 && Revenue(items, "Cafe") == 450
            && Revenue(items, "Cafe") == UnitsSold(items, "Cafe") * 150
  {
    var items := [SaleItem(0, 0, "Cafe", 3, 150)];
    assert items[..0] == [];
  }

  /** When every line for `name` was sold at the same unit price, the revenue
      is that price times the units sold. */
  lemma {:induction false} RevenueIsUnitsTimesPrice(items: seq<SaleItem>, name: string, price: Cents)
    requires forall i :: 0 <= i < |items| && items[i].productName == name ==> items[i].unitPrice == price
    ensures Revenue(items, name) == UnitsSold(items, name) * price
  {
    if |items| > 0 {
      RevenueIsUnitsTimesPrice(items[..|items| - 1], name, price);
      var last := items[|items| - 1];
      if last.productName == name {
        assert (UnitsSold(items[..|items| - 1], name) + last.quantity) * price
            == UnitsSold(items[..|items| - 1], name) * price + last.quantity * price;
      }
    }
  }

  /** When every line for `name` sold a single unit, the query's figure is the revenue. */
  lemma {:induction false} SingleUnitLinesAgree(items: seq<SaleItem>, name: string)
    requires forall i :: 0 <= i < |items| && items[i].productName == name ==> items[i].quantity == 1
    ensures RevenueAsWritten(items, name) == Revenue(items, name)
  {
    if |items| > 0 {
      SingleUnitLinesAgree(items[..|items| - 1], name);
    }
  }

  /** One row of the top-products table. */
  datatype ProductSales = ProductSales(name: string, totalSold: int, totalRevenue: Cents)

  function ProductSalesFor(items: seq<SaleItem>, name: string): (row: ProductSales)
    ensures row.name == name
    ensures (forall i :: 0 <= i < |items| ==> items[i].productName != name) ==> row.totalSold == 0 && row.totalRevenue == 0
    ensures forall j :: 0 <= j < |items| && items[j].productName == name
              && (forall i :: 0 <= i < |items| && items[i].productName == name ==> items[i].unitPrice == items[j].unitPrice)
              ==> row.totalRevenue == row.totalSold * items[j].unitPrice
  {
    NoLinesNoSales(items, name);
    OnePriceRevenue(items, name);
    ProductSales(name, UnitsSold(items, name), Revenue(items, name))
  }

  /** Revenue is units times price whenever some line's price is the price of
      every line sold under `name`. */
  lemma OnePriceRevenue(items: seq<SaleItem>, name: string)
    ensures forall j :: 0 <= j < |items| && items[j].productName == name
              && (forall i :: 0 <= i < |items| && items[i].productName == name ==> items[i].unitPrice == items[j].unitPrice)
              ==> Revenue(items, name) == UnitsSold(items, name) * items[j].unitPrice
  {
    forall j | 0 <= j < |items| && items[j].productName == name
               && (forall i :: 0 <= i < |items| && items[i].productName == name ==> items[i].unitPrice == items[j].unitPrice)
      ensures Revenue(items, name) == UnitsSold(items, name) * items[j].unitPrice
    {
      RevenueIsUnitsTimesPrice(items, name, items[j].unitPrice);
    }
  }

  lemma {:induction false} NoLinesNoSales(items: seq<SaleItem>, name: string)
    ensures (forall i :: 0 <= i < |items| ==> items[i].productName != name) ==> UnitsSold(items, name) == 0 && Revenue(items, name) == 0
  {
    if |items| > 0 {
      NoLinesNoSales(items[..|items| - 1], name);
    }
  }
}
