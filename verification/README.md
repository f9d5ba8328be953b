# A verified model of a small Django point-of-sale core

The system is a single-shop point of sale. A cashier opens a cash-drawer session with a starting float, scans products by SKU into a cart held in the web session, and checks the cart out. Checkout is one database transaction: it takes the sold units off the shelf and records a sale with one line per cart line. At closing time the counted cash is compared with what the drawer should hold. A middleware keeps cashiers without an open session away from the till pages. The staff admin shows stock and session statuses, payment labels, money columns, a dashboard and a sales report, and it pastes a "back to the dashboard" button into every admin list page and the admin index.

This project restates that logic in Dafny 4.11, with the database replaced by immutable values, and proves what the views promise.

- `models.dfy` (`Models`): the rows as datatypes. The column constraints are validity predicates: nonnegative stock and quantities, unique SKUs, money that fits a 10-digit, 2-place decimal, and "active iff no end time". Money is integer cents.
- `text.dfy` (`Text`): the Python string operations the core uses: `str.strip`, `startswith`, `in` and `replace`. Splitting at a marker and joining with one are defined here only as proof devices: they describe what `replace` does.
- `sessions.dfy` (`Sessions`): the active-session lookup, opening, closing, and the cash reconciliation.
- `cart.dfy` (`ShoppingCart`): adding by SKU, the screen total, and the cart shape that every sequence of additions preserves.
- `checkout.dfy` (`Checkout`): the all-or-nothing checkout on a store of catalog, sessions, sales and sale lines.
- `middleware.dfy` (`Middleware`): the redirect decision as a pure function.
- `admin.dfy` (`AdminDisplay`): the list-column classifiers, money text and the button injection.
- `reports.dfy` (`Reports`): the dashboard metrics, the date-range report, the stock lists and the top-products figures.

Modelling choices:

- **Identity.** A session's identity is its index in the session table, and a sale's is its index in the sale table.
- **Abstracted inputs.** Times and dates are integers. A form field that is missing or does not parse is `None`.
- **The nonnegative-stock and nonnegative-quantity constraints.** The database enforces both with a CHECK, on product stock and on sale-line quantity (pos/models.py:21 and pos/models.py:100). A decrement step that would break either is modelled as the transaction failing (`ConstraintViolated`), which rolls everything back.
- **Three behaviours of the code that the model keeps as they are:**
  - checkout stores whatever payment value was submitted. The field's two choices (pos/models.py:68-82) are not checked when the sale is created (pos/views.py:175-179);
  - the sales report filters on whole days, with both ends of the range included (pos/views.py:428-430);
  - the low-stock query orders by stock alone (pos/views.py:384), so it leaves the order of ties open. The model takes ties in primary-key order, and every property proved about the list holds whatever the tie order.

## Model

The table lists the properties proved. The definitions they characterise model the cited source lines as well: `Middleware.Gate` (pos/middleware.py:10-38), `Text.ReplaceAll` for `str.replace` (pos/admin.py:307-310), `AdminDisplay.MoneyText` for `f"${x:.2f}"` (pos/admin.py:79), `Sessions.MethodTotal` and `Sessions.SessionTotal` (pos/views.py:261-274), `ShoppingCart.CartTotal` (pos/views.py:49), `Models.LineSubtotal` (pos/admin.py:122-123 and pos/models.py:140-141), and `Reports.RevenueAsWritten` and `Reports.Revenue` (pos/views.py:365-370).

| member | source | states |
|---|---|---|
| Models.ReturnSubtotal | pos/models.py:140-141 | A return line's subtotal is never negative for a valid line with a nonnegative unit price, is zero when nothing was returned, and is zero for a returned line only when the unit price is zero. |
| Text.Strip | pos/views.py:67 | Stripping leaves no whitespace at either end. It yields the empty string exactly when the input is all whitespace, and it keeps the text between the leading and the trailing run of whitespace. |
| Text.StripUnique | pos/views.py:67 | Surrounding a trimmed text with any whitespace and stripping gives that text back. |
| Text.StripIdempotent | pos/views.py:67 | Stripping twice is stripping once. |
| Text.SplitJoin | pos/admin.py:306-311 | Cutting a page at every occurrence of a marker gives pieces free of the marker. Re-joining them with the marker gives the page back, and joining them with any replacement gives the page's `replace`. |
| Text.TrimmedMiddle | pos/views.py:67 | A slice with whitespace on both sides and non-whitespace at both ends is a trimmed middle of the string, which is what stripping keeps. |
| Text.ReplaceAbsent | pos/admin.py:306-311 | Replacing a pattern that does not occur changes nothing. |
| Sessions.ActiveSession | pos/views.py:322-330 | The lookup returns the user's lowest-numbered session without an end time, and none exactly when the user has no such session. |
| Sessions.OpenSession | pos/views.py:218-246 | Opening is refused while the user has an active session. A missing, unparsable or negative float is refused. Otherwise exactly one session is appended: the user's, started now, with no end, that starting balance, no ending balance and empty notes. It becomes the user's active session, and at most one session per user stays open. Valid session rows stay valid when the float fits its column. |
| Sessions.CloseSession | pos/views.py:250-305 | Closing is refused without an active session, or with a missing, unparsable or negative count. Otherwise only that session changes: it gets its end time, counted balance and notes, and keeps its user, start and float. Expected cash is the starting float plus the session's cash sales, the difference is counted minus expected, and its classification is reported. Afterwards the user has no active session, when the user had only one open session, which opening a session maintains. Valid session rows stay valid when the count fits its column. |
| Sessions.Classify | pos/views.py:292-298 | The difference is balanced exactly when zero, a surplus exactly when positive and a shortfall exactly when negative; the amount shown is the absolute difference. |
| Sessions.Summarize | pos/views.py:261-276 | The cash, card and total figures are the session's cash-method, card-method and overall sale totals. Expected cash exceeds the starting float by exactly the cash sales. When every sale of the session uses a declared method, cash plus card is the total. With no sales all figures are zero and expected cash is the float. |
| Sessions.NoSalesNoSessionTotal | pos/views.py:263-264 | A session with no sales has a zero total. |
| Sessions.NoSalesNoTotal | pos/views.py:261-264 | The `or 0` of an empty aggregate: a session with no matching sales totals zero. |
| Sessions.CashPlusCardIsTotal | pos/views.py:261-274 | When a session's sales all use a declared method, its cash total plus its card total is its total sales. |
| Sessions.AppendSale | pos/views.py:175-179 | Recording a sale moves only the matching session's total for the sale's method, by the sale's amount. |
| Sessions.CloseSessionAsWritten | pos/views.py:283-305 | As written, a close that goes through saves the closed session and then reports an invalid amount. A close that is refused changes nothing. |
| Sessions.CloseReportsInvalidAmountAfterClosing | pos/views.py:250-305 | For any nonnegative count, the close as written reports an invalid amount, yet the user no longer has an active session; the corrected close goes through and reports the classified difference. |
| ShoppingCart.FindBySku | pos/views.py:73 | The lookup finds a product carrying the SKU, and finds none exactly when no product carries it. |
| ShoppingCart.SkuLookupFindsOwner | pos/models.py:18 | Because SKUs are unique, looking up a product's SKU finds that product. |
| ShoppingCart.LineFor | pos/views.py:89-90 | The search returns the first cart line for the product, and none exactly when the cart has no line for it. |
| ShoppingCart.AddProduct | pos/views.py:63-134 | A SKU that is blank after stripping is refused, and so is an unknown SKU (each exactly in its case). An accepted addition leaves the product with a line whose quantity is within stock. Additions keep the cart at one line per product and at least one unit per line. |
| ShoppingCart.AddRefusesEmptyShelf | pos/views.py:76-79 | A product with no stock is refused and the cart is kept. |
| ShoppingCart.AddMergesExistingLine | pos/views.py:89-98 | A product that already has a line is accepted exactly when one more unit stays within stock. On acceptance that line grows by one unit and no other line changes; on refusal the available stock is reported. |
| ShoppingCart.AddAppendsNewLine | pos/views.py:100-108 | A product with no line gets one appended: quantity 1, with the product's current name, SKU and price. |
| ShoppingCart.ShownLines | pos/views.py:36-52 | A line is shown exactly when it is in the cart and its product still exists. Every line is shown when every product exists. |
| ShoppingCart.ShownLinesConcat | pos/views.py:38-52 | Filtering two parts of a cart one after the other gives the two filtered parts in the same order, so the kept lines keep their cart order. |
| ShoppingCart.ShownLine | pos/views.py:39-52 | A single line is kept exactly when its product exists. |
| ShoppingCart.CartTotalConcat | pos/views.py:49 | The total of two runs of lines is the sum of their totals. |
| ShoppingCart.ScreenTotal | pos/views.py:36-52 | With every product still present, the screen total is the cart total. |
| ShoppingCart.ScreenTotalAppend | pos/views.py:38-52 | Each further cart line adds its price times its quantity to the screen total when its product exists, and nothing otherwise. So the screen total is the cart total of exactly the kept lines. |
| ShoppingCart.ReplayKeepsCartShape | pos/views.py:85-108 | Every cart built by any sequence of add submissions has at most one line per product and at least one unit per line. |
| Checkout.FirstProblem | pos/views.py:163-170 | Validation finds no problem exactly when every line's product exists with enough stock; otherwise it reports the first failing line. |
| Checkout.Decrement | pos/views.py:182-185 | The loop goes through only when no step takes stock below zero and no quantity is negative. When it goes through, each product's stock drops by the total quantity asked for it and the product set is kept. Stock that was nonnegative stays nonnegative. |
| Checkout.TakenStaysValid | pos/models.py:18-21 | Taking stock off changes neither SKUs nor prices, so a valid catalog stays valid when no stock goes negative. |
| Checkout.DecrementSucceeds | pos/views.py:161-185 | With one line per product and no negative quantity, passing validation means no decrement step goes below zero. |
| Checkout.TakenPerLine | pos/views.py:182-185 | With one line per product, a completed decrement takes each line's quantity off its product and leaves every other product as it was. |
| Checkout.DemandOfOwnLine | pos/views.py:182-184 | With one line per product, the quantity taken off a product is its line's quantity. |
| Checkout.SaleLines | pos/views.py:187-193 | One sale line per cart line, with the cart line's product, quantity and price and the product's name. The lines' subtotals add up to the cart total. |
| Checkout.PaymentChoice | pos/views.py:148 | A missing payment field means cash. A submitted value is kept as it is, so the result is one of the declared methods exactly when the submitted value is. |
| Checkout.Checkout | pos/views.py:144-207 | Checkout fails with no open session, and fails on an empty cart, each exactly in its case. It can hit a constraint only when the cart has duplicate lines or a negative quantity. On success: every line was in stock with a nonnegative quantity, one sale with the cart total and chosen method is appended to the active session, one line per cart line is appended with the line's product, the product's name, and the line's quantity and price, stock drops by exactly the demand, the catalog stays valid and the cart is emptied. |
| Checkout.Commit | pos/views.py:172-196 | Once validation has passed, the transaction fails only when the cart has duplicate lines or a negative quantity. Otherwise it appends one sale at the cart total to the given session, appends one line per cart line with the line's product, the product's name, and the line's quantity and price, takes exactly the demand off the stock, keeps a valid catalog valid and empties the cart. |
| Checkout.CheckoutSucceedsIff | pos/views.py:151-170 | With one line per product and no negative quantity, checkout succeeds exactly when there is an open session and a non-empty cart whose every line is in stock. |
| Checkout.CheckoutStockEffect | pos/views.py:182-185 | Each product in the cart loses exactly its line's quantity, other products are untouched, and no stock goes negative. |
| Checkout.DuplicateLinesHitConstraint | pos/views.py:163-185 | Two lines for a product with one unit each pass validation, but together they break the nonnegative-stock constraint, so the checkout fails as a whole. |
| Checkout.NegativeQuantityHitsConstraint | pos/models.py:100 | A line with a negative quantity passes the stock validation, but the sale line would break the quantity constraint, so the checkout fails as a whole. |
| Checkout.CheckoutKeepsStoreValid | pos/views.py:172-193 | A completed checkout keeps the store valid: unique SKUs, nonnegative stock, session rows, and sale lines with nonnegative quantities and column-sized prices, given cart prices that fit the column. |
| Checkout.AppendedLinesValid | pos/models.py:100-101 | Sale lines appended from a cart with nonnegative quantities and column-sized prices keep every sale line valid. |
| Checkout.DoubleSubmitSellsOnce | pos/views.py:155-196 | After a successful checkout, submitting again is refused as an empty cart. |
| Checkout.CashCheckoutRaisesExpectedCash | pos/views.py:261-276 | A cash checkout raises the session's cash sales, and so the expected closing cash, by the sale total. |
| Checkout.ScreenTotalIsCharged | pos/views.py:172-176 | The sale total is the total the main screen showed. |
| Checkout.ScannedCartKeepsStockNonnegative | pos/views.py:182-185 | A cart built through the add form never trips the stock constraint at checkout. |
| Middleware.GateRedirectsIff | pos/middleware.py:10-38 | A request is redirected exactly when an authenticated non-staff, non-superuser asks for a `/pos/` path other than session opening and closing without an open session. |
| Middleware.ExclusionsOutsidePosAreInert | pos/middleware.py:16-26 | The `/logout/`, `/accounts/` and `/admin/` exclusions never change a decision. |
| Middleware.AnonymousPassThrough | pos/middleware.py:12 | Users who are not logged in are never redirected. |
| Middleware.StaffPassThrough | pos/middleware.py:12-13 | Staff and superusers are never redirected. |
| Middleware.OutsidePosPassThrough | pos/middleware.py:25 | Paths outside `/pos/` are never redirected. |
| Middleware.SessionPagesReachable | pos/middleware.py:16-26 | The session opening and closing pages pass through without an open session. |
| Middleware.GateFollowsSessionLifecycle | pos/middleware.py:28-36 | After a successful open the cashier passes; after a successful close they are redirected to the opening page. |
| AdminDisplay.StockStatusOf | pos/admin.py:54-60 | The status is out of stock exactly at zero and in stock exactly from ten up; otherwise it is running low, and the shown count is the stock. |
| AdminDisplay.StockStatusPartition | pos/admin.py:54-60 | On nonnegative stock the statuses split the range into 0, 1..9 and 10 and above. |
| AdminDisplay.SessionStatusOf | pos/admin.py:83-87 | A session is shown as active exactly when it has no end time. |
| AdminDisplay.StatusFollowsLifecycle | pos/admin.py:83-87 | A session just opened shows as active, and one just closed shows as closed. |
| AdminDisplay.PaymentLabel | pos/admin.py:109-111 | Cash and card get their labels, and a value is shown unchanged exactly when it is not one of the two methods. |
| AdminDisplay.PaymentLabelsDistinct | pos/admin.py:110 | The two labels differ. |
| AdminDisplay.NumeralRoundTrip | pos/admin.py:79 | The decimal numeral of a number reads back as that number. |
| AdminDisplay.MoneyTextRoundTrip | pos/admin.py:79 | The `$<amount>` text with two decimals reads back as the amount, so different amounts are shown differently. |
| AdminDisplay.ZeroMoneyText | pos/admin.py:75-79 | No cash sales are shown as `$0.00`. |
| AdminDisplay.SaleItemSubtotalText | pos/admin.py:122-123 | The shown subtotal reads back as quantity times unit price. |
| AdminDisplay.ReturnItemSubtotalText | pos/admin.py:452-453 | The shown return subtotal reads back as quantity times unit price. |
| AdminDisplay.CashSalesText | pos/admin.py:75-79 | The shown cash sales read back as the sum of the session's cash sales, and are `$0.00` for a session without sales. |
| AdminDisplay.InjectButton | pos/admin.py:306-311 | A page without the content-main element is returned unchanged. |
| AdminDisplay.InjectIsReplace | pos/admin.py:306-311 | The id check before the replacement never changes the outcome: injection is the plain replacement. |
| AdminDisplay.InjectButtonSplices | pos/admin.py:306-311 | The injected page is the original cut at its content-main elements and glued back with the button before each. Gluing with the bare element instead recovers the original, so removing the buttons gives the page back. |
| AdminDisplay.InjectButtonGrowth | pos/admin.py:306-311 | The page grows by exactly one button per content-main element. |
| Reports.DisjointFiltersAdd | pos/views.py:338-363 | Sales totals and counts over two filters that never select the same sale add up to those over their union. |
| Reports.SalesReport | pos/views.py:425-442 | A report with no transactions has a zero total, and an empty date range reports nothing. |
| Reports.SalesReportAppend | pos/views.py:428-442 | Recording a further sale changes the report only when its day lies in the range, and then adds its amount and one transaction. |
| Reports.ReportRangesAdd | pos/views.py:428-442 | The report over a range is the sum of the reports over two adjacent sub-ranges, in total and in count. |
| Reports.ReportRequest | pos/views.py:421-445 | Without both dates the report shows zero totals; with both it is the report over that inclusive range. |
| Reports.AverageTicket | pos/views.py:344 | The average times the count is the total, and the average is zero when there are no sales. |
| Reports.AverageWithinDay | pos/views.py:338-344 | The average ticket lies between the smallest and the largest sale of the day. |
| Reports.OpenSessionCount | pos/views.py:345 | The count is the number of positions holding a session with no end time, so it is zero exactly when no session is open. |
| Reports.DashboardFor | pos/views.py:338-363 | Today's sales and transactions are the one-day report for today. The open-session figure is the number of sessions with no end time. The week's sales are the sales from seven days back onward. The cash and card figures are today's totals for each method. The average times the day's count is the day's sales, and with no sales today both are zero. |
| Reports.CashAndCardSplitToday | pos/views.py:338-363 | When today's sales all use a declared method, today's cash and card figures add up to today's sales. |
| Reports.TodayWithinWeek | pos/views.py:338-352 | With no negative sale, today's sales never exceed the week's. |
| Reports.Select | pos/views.py:384-385 | Filtering keeps exactly the rows that pass, drawn from the input. |
| Reports.SortByStock | pos/views.py:384 | `order_by('stock')` is a permutation of its input, ascending by stock. |
| Reports.InsertByStock | pos/views.py:384 | Inserting a product into a run sorted by stock keeps it sorted and adds exactly that product. |
| Reports.FirstFive | pos/views.py:384-385 | The `[:5]` slice is the first five rows, or all of them when there are fewer. |
| Reports.LowStockList | pos/views.py:384 | The low-stock list has at most five products, all with stock strictly between 0 and 10, ascending by stock, each drawn from the product table. |
| Reports.LowStockShowsTheLowest | pos/views.py:384 | A low-stock product missing from the list was crowded out: the list is full and every listed product has no more stock. |
| Reports.CrowdedOut | pos/views.py:384-385 | A row of a stock-sorted run that is not among its first five is preceded by five rows with no more stock. |
| Reports.OutOfStockList | pos/views.py:385 | The out-of-stock list has at most five products, all with zero stock, from the table. A zero-stock product is missing only when the list is full. |
| Reports.StockListsDisjoint | pos/views.py:384-385 | No product appears on both stock lists. |
| Reports.RevenueAsWrittenIgnoresQuantity | pos/views.py:365-370 | On one line of three units at 1.50, the top-products query shows 1.50 where 4.50 was taken. |
| Reports.RevenueIsUnitsTimesPrice | pos/views.py:365-370 | The corrected revenue of a product sold at one price is that price times the units sold. |
| Reports.SingleUnitLinesAgree | pos/views.py:365-370 | The query's figure is the revenue when every line sold a single unit. |
| Reports.ProductSalesFor | pos/views.py:365-370 | The corrected top-products row. It is zero for a name that was never sold, and when every line for the name has the same unit price its revenue is that price times the units sold. |

## Left out

- Floating point. The views convert prices and balances to Python floats (pos/views.py:46, 172, 232, 283). The model counts integer cents throughout, so float rounding, `nan` and infinities are not modelled.
- Reports.AverageTicket: the dashboard divides a decimal by an integer at 28 significant digits. The model divides exactly.
- Locking and the transaction machinery (`select_for_update`, `transaction.atomic`). Checkout is a pure function that returns either an error, with nothing changed, or the new store. Concurrent requests are not modelled.
- Checkout.Checkout: a sale total that overflows the 10-digit column would abort the transaction in the database. The model records the unbounded total. Cart prices are not checked against the column either, because they were copied from valid product rows when the cart was built.
- Sessions.OpenSession: a float too large for its 10-digit column makes the database refuse the row. The model stores it, and keeps the session table valid only for a float that fits.
- Sessions.CloseSession: the same holds for a counted balance too large for its column.
- HTML rendering, flash messages, redirects, HTTP status codes, templates, CSRF and login decorators, logout, and session persistence. Only the cart data and the outcome of each request are kept.
- AdminDisplay.InjectButton: the three wrappers paste three different button snippets. Those are HTML literals, so the button is a parameter.
- Admin registration, `format_html`, the monkey-patching of the admin site, and the exception handlers around the injection. Only the string replacement inside is modelled. The `format_html` markup of the status columns is reduced to the status value it shows.
- Timezones, `created_at` dates and the `strptime` parsing in the reports. A date is a day number, and a failed parse is `None`.
- The listings on the dashboard and report pages (today's sessions, recent sales, the report's sale list and its order). They only order and slice rows.
- Reports.ProductSalesFor: the grouping by product name, and the order and top-five slice of the top-products table, are left to the database. The model states the figures of one row.
- Customer data, returns processing, search and export views, and the URL tables. They are not part of the modelled core.
- The GET branches of the views, which only render forms.

## Findings

| source | as written | input that shows it | evidently intended | confidence | as-written member | corrected member |
|---|---|---|---|---|---|---|
| pos/views.py:365-370, pos/admin.py:181-186 | `total_revenue=Sum('unit_price')` adds one unit price per sale line, whatever the quantity | one sale line of 3 units at 1.50: revenue shown 1.50, money taken 4.50 | the sum of quantity × unit price over the lines | high, not executed | Reports.RevenueAsWritten (counterexample in Reports.RevenueAsWrittenIgnoresQuantity) | Reports.Revenue (proved in Reports.RevenueIsUnitsTimesPrice; used by Reports.ProductSalesFor) |
| pos/views.py:283-305 | the session is saved closed, then `ending_balance - expected_cash` subtracts a decimal from a float. Python raises TypeError, and the handler for unparsable amounts catches it | any close of an open session with a nonnegative count: the session is closed, but the page says the amount is invalid and shows no reconciliation | report the surplus or shortfall of the close that went through | medium, not executed | Sessions.CloseSessionAsWritten (exhibited in Sessions.CloseReportsInvalidAmountAfterClosing) | Sessions.CloseSession (reports `Classify(difference)`) |
