/** The display logic of pos/admin.py: the list-column classifiers and labels,
    the money strings the admin shows, and the button inserted into rendered
    admin pages. */
module AdminDisplay {
  import opened Models
  import opened Text
  import Sessions

  /** Below this many units a product counts as running low (also the dashboard's cut-off). */
  const LowStockThreshold: int := 10

  datatype StockStatus = OutOfStock | RunningLow(units: int) | InStock(units: int)

  /** `ProductAdmin.get_stock_status`; the add-product row of the main screen uses the same thresholds. */
  function StockStatusOf(stock: int): (s: StockStatus)
    ensures s.OutOfStock? <==> stock == 0
    ensures s.InStock? <==> stock >= LowStockThreshold
    ensures !s.OutOfStock? ==> s.units == stock
  {
    if stock == 0 then OutOfStock
    else if stock < LowStockThreshold then RunningLow(stock)
    else InStock(stock)
  }

  /** On nonnegative stock the three statuses split the range at 0 and at 10. */
  lemma StockStatusPartition(stock: int)
    requires stock >= 0
    ensures StockStatusOf(stock).RunningLow? <==> 1 <= stock <= 9
    ensures StockStatusOf(stock).InStock? <==> stock >= 10
    ensures StockStatusOf(stock).OutOfStock? <==> stock == 0
  {
  }

  datatype SessionStatus = Open | Closed

  /** `CashDrawerSessionAdmin.get_status`. */
  function SessionStatusOf(s: DrawerSession): (st: SessionStatus)
    ensures st == Open <==> s.end.None?
    ensures st == Open <==> s.Active()
  {
    if s.end.None? then Open else Closed
  }

  /** The admin shows a session as closed exactly after the close form has gone
      through, and the session just opened as open. */
  lemma StatusFollowsLifecycle(sessions: seq<DrawerSession>, sales: seq<Sale>, user: UserId,
                               amount: Option<Cents>, counted: Option<Cents>, notes: string, now: int)
    ensures var r := Sessions.OpenSession(sessions, user, amount, now);
            r.Opened? ==> SessionStatusOf(r.sessions[|sessions|]) == Open
    ensures var r := Sessions.CloseSession(sessions, sales, user, counted, notes, now);
            r.Closed? ==> SessionStatusOf(r.sessions[Sessions.ActiveSession(sessions, user).value]) == Closed
  {
  }

  const CashLabel: string := "\U{1F4B5} Efectivo"
  const CardLabel: string := "\U{1F4B3} Tarjeta"

  /** `SaleAdmin.payment_method_display`: a label for the two declared methods,
      any other stored value shown as it is. */
  function PaymentLabel(m: string): (shown: string)
    ensures shown == m <==> !DeclaredPaymentMethod(m)
    ensures m == Cash ==> shown == CashLabel
    ensures m == Card ==> shown == CardLabel
  {
    if m == Cash then CashLabel
    else if m == Card then CardLabel
    else m
  }

  /** The two labels tell the two declared methods apart. */
  lemma PaymentLabelsDistinct()
    ensures PaymentLabel(Cash) != PaymentLabel(Card)
  {
    assert CashLabel[2] != CardLabel[2];
  }

  // ---- Money text: Python's f"${amount:.2f}" on an amount held in cents ----

  function DigitChar(d: nat): (ch: char)
    requires d < 10
    ensures '0' <= ch <= '9' && (ch as int) - ('0' as int) == d
  {
    (('0' as int) + d) as char
  }

  predicate IsDigit(ch: char)
  {
    '0' <= ch <= '9'
  }

  predicate AllDigits(s: string)
  {
    forall i :: 0 <= i < |s| ==> IsDigit(s[i])
  }

  /** The decimal numeral of `n`, without leading zeros. */
  function Numeral(n: nat): (s: string)
    ensures |s| >= 1 && AllDigits(s)
    ensures |s| > 1 ==> s[0] != '0'
  {
    if n < 10 then [DigitChar(n)]
    else
      var front := Numeral(n / 10);
      var s := front + [DigitChar(n % 10)];
      assert s[0] == front[0];
      s
  }

  /** The value of a string of decimal digits. */
  function NumeralValue(s: string): nat
    requires AllDigits(s)
  {
    if |s| == 0 then 0
    else NumeralValue(s[..|s| - 1]) * 10 + ((s[|s| - 1] as int) - ('0' as int))
  }

  lemma {:induction false} NumeralRoundTrip(n: nat)
    ensures NumeralValue(Numeral(n)) == n
  {
    if n >= 10 {
      NumeralRoundTrip(n / 10);
      var s := Numeral(n);
      assert s[..|s| - 1] == Numeral(n / 10);
    }
  }

  /** Two digits, zero-padded. */
  function TwoDigits(n: nat): (s: string)
    requires n < 100
    ensures |s| == 2 && AllDigits(s) && NumeralValue(s) == n
  {
    var a := [DigitChar(n / 10)];
    assert a[..0] == [];
    assert NumeralValue(a) == n / 10;
    var s := a + [DigitChar(n % 10)];
    assert s[..1] == a;
    s
  }

  /** `f"${amount:.2f}"`. */
  function MoneyText(amount: Cents): string
  {
    var magnitude: nat := if amount < 0 then -amount else amount;
    "$" + (if amount < 0 then "-" else "") + MagnitudeText(magnitude)
  }

  /** Reads back a string shaped like MoneyText's output. */
  function ParseMoneyText(s: string): Option<Cents>
  {
    if |s| < 2 || s[0] != '$' then None
    else if s[1] == '-' then
      match ParseMagnitude(s[2..])
      case None => None
      case Some(m) => Some(-m)
    else ParseMagnitude(s[1..])
  }

  /** Reads back "<digits>.<two digits>" as a number of cents. */
  function ParseMagnitude(body: string): Option<Cents>
  {
    if |body| < 4 || body[|body| - 3] != '.' then None
    else
      var whole := body[..|body| - 3];
      var fraction := body[|body| - 2..];
      if !AllDigits(whole) || !AllDigits(fraction) then None
      else Some(NumeralValue(whole) * 100 + NumeralValue(fraction))
  }

  /** The money text reads back as the amount it was made from, so distinct
      amounts are shown as distinct strings. */
  lemma MoneyTextRoundTrip(amount: Cents)
    ensures ParseMoneyText(MoneyText(amount)) == Some(amount)
  {
    var magnitude: nat := if amount < 0 then -amount else amount;
    var body := MagnitudeText(magnitude);
    if amount < 0 {
      assert MoneyText(amount) == "$-" + body;
      SignedTextParses(body, magnitude);
    } else {
      assert MoneyText(amount) == "$" + body;
      UnsignedTextParses(body, magnitude);
    }
  }

  /** "<units>.<two-digit cents>" for a magnitude in cents. */
  function MagnitudeText(magnitude: nat): (body: string)
    ensures ParseMagnitude(body) == Some(magnitude)
    ensures |body| >= 4 && IsDigit(body[0])
  {
    var whole := Numeral(magnitude / 100);
    var fraction := TwoDigits(magnitude % 100);
    NumeralRoundTrip(magnitude / 100);
    MagnitudeShape(whole, fraction);
    whole + "." + fraction
  }

  lemma SignedTextParses(body: string, magnitude: nat)
    requires ParseMagnitude(body) == Some(magnitude) && |body| >= 4
    ensures ParseMoneyText("$-" + body) == Some(-(magnitude as int))
  {
    assert ("$-" + body)[2..] == body;
  }

  lemma UnsignedTextParses(body: string, magnitude: nat)
    requires ParseMagnitude(body) == Some(magnitude) && |body| >= 4 && IsDigit(body[0])
    ensures ParseMoneyText("$" + body) == Some(magnitude)
  {
    assert ("$" + body)[1] == body[0];
    assert ("$" + body)[1..] == body;
  }

  lemma MagnitudeShape(whole: string, fraction: string)
    requires |whole| >= 1 && AllDigits(whole) && |fraction| == 2 && AllDigits(fraction)
    ensures ParseMagnitude(whole + "." + fraction) == Some(NumeralValue(whole) * 100 + NumeralValue(fraction))
  {
    var body := whole + "." + fraction;
    assert |body| == |whole| + 3;
    assert body[|body| - 3] == '.';
    assert body[..|body| - 3] == whole;
    assert body[|body| - 2..] == fraction;
    ParseMagnitudeOf(body, whole, fraction);
  }

  /** A body with a point three from the end and digits on both sides reads as its two numerals. */
  lemma ParseMagnitudeOf(body: string, whole: string, fraction: string)
    requires |body| >= 4 && body[|body| - 3] == '.'
    requires body[..|body| - 3] == whole && body[|body| - 2..] == fraction
    requires AllDigits(whole) && AllDigits(fraction)
    ensures ParseMagnitude(body) == Some(NumeralValue(whole) * 100 + NumeralValue(fraction))
  {
  }

  /** `SaleItemAdmin.get_subtotal`: the line's quantity times unit price, as money text. */
  function SaleItemSubtotalText(i: SaleItem): (t: string)
    ensures ParseMoneyText(t) == Some(i.quantity * i.unitPrice)
  {
    MoneyTextRoundTrip(LineSubtotal(i.quantity, i.unitPrice));
    MoneyText(LineSubtotal(i.quantity, i.unitPrice))
  }

  /** `SaleReturnItemAdmin.get_subtotal`: `SaleReturnItem.get_subtotal` as money text. */
  function ReturnItemSubtotalText(r: SaleReturnItem): (t: string)
    ensures ParseMoneyText(t) == Some(r.quantity * r.unitPrice)
  {
    MoneyTextRoundTrip(ReturnSubtotal(r));
    MoneyText(ReturnSubtotal(r))
  }

  /** `CashDrawerSessionAdmin.get_total_cash_sales` for session `k`: the sum of its
      cash sales as money text, "$0.00" when it has none. */
  function CashSalesText(sales: seq<Sale>, k: nat): (t: string)
    ensures ParseMoneyText(t) == Some(Sessions.MethodTotal(sales, k, Cash))
    ensures (forall i :: 0 <= i < |sales| ==> sales[i].session != Some(k)) ==> t == "$0.00"
  {
    var total := Sessions.MethodTotal(sales, k, Cash);
    MoneyTextRoundTrip(total);
    ZeroMoneyText();
    assert (forall i :: 0 <= i < |sales| ==> sales[i].session != Some(k)) ==> total == 0 by {
      if forall i :: 0 <= i < |sales| ==> sales[i].session != Some(k) {
        Sessions.NoSalesNoTotal(sales, k, Cash);
      }
    }
    MoneyText(total)
  }

  /** Zero is shown as "$0.00". */
  lemma ZeroMoneyText()
    ensures MoneyText(0) == "$0.00"
  {
    assert Numeral(0) == "0";
    assert TwoDigits(0) == "00";
  }

  // ---- The dashboard button inserted into rendered admin pages ----

  /** The element the button goes in front of. */
  const ContentMain: string := "<div id=\"content-main\">"

  /** What the pages are searched for before the replacement runs. */
  const ContentMainId: string := "id=\"content-main\""

  /** The injection in the changelist and index wrappers: if the page mentions
      the content-main id, put `button` in front of every content-main element. */
  function InjectButton(content: string, button: string): (page: string)
    ensures !Contains(content, ContentMain) ==> page == content
  {
    if Contains(content, ContentMainId) then
      ReplaceAbsentMarker(content, button);
      ReplaceAll(content, ContentMain, button + ContentMain)
    else content
  }

  lemma ReplaceAbsentMarker(content: string, button: string)
    ensures !Contains(content, ContentMain) ==> ReplaceAll(content, ContentMain, button + ContentMain) == content
  {
    if !Contains(content, ContentMain) {
      ReplaceAbsent(content, ContentMain, button + ContentMain);
    }
  }

  /** The guard is implied by the marker, so the injection is the plain replacement. */
  lemma InjectIsReplace(content: string, button: string)
    ensures InjectButton(content, button) == ReplaceAll(content, ContentMain, button + ContentMain)
  {
    if !Contains(content, ContentMainId) {
      if Contains(content, ContentMain) {
        ContainsPiece(content, ContentMain, 5, ContentMainId);
      }
      ReplaceAbsent(content, ContentMain, button + ContentMain);
    }
  }

  /** The injected page is the original page cut at its content-main elements
      and glued back with the button in front of each: the cut pieces hold no
      further marker, joining them with the bare marker gives the original back,
      and the page grows by one button per marker. */
  lemma InjectButtonSplices(content: string, button: string)
    ensures var pieces := Split(content, ContentMain);
      && (forall k :: 0 <= k < |pieces| ==> !Contains(pieces[k], ContentMain))
      && Join(pieces, ContentMain) == content
      && InjectButton(content, button) == Join(pieces, button + ContentMain)
  {
    SplitJoin(content, ContentMain, button + ContentMain);
    InjectIsReplace(content, button);
  }

  /** The page grows by one copy of the button per content-main element. */
  lemma InjectButtonGrowth(content: string, button: string)
    ensures |InjectButton(content, button)| == |content| + (|Split(content, ContentMain)| - 1) * |button|
  {
    var parts := Split(content, ContentMain);
    InjectButtonSplices(content, button);
    assert InjectButton(content, button) == Join(parts, button + ContentMain);
    assert |Join(parts, ContentMain)| == |content|;
    JoinGrowth(parts, ContentMain, button);
    assert |Join(parts, button + ContentMain)| == |Join(parts, ContentMain)| + (|parts| - 1) * |button|;
  }

  /** Lengthening the separator by `extra` lengthens the join once per gap. */
  lemma {:induction false} JoinGrowth(parts: seq<string>, sep: string, extra: string)
    requires |parts| >= 1
    ensures |Join(parts, extra + sep)| == |Join(parts, sep)| + (|parts| - 1) * |extra|
  {
    if |parts| > 1 {
      JoinGrowth(parts[1..], sep, extra);
      assert (|parts| - 1) * |extra| == (|parts| - 2) * |extra| + |extra|;
    }
  }
}
