/** The cash-drawer session lifecycle of pos/views.py: finding the active
    session, opening one, and closing it with a cash reconciliation. A
    session's identity is its position in the session table. */
module Sessions {
  import opened Models

  predicate OpenFor(s: DrawerSession, user: UserId)
  {
    s.user == user && s.Active()
  }

  /** The index of the first session of `user` at or after `from` that is still open. */
  function FirstOpenFrom(sessions: seq<DrawerSession>, user: UserId, from: nat): (r: Option<nat>)
    requires from <= |sessions|
    ensures r.Some? ==> from <= r.value < |sessions| && OpenFor(sessions[r.value], user)
    ensures r.Some? ==> forall j :: from <= j < r.value ==> !OpenFor(sessions[j], user)
    ensures r.None? ==> forall j :: from <= j < |sessions| ==> !OpenFor(sessions[j], user)
    decreases |sessions| - from
  {
    if from == |sessions| then None
    else if OpenFor(sessions[from], user) then Some(from)
    else FirstOpenFrom(sessions, user, from + 1)
  }

  /** `get_active_session`: the user's open session with the lowest primary key, if any. */
  function ActiveSession(sessions: seq<DrawerSession>, user: UserId): (r: Option<nat>)
    ensures r.Some? ==> r.value < |sessions| && OpenFor(sessions[r.value], user)
    ensures r.Some? ==> forall j :: 0 <= j < r.value ==> !OpenFor(sessions[j], user)
    ensures r.None? <==> forall j :: 0 <= j < |sessions| ==> !OpenFor(sessions[j], user)
  {
    FirstOpenFrom(sessions, user, 0)
  }

  /** No user has two open sessions. Opening refuses while one is open, so every
      reachable session table has this shape. */
  predicate OneOpenPerUser(sessions: seq<DrawerSession>)
  {
    forall i, j :: 0 <= i < |sessions| && 0 <= j < |sessions| && i != j && sessions[i].Active() && sessions[j].Active()
      ==> sessions[i].user != sessions[j].user
  }

  /** Sum of `total` over the sales rung up in session `session` with payment method `payment`. */
  function MethodTotal(sales: seq<Sale>, session: nat, payment: string): Cents
  {
    if |sales| == 0 then 0
    else
      var last := sales[|sales| - 1];
      MethodTotal(sales[..|sales| - 1], session, payment)
        + (if last.session == Some(session) && last.paymentMethod == payment then last.total else 0)
  }

  /** Sum of `total` over every sale rung up in session `session`. */
  function SessionTotal(sales: seq<Sale>, session: nat): Cents
  {
    if |sales| == 0 then 0
    else
      var last := sales[|sales| - 1];
      SessionTotal(sales[..|sales| - 1], session) + (if last.session == Some(session) then last.total else 0)
  }

  /** The `.aggregate(Sum(...)) or 0` idiom: with no matching sale the total is zero. */
  lemma {:induction false} NoSalesNoTotal(sales: seq<Sale>, session: nat, payment: string)
    requires forall i :: 0 <= i < |sales| ==> sales[i].session != Some(session) || sales[i].paymentMethod != payment
    ensures MethodTotal(sales, session, payment) == 0
  {
    if |sales| > 0 {
      NoSalesNoTotal(sales[..|sales| - 1], session, payment);
    }
  }

  /** When every sale of the session used a declared method, the cash and card
      totals shown at closing add up to the session's total sales. */
  lemma {:induction false} CashPlusCardIsTotal(sales: seq<Sale>, session: nat)
    requires forall i :: 0 <= i < |sales| && sales[i].session == Some(session) ==> DeclaredPaymentMethod(sales[i].paymentMethod)
    ensures MethodTotal(sales, session, Cash) + MethodTotal(sales, session, Card) == SessionTotal(sales, session)
  {
    if |sales| > 0 {
      CashPlusCardIsTotal(sales[..|sales| - 1], session);
    }
  }

  /** Recording one more sale moves exactly the matching method total by its amount. */
  lemma AppendSale(sales: seq<Sale>, sale: Sale, session: nat, payment: string)
    ensures MethodTotal(sales + [sale], session, payment)
         == MethodTotal(sales, session, payment)
            + (if sale.session == Some(session) && sale.paymentMethod == payment then sale.total else 0)
  {
    assert (sales + [sale])[..|sales|] == sales;
  }

  /** How the counted drawer compares with the expected cash. */
  datatype Verdict = Balanced | Surplus(amount: Cents) | Shortfall(amount: Cents)

  /** The closing message's three cases, on `difference = ending - expected`. */
  function Classify(difference: Cents): (v: Verdict)
    ensures v.Balanced? <==> difference == 0
    ensures v.Surplus? <==> difference > 0
    ensures v.Shortfall? <==> difference < 0
    ensures !v.Balanced? ==> v.amount > 0
    ensures v.Surplus? ==> difference == v.amount
    ensures v.Shortfall? ==> difference == -v.amount
  {
    if difference == 0 then Balanced
    else if difference > 0 then Surplus(difference)
    else Shortfall(-difference)
  }

  /** The figures shown on the closing page. */
  datatype Summary = Summary(cashSales: Cents, cardSales: Cents, totalSales: Cents, expectedCash: Cents)

  /** The figures of the closing page for session `k`: its cash, card and
      overall takings, and the cash the drawer should hold. */
  function Summarize(sessions: seq<DrawerSession>, sales: seq<Sale>, k: nat): (s: Summary)
    requires k < |sessions|
    ensures s.cashSales == MethodTotal(sales, k, Cash) && s.cardSales == MethodTotal(sales, k, Card)
    ensures s.totalSales == SessionTotal(sales, k)
    ensures s.expectedCash == sessions[k].startingBalance + s.cashSales
    ensures (forall i :: 0 <= i < |sales| && sales[i].session == Some(k) ==> DeclaredPaymentMethod(sales[i].paymentMethod))
      ==> s.cashSales + s.cardSales == s.totalSales
    ensures (forall i :: 0 <= i < |sales| ==> sales[i].session != Some(k))
      ==> s == Summary(0, 0, 0, sessions[k].startingBalance)
  {
    assert (forall i :: 0 <= i < |sales| && sales[i].session == Some(k) ==> DeclaredPaymentMethod(sales[i].paymentMethod))
      ==> MethodTotal(sales, k, Cash) + MethodTotal(sales, k, Card) == SessionTotal(sales, k) by {
      if (forall i :: 0 <= i < |sales| && sales[i].session == Some(k) ==> DeclaredPaymentMethod(sales[i].paymentMethod)) {
        CashPlusCardIsTotal(sales, k);
      }
    }
    assert (forall i :: 0 <= i < |sales| ==> sales[i].session != Some(k))
      ==> MethodTotal(sales, k, Cash) == 0 && MethodTotal(sales, k, Card) == 0 && SessionTotal(sales, k) == 0 by {
      if (forall i :: 0 <= i < |sales| ==> sales[i].session != Some(k)) {
        NoSalesNoTotal(sales, k, Cash);
        NoSalesNoTotal(sales, k, Card);
        NoSalesNoSessionTotal(sales, k);
      }
    }
    var cash := MethodTotal(sales, k, Cash);
    Summary(cash, MethodTotal(sales, k, Card), SessionTotal(sales, k), sessions[k].startingBalance + cash)
  }

  /** A session with no sales has total sales zero. */
  lemma {:induction false} NoSalesNoSessionTotal(sales: seq<Sale>, session: nat)
    requires forall i :: 0 <= i < |sales| ==> sales[i].session != Some(session)
    ensures SessionTotal(sales, session) == 0
  {
    if |sales| > 0 {
      NoSalesNoSessionTotal(sales[..|sales| - 1], session);
    }
  }

  datatype SessionError = AlreadyOpen | NoActiveSession | InvalidAmount | NegativeAmount

  datatype OpenResult = Opened(sessions: seq<DrawerSession>) | OpenRejected(error: SessionError)

  /** `open_session_view` on a POST. `amount` is the submitted starting balance,
      `None` when it is missing or does not parse as a number. */
  function OpenSession(sessions: seq<DrawerSession>, user: UserId, amount: Option<Cents>, now: int): (r: OpenResult)
    ensures r == OpenRejected(AlreadyOpen) <==> ActiveSession(sessions, user).Some?
    ensures r == OpenRejected(NegativeAmount) <==> ActiveSession(sessions, user).None? && amount.Some? && amount.value < 0
    ensures r.Opened? <==> ActiveSession(sessions, user).None? && amount.Some? && amount.value >= 0
    ensures r.Opened? ==> |r.sessions| == |sessions| + 1 && r.sessions[..|sessions|] == sessions
    ensures r.Opened? ==> var s := r.sessions[|sessions|];
      s.user == user && s.Active() && s.startingBalance == amount.value && s.start == now
    ensures r.Opened? ==> amount.Some? && r.sessions[|sessions|] == DrawerSession(user, now, None, amount.value, None, "")
    ensures r.Opened? ==> ActiveSession(r.sessions, user) == Some(|sessions|)
    ensures r.Opened? && OneOpenPerUser(sessions) ==> OneOpenPerUser(r.sessions)
    ensures r.Opened? && (forall j :: 0 <= j < |sessions| ==> ValidSession(sessions[j])) && FitsMoneyColumn(amount.value)
      ==> forall j :: 0 <= j < |r.sessions| ==> ValidSession(r.sessions[j])
  {
    if ActiveSession(sessions, user).Some? then OpenRejected(AlreadyOpen)
    else if amount.None? then OpenRejected(InvalidAmount)
    else if amount.value < 0 then OpenRejected(NegativeAmount)
    else
      var s' := sessions + [DrawerSession(user, now, None, amount.value, None, "")];
      assert s'[..|sessions|] == sessions;
      Opened(s')
  }

  datatype CloseResult =
    | Closed(sessions: seq<DrawerSession>, summary: Summary, difference: Cents, verdict: Verdict)
    | CloseRejected(error: SessionError)

  /** `close_session_view` on a POST. `counted` is the submitted ending balance,
      `None` when it is missing or does not parse as a number. */
  function CloseSession(sessions: seq<DrawerSession>, sales: seq<Sale>, user: UserId,
                        counted: Option<Cents>, notes: string, now: int): (r: CloseResult)
    ensures r == CloseRejected(NoActiveSession) <==> ActiveSession(sessions, user).None?
    ensures r == CloseRejected(NegativeAmount) <==> ActiveSession(sessions, user).Some? && counted.Some? && counted.value < 0
    ensures r.Closed? <==> ActiveSession(sessions, user).Some? && counted.Some? && counted.value >= 0
    ensures r.Closed? ==> var k := ActiveSession(sessions, user).value;
      && |r.sessions| == |sessions|
      && (forall j :: 0 <= j < |sessions| && j != k ==> r.sessions[j] == sessions[j])
      && r.sessions[k] == sessions[k].(end := Some(now), endingBalance := counted, notes := notes)
      && r.summary == Summarize(sessions, sales, k)
      && r.summary.expectedCash == sessions[k].startingBalance + MethodTotal(sales, k, Cash)
      && r.difference == counted.value - r.summary.expectedCash
      && r.verdict == Classify(r.difference)
    ensures r.Closed? && OneOpenPerUser(sessions) ==> OneOpenPerUser(r.sessions) && ActiveSession(r.sessions, user).None?
    ensures r.Closed? && (forall j :: 0 <= j < |sessions| ==> ValidSession(sessions[j])) && FitsMoneyColumn(counted.value)
      ==> forall j :: 0 <= j < |r.sessions| ==> ValidSession(r.sessions[j])
  {
    match ActiveSession(sessions, user)
    case None => CloseRejected(NoActiveSession)
    case Some(k) =>
      var summary := Summarize(sessions, sales, k);
      if counted.None? then CloseRejected(InvalidAmount)
      else if counted.value < 0 then CloseRejected(NegativeAmount)
      else
        var closed := sessions[k].(end := Some(now), endingBalance := counted, notes := notes);
        var difference := counted.value - summary.expectedCash;
        Closed(sessions[k := closed], summary, difference, Classify(difference))
  }

  /** What a closing request leaves behind and reports, as the view is written:
      the session row is saved closed before the difference is computed, and
      that subtraction takes the submitted amount (a binary float) from the
      expected cash (a decimal), which Python refuses with a TypeError. The
      handler meant for unparsable amounts catches it, so the page reports an
      invalid amount over a session that is already closed. */
  datatype CloseOutcome = CloseOutcome(sessions: seq<DrawerSession>, reported: CloseResult)

  function CloseSessionAsWritten(sessions: seq<DrawerSession>, sales: seq<Sale>, user: UserId,
                                 counted: Option<Cents>, notes: string, now: int): (o: CloseOutcome)
    ensures o.reported.CloseRejected?
    ensures CloseSession(sessions, sales, user, counted, notes, now).CloseRejected? ==>
      o == CloseOutcome(sessions, CloseSession(sessions, sales, user, counted, notes, now))
    ensures CloseSession(sessions, sales, user, counted, notes, now).Closed? ==>
      o.sessions == CloseSession(sessions, sales, user, counted, notes, now).sessions && o.reported == CloseRejected(InvalidAmount)
  {
    var r := CloseSession(sessions, sales, user, counted, notes, now);
    if r.Closed? then CloseOutcome(r.sessions, CloseRejected(InvalidAmount)) else CloseOutcome(sessions, r)
  }

  /** As written, every close with a valid amount both ends the session and tells
      the cashier the amount was invalid; the intended close reports the verdict. */
  lemma CloseReportsInvalidAmountAfterClosing(sessions: seq<DrawerSession>, sales: seq<Sale>, user: UserId,
                                               amount: Cents, notes: string, now: int)
    requires OneOpenPerUser(sessions)
    requires ActiveSession(sessions, user).Some? && amount >= 0
    ensures var o := CloseSessionAsWritten(sessions, sales, user, Some(amount), notes, now);
      o.reported == CloseRejected(InvalidAmount) && ActiveSession(o.sessions, user).None?
    ensures var r := CloseSession(sessions, sales, user, Some(amount), notes, now);
      r.Closed? && r.verdict == Classify(amount - r.summary.expectedCash)
  {
  }
}
