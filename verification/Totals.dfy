/**
  Sums that the services keep or report: shift totals, the money columns of an order, and
  the outstanding debt of a customer.
 */
module Totals {
  import opened Wrappers
  import opened Stock
  import opened Pricing
  import opened Shop
  import opened Lifecycle
  import opened Debts

  // ------------------------------------------------- shift totals

  datatype Sales = Sales(cash: int, card: int, total: int, count: int)

  /** The sums over the stored orders that carry the id of a shift. */
  function SalesOf(orders: seq<Order>, id: ShiftId): Sales {
    if orders == [] then Sales(0, 0, 0, 0)
    else
      var s, o := SalesOf(Front(orders), id), Last(orders);
      if o.shift == Some(id) then Sales(s.cash + o.cash, s.card + o.card, s.total + o.total, s.count + 1) else s
  }

  function SalesShown(shift: Shift): Sales {
    Sales(shift.cash, shift.card, shift.total, shift.count)
  }

  lemma {:induction false} SalesOfSameMoney(a: seq<Order>, b: seq<Order>, id: ShiftId)
    requires |a| == |b|
    requires forall i :: 0 <= i < |a| ==>
               a[i].shift == b[i].shift && a[i].cash == b[i].cash && a[i].card == b[i].card && a[i].total == b[i].total
    ensures SalesOf(a, id) == SalesOf(b, id)
  {
    if a != [] {
      SalesOfSameMoney(Front(a), Front(b), id);
    }
  }

  lemma {:induction false} SalesOfUnused(orders: seq<Order>, id: ShiftId)
    requires forall i :: 0 <= i < |orders| ==> orders[i].shift != Some(id)
    ensures SalesOf(orders, id) == Sales(0, 0, 0, 0)
  {
    if orders != [] {
      SalesOfUnused(Front(orders), id);
    }
  }

  /** A new shift gets an id that no order carries yet. */
  predicate FreshShift(db: Db, req: Request) {
    req.OpeningShift? ==> forall i :: 0 <= i < |db.orders| ==> db.orders[i].shift != Some(req.id)
  }

  ghost predicate FreshShifts(cat: Catalog, reqs: seq<Request>) {
    reqs == [] || (FreshShifts(cat, Front(reqs)) && FreshShift(Exec(cat, Front(reqs)), Last(reqs)))
  }

  ghost predicate NoDrift(db: Db) {
    forall id :: id in db.shifts ==> SalesShown(db.shifts[id]) == SalesOf(db.orders, id)
  }

  /** Adding to the columns of a shift is adding what the order row stores. */
  lemma AddSaleExact(shifts: map<ShiftId, Shift>, shop: ShopId, dto: CreateDto, id: ShiftId)
    requires id in shifts
    ensures id in AddSale(shifts, dto)
    ensures var s, o := SalesShown(shifts[id]), NewOrder(shop, dto);
            SalesShown(AddSale(shifts, dto)[id]) ==
            if o.shift == Some(id) then Sales(s.cash + o.cash, s.card + o.card, s.total + o.total, s.count + 1) else s
  {
    CentsOntoWhole(shifts[id].cash, dto.cash);
    CentsOntoWhole(shifts[id].card, dto.card);
    CentsOntoWhole(shifts[id].total, DtoTotal(dto));
  }

  lemma NoDriftCreate(cat: Catalog, db: Db, shop: ShopId, dto: CreateDto)
    requires NoDrift(db) && CreateOrder(cat, db, shop, dto).Ok?
    ensures NoDrift(CreateOrder(cat, db, shop, dto).value)
  {
    var next := CreateOrder(cat, db, shop, dto).value;
    assert Front(next.orders) == db.orders;
    forall id | id in next.shifts ensures SalesShown(next.shifts[id]) == SalesOf(next.orders, id) {
      AddSaleExact(db.shifts, shop, dto, id);
    }
  }

  /** Only opening and closing touch the shifts otherwise, and closing keeps the totals. */
  lemma OtherStepsKeepShifts(cat: Catalog, db: Db, req: Request, id: ShiftId)
    requires !req.Ordering? && id in Next(cat, db, req).shifts
    ensures var next := Next(cat, db, req);
            if id in db.shifts then SalesShown(next.shifts[id]) == SalesShown(db.shifts[id])
            else req.OpeningShift? && req.id == id && SalesShown(next.shifts[id]) == Sales(0, 0, 0, 0)
  {
  }

  lemma NoDriftStep(cat: Catalog, db: Db, req: Request)
    requires NoDrift(db) && FreshShift(db, req)
    ensures NoDrift(Next(cat, db, req))
  {
    var next := Next(cat, db, req);
    if req.Ordering? {
      if CreateOrder(cat, db, req.shop, req.dto).Ok? {
        NoDriftCreate(cat, db, req.shop, req.dto);
      }
    } else {
      forall id | id in next.shifts ensures SalesShown(next.shifts[id]) == SalesOf(next.orders, id) {
        OtherStepsKeepShifts(cat, db, req, id);
        SameMoney(cat, db, req);
        SalesOfSameMoney(next.orders, db.orders, id);
        if id !in db.shifts {
          SalesOfUnused(db.orders, id);
        }
      }
    }
  }

  lemma SameMoney(cat: Catalog, db: Db, req: Request)
    requires !req.Ordering?
    ensures |Next(cat, db, req).orders| == |db.orders|
    ensures forall i :: 0 <= i < |db.orders| ==>
              var a, b := Next(cat, db, req).orders[i], db.orders[i];
              a.shift == b.shift && a.cash == b.cash && a.card == b.card && a.total == b.total
  {
    forall i: nat | i < |db.orders|
      ensures var a, b := Next(cat, db, req).orders[i], db.orders[i];
              a.shift == b.shift && a.cash == b.cash && a.card == b.card && a.total == b.total
    {
      OrderRowStep(cat, db, req, i);
    }
  }

  /** In every reachable database the totals of a shift are the sums over its orders. */
  lemma {:induction false} ShiftTotalsHaveNoDrift(cat: Catalog, reqs: seq<Request>)
    requires FreshShifts(cat, reqs)
    ensures NoDrift(Exec(cat, reqs))
  {
    if reqs != [] {
      ShiftTotalsHaveNoDrift(cat, Front(reqs));
      NoDriftStep(cat, Exec(cat, Front(reqs)), Last(reqs));
    }
  }

  /** No cashier has two open shifts in one shop. */
  ghost predicate OneOpenShift(shifts: map<ShiftId, Shift>) {
    forall a, b | a in shifts && b in shifts && shifts[a].open && shifts[b].open ::
      shifts[a].shop == shifts[b].shop && shifts[a].cashier == shifts[b].cashier ==> a == b
  }

  lemma OneOpenShiftStep(cat: Catalog, db: Db, req: Request)
    requires OneOpenShift(db.shifts)
    ensures OneOpenShift(Next(cat, db, req).shifts)
  {
    var next := Next(cat, db, req);
    forall a, b | a in next.shifts && b in next.shifts && next.shifts[a].open && next.shifts[b].open
                  && next.shifts[a].shop == next.shifts[b].shop && next.shifts[a].cashier == next.shifts[b].cashier
      ensures a == b
    {
      ShiftRowStep(cat, db, req, a);
      ShiftRowStep(cat, db, req, b);
    }
  }

  lemma ShiftRowStep(cat: Catalog, db: Db, req: Request, id: ShiftId)
    requires id in Next(cat, db, req).shifts
    ensures var row := Next(cat, db, req).shifts[id];
            if id in db.shifts
            then row.shop == db.shifts[id].shop && row.cashier == db.shifts[id].cashier && (row.open ==> db.shifts[id].open)
            else req == OpeningShift(row.shop, row.cashier, row.openingFloat, id)
                 && !HasOpenShift(db.shifts, row.shop, row.cashier)
  {
  }

  lemma {:induction false} OneOpenShiftRun(cat: Catalog, reqs: seq<Request>)
    ensures OneOpenShift(Exec(cat, reqs).shifts)
  {
    if reqs != [] {
      OneOpenShiftRun(cat, Front(reqs));
      OneOpenShiftStep(cat, Exec(cat, Front(reqs)), Last(reqs));
    }
  }

  // ------------------------------------------------- the money columns of an order

  ghost predicate WholeCentTenders(reqs: seq<Request>) {
    forall i :: 0 <= i < |reqs| && reqs[i].Ordering? ==>
      CentExact(reqs[i].dto.cash) && CentExact(reqs[i].dto.card)
  }

  /** Stored total = cash + card + notPaid, so that a receipt shows no change. */
  predicate SplitExact(order: Order) {
    && order.total == order.cash + order.card + order.notPaid
    && ReceiptChange(order.total, order.cash, order.card) == 0
  }

  /** Rounded columns of an order of `n` lines, against each other. */
  predicate ColumnsClose(order: Order, n: int) {
    && -1 <= order.total - (order.subtotal + order.tax - order.discount) <= 1
    && -n <= 2 * (order.lineTotals - order.subtotal) <= n
    && 0 <= order.discount <= order.subtotal
    && order.tax <= order.total
  }

  predicate SplitClose(order: Order) {
    && -1 <= order.total - order.cash - order.card - order.notPaid <= 1
    && ReceiptChange(order.total, order.cash, order.card) <= 1
    && order.notPaid >= 0
  }

  /** The column holds the amount rounded half up to whole cents. */
  predicate Rounded(column: int, amount: real) {
    amount - 0.5 < column as real <= amount + 0.5
  }

  lemma CentsMonotone(x: real, y: real)
    requires x <= y
    ensures Cents(x) <= Cents(y)
  {
  }

  lemma DtoDiscountNonNegative(dto: CreateDto)
    requires ValidRequest(Ordering(0, dto))
    ensures DtoDiscount(dto).Some? ==> DtoDiscount(dto).value.value >= 0.0
  {
  }

  /** A cashier's discount of a type and a value other than zero decides, whoever the customer is. */
  lemma {:induction false} CashierDiscountWins(
      dto: CreateDto, customer: Option<CustomerId>, default: Option<Discount>, kind: DiscountType, value: real)
    requires dto.discountType == Some(kind) && dto.discountValue == Some(value) && value != 0.0
    ensures DtoTotal(dto) ==
            Subtotal(dto.items) + Tax(dto.items) - DiscountAmount(Subtotal(dto.items), Some(Discount(kind, value)))
    ensures DtoTotal(dto.(customer := customer, customerDefault := default)) == DtoTotal(dto)
  {
  }

  /**
    Without one, the positive default of a named customer counts as if the cashier had given
    it, and otherwise nothing is taken off.
   */
  lemma {:induction false} DefaultDiscountStandsIn(dto: CreateDto)
    requires dto.discountType.None? || dto.discountValue.None? || dto.discountValue.value == 0.0
    ensures var default := dto.customerDefault;
            if dto.customer.Some? && default.Some? && default.value.value > 0.0
            then DtoTotal(dto) ==
                 DtoTotal(dto.(discountType := Some(default.value.kind), discountValue := Some(default.value.value)))
            else DtoTotal(dto) == Subtotal(dto.items) + Tax(dto.items)
  {
  }

  lemma NewOrderColumns(shop: ShopId, dto: CreateDto)
    requires ValidRequest(Ordering(shop, dto)) && CheckPayment(dto).Ok?
    ensures ColumnsClose(NewOrder(shop, dto), |dto.items|) && SplitClose(NewOrder(shop, dto))
    ensures CentExact(dto.cash) && CentExact(dto.card) ==> SplitExact(NewOrder(shop, dto))
    ensures Rounded(NewOrder(shop, dto).cash, dto.cash) && Rounded(NewOrder(shop, dto).card, dto.card)
    ensures Rounded(NewOrder(shop, dto).total, DtoTotal(dto))
    ensures NewOrder(shop, dto).customer == dto.customer && NewOrder(shop, dto).shift == dto.shift
    ensures NewOrder(shop, dto).status.Paid? <==> DtoTotal(dto) - dto.cash - dto.card < 0.5
    ensures |NewOrder(shop, dto).items| == |dto.items|
    ensures NewOrder(shop, dto).subtotal == (Worth(dto.items) + 500) / 1000
    ensures NewOrder(shop, dto).tax == (Levied(dto.items) + 5000000) / 10000000
  {
    StoredSumsExact(dto.items);
    var discount := DtoDiscount(dto);
    DtoDiscountNonNegative(dto);
    PricingBounds(dto.items, discount);
    StoredTotalMatchesParts(dto.items, discount);
    StoredLinesMatchSubtotal(dto.items);
    CentsMonotone(0.0, DiscountAmount(Subtotal(dto.items), discount));
    CentsMonotone(DiscountAmount(Subtotal(dto.items), discount), Subtotal(dto.items));
    CentsMonotone(Tax(dto.items), DtoTotal(dto));
    SplitWithinOneCent(DtoTotal(dto), dto.cash, dto.card);
    PaidWhenUnderHalfCent(DtoTotal(dto), dto.cash, dto.card);
    CentsBounds(dto.cash);
    CentsBounds(dto.card);
    CentsBounds(DtoTotal(dto));
    if CentExact(dto.cash) && CentExact(dto.card) {
      ExactSplit(DtoTotal(dto), dto.cash, dto.card);
    }
  }

  /** What every stored order satisfies, for any tenders and for tenders of whole cents. */
  lemma {:induction false} OrderColumnsOnEveryRun(cat: Catalog, reqs: seq<Request>, id: OrderId)
    requires ValidRun(reqs) && Exists(Exec(cat, reqs), id)
    ensures var order := Exec(cat, reqs).orders[id];
            && ColumnsClose(order, |order.items|) && SplitClose(order)
            && (WholeCentTenders(reqs) ==> SplitExact(order))
  {
    var db := Exec(cat, Front(reqs));
    if Exists(db, id) {
      OrderColumnsOnEveryRun(cat, Front(reqs), id);
      OrderRowStep(cat, db, Last(reqs), id);
    } else {
      NewOrderMoney(cat, db, Last(reqs), id);
      NewOrderColumns(Last(reqs).shop, Last(reqs).dto);
    }
  }

  /** A payment in cash stores an amount and a change that add up to what was tendered. */
  lemma ChangeAddsUp(order: Order, id: OrderId, tendered: real)
    requires PaymentOf(order, id, true, Some(tendered)).Ok?
    ensures var p := PaymentOf(order, id, true, Some(tendered)).value;
            && p.tendered.Some? && p.change.Some?
            && p.amount + p.change.value == p.tendered.value && p.change.value >= 0
    ensures order.total as real <= tendered
  {
    CentsOntoWhole(-order.total, tendered);
    assert (-order.total) as real + tendered == tendered - order.total as real;
  }

  // ------------------------------------------------- outstanding debt

  predicate OwedBy(debt: Debt, shop: ShopId, customer: CustomerId) {
    debt.shop == shop && debt.customer == customer
  }

  /** `SUM(remaining_amount)` over the PENDING and PARTIAL debts: the debtors summary. */
  function SummaryTotal(debts: seq<Debt>, shop: ShopId, customer: CustomerId): int {
    if debts == [] then 0
    else
      var d := Last(debts);
      SummaryTotal(Front(debts), shop, customer) +
      if OwedBy(d, shop, customer) && (d.status.DebtPending? || d.status.DebtPartial?) then d.remaining else 0
  }

  /** The rows the reminder loads: those PENDING and those PARTIAL. */
  function ReminderRows(debts: seq<Debt>, shop: ShopId, customer: CustomerId): seq<Debt> {
    if debts == [] then []
    else
      var d := debts[0];
      (if OwedBy(d, shop, customer) && !d.status.DebtPaid? then [d] else []) + ReminderRows(debts[1..], shop, customer)
  }

  /** `debts.reduce((sum, d) => sum + d.remainingAmount, 0)`. */
  function ReminderTotal(rows: seq<Debt>, sum: int): int {
    if rows == [] then sum else ReminderTotal(rows[1..], sum + rows[0].remaining)
  }

  function OriginalTotal(debts: seq<Debt>, shop: ShopId, customer: CustomerId): int {
    if debts == [] then 0
    else OriginalTotal(Front(debts), shop, customer) + if OwedBy(Last(debts), shop, customer) then Last(debts).total else 0
  }

  /** All that was ever repaid on the debts of a customer. */
  function RepaidTotal(rows: seq<Instalment>, debts: seq<Debt>, shop: ShopId, customer: CustomerId): int {
    if rows == [] then 0
    else
      var r := Last(rows);
      RepaidTotal(Front(rows), debts, shop, customer) +
      if r.debt < |debts| && OwedBy(debts[r.debt], shop, customer) then r.amount else 0
  }

  function RepaidAcross(rows: seq<Instalment>, debts: seq<Debt>, n: nat, shop: ShopId, customer: CustomerId): int
    requires n <= |debts|
  {
    if n == 0 then 0
    else
      RepaidAcross(rows, debts, n - 1, shop, customer) +
      if OwedBy(debts[n - 1], shop, customer) then RepaidOn(rows, n - 1) else 0
  }

  lemma {:induction false} ReminderIsSummary(debts: seq<Debt>, shop: ShopId, customer: CustomerId, sum: int)
    ensures ReminderTotal(ReminderRows(debts, shop, customer), sum) == sum + SummaryTotal(debts, shop, customer)
    decreases |debts|
  {
    if debts != [] {
      var d := debts[0];
      var rest := ReminderRows(debts[1..], shop, customer);
      SummaryHead(debts, shop, customer);
      if OwedBy(d, shop, customer) && !d.status.DebtPaid? {
        assert ReminderRows(debts, shop, customer)[1..] == rest;
        ReminderIsSummary(debts[1..], shop, customer, sum + d.remaining);
      } else {
        assert ReminderRows(debts, shop, customer) == rest;
        ReminderIsSummary(debts[1..], shop, customer, sum);
      }
    }
  }

  lemma {:induction false} SummaryHead(debts: seq<Debt>, shop: ShopId, customer: CustomerId)
    requires debts != []
    ensures SummaryTotal(debts, shop, customer) ==
            SummaryTotal(debts[1..], shop, customer) +
            if OwedBy(debts[0], shop, customer) && !debts[0].status.DebtPaid? then debts[0].remaining else 0
  {
    if |debts| > 1 {
      SummaryHead(Front(debts), shop, customer);
      assert Front(debts)[1..] == Front(debts[1..]);
    } else {
      assert Front(debts) == debts[1..] == [];
    }
  }

  /** The reminder loads the open debts of that customer in that shop, and no others. */
  lemma {:induction false} ReminderRowsExact(debts: seq<Debt>, shop: ShopId, customer: CustomerId, d: Debt)
    ensures d in ReminderRows(debts, shop, customer) <==>
            d in debts && d.shop == shop && d.customer == customer && !d.status.DebtPaid?
    decreases |debts|
  {
    if debts != [] {
      assert debts == [debts[0]] + debts[1..];
      ReminderRowsExact(debts[1..], shop, customer, d);
    }
  }

  // ------------------------------------------------- the summary, from the history

  /** What the summary of a customer counts of one debt row. */
  function Shown(d: Debt): int {
    if d.status.DebtPaid? then 0 else d.remaining
  }

  /** The debts the accepted orders of a customer opened, less what the accepted instalments took off them. */
  function OwedByHistory(cat: Catalog, reqs: seq<Request>, shop: ShopId, customer: CustomerId): int {
    if reqs == [] then 0
    else
      var db, req := Exec(cat, Front(reqs)), Last(reqs);
      OwedByHistory(cat, Front(reqs), shop, customer) + OwedByStep(cat, db, req, shop, customer)
  }

  function OwedByStep(cat: Catalog, db: Db, req: Request, shop: ShopId, customer: CustomerId): int {
    match req
    case Ordering(at, dto) =>
      if at == shop && dto.customer == Some(customer) && CreateOrder(cat, db, at, dto).Ok? then DtoNotPaid(dto) else 0
    case Repaying(at, id, amount) =>
      if at == shop && RepayDebt(db, at, id, amount).Ok? && db.debts[id].customer == customer
      then Cents(db.debts[id].remaining as real - amount) - db.debts[id].remaining else 0
    case _ => 0
  }

  lemma SummaryAppend(debts: seq<Debt>, d: Debt, shop: ShopId, customer: CustomerId)
    ensures SummaryTotal(debts + [d], shop, customer) ==
            SummaryTotal(debts, shop, customer) + if d.shop == shop && d.customer == customer then Shown(d) else 0
  {
    assert Front(debts + [d]) == debts;
  }

  lemma {:induction false} SummaryUpdate(debts: seq<Debt>, id: DebtId, d: Debt, shop: ShopId, customer: CustomerId)
    requires id < |debts| && d.shop == debts[id].shop && d.customer == debts[id].customer
    ensures SummaryTotal(debts[id := d], shop, customer) ==
            SummaryTotal(debts, shop, customer) +
            if d.shop == shop && d.customer == customer then Shown(d) - Shown(debts[id]) else 0
  {
    if id == |debts| - 1 {
      assert Front(debts[id := d]) == Front(debts);
    } else {
      assert Front(debts[id := d]) == Front(debts)[id := d];
      SummaryUpdate(Front(debts), id, d, shop, customer);
    }
  }

  /** An accepted order raises the summary of its own customer in its own shop by what it leaves unpaid. */
  lemma OrderRaisesSummary(cat: Catalog, db: Db, at: ShopId, dto: CreateDto, shop: ShopId, customer: CustomerId)
    requires CreateOrder(cat, db, at, dto).Ok?
    ensures SummaryTotal(CreateOrder(cat, db, at, dto).value.debts, shop, customer) ==
            SummaryTotal(db.debts, shop, customer) +
            if at == shop && dto.customer == Some(customer) then DtoNotPaid(dto) else 0
  {
    PaidWhenUnderHalfCent(DtoTotal(dto), dto.cash, dto.card);
    var order := NewOrder(at, dto);
    if order.notPaid > 0 {
      SummaryAppend(db.debts, DebtsFromOrder(order, |db.orders|)[0], shop, customer);
    } else {
      assert db.debts + [] == db.debts;
    }
  }

  /** An accepted instalment lowers the summary of the debt's own customer and shop, and no other. */
  lemma InstalmentLowersSummary(db: Db, at: ShopId, id: DebtId, amount: real, shop: ShopId, customer: CustomerId)
    requires RepayDebt(db, at, id, amount).Ok?
    ensures var before := db.debts[id];
            SummaryTotal(RepayDebt(db, at, id, amount).value.debts, shop, customer) ==
            SummaryTotal(db.debts, shop, customer) -
            if at == shop && before.customer == customer
            then before.remaining - Cents(before.remaining as real - amount) else 0
    ensures CentExact(amount) ==>
              db.debts[id].remaining - Cents(db.debts[id].remaining as real - amount) == Cents(amount)
  {
    var next := RepayDebt(db, at, id, amount).value;
    CentsBounds(db.debts[id].remaining as real - amount);
    SummaryUpdate(db.debts, id, next.debts[id], shop, customer);
    if CentExact(amount) {
      CentsOfExact(amount);
      CentsOntoWhole(db.debts[id].remaining - Cents(amount), 0.0);
    }
  }

  lemma OtherStepsKeepDebts(cat: Catalog, db: Db, req: Request)
    requires !(req.Ordering? && CreateOrder(cat, db, req.shop, req.dto).Ok?)
    requires !(req.Repaying? && RepayDebt(db, req.shop, req.debt, req.amount).Ok?)
    ensures Next(cat, db, req).debts == db.debts
  {
  }

  lemma SummaryStep(cat: Catalog, db: Db, req: Request, shop: ShopId, customer: CustomerId)
    ensures SummaryTotal(Next(cat, db, req).debts, shop, customer) ==
            SummaryTotal(db.debts, shop, customer) + OwedByStep(cat, db, req, shop, customer)
  {
    if req.Ordering? && CreateOrder(cat, db, req.shop, req.dto).Ok? {
      OrderRaisesSummary(cat, db, req.shop, req.dto, shop, customer);
    } else if req.Repaying? && RepayDebt(db, req.shop, req.debt, req.amount).Ok? {
      InstalmentLowersSummary(db, req.shop, req.debt, req.amount, shop, customer);
    } else {
      OtherStepsKeepDebts(cat, db, req);
    }
  }

  /**
    On every run the summary of a customer in a shop is what their orders there left unpaid,
    less what the instalments on those debts took off.
   */
  lemma {:induction false} SummaryIsHistory(cat: Catalog, reqs: seq<Request>, shop: ShopId, customer: CustomerId)
    ensures SummaryTotal(Exec(cat, reqs).debts, shop, customer) == OwedByHistory(cat, reqs, shop, customer)
  {
    if reqs != [] {
      SummaryIsHistory(cat, Front(reqs), shop, customer);
      SummaryStep(cat, Exec(cat, Front(reqs)), Last(reqs), shop, customer);
    }
  }

  /** Summing the instalments by row or by debt is the same. */
  lemma {:induction false} RepaidByDebt(rows: seq<Instalment>, debts: seq<Debt>, shop: ShopId, customer: CustomerId)
    ensures RepaidTotal(rows, debts, shop, customer) == RepaidAcross(rows, debts, |debts|, shop, customer)
  {
    if rows == [] {
      NothingRepaid(debts, |debts|, shop, customer);
    } else {
      RepaidByDebt(Front(rows), debts, shop, customer);
      OneMoreInstalment(rows, debts, |debts|, shop, customer);
    }
  }

  lemma {:induction false} NothingRepaid(debts: seq<Debt>, n: nat, shop: ShopId, customer: CustomerId)
    requires n <= |debts|
    ensures RepaidAcross([], debts, n, shop, customer) == 0
  {
    if n > 0 {
      NothingRepaid(debts, n - 1, shop, customer);
    }
  }

  lemma {:induction false} OneMoreInstalment(
      rows: seq<Instalment>, debts: seq<Debt>, n: nat, shop: ShopId, customer: CustomerId)
    requires rows != [] && n <= |debts|
    ensures var r := Last(rows);
            RepaidAcross(rows, debts, n, shop, customer) ==
            RepaidAcross(Front(rows), debts, n, shop, customer) +
            if r.debt < n && OwedBy(debts[r.debt], shop, customer) then r.amount else 0
  {
    if n > 0 {
      OneMoreInstalment(rows, debts, n - 1, shop, customer);
    }
  }

  /** The half-cent instalments on the first `n` debts, those of the customer only. */
  function HalfCentsAcross(
      cat: Catalog, reqs: seq<Request>, debts: seq<Debt>, n: nat, shop: ShopId, customer: CustomerId): nat
    requires n <= |debts|
  {
    if n == 0 then 0
    else
      HalfCentsAcross(cat, reqs, debts, n - 1, shop, customer) +
      if OwedBy(debts[n - 1], shop, customer) then HalfCents(cat, reqs, n - 1) else 0
  }

  lemma {:induction false} NoHalfCentsAcrossIff(
      cat: Catalog, reqs: seq<Request>, debts: seq<Debt>, n: nat, shop: ShopId, customer: CustomerId)
    requires n <= |debts|
    ensures HalfCentsAcross(cat, reqs, debts, n, shop, customer) == 0 <==>
            forall i: DebtId :: i < n && OwedBy(debts[i], shop, customer) ==> HalfCents(cat, reqs, i) == 0
  {
    if n > 0 {
      NoHalfCentsAcrossIff(cat, reqs, debts, n - 1, shop, customer);
    }
  }

  lemma {:induction false} SummaryFromBooks(
      cat: Catalog, reqs: seq<Request>, rows: seq<Instalment>, debts: seq<Debt>, n: nat, shop: ShopId, customer: CustomerId)
    requires n <= |debts|
    requires forall i: DebtId :: i < n ==>
               Books(debts[i], RepaidOn(rows, i), CountOn(rows, i), HalfCents(cat, reqs, i))
    ensures SummaryTotal(debts[..n], shop, customer) ==
            OriginalTotal(debts[..n], shop, customer) - RepaidAcross(rows, debts, n, shop, customer)
            + HalfCentsAcross(cat, reqs, debts, n, shop, customer)
  {
    if n > 0 {
      assert Front(debts[..n]) == debts[..n - 1];
      SummaryFromBooks(cat, reqs, rows, debts, n - 1, shop, customer);
    }
  }

  /**
    For every shop and customer and on every run, the debtors summary and the reminder message
    show the same amount: the original debts less all instalments, plus a cent for every
    instalment with half a cent. So the books add up exactly if there was none on those debts.
   */
  lemma {:induction false} DebtViewsAgree(cat: Catalog, reqs: seq<Request>, shop: ShopId, customer: CustomerId)
    requires ValidRun(reqs)
    ensures var db := Exec(cat, reqs);
            var summary := SummaryTotal(db.debts, shop, customer);
            var owed := OriginalTotal(db.debts, shop, customer) - RepaidTotal(db.instalments, db.debts, shop, customer);
            && summary == ReminderTotal(ReminderRows(db.debts, shop, customer), 0)
            && summary == owed + HalfCentsAcross(cat, reqs, db.debts, |db.debts|, shop, customer)
            && (summary == owed <==>
                forall i: DebtId :: i < |db.debts| && OwedBy(db.debts[i], shop, customer) ==>
                  HalfCents(cat, reqs, i) == 0)
  {
    var db := Exec(cat, reqs);
    forall i: DebtId | i < |db.debts|
      ensures Books(db.debts[i], RepaidOn(db.instalments, i), CountOn(db.instalments, i), HalfCents(cat, reqs, i))
    {
      DebtConservation(cat, reqs, i);
    }
    DebtViewsOf(cat, reqs, db, shop, customer);
  }

  lemma DebtViewsOf(cat: Catalog, reqs: seq<Request>, db: Db, shop: ShopId, customer: CustomerId)
    requires forall i: DebtId :: i < |db.debts| ==>
               Books(db.debts[i], RepaidOn(db.instalments, i), CountOn(db.instalments, i), HalfCents(cat, reqs, i))
    ensures var summary := SummaryTotal(db.debts, shop, customer);
            var owed := OriginalTotal(db.debts, shop, customer) - RepaidTotal(db.instalments, db.debts, shop, customer);
            && summary == ReminderTotal(ReminderRows(db.debts, shop, customer), 0)
            && summary == owed + HalfCentsAcross(cat, reqs, db.debts, |db.debts|, shop, customer)
            && (summary == owed <==>
                forall i: DebtId :: i < |db.debts| && OwedBy(db.debts[i], shop, customer) ==>
                  HalfCents(cat, reqs, i) == 0)
  {
    assert db.debts[..|db.debts|] == db.debts;
    SummaryFromBooks(cat, reqs, db.instalments, db.debts, |db.debts|, shop, customer);
    NoHalfCentsAcrossIff(cat, reqs, db.debts, |db.debts|, shop, customer);
    RepaidByDebt(db.instalments, db.debts, shop, customer);
    ReminderIsSummary(db.debts, shop, customer, 0);
  }
}
