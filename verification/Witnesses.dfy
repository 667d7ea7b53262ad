/**
  Runs of requests that reach what the code does not keep. One shop sells one product by
  weight, at 100 cents a unit.
 */
module Witnesses {
  import opened Wrappers
  import opened Fifo
  import opened Stock
  import opened StockViews
  import opened StockTasks
  import opened Pricing
  import opened Shop
  import opened ShopStock
  import opened Lifecycle
  import opened Accounting
  import opened Debts
  import opened Totals
  import opened Delivery

  function OneProduct(tracked: bool): Catalog {
    map[0 := Product(0, KILOGRAM, tracked)]
  }

  /** One line of the product for customer 0, paid in cash as far as `cash` goes. */
  function Buy(quantity: int, cash: real): CreateDto {
    CreateDto([LineDto(0, quantity, 100, 0, true)], None, None, Some(0), None, cash, 0.0, None)
  }

  lemma ExecThen(cat: Catalog, reqs: seq<Request>, req: Request)
    ensures Exec(cat, reqs + [req]) == Next(cat, Exec(cat, reqs), req)
  {
    assert Front(reqs + [req]) == reqs;
  }

  // ------------------------------------------------- steps

  lemma BuyTotal(quantity: int, cash: real)
    ensures DtoTotal(Buy(quantity, cash)) == quantity as real / 10.0
  {
    var items := Buy(quantity, cash).items;
    assert Front(items) == [];
    assert Subtotal([]) == 0.0 && Tax([]) == 0.0;
    assert LineTotal(items[0]) == quantity as real / 10.0;
    assert Subtotal(items) == Subtotal(Front(items)) + LineTotal(items[0]);
    assert Tax(items) == Tax(Front(items)) + LineTax(items[0]);
  }

  /** An order that leaves `owed` whole cents: a new row, its debt if any, and a reservation if tracked. */
  lemma Bought(tracked: bool, db: Db, quantity: int, cash: real, owed: int)
    requires quantity > 0 && cash >= 0.0 && owed >= 0 && quantity as real / 10.0 - cash == owed as real
    requires tracked ==> ReserveStock(Get(db.shelves, 0), quantity).Ok?
    ensures ValidRequest(Ordering(0, Buy(quantity, cash)))
    ensures var order := NewOrder(0, Buy(quantity, cash));
            && order.items == [Item(0, quantity)] && order.notPaid == owed && order.shop == 0
            && order.status == (if owed == 0 then Paid else Confirmed) && !order.stockDeducted
            && Next(OneProduct(tracked), db, Ordering(0, Buy(quantity, cash))) ==
               db.(shelves := if tracked
                              then db.shelves[0 := ReserveStock(Get(db.shelves, 0), quantity).value] else db.shelves,
                   orders := db.orders + [order],
                   debts := db.debts + (if owed > 0 then [Debt(0, |db.orders|, 0, owed, 0, owed, DebtPending)] else []))
  {
    var dto := Buy(quantity, cash);
    var cat := OneProduct(tracked);
    BuyTotal(quantity, cash);
    CentsOfExact(owed as real);
    assert DtoTotal(dto) - dto.cash - dto.card == owed as real;
    assert Front(dto.items) == [];
    assert ReserveLines(cat, 0, db.shelves, Front(dto.items)) == Ok(db.shelves);
    assert ItemsOf(dto.items) == [Item(0, quantity)];
  }

  /** Returning the lines of a paid one-line order, each within that line. */
  lemma ReturnedTo(tracked: bool, db: Db, id: OrderId, quantity: int, items: seq<Item>)
    requires id < |db.orders| && db.orders[id].shop == 0 && db.orders[id].status.Paid?
    requires db.orders[id].items == [Item(0, quantity)]
    requires forall i :: 0 <= i < |items| ==> items[i].product == 0 && items[i].quantity <= quantity
    ensures var cat := OneProduct(tracked);
            && ReturnsOrder(cat, db, Returning(0, id, items), id)
            && ApplyAll(db.shelves, ReturnTasks(items, id)).Ok?
            && Next(cat, db, Returning(0, id, items)) ==
               WithStatus(db, id, Refunded).(shelves := ApplyAll(db.shelves, ReturnTasks(items, id)).value)
  {
    ReturnAcceptedIff(OneProduct(tracked), db, 0, id, items);
    assert FirstLine(db.orders[id].items, 0, 0);
    ReturnNeverFails(db.shelves, items, id);
  }

  lemma ExecTwo(cat: Catalog, a: Request, b: Request)
    ensures Exec(cat, [a, b]) == Next(cat, Next(cat, EmptyDb, a), b)
  {
    assert [a] == [] + [a] && [a, b] == [a] + [b];
    ExecThen(cat, [], a);
    ExecThen(cat, [a], b);
  }

  lemma ExecThree(cat: Catalog, a: Request, b: Request, c: Request)
    ensures Exec(cat, [a, b, c]) == Next(cat, Next(cat, Next(cat, EmptyDb, a), b), c)
  {
    ExecTwo(cat, a, b);
    assert [a, b, c] == [a, b] + [c];
    ExecThen(cat, [a, b], c);
  }

  lemma ExecFive(cat: Catalog, a: Request, b: Request, c: Request, d: Request, e: Request)
    ensures Exec(cat, [a, b, c, d, e]) == Next(cat, Next(cat, Next(cat, Next(cat, Next(cat, EmptyDb, a), b), c), d), e)
  {
    ExecThree(cat, a, b, c);
    assert [a, b, c, d] == [a, b, c] + [d] && [a, b, c, d, e] == [a, b, c, d] + [e];
    ExecThen(cat, [a, b, c], d);
    ExecThen(cat, [a, b, c, d], e);
  }

  /** Order 0 sold `quantity` of the product and was settled. */
  ghost predicate PaidSale(db: Db, quantity: int) {
    && |db.orders| == 1 && db.orders[0].shop == 0 && db.orders[0].status.Paid?
    && db.orders[0].items == [Item(0, quantity)]
  }

  // ------------------------------------------------- views

  lemma SplitShelf()
    ensures var sh := ReceiveStock(ReturnStock(EmptyShelf, 2000, 0), 3000);
            && Sum(sh.batches) == 5000 && !Agree(sh)
            && sh.own == Some(Level(3000, 0)) && sh.stray == Some(Level(2000, 0))
  {
    var sh := ReceiveStock(ReturnStock(EmptyShelf, 2000, 0), 3000);
    assert sh.batches == [Batch(0, 2000, 2000), Batch(1, 3000, 3000)];
    assert sh.batches[1..] == [Batch(1, 3000, 3000)];
    assert Sum([Batch(1, 3000, 3000)]) == 3000;
  }

  lemma ReturnThenReceipt(db: Db)
    requires PaidSale(db, 2000) && Get(db.shelves, 0) == EmptyShelf
    ensures var cat := OneProduct(false);
            var back := Next(cat, db, Returning(0, 0, [Item(0, 2000)]));
            Get(Next(cat, back, Receiving(0, 0, 3000)).shelves, 0) == ReceiveStock(ReturnStock(EmptyShelf, 2000, 0), 3000)
  {
    ReturnedTo(false, db, 0, 2000, [Item(0, 2000)]);
    assert ReturnTasks([Item(0, 2000)], 0) == [Task(0, Return(2000, 0))];
    ApplyOne(db.shelves, Task(0, Return(2000, 0)));
  }

  /**
    An untracked product is sold, returned and then received. The return inserts a level row
    without a shop, the receipt a second one, and neither shows the 5000 there are.
   */
  lemma ReturnThenReceiptSplits()
    ensures var reqs := [Ordering(0, Buy(2000, 200.0)), Returning(0, 0, [Item(0, 2000)]), Receiving(0, 0, 3000)];
            var sh := Get(Exec(OneProduct(false), reqs).shelves, 0);
            && ValidRun(reqs) && !Agree(sh)
            && Sum(sh.batches) == 5000
            && sh.own == Some(Level(3000, 0)) && sh.stray == Some(Level(2000, 0))
  {
    Bought(false, EmptyDb, 2000, 200.0, 0);
    ExecThree(OneProduct(false), Ordering(0, Buy(2000, 200.0)), Returning(0, 0, [Item(0, 2000)]), Receiving(0, 0, 3000));
    ReturnThenReceipt(Next(OneProduct(false), EmptyDb, Ordering(0, Buy(2000, 200.0))));
    SplitShelf();
  }

  // ------------------------------------------------- prices

  /** 2.5 units at 399 cents and 12 %, one at 500 untaxed; the cashier gives 10 %, the customer usually has half off. */
  function Mixed(): CreateDto {
    CreateDto([LineDto(0, 2500, 399, 1200, true), LineDto(0, 1000, 500, 0, true)], Some(PERCENT), Some(1000.0),
              Some(0), Some(Discount(PERCENT, 5000.0)), 1000.0, 467.0, None)
  }

  lemma MixedAmounts()
    ensures var items := Mixed().items;
            && Subtotal(items) == 1497.5 && Tax(items) == 119.7 && StoredLines(items) == 1498
            && DtoTotal(Mixed()) == 1467.45 && DiscountAmount(Subtotal(items), DtoDiscount(Mixed())) == 149.75
  {
    var first, items := [LineDto(0, 2500, 399, 1200, true)], Mixed().items;
    assert Front(items) == first && Front(first) == [];
    assert LineTotal(first[0]) == 997.5 && LineTotal(items[1]) == 500.0;
    assert LineTax(first[0]) == 119.7 && LineTax(items[1]) == 0.0;
    assert Subtotal(first) == 997.5 && Tax(first) == 119.7;
    CentsBounds(997.5);
    CentsBounds(500.0);
    assert StoredLines(first) == 998;
  }

  /** Every money column of a stored order with several rates, a discount and two tenders. */
  lemma MixedOrder()
    ensures var db := Exec(OneProduct(false), [Ordering(0, Mixed())]);
            && ValidRun([Ordering(0, Mixed())]) && |db.orders| == 1 && db.debts == []
            && var order := db.orders[0];
               && order.subtotal == 1498 && order.tax == 120 && order.discount == 150 && order.total == 1467
               && order.lineTotals == 1498 && order.cash == 1000 && order.card == 467 && order.notPaid == 0
               && order.status.Paid? && order.items == [Item(0, 2500), Item(0, 1000)]
  {
    var cat, sale := OneProduct(false), Ordering(0, Mixed());
    MixedAmounts();
    MixedAccepted();
    assert [sale] == [] + [sale];
    ExecThen(cat, [], sale);
  }

  lemma MixedAccepted()
    ensures Next(OneProduct(false), EmptyDb, Ordering(0, Mixed())) == EmptyDb.(orders := [NewOrder(0, Mixed())])
    ensures var order := NewOrder(0, Mixed());
            && order.subtotal == 1498 && order.tax == 120 && order.discount == 150 && order.total == 1467
            && order.lineTotals == 1498 && order.cash == 1000 && order.card == 467 && order.notPaid == 0
            && order.status.Paid? && order.items == [Item(0, 2500), Item(0, 1000)]
  {
    MixedAmounts();
    MixedLines();
    MixedRounding();
    assert DtoNotPaid(Mixed()) == 0;
    assert EmptyDb.orders + [NewOrder(0, Mixed())] == [NewOrder(0, Mixed())];
  }

  lemma MixedLines()
    ensures ReserveLines(OneProduct(false), 0, EmptyDb.shelves, Mixed().items) == Ok(EmptyDb.shelves)
  {
    var first, items := [LineDto(0, 2500, 399, 1200, true)], Mixed().items;
    assert Front(items) == first && Front(first) == [];
    assert ReserveLines(OneProduct(false), 0, EmptyDb.shelves, first) == Ok(EmptyDb.shelves);
  }

  lemma MixedRounding()
    ensures Cents(1497.5) == 1498 && Cents(119.7) == 120 && Cents(149.75) == 150 && Cents(1467.45) == 1467
    ensures Cents(1000.0) == 1000 && Cents(467.0) == 467 && Cents(0.45) == 0
  {
  }

  // ------------------------------------------------- debts

  /** A debt of 1000 cents and an instalment of 1.5 cents: 2 paid and 999 left. */
  lemma HalfCentDrifts()
    ensures var reqs := [Ordering(0, Buy(10000, 0.0)), Repaying(0, 0, 1.5)];
            var db := Exec(OneProduct(false), reqs);
            && ValidRun(reqs) && |db.debts| == 1
            && db.debts[0] == Debt(0, 0, 0, 1000, 2, 999, DebtPartial)
            && HalfCents(OneProduct(false), reqs, 0) == 1
  {
    var cat := OneProduct(false);
    var sale, instalment := Ordering(0, Buy(10000, 0.0)), Repaying(0, 0, 1.5);
    assert [sale] == [] + [sale] && [sale, instalment] == [sale] + [instalment];
    ExecThen(cat, [], sale);
    ExecThen(cat, [sale], instalment);
    Bought(false, EmptyDb, 10000, 0.0, 1000);
    CentsBounds(1.5);
    CentsBounds(998.5);
    assert Front([sale, instalment]) == [sale] && Front([sale]) == [];
    assert !Accepts(Exec(cat, []), sale, 0);
    assert HalfCents(cat, [sale], 0) == 0;
    assert IsHalfCent(1.5);
  }

  /** A debt of 1000 cents and an instalment of 999.75: nothing is left, it is not PAID, and no more is taken. */
  lemma QuarterCentStrands()
    ensures var reqs := [Ordering(0, Buy(10000, 0.0)), Repaying(0, 0, 999.75)];
            var db := Exec(OneProduct(false), reqs);
            && ValidRun(reqs) && |db.debts| == 1
            && db.debts[0] == Debt(0, 0, 0, 1000, 1000, 0, DebtPartial)
            && db.orders[0].status.Confirmed?
            && (forall more: real :: more >= 1.0 ==> RepayDebt(db, 0, 0, more).Err?)
  {
    var cat := OneProduct(false);
    var sale, instalment := Ordering(0, Buy(10000, 0.0)), Repaying(0, 0, 999.75);
    assert [sale] == [] + [sale] && [sale, instalment] == [sale] + [instalment];
    ExecThen(cat, [], sale);
    ExecThen(cat, [sale], instalment);
    Bought(false, EmptyDb, 10000, 0.0, 1000);
    CentsBounds(999.75);
    CentsBounds(0.25);
    StrandedIff(Exec(cat, [sale]), 0, 0, 999.75);
  }

  lemma HalfRepaid(db: Db, paid: int, remaining: int, status: DebtStatus)
    requires |db.orders| == 1 && remaining >= 100 && !status.DebtPaid?
    requires db.debts == [Debt(0, 0, 0, 200, paid, remaining, status)]
    ensures var next := Next(OneProduct(false), db, Repaying(0, 0, 100.0));
            && next.debts ==
               [Debt(0, 0, 0, 200, paid + 100, remaining - 100, if remaining == 100 then DebtPaid else DebtPartial)]
            && next.orders == (if remaining == 100 then db.orders[0 := db.orders[0].(status := Paid)] else db.orders)
  {
    CentsOfExact(100.0);
    CentsOntoWhole(paid, 100.0);
    CentsOntoWhole(remaining - 100, 0.0);
    assert remaining as real - 100.0 == (remaining - 100) as real + 0.0;
  }

  lemma HalvesClose(db: Db)
    requires |db.orders| == 1 && db.debts == [Debt(0, 0, 0, 200, 0, 200, DebtPending)]
    ensures var once := Next(OneProduct(false), db, Repaying(0, 0, 100.0));
            var twice := Next(OneProduct(false), once, Repaying(0, 0, 100.0));
            && once.debts == [Debt(0, 0, 0, 200, 100, 100, DebtPartial)] && once.orders == db.orders
            && twice.debts == [Debt(0, 0, 0, 200, 200, 0, DebtPaid)]
            && twice.orders == db.orders[0 := db.orders[0].(status := Paid)]
  {
    HalfRepaid(db, 0, 200, DebtPending);
    HalfRepaid(Next(OneProduct(false), db, Repaying(0, 0, 100.0)), 100, 100, DebtPartial);
  }

  /** A debt of 200 repaid in two halves: the first leaves the order CONFIRMED, the second makes it PAID. */
  lemma TwoInstalmentsClose()
    ensures var sale, half := Ordering(0, Buy(2000, 0.0)), Repaying(0, 0, 100.0);
            var once, twice := Exec(OneProduct(false), [sale, half]), Exec(OneProduct(false), [sale, half, half]);
            && once.debts == [Debt(0, 0, 0, 200, 100, 100, DebtPartial)]
            && |once.orders| == 1 && once.orders[0].status.Confirmed?
            && twice.debts == [Debt(0, 0, 0, 200, 200, 0, DebtPaid)]
            && |twice.orders| == 1 && twice.orders[0].status.Paid?
  {
    var cat, sale, half := OneProduct(false), Ordering(0, Buy(2000, 0.0)), Repaying(0, 0, 100.0);
    Bought(false, EmptyDb, 2000, 0.0, 200);
    ExecTwo(cat, sale, half);
    ExecThree(cat, sale, half, half);
    HalvesClose(Next(cat, EmptyDb, sale));
  }

  // ------------------------------------------------- two customers

  function BuyFor(customer: CustomerId, quantity: int): CreateDto {
    Buy(quantity, 0.0).(customer := Some(customer))
  }

  lemma BoughtFor(db: Db, customer: CustomerId, quantity: int, owed: int)
    requires quantity > 0 && quantity == 10 * owed
    ensures ValidRequest(Ordering(0, BuyFor(customer, quantity)))
    ensures var next := Next(OneProduct(false), db, Ordering(0, BuyFor(customer, quantity)));
            next.debts == db.debts + [Debt(0, |db.orders|, customer, owed, 0, owed, DebtPending)]
            && |next.orders| == |db.orders| + 1
  {
    var dto := BuyFor(customer, quantity);
    BuyTotal(quantity, 0.0);
    CentsOfExact(owed as real);
    assert dto.items == Buy(quantity, 0.0).items;
    assert Subtotal(dto.items) == quantity as real / 10.0 && DtoTotal(dto) == quantity as real / 10.0;
    assert Front(dto.items) == [];
    assert ReserveLines(OneProduct(false), 0, db.shelves, Front(dto.items)) == Ok(db.shelves);
  }

  lemma TwoDebtors(db: Db)
    requires db.debts == [Debt(0, 0, 0, 1000, 0, 1000, DebtPending)] + [Debt(0, 1, 1, 500, 0, 500, DebtPending)]
    ensures SummaryTotal(db.debts, 0, 0) == 1000 && SummaryTotal(db.debts, 0, 1) == 500
    ensures SummaryTotal(db.debts, 1, 0) == 0
  {
    var first := [Debt(0, 0, 0, 1000, 0, 1000, DebtPending)];
    assert Front(db.debts) == first && Front(first) == [];
  }

  /** Customer 0 owes 1000 and customer 1 owes 500: each is shown their own, and another shop nothing. */
  lemma EachOwesTheirOwn()
    ensures var reqs := [Ordering(0, BuyFor(0, 10000)), Ordering(0, BuyFor(1, 5000))];
            var debts := Exec(OneProduct(false), reqs).debts;
            && SummaryTotal(debts, 0, 0) == ReminderTotal(ReminderRows(debts, 0, 0), 0) == 1000
            && SummaryTotal(debts, 0, 1) == ReminderTotal(ReminderRows(debts, 0, 1), 0) == 500
            && SummaryTotal(debts, 1, 0) == 0
  {
    var cat, first, second := OneProduct(false), Ordering(0, BuyFor(0, 10000)), Ordering(0, BuyFor(1, 5000));
    BoughtFor(EmptyDb, 0, 10000, 1000);
    BoughtFor(Next(cat, EmptyDb, first), 1, 5000, 500);
    ExecTwo(cat, first, second);
    var db := Next(cat, Next(cat, EmptyDb, first), second);
    assert EmptyDb.debts == [];
    TwoDebtors(db);
    ReminderIsSummary(db.debts, 0, 0, 0);
    ReminderIsSummary(db.debts, 0, 1, 0);
  }

  // ------------------------------------------------- returns

  /** What a return of order 0 books, and what it leaves of the order. */
  lemma ReturnBooks(db: Db, quantity: int, k: nat)
    requires PaidSale(db, quantity) && quantity > 0
    ensures var next := Next(OneProduct(false), db, Returning(0, 0, Repeat(Item(0, quantity), k)));
            && next.orders == db.orders[0 := db.orders[0].(status := Refunded)]
            && next.debts == db.debts
            && Moved(Get(next.shelves, 0).log, RETURN, 0) == Moved(Get(db.shelves, 0).log, RETURN, 0) + k * quantity
  {
    var lines := Repeat(Item(0, quantity), k);
    ReturnedTo(false, db, 0, quantity, lines);
    DemandOfRepeat(Item(0, quantity), k);
    NextMoves(OneProduct(false), db, Returning(0, 0, lines), 0, 0);
  }

  /** One request names the product twice: 4000 come back of the 2000 sold. */
  lemma NamingTwiceReturnsTwice()
    ensures var reqs := [Ordering(0, Buy(2000, 200.0)), Returning(0, 0, [Item(0, 2000), Item(0, 2000)])];
            var db := Exec(OneProduct(false), reqs);
            && ValidRun(reqs) && Exists(db, 0) && HasDebt(db, 0) == 0
            && FirstQuantity(db.orders[0].items, 0) == Demand(db.orders[0].items, 0) == 2000
            && Moved(Get(db.shelves, 0).log, RETURN, 0) == 4000
  {
    assert [Item(0, 2000), Item(0, 2000)] == Repeat(Item(0, 2000), 2);
    assert [Item(0, 2000)] == Repeat(Item(0, 2000), 1);
    DemandOfRepeat(Item(0, 2000), 1);
    Bought(false, EmptyDb, 2000, 200.0, 0);
    ExecTwo(OneProduct(false), Ordering(0, Buy(2000, 200.0)), Returning(0, 0, Repeat(Item(0, 2000), 2)));
    ReturnBooks(Next(OneProduct(false), EmptyDb, Ordering(0, Buy(2000, 200.0))), 2000, 2);
  }

  /** The instalment that closes the debt of a refunded order makes it PAID again. */
  lemma RepaymentReopens(db: Db, quantity: int)
    requires PaidSale(db, quantity) && quantity > 0
    requires db.debts == [Debt(0, 0, 0, 200, 0, 200, DebtPending)]
    ensures var cat := OneProduct(false);
            var once := Returning(0, 0, [Item(0, quantity)]);
            var last := Next(cat, Next(cat, Next(cat, db, once), Repaying(0, 0, 200.0)), once);
            && last.orders == db.orders[0 := db.orders[0].(status := Refunded)]
            && Moved(Get(last.shelves, 0).log, RETURN, 0) == Moved(Get(db.shelves, 0).log, RETURN, 0) + 2 * quantity
  {
    var cat := OneProduct(false);
    var once := Returning(0, 0, [Item(0, quantity)]);
    assert [Item(0, quantity)] == Repeat(Item(0, quantity), 1);
    ReturnBooks(db, quantity, 1);
    var returned := Next(cat, db, once);
    var repaid := Next(cat, returned, Repaying(0, 0, 200.0));
    RepaidInFull(returned);
    ReturnBooks(repaid, quantity, 1);
  }

  lemma RepaidInFull(db: Db)
    requires |db.orders| == 1 && db.debts == [Debt(0, 0, 0, 200, 0, 200, DebtPending)]
    ensures var next := Next(OneProduct(false), db, Repaying(0, 0, 200.0));
            next.orders == db.orders[0 := db.orders[0].(status := Paid)] && next.shelves == db.shelves
  {
  }

  /** Sold on credit for 200 cents and then marked paid. */
  lemma CreditSale()
    ensures var cat := OneProduct(false);
            var db := Next(cat, Next(cat, EmptyDb, Ordering(0, Buy(2000, 0.0))), MarkingPaid(0, 0));
            && PaidSale(db, 2000) && db.orders[0].notPaid == 200 && Get(db.shelves, 0) == EmptyShelf
            && db.debts == [Debt(0, 0, 0, 200, 0, 200, DebtPending)]
  {
    Bought(false, EmptyDb, 2000, 0.0, 200);
  }

  /** Sold on credit, marked paid, returned, repaid in full, returned again: 4000 come back of 2000. */
  lemma RepaymentAllowsASecondReturn()
    ensures var once := Returning(0, 0, [Item(0, 2000)]);
            var reqs := [Ordering(0, Buy(2000, 0.0)), MarkingPaid(0, 0), once, Repaying(0, 0, 200.0), once];
            var db := Exec(OneProduct(false), reqs);
            && Exists(db, 0) && HasDebt(db, 0) == 1 && FirstQuantity(db.orders[0].items, 0) == 2000
            && Moved(Get(db.shelves, 0).log, RETURN, 0) == (1 + 1) * (1 * 2000)
  {
    var cat := OneProduct(false);
    var sale, once := Ordering(0, Buy(2000, 0.0)), Returning(0, 0, [Item(0, 2000)]);
    ExecFive(cat, sale, MarkingPaid(0, 0), once, Repaying(0, 0, 200.0), once);
    CreditSale();
    RepaymentReopens(Next(cat, Next(cat, EmptyDb, sale), MarkingPaid(0, 0)), 2000);
  }

  /** That run is valid, and each of its returns names the product once. */
  lemma SecondReturnIsValid()
    ensures var once := Returning(0, 0, [Item(0, 2000)]);
            var reqs := [Ordering(0, Buy(2000, 0.0)), MarkingPaid(0, 0), once, Repaying(0, 0, 200.0), once];
            ValidRun(reqs) && NamedAtMost(reqs, 0, 0, 1)
  {
    assert [Item(0, 2000)] == Repeat(Item(0, 2000), 1);
    DemandOfRepeat(Item(0, 2000), 1);
  }

  // ------------------------------------------------- a second cancel

  /** One batch inserted with 10000, and one level row in the shop. */
  ghost predicate Holds(sh: Shelf, stock: int, reserved: int) {
    sh.batches == [Batch(0, stock, 10000)] && sh.own == Some(Level(stock, reserved)) && sh.stray.None?
  }

  /** An open order of the shop with one line. */
  ghost predicate OpenLine(db: Db, id: OrderId, quantity: int) {
    && id < |db.orders| && db.orders[id].shop == 0 && db.orders[id].items == [Item(0, quantity)]
    && !Settled(db.orders[id].status) && !db.orders[id].stockDeducted
  }

  /** What one batch and `orders` orders look like after a run of the tracked shop. */
  ghost predicate After(reqs: seq<Request>, orders: nat, stock: int, reserved: int) {
    var db := Exec(OneProduct(true), reqs);
    ValidRun(reqs) && |db.orders| == orders && Holds(Get(db.shelves, 0), stock, reserved)
  }

  ghost predicate OpenAt(reqs: seq<Request>, id: OrderId, quantity: int) {
    OpenLine(Exec(OneProduct(true), reqs), id, quantity)
  }

  lemma OrderHolds(db: Db, quantity: int, cents: nat, stock: int, reserved: int)
    requires quantity == 10 * cents && cents > 0
    requires Holds(Get(db.shelves, 0), stock, reserved) && quantity <= stock - reserved
    ensures var next := Next(OneProduct(true), db, Ordering(0, Buy(quantity, 0.0)));
            && Holds(Get(next.shelves, 0), stock, reserved + quantity)
            && |next.orders| == |db.orders| + 1 && Front(next.orders) == db.orders
            && OpenLine(next, |db.orders|, quantity)
  {
    Bought(true, db, quantity, 0.0, cents);
  }

  /** Each of these takes one more request; `kept` is an open order it leaves open. */
  lemma ThenOrder(reqs: seq<Request>, quantity: int, id: OrderId, orders: nat, stock: int, reserved: int, held: int,
                  kept: OrderId, q: int)
    requires quantity > 0 && quantity % 10 == 0 && id + 1 == orders && held == reserved + quantity <= stock
    requires After(reqs, id, stock, reserved)
    ensures var next := reqs + [Ordering(0, Buy(quantity, 0.0))];
            && After(next, orders, stock, held) && OpenAt(next, id, quantity)
            && (OpenAt(reqs, kept, q) ==> OpenAt(next, kept, q))
  {
    ExecThen(OneProduct(true), reqs, Ordering(0, Buy(quantity, 0.0)));
    OrderHolds(Exec(OneProduct(true), reqs), quantity, quantity / 10, stock, reserved);
  }

  lemma CancelHolds(db: Db, id: OrderId, quantity: int, stock: int, reserved: int)
    requires OpenLine(db, id, quantity) && Holds(Get(db.shelves, 0), stock, reserved)
    ensures var next := Next(OneProduct(true), db, Cancelling(0, id));
            && Holds(Get(next.shelves, 0), stock, Max(0, reserved - quantity))
            && next.orders == db.orders[id := db.orders[id].(status := Cancelled)]
  {
    ReleaseNeverFails(db.shelves, db.orders[id].items);
    assert ReleaseTasks(db.orders[id].items) == [Task(0, Release(quantity))];
    ApplyOne(db.shelves, Task(0, Release(quantity)));
  }

  lemma ThenCancel(
      reqs: seq<Request>, id: OrderId, quantity: int, orders: nat, stock: int, reserved: int, held: int,
      kept: OrderId, q: int)
    requires After(reqs, orders, stock, reserved) && OpenAt(reqs, id, quantity) && held == Max(0, reserved - quantity)
    ensures var next := reqs + [Cancelling(0, id)];
            && After(next, orders, stock, held)
            && (OpenAt(reqs, kept, q) ==> OpenAt(next, kept, q))
  {
    ExecThen(OneProduct(true), reqs, Cancelling(0, id));
    CancelHolds(Exec(OneProduct(true), reqs), id, quantity, stock, reserved);
  }

  lemma DrainOneBatch(stock: int, quantity: int)
    requires 0 < stock && 0 < quantity
    ensures Drain([Batch(0, stock, 10000)], quantity) ==
            Drained([Batch(0, stock - Min(stock, quantity), 10000)], quantity - Min(stock, quantity))
  {
    var more := quantity - Min(stock, quantity);
    assert Drain([], more) == Drained([], more);
  }

  lemma JobOfLine(db: Db, id: OrderId, quantity: int, stock: int, reserved: int)
    requires OpenLine(db, id, quantity) && 0 < quantity && 0 < stock && Holds(Get(db.shelves, 0), stock, reserved)
    ensures quantity > stock ==> RunJob(db, id, NoFault).0.Rejected?
    ensures quantity <= stock ==>
              var next := Next(OneProduct(true), db, JobAttempt(id, NoFault));
              && Holds(Get(next.shelves, 0), stock - quantity, Max(0, reserved - quantity))
              && next.orders == db.orders[id := db.orders[id].(stockDeducted := true)]
  {
    DrainOneBatch(stock, quantity);
    assert DeductTasks(db.orders[id].items, id) == [Task(0, Deduct(quantity, id))];
    ApplyOne(db.shelves, Task(0, Deduct(quantity, id)));
  }

  lemma ThenJob(reqs: seq<Request>, id: OrderId, quantity: int, orders: nat, stock: int, reserved: int,
                left: int, held: int, kept: OrderId, q: int)
    requires After(reqs, orders, stock, reserved) && OpenAt(reqs, id, quantity) && 0 < quantity <= stock
    requires left == stock - quantity && held == Max(0, reserved - quantity)
    ensures var next := reqs + [JobAttempt(id, NoFault)];
            && After(next, orders, left, held)
            && (kept != id && OpenAt(reqs, kept, q) ==> OpenAt(next, kept, q))
  {
    ExecThen(OneProduct(true), reqs, JobAttempt(id, NoFault));
    JobOfLine(Exec(OneProduct(true), reqs), id, quantity, stock, reserved);
  }

  function TenUnits(): seq<Request> {
    [Receiving(0, 0, 10000)]
  }

  lemma ReceiptHolds(db: Db)
    requires Get(db.shelves, 0) == EmptyShelf
    ensures var next := Next(OneProduct(true), db, Receiving(0, 0, 10000));
            Holds(Get(next.shelves, 0), 10000, 0) && next.orders == db.orders
  {
    assert ReceiveStock(EmptyShelf, 10000).batches == [Batch(0, 10000, 10000)];
  }

  lemma ThenReceipt(reqs: seq<Request>)
    requires ValidRun(reqs) && Get(Exec(OneProduct(true), reqs).shelves, 0) == EmptyShelf
    ensures After(reqs + [Receiving(0, 0, 10000)], |Exec(OneProduct(true), reqs).orders|, 10000, 0)
  {
    ExecThen(OneProduct(true), reqs, Receiving(0, 0, 10000));
    ReceiptHolds(Exec(OneProduct(true), reqs));
  }

  lemma TenUnitsHeld()
    ensures After(TenUnits(), 0, 10000, 0)
  {
    assert Exec(OneProduct(true), []) == EmptyDb;
    assert [] + [Receiving(0, 0, 10000)] == TenUnits();
    ThenReceipt([]);
  }

  /** Ten units are received, and two orders take five each. */
  function TwoOrders(): seq<Request> {
    TenUnits() + [Ordering(0, Buy(5000, 0.0))] + [Ordering(0, Buy(5000, 0.0))]
  }

  lemma TwoOrdersHold()
    ensures After(TwoOrders(), 2, 10000, 10000) && OpenAt(TwoOrders(), 0, 5000) && OpenAt(TwoOrders(), 1, 5000)
  {
    TenUnitsHeld();
    ThenOrder(TenUnits(), 5000, 0, 1, 10000, 0, 5000, 0, 5000);
    ThenOrder(TenUnits() + [Ordering(0, Buy(5000, 0.0))], 5000, 1, 2, 10000, 5000, 10000, 0, 5000);
  }

  /** The first of them is cancelled twice, which frees what the second still holds. */
  function CancelTwice(): seq<Request> {
    TwoOrders() + [Cancelling(0, 0)] + [Cancelling(0, 0)]
  }

  lemma CancelTwiceFreesAll()
    ensures After(CancelTwice(), 2, 10000, 0) && OpenAt(CancelTwice(), 1, 5000)
  {
    TwoOrdersHold();
    ThenCancel(TwoOrders(), 0, 5000, 2, 10000, 10000, 5000, 0, 5000);
    ThenCancel(TwoOrders(), 0, 5000, 2, 10000, 10000, 5000, 1, 5000);
    ThenCancel(TwoOrders() + [Cancelling(0, 0)], 0, 5000, 2, 10000, 5000, 0, 1, 5000);
  }

  /** A third order takes all ten. */
  function TakeAll(): seq<Request> {
    CancelTwice() + [Ordering(0, Buy(10000, 0.0))]
  }

  lemma ThirdOrderHolds(reqs: seq<Request>)
    requires After(reqs, 2, 10000, 0) && OpenAt(reqs, 1, 5000)
    ensures var next := reqs + [Ordering(0, Buy(10000, 0.0))];
            After(next, 3, 10000, 10000) && OpenAt(next, 1, 5000) && OpenAt(next, 2, 10000)
  {
    ThenOrder(reqs, 10000, 2, 3, 10000, 0, 10000, 1, 5000);
  }

  lemma TakeAllHolds()
    ensures After(TakeAll(), 3, 10000, 10000) && OpenAt(TakeAll(), 1, 5000) && OpenAt(TakeAll(), 2, 10000)
  {
    CancelTwiceFreesAll();
    ThirdOrderHolds(CancelTwice());
  }

  /** The second order is delivered. */
  function DeliverSecond(): seq<Request> {
    TakeAll() + [JobAttempt(1, NoFault)]
  }

  lemma DeliverSecondHolds()
    ensures After(DeliverSecond(), 3, 5000, 5000) && OpenAt(DeliverSecond(), 2, 10000)
  {
    TakeAllHolds();
    ThenJob(TakeAll(), 1, 5000, 3, 10000, 10000, 5000, 5000, 2, 10000);
  }

  lemma ShortJobIsRejected(reqs: seq<Request>, id: OrderId, quantity: int, orders: nat, stock: int, reserved: int)
    requires After(reqs, orders, stock, reserved) && OpenAt(reqs, id, quantity) && 0 < stock < quantity
    ensures RunJob(Exec(OneProduct(true), reqs), id, NoFault).0.Rejected?
  {
    JobOfLine(Exec(OneProduct(true), reqs), id, quantity, stock, reserved);
  }

  /** So the job of the third order, which reserved what it asks, is rejected. */
  lemma SecondCancelOversells()
    ensures ValidRun(DeliverSecond()) && OpenAt(DeliverSecond(), 2, 10000)
    ensures RunJob(Exec(OneProduct(true), DeliverSecond()), 2, NoFault).0.Rejected?
  {
    DeliverSecondHolds();
    ShortJobIsRejected(DeliverSecond(), 2, 10000, 3, 5000, 5000);
  }

  lemma DisciplinedThen(cat: Catalog, reqs: seq<Request>, req: Request)
    ensures Disciplined(cat, reqs + [req]) <==>
            Disciplined(cat, reqs) && DisciplinedStep(cat, Exec(cat, reqs), req, OpenOrders(cat, reqs))
    ensures OpenOrders(cat, reqs + [req]) == OpenAfter(cat, Exec(cat, reqs), req, OpenOrders(cat, reqs))
  {
    assert Front(reqs + [req]) == reqs;
  }

  lemma CancelledIsClosed(reqs: seq<Request>, id: OrderId, quantity: int)
    requires OpenAt(reqs, id, quantity)
    ensures id !in OpenOrders(OneProduct(true), reqs + [Cancelling(0, id)])
    ensures var db := Exec(OneProduct(true), reqs);
            CancelOrder(db, 0, id).Ok? && db.orders[id].items != []
  {
    var db := Exec(OneProduct(true), reqs);
    ReleaseNeverFails(db.shelves, db.orders[id].items);
    DisciplinedThen(OneProduct(true), reqs, Cancelling(0, id));
  }

  /** That run is not disciplined: its second cancel hits an order that is no longer open. */
  lemma SecondCancelIsUndisciplined()
    ensures !Disciplined(OneProduct(true), DeliverSecond())
  {
    var cat, once := OneProduct(true), TwoOrders() + [Cancelling(0, 0)];
    TwoOrdersHold();
    ThenCancel(TwoOrders(), 0, 5000, 2, 10000, 10000, 5000, 0, 5000);
    CancelledIsClosed(TwoOrders(), 0, 5000);
    CancelledIsClosed(once, 0, 5000);
    DisciplinedThen(cat, once, Cancelling(0, 0));
    DisciplinedThen(cat, CancelTwice(), Ordering(0, Buy(10000, 0.0)));
    DisciplinedThen(cat, TakeAll(), JobAttempt(1, NoFault));
  }

  // ------------------------------------------------- a shift of another shop

  /** Shop 0 sells for 200 and names the open shift of shop 1, which then shows the sale. */
  lemma SaleOnAnotherShopsShift()
    ensures var sale := Ordering(0, Buy(2000, 200.0).(shift := Some(5)));
            var reqs := [OpeningShift(1, 9, 0, 5), sale];
            var db := Exec(OneProduct(false), reqs);
            && ValidRun(reqs) && |db.orders| == 1 && db.orders[0].shop == 0
            && db.shifts == map[5 := Shift(1, 9, true, 0, None, 200, 0, 200, 1)]
  {
    var cat, open, sale := OneProduct(false), OpeningShift(1, 9, 0, 5), Ordering(0, Buy(2000, 200.0).(shift := Some(5)));
    ExecTwo(cat, open, sale);
    SaleOnShift(Next(cat, EmptyDb, open));
  }

  lemma ShiftedAmounts()
    ensures var dto := Buy(2000, 200.0).(shift := Some(5));
            && DtoTotal(dto) == 200.0 && DtoNotPaid(dto) == 0 && CheckPayment(dto).Ok?
            && Cents(0.0 + 200.0) == 200 && Cents(0.0 + 0.0) == 0
  {
    BuyTotal(2000, 200.0);
    assert Subtotal(Buy(2000, 200.0).(shift := Some(5)).items) == 200.0;
    CentsOfExact(200.0);
    CentsOfExact(0.0);
  }

  lemma ShiftedSale(shifts: map<ShiftId, Shift>)
    requires shifts == map[5 := Shift(1, 9, true, 0, None, 0, 0, 0, 0)]
    ensures AddSale(shifts, Buy(2000, 200.0).(shift := Some(5))) == map[5 := Shift(1, 9, true, 0, None, 200, 0, 200, 1)]
  {
    ShiftedAmounts();
  }

  lemma SaleOnShift(db: Db)
    requires db == EmptyDb.(shifts := map[5 := Shift(1, 9, true, 0, None, 0, 0, 0, 0)])
    ensures var next := Next(OneProduct(false), db, Ordering(0, Buy(2000, 200.0).(shift := Some(5))));
            && |next.orders| == 1 && next.orders[0].shop == 0
            && next.shifts == map[5 := Shift(1, 9, true, 0, None, 200, 0, 200, 1)]
  {
    var dto := Buy(2000, 200.0).(shift := Some(5));
    ShiftedAmounts();
    assert Front(dto.items) == [];
    assert ReserveLines(OneProduct(false), 0, db.shelves, Front(dto.items)) == Ok(db.shelves);
    ShiftedSale(db.shifts);
  }
}
