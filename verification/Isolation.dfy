/**
  Shops side by side: what a request of one shop can touch of another.
 */
module Isolation {
  import opened Wrappers
  import opened Stock
  import opened StockTasks
  import opened Pricing
  import opened Shop
  import opened ShopStock
  import opened Lifecycle
  import opened Accounting
  import opened Debts

  /** The shop a request acts for: its caller's, or for a job that of its order. */
  function ActingShop(db: Db, req: Request): Option<ShopId> {
    if req.JobAttempt? then (if Exists(db, req.order) then Some(db.orders[req.order].shop) else None)
    else Some(req.shop)
  }

  predicate SoldBy(cat: Catalog, p: ProductId, shop: ShopId) {
    p in cat && cat[p].shop == shop
  }

  // ------------------------------------------------- stock

  ghost predicate TasksOf(cat: Catalog, tasks: seq<Task>, shop: ShopId) {
    forall i :: 0 <= i < |tasks| ==> SoldBy(cat, tasks[i].product, shop)
  }

  lemma LinesAreSoldBy(cat: Catalog, shop: ShopId, items: seq<Item>)
    requires LinesOfShop(cat, shop, items)
    ensures forall i :: 0 <= i < |items| ==> SoldBy(cat, items[i].product, shop)
  {
    forall i | 0 <= i < |items| ensures SoldBy(cat, items[i].product, shop) {
      assert CheckUnit(cat, shop, items[i].product, items[i].quantity).Ok?;
    }
  }

  lemma {:induction false} TrackedOfShop(cat: Catalog, shop: ShopId, items: seq<LineDto>)
    requires LinesPass(cat, shop, items)
    ensures LinesOfShop(cat, shop, TrackedItems(cat, items))
  {
    if items != [] {
      TrackedOfShop(cat, shop, Front(items));
      assert CheckLine(cat, shop, Last(items)).Ok?;
    }
  }

  lemma StepTasksOfShop(cat: Catalog, db: Db, req: Request, shop: ShopId)
    requires UnitsPass(cat, db) && (ActingShop(db, req) == Some(shop) || ActingShop(db, req).None?)
    ensures TasksOf(cat, StepTasks(cat, db, req), shop)
  {
    match req {
      case Ordering(_, dto) =>
        if CreateOrder(cat, db, shop, dto).Ok? {
          ReserveLinesAsTasks(cat, shop, db.shelves, dto.items);
          TrackedOfShop(cat, shop, dto.items);
          LinesAreSoldBy(cat, shop, TrackedItems(cat, dto.items));
        }
      case Cancelling(_, id) =>
        if CancelOrder(db, shop, id).Ok? {
          LinesAreSoldBy(cat, shop, db.orders[id].items);
        }
      case Returning(_, id, items) =>
        if ReturnOrder(cat, db, shop, id, items).Ok? {
          ReturnedOfShop(cat, shop, db.orders[id], items);
        }
      case JobAttempt(id, fault) =>
        if Commits(db, id, fault) {
          LinesAreSoldBy(cat, shop, db.orders[id].items);
        }
      case _ =>
    }
  }

  lemma ReturnedOfShop(cat: Catalog, shop: ShopId, order: Order, items: seq<Item>)
    requires CheckReturns(cat, shop, order, items).Ok?
    ensures forall i :: 0 <= i < |items| ==> SoldBy(cat, items[i].product, shop)
  {
    CheckReturnsAll(cat, shop, order, items);
    forall i | 0 <= i < |items| ensures SoldBy(cat, items[i].product, shop) {
      assert CheckReturn(cat, shop, order, items[i]).Ok?;
    }
  }

  lemma NoOpsOfOthers(cat: Catalog, tasks: seq<Task>, shop: ShopId, p: ProductId)
    requires TasksOf(cat, tasks, shop) && !SoldBy(cat, p, shop)
    ensures OpsOf(tasks, p) == []
  {
    if OpsOf(tasks, p) != [] {
      OpsComeFromTasks(tasks, p, 0);
    }
  }

  lemma StockOfOthers(cat: Catalog, db: Db, req: Request, shop: ShopId, p: ProductId)
    requires UnitsPass(cat, db) && (ActingShop(db, req) == Some(shop) || ActingShop(db, req).None?)
    requires !SoldBy(cat, p, shop)
    ensures Get(Next(cat, db, req).shelves, p) == Get(db.shelves, p)
  {
    var tasks := StepTasks(cat, db, req);
    StepTasksOfShop(cat, db, req, shop);
    NoOpsOfOthers(cat, tasks, shop, p);
    NextShelves(cat, db, req);
    ApplyAllProjects(db.shelves, tasks, p);
  }

  // ------------------------------------------------- rows

  /** What stays of the orders and debts of other shops, and whose the new rows are. */
  ghost predicate RowsOfOthersStay(db: Db, next: Db, shop: ShopId) {
    && |db.orders| <= |next.orders| && |db.debts| <= |next.debts|
    && (forall id :: 0 <= id < |db.orders| && db.orders[id].shop != shop ==> next.orders[id] == db.orders[id])
    && (forall id :: 0 <= id < |db.debts| && db.debts[id].shop != shop ==> next.debts[id] == db.debts[id])
    && (forall id :: |db.orders| <= id < |next.orders| ==> next.orders[id].shop == shop)
    && (forall id :: |db.debts| <= id < |next.debts| ==> next.debts[id].shop == shop)
  }

  /** A lookup by id and shop, and what follows it, changes no order of another shop. */
  lemma FoundOfOthers(cat: Catalog, db: Db, req: Request, id: OrderId)
    requires req.Cancelling? || req.MarkingPaid? || req.Returning? || req.Paying?
    requires Exists(db, id) && db.orders[id].shop != req.shop
    ensures Exists(Next(cat, db, req), id) && Next(cat, db, req).orders[id] == db.orders[id]
  {
  }

  lemma RepaidOfOthers(cat: Catalog, db: Db, req: Request, id: OrderId)
    requires DebtsOfOrders(db) && req.Repaying? && Exists(db, id) && db.orders[id].shop != req.shop
    ensures Exists(Next(cat, db, req), id) && Next(cat, db, req).orders[id] == db.orders[id]
  {
  }

  lemma OrdersOfOthers(cat: Catalog, db: Db, req: Request, shop: ShopId, id: OrderId)
    requires DebtsOfOrders(db) && (ActingShop(db, req) == Some(shop) || ActingShop(db, req).None?)
    requires Exists(db, id) && db.orders[id].shop != shop
    ensures Exists(Next(cat, db, req), id) && Next(cat, db, req).orders[id] == db.orders[id]
  {
    if req.Cancelling? || req.MarkingPaid? || req.Returning? || req.Paying? {
      FoundOfOthers(cat, db, req, id);
    } else if req.Repaying? {
      RepaidOfOthers(cat, db, req, id);
    }
  }

  lemma NewOrdersOfShop(cat: Catalog, db: Db, req: Request, shop: ShopId, id: OrderId)
    requires ActingShop(db, req) == Some(shop) || ActingShop(db, req).None?
    requires !Exists(db, id) && Exists(Next(cat, db, req), id)
    ensures Next(cat, db, req).orders[id].shop == shop
  {
    NewOrderMoney(cat, db, req, id);
  }

  lemma DebtsOfOthers(cat: Catalog, db: Db, req: Request, shop: ShopId, id: DebtId)
    requires ActingShop(db, req) == Some(shop) || ActingShop(db, req).None?
    ensures id < |db.debts| ==> id < |Next(cat, db, req).debts|
    ensures id < |db.debts| && db.debts[id].shop != shop ==> Next(cat, db, req).debts[id] == db.debts[id]
    ensures |db.debts| <= id < |Next(cat, db, req).debts| ==> Next(cat, db, req).debts[id].shop == shop
  {
  }

  /** Payments and instalments that a step adds are on an order or a debt of its shop. */
  ghost predicate NewMoneyIsOwn(db: Db, next: Db, shop: ShopId) {
    && (next.payments == db.payments ||
        (&& next.payments != [] && Front(next.payments) == db.payments
         && Exists(db, Last(next.payments).order) && db.orders[Last(next.payments).order].shop == shop))
    && (next.instalments == db.instalments ||
        (&& next.instalments != [] && Front(next.instalments) == db.instalments
         && Last(next.instalments).debt < |db.debts| && db.debts[Last(next.instalments).debt].shop == shop))
  }

  lemma MoneyOfShop(cat: Catalog, db: Db, req: Request, shop: ShopId)
    requires ActingShop(db, req) == Some(shop) || ActingShop(db, req).None?
    ensures NewMoneyIsOwn(db, Next(cat, db, req), shop)
  {
  }

  /** An accepted order adds its sale to the shift it names, whichever shop that belongs to. */
  predicate SellsOn(cat: Catalog, db: Db, req: Request, id: ShiftId) {
    req.Ordering? && req.dto.shift == Some(id) && CreateOrder(cat, db, req.shop, req.dto).Ok?
  }

  lemma ShiftsOfOthers(cat: Catalog, db: Db, req: Request, shop: ShopId, id: ShiftId)
    requires (ActingShop(db, req) == Some(shop) || ActingShop(db, req).None?)
    requires id in db.shifts && db.shifts[id].shop != shop
    ensures id in Next(cat, db, req).shifts
    ensures Next(cat, db, req).shifts[id] != db.shifts[id] <==> SellsOn(cat, db, req, id)
  {
  }

  /** Which tables a request can change at all, whatever it holds and whether or not it is accepted. */
  lemma StepFrame(cat: Catalog, db: Db, req: Request)
    ensures var next := Next(cat, db, req);
            && (next.shelves != db.shelves ==>
                  req.Receiving? || req.Correcting? || req.Ordering? || req.Cancelling? || req.Returning? || req.JobAttempt?)
            && (next.orders != db.orders ==>
                  || req.Ordering? || req.Cancelling? || req.Returning? || req.JobAttempt?
                  || req.MarkingPaid? || req.Paying? || req.Repaying?)
            && (next.debts != db.debts ==> req.Ordering? || req.Repaying?)
            && (next.instalments != db.instalments ==> req.Repaying?)
            && (next.payments != db.payments ==> req.Paying?)
            && (next.shifts != db.shifts ==> req.Ordering? || req.OpeningShift? || req.ClosingShift?)
  {
  }

  // ------------------------------------------------- the theorem

  /**
    In every reachable database, whatever a shop requests next, or a job does for one of its
    orders, leaves the stock, orders and debts of all other shops as they are, and what it adds
    is its own. A shift of another shop changes exactly if an accepted order names it.
   */
  lemma {:induction false} ShopsAreIsolated(cat: Catalog, reqs: seq<Request>, req: Request, shop: ShopId)
    requires ActingShop(Exec(cat, reqs), req) == Some(shop) || ActingShop(Exec(cat, reqs), req).None?
    ensures var db, next := Exec(cat, reqs), Exec(cat, reqs + [req]);
            && RowsOfOthersStay(db, next, shop) && NewMoneyIsOwn(db, next, shop)
            && (forall p :: !SoldBy(cat, p, shop) ==> Get(next.shelves, p) == Get(db.shelves, p))
            && (forall id :: id in db.shifts && db.shifts[id].shop != shop ==>
                  id in next.shifts && (next.shifts[id] != db.shifts[id] <==> SellsOn(cat, db, req, id)))
  {
    var db := Exec(cat, reqs);
    assert Front(reqs + [req]) == reqs;
    DebtsOfOrdersRun(cat, reqs);
    UnitsPassRun(cat, reqs);
    StepIsIsolated(cat, db, req, shop);
  }

  lemma StepIsIsolated(cat: Catalog, db: Db, req: Request, shop: ShopId)
    requires ActingShop(db, req) == Some(shop) || ActingShop(db, req).None?
    requires DebtsOfOrders(db) && UnitsPass(cat, db)
    ensures var next := Next(cat, db, req);
            && RowsOfOthersStay(db, next, shop) && NewMoneyIsOwn(db, next, shop)
            && (forall p :: !SoldBy(cat, p, shop) ==> Get(next.shelves, p) == Get(db.shelves, p))
            && (forall id :: id in db.shifts && db.shifts[id].shop != shop ==>
                  id in next.shifts && (next.shifts[id] != db.shifts[id] <==> SellsOn(cat, db, req, id)))
  {
    NextKeepsLines(cat, db, req);
    DebtRowsStep(cat, db, req);
    MoneyOfShop(cat, db, req, shop);
    forall id: OrderId | Exists(db, id) && db.orders[id].shop != shop { OrdersOfOthers(cat, db, req, shop, id); }
    forall id: OrderId | !Exists(db, id) && Exists(Next(cat, db, req), id) { NewOrdersOfShop(cat, db, req, shop, id); }
    forall id: DebtId { DebtsOfOthers(cat, db, req, shop, id); }
    forall p | !SoldBy(cat, p, shop) { StockOfOthers(cat, db, req, shop, p); }
    forall id | id in db.shifts && db.shifts[id].shop != shop { ShiftsOfOthers(cat, db, req, shop, id); }
  }
}
