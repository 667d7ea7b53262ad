/**
  The order, debt, payment and shift services and the stock job, as methods that change the
  database step by step, each proved against its transition in module Shop.
 */
module OrderServices {
  import opened Wrappers
  import opened Stock
  import opened StockTasks
  import opened Pricing
  import opened Shop
  import opened Debts
  import opened Totals
  import opened Inventory

  /** A failing prefix fails the whole line loop of `create`. */
  lemma {:induction false} ReserveLinesFailEarly(cat: Catalog, shop: ShopId, s: Shelves, items: seq<LineDto>, k: nat)
    requires k <= |items| && ReserveLines(cat, shop, s, items[..k]).Err?
    ensures ReserveLines(cat, shop, s, items) == ReserveLines(cat, shop, s, items[..k])
  {
    if k == |items| {
      assert items[..k] == items;
    } else {
      assert Front(items)[..k] == items[..k];
      ReserveLinesFailEarly(cat, shop, s, Front(items), k);
    }
  }

  lemma {:induction false} ApplyAllFailEarly(s: Shelves, tasks: seq<Task>, k: nat)
    requires k <= |tasks| && ApplyAll(s, tasks[..k]).Err?
    ensures ApplyAll(s, tasks) == ApplyAll(s, tasks[..k])
  {
    if k == |tasks| {
      assert tasks[..k] == tasks;
    } else {
      assert Front(tasks)[..k] == tasks[..k];
      ApplyAllFailEarly(s, Front(tasks), k);
    }
  }

  lemma {:induction false} CheckReturnsFailEarly(cat: Catalog, shop: ShopId, order: Order, items: seq<Item>, k: nat)
    requires k <= |items| && CheckReturns(cat, shop, order, items[..k]).Err?
    ensures CheckReturns(cat, shop, order, items) == CheckReturns(cat, shop, order, items[..k])
  {
    if k == |items| {
      assert items[..k] == items;
    } else {
      assert Front(items)[..k] == items[..k];
      CheckReturnsFailEarly(cat, shop, order, Front(items), k);
    }
  }

  lemma RepayKeepsBooks(db: Db, shop: ShopId, id: DebtId, amount: real)
    requires amount >= 1.0 && RepayDebt(db, shop, id, amount).Ok?
    ensures var next := RepayDebt(db, shop, id, amount).value;
            forall repaid: int, count: nat, half: nat :: Books(db.debts[id], repaid, count, half) ==>
              Books(next.debts[id], repaid + Cents(amount), count + 1, half + if IsHalfCent(amount) then 1 else 0)
  {
    forall repaid: int, count: nat, half: nat | Books(db.debts[id], repaid, count, half)
      ensures Books(RepayDebt(db, shop, id, amount).value.debts[id], repaid + Cents(amount), count + 1,
                    half + if IsHalfCent(amount) then 1 else 0)
    {
      BooksRepay(db, shop, id, amount, repaid, count, half);
    }
  }

  class DebtsService {
    const db: Database

    constructor (db: Database)
      ensures this.db == db
    {
      this.db := db;
    }

    method CreateFromOrder(order: Order, id: OrderId)
      requires order.customer.Some? && db.Valid()
      modifies db
      ensures db.Valid()
      ensures db.State() == old(db.State()).(debts := old(db.debts) +
                [Debt(order.shop, id, order.customer.value, order.notPaid, 0, order.notPaid, DebtPending)])
    {
      db.debts := db.debts +
        [Debt(order.shop, id, order.customer.value, order.notPaid, 0, order.notPaid, DebtPending)];
    }

    method Repay(shop: ShopId, id: DebtId, amount: real) returns (r: Result<()>)
      requires db.Valid()
      modifies db
      ensures r.Ok? <==>
                && id < |old(db.debts)| && old(db.debts)[id].shop == shop
                && !old(db.debts)[id].status.DebtPaid? && amount <= old(db.debts)[id].remaining as real
      ensures r == Err(NotFound) <==> id >= |old(db.debts)| || old(db.debts)[id].shop != shop
      ensures r.Ok? && amount >= 1.0 ==>
                && id < |db.debts| == |old(db.debts)|
                && (forall repaid: int, count: nat, half: nat :: Books(old(db.debts)[id], repaid, count, half) ==>
                      Books(db.debts[id], repaid + Cents(amount), count + 1, half + if IsHalfCent(amount) then 1 else 0))
      ensures r.Ok? ==>
                && id < |db.debts| == |old(db.debts)|
                && db.debts == old(db.debts)[id := db.debts[id]]
                && (db.debts[id].status.DebtPaid? <==> amount == old(db.debts)[id].remaining as real)
                && var o := old(db.debts)[id].order;
                   db.orders == if db.debts[id].status.DebtPaid? && o < |old(db.orders)|
                                then old(db.orders)[o := old(db.orders)[o].(status := Paid)] else old(db.orders)
      ensures db.Valid() && EndsAs(old(db.State()), db.State(), r, RepayDebt(old(db.State()), shop, id, amount))
    {
      if RepayDebt(db.State(), shop, id, amount).Ok? && amount >= 1.0 {
        RepayKeepsBooks(db.State(), shop, id, amount);
      }
      if id >= |db.debts| || db.debts[id].shop != shop {
        return Err(NotFound);
      }
      var debt := db.debts[id];
      if debt.status.DebtPaid? || amount > debt.remaining as real {
        return Err(BadRequest);
      }
      db.instalments := db.instalments + [Instalment(id, Cents(amount))];
      var paidAmount := debt.paid as real + amount;
      var remainingAmount := debt.remaining as real - amount;
      var status := if remainingAmount == 0.0 then DebtPaid else DebtPartial;
      db.debts := db.debts[id := debt.(paid := Cents(paidAmount), remaining := Cents(remainingAmount), status := status)];
      if status.DebtPaid? && debt.order < |db.orders| {
        db.orders := db.orders[debt.order := db.orders[debt.order].(status := Paid)];
      }
      r := Ok(());
    }

  }

  class SmsService {
    const db: Database

    constructor (db: Database)
      ensures this.db == db
    {
      this.db := db;
    }

    /** The amount of a reminder, which is what the debtors summary shows. */
    method ReminderAmount(shop: ShopId, customer: CustomerId) returns (r: Result<int>)
      ensures r.Err? <==> ReminderRows(db.debts, shop, customer) == []
      ensures r.Ok? ==> r.value == SummaryTotal(db.debts, shop, customer)
    {
      var debts := ReminderRows(db.debts, shop, customer);
      if debts == [] {
        return Err(NotFound);
      }
      var total := 0;
      for i := 0 to |debts|
        invariant ReminderTotal(debts[i..], total) == ReminderTotal(debts, 0)
      {
        total := total + debts[i].remaining;
      }
      ReminderIsSummary(db.debts, shop, customer, 0);
      r := Ok(total);
    }
  }

  class OrdersService {
    const db: Database
    const inventory: InventoryService
    const debts: DebtsService

    constructor (db: Database, inventory: InventoryService, debts: DebtsService)
      requires inventory.db == db && debts.db == db
      ensures Wired() && this.db == db
    {
      this.db, this.inventory, this.debts := db, inventory, debts;
    }

    /** The services work on one database. */
    ghost predicate Wired() {
      inventory.db == db && debts.db == db
    }

    /** The line loop of `create`: checks, reservation, and the running sums. */
    method ReserveAndPrice(cat: Catalog, shop: ShopId, items: seq<LineDto>)
        returns (r: Result<()>, subtotal: real, taxAmount: real, lineTotals: int)
      requires Wired() && db.Valid()
      modifies db
      ensures db.Valid() && db.State().(shelves := old(db.shelves)) == old(db.State())
      ensures match ReserveLines(cat, shop, old(db.shelves), items)
              case Ok(next) => r == Ok(()) && db.shelves == next
                               && subtotal == Subtotal(items) && taxAmount == Tax(items) && lineTotals == StoredLines(items)
              case Err(e) => r == Err(e)
    {
      subtotal, taxAmount, lineTotals := 0.0, 0.0, 0;
      for i := 0 to |items|
        invariant db.Valid() && db.State().(shelves := old(db.shelves)) == old(db.State())
        invariant ReserveLines(cat, shop, old(db.shelves), items[..i]) == Ok(db.shelves)
        invariant subtotal == Subtotal(items[..i]) && taxAmount == Tax(items[..i])
        invariant lineTotals == StoredLines(items[..i])
      {
        var line := items[i];
        assert items[..i + 1][..i] == items[..i];
        var checked := CheckLine(cat, shop, line);
        if checked.Err? {
          ReserveLinesFailEarly(cat, shop, old(db.shelves), items, i + 1);
          return Err(checked.error), subtotal, taxAmount, lineTotals;
        }
        if cat[line.product].tracked {
          var reserved := inventory.ReserveStock(line.product, line.quantity);
          if reserved.Err? {
            ReserveLinesFailEarly(cat, shop, old(db.shelves), items, i + 1);
            return Err(reserved.error), subtotal, taxAmount, lineTotals;
          }
        }
        var lineTotal := line.price as real * (line.quantity as real / 1000.0);
        var lineTax := lineTotal * (line.taxRate as real / 10000.0);
        subtotal, taxAmount := subtotal + lineTotal, taxAmount + lineTax;
        lineTotals := lineTotals + Cents(lineTotal);
      }
      assert items[..|items|] == items;
      r := Ok(());
    }

    method Create(cat: Catalog, shop: ShopId, dto: CreateDto) returns (r: Result<()>)
      requires Wired() && db.Valid()
      modifies db
      ensures db.Valid() && EndsAs(old(db.State()), db.State(), r, CreateOrder(cat, old(db.State()), shop, dto))
    {
      var before := db.State();
      var reserved, subtotal, taxAmount, lineTotals := ReserveAndPrice(cat, shop, dto.items);
      if reserved.Err? {
        db.Rollback(before);
        return reserved;
      }
      var discountAmount := DiscountOn(dto, subtotal);
      var total := subtotal + taxAmount - discountAmount;
      if dto.cash + dto.card > total {
        db.Rollback(before);
        return Err(BadRequest);
      }
      var notPaid := Cents(total - dto.cash - dto.card);
      if notPaid > 0 && dto.customer.None? {
        db.Rollback(before);
        return Err(BadRequest);
      }
      var order := Order(
        shop, if notPaid == 0 then Paid else Confirmed, ItemsOf(dto.items), dto.customer, dto.shift,
        lineTotals, Cents(subtotal), Cents(taxAmount), Cents(discountAmount), Cents(total),
        Cents(dto.cash), Cents(dto.card), notPaid, false);
      SaveOrder(order, dto, total);
      r := Ok(());
    }

    method DiscountOn(dto: CreateDto, subtotal: real) returns (amount: real)
      ensures amount == DiscountAmount(subtotal, DtoDiscount(dto))
    {
      var discount := Given(dto.discountType, dto.discountValue);
      if discount.None? && dto.customer.Some? {
        if dto.customerDefault.Some? && dto.customerDefault.value.value > 0.0 {
          discount := dto.customerDefault;
        }
      }
      amount := 0.0;
      if discount.Some? {
        amount :=
          if discount.value.kind.PERCENT? then subtotal * (discount.value.value / 10000.0) else discount.value.value;
        amount := if amount < subtotal then amount else subtotal;
      }
    }

    /** Saves the order, opens its debt and adds the sale to its shift. */
    method SaveOrder(order: Order, dto: CreateDto, total: real)
      requires Wired() && db.Valid() && total == DtoTotal(dto)
      requires order.notPaid > 0 ==> order.customer.Some?
      modifies db
      ensures db.Valid()
      ensures db.State() == old(db.State()).(
                orders := old(db.orders) + [order],
                debts := old(db.debts) + DebtsFromOrder(order, |old(db.orders)|),
                shifts := AddSale(old(db.shifts), dto))
    {
      var id := |db.orders|;
      db.orders := db.orders + [order];
      if order.notPaid > 0 {
        debts.CreateFromOrder(order, id);
      }
      if dto.shift.Some? && dto.shift.value in db.shifts {
        var shift := db.shifts[dto.shift.value];
        db.shifts := db.shifts[dto.shift.value := shift.(
          cash := Cents(shift.cash as real + dto.cash),
          card := Cents(shift.card as real + dto.card),
          total := Cents(shift.total as real + total),
          count := shift.count + 1)];
      }
    }

    method Cancel(shop: ShopId, id: OrderId) returns (r: Result<()>)
      requires Wired() && db.Valid()
      modifies db
      ensures db.Valid() && EndsAs(old(db.State()), db.State(), r, CancelOrder(old(db.State()), shop, id))
    {
      var found := FindOrder(db.State(), id, shop);
      if found.None? {
        return Err(NotFound);
      }
      var order := found.value;
      if order.status.Paid? || order.status.Refunded? {
        return Err(BadRequest);
      }
      ghost var tasks := ReleaseTasks(order.items);
      for i := 0 to |order.items|
        invariant db.Valid() && db.State().(shelves := old(db.shelves)) == old(db.State())
        invariant ApplyAll(old(db.shelves), tasks[..i]) == Ok(db.shelves)
      {
        assert Front(tasks[..i + 1]) == tasks[..i];
        var _ := inventory.ReleaseStock(order.items[i].product, order.items[i].quantity);
      }
      assert tasks[..|tasks|] == tasks;
      db.orders := db.orders[id := db.orders[id].(status := Cancelled)];
      r := Ok(());
    }

    method MarkPaid(shop: ShopId, id: OrderId) returns (r: Result<()>)
      requires db.Valid()
      modifies db
      ensures r.Ok? <==>
                id < |old(db.orders)| && old(db.orders)[id].shop == shop && old(db.orders)[id].status.Confirmed?
      ensures r == Err(NotFound) <==> id >= |old(db.orders)| || old(db.orders)[id].shop != shop
      ensures db.Valid() && EndsAs(old(db.State()), db.State(), r, Shop.MarkPaid(old(db.State()), shop, id))
    {
      var found := FindOrder(db.State(), id, shop);
      if found.None? {
        return Err(NotFound);
      }
      if !found.value.status.Confirmed? {
        return Err(BadRequest);
      }
      db.orders := db.orders[id := db.orders[id].(status := Paid)];
      r := Ok(());
    }

    method MarkStockDeducted(id: OrderId)
      requires id < |db.orders| && db.Valid()
      modifies db
      ensures db.Valid()
      ensures db.State() == old(db.State()).(orders := old(db.orders)[id := old(db.orders)[id].(stockDeducted := true)])
    {
      db.orders := db.orders[id := db.orders[id].(stockDeducted := true)];
    }

    method ReturnOrder(cat: Catalog, shop: ShopId, id: OrderId, items: seq<Item>) returns (r: Result<()>)
      requires Wired() && db.Valid()
      modifies db
      ensures db.Valid() && EndsAs(old(db.State()), db.State(), r, Shop.ReturnOrder(cat, old(db.State()), shop, id, items))
    {
      var found := FindOrder(db.State(), id, shop);
      if found.None? {
        return Err(NotFound);
      }
      var order := found.value;
      if !order.status.Paid? {
        return Err(BadRequest);
      }
      for i := 0 to |items|
        invariant CheckReturns(cat, shop, order, items[..i]).Ok?
        invariant db.State() == old(db.State())
      {
        assert Front(items[..i + 1]) == items[..i];
        var checked := CheckReturn(cat, shop, order, items[i]);
        if checked.Err? {
          CheckReturnsFailEarly(cat, shop, order, items, i + 1);
          return Err(checked.error);
        }
      }
      assert items[..|items|] == items;
      ghost var tasks := ReturnTasks(items, id);
      for i := 0 to |items|
        invariant db.Valid() && db.State().(shelves := old(db.shelves)) == old(db.State())
        invariant ApplyAll(old(db.shelves), tasks[..i]) == Ok(db.shelves)
      {
        assert Front(tasks[..i + 1]) == tasks[..i];
        var _ := inventory.ReturnToStorage(items[i].product, items[i].quantity, id);
      }
      assert tasks[..|tasks|] == tasks;
      db.orders := db.orders[id := db.orders[id].(status := Refunded)];
      r := Ok(());
    }
  }

  class OrderProcessor {
    const db: Database
    const inventory: InventoryService
    const orders: OrdersService

    constructor (db: Database, inventory: InventoryService, orders: OrdersService)
      requires inventory.db == db && orders.db == db
      ensures Wired() && this.db == db
    {
      this.db, this.inventory, this.orders := db, inventory, orders;
    }

    ghost predicate Wired() {
      inventory.db == db && orders.db == db
    }

    /** The transaction of the job: all deductions, or none of them. */
    method DeductItems(items: seq<Item>, id: OrderId) returns (r: Result<()>)
      requires Wired() && db.Valid()
      modifies db
      ensures db.Valid()
      ensures StockEndsAs(old(db.State()), db.State(), r, ApplyAll(old(db.shelves), DeductTasks(items, id)))
    {
      var before := db.State();
      ghost var tasks := DeductTasks(items, id);
      for i := 0 to |items|
        invariant db.Valid() && db.State().(shelves := old(db.shelves)) == old(db.State())
        invariant ApplyAll(old(db.shelves), tasks[..i]) == Ok(db.shelves)
      {
        assert Front(tasks[..i + 1]) == tasks[..i];
        var deducted := inventory.DeductFromStorage(items[i].product, items[i].quantity, id);
        if deducted.Err? {
          ApplyAllFailEarly(old(db.shelves), tasks, i + 1);
          db.Rollback(before);
          return deducted;
        }
      }
      assert tasks[..|tasks|] == tasks;
      r := Ok(());
    }

    /** An attempt of the job; `fault` says where it dies, if it does. */
    method HandleProcessPayment(id: OrderId, fault: Fault) returns (outcome: JobOutcome)
      requires Wired() && db.Valid()
      modifies db
      ensures db.Valid() && (outcome, db.State()) == RunJob(old(db.State()), id, fault)
    {
      if id >= |db.orders| {
        return Missing;
      }
      var order := db.orders[id];
      if order.stockDeducted {
        return AlreadyDeducted;
      }
      var before := db.State();
      var deducted := DeductItems(order.items, id);
      if deducted.Err? {
        return Rejected;
      }
      match fault
      case CrashBeforeCommit =>
        db.Rollback(before);
        return Crashed;
      case MarkFails =>
        return CommittedUnmarked;
      case NoFault =>
        orders.MarkStockDeducted(id);
        return Deducted;
    }
  }

  class PaymentsService {
    const db: Database
    const orders: OrdersService

    constructor (db: Database, orders: OrdersService)
      requires orders.db == db
      ensures this.db == db && this.orders == orders
    {
      this.db, this.orders := db, orders;
    }

    method Process(shop: ShopId, id: OrderId, byCash: bool, tendered: Option<real>) returns (r: Result<()>)
      requires orders.db == db && db.Valid()
      modifies db
      ensures r.Ok? <==>
                && id < |old(db.orders)| && old(db.orders)[id].shop == shop && old(db.orders)[id].status.Confirmed?
                && (byCash && tendered.Some? ==> tendered.value >= old(db.orders)[id].total as real)
      ensures r.Ok? ==> db.orders == old(db.orders)[id := old(db.orders)[id].(status := Paid)]
      ensures r.Err? ==> db.orders == old(db.orders)
      ensures db.payments == old(db.payments) ||
              (&& id < |old(db.orders)| && |db.payments| == |old(db.payments)| + 1
               && db.payments == old(db.payments) + [Last(db.payments)]
               && Last(db.payments).order == id && Last(db.payments).amount == old(db.orders)[id].total
               && (Last(db.payments).change.Some? <==> byCash && tendered.Some?)
               && (Last(db.payments).tendered.Some? <==> tendered.Some?)
               && (tendered.Some? ==> Rounded(Last(db.payments).tendered.value, tendered.value))
               && (Last(db.payments).change.Some? ==>
                     && Last(db.payments).change.value >= 0
                     && Last(db.payments).amount + Last(db.payments).change.value == Last(db.payments).tendered.value))
      ensures db.payments != old(db.payments) <==>
                && id < |old(db.orders)| && old(db.orders)[id].shop == shop
                && !old(db.orders)[id].status.Paid? && !old(db.orders)[id].status.Cancelled?
                && (byCash && tendered.Some? ==> tendered.value >= old(db.orders)[id].total as real)
      ensures db.Valid() && (r, db.State()) == ProcessPayment(old(db.State()), shop, id, byCash, tendered)
    {
      if tendered.Some? {
        CentsBounds(tendered.value);
      }
      if id < |db.orders| && byCash && tendered.Some? && PaymentOf(db.orders[id], id, true, tendered).Ok? {
        ChangeAddsUp(db.orders[id], id, tendered.value);
      }
      var found := FindOrder(db.State(), id, shop);
      if found.None? {
        return Err(NotFound);
      }
      var order := found.value;
      if order.status.Paid? || order.status.Cancelled? {
        return Err(BadRequest);
      }
      var changeDue: Option<int> := None;
      if byCash && tendered.Some? {
        if tendered.value < order.total as real {
          return Err(BadRequest);
        }
        changeDue := Some(Cents(tendered.value - order.total as real));
      }
      var amountTendered := if tendered.Some? then Some(Cents(tendered.value)) else None;
      db.payments := db.payments + [Payment(id, order.total, amountTendered, changeDue)];
      r := orders.MarkPaid(shop, id);
    }
  }

  class ShiftsService {
    const db: Database

    constructor (db: Database)
      ensures this.db == db
    {
      this.db := db;
    }

    method Open(shop: ShopId, cashier: CashierId, float: int, id: ShiftId) returns (r: Result<()>)
      requires db.Valid()
      modifies db
      ensures id !in old(db.shifts) ==>
                (r.Ok? <==> forall other :: other in old(db.shifts) && old(db.shifts)[other].open ==>
                   old(db.shifts)[other].shop != shop || old(db.shifts)[other].cashier != cashier)
      ensures r.Ok? ==>
                && id in db.shifts && db.shifts == old(db.shifts)[id := db.shifts[id]]
                && db.shifts[id].open && db.shifts[id].openingFloat == float && HasOpenShift(db.shifts, shop, cashier)
                && SalesShown(db.shifts[id]) == Sales(0, 0, 0, 0)
      ensures OneOpenShift(old(db.shifts)) ==> OneOpenShift(db.shifts)
      ensures db.Valid() && EndsAs(old(db.State()), db.State(), r, OpenShift(old(db.State()), shop, cashier, float, id))
    {
      if HasOpenShift(db.shifts, shop, cashier) || id in db.shifts {
        return Err(BadRequest);
      }
      db.shifts := db.shifts[id := Shift(shop, cashier, true, float, None, 0, 0, 0, 0)];
      r := Ok(());
    }

    method Close(shop: ShopId, cashier: CashierId, float: int, id: ShiftId) returns (r: Result<()>)
      requires db.Valid()
      modifies db
      ensures r.Ok? <==>
                && id in old(db.shifts) && old(db.shifts)[id].shop == shop
                && old(db.shifts)[id].cashier == cashier && old(db.shifts)[id].open
      ensures r == Err(NotFound) <==> id !in old(db.shifts) || old(db.shifts)[id].shop != shop
      ensures r.Ok? ==>
                && id in db.shifts && db.shifts == old(db.shifts)[id := db.shifts[id]]
                && db.shifts[id].closingFloat == Some(float) && !db.shifts[id].open
      ensures db.shifts.Keys == old(db.shifts).Keys
      ensures forall other: ShiftId :: other in db.shifts ==> SalesShown(db.shifts[other]) == SalesShown(old(db.shifts)[other])
      ensures r.Ok? && OneOpenShift(old(db.shifts)) ==> !HasOpenShift(db.shifts, shop, cashier)
      ensures OneOpenShift(old(db.shifts)) ==> OneOpenShift(db.shifts)
      ensures db.Valid() && EndsAs(old(db.State()), db.State(), r, CloseShift(old(db.State()), shop, cashier, float, id))
    {
      if id !in db.shifts || db.shifts[id].shop != shop {
        return Err(NotFound);
      }
      var shift := db.shifts[id];
      if shift.cashier != cashier || !shift.open {
        return Err(BadRequest);
      }
      db.shifts := db.shifts[id := shift.(open := false, closingFloat := Some(float))];
      r := Ok(());
    }
  }
}
