/**
  The database behind the order, debt, payment and shift services, and the requests that
  change it. Rows are numbered by their position, shifts by an id; a request carries the
  shop of its caller. Each transaction is one step and an exception leaves its step undone.
 */
module Shop {
  import opened Wrappers
  import opened Stock
  import opened StockViews
  import opened StockTasks
  import opened Pricing

  type ShopId = nat
  type CustomerId = nat
  type CashierId = nat
  type ShiftId = nat
  type DebtId = nat

  datatype UnitType = PIECE | METER | KILOGRAM

  /** What never changes about a product; its price and activity come with each request. */
  datatype Product = Product(shop: ShopId, unit: UnitType, tracked: bool)

  type Catalog = map<ProductId, Product>

  datatype OrderStatus = Pending | Confirmed | Paid | Refunded | Cancelled

  datatype Order = Order(
    shop: ShopId, status: OrderStatus, items: seq<Item>, customer: Option<CustomerId>, shift: Option<ShiftId>,
    lineTotals: int, subtotal: int, tax: int, discount: int, total: int,
    cash: int, card: int, notPaid: int, stockDeducted: bool)

  datatype DebtStatus = DebtPending | DebtPartial | DebtPaid

  datatype Debt = Debt(
    shop: ShopId, order: OrderId, customer: CustomerId,
    total: int, paid: int, remaining: int, status: DebtStatus)

  /** A row of `debt_repayments`. */
  datatype Instalment = Instalment(debt: DebtId, amount: int)

  datatype Shift = Shift(
    shop: ShopId, cashier: CashierId, open: bool, openingFloat: int, closingFloat: Option<int>,
    cash: int, card: int, total: int, count: int)

  datatype Payment = Payment(order: OrderId, amount: int, tendered: Option<int>, change: Option<int>)

  datatype Db = Db(
    shelves: Shelves, orders: seq<Order>, debts: seq<Debt>, instalments: seq<Instalment>,
    shifts: map<ShiftId, Shift>, payments: seq<Payment>)

  const EmptyDb := Db(map[], [], [], [], map[], [])

  datatype CreateDto = CreateDto(
    items: seq<LineDto>, discountType: Option<DiscountType>, discountValue: Option<real>,
    customer: Option<CustomerId>, customerDefault: Option<Discount>,
    cash: real, card: real, shift: Option<ShiftId>)

  /** How an attempt of the stock job ends: see `RunJob`. */
  datatype Fault = NoFault | CrashBeforeCommit | MarkFails

  datatype JobOutcome = Missing | AlreadyDeducted | Rejected | Crashed | CommittedUnmarked | Deducted

  datatype Request =
    | Receiving(shop: ShopId, product: ProductId, quantity: int)
    | Correcting(shop: ShopId, product: ProductId, quantity: int)
    | Ordering(shop: ShopId, dto: CreateDto)
    | Cancelling(shop: ShopId, order: OrderId)
    | MarkingPaid(shop: ShopId, order: OrderId)
    | Returning(shop: ShopId, order: OrderId, items: seq<Item>)
    | JobAttempt(order: OrderId, fault: Fault)
    | Repaying(shop: ShopId, debt: DebtId, amount: real)
    | Paying(shop: ShopId, order: OrderId, byCash: bool, tendered: Option<real>)
    | OpeningShift(shop: ShopId, cashier: CashierId, float: int, id: ShiftId)
    | ClosingShift(shop: ShopId, cashier: CashierId, float: int, shift: ShiftId)

  /** The ranges the request validators enforce: amounts are cents, quantities thousandths. */
  ghost predicate ValidRequest(req: Request) {
    match req
    case Receiving(_, _, quantity) => quantity > 0
    case Correcting(_, _, quantity) => quantity >= 0
    case Ordering(_, dto) =>
      && ValidLines(dto.items) && dto.cash >= 0.0 && dto.card >= 0.0
      && (dto.discountValue.Some? ==> dto.discountValue.value >= 0.0)
    case Returning(_, _, items) => Positive(items)
    case Repaying(_, _, amount) => amount >= 1.0
    case _ => true
  }

  // ------------------------------------------------- stock requests

  /** The product belongs to the caller's shop, and a piece product comes in whole units. */
  function CheckUnit(cat: Catalog, shop: ShopId, p: ProductId, quantity: int): Result<()> {
    if p !in cat || cat[p].shop != shop then Err(NotFound)
    else if cat[p].unit.PIECE? && !WholeQty(quantity) then Err(BadRequest)
    else Ok(())
  }

  function AddToStorage(cat: Catalog, db: Db, shop: ShopId, p: ProductId, quantity: int): Result<Db> {
    match CheckUnit(cat, shop, p, quantity)
    case Err(e) => Err(e)
    case Ok(_) => Ok(db.(shelves := db.shelves[p := ReceiveStock(Get(db.shelves, p), quantity)]))
  }

  function AdjustLevel(cat: Catalog, db: Db, shop: ShopId, p: ProductId, quantity: int): Result<Db> {
    if p !in cat || cat[p].shop != shop || Get(db.shelves, p).own.None? then Err(NotFound)
    else
      match CheckUnit(cat, shop, p, quantity)
      case Err(e) => Err(e)
      case Ok(_) =>
        match Stock.AdjustStock(Get(db.shelves, p), quantity)
        case Err(e) => Err(e)
        case Ok(shelf) => Ok(db.(shelves := db.shelves[p := shelf]))
  }

  // ------------------------------------------------- orders

  function FindOrder(db: Db, id: OrderId, shop: ShopId): Option<Order> {
    if id < |db.orders| && db.orders[id].shop == shop then Some(db.orders[id]) else None
  }

  function WithStatus(db: Db, id: OrderId, status: OrderStatus): Db
    requires id < |db.orders|
  {
    db.(orders := db.orders[id := db.orders[id].(status := status)])
  }

  function CheckLine(cat: Catalog, shop: ShopId, line: LineDto): Result<()> {
    if line.product !in cat || cat[line.product].shop != shop then Err(NotFound)
    else if !line.active then Err(BadRequest)
    else CheckUnit(cat, shop, line.product, line.quantity)
  }

  /** One turn of the line loop of `create`: the checks, then the reservation. */
  function ReserveLine(cat: Catalog, shop: ShopId, s: Shelves, line: LineDto): Result<Shelves> {
    match CheckLine(cat, shop, line)
    case Err(e) => Err(e)
    case Ok(_) =>
      if cat[line.product].tracked then ApplyTask(s, Task(line.product, Reserve(line.quantity))) else Ok(s)
  }

  function ReserveLines(cat: Catalog, shop: ShopId, s: Shelves, items: seq<LineDto>): Result<Shelves> {
    if items == [] then Ok(s)
    else
      match ReserveLines(cat, shop, s, items[..|items| - 1])
      case Err(e) => Err(e)
      case Ok(next) => ReserveLine(cat, shop, next, items[|items| - 1])
  }

  function ItemsOf(items: seq<LineDto>): (r: seq<Item>)
    ensures |r| == |items|
  {
    seq(|items|, i requires 0 <= i < |items| => Item(items[i].product, items[i].quantity))
  }

  function DtoDiscount(dto: CreateDto): Option<Discount> {
    ChosenDiscount(Given(dto.discountType, dto.discountValue), dto.customer.Some?, dto.customerDefault)
  }

  function DtoTotal(dto: CreateDto): real {
    Total(dto.items, DtoDiscount(dto))
  }

  function DtoNotPaid(dto: CreateDto): int {
    NotPaid(DtoTotal(dto), dto.cash, dto.card)
  }

  function CheckPayment(dto: CreateDto): Result<()> {
    if dto.cash + dto.card > DtoTotal(dto) then Err(BadRequest)
    else if DtoNotPaid(dto) > 0 && dto.customer.None? then Err(BadRequest)
    else Ok(())
  }

  function NewOrder(shop: ShopId, dto: CreateDto): Order {
    Order(shop, if DtoNotPaid(dto) == 0 then Paid else Confirmed,
          ItemsOf(dto.items), dto.customer, dto.shift,
          StoredLines(dto.items), Cents(Subtotal(dto.items)), Cents(Tax(dto.items)),
          Cents(DiscountAmount(Subtotal(dto.items), DtoDiscount(dto))), Cents(DtoTotal(dto)),
          Cents(dto.cash), Cents(dto.card), DtoNotPaid(dto), false)
  }

  function DebtsFromOrder(order: Order, id: OrderId): seq<Debt> {
    if order.notPaid > 0 && order.customer.Some?
    then [Debt(order.shop, id, order.customer.value, order.notPaid, 0, order.notPaid, DebtPending)]
    else []
  }

  /** `UPDATE shifts SET cash_sales = cash_sales + :cash, ...`; an unknown id matches no row. */
  function AddSale(shifts: map<ShiftId, Shift>, dto: CreateDto): map<ShiftId, Shift> {
    if dto.shift.None? || dto.shift.value !in shifts then shifts
    else
      var s := shifts[dto.shift.value];
      shifts[dto.shift.value := s.(
        cash := Cents(s.cash as real + dto.cash),
        card := Cents(s.card as real + dto.card),
        total := Cents(s.total as real + DtoTotal(dto)),
        count := s.count + 1)]
  }

  function CreateOrder(cat: Catalog, db: Db, shop: ShopId, dto: CreateDto): Result<Db> {
    match ReserveLines(cat, shop, db.shelves, dto.items)
    case Err(e) => Err(e)
    case Ok(shelves) =>
      match CheckPayment(dto)
      case Err(e) => Err(e)
      case Ok(_) =>
        var order := NewOrder(shop, dto);
        Ok(db.(shelves := shelves,
               orders := db.orders + [order],
               debts := db.debts + DebtsFromOrder(order, |db.orders|),
               shifts := AddSale(db.shifts, dto)))
  }

  function CancelOrder(db: Db, shop: ShopId, id: OrderId): Result<Db> {
    match FindOrder(db, id, shop)
    case None => Err(NotFound)
    case Some(order) =>
      if order.status.Paid? || order.status.Refunded? then Err(BadRequest)
      else
        match ApplyAll(db.shelves, ReleaseTasks(order.items))
        case Err(e) => Err(e)
        case Ok(shelves) => Ok(WithStatus(db, id, Cancelled).(shelves := shelves))
  }

  function MarkPaid(db: Db, shop: ShopId, id: OrderId): Result<Db> {
    match FindOrder(db, id, shop)
    case None => Err(NotFound)
    case Some(order) =>
      if order.status.Confirmed? then Ok(WithStatus(db, id, Paid)) else Err(BadRequest)
  }

  /** The first line of the order for a product. */
  function FirstItem(items: seq<Item>, p: ProductId): Option<Item> {
    if items == [] then None
    else if items[0].product == p then Some(items[0])
    else FirstItem(items[1..], p)
  }

  function CheckReturn(cat: Catalog, shop: ShopId, order: Order, item: Item): Result<()> {
    match FirstItem(order.items, item.product)
    case None => Err(BadRequest)
    case Some(ordered) =>
      if item.quantity > ordered.quantity then Err(BadRequest)
      else CheckUnit(cat, shop, item.product, item.quantity)
  }

  function CheckReturns(cat: Catalog, shop: ShopId, order: Order, items: seq<Item>): Result<()> {
    if items == [] then Ok(())
    else
      match CheckReturns(cat, shop, order, items[..|items| - 1])
      case Err(e) => Err(e)
      case Ok(_) => CheckReturn(cat, shop, order, items[|items| - 1])
  }

  function ReturnOrder(cat: Catalog, db: Db, shop: ShopId, id: OrderId, items: seq<Item>): Result<Db> {
    match FindOrder(db, id, shop)
    case None => Err(NotFound)
    case Some(order) =>
      if !order.status.Paid? then Err(BadRequest)
      else
        match CheckReturns(cat, shop, order, items)
        case Err(e) => Err(e)
        case Ok(_) =>
          match ApplyAll(db.shelves, ReturnTasks(items, id))
          case Err(e) => Err(e)
          case Ok(shelves) => Ok(WithStatus(db, id, Refunded).(shelves := shelves))
  }

  // ------------------------------------------------- the stock job

  /**
    One attempt of the `process-payment` job. It may crash before its transaction commits,
    or commit and then fail to set the flag that guards the next attempt.
   */
  function RunJob(db: Db, id: OrderId, fault: Fault): (JobOutcome, Db) {
    if id >= |db.orders| then (Missing, db)
    else if db.orders[id].stockDeducted then (AlreadyDeducted, db)
    else
      match ApplyAll(db.shelves, DeductTasks(db.orders[id].items, id))
      case Err(_) => (Rejected, db)
      case Ok(shelves) =>
        var committed := db.(shelves := shelves);
        match fault
        case CrashBeforeCommit => (Crashed, db)
        case MarkFails => (CommittedUnmarked, committed)
        case NoFault =>
          (Deducted, committed.(orders := db.orders[id := db.orders[id].(stockDeducted := true)]))
  }

  // ------------------------------------------------- debts, payments, shifts

  function RepayDebt(db: Db, shop: ShopId, id: DebtId, amount: real): Result<Db> {
    if id >= |db.debts| || db.debts[id].shop != shop then Err(NotFound)
    else
      var debt := db.debts[id];
      if debt.status.DebtPaid? then Err(BadRequest)
      else if amount > debt.remaining as real then Err(BadRequest)
      else
        var remaining := debt.remaining as real - amount;
        var status := if remaining == 0.0 then DebtPaid else DebtPartial;
        var saved := debt.(paid := Cents(debt.paid as real + amount), remaining := Cents(remaining), status := status);
        var next := db.(
          instalments := db.instalments + [Instalment(id, Cents(amount))],
          debts := db.debts[id := saved]);
        Ok(if status.DebtPaid? && debt.order < |db.orders| then WithStatus(next, debt.order, Paid) else next)
  }

  function PaymentOf(order: Order, id: OrderId, byCash: bool, tendered: Option<real>): Result<Payment> {
    if byCash && tendered.Some? && tendered.value < order.total as real then Err(BadRequest)
    else
      var stored := if tendered.Some? then Some(Cents(tendered.value)) else None;
      var change :=
        if byCash && tendered.Some? then Some(Cents(tendered.value - order.total as real)) else None;
      Ok(Payment(id, order.total, stored, change))
  }

  /** The payment row is saved first and stays even if `markPaid` then refuses. */
  function ProcessPayment(db: Db, shop: ShopId, id: OrderId, byCash: bool, tendered: Option<real>): (Result<()>, Db) {
    match FindOrder(db, id, shop)
    case None => (Err(NotFound), db)
    case Some(order) =>
      if order.status.Paid? || order.status.Cancelled? then (Err(BadRequest), db)
      else
        match PaymentOf(order, id, byCash, tendered)
        case Err(e) => (Err(e), db)
        case Ok(payment) =>
          var saved := db.(payments := db.payments + [payment]);
          match MarkPaid(saved, shop, id)
          case Err(e) => (Err(e), saved)
          case Ok(next) => (Ok(()), next)
  }

  predicate HasOpenShift(shifts: map<ShiftId, Shift>, shop: ShopId, cashier: CashierId) {
    exists id :: id in shifts && shifts[id].open && shifts[id].shop == shop && shifts[id].cashier == cashier
  }

  function OpenShift(db: Db, shop: ShopId, cashier: CashierId, float: int, id: ShiftId): Result<Db> {
    if HasOpenShift(db.shifts, shop, cashier) || id in db.shifts then Err(BadRequest)
    else Ok(db.(shifts := db.shifts[id := Shift(shop, cashier, true, float, None, 0, 0, 0, 0)]))
  }

  function CloseShift(db: Db, shop: ShopId, cashier: CashierId, float: int, id: ShiftId): Result<Db> {
    if id !in db.shifts || db.shifts[id].shop != shop then Err(NotFound)
    else if db.shifts[id].cashier != cashier || !db.shifts[id].open then Err(BadRequest)
    else Ok(db.(shifts := db.shifts[id := db.shifts[id].(open := false, closingFloat := Some(float))]))
  }

  // ------------------------------------------------- runs

  function Settle(db: Db, outcome: Result<Db>): Db {
    match outcome
    case Ok(next) => next
    case Err(_) => db
  }

  function Next(cat: Catalog, db: Db, req: Request): Db {
    match req
    case Receiving(shop, p, quantity) => Settle(db, AddToStorage(cat, db, shop, p, quantity))
    case Correcting(shop, p, quantity) => Settle(db, AdjustLevel(cat, db, shop, p, quantity))
    case Ordering(shop, dto) => Settle(db, CreateOrder(cat, db, shop, dto))
    case Cancelling(shop, id) => Settle(db, CancelOrder(db, shop, id))
    case MarkingPaid(shop, id) => Settle(db, MarkPaid(db, shop, id))
    case Returning(shop, id, items) => Settle(db, ReturnOrder(cat, db, shop, id, items))
    case JobAttempt(id, fault) => RunJob(db, id, fault).1
    case Repaying(shop, id, amount) => Settle(db, RepayDebt(db, shop, id, amount))
    case Paying(shop, id, byCash, tendered) => ProcessPayment(db, shop, id, byCash, tendered).1
    case OpeningShift(shop, cashier, float, id) => Settle(db, OpenShift(db, shop, cashier, float, id))
    case ClosingShift(shop, cashier, float, id) => Settle(db, CloseShift(db, shop, cashier, float, id))
  }

  /** The database after a run of requests from an empty one. */
  function Exec(cat: Catalog, reqs: seq<Request>): Db {
    if reqs == [] then EmptyDb else Next(cat, Exec(cat, Front(reqs)), Last(reqs))
  }

  ghost predicate ValidRun(reqs: seq<Request>) {
    forall i :: 0 <= i < |reqs| ==> ValidRequest(reqs[i])
  }
}
