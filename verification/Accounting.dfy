/**
  What the movement log says about one order over whole runs: how much of each product the
  stock job deducted for it, and how much was returned.
 */
module Accounting {
  import opened Wrappers
  import opened Stock
  import opened StockTasks
  import opened Shop
  import opened ShopStock
  import opened Lifecycle
  import opened Debts

  /** The quantities of one kind of movement booked under an order. */
  function Moved(log: seq<Movement>, kind: Kind, id: OrderId): int {
    if log == [] then 0
    else
      var m := Last(log);
      Moved(Front(log), kind, id) + if m.kind == kind && m.reference == Some(id) then m.quantity else 0
  }

  function MovedByOp(op: StockOp, kind: Kind, id: OrderId): int {
    if op.Deduct? && kind.SALE? && op.order == id then -op.quantity
    else if op.Return? && kind.RETURN? && op.order == id then op.quantity
    else 0
  }

  function MovedByTasks(tasks: seq<Task>, p: ProductId, kind: Kind, id: OrderId): int {
    if tasks == [] then 0
    else
      var t := Last(tasks);
      MovedByTasks(Front(tasks), p, kind, id) + if t.product == p then MovedByOp(t.op, kind, id) else 0
  }

  lemma MovedAppend(log: seq<Movement>, m: Movement, kind: Kind, id: OrderId)
    ensures Moved(log + [m], kind, id) ==
            Moved(log, kind, id) + if m.kind == kind && m.reference == Some(id) then m.quantity else 0
  {
    assert Front(log + [m]) == log;
  }

  lemma ApplyMoves(sh: Shelf, op: StockOp, kind: Kind, id: OrderId)
    requires Apply(sh, op).Ok?
    ensures Moved(Apply(sh, op).value.log, kind, id) == Moved(sh.log, kind, id) + MovedByOp(op, kind, id)
  {
    var log := Apply(sh, op).value.log;
    if log != sh.log {
      var m := Last(log);
      assert log == sh.log + [m];
      assert (if m.kind == kind && m.reference == Some(id) then m.quantity else 0) == MovedByOp(op, kind, id) by {
        EntryOf(sh, op);
      }
      MovedAppend(sh.log, m, kind, id);
    }
  }

  /** The entry an operation logs: only deductions and returns carry an order. */
  lemma EntryOf(sh: Shelf, op: StockOp)
    requires Apply(sh, op).Ok? && Apply(sh, op).value.log != sh.log
    ensures var m := Last(Apply(sh, op).value.log);
            match op
            case Deduct(q, order) => m.kind.SALE? && m.quantity == -q && m.reference == Some(order)
            case Return(q, order) => m.kind.RETURN? && m.quantity == q && m.reference == Some(order)
            case _ => m.reference.None?
  {
  }

  lemma TaskMoves(s: Shelves, t: Task, p: ProductId, kind: Kind, id: OrderId)
    requires ApplyTask(s, t).Ok?
    ensures Moved(Get(ApplyTask(s, t).value, p).log, kind, id) ==
            Moved(Get(s, p).log, kind, id) + if t.product == p then MovedByOp(t.op, kind, id) else 0
  {
    if t.product == p {
      ApplyMoves(Get(s, p), t.op, kind, id);
    }
  }

  lemma {:induction false} TasksMove(s: Shelves, tasks: seq<Task>, p: ProductId, kind: Kind, id: OrderId)
    requires ApplyAll(s, tasks).Ok?
    ensures Moved(Get(ApplyAll(s, tasks).value, p).log, kind, id) ==
            Moved(Get(s, p).log, kind, id) + MovedByTasks(tasks, p, kind, id)
  {
    if tasks != [] {
      TasksMove(s, Front(tasks), p, kind, id);
      TaskMoves(ApplyAll(s, Front(tasks)).value, Last(tasks), p, kind, id);
    }
  }

  lemma {:induction false} DeductTasksMove(items: seq<Item>, order: OrderId, p: ProductId, kind: Kind, id: OrderId)
    ensures MovedByTasks(DeductTasks(items, order), p, kind, id) ==
            if kind.SALE? && order == id then -Demand(items, p) else 0
  {
    if items != [] {
      assert Front(DeductTasks(items, order)) == DeductTasks(Front(items), order);
      DeductTasksMove(Front(items), order, p, kind, id);
    }
  }

  lemma {:induction false} ReturnTasksMove(items: seq<Item>, order: OrderId, p: ProductId, kind: Kind, id: OrderId)
    ensures MovedByTasks(ReturnTasks(items, order), p, kind, id) ==
            if kind.RETURN? && order == id then Demand(items, p) else 0
  {
    if items != [] {
      assert Front(ReturnTasks(items, order)) == ReturnTasks(Front(items), order);
      ReturnTasksMove(Front(items), order, p, kind, id);
    }
  }

  lemma {:induction false} OtherTasksMoveNothing(tasks: seq<Task>, p: ProductId, kind: Kind, id: OrderId)
    requires forall i :: 0 <= i < |tasks| ==> !tasks[i].op.Deduct? && !tasks[i].op.Return?
    ensures MovedByTasks(tasks, p, kind, id) == 0
  {
    if tasks != [] {
      OtherTasksMoveNothing(Front(tasks), p, kind, id);
    }
  }

  function ItemsAt(db: Db, id: OrderId): seq<Item> {
    if Exists(db, id) then db.orders[id].items else []
  }

  /** What one step books under an order. */
  function StepSold(db: Db, req: Request, id: OrderId, p: ProductId): int {
    if DeductsOrder(db, req, id) then -Demand(ItemsAt(db, id), p) else 0
  }

  function StepReturned(cat: Catalog, db: Db, req: Request, id: OrderId, p: ProductId): int {
    if ReturnsOrder(cat, db, req, id) then Demand(req.items, p) else 0
  }

  /** The request commits the deductions of the order. */
  predicate DeductsOrder(db: Db, req: Request, id: OrderId) {
    req.JobAttempt? && req.order == id && Commits(db, id, req.fault)
  }

  lemma StepMoves(cat: Catalog, db: Db, req: Request, id: OrderId, p: ProductId)
    ensures MovedByTasks(StepTasks(cat, db, req), p, SALE, id) == StepSold(db, req, id, p)
    ensures MovedByTasks(StepTasks(cat, db, req), p, RETURN, id) == StepReturned(cat, db, req, id, p)
  {
    match req {
      case JobAttempt(order, fault) =>
        if Commits(db, order, fault) {
          DeductTasksMove(db.orders[order].items, order, p, SALE, id);
          DeductTasksMove(db.orders[order].items, order, p, RETURN, id);
        }
      case Returning(shop, order, items) =>
        if ReturnOrder(cat, db, shop, order, items).Ok? {
          ReturnTasksMove(items, order, p, SALE, id);
          ReturnTasksMove(items, order, p, RETURN, id);
        }
      case _ =>
        OtherTasksMoveNothing(StepTasks(cat, db, req), p, SALE, id);
        OtherTasksMoveNothing(StepTasks(cat, db, req), p, RETURN, id);
    }
  }

  lemma NextMoves(cat: Catalog, db: Db, req: Request, id: OrderId, p: ProductId)
    ensures var before, after := Get(db.shelves, p).log, Get(Next(cat, db, req).shelves, p).log;
            && Moved(after, SALE, id) == Moved(before, SALE, id) + StepSold(db, req, id, p)
            && Moved(after, RETURN, id) == Moved(before, RETURN, id) + StepReturned(cat, db, req, id, p)
  {
    NextShelves(cat, db, req);
    TasksMove(db.shelves, StepTasks(cat, db, req), p, SALE, id);
    TasksMove(db.shelves, StepTasks(cat, db, req), p, RETURN, id);
    StepMoves(cat, db, req, id, p);
  }

  // ------------------------------------------------- deductions

  /** How often the deductions of an order were committed. */
  function Deductions(cat: Catalog, reqs: seq<Request>, id: OrderId): nat {
    if reqs == [] then 0
    else Deductions(cat, Front(reqs), id) + if DeductsOrder(Exec(cat, Front(reqs)), Last(reqs), id) then 1 else 0
  }

  /** The attempt commits and then fails to set the flag. */
  predicate LosesMark(db: Db, req: Request, id: OrderId) {
    DeductsOrder(db, req, id) && req.fault.MarkFails?
  }

  function LostMarks(cat: Catalog, reqs: seq<Request>, id: OrderId): nat {
    if reqs == [] then 0
    else LostMarks(cat, Front(reqs), id) + if LosesMark(Exec(cat, Front(reqs)), Last(reqs), id) then 1 else 0
  }

  predicate Flagged(db: Db, id: OrderId) {
    Exists(db, id) && db.orders[id].stockDeducted
  }

  lemma FlagStep(cat: Catalog, db: Db, req: Request, id: OrderId)
    ensures Flagged(Next(cat, db, req), id) <==>
            Flagged(db, id) || (DeductsOrder(db, req, id) && !LosesMark(db, req, id))
    ensures Flagged(db, id) ==> !DeductsOrder(db, req, id)
  {
  }

  /** The deductions committed are the marks lost, plus one once the flag is set. */
  lemma {:induction false} DeductionCount(cat: Catalog, reqs: seq<Request>, id: OrderId)
    ensures Deductions(cat, reqs, id) ==
            LostMarks(cat, reqs, id) + if Flagged(Exec(cat, reqs), id) then 1 else 0
    ensures !Exists(Exec(cat, reqs), id) ==> Deductions(cat, reqs, id) == 0
  {
    if reqs != [] {
      DeductionCount(cat, Front(reqs), id);
      FlagStep(cat, Exec(cat, Front(reqs)), Last(reqs), id);
      NextKeepsLines(cat, Exec(cat, Front(reqs)), Last(reqs));
    }
  }

  lemma NextItemsAt(cat: Catalog, db: Db, req: Request, id: OrderId)
    ensures Exists(db, id) ==> Exists(Next(cat, db, req), id) && ItemsAt(Next(cat, db, req), id) == ItemsAt(db, id)
    ensures !Exists(db, id) ==> !DeductsOrder(db, req, id) && !ReturnsOrder(cat, db, req, id)
  {
    NextKeepsLines(cat, db, req);
  }

  lemma OneMore(n: int, d: int)
    ensures (n + 1) * d == n * d + d
    ensures 0 * d == 0
  {
  }

  /** `n` deductions of a line total so far, and perhaps one more by this step. */
  lemma SoldStep(cat: Catalog, db: Db, req: Request, id: OrderId, p: ProductId, n: nat)
    requires Moved(Get(db.shelves, p).log, SALE, id) == -(n * Demand(ItemsAt(db, id), p))
    requires !Exists(db, id) ==> n == 0
    ensures var next := Next(cat, db, req);
            var m := n + if DeductsOrder(db, req, id) then 1 else 0;
            Moved(Get(next.shelves, p).log, SALE, id) == -(m * Demand(ItemsAt(next, id), p))
  {
    NextMoves(cat, db, req, id, p);
    NextItemsAt(cat, db, req, id);
    OneMore(n, Demand(ItemsAt(db, id), p));
  }

  /**
    Over any run, whatever else happens in between: the deductions committed for an order are
    exactly its lost marks, plus one once the flag is set; and the SALE movements booked under
    it are that many times its lines.
   */
  lemma {:induction false} DeductionsExact(cat: Catalog, reqs: seq<Request>, id: OrderId, p: ProductId)
    ensures var db := Exec(cat, reqs);
            var n := Deductions(cat, reqs, id);
            && n == LostMarks(cat, reqs, id) + (if Flagged(db, id) then 1 else 0)
            && Moved(Get(db.shelves, p).log, SALE, id) == -(n * Demand(ItemsAt(db, id), p))
  {
    DeductionCount(cat, reqs, id);
    if reqs != [] {
      DeductionCount(cat, Front(reqs), id);
      DeductionsExact(cat, Front(reqs), id, p);
      SoldStep(cat, Exec(cat, Front(reqs)), Last(reqs), id, p, Deductions(cat, Front(reqs), id));
    }
  }

  /** A crash before the commit, and any attempt after the flag is set, change nothing. */
  lemma HarmlessAttempts(cat: Catalog, db: Db, id: OrderId, fault: Fault)
    ensures Flagged(db, id) || fault.CrashBeforeCommit? ==> Next(cat, db, JobAttempt(id, fault)) == db
    ensures Next(cat, db, JobAttempt(id, fault)) != db ==> Commits(db, id, fault)
  {
  }

  // ------------------------------------------------- returned units

  /** What the accepted returns of an order asked back, all lines counted. */
  function AskedBack(cat: Catalog, reqs: seq<Request>, id: OrderId, p: ProductId): int {
    if reqs == [] then 0
    else AskedBack(cat, Front(reqs), id, p) + StepReturned(cat, Exec(cat, Front(reqs)), Last(reqs), id, p)
  }

  /** On every run the RETURN movements of an order are what its accepted returns asked back. */
  lemma {:induction false} ReturnedIsAskedBack(cat: Catalog, reqs: seq<Request>, id: OrderId, p: ProductId)
    ensures Moved(Get(Exec(cat, reqs).shelves, p).log, RETURN, id) == AskedBack(cat, reqs, id, p)
  {
    if reqs != [] {
      ReturnedIsAskedBack(cat, Front(reqs), id, p);
      NextMoves(cat, Exec(cat, Front(reqs)), Last(reqs), id, p);
    }
  }

  /** How many lines name the product. */
  function Times(items: seq<Item>, p: ProductId): nat {
    if items == [] then 0 else Times(Front(items), p) + if Last(items).product == p then 1 else 0
  }

  /** What the first line of the product ordered: the limit of every returned line. */
  function FirstQuantity(items: seq<Item>, p: ProductId): int {
    if FirstItem(items, p).Some? then FirstItem(items, p).value.quantity else 0
  }

  lemma {:induction false} FirstQuantityPositive(items: seq<Item>, p: ProductId)
    requires Positive(items)
    ensures FirstQuantity(items, p) >= 0
  {
    if items != [] {
      FirstQuantityPositive(items[1..], p);
    }
  }

  /** Lines of at most `bound` each add up to at most `bound` for each time the product is named. */
  lemma {:induction false} DemandOfNamed(items: seq<Item>, p: ProductId, bound: int)
    requires forall i :: 0 <= i < |items| && items[i].product == p ==> items[i].quantity <= bound
    ensures Demand(items, p) <= Times(items, p) * bound
  {
    if items == [] {
      OneMore(0, bound);
    } else {
      DemandOfNamed(Front(items), p, bound);
      OneMore(Times(Front(items), p), bound);
    }
  }

  /** An accepted return gives back at most the first line's quantity each time it names the product. */
  lemma OneReturnBounded(cat: Catalog, shop: ShopId, order: Order, items: seq<Item>, p: ProductId)
    requires CheckReturns(cat, shop, order, items).Ok?
    ensures Demand(items, p) <= Times(items, p) * FirstQuantity(order.items, p)
  {
    CheckReturnsAll(cat, shop, order, items);
    forall i | 0 <= i < |items| && items[i].product == p
      ensures items[i].quantity <= FirstQuantity(order.items, p)
    {
      assert CheckReturn(cat, shop, order, items[i]).Ok?;
    }
    DemandOfNamed(items, p, FirstQuantity(order.items, p));
  }

  lemma {:induction false} DemandOfRepeat(item: Item, k: nat)
    ensures Times(Repeat(item, k), item.product) == k
    ensures Demand(Repeat(item, k), item.product) == k * item.quantity
  {
    if k > 0 {
      assert Front(Repeat(item, k)) == Repeat(item, k - 1);
      DemandOfRepeat(item, k - 1);
      OneMore(k - 1, item.quantity);
    } else {
      OneMore(0, item.quantity);
    }
  }

  /** Naming the product `k` times with the first line's quantity is accepted, for every `k`. */
  lemma RepeatIsAccepted(cat: Catalog, shop: ShopId, order: Order, p: ProductId, k: nat)
    requires FirstItem(order.items, p).Some? && CheckUnit(cat, shop, p, FirstQuantity(order.items, p)).Ok?
    ensures CheckReturns(cat, shop, order, Repeat(Item(p, FirstQuantity(order.items, p)), k)).Ok?
  {
    CheckReturnsAll(cat, shop, order, Repeat(Item(p, FirstQuantity(order.items, p)), k));
  }

  /** The database accepts these lines as a return of the order. */
  ghost predicate AcceptsReturn(cat: Catalog, db: Db, id: OrderId, items: seq<Item>) {
    Exists(db, id) && Positive(items) && CheckReturns(cat, db.orders[id].shop, db.orders[id], items).Ok?
  }

  /** Every line of every order passes the unit check of its shop. */
  ghost predicate UnitsPass(cat: Catalog, db: Db) {
    forall id :: 0 <= id < |db.orders| ==> LinesOfShop(cat, db.orders[id].shop, db.orders[id].items)
  }

  ghost predicate LinesOfShop(cat: Catalog, shop: ShopId, items: seq<Item>) {
    forall i :: 0 <= i < |items| ==> CheckUnit(cat, shop, items[i].product, items[i].quantity).Ok?
  }

  lemma UnitsPassStep(cat: Catalog, db: Db, req: Request)
    requires UnitsPass(cat, db)
    ensures UnitsPass(cat, Next(cat, db, req))
  {
    var next := Next(cat, db, req);
    forall id: nat | id < |next.orders| ensures LinesOfShop(cat, next.orders[id].shop, next.orders[id].items) {
      if id < |db.orders| {
        OrderRowStep(cat, db, req, id);
      } else {
        NewOrderLines(cat, db, req);
      }
    }
  }

  lemma NewOrderLines(cat: Catalog, db: Db, req: Request)
    requires |Next(cat, db, req).orders| > |db.orders|
    ensures |Next(cat, db, req).orders| == |db.orders| + 1
    ensures var order := Last(Next(cat, db, req).orders);
            LinesOfShop(cat, order.shop, order.items)
  {
    NextKeepsLines(cat, db, req);
    ReserveLinesAsTasks(cat, req.shop, db.shelves, req.dto.items);
    forall i | 0 <= i < |req.dto.items|
      ensures CheckUnit(cat, req.shop, ItemsOf(req.dto.items)[i].product, ItemsOf(req.dto.items)[i].quantity).Ok?
    {
      assert CheckLine(cat, req.shop, req.dto.items[i]).Ok?;
    }
  }

  lemma {:induction false} UnitsPassRun(cat: Catalog, reqs: seq<Request>)
    ensures UnitsPass(cat, Exec(cat, reqs))
  {
    if reqs != [] {
      UnitsPassRun(cat, Front(reqs));
      UnitsPassStep(cat, Exec(cat, Front(reqs)), Last(reqs));
    }
  }

  lemma {:induction false} FirstItemIsLine(items: seq<Item>, p: ProductId)
    requires FirstItem(items, p).Some?
    ensures FirstItem(items, p).value.product == p
    ensures exists i :: 0 <= i < |items| && items[i] == FirstItem(items, p).value
  {
    if items[0].product == p {
      assert items[0] == FirstItem(items, p).value;
    } else {
      FirstItemIsLine(items[1..], p);
      var i :| 0 <= i < |items[1..]| && items[1..][i] == FirstItem(items, p).value;
      assert items[i + 1] == FirstItem(items, p).value;
    }
  }

  /**
    In every reachable database: all acceptable returns that name an ordered product `k` times
    stay within what the order has of it exactly if `k` times its first line does.
   */
  lemma {:induction false} ReturnStaysWithinIff(cat: Catalog, reqs: seq<Request>, id: OrderId, p: ProductId, k: nat)
    requires ValidRun(reqs) && Exists(Exec(cat, reqs), id)
    requires FirstItem(Exec(cat, reqs).orders[id].items, p).Some?
    ensures var db := Exec(cat, reqs);
            var ordered := db.orders[id].items;
            (forall items :: AcceptsReturn(cat, db, id, items) && Times(items, p) == k ==>
               Demand(items, p) <= Demand(ordered, p)) <==>
            k * FirstQuantity(ordered, p) <= Demand(ordered, p)
  {
    GoodOrdersRun(cat, reqs);
    UnitsPassRun(cat, reqs);
    WithinIff(cat, Exec(cat, reqs), id, p, k);
  }

  lemma WithinIff(cat: Catalog, db: Db, id: OrderId, p: ProductId, k: nat)
    requires GoodOrders(cat, db) && UnitsPass(cat, db) && Exists(db, id)
    requires FirstItem(db.orders[id].items, p).Some?
    ensures var ordered := db.orders[id].items;
            (forall items :: AcceptsReturn(cat, db, id, items) && Times(items, p) == k ==>
               Demand(items, p) <= Demand(ordered, p)) <==>
            k * FirstQuantity(ordered, p) <= Demand(ordered, p)
  {
    var order := db.orders[id];
    var most := Repeat(Item(p, FirstQuantity(order.items, p)), k);
    PositiveOrder(cat, db, id);
    FirstItemIsLine(order.items, p);
    assert LinesOfShop(cat, order.shop, order.items);
    RepeatIsAccepted(cat, order.shop, order, p, k);
    DemandOfRepeat(Item(p, FirstQuantity(order.items, p)), k);
    assert AcceptsReturn(cat, db, id, most) && Times(most, p) == k;
    forall items | AcceptsReturn(cat, db, id, items) && Times(items, p) == k
      ensures Demand(items, p) <= k * FirstQuantity(order.items, p)
    {
      OneReturnBounded(cat, order.shop, order, items, p);
    }
  }

  /** Every return of the order names the product at most `k` times. */
  ghost predicate NamedAtMost(reqs: seq<Request>, id: OrderId, p: ProductId, k: nat) {
    forall i :: 0 <= i < |reqs| && reqs[i].Returning? && reqs[i].order == id ==> Times(reqs[i].items, p) <= k
  }

  lemma {:induction false} ReturnsOfMissing(cat: Catalog, reqs: seq<Request>, id: OrderId)
    requires !Exists(Exec(cat, reqs), id)
    ensures Returns(cat, reqs, id) == 0
  {
    ReturnsBounded(cat, reqs, id);
  }

  lemma MultiplyMonotone(a: nat, b: nat, n: nat)
    requires a <= b
    ensures a * n <= b * n
  {
  }

  /** One step asks back at most `k` times the first line, and only if it is an accepted return. */
  lemma StepReturnedBounded(cat: Catalog, db: Db, req: Request, id: OrderId, p: ProductId, k: nat)
    requires GoodOrders(cat, db) && (req.Returning? && req.order == id ==> Times(req.items, p) <= k)
    ensures StepReturned(cat, db, req, id, p) <=
            if ReturnsOrder(cat, db, req, id) then k * FirstQuantity(ItemsAt(db, id), p) else 0
  {
    if ReturnsOrder(cat, db, req, id) {
      PositiveOrder(cat, db, id);
      FirstQuantityPositive(db.orders[id].items, p);
      OneReturnBounded(cat, req.shop, db.orders[id], req.items, p);
      MultiplyMonotone(Times(req.items, p), k, FirstQuantity(db.orders[id].items, p));
    }
  }

  lemma {:induction false} AskedBackBounded(cat: Catalog, reqs: seq<Request>, id: OrderId, p: ProductId, k: nat)
    requires ValidRun(reqs) && NamedAtMost(reqs, id, p, k)
    ensures AskedBack(cat, reqs, id, p) <=
            Returns(cat, reqs, id) * (k * FirstQuantity(ItemsAt(Exec(cat, reqs), id), p))
  {
    if reqs == [] {
      OneMore(0, k * FirstQuantity(ItemsAt(EmptyDb, id), p));
    } else {
      var db := Exec(cat, Front(reqs));
      AskedBackBounded(cat, Front(reqs), id, p, k);
      GoodOrdersRun(cat, Front(reqs));
      StepReturnedBounded(cat, db, Last(reqs), id, p, k);
      NextItemsAt(cat, db, Last(reqs), id);
      if Exists(db, id) {
        OneMore(Returns(cat, Front(reqs), id), k * FirstQuantity(ItemsAt(db, id), p));
      } else {
        ReturnsOfMissing(cat, Front(reqs), id);
        OneMore(0, k * FirstQuantity(ItemsAt(db, id), p));
        OneMore(0, k * FirstQuantity(ItemsAt(Exec(cat, reqs), id), p));
      }
    }
  }

  /**
    Over any run whose returns of the order name the product at most `k` times each, the order
    gives back at most `k` times its first line of the product, or twice that if it had a debt.
   */
  lemma {:induction false} ReturnedUnitsBounded(cat: Catalog, reqs: seq<Request>, id: OrderId, p: ProductId, k: nat)
    requires ValidRun(reqs) && NamedAtMost(reqs, id, p, k) && Exists(Exec(cat, reqs), id)
    ensures var db := Exec(cat, reqs);
            Moved(Get(db.shelves, p).log, RETURN, id) <=
            (1 + HasDebt(db, id)) * (k * FirstQuantity(db.orders[id].items, p))
  {
    var db := Exec(cat, reqs);
    ReturnedIsAskedBack(cat, reqs, id, p);
    AskedBackBounded(cat, reqs, id, p, k);
    ReturnsBounded(cat, reqs, id);
    GoodOrdersRun(cat, reqs);
    PositiveOrder(cat, db, id);
    FirstQuantityPositive(db.orders[id].items, p);
    MultiplyMonotone(0, k, FirstQuantity(db.orders[id].items, p));
    MultiplyMonotone(Returns(cat, reqs, id), 1 + HasDebt(db, id), k * FirstQuantity(db.orders[id].items, p));
  }
}
