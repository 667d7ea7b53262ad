/**
  What whole runs of requests do to the stock: every step is a list of stock tasks, so the
  run of requests gives each product a run of stock operations, and the results about those
  hold in every reachable database.
 */
module ShopStock {
  import opened Wrappers
  import opened Stock
  import opened StockViews
  import opened StockTasks
  import opened Pricing
  import opened Shop

  // ------------------------------------------------- create: the line loop

  predicate IsTracked(cat: Catalog, p: ProductId) {
    p in cat && cat[p].tracked
  }

  /** The lines that reserve stock. */
  function TrackedItems(cat: Catalog, items: seq<LineDto>): seq<Item> {
    if items == [] then []
    else
      var last := items[|items| - 1];
      TrackedItems(cat, items[..|items| - 1]) +
      if IsTracked(cat, last.product) then [Item(last.product, last.quantity)] else []
  }

  ghost predicate LinesPass(cat: Catalog, shop: ShopId, items: seq<LineDto>) {
    forall i :: 0 <= i < |items| ==> CheckLine(cat, shop, items[i]).Ok?
  }

  /** The shop sells the product, it is active, and a piece product is asked in whole units. */
  predicate Sellable(cat: Catalog, shop: ShopId, line: LineDto) {
    && UnitFits(cat, shop, line.product, line.quantity)
    && line.active
  }

  /** The shop has the product, and a piece product comes in whole units of 1000 thousandths. */
  predicate UnitFits(cat: Catalog, shop: ShopId, p: ProductId, quantity: int) {
    && p in cat && cat[p].shop == shop
    && (cat[p].unit.PIECE? ==> quantity % 1000 == 0)
  }

  /** Exactly which quantities and lines pass their checks, and which error the others give. */
  lemma ChecksPassIff(cat: Catalog, shop: ShopId, line: LineDto)
    ensures CheckUnit(cat, shop, line.product, line.quantity).Ok? <==> UnitFits(cat, shop, line.product, line.quantity)
    ensures CheckUnit(cat, shop, line.product, line.quantity) == Err(NotFound) <==>
            line.product !in cat || cat[line.product].shop != shop
    ensures CheckLine(cat, shop, line).Ok? <==> Sellable(cat, shop, line)
    ensures CheckLine(cat, shop, line) == Err(NotFound) <==> line.product !in cat || cat[line.product].shop != shop
  {
  }

  lemma LinesPassIff(cat: Catalog, shop: ShopId, items: seq<LineDto>)
    ensures LinesPass(cat, shop, items) <==> forall i :: 0 <= i < |items| ==> Sellable(cat, shop, items[i])
  {
    forall i | 0 <= i < |items| ensures CheckLine(cat, shop, items[i]).Ok? <==> Sellable(cat, shop, items[i]) {
      ChecksPassIff(cat, shop, items[i]);
    }
  }

  lemma {:induction false} TrackedPositive(cat: Catalog, items: seq<LineDto>)
    requires ValidLines(items)
    ensures Positive(TrackedItems(cat, items))
  {
    if items != [] {
      TrackedPositive(cat, items[..|items| - 1]);
    }
  }

  lemma LinesPassSplit(cat: Catalog, shop: ShopId, items: seq<LineDto>)
    requires items != []
    ensures LinesPass(cat, shop, items) <==> LinesPass(cat, shop, Front(items)) && CheckLine(cat, shop, Last(items)).Ok?
  {
  }

  /** The tasks of the lines are those of the earlier lines and perhaps one of the last. */
  lemma TrackedTasksSplit(cat: Catalog, items: seq<LineDto>)
    requires items != []
    ensures var tasks := ReserveTasks(TrackedItems(cat, items));
            if IsTracked(cat, Last(items).product)
            then tasks != [] && Last(tasks) == Task(Last(items).product, Reserve(Last(items).quantity)) &&
                 Front(tasks) == ReserveTasks(TrackedItems(cat, Front(items)))
            else tasks == ReserveTasks(TrackedItems(cat, Front(items)))
  {
    var tracked := TrackedItems(cat, items);
    if IsTracked(cat, Last(items).product) {
      assert Front(tracked) == TrackedItems(cat, Front(items));
      ReserveTasksFront(tracked);
    } else {
      assert tracked == TrackedItems(cat, Front(items));
    }
  }

  lemma {:induction false} ReserveLinesAsTasks(cat: Catalog, shop: ShopId, s: Shelves, items: seq<LineDto>)
    ensures var tasks := ReserveTasks(TrackedItems(cat, items));
            && (ReserveLines(cat, shop, s, items).Ok? <==>
                LinesPass(cat, shop, items) && ApplyAll(s, tasks).Ok?)
            && (ReserveLines(cat, shop, s, items).Ok? ==>
                ReserveLines(cat, shop, s, items).value == ApplyAll(s, tasks).value)
  {
    if items != [] {
      ReserveLinesAsTasks(cat, shop, s, Front(items));
      LinesPassSplit(cat, shop, items);
      TrackedTasksSplit(cat, items);
    }
  }

  /**
    The line loop of `create` goes through exactly when every line passes its checks and the
    total of every tracked product, duplicate lines included, fits in its free stock.
   */
  lemma {:induction false} CreateReservesIffTotalsFit(cat: Catalog, shop: ShopId, s: Shelves, items: seq<LineDto>)
    requires ValidLines(items)
    ensures var tracked := TrackedItems(cat, items);
            var outcome := ReserveLines(cat, shop, s, items);
            && (outcome.Ok? <==> LinesPass(cat, shop, items) && Fits(s, tracked))
            && (LinesPass(cat, shop, items) <==> forall i :: 0 <= i < |items| ==> Sellable(cat, shop, items[i]))
            && (outcome.Ok? ==>
                  forall p :: HoldsMore(Get(s, p), Get(outcome.value, p), Demand(tracked, p)))
  {
    LinesPassIff(cat, shop, items);
    TrackedPositive(cat, items);
    ReserveLinesAsTasks(cat, shop, s, items);
    ReserveAllIff(s, TrackedItems(cat, items));
  }

  /** Any failure of `create`, before or after the reservations, leaves the database alone. */
  lemma {:induction false} FailedCreateChangesNothing(cat: Catalog, db: Db, shop: ShopId, dto: CreateDto)
    requires ValidLines(dto.items)
    ensures CreateOrder(cat, db, shop, dto).Ok? <==>
            && (forall i :: 0 <= i < |dto.items| ==> Sellable(cat, shop, dto.items[i]))
            && Fits(db.shelves, TrackedItems(cat, dto.items))
            && dto.cash + dto.card <= DtoTotal(dto)
            && (DtoNotPaid(dto) > 0 ==> dto.customer.Some?)
    ensures CreateOrder(cat, db, shop, dto).Err? ==> Next(cat, db, Ordering(shop, dto)) == db
  {
    CreateReservesIffTotalsFit(cat, shop, db.shelves, dto.items);
  }

  // ------------------------------------------------- steps as stock tasks

  function StepTasks(cat: Catalog, db: Db, req: Request): seq<Task> {
    match req
    case Receiving(shop, p, quantity) =>
      if AddToStorage(cat, db, shop, p, quantity).Ok? then [Task(p, Receive(quantity))] else []
    case Correcting(shop, p, quantity) =>
      if AdjustLevel(cat, db, shop, p, quantity).Ok? then [Task(p, Adjust(quantity))] else []
    case Ordering(shop, dto) =>
      if CreateOrder(cat, db, shop, dto).Ok? then ReserveTasks(TrackedItems(cat, dto.items)) else []
    case Cancelling(shop, id) =>
      if CancelOrder(db, shop, id).Ok? then ReleaseTasks(db.orders[id].items) else []
    case Returning(shop, id, items) =>
      if ReturnOrder(cat, db, shop, id, items).Ok? then ReturnTasks(items, id) else []
    case JobAttempt(id, fault) =>
      if Commits(db, id, fault) then DeductTasks(db.orders[id].items, id) else []
    case _ => []
  }

  /** The attempt commits its deductions, whether or not it then sets the flag. */
  predicate Commits(db: Db, id: OrderId, fault: Fault) {
    RunJob(db, id, fault).0.Deducted? || RunJob(db, id, fault).0.CommittedUnmarked?
  }

  lemma ApplyOne(s: Shelves, t: Task)
    ensures ApplyAll(s, [t]) == ApplyTask(s, t)
  {
    assert [t][..0] == [];
    assert ApplyAll(s, []) == Ok(s);
  }

  /** The stock after a request is the stock before it with the step's tasks applied. */
  lemma NextShelves(cat: Catalog, db: Db, req: Request)
    ensures ApplyAll(db.shelves, StepTasks(cat, db, req)) == Ok(Next(cat, db, req).shelves)
  {
    match req {
      case Receiving(_, p, quantity) => ApplyOne(db.shelves, Task(p, Receive(quantity)));
      case Correcting(_, p, quantity) => ApplyOne(db.shelves, Task(p, Adjust(quantity)));
      case Ordering(shop, dto) => ReserveLinesAsTasks(cat, shop, db.shelves, dto.items);
      case _ =>
    }
  }

  /** The stock operations a run of requests performs on one product. */
  function Trace(cat: Catalog, reqs: seq<Request>, p: ProductId): seq<StockOp> {
    if reqs == [] then []
    else Trace(cat, Front(reqs), p) + OpsOf(StepTasks(cat, Exec(cat, Front(reqs)), Last(reqs)), p)
  }

  lemma {:induction false} TraceIsRun(cat: Catalog, reqs: seq<Request>, p: ProductId)
    ensures Get(Exec(cat, reqs).shelves, p) == Run(EmptyShelf, Trace(cat, reqs, p))
  {
    if reqs != [] {
      var db := Exec(cat, Front(reqs));
      var tasks := StepTasks(cat, db, Last(reqs));
      TraceIsRun(cat, Front(reqs), p);
      NextShelves(cat, db, Last(reqs));
      ApplyAllProjects(db.shelves, tasks, p);
      RunAppend(EmptyShelf, Trace(cat, Front(reqs), p), OpsOf(tasks, p));
    }
  }

  // ------------------------------------------------- stored lines

  ghost predicate GoodItem(cat: Catalog, item: Item) {
    && item.quantity > 0
    && item.product in cat
    && (cat[item.product].unit.PIECE? ==> WholeQty(item.quantity))
  }

  ghost predicate GoodItems(cat: Catalog, items: seq<Item>) {
    forall i :: 0 <= i < |items| ==> GoodItem(cat, items[i])
  }

  /** Every stored line has a positive quantity, whole for a piece product. */
  ghost predicate GoodOrders(cat: Catalog, db: Db) {
    forall id :: 0 <= id < |db.orders| ==> GoodItems(cat, db.orders[id].items)
  }

  lemma PositiveOrder(cat: Catalog, db: Db, id: OrderId)
    requires GoodOrders(cat, db) && id < |db.orders|
    ensures Positive(db.orders[id].items)
  {
    assert GoodItems(cat, db.orders[id].items);
  }

  lemma {:induction false} CheckReturnsAll(cat: Catalog, shop: ShopId, order: Order, items: seq<Item>)
    ensures CheckReturns(cat, shop, order, items).Ok? <==>
            forall i :: 0 <= i < |items| ==> CheckReturn(cat, shop, order, items[i]).Ok?
  {
    if items != [] {
      CheckReturnsAll(cat, shop, order, items[..|items| - 1]);
    }
  }

  /** What a step leaves of the orders: the same lines, and perhaps one new order. */
  ghost predicate KeepsLines(before: Db, after: Db) {
    && |before.orders| <= |after.orders|
    && (forall id :: 0 <= id < |before.orders| ==> after.orders[id].items == before.orders[id].items)
  }

  lemma NextKeepsLines(cat: Catalog, db: Db, req: Request)
    ensures KeepsLines(db, Next(cat, db, req))
    ensures !req.Ordering? ==> |Next(cat, db, req).orders| == |db.orders|
  {
  }

  lemma GoodOrdersStep(cat: Catalog, db: Db, req: Request)
    requires GoodOrders(cat, db) && ValidRequest(req)
    ensures GoodOrders(cat, Next(cat, db, req))
  {
    NextKeepsLines(cat, db, req);
    if req.Ordering? && CreateOrder(cat, db, req.shop, req.dto).Ok? {
      ReserveLinesAsTasks(cat, req.shop, db.shelves, req.dto.items);
      forall i | 0 <= i < |req.dto.items| ensures GoodItem(cat, ItemsOf(req.dto.items)[i]) {
        assert CheckLine(cat, req.shop, req.dto.items[i]).Ok?;
      }
    }
  }

  lemma {:induction false} GoodOrdersRun(cat: Catalog, reqs: seq<Request>)
    requires ValidRun(reqs)
    ensures GoodOrders(cat, Exec(cat, reqs))
  {
    if reqs != [] {
      GoodOrdersRun(cat, Front(reqs));
      GoodOrdersStep(cat, Exec(cat, Front(reqs)), Last(reqs));
    }
  }

  ghost predicate GoodTask(cat: Catalog, t: Task) {
    && ValidOp(t.op)
    && (t.product in cat && cat[t.product].unit.PIECE? ==> WholeQty(t.op.quantity))
  }

  ghost predicate GoodTasks(cat: Catalog, tasks: seq<Task>) {
    forall i :: 0 <= i < |tasks| ==> GoodTask(cat, tasks[i])
  }

  lemma {:induction false} TrackedGood(cat: Catalog, shop: ShopId, items: seq<LineDto>)
    requires ValidLines(items) && LinesPass(cat, shop, items)
    ensures GoodItems(cat, TrackedItems(cat, items))
  {
    if items != [] {
      TrackedGood(cat, shop, items[..|items| - 1]);
      assert CheckLine(cat, shop, items[|items| - 1]).Ok?;
    }
  }

  lemma StepTasksGood(cat: Catalog, db: Db, req: Request)
    requires GoodOrders(cat, db) && ValidRequest(req)
    ensures GoodTasks(cat, StepTasks(cat, db, req))
  {
    match req {
      case Ordering(shop, dto) =>
        if CreateOrder(cat, db, shop, dto).Ok? {
          ReserveLinesAsTasks(cat, shop, db.shelves, dto.items);
          TrackedGood(cat, shop, dto.items);
        }
      case Cancelling(shop, id) =>
        if CancelOrder(db, shop, id).Ok? {
          assert GoodItems(cat, db.orders[id].items);
        }
      case Returning(shop, id, items) =>
        if ReturnOrder(cat, db, shop, id, items).Ok? {
          CheckReturnsAll(cat, shop, db.orders[id], items);
        }
      case JobAttempt(id, fault) =>
        if Commits(db, id, fault) {
          assert GoodItems(cat, db.orders[id].items);
        }
      case _ =>
    }
  }

  lemma {:induction false} OpsOfGood(cat: Catalog, tasks: seq<Task>, p: ProductId)
    requires GoodTasks(cat, tasks)
    ensures AllValid(OpsOf(tasks, p))
    ensures p in cat && cat[p].unit.PIECE? ==>
              forall k :: 0 <= k < |OpsOf(tasks, p)| ==> WholeQty(OpsOf(tasks, p)[k].quantity)
  {
    if tasks != [] {
      OpsOfGood(cat, tasks[..|tasks| - 1], p);
    }
  }

  lemma {:induction false} TraceGood(cat: Catalog, reqs: seq<Request>, p: ProductId)
    requires ValidRun(reqs)
    ensures AllValid(Trace(cat, reqs, p))
    ensures p in cat && cat[p].unit.PIECE? ==>
              forall k :: 0 <= k < |Trace(cat, reqs, p)| ==> WholeQty(Trace(cat, reqs, p)[k].quantity)
  {
    if reqs != [] {
      var db := Exec(cat, Front(reqs));
      TraceGood(cat, Front(reqs), p);
      GoodOrdersRun(cat, Front(reqs));
      StepTasksGood(cat, db, Last(reqs));
      OpsOfGood(cat, StepTasks(cat, db, Last(reqs)), p);
    }
  }

  /** Piece goods stay whole in every reachable database. */
  lemma {:induction false} PieceGoodsStayWhole(cat: Catalog, reqs: seq<Request>, p: ProductId)
    requires ValidRun(reqs) && p in cat && cat[p].unit.PIECE?
    ensures Whole(Get(Exec(cat, reqs).shelves, p))
  {
    TraceIsRun(cat, reqs, p);
    TraceGood(cat, reqs, p);
    WholeRun(EmptyShelf, Trace(cat, reqs, p));
  }

  /**
    In every reachable database: batches, summary and log of a product have agreed throughout
    exactly when no receipt met a level row without a shop, and if so the reserved quantity
    can be read off the log, and nothing was ever clamped exactly when its minimum is zero.
   */
  lemma {:induction false} StockViewsOnEveryRun(cat: Catalog, reqs: seq<Request>, p: ProductId)
    requires ValidRun(reqs)
    ensures var ops := Trace(cat, reqs, p);
            var sh := Get(Exec(cat, reqs).shelves, p);
            && sh == Run(EmptyShelf, ops)
            && (AlwaysAgree(ops) <==> NeverSplits(ops))
            && (NeverSplits(ops) ==>
                  && Agree(sh) && OneRow(sh) && Recoverable(sh)
                  && (NeverClamps(ops) <==> LowestHeld(sh.log) == 0)
                  && (AlwaysBounded(ops) <==> NeverAdjustsBelowReserved(ops)))
  {
    var ops := Trace(cat, reqs, p);
    TraceIsRun(cat, reqs, p);
    TraceGood(cat, reqs, p);
    ViewsAgreeIff(ops);
    if NeverSplits(ops) {
      ViewsAgree(ops);
      ReservedFromLog(ops);
      BoundedIff(ops);
    }
  }

  // ------------------------------------------------- tracked products never split

  /** No operation inserts a level row without a shop. */
  ghost predicate NoStrayReturn(sh: Shelf, ops: seq<StockOp>) {
    sh.own.Some? || NoReturns(ops)
  }

  ghost predicate NoReturns(ops: seq<StockOp>) {
    forall k :: 0 <= k < |ops| ==> !ops[k].Return?
  }

  lemma {:induction false} StrayFreeAppend(a: seq<StockOp>, b: seq<StockOp>)
    requires NeverSplits(a) && Run(EmptyShelf, a).stray.None?
    requires NoStrayReturn(Run(EmptyShelf, a), b)
    ensures NeverSplits(a + b) && Run(EmptyShelf, a + b).stray.None?
    ensures Run(EmptyShelf, a).own.Some? ==> Run(EmptyShelf, a + b).own.Some?
  {
    if b == [] {
      assert a + b == a;
    } else {
      var front := b[..|b| - 1];
      assert Front(a + b) == a + front;
      StrayFreeAppend(a, front);
    }
  }

  ghost predicate Ordered(db: Db, p: ProductId) {
    exists id :: 0 <= id < |db.orders| && Mentions(db.orders[id].items, p)
  }

  lemma {:induction false} TrackedMentions(cat: Catalog, items: seq<LineDto>, p: ProductId)
    requires IsTracked(cat, p) && Mentions(ItemsOf(items), p)
    ensures Mentions(TrackedItems(cat, items), p)
  {
    var i :| 0 <= i < |items| && ItemsOf(items)[i].product == p;
    var tracked := TrackedItems(cat, items);
    var front := items[..|items| - 1];
    if i == |items| - 1 {
      assert tracked[|tracked| - 1].product == p;
    } else {
      assert ItemsOf(front)[i].product == p;
      TrackedMentions(cat, front, p);
      var j :| 0 <= j < |TrackedItems(cat, front)| && TrackedItems(cat, front)[j].product == p;
      assert tracked[j].product == p;
    }
  }

  lemma {:induction false} OpsComeFromTasks(tasks: seq<Task>, p: ProductId, k: nat)
    requires k < |OpsOf(tasks, p)|
    ensures exists i :: 0 <= i < |tasks| && tasks[i].product == p && tasks[i].op == OpsOf(tasks, p)[k]
  {
    var front, last := tasks[..|tasks| - 1], tasks[|tasks| - 1];
    if k < |OpsOf(front, p)| {
      OpsComeFromTasks(front, p, k);
      var i :| 0 <= i < |front| && front[i].product == p && front[i].op == OpsOf(front, p)[k];
      assert tasks[i].product == p && tasks[i].op == OpsOf(tasks, p)[k];
    } else {
      assert tasks[|tasks| - 1].op == OpsOf(tasks, p)[k];
    }
  }

  lemma {:induction false} FirstItemMentions(items: seq<Item>, p: ProductId)
    requires FirstItem(items, p).Some?
    ensures Mentions(items, p)
  {
    if items[0].product != p {
      FirstItemMentions(items[1..], p);
      var i :| 0 <= i < |items[1..]| && items[1..][i].product == p;
      assert items[i + 1].product == p;
    } else {
      assert items[0].product == p;
    }
  }

  /** A step returns only products some order has ordered. */
  lemma ReturnsWereOrdered(cat: Catalog, db: Db, req: Request, p: ProductId)
    ensures Ordered(db, p) || NoReturns(OpsOf(StepTasks(cat, db, req), p))
  {
    var tasks := StepTasks(cat, db, req);
    forall k | 0 <= k < |OpsOf(tasks, p)| && OpsOf(tasks, p)[k].Return? ensures Ordered(db, p) {
      OpsComeFromTasks(tasks, p, k);
      var i :| 0 <= i < |tasks| && tasks[i].product == p && tasks[i].op == OpsOf(tasks, p)[k];
      CheckReturnsAll(cat, req.shop, db.orders[req.order], req.items);
      assert CheckReturn(cat, req.shop, db.orders[req.order], req.items[i]).Ok?;
      FirstItemMentions(db.orders[req.order].items, p);
      assert Mentions(db.orders[req.order].items, p);
    }
  }

  lemma OrderedByStep(cat: Catalog, db: Db, req: Request, p: ProductId)
    requires Ordered(Next(cat, db, req), p)
    ensures Ordered(db, p) ||
            (req.Ordering? && CreateOrder(cat, db, req.shop, req.dto).Ok? && Mentions(ItemsOf(req.dto.items), p))
  {
    NextKeepsLines(cat, db, req);
    var next := Next(cat, db, req);
    var id :| 0 <= id < |next.orders| && Mentions(next.orders[id].items, p);
    if id < |db.orders| {
      assert Mentions(db.orders[id].items, p);
    }
  }

  /** An order for a tracked product is accepted only if the product has its own level row. */
  lemma OrderedHasLevel(cat: Catalog, db: Db, req: Request, p: ProductId)
    requires ValidRequest(req) && IsTracked(cat, p) && Get(db.shelves, p).stray.None?
    requires Ordered(Next(cat, db, req), p)
    ensures Ordered(db, p) || Get(db.shelves, p).own.Some?
  {
    OrderedByStep(cat, db, req, p);
    if !Ordered(db, p) {
      CreateReservesIffTotalsFit(cat, req.shop, db.shelves, req.dto.items);
      TrackedMentions(cat, req.dto.items, p);
    }
  }

  /** The operations so far split nothing, and `ordered` says whether the product must have a row. */
  ghost predicate StrayFree(ops: seq<StockOp>, ordered: bool) {
    var sh := Run(EmptyShelf, ops);
    NeverSplits(ops) && sh.stray.None? && (ordered ==> sh.own.Some?)
  }

  lemma StrayFreeStep(cat: Catalog, db: Db, req: Request, before: seq<StockOp>, p: ProductId)
    requires ValidRequest(req) && IsTracked(cat, p)
    requires Get(db.shelves, p) == Run(EmptyShelf, before) && StrayFree(before, Ordered(db, p))
    ensures StrayFree(before + OpsOf(StepTasks(cat, db, req), p), Ordered(Next(cat, db, req), p))
  {
    ReturnsWereOrdered(cat, db, req, p);
    StrayFreeAppend(before, OpsOf(StepTasks(cat, db, req), p));
    if Ordered(Next(cat, db, req), p) {
      OrderedHasLevel(cat, db, req, p);
    }
  }

  lemma {:induction false} StrayFreeRun(cat: Catalog, reqs: seq<Request>, p: ProductId)
    requires ValidRun(reqs) && IsTracked(cat, p)
    ensures StrayFree(Trace(cat, reqs, p), Ordered(Exec(cat, reqs), p))
  {
    if reqs != [] {
      StrayFreeRun(cat, Front(reqs), p);
      TraceIsRun(cat, Front(reqs), p);
      StrayFreeStep(cat, Exec(cat, Front(reqs)), Last(reqs), Trace(cat, Front(reqs), p), p);
    }
  }

  /** For a tracked product no run splits the level, so its three views always agree. */
  lemma {:induction false} TrackedAlwaysAgrees(cat: Catalog, reqs: seq<Request>, p: ProductId)
    requires ValidRun(reqs) && IsTracked(cat, p)
    ensures AlwaysAgree(Trace(cat, reqs, p))
    ensures Agree(Get(Exec(cat, reqs).shelves, p)) && Get(Exec(cat, reqs).shelves, p).stray.None?
  {
    StrayFreeRun(cat, reqs, p);
    StockViewsOnEveryRun(cat, reqs, p);
  }
}
