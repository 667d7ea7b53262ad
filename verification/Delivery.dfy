/**
  A reservation guarantees delivery. On a disciplined run what is reserved of a product is
  exactly what the open orders ask of it, and the stock job of an open order cannot fail.
 */
module Delivery {
  import opened Wrappers
  import opened Fifo
  import opened Stock
  import opened StockViews
  import opened StockTasks
  import opened Pricing
  import opened Shop
  import opened ShopStock
  import opened StockTrail

  // ------------------------------------------------- disciplined runs

  /** The orders neither cancelled nor deducted yet, told from the history of the run. */
  function OpenAfter(cat: Catalog, db: Db, req: Request, open: set<OrderId>): set<OrderId> {
    match req
    case Ordering(shop, dto) => if CreateOrder(cat, db, shop, dto).Ok? then open + {|db.orders|} else open
    case Cancelling(shop, id) => if CancelOrder(db, shop, id).Ok? then open - {id} else open
    case JobAttempt(id, fault) => if Commits(db, id, fault) then open - {id} else open
    case _ => open
  }

  function OpenOrders(cat: Catalog, reqs: seq<Request>): set<OrderId> {
    if reqs == [] then {}
    else OpenAfter(cat, Exec(cat, Front(reqs)), Last(reqs), OpenOrders(cat, Front(reqs)))
  }

  /**
    Orders name tracked products, cancels and deductions of orders with lines hit open orders
    only, and a correction does not go below the reserved quantity. Refused requests may be
    anything.
   */
  ghost predicate DisciplinedStep(cat: Catalog, db: Db, req: Request, open: set<OrderId>) {
    match req
    case Ordering(shop, dto) =>
      CreateOrder(cat, db, shop, dto).Ok? ==>
        forall i :: 0 <= i < |dto.items| ==> IsTracked(cat, dto.items[i].product)
    case Cancelling(shop, id) => CancelOrder(db, shop, id).Ok? && db.orders[id].items != [] ==> id in open
    case JobAttempt(id, fault) => Commits(db, id, fault) && db.orders[id].items != [] ==> id in open
    case Correcting(shop, p, quantity) =>
      AdjustLevel(cat, db, shop, p, quantity).Ok? ==> quantity >= ReservedOf(Get(db.shelves, p))
    case _ => true
  }

  ghost predicate Disciplined(cat: Catalog, reqs: seq<Request>) {
    reqs == [] ||
    (&& Disciplined(cat, Front(reqs))
     && DisciplinedStep(cat, Exec(cat, Front(reqs)), Last(reqs), OpenOrders(cat, Front(reqs))))
  }

  /** What the open orders ask of a product. */
  function OpenDemand(orders: seq<Order>, open: set<OrderId>, p: ProductId): int {
    if orders == [] then 0
    else
      OpenDemand(Front(orders), open, p) +
      if |orders| - 1 in open then Demand(Last(orders).items, p) else 0
  }

  lemma {:induction false} OpenDemandSameItems(a: seq<Order>, b: seq<Order>, open: set<OrderId>, p: ProductId)
    requires |a| == |b| && forall i :: 0 <= i < |a| ==> a[i].items == b[i].items
    ensures OpenDemand(a, open, p) == OpenDemand(b, open, p)
  {
    if a != [] {
      OpenDemandSameItems(Front(a), Front(b), open, p);
    }
  }

  /** Ids beyond the orders do not matter. */
  lemma {:induction false} OpenDemandBeyond(orders: seq<Order>, open: set<OrderId>, id: OrderId, p: ProductId)
    requires id >= |orders|
    ensures OpenDemand(orders, open + {id}, p) == OpenDemand(orders, open, p)
    ensures OpenDemand(orders, open - {id}, p) == OpenDemand(orders, open, p)
  {
    if orders != [] {
      OpenDemandBeyond(Front(orders), open, id, p);
    }
  }

  lemma {:induction false} OpenDemandRemove(orders: seq<Order>, open: set<OrderId>, id: OrderId, p: ProductId)
    requires id < |orders| && id in open
    ensures OpenDemand(orders, open - {id}, p) == OpenDemand(orders, open, p) - Demand(orders[id].items, p)
  {
    if id == |orders| - 1 {
      OpenDemandBeyond(Front(orders), open, id, p);
    } else {
      OpenDemandRemove(Front(orders), open, id, p);
    }
  }

  lemma {:induction false} OpenDemandAtLeast(orders: seq<Order>, open: set<OrderId>, p: ProductId)
    requires forall i :: 0 <= i < |orders| ==> Demand(orders[i].items, p) >= 0
    ensures OpenDemand(orders, open, p) >= 0
    ensures forall id :: 0 <= id < |orders| && id in open ==>
              Demand(orders[id].items, p) <= OpenDemand(orders, open, p)
  {
    if orders != [] {
      OpenDemandAtLeast(Front(orders), open, p);
      assert forall id :: 0 <= id < |orders| - 1 ==> Front(orders)[id] == orders[id];
    }
  }

  // ------------------------------------------------- runs of operations on a shelf

  predicate Consumes(op: StockOp) {
    op.Release? || op.Deduct?
  }

  function Quantity(ops: seq<StockOp>): int {
    if ops == [] then 0 else Quantity(Front(ops)) + Last(ops).quantity
  }

  /** Never split, never clamped, never corrected below the reserved quantity. */
  ghost predicate Clean(ops: seq<StockOp>) {
    AllValid(ops) && NeverSplits(ops) && NeverClamps(ops) && NeverAdjustsBelowReserved(ops)
  }

  lemma CleanMeans(ops: seq<StockOp>)
    requires Clean(ops)
    ensures var sh := Run(EmptyShelf, ops);
            Agree(sh) && OneRow(sh) && Bounded(sh)
  {
    ViewsAgree(ops);
    BoundedIff(ops);
  }

  /** A step that releases or deducts no more than is reserved succeeds without clamping. */
  lemma ConsumeOne(sh: Shelf, op: StockOp)
    requires Agree(sh) && OneRow(sh) && Bounded(sh) && ByProduct(sh).Some?
    requires Consumes(op) && 0 < op.quantity <= ReservedOf(sh)
    ensures Apply(sh, op).Ok? && !ClampFires(sh, op)
    ensures ByProduct(Step(sh, op)).Some?
    ensures ReservedOf(Step(sh, op)) == ReservedOf(sh) - op.quantity
  {
    if op.Deduct? {
      DrainSum(sh.batches, op.quantity);
    }
  }

  /** Releasing or deducting in any number of steps no more than is reserved. */
  lemma {:induction false} ConsumeAll(a: seq<StockOp>, b: seq<StockOp>)
    requires Clean(a) && AllValid(b)
    requires forall k :: 0 <= k < |b| ==> Consumes(b[k])
    requires b != [] ==> ByProduct(Run(EmptyShelf, a)).Some?
    requires Quantity(b) <= ReservedOf(Run(EmptyShelf, a))
    ensures Clean(a + b)
    ensures b != [] ==> ByProduct(Run(EmptyShelf, a + b)).Some?
    ensures ReservedOf(Run(EmptyShelf, a + b)) == ReservedOf(Run(EmptyShelf, a)) - Quantity(b)
  {
    if b == [] {
      assert a + b == a;
    } else {
      assert Front(a + b) == a + Front(b);
      assert Last(b).quantity > 0;
      ConsumeAll(a, Front(b));
      if Front(b) == [] {
        assert a + Front(b) == a;
      }
      CleanMeans(a + Front(b));
      ConsumeOne(Run(EmptyShelf, a + Front(b)), Last(b));
    }
  }

  /** Operations that neither consume nor correct nor split keep a run clean. */
  lemma {:induction false} CleanAppend(a: seq<StockOp>, b: seq<StockOp>)
    requires Clean(a) && AllValid(b) && NeverSplits(a + b)
    requires forall k :: 0 <= k < |b| ==> !Consumes(b[k]) && !b[k].Adjust?
    ensures Clean(a + b)
  {
    if b == [] {
      assert a + b == a;
    } else {
      assert Front(a + b) == a + Front(b);
      CleanAppend(a, Front(b));
    }
  }

  lemma CleanAdjust(a: seq<StockOp>, op: StockOp)
    requires Clean(a) && op.Adjust? && op.quantity >= 0
    requires !AdjustsBelowReserved(Run(EmptyShelf, a), op)
    ensures Clean(a + [op])
  {
    assert Front(a + [op]) == a;
  }

  // ------------------------------------------------- lists of tasks

  lemma {:induction false} ConsumedOf(tasks: seq<Task>, items: seq<Item>, p: ProductId)
    requires |tasks| == |items|
    requires forall i :: 0 <= i < |items| ==>
               tasks[i].product == items[i].product && Consumes(tasks[i].op) && tasks[i].op.quantity == items[i].quantity
    ensures Quantity(OpsOf(tasks, p)) == Demand(items, p)
    ensures forall k :: 0 <= k < |OpsOf(tasks, p)| ==> Consumes(OpsOf(tasks, p)[k])
    ensures OpsOf(tasks, p) != [] ==> Mentions(items, p)
  {
    if items != [] {
      ConsumedOf(Front(tasks), Front(items), p);
      MentionsSplit(items, p);
      var ops := OpsOf(tasks, p);
      if Last(tasks).product == p {
        assert Front(ops) == OpsOf(Front(tasks), p);
      } else {
        assert ops == OpsOf(Front(tasks), p);
      }
    }
  }

  /** The batches of every product hold what the lines ask of it. */
  ghost predicate InStock(s: Shelves, items: seq<Item>) {
    forall p :: Mentions(items, p) ==> Demand(items, p) <= Sum(Get(s, p).batches)
  }

  ghost predicate AllSound(s: Shelves) {
    forall p :: Sound(Get(s, p).batches)
  }

  lemma DeductKeepsSound(sh: Shelf, q: int, id: OrderId)
    requires Sound(sh.batches) && q > 0
    ensures DeductStock(sh, q, id).Ok? <==> q <= Sum(sh.batches)
    ensures DeductStock(sh, q, id).Ok? ==>
              && Sound(DeductStock(sh, q, id).value.batches)
              && Sum(DeductStock(sh, q, id).value.batches) == Sum(sh.batches) - q
  {
    DrainSum(sh.batches, q);
    DrainKeepsRows(sh.batches, q);
  }

  /** The deduction loop of the job succeeds exactly when the totals are in stock. */
  lemma {:induction false} DeductAllIff(s: Shelves, items: seq<Item>, id: OrderId)
    requires Positive(items) && AllSound(s)
    ensures ApplyAll(s, DeductTasks(items, id)).Ok? <==> InStock(s, items)
    ensures InStock(s, items) ==>
              var next := ApplyAll(s, DeductTasks(items, id)).value;
              AllSound(next) && forall p :: Sum(Get(next, p).batches) == Sum(Get(s, p).batches) - Demand(items, p)
  {
    if items != [] {
      var front, last := Front(items), Last(items);
      assert Front(DeductTasks(items, id)) == DeductTasks(front, id);
      DeductAllIff(s, front, id);
      InStockSplit(s, items);
      if InStock(s, front) {
        var mid := ApplyAll(s, DeductTasks(front, id)).value;
        DeductKeepsSound(Get(mid, last.product), last.quantity, id);
        if InStock(s, items) {
          var next := ApplyAll(s, DeductTasks(items, id)).value;
          forall p ensures Sound(Get(next, p).batches) &&
                           Sum(Get(next, p).batches) == Sum(Get(s, p).batches) - Demand(items, p) {
            assert Sound(Get(mid, p).batches);
          }
        }
      }
    }
  }

  /** Exactly when an attempt of the job deducts, in every reachable database. */
  lemma {:induction false} JobDeductsIff(cat: Catalog, reqs: seq<Request>, id: OrderId)
    requires ValidRun(reqs)
    ensures var db := Exec(cat, reqs);
            RunJob(db, id, NoFault).0.Deducted? <==>
            id < |db.orders| && !db.orders[id].stockDeducted && InStock(db.shelves, db.orders[id].items)
    ensures var db := Exec(cat, reqs);
            RunJob(db, id, NoFault).0.Rejected? <==>
            id < |db.orders| && !db.orders[id].stockDeducted && !InStock(db.shelves, db.orders[id].items)
  {
    var db := Exec(cat, reqs);
    forall p ensures Sound(Get(db.shelves, p).batches) {
      TrailOnEveryRun(cat, reqs, p);
    }
    GoodOrdersRun(cat, reqs);
    if id < |db.orders| {
      PositiveOrder(cat, db, id);
      DeductAllIff(db.shelves, db.orders[id].items, id);
    }
  }

  lemma InStockSplit(s: Shelves, items: seq<Item>)
    requires Positive(items) && items != [] && AllSound(s)
    ensures InStock(s, items) <==>
            InStock(s, Front(items)) && Demand(items, Last(items).product) <= Sum(Get(s, Last(items).product).batches)
  {
    assert Last(items) == items[|items| - 1];
    forall p ensures Mentions(items, p) <==> Mentions(Front(items), p) || Last(items).product == p {
      MentionsSplit(items, p);
    }
  }

  // ------------------------------------------------- the invariant

  /** The operations so far on one product: clean, and holding what the open orders ask. */
  ghost predicate Guarded(ops: seq<StockOp>, ordered: bool, owed: int) {
    Clean(ops) && StrayFree(ops, ordered) && ReservedOf(Run(EmptyShelf, ops)) == owed
  }

  ghost predicate KnownOrders(db: Db, open: set<OrderId>) {
    forall id :: id in open ==> id < |db.orders|
  }

  lemma {:induction false} TrackedAll(cat: Catalog, items: seq<LineDto>)
    requires forall i :: 0 <= i < |items| ==> IsTracked(cat, items[i].product)
    ensures TrackedItems(cat, items) == ItemsOf(items)
  {
    if items != [] {
      TrackedAll(cat, Front(items));
      assert ItemsOf(items) == ItemsOf(Front(items)) + [Item(Last(items).product, Last(items).quantity)];
    }
  }

  /** On a disciplined step every product that gets ordered has its own level row. */
  lemma StrayFreeDisciplined(cat: Catalog, db: Db, req: Request, open: set<OrderId>, before: seq<StockOp>, p: ProductId)
    requires ValidRequest(req) && DisciplinedStep(cat, db, req, open)
    requires Get(db.shelves, p) == Run(EmptyShelf, before) && StrayFree(before, Ordered(db, p))
    ensures StrayFree(before + OpsOf(StepTasks(cat, db, req), p), Ordered(Next(cat, db, req), p))
  {
    if IsTracked(cat, p) {
      StrayFreeStep(cat, db, req, before, p);
    } else {
      ReturnsWereOrdered(cat, db, req, p);
      StrayFreeAppend(before, OpsOf(StepTasks(cat, db, req), p));
      if Ordered(Next(cat, db, req), p) {
        OrderedByStep(cat, db, req, p);
      }
    }
  }

  /** Cancelling or deducting an open order gives up exactly its share of what is reserved. */
  lemma ConsumeStep(
      db: Db, open: set<OrderId>, id: OrderId, tasks: seq<Task>, before: seq<StockOp>, p: ProductId, cat: Catalog)
    requires GoodOrders(cat, db) && id < |db.orders| && id in open && GoodTasks(cat, tasks)
    requires tasks == ReleaseTasks(db.orders[id].items) || tasks == DeductTasks(db.orders[id].items, id)
    requires Guarded(before, Ordered(db, p), OpenDemand(db.orders, open, p))
    ensures Clean(before + OpsOf(tasks, p))
    ensures ReservedOf(Run(EmptyShelf, before + OpsOf(tasks, p))) == OpenDemand(db.orders, open - {id}, p)
  {
    var items := db.orders[id].items;
    forall i | 0 <= i < |db.orders| ensures Demand(db.orders[i].items, p) >= 0 {
      assert GoodItems(cat, db.orders[i].items);
      DemandPositive(db.orders[i].items, p);
    }
    ConsumedOf(tasks, items, p);
    OpsOfGood(cat, tasks, p);
    OpenDemandAtLeast(db.orders, open, p);
    OpenDemandRemove(db.orders, open, id, p);
    assert Mentions(items, p) ==> Ordered(db, p);
    ConsumeAll(before, OpsOf(tasks, p));
  }

  lemma ReserveStep(cat: Catalog, db: Db, open: set<OrderId>, shop: ShopId, dto: CreateDto, p: ProductId)
    requires ValidLines(dto.items) && CreateOrder(cat, db, shop, dto).Ok? && KnownOrders(db, open)
    requires forall i :: 0 <= i < |dto.items| ==> IsTracked(cat, dto.items[i].product)
    ensures var next := CreateOrder(cat, db, shop, dto).value;
            && ReservedOf(Get(next.shelves, p)) == ReservedOf(Get(db.shelves, p)) + Demand(ItemsOf(dto.items), p)
            && OpenDemand(next.orders, open + {|db.orders|}, p) ==
               OpenDemand(db.orders, open, p) + Demand(ItemsOf(dto.items), p)
  {
    var next := CreateOrder(cat, db, shop, dto).value;
    TrackedAll(cat, dto.items);
    CreateReservesIffTotalsFit(cat, shop, db.shelves, dto.items);
    assert HoldsMore(Get(db.shelves, p), Get(next.shelves, p), Demand(ItemsOf(dto.items), p));
    assert Front(next.orders) == db.orders;
    OpenDemandBeyond(db.orders, open, |db.orders|, p);
  }

  predicate Quiet(op: StockOp) {
    op.Receive? || op.Return? || op.Adjust?
  }

  /** Receipts, returns and corrections leave the reserved quantity alone. */
  lemma {:induction false} QuietKeepsReserved(a: seq<StockOp>, b: seq<StockOp>)
    requires NeverSplits(a) && Run(EmptyShelf, a).stray.None? && NoStrayReturn(Run(EmptyShelf, a), b)
    requires forall k :: 0 <= k < |b| ==> Quiet(b[k])
    ensures ReservedOf(Run(EmptyShelf, a + b)) == ReservedOf(Run(EmptyShelf, a))
  {
    if b == [] {
      assert a + b == a;
    } else {
      assert Front(a + b) == a + Front(b);
      QuietKeepsReserved(a, Front(b));
      StrayFreeAppend(a, Front(b));
      StrayFreeAppend(a, b);
    }
  }

  lemma StepIsRun(cat: Catalog, db: Db, req: Request, before: seq<StockOp>, p: ProductId)
    requires Get(db.shelves, p) == Run(EmptyShelf, before)
    ensures Get(Next(cat, db, req).shelves, p) ==
            Run(EmptyShelf, before + OpsOf(StepTasks(cat, db, req), p))
  {
    var tasks := StepTasks(cat, db, req);
    NextShelves(cat, db, req);
    ApplyAllProjects(db.shelves, tasks, p);
    RunAppend(EmptyShelf, before, OpsOf(tasks, p));
  }

  lemma OpsOfKind(tasks: seq<Task>, p: ProductId)
    ensures (forall i :: 0 <= i < |tasks| ==> Quiet(tasks[i].op)) ==>
              forall k :: 0 <= k < |OpsOf(tasks, p)| ==> Quiet(OpsOf(tasks, p)[k])
    ensures (forall i :: 0 <= i < |tasks| ==> !Consumes(tasks[i].op) && !tasks[i].op.Adjust?) ==>
              forall k :: 0 <= k < |OpsOf(tasks, p)| ==> !Consumes(OpsOf(tasks, p)[k]) && !OpsOf(tasks, p)[k].Adjust?
  {
    forall k: nat | k < |OpsOf(tasks, p)|
      ensures exists i :: 0 <= i < |tasks| && tasks[i].op == OpsOf(tasks, p)[k]
    {
      OpsComeFromTasks(tasks, p, k);
    }
  }

  lemma OpsOfOne(t: Task, p: ProductId)
    ensures OpsOf([t], p) == if t.product == p then [t.op] else []
  {
    assert [t][..0] == [];
    assert OpsOf([], p) == [];
  }

  lemma StepTaskKinds(cat: Catalog, db: Db, req: Request)
    requires !req.Cancelling? && !req.JobAttempt? && !req.Correcting?
    ensures forall i :: 0 <= i < |StepTasks(cat, db, req)| ==>
              !Consumes(StepTasks(cat, db, req)[i].op) && !StepTasks(cat, db, req)[i].op.Adjust?
  {
  }

  lemma CleanCorrectingStep(cat: Catalog, db: Db, req: Request, open: set<OrderId>, before: seq<StockOp>, p: ProductId)
    requires ValidRequest(req) && req.Correcting? && DisciplinedStep(cat, db, req, open)
    requires Get(db.shelves, p) == Run(EmptyShelf, before) && Clean(before) && Get(db.shelves, p).stray.None?
    ensures Clean(before + OpsOf(StepTasks(cat, db, req), p))
  {
    var tasks := StepTasks(cat, db, req);
    if tasks != [] {
      OpsOfOne(tasks[0], p);
    }
    if OpsOf(tasks, p) == [] {
      assert before + [] == before;
    } else {
      CleanAdjust(before, StockOp.Adjust(req.quantity));
    }
  }

  lemma CleanReceivingStep(cat: Catalog, db: Db, req: Request, before: seq<StockOp>, p: ProductId)
    requires ValidRequest(req) && GoodOrders(cat, db)
    requires !req.Cancelling? && !req.JobAttempt? && !req.Correcting?
    requires Clean(before) && NeverSplits(before + OpsOf(StepTasks(cat, db, req), p))
    ensures Clean(before + OpsOf(StepTasks(cat, db, req), p))
  {
    var tasks := StepTasks(cat, db, req);
    StepTasksGood(cat, db, req);
    OpsOfGood(cat, tasks, p);
    StepTaskKinds(cat, db, req);
    OpsOfKind(tasks, p);
    CleanAppend(before, OpsOf(tasks, p));
  }

  lemma GuardedConsume(cat: Catalog, db: Db, req: Request, open: set<OrderId>, before: seq<StockOp>, p: ProductId)
    requires ValidRequest(req) && DisciplinedStep(cat, db, req, open) && GoodOrders(cat, db)
    requires KnownOrders(db, open) && (req.Cancelling? || req.JobAttempt?)
    requires Guarded(before, Ordered(db, p), OpenDemand(db.orders, open, p))
    ensures var ops := before + OpsOf(StepTasks(cat, db, req), p);
            var next := Next(cat, db, req);
            && Clean(ops)
            && ReservedOf(Run(EmptyShelf, ops)) == OpenDemand(next.orders, OpenAfter(cat, db, req, open), p)
  {
    var tasks := StepTasks(cat, db, req);
    var next := Next(cat, db, req);
    var after := OpenAfter(cat, db, req, open);
    NextKeepsLines(cat, db, req);
    OpenDemandSameItems(next.orders, db.orders, after, p);
    StepTasksGood(cat, db, req);
    if req.order !in open || (after == open && tasks == []) {
      assert after == open && tasks == [];
      assert before + OpsOf(tasks, p) == before;
    } else {
      ConsumeStep(db, open, req.order, tasks, before, p, cat);
    }
  }

  lemma GuardedReserve(cat: Catalog, db: Db, req: Request, open: set<OrderId>, before: seq<StockOp>, p: ProductId)
    requires ValidRequest(req) && DisciplinedStep(cat, db, req, open)
    requires KnownOrders(db, open) && !req.Cancelling? && !req.JobAttempt?
    requires Get(db.shelves, p) == Run(EmptyShelf, before)
    requires StrayFree(before, Ordered(db, p)) && ReservedOf(Run(EmptyShelf, before)) == OpenDemand(db.orders, open, p)
    ensures var next := Next(cat, db, req);
            ReservedOf(Get(next.shelves, p)) == OpenDemand(next.orders, OpenAfter(cat, db, req, open), p)
  {
    var next := Next(cat, db, req);
    if req.Ordering? && CreateOrder(cat, db, req.shop, req.dto).Ok? {
      ReserveStep(cat, db, open, req.shop, req.dto, p);
    } else {
      NextKeepsLines(cat, db, req);
      OpenDemandSameItems(next.orders, db.orders, open, p);
      StepIsRun(cat, db, req, before, p);
      ReturnsWereOrdered(cat, db, req, p);
      OpsOfKind(StepTasks(cat, db, req), p);
      QuietKeepsReserved(before, OpsOf(StepTasks(cat, db, req), p));
    }
  }

  lemma GuardedStep(cat: Catalog, db: Db, req: Request, open: set<OrderId>, before: seq<StockOp>, p: ProductId)
    requires ValidRequest(req) && DisciplinedStep(cat, db, req, open) && GoodOrders(cat, db) && KnownOrders(db, open)
    requires Get(db.shelves, p) == Run(EmptyShelf, before)
    requires Guarded(before, Ordered(db, p), OpenDemand(db.orders, open, p))
    ensures var next := Next(cat, db, req);
            Guarded(before + OpsOf(StepTasks(cat, db, req), p), Ordered(next, p),
                    OpenDemand(next.orders, OpenAfter(cat, db, req, open), p))
  {
    StrayFreeDisciplined(cat, db, req, open, before, p);
    if req.Cancelling? || req.JobAttempt? {
      GuardedConsume(cat, db, req, open, before, p);
    } else {
      if req.Correcting? {
        CleanCorrectingStep(cat, db, req, open, before, p);
      } else {
        CleanReceivingStep(cat, db, req, before, p);
      }
      GuardedReserve(cat, db, req, open, before, p);
      StepIsRun(cat, db, req, before, p);
    }
  }

  lemma KnownOrdersStep(cat: Catalog, db: Db, req: Request, open: set<OrderId>)
    requires KnownOrders(db, open)
    ensures KnownOrders(Next(cat, db, req), OpenAfter(cat, db, req, open))
  {
    NextKeepsLines(cat, db, req);
  }

  lemma {:induction false} GuardedRun(cat: Catalog, reqs: seq<Request>, p: ProductId)
    requires ValidRun(reqs) && Disciplined(cat, reqs)
    ensures KnownOrders(Exec(cat, reqs), OpenOrders(cat, reqs))
    ensures Guarded(Trace(cat, reqs, p), Ordered(Exec(cat, reqs), p),
                    OpenDemand(Exec(cat, reqs).orders, OpenOrders(cat, reqs), p))
  {
    if reqs != [] {
      var db, open := Exec(cat, Front(reqs)), OpenOrders(cat, Front(reqs));
      GuardedRun(cat, Front(reqs), p);
      GoodOrdersRun(cat, Front(reqs));
      TraceIsRun(cat, Front(reqs), p);
      KnownOrdersStep(cat, db, Last(reqs), open);
      GuardedStep(cat, db, Last(reqs), open, Trace(cat, Front(reqs), p), p);
    }
  }

  // ------------------------------------------------- why the discipline is needed

  lemma ConsumeUnclamped(sh: Shelf, op: StockOp)
    requires Consumes(op) && Apply(sh, op).Ok? && ByProduct(sh).Some? && !ClampFires(sh, op)
    ensures var next := Apply(sh, op).value;
            ByProduct(next).Some? && ReservedOf(next) == ReservedOf(sh) - op.quantity
  {
  }

  /** The run without its last task, and what the last one does to the product. */
  lemma OpsOfSplit(tasks: seq<Task>, before: seq<StockOp>, p: ProductId)
    requires tasks != [] && NeverClamps(before + OpsOf(tasks, p))
    ensures NeverClamps(before + OpsOf(Front(tasks), p))
    ensures Last(tasks).product == p ==>
              && !ClampFires(Run(EmptyShelf, before + OpsOf(Front(tasks), p)), Last(tasks).op)
              && Quantity(OpsOf(tasks, p)) == Quantity(OpsOf(Front(tasks), p)) + Last(tasks).op.quantity
    ensures Last(tasks).product != p ==> OpsOf(tasks, p) == OpsOf(Front(tasks), p)
  {
    var ops, front := OpsOf(tasks, p), OpsOf(Front(tasks), p);
    if Last(tasks).product == p {
      assert Front(ops) == front && Front(before + ops) == before + front;
    } else {
      assert ops == front;
    }
  }

  /** Releases and deductions that all succeed without a clamp lower the reserved quantity by all they take. */
  lemma {:induction false} ConsumeWithoutClamp(s: Shelves, tasks: seq<Task>, before: seq<StockOp>, p: ProductId)
    requires ApplyAll(s, tasks).Ok? && Get(s, p) == Run(EmptyShelf, before) && ByProduct(Get(s, p)).Some?
    requires forall i :: 0 <= i < |tasks| ==> Consumes(tasks[i].op)
    requires NeverClamps(before + OpsOf(tasks, p))
    ensures var next := ApplyAll(s, tasks).value;
            ByProduct(Get(next, p)).Some? &&
            ReservedOf(Get(next, p)) == ReservedOf(Get(s, p)) - Quantity(OpsOf(tasks, p))
  {
    if tasks != [] {
      OpsOfSplit(tasks, before, p);
      ConsumeWithoutClamp(s, Front(tasks), before, p);
      ApplyAllProjects(s, Front(tasks), p);
      RunAppend(EmptyShelf, before, OpsOf(Front(tasks), p));
      ConsumeLast(ApplyAll(s, Front(tasks)).value, Last(tasks), p);
    }
  }

  lemma ConsumeLast(s: Shelves, t: Task, p: ProductId)
    requires ApplyTask(s, t).Ok? && Consumes(t.op) && ByProduct(Get(s, p)).Some?
    requires t.product == p ==> !ClampFires(Get(s, p), t.op)
    ensures var next := ApplyTask(s, t).value;
            && ByProduct(Get(next, p)).Some?
            && ReservedOf(Get(next, p)) == ReservedOf(Get(s, p)) - if t.product == p then t.op.quantity else 0
  {
    if t.product == p {
      ConsumeUnclamped(Get(s, p), t.op);
    }
  }

  /** An order for an untracked product asks for more and reserves nothing. */
  lemma UntrackedOrder(cat: Catalog, db: Db, open: set<OrderId>, shop: ShopId, dto: CreateDto, p: ProductId)
    requires ValidLines(dto.items) && CreateOrder(cat, db, shop, dto).Ok? && KnownOrders(db, open)
    requires !IsTracked(cat, p) && Mentions(ItemsOf(dto.items), p)
    ensures var next := CreateOrder(cat, db, shop, dto).value;
            && ReservedOf(Get(next.shelves, p)) == ReservedOf(Get(db.shelves, p))
            && OpenDemand(next.orders, open + {|db.orders|}, p) > OpenDemand(db.orders, open, p)
  {
    var next := CreateOrder(cat, db, shop, dto).value;
    CreateReservesIffTotalsFit(cat, shop, db.shelves, dto.items);
    assert HoldsMore(Get(db.shelves, p), Get(next.shelves, p), Demand(TrackedItems(cat, dto.items), p));
    UntrackedDemand(cat, dto.items, p);
    assert Positive(ItemsOf(dto.items));
    DemandPositive(ItemsOf(dto.items), p);
    assert Front(next.orders) == db.orders;
    OpenDemandBeyond(db.orders, open, |db.orders|, p);
  }

  lemma {:induction false} UntrackedDemand(cat: Catalog, items: seq<LineDto>, p: ProductId)
    requires !IsTracked(cat, p)
    ensures Demand(TrackedItems(cat, items), p) == 0
  {
    if items != [] {
      UntrackedDemand(cat, Front(items), p);
      var tracked := TrackedItems(cat, items);
      if IsTracked(cat, Last(items).product) {
        assert Front(tracked) == TrackedItems(cat, Front(items));
      } else {
        assert tracked == TrackedItems(cat, Front(items));
      }
    }
  }

  /** Cancelling or deducting an order that is no longer open takes from what others reserved. */
  lemma ConsumeOfClosed(cat: Catalog, db: Db, id: OrderId, tasks: seq<Task>, before: seq<StockOp>, p: ProductId)
    requires GoodOrders(cat, db) && id < |db.orders| && Mentions(db.orders[id].items, p)
    requires tasks == ReleaseTasks(db.orders[id].items) || tasks == DeductTasks(db.orders[id].items, id)
    requires ApplyAll(db.shelves, tasks).Ok?
    requires Get(db.shelves, p) == Run(EmptyShelf, before) && StrayFree(before, Ordered(db, p))
    ensures NeverClamps(before + OpsOf(tasks, p)) ==>
              ReservedOf(Get(ApplyAll(db.shelves, tasks).value, p)) < ReservedOf(Get(db.shelves, p))
  {
    assert Ordered(db, p);
    PositiveOrder(cat, db, id);
    DemandPositive(db.orders[id].items, p);
    ConsumedOf(tasks, db.orders[id].items, p);
    if NeverClamps(before + OpsOf(tasks, p)) {
      ConsumeWithoutClamp(db.shelves, tasks, before, p);
    }
  }

  /** A correction below the reserved quantity leaves less stock than is reserved. */
  lemma LowCorrection(cat: Catalog, db: Db, shop: ShopId, p: ProductId, quantity: int)
    requires AdjustLevel(cat, db, shop, p, quantity).Ok? && 0 <= quantity < ReservedOf(Get(db.shelves, p))
    requires Agree(Get(db.shelves, p)) && Get(db.shelves, p).stray.None?
    ensures var sh := Get(AdjustLevel(cat, db, shop, p, quantity).value.shelves, p);
            ReservedOf(sh) > Sum(sh.batches)
  {
    AgreeAdjust(Get(db.shelves, p), quantity);
  }

  /** A product for which the step breaks the guarantee, if it is not disciplined. */
  ghost predicate Culprit(cat: Catalog, db: Db, req: Request, p: ProductId) {
    match req
    case Ordering(_, dto) => !IsTracked(cat, p) && Mentions(ItemsOf(dto.items), p)
    case Cancelling(_, id) => id < |db.orders| && Mentions(db.orders[id].items, p)
    case JobAttempt(id, _) => id < |db.orders| && Mentions(db.orders[id].items, p)
    case Correcting(_, product, _) => p == product
    case _ => true
  }

  lemma CulpritExists(cat: Catalog, db: Db, req: Request, open: set<OrderId>) returns (p: ProductId)
    requires !DisciplinedStep(cat, db, req, open)
    ensures Culprit(cat, db, req, p)
  {
    if req.Ordering? {
      var i :| 0 <= i < |req.dto.items| && !IsTracked(cat, req.dto.items[i].product);
      p := req.dto.items[i].product;
      assert ItemsOf(req.dto.items)[i].product == p;
    } else if req.Cancelling? || req.JobAttempt? {
      p := db.orders[req.order].items[0].product;
    } else {
      p := req.product;
    }
  }

  lemma UndisciplinedConsume(
      cat: Catalog, db: Db, req: Request, open: set<OrderId>, before: seq<StockOp>, p: ProductId)
    requires (req.Cancelling? || req.JobAttempt?) && !DisciplinedStep(cat, db, req, open)
    requires GoodOrders(cat, db) && Culprit(cat, db, req, p)
    requires Get(db.shelves, p) == Run(EmptyShelf, before) && StrayFree(before, Ordered(db, p))
    requires NeverClamps(before + OpsOf(StepTasks(cat, db, req), p))
    ensures var next := Next(cat, db, req);
            && ReservedOf(Get(next.shelves, p)) < ReservedOf(Get(db.shelves, p))
            && OpenDemand(next.orders, OpenAfter(cat, db, req, open), p) == OpenDemand(db.orders, open, p)
  {
    NextShelves(cat, db, req);
    NextKeepsLines(cat, db, req);
    assert OpenAfter(cat, db, req, open) == open;
    ConsumeOfClosed(cat, db, req.order, StepTasks(cat, db, req), before, p);
    OpenDemandSameItems(Next(cat, db, req).orders, db.orders, open, p);
  }

  /** After a disciplined run, a step that is not disciplined breaks the guarantee for some product. */
  lemma UndisciplinedStep(cat: Catalog, db: Db, req: Request, open: set<OrderId>, before: seq<StockOp>, p: ProductId)
    requires ValidRequest(req) && !DisciplinedStep(cat, db, req, open) && Culprit(cat, db, req, p)
    requires GoodOrders(cat, db) && KnownOrders(db, open) && Get(db.shelves, p) == Run(EmptyShelf, before)
    requires Guarded(before, Ordered(db, p), OpenDemand(db.orders, open, p))
    requires NeverClamps(before + OpsOf(StepTasks(cat, db, req), p))
    ensures var next := Next(cat, db, req);
            var sh := Get(next.shelves, p);
            || ReservedOf(sh) != OpenDemand(next.orders, OpenAfter(cat, db, req, open), p)
            || ReservedOf(sh) > Sum(sh.batches)
  {
    match req {
      case Ordering(shop, dto) => UntrackedOrder(cat, db, open, shop, dto, p);
      case Correcting(shop, _, quantity) =>
        CleanMeans(before);
        LowCorrection(cat, db, shop, p, quantity);
      case _ =>
        UndisciplinedConsume(cat, db, req, open, before, p);
    }
  }

  lemma UndisciplinedIsInsecure(cat: Catalog, reqs: seq<Request>)
    requires ValidRun(reqs) && reqs != [] && Disciplined(cat, Front(reqs)) && !Disciplined(cat, reqs)
    ensures exists p: ProductId :: !Secure(cat, reqs, p)
  {
    var db, open := Exec(cat, Front(reqs)), OpenOrders(cat, Front(reqs));
    var p := CulpritExists(cat, db, Last(reqs), open);
    GuardedRun(cat, Front(reqs), p);
    GoodOrdersRun(cat, Front(reqs));
    TraceIsRun(cat, Front(reqs), p);
    if NeverClamps(Trace(cat, reqs, p)) {
      UndisciplinedStep(cat, db, Last(reqs), open, Trace(cat, Front(reqs), p), p);
    }
    assert !Secure(cat, reqs, p);
  }

  // ------------------------------------------------- the theorems

  /**
    On every disciplined run: reserved is what the open orders ask, it is within the stock on
    hand, which is the sum of the batches, and no clamp has ever fired.
   */
  lemma {:induction false} ReservedIsOpenDemand(cat: Catalog, reqs: seq<Request>, p: ProductId)
    requires ValidRun(reqs) && Disciplined(cat, reqs)
    ensures var db := Exec(cat, reqs);
            var sh := Get(db.shelves, p);
            && ReservedOf(sh) == OpenDemand(db.orders, OpenOrders(cat, reqs), p)
            && 0 <= ReservedOf(sh) <= Sum(sh.batches)
            && Agree(sh)
            && NeverClamps(Trace(cat, reqs, p))
  {
    GuardedRun(cat, reqs, p);
    TraceIsRun(cat, reqs, p);
    CleanMeans(Trace(cat, reqs, p));
  }

  /** Reserved is what the open orders ask, it is in stock, and nothing was ever clamped. */
  ghost predicate Secure(cat: Catalog, reqs: seq<Request>, p: ProductId) {
    var db := Exec(cat, reqs);
    var sh := Get(db.shelves, p);
    && ReservedOf(sh) == OpenDemand(db.orders, OpenOrders(cat, reqs), p)
    && 0 <= ReservedOf(sh) <= Sum(sh.batches)
    && NeverClamps(Trace(cat, reqs, p))
  }

  /** Every product is secure at every point of the run. */
  ghost predicate AlwaysSecure(cat: Catalog, reqs: seq<Request>) {
    (forall p: ProductId :: Secure(cat, reqs, p)) && (reqs != [] ==> AlwaysSecure(cat, Front(reqs)))
  }

  /**
    Reservations are what the open orders ask, within the stock and without a clamp, at every
    point of a run if and only if the run is disciplined.
   */
  lemma {:induction false} SecureIffDisciplined(cat: Catalog, reqs: seq<Request>)
    requires ValidRun(reqs)
    ensures AlwaysSecure(cat, reqs) <==> Disciplined(cat, reqs)
  {
    if reqs != [] {
      SecureIffDisciplined(cat, Front(reqs));
    }
    if Disciplined(cat, reqs) {
      forall p: ProductId ensures Secure(cat, reqs, p) {
        ReservedIsOpenDemand(cat, reqs, p);
      }
    } else if AlwaysSecure(cat, reqs) {
      UndisciplinedIsInsecure(cat, reqs);
    }
  }

  /** The stock job of an open order cannot be rejected. */
  lemma {:induction false} OpenOrderIsDeliverable(cat: Catalog, reqs: seq<Request>, id: OrderId)
    requires ValidRun(reqs) && Disciplined(cat, reqs) && id in OpenOrders(cat, reqs)
    ensures var db := Exec(cat, reqs);
            id < |db.orders| && ApplyAll(db.shelves, DeductTasks(db.orders[id].items, id)).Ok?
  {
    var db := Exec(cat, reqs);
    GuardedRun(cat, reqs, 0);
    GoodOrdersRun(cat, reqs);
    forall p ensures Sound(Get(db.shelves, p).batches)
      ensures Demand(db.orders[id].items, p) <= Sum(Get(db.shelves, p).batches)
    {
      ReservedIsOpenDemand(cat, reqs, p);
      OpenShare(cat, db, OpenOrders(cat, reqs), id, p);
    }
    PositiveOrder(cat, db, id);
    DeductAllIff(db.shelves, db.orders[id].items, id);
  }

  lemma OpenShare(cat: Catalog, db: Db, open: set<OrderId>, id: OrderId, p: ProductId)
    requires GoodOrders(cat, db) && id < |db.orders| && id in open
    ensures Demand(db.orders[id].items, p) <= OpenDemand(db.orders, open, p)
  {
    forall i: nat | i < |db.orders| ensures Demand(db.orders[i].items, p) >= 0 {
      PositiveOrder(cat, db, i);
      DemandPositive(db.orders[i].items, p);
    }
    OpenDemandAtLeast(db.orders, open, p);
  }

  /** The run followed by one faultless job for each id. */
  function WithJobs(reqs: seq<Request>, ids: seq<OrderId>): seq<Request> {
    if ids == [] then reqs else WithJobs(reqs, Front(ids)) + [JobAttempt(Last(ids), NoFault)]
  }

  predicate JobDeducts(cat: Catalog, reqs: seq<Request>, id: OrderId) {
    RunJob(Exec(cat, reqs), id, NoFault).0.Deducted?
  }

  /** Nothing but the flag guards a job, and on a disciplined run an open order is not flagged. */
  ghost predicate OpenUnflagged(cat: Catalog, reqs: seq<Request>) {
    forall id :: id in OpenOrders(cat, reqs) ==>
      id < |Exec(cat, reqs).orders| && !Exec(cat, reqs).orders[id].stockDeducted
  }

  lemma UnflaggedStep(cat: Catalog, db: Db, req: Request, open: set<OrderId>)
    requires forall id :: id in open ==> id < |db.orders| && !db.orders[id].stockDeducted
    ensures forall id :: id in OpenAfter(cat, db, req, open) ==>
              id < |Next(cat, db, req).orders| && !Next(cat, db, req).orders[id].stockDeducted
  {
  }

  lemma {:induction false} OpenIsUnflagged(cat: Catalog, reqs: seq<Request>)
    ensures OpenUnflagged(cat, reqs)
  {
    if reqs != [] {
      OpenIsUnflagged(cat, Front(reqs));
      UnflaggedStep(cat, Exec(cat, Front(reqs)), Last(reqs), OpenOrders(cat, Front(reqs)));
    }
  }

  /** The job of an open order deducts its stock and leaves the run disciplined. */
  lemma NextJobDeducts(cat: Catalog, reqs: seq<Request>, id: OrderId)
    requires ValidRun(reqs) && Disciplined(cat, reqs) && id in OpenOrders(cat, reqs)
    ensures JobDeducts(cat, reqs, id)
    ensures var more := reqs + [JobAttempt(id, NoFault)];
            && ValidRun(more) && Disciplined(cat, more)
            && OpenOrders(cat, more) == OpenOrders(cat, reqs) - {id}
  {
    OpenOrderIsDeliverable(cat, reqs, id);
    OpenIsUnflagged(cat, reqs);
    assert JobDeducts(cat, reqs, id);
    assert Front(reqs + [JobAttempt(id, NoFault)]) == reqs;
  }

  function IdSet(ids: seq<OrderId>): set<OrderId> {
    if ids == [] then {} else IdSet(Front(ids)) + {Last(ids)}
  }

  lemma {:induction false} IdSetHas(ids: seq<OrderId>, id: OrderId)
    ensures id in IdSet(ids) <==> id in ids
  {
    if ids != [] {
      IdSetHas(Front(ids), id);
      assert ids == Front(ids) + [Last(ids)];
    }
  }

  lemma {:induction false} JobsInOrder(cat: Catalog, reqs: seq<Request>, ids: seq<OrderId>)
    requires ValidRun(reqs) && Disciplined(cat, reqs)
    requires forall i :: 0 <= i < |ids| ==> ids[i] in OpenOrders(cat, reqs)
    requires forall i, j :: 0 <= i < j < |ids| ==> ids[i] != ids[j]
    ensures ValidRun(WithJobs(reqs, ids)) && Disciplined(cat, WithJobs(reqs, ids))
    ensures OpenOrders(cat, WithJobs(reqs, ids)) == OpenOrders(cat, reqs) - IdSet(ids)
    ensures ids != [] ==> JobDeducts(cat, WithJobs(reqs, Front(ids)), Last(ids))
  {
    if ids != [] {
      JobsInOrder(cat, reqs, Front(ids));
      IdSetHas(Front(ids), Last(ids));
      NextJobDeducts(cat, WithJobs(reqs, Front(ids)), Last(ids));
    }
  }

  /**
    After any disciplined run the jobs of any of its open orders, taken in any order, all
    deduct their stock: none of them throws, and the run with them is again disciplined.
   */
  lemma {:induction false} PendingJobsNeverThrow(cat: Catalog, reqs: seq<Request>, ids: seq<OrderId>)
    requires ValidRun(reqs) && Disciplined(cat, reqs)
    requires forall i :: 0 <= i < |ids| ==> ids[i] in OpenOrders(cat, reqs)
    requires forall i, j :: 0 <= i < j < |ids| ==> ids[i] != ids[j]
    ensures Disciplined(cat, WithJobs(reqs, ids))
    ensures OpenOrders(cat, WithJobs(reqs, ids)) == OpenOrders(cat, reqs) - IdSet(ids)
    ensures forall k :: 0 <= k < |ids| ==> JobDeducts(cat, WithJobs(reqs, ids[..k]), ids[k])
  {
    JobsInOrder(cat, reqs, ids);
    forall k | 0 <= k < |ids| ensures JobDeducts(cat, WithJobs(reqs, ids[..k]), ids[k]) {
      assert Front(ids[..k + 1]) == ids[..k] && Last(ids[..k + 1]) == ids[k];
      JobsInOrder(cat, reqs, ids[..k + 1]);
    }
  }
}
