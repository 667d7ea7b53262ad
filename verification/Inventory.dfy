/**
  The database object and the inventory service that works on it.

  The service methods are written as the service performs them, one saved row after another,
  and each is proved against the transition of the same name.
 */
module Inventory {
  import opened Wrappers
  import opened Fifo
  import opened Stock
  import opened StockViews
  import opened StockTasks
  import opened Shop
  import opened ShopStock

  class Database {
    var shelves: Shelves
    var orders: seq<Order>
    var debts: seq<Debt>
    var instalments: seq<Instalment>
    var shifts: map<ShiftId, Shift>
    var payments: seq<Payment>

    constructor ()
      ensures State() == EmptyDb && Valid()
    {
      shelves, orders, debts, instalments, shifts, payments := map[], [], [], [], map[], [];
    }

    function State(): Db
      reads this
    {
      Db(shelves, orders, debts, instalments, shifts, payments)
    }

    /** The batches of a product have the ids they were inserted with. */
    ghost predicate Valid()
      reads this
    {
      KeyedBatches(shelves)
    }

    /** The rollback of a transaction: everything is as it was when it began. */
    method Rollback(saved: Db)
      requires KeyedBatches(saved.shelves)
      modifies this
      ensures State() == saved && Valid()
    {
      shelves, orders, debts := saved.shelves, saved.orders, saved.debts;
      instalments, shifts, payments := saved.instalments, saved.shifts, saved.payments;
    }
  }

  ghost predicate KeyedBatches(s: Shelves) {
    forall p :: Numbered(Get(s, p).batches)
  }

  /** The call ends as the transition says, and an error leaves the database as it was. */
  ghost predicate EndsAs(before: Db, after: Db, r: Result<()>, expected: Result<Db>) {
    match expected
    case Ok(next) => r == Ok(()) && after == next
    case Err(e) => r == Err(e) && after == before
  }

  /** The same for a call that works on the shelves only. */
  ghost predicate StockEndsAs(before: Db, after: Db, r: Result<()>, expected: Result<Shelves>) {
    match expected
    case Ok(next) => r == Ok(()) && after == before.(shelves := next)
    case Err(e) => r == Err(e) && after == before
  }

  lemma ApplyKeepsKeys(s: Shelves, t: Task)
    requires KeyedBatches(s) && ApplyTask(s, t).Ok?
    ensures KeyedBatches(ApplyTask(s, t).value)
  {
    var before, after := Get(s, t.product).batches, Get(ApplyTask(s, t).value, t.product).batches;
    assert Numbered(before);
    DrainIds(before, t.op.quantity);
    if t.op.Adjust? && Get(s, t.product).own.Some? {
      DrainIds(before, Get(s, t.product).own.value.onHand - t.op.quantity);
    }
    forall p ensures Numbered(Get(ApplyTask(s, t).value, p).batches) {
      assert Numbered(Get(s, p).batches);
    }
  }

  /** The shelves of all other products are as they were. */
  ghost predicate OthersSame(before: Shelves, after: Shelves, p: ProductId) {
    forall q: ProductId :: q != p ==> Get(after, q) == Get(before, q)
  }

  /** The three views still agree, in one level row, and reserved is still within on hand. */
  ghost predicate KeepsViews(before: Shelf, after: Shelf) {
    && (Agree(before) && OneRow(before) ==> Agree(after) && OneRow(after))
    && (Agree(before) && OneRow(before) && Bounded(before) ==> Bounded(after))
  }

  lemma ReceiveKeepsViews(sh: Shelf, q: int)
    requires Agree(sh) && OneRow(sh) && q > 0
    ensures Agree(ReceiveStock(sh, q)) <==> !Splits(sh, Receive(q))
    ensures !Splits(sh, Receive(q)) ==> KeepsViews(sh, ReceiveStock(sh, q))
  {
    AgreeReceive(sh, q);
    if !Splits(sh, Receive(q)) && Bounded(sh) {
      BoundedStep(sh, Receive(q));
    }
  }

  lemma StepKeepsViews(sh: Shelf, op: StockOp)
    requires ValidOp(op) && (op.Reserve? || op.Release? || op.Return?)
    ensures KeepsViews(sh, Step(sh, op))
  {
    if Agree(sh) && OneRow(sh) {
      AgreeStep(sh, op);
      if Bounded(sh) {
        BoundedStep(sh, op);
      }
    }
  }

  /** A correction keeps agreeing views in agreement, at the new quantity, and leaves reserved alone. */
  ghost predicate CorrectedTo(before: Shelf, after: Shelf, quantity: int) {
    Agree(before) && OneRow(before) ==>
      && Agree(after) && OneRow(after) && Sum(after.batches) == quantity
      && ReservedOf(after) == ReservedOf(before)
  }

  lemma CorrectionMeans(sh: Shelf, q: int)
    ensures q >= 0 && AdjustStock(sh, q).Ok? ==> CorrectedTo(sh, AdjustStock(sh, q).value, q)
  {
    if q >= 0 && Agree(sh) && OneRow(sh) && AdjustStock(sh, q).Ok? {
      AgreeAdjust(sh, q);
    }
  }

  /** A deduction succeeds exactly if the batches hold that much, and then takes it off. */
  ghost predicate Takes(before: seq<Batch>, after: seq<Batch>, quantity: int, success: bool) {
    quantity > 0 && Sound(before) ==>
      (success <==> quantity <= Sum(before)) && (success ==> Sum(after) == Sum(before) - quantity)
  }

  lemma DeductionTakes(bs: seq<Batch>, q: int)
    ensures Takes(bs, Drain(bs, q).batches, q, Drain(bs, q).left <= 0)
  {
    if q > 0 && Sound(bs) {
      DrainSum(bs, q);
    }
  }

  class InventoryService {
    const db: Database

    constructor (db: Database)
      ensures this.db == db
    {
      this.db := db;
    }

    method AddToStorage(cat: Catalog, shop: ShopId, p: ProductId, quantity: int) returns (r: Result<()>)
      requires db.Valid()
      modifies db
      ensures db.Valid() && OthersSame(old(db.shelves), db.shelves, p)
      ensures r.Ok? <==> UnitFits(cat, shop, p, quantity)
      ensures r == Err(NotFound) <==> p !in cat || cat[p].shop != shop
      ensures r.Ok? ==> Sum(Get(db.shelves, p).batches) == old(Sum(Get(db.shelves, p).batches)) + quantity
      ensures r.Ok? && quantity > 0 && old(Agree(Get(db.shelves, p)) && OneRow(Get(db.shelves, p))) ==>
                && (Agree(Get(db.shelves, p)) <==> !Splits(old(Get(db.shelves, p)), Receive(quantity)))
                && (Agree(Get(db.shelves, p)) ==> KeepsViews(old(Get(db.shelves, p)), Get(db.shelves, p)))
      ensures EndsAs(old(db.State()), db.State(), r, Shop.AddToStorage(cat, old(db.State()), shop, p, quantity))
    {
      var checked := CheckUnit(cat, shop, p, quantity);
      if checked.Err? {
        return Err(checked.error);
      }
      ApplyKeepsKeys(db.shelves, Task(p, Receive(quantity)));
      SumAppend(Get(db.shelves, p).batches, NewBatch(Get(db.shelves, p), quantity));
      if quantity > 0 && Agree(Get(db.shelves, p)) && OneRow(Get(db.shelves, p)) {
        ReceiveKeepsViews(Get(db.shelves, p), quantity);
      }
      var shelf := Get(db.shelves, p);
      shelf := shelf.(batches := shelf.batches + [Batch(|shelf.batches|, quantity, quantity)]);
      var level := if shelf.own.Some? then shelf.own.value else Level(0, 0);
      level := level.(onHand := level.onHand + quantity);
      shelf := shelf.(own := Some(level));
      shelf := shelf.(log := shelf.log + [Movement(PURCHASE, quantity, level.onHand, None)]);
      db.shelves := db.shelves[p := shelf];
      r := Ok(());
    }

    method ReserveStock(p: ProductId, quantity: int) returns (r: Result<()>)
      requires db.Valid()
      modifies db
      ensures db.Valid() && OthersSame(old(db.shelves), db.shelves, p)
      ensures r.Ok? <==> old(ByProduct(Get(db.shelves, p)).Some? && quantity <= Free(Get(db.shelves, p)))
      ensures r == Err(NotFound) <==> old(ByProduct(Get(db.shelves, p)).None?)
      ensures r.Ok? ==> HoldsMore(old(Get(db.shelves, p)), Get(db.shelves, p), quantity)
      ensures quantity > 0 ==> KeepsViews(old(Get(db.shelves, p)), Get(db.shelves, p))
      ensures StockEndsAs(old(db.State()), db.State(), r, ApplyTask(old(db.shelves), Task(p, Reserve(quantity))))
    {
      if quantity > 0 {
        StepKeepsViews(Get(db.shelves, p), Reserve(quantity));
      }
      var shelf := Get(db.shelves, p);
      var found := ByProduct(shelf);
      if found.None? {
        return Err(NotFound);
      }
      var level := found.value;
      if level.onHand - level.reserved < quantity {
        return Err(BadRequest);
      }
      ApplyKeepsKeys(db.shelves, Task(p, Reserve(quantity)));
      level := level.(reserved := level.reserved + quantity);
      shelf := SaveByProduct(shelf, level);
      shelf := shelf.(log := shelf.log + [Movement(RESERVE, -quantity, level.onHand, None)]);
      db.shelves := db.shelves[p := shelf];
      r := Ok(());
    }

    method ReleaseStock(p: ProductId, quantity: int) returns (r: Result<()>)
      requires db.Valid()
      modifies db
      ensures db.Valid() && OthersSame(old(db.shelves), db.shelves, p)
      ensures r == Ok(())
      ensures quantity > 0 && old(ReservedOf(Get(db.shelves, p))) >= 0 ==>
                HoldsMore(old(Get(db.shelves, p)), Get(db.shelves, p),
                          -Min(quantity, old(ReservedOf(Get(db.shelves, p)))))
      ensures quantity > 0 ==> KeepsViews(old(Get(db.shelves, p)), Get(db.shelves, p))
      ensures StockEndsAs(old(db.State()), db.State(), r, ApplyTask(old(db.shelves), Task(p, Release(quantity))))
    {
      if quantity > 0 {
        StepKeepsViews(Get(db.shelves, p), Release(quantity));
      }
      ApplyKeepsKeys(db.shelves, Task(p, Release(quantity)));
      var shelf := Get(db.shelves, p);
      var found := ByProduct(shelf);
      if found.Some? {
        var level := found.value.(reserved := Max(0, found.value.reserved - quantity));
        shelf := SaveByProduct(shelf, level);
        shelf := shelf.(log := shelf.log + [Movement(RELEASE, quantity, level.onHand, None)]);
      }
      db.shelves := db.shelves[p := shelf];
      r := Ok(());
    }

    /** A deduction that runs short leaves the batches drained: only a rollback restores them. */
    method DeductFromStorage(p: ProductId, quantity: int, order: OrderId) returns (r: Result<()>)
      requires db.Valid()
      modifies db
      ensures db.Valid()
      ensures Takes(old(Get(db.shelves, p).batches), Get(db.shelves, p).batches, quantity, r.Ok?)
      ensures var expected := ApplyTask(old(db.shelves), Task(p, Deduct(quantity, order)));
              && (expected.Ok? ==> StockEndsAs(old(db.State()), db.State(), r, expected))
              && (expected.Err? ==>
                    && r == Err(expected.error)
                    && db.State().(shelves := old(db.shelves)) == old(db.State())
                    && Get(db.shelves, p).batches == Drain(Get(old(db.shelves), p).batches, quantity).batches)
    {
      var shelf := Get(db.shelves, p);
      assert Numbered(shelf.batches);
      DrainIds(shelf.batches, quantity);
      DeductionTakes(shelf.batches, quantity);
      var batches, remaining := DeductLoop(shelf.batches, quantity);
      shelf := shelf.(batches := batches);
      db.shelves := db.shelves[p := shelf];
      forall q ensures Numbered(Get(db.shelves, q).batches) {
        assert Numbered(Get(old(db.shelves), q).batches);
      }
      if remaining > 0 {
        return Err(BadRequest);
      }
      var found := ByProduct(shelf);
      var onHand := 0;
      if found.Some? {
        onHand := found.value.onHand - quantity;
        shelf := SaveByProduct(shelf, Level(onHand, Max(0, found.value.reserved - quantity)));
      }
      shelf := shelf.(log := shelf.log + [Movement(SALE, -quantity, onHand, Some(order))]);
      assert old(db.shelves)[p := shelf] == db.shelves[p := shelf];
      db.shelves := db.shelves[p := shelf];
      ApplyKeepsKeys(old(db.shelves), Task(p, Deduct(quantity, order)));
      r := Ok(());
    }

    method ReturnToStorage(p: ProductId, quantity: int, order: OrderId) returns (r: Result<()>)
      requires db.Valid()
      modifies db
      ensures db.Valid() && OthersSame(old(db.shelves), db.shelves, p)
      ensures r == Ok(())
      ensures Sum(Get(db.shelves, p).batches) == old(Sum(Get(db.shelves, p).batches)) + quantity
      ensures ReservedOf(Get(db.shelves, p)) == old(ReservedOf(Get(db.shelves, p)))
      ensures quantity > 0 ==> KeepsViews(old(Get(db.shelves, p)), Get(db.shelves, p))
      ensures StockEndsAs(old(db.State()), db.State(), r, ApplyTask(old(db.shelves), Task(p, Return(quantity, order))))
    {
      SumAppend(Get(db.shelves, p).batches, NewBatch(Get(db.shelves, p), quantity));
      if quantity > 0 {
        StepKeepsViews(Get(db.shelves, p), Return(quantity, order));
      }
      ApplyKeepsKeys(db.shelves, Task(p, Return(quantity, order)));
      var shelf := Get(db.shelves, p);
      var found := ByProduct(shelf);
      var level := if found.Some? then found.value else Level(0, 0);
      shelf := shelf.(batches := shelf.batches + [Batch(|shelf.batches|, quantity, quantity)]);
      level := level.(onHand := level.onHand + quantity);
      shelf := if found.Some? then SaveByProduct(shelf, level) else shelf.(stray := Some(level));
      shelf := shelf.(log := shelf.log + [Movement(RETURN, quantity, level.onHand, Some(order))]);
      db.shelves := db.shelves[p := shelf];
      r := Ok(());
    }

    /** The batches of a correction by `delta`. */
    method CorrectBatches(batches: seq<Batch>, delta: int) returns (corrected: seq<Batch>)
      requires Numbered(batches)
      ensures corrected ==
              if delta > 0 then batches + [Batch(|batches|, delta, delta)]
              else if delta < 0 then Drain(batches, -delta).batches else batches
    {
      corrected := batches;
      if delta > 0 {
        corrected := batches + [Batch(|batches|, delta, delta)];
      } else if delta < 0 {
        var drained, _ := DeductLoop(batches, -delta);
        corrected := drained;
      }
    }

    /** The loop's leftover is ignored, as in the service: see `AdjustLosesNothing`. */
    method Adjust(cat: Catalog, shop: ShopId, p: ProductId, quantity: int) returns (r: Result<()>)
      requires db.Valid()
      modifies db
      ensures r.Ok? <==> UnitFits(cat, shop, p, quantity) && old(Get(db.shelves, p).own.Some?)
      ensures r == Err(NotFound) <==> p !in cat || cat[p].shop != shop || old(Get(db.shelves, p).own.None?)
      ensures r.Ok? && quantity >= 0 ==> CorrectedTo(old(Get(db.shelves, p)), Get(db.shelves, p), quantity)
      ensures db.Valid() && EndsAs(old(db.State()), db.State(), r, AdjustLevel(cat, old(db.State()), shop, p, quantity))
    {
      CorrectionMeans(Get(db.shelves, p), quantity);
      var shelf := Get(db.shelves, p);
      if p !in cat || cat[p].shop != shop || shelf.own.None? {
        return Err(NotFound);
      }
      var checked := CheckUnit(cat, shop, p, quantity);
      if checked.Err? {
        return Err(checked.error);
      }
      ApplyKeepsKeys(db.shelves, Task(p, StockOp.Adjust(quantity)));
      var delta := quantity - shelf.own.value.onHand;
      assert Numbered(shelf.batches);
      var batches := CorrectBatches(shelf.batches, delta);
      shelf := shelf.(batches := batches);
      shelf := shelf.(own := Some(shelf.own.value.(onHand := quantity)));
      shelf := shelf.(log := shelf.log + [Movement(ADJUST, delta, quantity, None)]);
      db.shelves := db.shelves[p := shelf];
      r := Ok(());
    }
  }
}
