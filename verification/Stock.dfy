/**
  The stock of one product: its batches, its row in `stock_levels` and its entries in
  `stock_movements`, with the six operations of the inventory service as transitions.

  A level row found by (product, shop) is `own`. `returnToStorage` looks a level up by
  product alone and, finding none, inserts one without a shop: that row is `stray`, and a
  search by (product, shop) never finds it. A search by product alone finds the older row.
 */
module Stock {
  import opened Wrappers
  import opened Fifo

  type OrderId = nat

  datatype Kind = PURCHASE | SALE | RETURN | RESERVE | RELEASE | ADJUST

  datatype Movement = Movement(kind: Kind, quantity: int, after: int, reference: Option<OrderId>)

  datatype Level = Level(onHand: int, reserved: int)

  datatype Shelf = Shelf(batches: seq<Batch>, own: Option<Level>, stray: Option<Level>, log: seq<Movement>)

  const EmptyShelf := Shelf([], None, None, [])

  datatype StockOp =
    | Receive(quantity: int)
    | Reserve(quantity: int)
    | Release(quantity: int)
    | Deduct(quantity: int, order: OrderId)
    | Return(quantity: int, order: OrderId)
    | Adjust(quantity: int)

  /** The ranges the request validators accept. */
  predicate ValidOp(op: StockOp) {
    if op.Adjust? then op.quantity >= 0 else op.quantity > 0
  }

  function ByProduct(sh: Shelf): Option<Level> {
    if sh.stray.Some? then sh.stray else sh.own
  }

  function SaveByProduct(sh: Shelf, level: Level): Shelf {
    if sh.stray.Some? then sh.(stray := Some(level)) else sh.(own := Some(level))
  }

  function NewBatch(sh: Shelf, quantity: int): Batch {
    Batch(|sh.batches|, quantity, quantity)
  }

  function Entry(kind: Kind, quantity: int, after: int, order: Option<OrderId>): seq<Movement> {
    [Movement(kind, quantity, after, order)]
  }

  function ReceiveStock(sh: Shelf, q: int): Shelf {
    var level := if sh.own.Some? then sh.own.value else Level(0, 0);
    var saved := level.(onHand := level.onHand + q);
    sh.(batches := sh.batches + [NewBatch(sh, q)],
        own := Some(saved),
        log := sh.log + Entry(PURCHASE, q, saved.onHand, None))
  }

  function ReserveStock(sh: Shelf, q: int): Result<Shelf> {
    match ByProduct(sh)
    case None => Err(NotFound)
    case Some(level) =>
      if level.onHand - level.reserved < q then Err(BadRequest)
      else
        var saved := SaveByProduct(sh, level.(reserved := level.reserved + q));
        Ok(saved.(log := sh.log + Entry(RESERVE, -q, level.onHand, None)))
  }

  function ReleaseStock(sh: Shelf, q: int): Shelf {
    match ByProduct(sh)
    case None => sh
    case Some(level) =>
      var saved := SaveByProduct(sh, level.(reserved := Max(0, level.reserved - q)));
      saved.(log := sh.log + Entry(RELEASE, q, level.onHand, None))
  }

  function DeductStock(sh: Shelf, q: int, order: OrderId): Result<Shelf> {
    var drained := Drain(sh.batches, q);
    if drained.left > 0 then Err(BadRequest)
    else
      match ByProduct(sh)
      case None =>
        Ok(sh.(batches := drained.batches, log := sh.log + Entry(SALE, -q, 0, Some(order))))
      case Some(level) =>
        var onHand := level.onHand - q;
        var saved := SaveByProduct(sh, Level(onHand, Max(0, level.reserved - q)));
        Ok(saved.(batches := drained.batches, log := sh.log + Entry(SALE, -q, onHand, Some(order))))
  }

  function ReturnStock(sh: Shelf, q: int, order: OrderId): Shelf {
    var found := ByProduct(sh);
    var level := if found.Some? then found.value else Level(0, 0);
    var onHand := level.onHand + q;
    var saved := level.(onHand := onHand);
    var rows := if found.Some? then SaveByProduct(sh, saved) else sh.(stray := Some(saved));
    rows.(batches := sh.batches + [NewBatch(sh, q)], log := sh.log + Entry(RETURN, q, onHand, Some(order)))
  }

  function AdjustStock(sh: Shelf, q: int): Result<Shelf> {
    match sh.own
    case None => Err(NotFound)
    case Some(level) =>
      var delta := q - level.onHand;
      var batches :=
        if delta > 0 then sh.batches + [NewBatch(sh, delta)]
        else if delta < 0 then Drain(sh.batches, -delta).batches
        else sh.batches;
      Ok(sh.(batches := batches,
             own := Some(level.(onHand := q)),
             log := sh.log + Entry(ADJUST, delta, q, None)))
  }

  function Apply(sh: Shelf, op: StockOp): Result<Shelf> {
    match op
    case Receive(q) => Ok(ReceiveStock(sh, q))
    case Reserve(q) => ReserveStock(sh, q)
    case Release(q) => Ok(ReleaseStock(sh, q))
    case Deduct(q, order) => DeductStock(sh, q, order)
    case Return(q, order) => Ok(ReturnStock(sh, q, order))
    case Adjust(q) => AdjustStock(sh, q)
  }

  /** A failed operation is rolled back. */
  function Step(sh: Shelf, op: StockOp): Shelf {
    match Apply(sh, op)
    case Ok(next) => next
    case Err(_) => sh
  }

  function Run(sh: Shelf, ops: seq<StockOp>): Shelf {
    if ops == [] then sh else Step(Run(sh, ops[..|ops| - 1]), ops[|ops| - 1])
  }

  ghost predicate AllValid(ops: seq<StockOp>) {
    forall k :: 0 <= k < |ops| ==> ValidOp(ops[k])
  }

  lemma {:induction false} RunAppend(sh: Shelf, a: seq<StockOp>, b: seq<StockOp>)
    ensures Run(sh, a + b) == Run(Run(sh, a), b)
  {
    if b == [] {
      assert a + b == a;
    } else {
      assert (a + b)[..|a + b| - 1] == a + b[..|b| - 1];
      RunAppend(sh, a, b[..|b| - 1]);
    }
  }
}
