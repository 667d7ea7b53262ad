/**
  The movement log and the inserted batches as a record of what was done: over any run, split
  levels included, the log lists the successful operations in order, and what the batches were
  inserted with is what the log brought in.
 */
module StockTrail {
  import opened Wrappers
  import opened Fifo
  import opened Stock
  import opened StockViews
  import opened StockTasks
  import opened Shop
  import opened ShopStock

  // ------------------------------------------------- the log

  /** What a movement says apart from the stock after it. */
  datatype Posting = Posting(kind: Kind, quantity: int, reference: Option<OrderId>)

  function PostingOf(sh: Shelf, op: StockOp): Posting {
    match op
    case Receive(q) => Posting(PURCHASE, q, None)
    case Reserve(q) => Posting(RESERVE, -q, None)
    case Release(q) => Posting(RELEASE, q, None)
    case Deduct(q, order) => Posting(SALE, -q, Some(order))
    case Return(q, order) => Posting(RETURN, q, Some(order))
    case Adjust(q) => Posting(ADJUST, q - (if sh.own.Some? then sh.own.value.onHand else 0), None)
  }

  function Postings(log: seq<Movement>): seq<Posting> {
    if log == [] then []
    else Postings(Front(log)) + [Posting(Last(log).kind, Last(log).quantity, Last(log).reference)]
  }

  /** The operation does something: it succeeds, and is no release of a product without a level. */
  predicate Takes(sh: Shelf, op: StockOp) {
    Apply(sh, op).Ok? && (op.Release? ==> ByProduct(sh).Some?)
  }

  /** The successful operations of a run, as they should be posted. */
  function Trail(ops: seq<StockOp>): seq<Posting> {
    if ops == [] then []
    else
      var sh := Run(EmptyShelf, Front(ops));
      Trail(Front(ops)) + if Takes(sh, Last(ops)) then [PostingOf(sh, Last(ops))] else []
  }

  lemma PostingsAppend(log: seq<Movement>, m: Movement)
    ensures Postings(log + [m]) == Postings(log) + [Posting(m.kind, m.quantity, m.reference)]
  {
    assert Front(log + [m]) == log;
  }

  lemma StepPosts(sh: Shelf, op: StockOp)
    ensures Postings(Step(sh, op).log) == Postings(sh.log) + if Takes(sh, op) then [PostingOf(sh, op)] else []
  {
    if Takes(sh, op) {
      var next := Step(sh, op);
      assert next.log == sh.log + [Last(next.log)];
      PostingsAppend(sh.log, Last(next.log));
    } else {
      assert Postings(sh.log) + [] == Postings(sh.log);
    }
  }

  /** Over any run the log lists exactly the successful operations, in order, with kind, amount and order. */
  lemma {:induction false} LogIsTrail(ops: seq<StockOp>)
    ensures Postings(Run(EmptyShelf, ops).log) == Trail(ops)
  {
    if ops != [] {
      LogIsTrail(Front(ops));
      StepPosts(Run(EmptyShelf, Front(ops)), Last(ops));
    }
  }

  // ------------------------------------------------- the inserted batches

  function Inserted(bs: seq<Batch>): int {
    if bs == [] then 0 else bs[0].initial + Inserted(bs[1..])
  }

  /** What a log brought in: receipts, returns and upward corrections. */
  function BroughtIn(log: seq<Movement>): int {
    if log == [] then 0
    else
      var m := Last(log);
      BroughtIn(Front(log)) +
      if m.kind.PURCHASE? || m.kind.RETURN? then m.quantity else if m.kind.ADJUST? then Max(0, m.quantity) else 0
  }

  lemma {:induction false} InsertedAppend(bs: seq<Batch>, b: Batch)
    ensures Inserted(bs + [b]) == Inserted(bs) + b.initial
  {
    if bs == [] {
      assert bs + [b] == [b];
    } else {
      assert (bs + [b])[1..] == bs[1..] + [b];
      InsertedAppend(bs[1..], b);
    }
  }

  lemma {:induction false} InsertedSameRows(a: seq<Batch>, b: seq<Batch>)
    requires SameRows(a, b)
    ensures Inserted(a) == Inserted(b)
  {
    if a != [] {
      InsertedSameRows(a[1..], b[1..]);
    }
  }

  lemma BroughtInAppend(log: seq<Movement>, m: Movement)
    ensures BroughtIn(log + [m]) ==
            BroughtIn(log) +
            if m.kind.PURCHASE? || m.kind.RETURN? then m.quantity else if m.kind.ADJUST? then Max(0, m.quantity) else 0
  {
    assert Front(log + [m]) == log;
  }

  lemma DrainInserts(bs: seq<Batch>, q: nat)
    requires Sound(bs)
    ensures Sound(Drain(bs, q).batches) && Inserted(Drain(bs, q).batches) == Inserted(bs)
  {
    DrainKeepsRows(bs, q);
    InsertedSameRows(bs, Drain(bs, q).batches);
  }

  lemma NewBatchInserts(sh: Shelf, q: int)
    requires Sound(sh.batches) && q >= 0
    ensures Sound(sh.batches + [NewBatch(sh, q)]) && Inserted(sh.batches + [NewBatch(sh, q)]) == Inserted(sh.batches) + q
  {
    SumAppend(sh.batches, NewBatch(sh, q));
    InsertedAppend(sh.batches, NewBatch(sh, q));
  }

  /** The batches after a correction by `delta`. */
  lemma CorrectionInserts(sh: Shelf, delta: int)
    requires Sound(sh.batches)
    ensures var batches :=
              if delta > 0 then sh.batches + [NewBatch(sh, delta)]
              else if delta < 0 then Drain(sh.batches, -delta).batches else sh.batches;
            Sound(batches) && Inserted(batches) == Inserted(sh.batches) + Max(0, delta)
  {
    if delta > 0 {
      NewBatchInserts(sh, delta);
    } else if delta < 0 {
      DrainInserts(sh.batches, -delta);
    }
  }

  lemma AdjustInserts(sh: Shelf, q: int)
    requires Sound(sh.batches) && AdjustStock(sh, q).Ok?
    ensures var batches := AdjustStock(sh, q).value.batches;
            && Sound(batches)
            && Inserted(batches) - Inserted(sh.batches) == Max(0, q - sh.own.value.onHand)
  {
    CorrectionInserts(sh, q - sh.own.value.onHand);
  }

  /** What an operation that succeeds brings in. */
  function Gain(sh: Shelf, op: StockOp): int {
    if !Apply(sh, op).Ok? then 0
    else if op.Receive? || op.Return? then op.quantity
    else if op.Adjust? then Max(0, PostingOf(sh, op).quantity) else 0
  }

  /** What the batches a step leaves were inserted with. */
  lemma StepInserts(sh: Shelf, op: StockOp)
    requires Sound(sh.batches) && ValidOp(op)
    ensures Sound(Step(sh, op).batches)
    ensures Inserted(Step(sh, op).batches) - Inserted(sh.batches) == Gain(sh, op)
  {
    match op {
      case Receive(q) => NewBatchInserts(sh, q);
      case Return(q, _) => NewBatchInserts(sh, q);
      case Deduct(q, _) => DrainInserts(sh.batches, q);
      case Adjust(q) =>
        if AdjustStock(sh, q).Ok? {
          AdjustInserts(sh, q);
        }
      case _ =>
    }
  }

  lemma StepBringsIn(sh: Shelf, op: StockOp)
    requires ValidOp(op)
    ensures BroughtIn(Step(sh, op).log) - BroughtIn(sh.log) == Gain(sh, op)
  {
    var next := Step(sh, op);
    if Takes(sh, op) {
      assert next.log == sh.log + [Last(next.log)];
      BroughtInAppend(sh.log, Last(next.log));
    }
  }

  /** Over any run no batch holds less than nothing or more than its own, and together they were inserted with what came in. */
  lemma {:induction false} InsertedIsBroughtIn(ops: seq<StockOp>)
    requires AllValid(ops)
    ensures var sh := Run(EmptyShelf, ops);
            Sound(sh.batches) && Inserted(sh.batches) == BroughtIn(sh.log)
  {
    if ops != [] {
      InsertedIsBroughtIn(Front(ops));
      StepInserts(Run(EmptyShelf, Front(ops)), Last(ops));
      StepBringsIn(Run(EmptyShelf, Front(ops)), Last(ops));
    }
  }

  /** In every reachable database the log of a product is the trail of its operations, and its batches are sound. */
  lemma {:induction false} TrailOnEveryRun(cat: Catalog, reqs: seq<Request>, p: ProductId)
    requires ValidRun(reqs)
    ensures var sh := Get(Exec(cat, reqs).shelves, p);
            && Postings(sh.log) == Trail(Trace(cat, reqs, p))
            && Sound(sh.batches) && Inserted(sh.batches) == BroughtIn(sh.log)
  {
    TraceIsRun(cat, reqs, p);
    TraceGood(cat, reqs, p);
    LogIsTrail(Trace(cat, reqs, p));
    InsertedIsBroughtIn(Trace(cat, reqs, p));
  }
}
