/**
  The three views of a product's stock (batches, summary row, movement log) over whole runs.
 */
module StockViews {
  import opened Wrappers
  import opened Fifo
  import opened Stock

  // ------------------------------------------------- on hand, from the log

  function OnHandChange(m: Movement): int {
    if m.kind.PURCHASE? || m.kind.SALE? || m.kind.RETURN? || m.kind.ADJUST? then m.quantity else 0
  }

  /** The stock on hand that replaying the log gives. */
  function Ledger(log: seq<Movement>): int {
    if log == [] then 0 else Ledger(log[..|log| - 1]) + OnHandChange(log[|log| - 1])
  }

  ghost predicate Replays(log: seq<Movement>) {
    forall i :: 0 <= i < |log| ==> log[i].after == Ledger(log[..i + 1])
  }

  ghost predicate Numbered(bs: seq<Batch>) {
    forall i :: 0 <= i < |bs| ==> bs[i].id == i
  }

  /** Every level row shows the sum of the batches, which is what the log replays to. */
  ghost predicate Agree(sh: Shelf) {
    && Sound(sh.batches) && Numbered(sh.batches)
    && Sum(sh.batches) == Ledger(sh.log)
    && Replays(sh.log)
    && (sh.own.Some? ==> sh.own.value.onHand == Sum(sh.batches))
    && (sh.stray.Some? ==> sh.stray.value.onHand == Sum(sh.batches))
    && (sh.own.None? && sh.stray.None? ==> sh == EmptyShelf)
  }

  ghost predicate OneRow(sh: Shelf) {
    sh.own.None? || sh.stray.None?
  }

  /** A receipt that finds only the row without a shop inserts a second level row. */
  predicate Splits(sh: Shelf, op: StockOp) {
    op.Receive? && sh.own.None? && sh.stray.Some?
  }

  lemma LedgerAppend(log: seq<Movement>, m: Movement)
    ensures Ledger(log + [m]) == Ledger(log) + OnHandChange(m)
    ensures Replays(log) && m.after == Ledger(log) + OnHandChange(m) ==> Replays(log + [m])
  {
    assert (log + [m])[..|log|] == log;
    if Replays(log) && m.after == Ledger(log) + OnHandChange(m) {
      forall i | 0 <= i < |log + [m]| ensures (log + [m])[i].after == Ledger((log + [m])[..i + 1]) {
        if i < |log| {
          assert (log + [m])[..i + 1] == log[..i + 1];
        } else {
          assert (log + [m])[..i + 1] == log + [m];
        }
      }
    }
  }

  /** The quantity `adjust` fails to find in the batches: its loop ignores it. */
  function AdjustLeftover(sh: Shelf, q: int): int {
    if sh.own.Some? && q < sh.own.value.onHand
    then Drain(sh.batches, sh.own.value.onHand - q).left
    else 0
  }

  lemma AdjustLosesNothing(sh: Shelf, q: int)
    requires Agree(sh) && q >= 0
    ensures AdjustLeftover(sh, q) == 0
  {
    if sh.own.Some? && q < sh.own.value.onHand {
      DrainDropsUnits(sh.batches, sh.own.value.onHand - q);
    }
  }

  /** Correcting downwards takes the oldest units, exactly as deducting the difference does. */
  lemma AdjustDownIsDeduct(sh: Shelf, q: nat, order: OrderId)
    requires Agree(sh) && sh.own.Some? && q < sh.own.value.onHand
    ensures var less := sh.own.value.onHand - q;
            && AdjustStock(sh, q).Ok? && DeductStock(sh, less, order).Ok?
            && AdjustStock(sh, q).value.batches == DeductStock(sh, less, order).value.batches
            && Sound(AdjustStock(sh, q).value.batches)
            && less <= |Units(sh.batches)|
            && Units(AdjustStock(sh, q).value.batches) == Units(sh.batches)[less..]
  {
    DrainDropsUnits(sh.batches, sh.own.value.onHand - q);
  }

  lemma NumberedDrain(bs: seq<Batch>, q: nat)
    requires Sound(bs) && Numbered(bs)
    ensures Numbered(Drain(bs, q).batches) && Sound(Drain(bs, q).batches)
  {
    DrainKeepsRows(bs, q);
  }

  /** What one appended entry must satisfy for the views to stay in agreement. */
  lemma AgreeAfter(sh: Shelf, next: Shelf, m: Movement)
    requires Agree(sh) && next.log == sh.log + [m]
    requires Sound(next.batches) && Numbered(next.batches)
    requires Sum(next.batches) == Sum(sh.batches) + OnHandChange(m) == m.after
    requires next.own.Some? || next.stray.Some?
    requires next.own.Some? ==> next.own.value.onHand == m.after
    requires next.stray.Some? ==> next.stray.value.onHand == m.after
    ensures Agree(next)
  {
    LedgerAppend(sh.log, m);
  }

  lemma AgreeReceive(sh: Shelf, q: int)
    requires Agree(sh) && OneRow(sh) && q > 0
    ensures Splits(sh, Receive(q)) ==> !Agree(ReceiveStock(sh, q))
    ensures !Splits(sh, Receive(q)) ==> OneRow(ReceiveStock(sh, q)) && Agree(ReceiveStock(sh, q))
  {
    var next := ReceiveStock(sh, q);
    SumAppend(sh.batches, NewBatch(sh, q));
    if !Splits(sh, Receive(q)) {
      AgreeAfter(sh, next, next.log[|sh.log|]);
    }
  }

  lemma AgreeReturn(sh: Shelf, q: int, order: OrderId)
    requires Agree(sh) && OneRow(sh) && q > 0
    ensures OneRow(ReturnStock(sh, q, order)) && Agree(ReturnStock(sh, q, order))
  {
    var next := ReturnStock(sh, q, order);
    SumAppend(sh.batches, NewBatch(sh, q));
    AgreeAfter(sh, next, next.log[|sh.log|]);
  }

  lemma AgreeDeduct(sh: Shelf, q: int, order: OrderId)
    requires Agree(sh) && OneRow(sh) && q > 0 && DeductStock(sh, q, order).Ok?
    ensures OneRow(DeductStock(sh, q, order).value) && Agree(DeductStock(sh, q, order).value)
  {
    var next := DeductStock(sh, q, order).value;
    DrainSum(sh.batches, q);
    NumberedDrain(sh.batches, q);
    AgreeAfter(sh, next, next.log[|sh.log|]);
  }

  /** The batches after a correction. */
  lemma AdjustBatches(sh: Shelf, q: int)
    requires Agree(sh) && q >= 0 && AdjustStock(sh, q).Ok?
    ensures var batches := AdjustStock(sh, q).value.batches;
            Sound(batches) && Numbered(batches) && Sum(batches) == q
  {
    var delta := q - sh.own.value.onHand;
    if delta > 0 {
      SumAppend(sh.batches, NewBatch(sh, delta));
    } else if delta < 0 {
      DrainSum(sh.batches, -delta);
      NumberedDrain(sh.batches, -delta);
    }
  }

  lemma AgreeAdjust(sh: Shelf, q: int)
    requires Agree(sh) && OneRow(sh) && q >= 0 && AdjustStock(sh, q).Ok?
    ensures OneRow(AdjustStock(sh, q).value) && Agree(AdjustStock(sh, q).value)
  {
    var next := AdjustStock(sh, q).value;
    AdjustBatches(sh, q);
    AgreeAfter(sh, next, next.log[|sh.log|]);
  }

  lemma AgreeHold(sh: Shelf, op: StockOp)
    requires Agree(sh) && OneRow(sh) && (op.Reserve? || op.Release?)
    ensures OneRow(Step(sh, op)) && Agree(Step(sh, op))
  {
    var next := Step(sh, op);
    if next != sh {
      AgreeAfterHold(sh, next, next.log[|sh.log|]);
    }
  }

  lemma AgreeAfterHold(sh: Shelf, next: Shelf, m: Movement)
    requires Agree(sh) && ByProduct(sh).Some?
    requires next.log == sh.log + [m] && next.batches == sh.batches
    requires OnHandChange(m) == 0 && m.after == ByProduct(sh).value.onHand
    requires next.own.Some? == sh.own.Some? && next.stray.Some? == sh.stray.Some?
    requires next.own.Some? ==> next.own.value.onHand == sh.own.value.onHand
    requires next.stray.Some? ==> next.stray.value.onHand == sh.stray.value.onHand
    ensures Agree(next)
  {
    AgreeAfter(sh, next, m);
  }

  /** One step keeps the three views in agreement exactly when it does not split the level. */
  lemma AgreeStep(sh: Shelf, op: StockOp)
    requires Agree(sh) && OneRow(sh) && ValidOp(op)
    ensures Splits(sh, op) ==> !Agree(Step(sh, op))
    ensures !Splits(sh, op) ==> OneRow(Step(sh, op)) && Agree(Step(sh, op))
  {
    match op {
      case Receive(q) => AgreeReceive(sh, q);
      case Return(q, order) => AgreeReturn(sh, q, order);
      case Deduct(q, order) =>
        if Apply(sh, op).Ok? {
          AgreeDeduct(sh, q, order);
        }
      case Adjust(q) =>
        if Apply(sh, op).Ok? {
          AgreeAdjust(sh, q);
        }
      case _ => AgreeHold(sh, op);
    }
  }

  /** No receipt of the run found only a level row without a shop. */
  ghost predicate NeverSplits(ops: seq<StockOp>) {
    ops == [] || (NeverSplits(Front(ops)) && !Splits(Run(EmptyShelf, Front(ops)), Last(ops)))
  }

  /** The views agree at every point of the run. */
  ghost predicate AlwaysAgree(ops: seq<StockOp>) {
    Agree(Run(EmptyShelf, ops)) && (ops != [] ==> AlwaysAgree(Front(ops)))
  }

  lemma {:induction false} ViewsAgree(ops: seq<StockOp>)
    requires AllValid(ops) && NeverSplits(ops)
    ensures OneRow(Run(EmptyShelf, ops)) && Agree(Run(EmptyShelf, ops))
  {
    if ops != [] {
      ViewsAgree(Front(ops));
      AgreeStep(Run(EmptyShelf, Front(ops)), Last(ops));
    }
  }

  /**
    The three views agree at every point of a run from an empty database if and only if
    no receipt of that run meets a level row without a shop.
   */
  lemma {:induction false} ViewsAgreeIff(ops: seq<StockOp>)
    requires AllValid(ops)
    ensures AlwaysAgree(ops) <==> NeverSplits(ops)
  {
    if ops != [] {
      ViewsAgreeIff(Front(ops));
      if NeverSplits(Front(ops)) {
        ViewsAgree(Front(ops));
        AgreeStep(Run(EmptyShelf, Front(ops)), Last(ops));
      }
    }
  }

  // ------------------------------------------------- reservations, from the log

  /** The unclamped change a movement makes to the reserved quantity. */
  function HoldChange(m: Movement): int {
    match m.kind
    case RESERVE => -m.quantity
    case RELEASE => -m.quantity
    case SALE => m.quantity
    case _ => 0
  }

  /** The unclamped running sum of RESERVE less RELEASE less SALE amounts. */
  function Held(log: seq<Movement>): int {
    if log == [] then 0 else Held(log[..|log| - 1]) + HoldChange(log[|log| - 1])
  }

  /** The lowest value `Held` takes on a prefix of the log (the empty prefix included). */
  function LowestHeld(log: seq<Movement>): int {
    if log == [] then 0 else Min(LowestHeld(log[..|log| - 1]), Held(log))
  }

  lemma {:induction false} LowestHeldIsLowest(log: seq<Movement>)
    ensures forall i :: 0 <= i <= |log| ==> LowestHeld(log) <= Held(log[..i])
    ensures exists i :: 0 <= i <= |log| && LowestHeld(log) == Held(log[..i])
  {
    assert log[..|log|] == log;
    if log == [] {
      assert LowestHeld(log) == Held(log[..0]);
    } else {
      var front := log[..|log| - 1];
      LowestHeldIsLowest(front);
      assert forall i :: 0 <= i <= |front| ==> front[..i] == log[..i];
      if LowestHeld(log) == LowestHeld(front) {
        var i :| 0 <= i <= |front| && LowestHeld(front) == Held(front[..i]);
        assert LowestHeld(log) == Held(log[..i]);
      } else {
        assert LowestHeld(log) == Held(log[..|log|]);
      }
    }
  }

  ghost predicate Recoverable(sh: Shelf) {
    match ByProduct(sh)
    case None => sh.log == []
    case Some(level) => level.reserved == Held(sh.log) - LowestHeld(sh.log)
  }

  /** The operation succeeds and `Math.max(0, ...)` replaces a negative result. */
  predicate ClampFires(sh: Shelf, op: StockOp) {
    && (op.Release? || op.Deduct?)
    && Apply(sh, op).Ok?
    && ByProduct(sh).Some?
    && ByProduct(sh).value.reserved - op.quantity < 0
  }

  ghost predicate NeverClamps(ops: seq<StockOp>) {
    ops == [] || (NeverClamps(Front(ops)) && !ClampFires(Run(EmptyShelf, Front(ops)), Last(ops)))
  }

  /** Appending a movement moves the reflected sum the way the clamped counter moves. */
  lemma HeldAppend(log: seq<Movement>, m: Movement)
    ensures Held(log) >= LowestHeld(log) && LowestHeld(log) <= 0
    ensures var reserved := Held(log) - LowestHeld(log);
            && Held(log + [m]) - LowestHeld(log + [m]) == Max(0, reserved + HoldChange(m))
            && (reserved + HoldChange(m) < 0 <==> LowestHeld(log + [m]) < LowestHeld(log))
  {
    assert (log + [m])[..|log|] == log;
    LowestHeldIsLowest(log);
    assert log[..|log|] == log && log[..0] == [];
  }

  function ReservedOf(sh: Shelf): int {
    if ByProduct(sh).Some? then ByProduct(sh).value.reserved else 0
  }

  /** One movement is logged, and the counter moves by it, clamped at zero. */
  ghost predicate MovesCounter(sh: Shelf, next: Shelf) {
    && |next.log| == |sh.log| + 1
    && next.log == sh.log + [next.log[|sh.log|]]
    && ByProduct(next).Some?
    && ReservedOf(next) == Max(0, ReservedOf(sh) + HoldChange(next.log[|sh.log|]))
  }

  lemma DeductMovesCounter(sh: Shelf, q: int, order: OrderId)
    requires Agree(sh) && OneRow(sh) && q > 0 && ReservedOf(sh) >= 0 && DeductStock(sh, q, order).Ok?
    ensures ByProduct(sh).Some? && MovesCounter(sh, DeductStock(sh, q, order).value)
    ensures HoldChange(DeductStock(sh, q, order).value.log[|sh.log|]) == -q
  {
    DrainSum(sh.batches, q);
  }

  lemma ReleaseMovesCounter(sh: Shelf, q: int)
    requires OneRow(sh) && ByProduct(sh).Some?
    ensures MovesCounter(sh, ReleaseStock(sh, q)) && HoldChange(ReleaseStock(sh, q).log[|sh.log|]) == -q
  {
  }

  lemma ReserveMovesCounter(sh: Shelf, q: int)
    requires OneRow(sh) && q > 0 && ReservedOf(sh) >= 0 && ReserveStock(sh, q).Ok?
    ensures MovesCounter(sh, ReserveStock(sh, q).value) && HoldChange(ReserveStock(sh, q).value.log[|sh.log|]) == q
  {
  }

  lemma ReceiveMovesCounter(sh: Shelf, q: int)
    requires OneRow(sh) && !Splits(sh, Receive(q)) && ReservedOf(sh) >= 0
    ensures MovesCounter(sh, ReceiveStock(sh, q)) && HoldChange(ReceiveStock(sh, q).log[|sh.log|]) == 0
  {
  }

  lemma ReturnMovesCounter(sh: Shelf, q: int, order: OrderId)
    requires OneRow(sh) && ReservedOf(sh) >= 0
    ensures MovesCounter(sh, ReturnStock(sh, q, order)) && HoldChange(ReturnStock(sh, q, order).log[|sh.log|]) == 0
  {
  }

  lemma AdjustMovesCounter(sh: Shelf, q: int)
    requires OneRow(sh) && ReservedOf(sh) >= 0 && AdjustStock(sh, q).Ok?
    ensures MovesCounter(sh, AdjustStock(sh, q).value) && HoldChange(AdjustStock(sh, q).value.log[|sh.log|]) == 0
  {
  }

  /** A successful step moves the counter; the clamp fires when the change would go below zero. */
  lemma StepMovesCounter(sh: Shelf, op: StockOp)
    requires Agree(sh) && OneRow(sh) && ValidOp(op) && !Splits(sh, op)
    requires ReservedOf(sh) >= 0 && Apply(sh, op).Ok?
    ensures var next := Apply(sh, op).value;
            || (op.Release? && ByProduct(sh).None? && next == sh)
            || (&& MovesCounter(sh, next)
                && (ClampFires(sh, op) <==> ReservedOf(sh) + HoldChange(next.log[|sh.log|]) < 0))
  {
    match op {
      case Deduct(q, order) => DeductMovesCounter(sh, q, order);
      case Release(q) =>
        if ByProduct(sh).Some? {
          ReleaseMovesCounter(sh, q);
        }
      case Reserve(q) => ReserveMovesCounter(sh, q);
      case Receive(q) => ReceiveMovesCounter(sh, q);
      case Return(q, order) => ReturnMovesCounter(sh, q, order);
      case Adjust(q) => AdjustMovesCounter(sh, q);
    }
  }

  /** Moving the counter by a movement keeps it recoverable from the log. */
  lemma RecoverableAfter(sh: Shelf, next: Shelf)
    requires Recoverable(sh) && MovesCounter(sh, next)
    ensures Recoverable(next)
    ensures ReservedOf(sh) + HoldChange(next.log[|sh.log|]) < 0 <==> LowestHeld(next.log) < LowestHeld(sh.log)
    ensures LowestHeld(next.log) <= LowestHeld(sh.log) <= 0
  {
    assert ReservedOf(sh) == Held(sh.log) - LowestHeld(sh.log);
    HeldAppend(sh.log, next.log[|sh.log|]);
    assert next.log[..|sh.log|] == sh.log;
  }

  /** A step keeps the counter recoverable, and lowers the minimum exactly when it clamps. */
  lemma RecoverableStep(sh: Shelf, op: StockOp)
    requires Agree(sh) && OneRow(sh) && ValidOp(op) && !Splits(sh, op)
    requires Recoverable(sh)
    ensures Recoverable(Step(sh, op))
    ensures ClampFires(sh, op) <==> LowestHeld(Step(sh, op).log) < LowestHeld(sh.log)
    ensures LowestHeld(Step(sh, op).log) <= LowestHeld(sh.log) <= 0
  {
    HeldAppend(sh.log, Movement(ADJUST, 0, 0, None));
    if Apply(sh, op).Ok? {
      StepMovesCounter(sh, op);
      if Apply(sh, op).value != sh {
        RecoverableAfter(sh, Apply(sh, op).value);
      }
    }
  }

  /**
    On every run that does not split the level, stray releases included, the clamped counter
    is the unclamped sum less its lowest value; it never clamped exactly if that is zero.
   */
  lemma {:induction false} ReservedFromLog(ops: seq<StockOp>)
    requires AllValid(ops) && NeverSplits(ops)
    ensures Recoverable(Run(EmptyShelf, ops))
    ensures LowestHeld(Run(EmptyShelf, ops).log) <= 0
    ensures NeverClamps(ops) <==> LowestHeld(Run(EmptyShelf, ops).log) == 0
  {
    if ops != [] {
      ViewsAgree(Front(ops));
      ReservedFromLog(Front(ops));
      RecoverableStep(Run(EmptyShelf, Front(ops)), Last(ops));
    }
  }

  // ------------------------------------------------- reserved within on hand

  ghost predicate Bounded(sh: Shelf) {
    match ByProduct(sh)
    case None => true
    case Some(level) => 0 <= level.reserved <= level.onHand
  }

  /** The correction sets the stock on hand below what is reserved. */
  predicate AdjustsBelowReserved(sh: Shelf, op: StockOp) {
    op.Adjust? && sh.own.Some? && op.quantity < sh.own.value.reserved
  }

  ghost predicate AlwaysBounded(ops: seq<StockOp>) {
    Bounded(Run(EmptyShelf, ops)) && (ops != [] ==> AlwaysBounded(Front(ops)))
  }

  ghost predicate NeverAdjustsBelowReserved(ops: seq<StockOp>) {
    ops == [] ||
    (&& NeverAdjustsBelowReserved(Front(ops))
     && !AdjustsBelowReserved(Run(EmptyShelf, Front(ops)), Last(ops)))
  }

  lemma BoundedStep(sh: Shelf, op: StockOp)
    requires Agree(sh) && OneRow(sh) && ValidOp(op) && !Splits(sh, op) && Bounded(sh)
    ensures Bounded(Step(sh, op)) <==> !AdjustsBelowReserved(sh, op)
  {
    if op.Deduct? {
      DrainSum(sh.batches, op.quantity);
    }
  }

  /**
    Whatever is released, sold or returned, 0 <= reserved <= on hand holds at every point of
    a run exactly when no correction of the run goes below the reserved quantity.
   */
  lemma {:induction false} BoundedIff(ops: seq<StockOp>)
    requires AllValid(ops) && NeverSplits(ops)
    ensures AlwaysBounded(ops) <==> NeverAdjustsBelowReserved(ops)
  {
    if ops != [] {
      BoundedIff(Front(ops));
      if AlwaysBounded(Front(ops)) {
        ViewsAgree(Front(ops));
        BoundedStep(Run(EmptyShelf, Front(ops)), Last(ops));
      }
    }
  }

  // ------------------------------------------------- piece goods

  const UNIT := 1000

  predicate WholeQty(q: int) { q % UNIT == 0 }

  ghost predicate Whole(sh: Shelf) {
    && (forall i :: 0 <= i < |sh.batches| ==> WholeQty(sh.batches[i].quantity) && WholeQty(sh.batches[i].initial))
    && (sh.own.Some? ==> WholeQty(sh.own.value.onHand) && WholeQty(sh.own.value.reserved))
    && (sh.stray.Some? ==> WholeQty(sh.stray.value.onHand) && WholeQty(sh.stray.value.reserved))
    && (forall i :: 0 <= i < |sh.log| ==> WholeQty(sh.log[i].quantity) && WholeQty(sh.log[i].after))
  }

  ghost predicate WholeBatches(bs: seq<Batch>) {
    forall i :: 0 <= i < |bs| ==> WholeQty(bs[i].quantity) && WholeQty(bs[i].initial)
  }

  lemma {:induction false} DrainWhole(bs: seq<Batch>, q: int)
    requires WholeBatches(bs) && WholeQty(q)
    ensures WholeBatches(Drain(bs, q).batches)
  {
    if bs != [] && q > 0 {
      var deduct := if bs[0].quantity <= 0 then 0 else Min(bs[0].quantity, q);
      DrainWhole(bs[1..], q - deduct);
    }
  }

  lemma WholeAfter(sh: Shelf, next: Shelf, m: Movement)
    requires Whole(sh) && WholeBatches(next.batches) && next.log == sh.log + [m]
    requires WholeQty(m.quantity) && WholeQty(m.after)
    requires next.own.Some? ==> WholeQty(next.own.value.onHand) && WholeQty(next.own.value.reserved)
    requires next.stray.Some? ==> WholeQty(next.stray.value.onHand) && WholeQty(next.stray.value.reserved)
    ensures Whole(next)
  {
  }

  lemma WholeBatchesAppend(sh: Shelf, q: int)
    requires WholeBatches(sh.batches) && WholeQty(q)
    ensures WholeBatches(sh.batches + [NewBatch(sh, q)])
  {
  }

  lemma MultipleIsWhole(k: int)
    ensures WholeQty(UNIT * k)
  {
  }

  lemma WholeArithmetic(a: int, b: int)
    requires WholeQty(a) && WholeQty(b)
    ensures WholeQty(a + b) && WholeQty(a - b) && WholeQty(-b) && WholeQty(Max(0, a - b))
  {
    var i, j := a / UNIT, b / UNIT;
    MultipleIsWhole(i + j);
    MultipleIsWhole(i - j);
    MultipleIsWhole(-j);
    assert UNIT * (i + j) == a + b && UNIT * (i - j) == a - b && UNIT * -j == -b;
  }

  lemma WholeDeduct(sh: Shelf, q: int, order: OrderId)
    requires Whole(sh) && WholeQty(q) && DeductStock(sh, q, order).Ok?
    ensures Whole(DeductStock(sh, q, order).value)
  {
    var next := DeductStock(sh, q, order).value;
    DrainWhole(sh.batches, q);
    WholeArithmetic(0, q);
    if ByProduct(sh).Some? {
      WholeArithmetic(ByProduct(sh).value.onHand, q);
      WholeArithmetic(ByProduct(sh).value.reserved, q);
    }
    WholeAfter(sh, next, next.log[|sh.log|]);
  }

  lemma WholeAdjust(sh: Shelf, q: int)
    requires Whole(sh) && WholeQty(q) && AdjustStock(sh, q).Ok?
    ensures Whole(AdjustStock(sh, q).value)
  {
    var next := AdjustStock(sh, q).value;
    var delta := q - sh.own.value.onHand;
    WholeArithmetic(q, sh.own.value.onHand);
    WholeArithmetic(0, delta);
    WholeBatchesAppend(sh, delta);
    DrainWhole(sh.batches, -delta);
    WholeAfter(sh, next, next.log[|sh.log|]);
  }

  /** Whole quantities in, whole quantities everywhere, through the loop and the clamps. */
  lemma WholeStep(sh: Shelf, op: StockOp)
    requires Whole(sh) && WholeQty(op.quantity)
    ensures Whole(Step(sh, op))
  {
    var q := op.quantity;
    if Apply(sh, op).Ok? && Step(sh, op) != sh {
      match op {
        case Deduct(_, order) => WholeDeduct(sh, q, order);
        case Adjust(_) => WholeAdjust(sh, q);
        case _ =>
          var next := Step(sh, op);
          var level := if op.Receive? then sh.own else ByProduct(sh);
          WholeBatchesAppend(sh, q);
          WholeArithmetic(0, q);
          if level.Some? {
            WholeArithmetic(level.value.onHand, q);
            WholeArithmetic(level.value.reserved, q);
          }
          WholeAfter(sh, next, next.log[|sh.log|]);
      }
    }
  }

  lemma {:induction false} WholeRun(sh: Shelf, ops: seq<StockOp>)
    requires Whole(sh) && forall k :: 0 <= k < |ops| ==> WholeQty(ops[k].quantity)
    ensures Whole(Run(sh, ops))
  {
    if ops != [] {
      WholeRun(sh, ops[..|ops| - 1]);
      WholeStep(Run(sh, ops[..|ops| - 1]), ops[|ops| - 1]);
    }
  }
}
