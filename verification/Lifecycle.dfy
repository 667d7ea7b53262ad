/**
  The life of an order over whole runs: its status, its payment, its returns, and how often
  the stock job deducts it.
 */
module Lifecycle {
  import opened Wrappers
  import opened Stock
  import opened StockTasks
  import opened Pricing
  import opened Shop
  import opened ShopStock

  // ------------------------------------------------- status

  predicate Exists(db: Db, id: OrderId) {
    id < |db.orders|
  }

  predicate Settled(status: OrderStatus) {
    status.Paid? || status.Refunded?
  }

  /** What a step may do to the status of an order that exists. */
  lemma StatusStep(cat: Catalog, db: Db, req: Request, id: OrderId)
    requires Exists(db, id)
    ensures var next := Next(cat, db, req);
            && Exists(next, id)
            && (next.orders[id].status.Confirmed? ==> db.orders[id].status.Confirmed?)
            && (Settled(db.orders[id].status) ==> Settled(next.orders[id].status))
            && next.orders[id].notPaid == db.orders[id].notPaid
            && (db.orders[id].stockDeducted ==> next.orders[id].stockDeducted)
  {
  }

  /** Along a run CONFIRMED is never re-entered and {PAID, REFUNDED} is never left. */
  lemma {:induction false} StatusAlongRun(cat: Catalog, reqs: seq<Request>, k: nat, id: OrderId)
    requires k <= |reqs| && Exists(Exec(cat, reqs[..k]), id)
    ensures var before, after := Exec(cat, reqs[..k]), Exec(cat, reqs);
            && Exists(after, id)
            && (after.orders[id].status.Confirmed? ==> before.orders[id].status.Confirmed?)
            && (Settled(before.orders[id].status) ==> Settled(after.orders[id].status))
            && (before.orders[id].stockDeducted ==> after.orders[id].stockDeducted)
            && after.orders[id].items == before.orders[id].items
  {
    if k == |reqs| {
      assert reqs[..k] == reqs;
    } else {
      assert Front(reqs)[..k] == reqs[..k];
      StatusAlongRun(cat, Front(reqs), k, id);
      StatusStep(cat, Exec(cat, Front(reqs)), Last(reqs), id);
      NextKeepsLines(cat, Exec(cat, Front(reqs)), Last(reqs));
    }
  }

  /** The request marks the order paid, by `markPaid` or through `process`. */
  predicate PaysOrder(cat: Catalog, db: Db, req: Request, id: OrderId) {
    || (req.MarkingPaid? && req.order == id && MarkPaid(db, req.shop, id).Ok?)
    || (req.Paying? && req.order == id && ProcessPayment(db, req.shop, id, req.byCash, req.tendered).0.Ok?)
  }

  function PaidMarks(cat: Catalog, reqs: seq<Request>, id: OrderId): nat {
    if reqs == [] then 0
    else PaidMarks(cat, Front(reqs), id) + if PaysOrder(cat, Exec(cat, Front(reqs)), Last(reqs), id) then 1 else 0
  }

  /** Each order is marked paid at most once, and never while it is still CONFIRMED. */
  lemma {:induction false} MarkedPaidOnce(cat: Catalog, reqs: seq<Request>, id: OrderId)
    ensures var db := Exec(cat, reqs);
            PaidMarks(cat, reqs, id) <= if Exists(db, id) && !db.orders[id].status.Confirmed? then 1 else 0
  {
    if reqs != [] {
      var db := Exec(cat, Front(reqs));
      MarkedPaidOnce(cat, Front(reqs), id);
      if Exists(db, id) {
        StatusStep(cat, db, Last(reqs), id);
        if PaysOrder(cat, db, Last(reqs), id) {
          PaysOnlyConfirmed(cat, db, Last(reqs), id);
        }
      }
    }
  }

  /** Marking paid is open exactly to CONFIRMED orders of the shop; paying also asks enough cash. */
  lemma PaysIff(cat: Catalog, db: Db, req: Request, id: OrderId)
    ensures PaysOrder(cat, db, req, id) <==>
            && (req.MarkingPaid? || req.Paying?) && req.order == id
            && Exists(db, id) && db.orders[id].shop == req.shop && db.orders[id].status.Confirmed?
            && (req.Paying? && req.byCash && req.tendered.Some? ==> req.tendered.value >= db.orders[id].total as real)
  {
  }

  lemma PaysOnlyConfirmed(cat: Catalog, db: Db, req: Request, id: OrderId)
    requires Exists(db, id) && PaysOrder(cat, db, req, id)
    ensures db.orders[id].status.Confirmed? && Next(cat, db, req).orders[id].status.Paid?
  {
  }

  /** Cancelling is open to every order but a settled one, and shuts payment and return. */
  lemma CancelShutsTheOrder(cat: Catalog, db: Db, shop: ShopId, id: OrderId)
    ensures CancelOrder(db, shop, id).Ok? <==>
              Exists(db, id) && db.orders[id].shop == shop && !Settled(db.orders[id].status)
    ensures CancelOrder(db, shop, id) == Err(NotFound) <==> !(Exists(db, id) && db.orders[id].shop == shop)
    ensures CancelOrder(db, shop, id).Ok? ==>
              var next := CancelOrder(db, shop, id).value;
              && Shop.MarkPaid(next, shop, id).Err?
              && (forall byCash, tendered :: ProcessPayment(next, shop, id, byCash, tendered) == (Err(BadRequest), next))
              && (forall items :: Shop.ReturnOrder(cat, next, shop, id, items).Err?)
              && CancelOrder(next, shop, id).Ok?
  {
    if FindOrder(db, id, shop).Some? {
      ReleaseNeverFails(db.shelves, db.orders[id].items);
      if CancelOrder(db, shop, id).Ok? {
        ReleaseNeverFails(CancelOrder(db, shop, id).value.shelves, db.orders[id].items);
      }
    }
  }

  lemma {:induction false} ReleaseNeverFails(s: Shelves, items: seq<Item>)
    ensures ApplyAll(s, ReleaseTasks(items)).Ok?
  {
    if items != [] {
      assert Front(ReleaseTasks(items)) == ReleaseTasks(Front(items));
      ReleaseNeverFails(s, Front(items));
    }
  }

  lemma {:induction false} ReturnNeverFails(s: Shelves, items: seq<Item>, id: OrderId)
    ensures ApplyAll(s, ReturnTasks(items, id)).Ok?
  {
    if items != [] {
      assert Front(ReturnTasks(items, id)) == ReturnTasks(Front(items), id);
      ReturnNeverFails(s, Front(items), id);
    }
  }

  /** Line `k` is the first line of the order for the product. */
  ghost predicate FirstLine(items: seq<Item>, p: ProductId, k: nat) {
    k < |items| && items[k].product == p && forall j :: 0 <= j < k ==> items[j].product != p
  }

  lemma {:induction false} FirstItemIsFirst(items: seq<Item>, p: ProductId)
    ensures FirstItem(items, p).None? <==> !Mentions(items, p)
    ensures FirstItem(items, p).Some? ==>
              exists k: nat :: FirstLine(items, p, k) && FirstItem(items, p).value == items[k]
  {
    if items != [] {
      if items[0].product == p {
        assert FirstLine(items, p, 0);
      } else {
        FirstItemIsFirst(items[1..], p);
        if FirstItem(items, p).Some? {
          var k: nat :| FirstLine(items[1..], p, k) && FirstItem(items[1..], p).value == items[1..][k];
          assert FirstLine(items, p, k + 1);
        }
      }
    }
  }

  /** The line may come back: the order's first line of the product covers it, and the unit fits. */
  ghost predicate Returnable(cat: Catalog, shop: ShopId, ordered: seq<Item>, item: Item) {
    && (exists k: nat :: FirstLine(ordered, item.product, k) && item.quantity <= ordered[k].quantity)
    && UnitFits(cat, shop, item.product, item.quantity)
  }

  lemma ReturnableIff(cat: Catalog, shop: ShopId, order: Order, item: Item)
    ensures CheckReturn(cat, shop, order, item).Ok? <==> Returnable(cat, shop, order.items, item)
  {
    var found := FirstItem(order.items, item.product);
    FirstItemIsFirst(order.items, item.product);
    ChecksPassIff(cat, shop, LineDto(item.product, item.quantity, 0, 0, true));
    if found.Some? {
      var k: nat :| FirstLine(order.items, item.product, k) && found.value == order.items[k];
      forall j: nat | FirstLine(order.items, item.product, j) ensures j == k {
        assert !(j < k) && !(k < j);
      }
    }
  }

  /** A return is accepted exactly for a paid order and lines within what its first line ordered. */
  lemma ReturnAcceptedIff(cat: Catalog, db: Db, shop: ShopId, id: OrderId, items: seq<Item>)
    ensures ReturnOrder(cat, db, shop, id, items).Ok? <==>
            && Exists(db, id) && db.orders[id].shop == shop && db.orders[id].status.Paid?
            && (forall i :: 0 <= i < |items| ==> Returnable(cat, shop, db.orders[id].items, items[i]))
  {
    if Exists(db, id) && db.orders[id].shop == shop {
      CheckReturnsAll(cat, shop, db.orders[id], items);
      ReturnNeverFails(db.shelves, items, id);
      forall i | 0 <= i < |items|
        ensures CheckReturn(cat, shop, db.orders[id], items[i]).Ok? <==>
                Returnable(cat, shop, db.orders[id].items, items[i])
      {
        ReturnableIff(cat, shop, db.orders[id], items[i]);
      }
    }
  }

  // ------------------------------------------------- debts of orders

  predicate IsDebtOf(debt: Debt, id: OrderId) {
    debt.order == id
  }

  /** Debts point to existing orders, at most one to each, and only to orders not fully paid. */
  ghost predicate Linked(db: Db) {
    && (forall i :: 0 <= i < |db.debts| ==>
          Exists(db, db.debts[i].order) && db.orders[db.debts[i].order].notPaid > 0)
    && (forall i, j :: 0 <= i < j < |db.debts| ==> db.debts[i].order != db.debts[j].order)
  }

  ghost predicate OpenDebt(db: Db, id: OrderId) {
    exists i :: 0 <= i < |db.debts| && IsDebtOf(db.debts[i], id) && !db.debts[i].status.DebtPaid?
  }

  /** What a step must keep of the rows for debts and orders to stay linked. */
  ghost predicate KeepsLinks(db: Db, next: Db) {
    && (forall id: OrderId :: Exists(db, id) ==> Exists(next, id) && next.orders[id].notPaid == db.orders[id].notPaid)
    && |db.debts| <= |next.debts| <= |db.debts| + 1
    && (forall i :: 0 <= i < |db.debts| ==> next.debts[i].order == db.debts[i].order)
    && (|next.debts| > |db.debts| ==>
          && |next.orders| == |db.orders| + 1
          && next.debts[|db.debts|].order == |db.orders|
          && next.orders[|db.orders|].notPaid > 0)
  }

  lemma LinksKept(db: Db, next: Db)
    requires Linked(db) && KeepsLinks(db, next)
    ensures Linked(next)
  {
  }

  lemma LinkedStep(cat: Catalog, db: Db, req: Request)
    requires Linked(db)
    ensures Linked(Next(cat, db, req))
  {
    forall id: OrderId | Exists(db, id)
      ensures Exists(Next(cat, db, req), id)
      ensures Next(cat, db, req).orders[id].notPaid == db.orders[id].notPaid
    {
      StatusStep(cat, db, req, id);
    }
    DebtRowsStep(cat, db, req);
    LinksKept(db, Next(cat, db, req));
  }

  /** A step keeps the order of every debt row, and a new debt is that of a new order. */
  lemma DebtRowsStep(cat: Catalog, db: Db, req: Request)
    ensures var next := Next(cat, db, req);
            && |db.debts| <= |next.debts| <= |db.debts| + 1
            && (forall i :: 0 <= i < |db.debts| ==> next.debts[i].order == db.debts[i].order)
            && (|next.debts| > |db.debts| ==>
                  && |next.orders| == |db.orders| + 1
                  && next.debts[|db.debts|].order == |db.orders|
                  && next.orders[|db.orders|].notPaid > 0)
  {
  }

  lemma {:induction false} LinkedRun(cat: Catalog, reqs: seq<Request>)
    ensures Linked(Exec(cat, reqs))
  {
    if reqs != [] {
      LinkedRun(cat, Front(reqs));
      LinkedStep(cat, Exec(cat, Front(reqs)), Last(reqs));
    }
  }

  // ------------------------------------------------- returns

  predicate ReturnsOrder(cat: Catalog, db: Db, req: Request, id: OrderId) {
    req.Returning? && req.order == id && ReturnOrder(cat, db, req.shop, id, req.items).Ok?
  }

  function Returns(cat: Catalog, reqs: seq<Request>, id: OrderId): nat {
    if reqs == [] then 0
    else Returns(cat, Front(reqs), id) + if ReturnsOrder(cat, Exec(cat, Front(reqs)), Last(reqs), id) then 1 else 0
  }

  /** How many returns an order can still see. */
  ghost function ReturnsLeft(db: Db, id: OrderId): nat {
    (if Exists(db, id) && !db.orders[id].status.Refunded? then 1 else 0) + (if OpenDebt(db, id) then 1 else 0)
  }

  function HasDebt(db: Db, id: OrderId): nat {
    if Exists(db, id) && db.orders[id].notPaid > 0 then 1 else 0
  }

  lemma OpenDebtStep(cat: Catalog, db: Db, req: Request, id: OrderId)
    requires Linked(db) && Exists(db, id)
    ensures OpenDebt(Next(cat, db, req), id) ==> OpenDebt(db, id)
    ensures Next(cat, db, req).orders[id].status.Refunded? || !db.orders[id].status.Refunded? ||
            (OpenDebt(db, id) && !OpenDebt(Next(cat, db, req), id))
  {
    var next := Next(cat, db, req);
    DebtRowsStep(cat, db, req);
    if OpenDebt(next, id) {
      var i :| 0 <= i < |next.debts| && IsDebtOf(next.debts[i], id) && !next.debts[i].status.DebtPaid?;
      assert i < |db.debts|;
      if db.debts[i].status.DebtPaid? {
        DebtPaidStays(cat, db, req, i);
      }
      assert IsDebtOf(db.debts[i], id);
    }
    if db.orders[id].status.Refunded? && !next.orders[id].status.Refunded? {
      RefundedLeftByRepayment(cat, db, req, id);
    }
  }

  lemma DebtPaidStays(cat: Catalog, db: Db, req: Request, i: DebtId)
    requires i < |db.debts| && db.debts[i].status.DebtPaid?
    ensures i < |Next(cat, db, req).debts| && Next(cat, db, req).debts[i] == db.debts[i]
  {
  }

  /** Only the instalment that closes its debt takes an order out of REFUNDED. */
  lemma RefundedLeftByRepayment(cat: Catalog, db: Db, req: Request, id: OrderId)
    requires Linked(db) && Exists(db, id)
    requires db.orders[id].status.Refunded? && !Next(cat, db, req).orders[id].status.Refunded?
    ensures OpenDebt(db, id) && !OpenDebt(Next(cat, db, req), id)
  {
    var next := Next(cat, db, req);
    assert req.Repaying? && RepayDebt(db, req.shop, req.debt, req.amount).Ok?;
    assert IsDebtOf(db.debts[req.debt], id) && !db.debts[req.debt].status.DebtPaid?;
    forall i | 0 <= i < |next.debts| && i != req.debt ensures !IsDebtOf(next.debts[i], id) {
      assert next.debts[i] == db.debts[i];
    }
  }

  lemma ReturnsLeftStep(cat: Catalog, db: Db, req: Request, id: OrderId)
    requires Linked(db) && Exists(db, id)
    ensures ReturnsLeft(Next(cat, db, req), id) + (if ReturnsOrder(cat, db, req, id) then 1 else 0)
            <= ReturnsLeft(db, id)
  {
    OpenDebtStep(cat, db, req, id);
    StatusStep(cat, db, req, id);
  }

  /** The most returns an order ever sees: one, or two if it had a debt. */
  function MostReturns(db: Db, id: OrderId): nat {
    if Exists(db, id) then 1 + HasDebt(db, id) else 0
  }

  lemma ReturnsBoundStep(cat: Catalog, db: Db, req: Request, id: OrderId, n: nat)
    requires Linked(db) && n + ReturnsLeft(db, id) <= MostReturns(db, id)
    ensures n + (if ReturnsOrder(cat, db, req, id) then 1 else 0) + ReturnsLeft(Next(cat, db, req), id)
            <= MostReturns(Next(cat, db, req), id)
  {
    if Exists(db, id) {
      ReturnsLeftStep(cat, db, req, id);
      StatusStep(cat, db, req, id);
    } else {
      LinkedStep(cat, db, req);
    }
  }

  /** At most two returns succeed for an order, and at most one if it was fully paid. */
  lemma {:induction false} ReturnsBounded(cat: Catalog, reqs: seq<Request>, id: OrderId)
    ensures Returns(cat, reqs, id) + ReturnsLeft(Exec(cat, reqs), id) <= MostReturns(Exec(cat, reqs), id)
  {
    if reqs != [] {
      ReturnsBounded(cat, Front(reqs), id);
      LinkedRun(cat, Front(reqs));
      ReturnsBoundStep(cat, Exec(cat, Front(reqs)), Last(reqs), id, Returns(cat, Front(reqs), id));
    }
  }

  // ------------------------------------------------- the status, from the history

  /** An accepted instalment of all that remains on the debt of the order. */
  predicate ClosesDebtOf(db: Db, req: Request, id: OrderId) {
    && req.Repaying? && RepayDebt(db, req.shop, req.debt, req.amount).Ok?
    && IsDebtOf(db.debts[req.debt], id) && req.amount == db.debts[req.debt].remaining as real
  }

  predicate CancelsOrder(db: Db, req: Request, id: OrderId) {
    req.Cancelling? && req.order == id && CancelOrder(db, req.shop, id).Ok?
  }

  predicate CreatesOrder(cat: Catalog, db: Db, req: Request, id: OrderId) {
    req.Ordering? && id == |db.orders| && CreateOrder(cat, db, req.shop, req.dto).Ok?
  }

  /** The status after a request, from the one before and from whether the request is accepted. */
  function ToldBy(cat: Catalog, db: Db, req: Request, id: OrderId, before: Option<OrderStatus>): Option<OrderStatus> {
    if CreatesOrder(cat, db, req, id)
    then Some(if DtoTotal(req.dto) - req.dto.cash - req.dto.card < 0.5 then Paid else Confirmed)
    else if CancelsOrder(db, req, id) then Some(Cancelled)
    else if ReturnsOrder(cat, db, req, id) then Some(Refunded)
    else if PaysOrder(cat, db, req, id) || ClosesDebtOf(db, req, id) then Some(Paid)
    else before
  }

  /** The status an order has by the last accepted request that concerned it. */
  function StatusTold(cat: Catalog, reqs: seq<Request>, id: OrderId): Option<OrderStatus> {
    if reqs == [] then None
    else ToldBy(cat, Exec(cat, Front(reqs)), Last(reqs), id, StatusTold(cat, Front(reqs), id))
  }

  function StatusAt(db: Db, id: OrderId): Option<OrderStatus> {
    if Exists(db, id) then Some(db.orders[id].status) else None
  }

  lemma FoundStatus(cat: Catalog, db: Db, req: Request, id: OrderId)
    requires Exists(db, id) && (req.Cancelling? || req.MarkingPaid? || req.Returning? || req.Paying?)
    ensures StatusAt(Next(cat, db, req), id) == ToldBy(cat, db, req, id, StatusAt(db, id))
  {
  }

  lemma RepaidStatus(cat: Catalog, db: Db, req: Request, id: OrderId)
    requires Exists(db, id) && req.Repaying?
    ensures StatusAt(Next(cat, db, req), id) == ToldBy(cat, db, req, id, StatusAt(db, id))
  {
  }

  /** Exactly how a step changes the status of an order that exists. */
  lemma StatusStepExact(cat: Catalog, db: Db, req: Request, id: OrderId)
    requires Exists(db, id)
    ensures StatusAt(Next(cat, db, req), id) == ToldBy(cat, db, req, id, StatusAt(db, id))
  {
    if req.Cancelling? || req.MarkingPaid? || req.Returning? || req.Paying? {
      FoundStatus(cat, db, req, id);
    } else if req.Repaying? {
      RepaidStatus(cat, db, req, id);
    }
  }

  /** An order comes to exist by its own accepted request, with the status its payment gives it. */
  lemma CreatedStatus(cat: Catalog, db: Db, req: Request, id: OrderId)
    requires !Exists(db, id) && Linked(db)
    ensures StatusAt(Next(cat, db, req), id) == ToldBy(cat, db, req, id, None)
  {
    NextKeepsLines(cat, db, req);
    if CreatesOrder(cat, db, req, id) {
      PaidWhenUnderHalfCent(DtoTotal(req.dto), req.dto.cash, req.dto.card);
    }
  }

  /** On every run the status of an order is the one told by its history, and it has one once it exists. */
  lemma {:induction false} StatusIsTold(cat: Catalog, reqs: seq<Request>, id: OrderId)
    ensures StatusTold(cat, reqs, id) == StatusAt(Exec(cat, reqs), id)
  {
    if reqs != [] {
      var db := Exec(cat, Front(reqs));
      StatusIsTold(cat, Front(reqs), id);
      LinkedRun(cat, Front(reqs));
      if Exists(db, id) {
        StatusStepExact(cat, db, Last(reqs), id);
      } else {
        CreatedStatus(cat, db, Last(reqs), id);
      }
    }
  }
}
