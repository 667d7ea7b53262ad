/**
  Debts and their instalments over whole runs.

  Stored amounts are whole cents; an instalment may be any real amount from one cent up, and
  each of the columns it changes is rounded on its own.
 */
module Debts {
  import opened Wrappers
  import opened Stock
  import opened Pricing
  import opened Shop
  import opened Lifecycle

  function RepaidOn(rows: seq<Instalment>, id: DebtId): int {
    if rows == [] then 0 else RepaidOn(Front(rows), id) + if Last(rows).debt == id then Last(rows).amount else 0
  }

  function CountOn(rows: seq<Instalment>, id: DebtId): nat {
    if rows == [] then 0 else CountOn(Front(rows), id) + if Last(rows).debt == id then 1 else 0
  }

  predicate IsHalfCent(amount: real) {
    amount - amount.Floor as real == 0.5
  }

  // ------------------------------------------------- one instalment

  lemma FloorIs(x: real, k: int)
    requires k as real <= x < k as real + 1.0
    ensures x.Floor == k
  {
  }

  /** Rounding an amount and its negation cancels out, except for a half cent. */
  lemma HalfCentRoundsUpTwice(amount: real)
    ensures Cents(amount) + Cents(-amount) == if IsHalfCent(amount) then 1 else 0
  {
    var n := amount.Floor;
    var fraction := amount - n as real;
    if fraction < 0.5 {
      FloorIs(amount + 0.5, n);
      FloorIs(-amount + 0.5, -n);
    } else if fraction == 0.5 {
      FloorIs(amount + 0.5, n + 1);
      FloorIs(-amount + 0.5, -n);
    } else {
      FloorIs(amount + 0.5, n + 1);
      FloorIs(-amount + 0.5, -n - 1);
    }
  }

  /** Rounding both columns keeps their sum, except that a half cent is counted twice. */
  lemma {:induction false} RepayDrift(paid: int, remaining: int, amount: real)
    ensures Cents(paid as real + amount) == paid + Cents(amount)
    ensures Cents(paid as real + amount) + Cents(remaining as real - amount)
            == paid + remaining + if IsHalfCent(amount) then 1 else 0
  {
    CentsOntoWhole(paid, amount);
    CentsOntoWhole(remaining, -amount);
    HalfCentRoundsUpTwice(amount);
  }

  predicate Accepts(db: Db, req: Request, id: DebtId) {
    req.Repaying? && req.debt == id && RepayDebt(db, req.shop, id, req.amount).Ok?
  }

  /** Only an accepted instalment changes a debt row, and never what it is a debt for. */
  lemma DebtRowStep(cat: Catalog, db: Db, req: Request, id: DebtId)
    requires id < |db.debts|
    ensures id < |Next(cat, db, req).debts|
    ensures var before, after := db.debts[id], Next(cat, db, req).debts[id];
            && after.order == before.order && after.total == before.total
            && after.shop == before.shop && after.customer == before.customer
            && (!Accepts(db, req, id) ==> after == before)
  {
  }

  lemma InstalmentStep(cat: Catalog, db: Db, req: Request, id: DebtId)
    requires id < |db.debts|
    ensures Next(cat, db, req).instalments == db.instalments ||
            exists r :: Next(cat, db, req).instalments == db.instalments + [r] &&
                        req.Repaying? && r == Instalment(req.debt, Cents(req.amount))
    ensures Accepts(db, req, id) <==>
            req.Repaying? && req.debt == id && Next(cat, db, req).instalments != db.instalments
  {
  }

  lemma RepaidAppend(rows: seq<Instalment>, r: Instalment, id: DebtId)
    ensures RepaidOn(rows + [r], id) == RepaidOn(rows, id) + if r.debt == id then r.amount else 0
    ensures CountOn(rows + [r], id) == CountOn(rows, id) + if r.debt == id then 1 else 0
  {
    assert Front(rows + [r]) == rows;
  }

  /** What a step does to the instalments of an existing debt. */
  lemma DebtStep(cat: Catalog, db: Db, req: Request, id: DebtId)
    requires id < |db.debts|
    ensures RepaidOn(Next(cat, db, req).instalments, id) ==
            RepaidOn(db.instalments, id) + if Accepts(db, req, id) then Cents(req.amount) else 0
    ensures CountOn(Next(cat, db, req).instalments, id) ==
            CountOn(db.instalments, id) + if Accepts(db, req, id) then 1 else 0
  {
    InstalmentStep(cat, db, req, id);
    if Next(cat, db, req).instalments != db.instalments {
      RepaidAppend(db.instalments, Instalment(req.debt, Cents(req.amount)), id);
    }
  }

  // ------------------------------------------------- the books of a debt

  /**
    The row of a debt against its instalments; `half` counts the accepted instalments whose
    amount has exactly half a cent.
   */
  ghost predicate Books(debt: Debt, repaid: int, count: nat, half: nat) {
    && debt.paid == repaid
    && debt.paid + debt.remaining == debt.total + half
    && debt.total > 0 && debt.remaining >= 0
    && count <= debt.paid
    && (debt.status.DebtPending? <==> count == 0)
    && (count == 0 ==> debt.paid == 0 && half == 0)
    && (debt.status.DebtPaid? ==> debt.remaining == 0)
  }

  function HalfCents(cat: Catalog, reqs: seq<Request>, id: DebtId): nat {
    if reqs == [] then 0
    else
      HalfCents(cat, Front(reqs), id) +
      if Accepts(Exec(cat, Front(reqs)), Last(reqs), id) && IsHalfCent(Last(reqs).amount) then 1 else 0
  }

  /** An accepted instalment, booked. */
  lemma BooksRepay(db: Db, shop: ShopId, id: DebtId, amount: real, repaid: int, count: nat, half: nat)
    requires amount >= 1.0 && RepayDebt(db, shop, id, amount).Ok?
    requires Books(db.debts[id], repaid, count, half)
    ensures Books(RepayDebt(db, shop, id, amount).value.debts[id], repaid + Cents(amount), count + 1,
                  half + if IsHalfCent(amount) then 1 else 0)
  {
    RepayDrift(db.debts[id].paid, db.debts[id].remaining, amount);
    CentsBounds(amount);
    CentsBounds(db.debts[id].remaining as real - amount);
  }

  lemma BooksStep(cat: Catalog, db: Db, req: Request, id: DebtId, half: nat)
    requires id < |db.debts| && ValidRequest(req)
    requires Books(db.debts[id], RepaidOn(db.instalments, id), CountOn(db.instalments, id), half)
    ensures var next := Next(cat, db, req);
            && id < |next.debts|
            && Books(next.debts[id], RepaidOn(next.instalments, id), CountOn(next.instalments, id),
                     half + if Accepts(db, req, id) && IsHalfCent(req.amount) then 1 else 0)
  {
    DebtRowStep(cat, db, req, id);
    DebtStep(cat, db, req, id);
    if Accepts(db, req, id) {
      BooksRepay(db, req.shop, id, req.amount, RepaidOn(db.instalments, id), CountOn(db.instalments, id), half);
    }
  }

  ghost predicate InstalmentsKnown(db: Db) {
    forall i :: 0 <= i < |db.instalments| ==> db.instalments[i].debt < |db.debts|
  }

  lemma {:induction false} NothingOnUnknown(rows: seq<Instalment>, id: DebtId)
    requires forall i :: 0 <= i < |rows| ==> rows[i].debt != id
    ensures RepaidOn(rows, id) == 0 && CountOn(rows, id) == 0
  {
    if rows != [] {
      NothingOnUnknown(Front(rows), id);
    }
  }

  lemma InstalmentsKnownStep(cat: Catalog, db: Db, req: Request)
    requires InstalmentsKnown(db)
    ensures InstalmentsKnown(Next(cat, db, req))
  {
  }

  lemma NewDebtBooks(cat: Catalog, db: Db, req: Request, id: DebtId)
    requires InstalmentsKnown(db) && id >= |db.debts| && id < |Next(cat, db, req).debts|
    ensures !Accepts(db, req, id)
    ensures var next := Next(cat, db, req);
            && id == |db.debts| && next.instalments == db.instalments
            && next.debts[id].remaining == next.debts[id].total > 0
            && next.debts[id].paid == 0 && next.debts[id].status.DebtPending?
  {
  }

  lemma {:induction false} KnownRun(cat: Catalog, reqs: seq<Request>)
    ensures InstalmentsKnown(Exec(cat, reqs))
  {
    if reqs != [] {
      KnownRun(cat, Front(reqs));
      InstalmentsKnownStep(cat, Exec(cat, Front(reqs)), Last(reqs));
    }
  }

  lemma {:induction false} HalfCentsOfMissing(cat: Catalog, reqs: seq<Request>, id: DebtId)
    requires id >= |Exec(cat, reqs).debts|
    ensures HalfCents(cat, reqs, id) == 0
  {
    if reqs != [] {
      DebtRowsStep(cat, Exec(cat, Front(reqs)), Last(reqs));
      HalfCentsOfMissing(cat, Front(reqs), id);
    }
  }

  /**
    Debt conservation on every run, whatever the amounts: paid is the sum of the instalments,
    and paid + remaining exceeds the debt by exactly the number of half-cent instalments.
   */
  lemma {:induction false} DebtConservation(cat: Catalog, reqs: seq<Request>, id: DebtId)
    requires ValidRun(reqs) && id < |Exec(cat, reqs).debts|
    ensures var db := Exec(cat, reqs);
            Books(db.debts[id], RepaidOn(db.instalments, id), CountOn(db.instalments, id), HalfCents(cat, reqs, id))
  {
    var db := Exec(cat, Front(reqs));
    KnownRun(cat, Front(reqs));
    if id < |db.debts| {
      DebtConservation(cat, Front(reqs), id);
      BooksStep(cat, db, Last(reqs), id, HalfCents(cat, Front(reqs), id));
    } else {
      NewDebtBooks(cat, db, Last(reqs), id);
      HalfCentsOfMissing(cat, Front(reqs), id);
      NothingOnUnknown(db.instalments, id);
    }
  }

  // ------------------------------------------------- instalments of whole cents

  /** Every instalment accepted on the debt is a number of whole cents. */
  ghost predicate WholeCentsOn(cat: Catalog, reqs: seq<Request>, id: DebtId) {
    reqs == [] ||
    (&& WholeCentsOn(cat, Front(reqs), id)
     && (Accepts(Exec(cat, Front(reqs)), Last(reqs), id) ==> CentExact(Last(reqs).amount)))
  }

  lemma {:induction false} NoHalfCents(cat: Catalog, reqs: seq<Request>, id: DebtId)
    requires WholeCentsOn(cat, reqs, id)
    ensures HalfCents(cat, reqs, id) == 0
  {
    if reqs != [] {
      NoHalfCents(cat, Front(reqs), id);
    }
  }

  /** The status says exactly how much is paid. */
  ghost predicate StatusTells(debt: Debt) {
    && (debt.status.DebtPending? <==> debt.paid == 0)
    && (debt.status.DebtPaid? <==> debt.paid == debt.total)
    && (debt.status.DebtPartial? <==> 0 < debt.paid < debt.total)
  }

  lemma PaidWhenNothingRemains(cat: Catalog, db: Db, req: Request, id: DebtId)
    requires id < |db.debts| && (db.debts[id].remaining == 0 ==> db.debts[id].status.DebtPaid?)
    requires Accepts(db, req, id) ==> CentExact(req.amount)
    ensures Next(cat, db, req).debts[id].remaining == 0 ==> Next(cat, db, req).debts[id].status.DebtPaid?
  {
    DebtRowStep(cat, db, req, id);
    if Accepts(db, req, id) {
      CentsOfExact(req.amount);
      CentsOntoWhole(db.debts[id].remaining - Cents(req.amount), 0.0);
    }
  }

  lemma {:induction false} RemainderTells(cat: Catalog, reqs: seq<Request>, id: DebtId)
    requires ValidRun(reqs) && WholeCentsOn(cat, reqs, id) && id < |Exec(cat, reqs).debts|
    ensures Exec(cat, reqs).debts[id].remaining == 0 ==> Exec(cat, reqs).debts[id].status.DebtPaid?
  {
    var db := Exec(cat, Front(reqs));
    if id < |db.debts| {
      RemainderTells(cat, Front(reqs), id);
      PaidWhenNothingRemains(cat, db, Last(reqs), id);
    } else {
      KnownRun(cat, Front(reqs));
      NewDebtBooks(cat, db, Last(reqs), id);
    }
  }

  /**
    If the instalments accepted on a debt are whole cents: paid + remaining is the debt and the order's `notPaid`,
    the status tells how much is paid, and no debt takes more instalments than its cents.
   */
  lemma {:induction false} WholeCentDebts(cat: Catalog, reqs: seq<Request>, id: DebtId)
    requires ValidRun(reqs) && WholeCentsOn(cat, reqs, id) && id < |Exec(cat, reqs).debts|
    ensures var db := Exec(cat, reqs);
            var debt := db.debts[id];
            && Exists(db, debt.order)
            && debt.paid + debt.remaining == debt.total == db.orders[debt.order].notPaid
            && debt.paid == RepaidOn(db.instalments, id)
            && StatusTells(debt)
            && CountOn(db.instalments, id) <= debt.total
  {
    DebtConservation(cat, reqs, id);
    NoHalfCents(cat, reqs, id);
    RemainderTells(cat, reqs, id);
    DebtsOfOrdersRun(cat, reqs);
  }

  /** An instalment that leaves less than half a cent strands the debt: nothing is owed, not PAID. */
  lemma StrandedIff(db: Db, shop: ShopId, id: DebtId, amount: real)
    requires RepayDebt(db, shop, id, amount).Ok?
    ensures var left := db.debts[id].remaining as real - amount;
            var debt := RepayDebt(db, shop, id, amount).value.debts[id];
            && (debt.remaining == 0 && !debt.status.DebtPaid? <==> 0.0 < left < 0.5)
            && (debt.remaining == 0 ==>
                  forall more: real :: more >= 1.0 ==>
                    RepayDebt(RepayDebt(db, shop, id, amount).value, shop, id, more).Err?)
  {
    CentsBounds(db.debts[id].remaining as real - amount);
  }

  // ------------------------------------------------- debts and orders

  /** Each debt is that of its order, and each order not fully paid has one with its customer. */
  ghost predicate DebtsOfOrders(db: Db) {
    && (forall i :: 0 <= i < |db.debts| ==>
          && Exists(db, db.debts[i].order)
          && db.debts[i].total == db.orders[db.debts[i].order].notPaid
          && db.debts[i].shop == db.orders[db.debts[i].order].shop
          && Some(db.debts[i].customer) == db.orders[db.debts[i].order].customer
          && (db.debts[i].status.DebtPaid? ==> Settled(db.orders[db.debts[i].order].status)))
    && (forall id :: 0 <= id < |db.orders| ==>
          && db.orders[id].notPaid >= 0
          && (db.orders[id].notPaid > 0 ==>
                exists i :: 0 <= i < |db.debts| && IsDebtOf(db.debts[i], id)))
  }

  /** A step changes nothing of an existing order but its status and its deduction flag. */
  lemma OrderRowStep(cat: Catalog, db: Db, req: Request, id: OrderId)
    requires Exists(db, id)
    ensures Exists(Next(cat, db, req), id)
    ensures var before, after := db.orders[id], Next(cat, db, req).orders[id];
            after == before.(status := after.status, stockDeducted := after.stockDeducted)
  {
  }

  lemma DebtKeepsOrder(cat: Catalog, db: Db, req: Request, i: DebtId)
    requires DebtsOfOrders(db) && i < |db.debts|
    ensures var next := Next(cat, db, req);
            && i < |next.debts| && Exists(next, next.debts[i].order)
            && next.debts[i].total == next.orders[next.debts[i].order].notPaid
            && next.debts[i].shop == next.orders[next.debts[i].order].shop
            && Some(next.debts[i].customer) == next.orders[next.debts[i].order].customer
            && (next.debts[i].status.DebtPaid? ==> Settled(next.orders[next.debts[i].order].status))
  {
    DebtRowStep(cat, db, req, i);
    OrderRowStep(cat, db, req, db.debts[i].order);
    StatusStep(cat, db, req, db.debts[i].order);
  }

  lemma NewOrderMoney(cat: Catalog, db: Db, req: Request, id: OrderId)
    requires !Exists(db, id) && Exists(Next(cat, db, req), id)
    ensures var next := Next(cat, db, req);
            && id == |db.orders| && next.orders[id].notPaid >= 0
            && req.Ordering? && next.orders[id] == NewOrder(req.shop, req.dto) && CheckPayment(req.dto).Ok?
            && next.debts == db.debts + DebtsFromOrder(next.orders[id], id)
            && (next.orders[id].notPaid > 0 ==> next.orders[id].customer.Some?)
  {
    PaidWhenUnderHalfCent(DtoTotal(req.dto), req.dto.cash, req.dto.card);
  }

  lemma OrderKeepsDebt(cat: Catalog, db: Db, req: Request, id: OrderId)
    requires DebtsOfOrders(db) && Exists(Next(cat, db, req), id)
    ensures var next := Next(cat, db, req);
            next.orders[id].notPaid >= 0 &&
            (next.orders[id].notPaid > 0 ==>
              exists i :: 0 <= i < |next.debts| && IsDebtOf(next.debts[i], id))
  {
    var next := Next(cat, db, req);
    if Exists(db, id) {
      OrderRowStep(cat, db, req, id);
      if db.orders[id].notPaid > 0 {
        var i: nat :| i < |db.debts| && IsDebtOf(db.debts[i], id);
        DebtRowStep(cat, db, req, i);
        assert IsDebtOf(next.debts[i], id);
      }
    } else {
      NewOrderMoney(cat, db, req, id);
      if next.orders[id].notPaid > 0 {
        assert IsDebtOf(next.debts[|db.debts|], id);
      }
    }
  }

  lemma DebtsOfOrdersStep(cat: Catalog, db: Db, req: Request)
    requires DebtsOfOrders(db)
    ensures DebtsOfOrders(Next(cat, db, req))
  {
    var next := Next(cat, db, req);
    forall i: nat | i < |next.debts|
      ensures Exists(next, next.debts[i].order)
      ensures next.debts[i].total == next.orders[next.debts[i].order].notPaid
      ensures next.debts[i].shop == next.orders[next.debts[i].order].shop
      ensures Some(next.debts[i].customer) == next.orders[next.debts[i].order].customer
      ensures next.debts[i].status.DebtPaid? ==> Settled(next.orders[next.debts[i].order].status)
    {
      if i < |db.debts| {
        DebtKeepsOrder(cat, db, req, i);
      } else {
        DebtRowsStep(cat, db, req);
        NewOrderMoney(cat, db, req, |db.orders|);
      }
    }
    forall id: nat | id < |next.orders|
      ensures next.orders[id].notPaid >= 0
      ensures next.orders[id].notPaid > 0 ==>
                exists i :: 0 <= i < |next.debts| && IsDebtOf(next.debts[i], id)
    {
      OrderKeepsDebt(cat, db, req, id);
    }
  }

  /** A PAID debt means a settled order, and an order has a debt exactly if it was not paid up. */
  lemma {:induction false} DebtsOfOrdersRun(cat: Catalog, reqs: seq<Request>)
    ensures DebtsOfOrders(Exec(cat, reqs)) && Linked(Exec(cat, reqs))
  {
    LinkedRun(cat, reqs);
    if reqs != [] {
      DebtsOfOrdersRun(cat, Front(reqs));
      DebtsOfOrdersStep(cat, Exec(cat, Front(reqs)), Last(reqs));
    }
  }

  /** PAID is final: no later request of the run changes anything about the debt. */
  lemma {:induction false} PaidDebtIsFinal(cat: Catalog, reqs: seq<Request>, k: nat, id: DebtId)
    requires k <= |reqs| && id < |Exec(cat, reqs[..k]).debts|
    requires Exec(cat, reqs[..k]).debts[id].status.DebtPaid?
    ensures id < |Exec(cat, reqs).debts| && Exec(cat, reqs).debts[id] == Exec(cat, reqs[..k]).debts[id]
  {
    if k == |reqs| {
      assert reqs[..k] == reqs;
    } else {
      assert Front(reqs)[..k] == reqs[..k];
      PaidDebtIsFinal(cat, Front(reqs), k, id);
      DebtPaidStays(cat, Exec(cat, Front(reqs)), Last(reqs), id);
    }
  }
}
