/**
  The stock of all products, and the loops of the order service over order lines: each line
  becomes a task, and a list of tasks succeeds as a whole or fails as a whole.
 */
module StockTasks {
  import opened Wrappers
  import opened Fifo
  import opened Stock
  import opened StockViews

  type ProductId = nat

  type Shelves = map<ProductId, Shelf>

  datatype Item = Item(product: ProductId, quantity: int)

  datatype Task = Task(product: ProductId, op: StockOp)

  function Get(s: Shelves, p: ProductId): Shelf {
    if p in s then s[p] else EmptyShelf
  }

  function ApplyTask(s: Shelves, t: Task): Result<Shelves> {
    match Apply(Get(s, t.product), t.op)
    case Ok(shelf) => Ok(s[t.product := shelf])
    case Err(e) => Err(e)
  }

  function ApplyAll(s: Shelves, tasks: seq<Task>): Result<Shelves> {
    if tasks == [] then Ok(s)
    else
      match ApplyAll(s, tasks[..|tasks| - 1])
      case Err(e) => Err(e)
      case Ok(next) => ApplyTask(next, tasks[|tasks| - 1])
  }

  /** The operations a list of tasks performs on one product. */
  function OpsOf(tasks: seq<Task>, p: ProductId): seq<StockOp> {
    if tasks == [] then []
    else
      var last := tasks[|tasks| - 1];
      OpsOf(tasks[..|tasks| - 1], p) + if last.product == p then [last.op] else []
  }

  lemma {:induction false} ApplyAllProjects(s: Shelves, tasks: seq<Task>, p: ProductId)
    requires ApplyAll(s, tasks).Ok?
    ensures Get(ApplyAll(s, tasks).value, p) == Run(Get(s, p), OpsOf(tasks, p))
  {
    if tasks != [] {
      var front, last := tasks[..|tasks| - 1], tasks[|tasks| - 1];
      ApplyAllProjects(s, front, p);
      if last.product == p {
        var ops := OpsOf(tasks, p);
        assert ops[..|ops| - 1] == OpsOf(front, p);
      } else {
        assert OpsOf(tasks, p) == OpsOf(front, p);
      }
    }
  }

  /** What is asked of one product over all the lines, duplicates included. */
  function Demand(items: seq<Item>, p: ProductId): int {
    if items == [] then 0
    else
      var last := items[|items| - 1];
      Demand(items[..|items| - 1], p) + if last.product == p then last.quantity else 0
  }

  ghost predicate Positive(items: seq<Item>) {
    forall i :: 0 <= i < |items| ==> items[i].quantity > 0
  }

  ghost predicate Mentions(items: seq<Item>, p: ProductId) {
    exists i :: 0 <= i < |items| && items[i].product == p
  }

  lemma {:induction false} DemandPositive(items: seq<Item>, p: ProductId)
    requires Positive(items)
    ensures Demand(items, p) >= 0
    ensures Demand(items, p) > 0 <==> Mentions(items, p)
  {
    if items != [] {
      var front, last := items[..|items| - 1], items[|items| - 1];
      DemandPositive(front, p);
      if last.product == p {
        assert items[|items| - 1].product == p;
      }
      if Mentions(front, p) {
        var i :| 0 <= i < |front| && front[i].product == p;
        assert items[i].product == p;
      }
      if Mentions(items, p) && last.product != p {
        var i :| 0 <= i < |items| && items[i].product == p;
        assert front[i].product == p;
      }
    }
  }

  // ------------------------------------------------- reserving

  function ReserveTasks(items: seq<Item>): (ts: seq<Task>)
    ensures |ts| == |items|
  {
    seq(|items|, i requires 0 <= i < |items| => Task(items[i].product, Reserve(items[i].quantity)))
  }

  function Free(sh: Shelf): int {
    if ByProduct(sh).Some? then ByProduct(sh).value.onHand - ByProduct(sh).value.reserved else 0
  }

  /** The total over all lines of every product fits in what is free of it. */
  ghost predicate Fits(s: Shelves, items: seq<Item>) {
    forall p :: Mentions(items, p) ==> ByProduct(Get(s, p)).Some? && Demand(items, p) <= Free(Get(s, p))
  }

  /** `next` holds `held` more of the product than `sh`, and is otherwise the same stock. */
  ghost predicate HoldsMore(sh: Shelf, next: Shelf, held: int) {
    && next.batches == sh.batches
    && (ByProduct(sh).None? ==> next == sh && held == 0)
    && (ByProduct(sh).Some? ==>
          next.(log := sh.log) ==
          SaveByProduct(sh, ByProduct(sh).value.(reserved := ByProduct(sh).value.reserved + held)))
  }

  lemma MentionsSplit(items: seq<Item>, p: ProductId)
    requires items != []
    ensures Mentions(items, p) <==>
            Mentions(items[..|items| - 1], p) || items[|items| - 1].product == p
  {
    var front, last := items[..|items| - 1], items[|items| - 1];
    if Mentions(front, p) {
      var i :| 0 <= i < |front| && front[i].product == p;
      assert items[i].product == p;
    }
    if Mentions(items, p) {
      var i :| 0 <= i < |items| && items[i].product == p;
      assert i < |front| ==> front[i].product == p;
    }
  }

  lemma ReserveTasksFront(items: seq<Item>)
    requires items != []
    ensures ReserveTasks(items)[..|items| - 1] == ReserveTasks(items[..|items| - 1])
  {
  }

  lemma FitsFront(s: Shelves, items: seq<Item>)
    requires Positive(items) && items != [] && Fits(s, items)
    ensures Fits(s, items[..|items| - 1])
  {
    var front := items[..|items| - 1];
    forall p | Mentions(front, p)
      ensures ByProduct(Get(s, p)).Some? && Demand(front, p) <= Free(Get(s, p))
    {
      MentionsSplit(items, p);
    }
  }

  /**
    Reserving line by line succeeds exactly when the totals fit, and then each product holds
    its total more; batches and other level rows are as before.
   */
  lemma {:induction false} ReserveAllIff(s: Shelves, items: seq<Item>)
    requires Positive(items)
    ensures ApplyAll(s, ReserveTasks(items)).Ok? <==> Fits(s, items)
    ensures Fits(s, items) ==>
              forall p :: HoldsMore(Get(s, p), Get(ApplyAll(s, ReserveTasks(items)).value, p), Demand(items, p))
  {
    if items != [] {
      var front, last := items[..|items| - 1], items[|items| - 1];
      ReserveTasksFront(items);
      ReserveAllIff(s, front);
      if Fits(s, front) {
        var mid := ApplyAll(s, ReserveTasks(front)).value;
        assert HoldsMore(Get(s, last.product), Get(mid, last.product), Demand(front, last.product));
        FitsLast(s, mid, items);
        if Fits(s, items) {
          forall p ensures HoldsMore(Get(s, p), Get(ApplyAll(s, ReserveTasks(items)).value, p), Demand(items, p)) {
            HoldsOneMore(s, mid, items, p);
          }
        }
      } else if Fits(s, items) {
        FitsFront(s, items);
      }
    }
  }

  lemma HoldsThenReserves(sh: Shelf, mid: Shelf, held: int, q: int)
    requires HoldsMore(sh, mid, held) && ReserveStock(mid, q).Ok?
    ensures HoldsMore(sh, ReserveStock(mid, q).value, held + q)
  {
    assert ByProduct(sh).Some?;
    assert ByProduct(mid) == Some(ByProduct(sh).value.(reserved := ByProduct(sh).value.reserved + held));
  }

  /** One more line reserved, after `mid`. */
  lemma HoldsOneMore(s: Shelves, mid: Shelves, items: seq<Item>, p: ProductId)
    requires items != [] && HoldsMore(Get(s, p), Get(mid, p), Demand(Front(items), p))
    requires ApplyTask(mid, Task(Last(items).product, Reserve(Last(items).quantity))).Ok?
    ensures var next := ApplyTask(mid, Task(Last(items).product, Reserve(Last(items).quantity))).value;
            HoldsMore(Get(s, p), Get(next, p), Demand(items, p))
  {
    if Last(items).product == p {
      HoldsThenReserves(Get(s, p), Get(mid, p), Demand(Front(items), p), Last(items).quantity);
    }
  }

  lemma FitsLast(s: Shelves, mid: Shelves, items: seq<Item>)
    requires Positive(items) && items != [] && Fits(s, items[..|items| - 1])
    requires var p := items[|items| - 1].product;
             HoldsMore(Get(s, p), Get(mid, p), Demand(items[..|items| - 1], p))
    ensures var last := items[|items| - 1];
            Fits(s, items) <==> ReserveStock(Get(mid, last.product), last.quantity).Ok?
  {
    var front, last := items[..|items| - 1], items[|items| - 1];
    MentionsSplit(items, last.product);
    if ReserveStock(Get(mid, last.product), last.quantity).Ok? {
      forall p | Mentions(items, p)
        ensures ByProduct(Get(s, p)).Some? && Demand(items, p) <= Free(Get(s, p))
      {
        MentionsSplit(items, p);
      }
    }
  }

  // ------------------------------------------------- the order of the lines

  lemma RemoveBeforeLast<T>(s: seq<T>, i: nat)
    requires i < |s| - 1
    ensures s[..i] + s[i + 1..] == Front(s)[..i] + Front(s)[i + 1..] + [Last(s)]
  {
  }

  lemma DemandSnoc(items: seq<Item>, last: Item, p: ProductId)
    ensures Demand(items + [last], p) == Demand(items, p) + if last.product == p then last.quantity else 0
  {
    assert Front(items + [last]) == items;
  }

  lemma {:induction false} DemandRemove(items: seq<Item>, i: nat, p: ProductId)
    requires i < |items|
    ensures Demand(items, p) ==
            Demand(items[..i] + items[i + 1..], p) + if items[i].product == p then items[i].quantity else 0
  {
    if i == |items| - 1 {
      assert items[..i] + items[i + 1..] == Front(items);
    } else {
      DemandRemove(Front(items), i, p);
      RemoveBeforeLast(items, i);
      DemandSnoc(Front(items)[..i] + Front(items)[i + 1..], Last(items), p);
    }
  }

  lemma MultisetWithout<T>(s: seq<T>, i: nat)
    requires i < |s|
    ensures multiset(s[..i] + s[i + 1..]) == multiset(s) - multiset{s[i]}
  {
    assert s == s[..i] + [s[i]] + s[i + 1..];
  }

  lemma MultisetWithoutLast<T>(s: seq<T>)
    requires s != []
    ensures multiset(Front(s)) == multiset(s) - multiset{Last(s)}
  {
    assert s == Front(s) + [Last(s)];
  }

  lemma {:induction false} DemandPermuted(a: seq<Item>, b: seq<Item>, p: ProductId)
    requires multiset(a) == multiset(b)
    ensures Demand(a, p) == Demand(b, p)
  {
    if a == [] {
      assert |multiset(b)| == 0;
    } else {
      assert Last(a) in multiset(b);
      var i: nat :| i < |b| && b[i] == Last(a);
      MultisetWithoutLast(a);
      MultisetWithout(b, i);
      DemandPermuted(Front(a), b[..i] + b[i + 1..], p);
      DemandRemove(b, i, p);
    }
  }

  lemma MentionsPermuted(a: seq<Item>, b: seq<Item>, p: ProductId)
    requires multiset(a) == multiset(b) && Mentions(a, p)
    ensures Mentions(b, p)
  {
    var i :| 0 <= i < |a| && a[i].product == p;
    assert a[i] in multiset(b);
    var j :| 0 <= j < |b| && b[j] == a[i];
  }

  /** Listing the same lines in another order reserves the same quantities, or fails alike. */
  lemma {:induction false} LineOrderIsIrrelevant(s: Shelves, a: seq<Item>, b: seq<Item>)
    requires Positive(a) && Positive(b) && multiset(a) == multiset(b)
    ensures var ra, rb := ApplyAll(s, ReserveTasks(a)), ApplyAll(s, ReserveTasks(b));
            && (ra.Ok? <==> rb.Ok?)
            && (ra.Ok? ==> forall p :: && Get(ra.value, p).own == Get(rb.value, p).own
                                       && Get(ra.value, p).stray == Get(rb.value, p).stray
                                       && Get(ra.value, p).batches == Get(rb.value, p).batches)
  {
    ReserveAllIff(s, a);
    ReserveAllIff(s, b);
    forall p ensures Mentions(a, p) <==> Mentions(b, p)
      ensures Demand(a, p) == Demand(b, p)
    {
      if Mentions(a, p) { MentionsPermuted(a, b, p); }
      if Mentions(b, p) { MentionsPermuted(b, a, p); }
      DemandPermuted(a, b, p);
    }
    if Fits(s, a) {
      var na, nb := ApplyAll(s, ReserveTasks(a)).value, ApplyAll(s, ReserveTasks(b)).value;
      forall p ensures Get(na, p).(log := []) == Get(nb, p).(log := []) {
        assert HoldsMore(Get(s, p), Get(na, p), Demand(a, p));
        assert HoldsMore(Get(s, p), Get(nb, p), Demand(b, p));
      }
    }
  }

  // ------------------------------------------------- releasing and deducting

  function ReleaseTasks(items: seq<Item>): (ts: seq<Task>)
    ensures |ts| == |items|
  {
    seq(|items|, i requires 0 <= i < |items| => Task(items[i].product, Release(items[i].quantity)))
  }

  function DeductTasks(items: seq<Item>, order: OrderId): (ts: seq<Task>)
    ensures |ts| == |items|
  {
    seq(|items|, i requires 0 <= i < |items| => Task(items[i].product, Deduct(items[i].quantity, order)))
  }

  function ReturnTasks(items: seq<Item>, order: OrderId): (ts: seq<Task>)
    ensures |ts| == |items|
  {
    seq(|items|, i requires 0 <= i < |items| => Task(items[i].product, Return(items[i].quantity, order)))
  }
}
