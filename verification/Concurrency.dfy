/**
  Concurrent `create` transactions. Each reserves its lines one at a time: it locks the
  level row (`pessimistic_write`), reads it after the lock is granted, writes its own copy,
  and keeps the lock until it commits or rolls back. A transaction sees its own writes.
  Any interleaving of any number of them is a sequence of events.
 */
module Concurrency {
  import opened Wrappers
  import opened Stock
  import opened StockViews
  import opened StockTasks

  datatype Phase = Running | Committed | Aborted

  /** `copies` are the rows it has locked, with its uncommitted writes. */
  datatype Tx = Tx(items: seq<Item>, done: nat, copies: Shelves, phase: Phase)

  datatype System = System(committed: Shelves, txs: seq<Tx>, commits: seq<nat>)

  datatype Event = Lock(tx: nat) | Write(tx: nat) | Commit(tx: nat) | Abort(tx: nat)

  function Start(initial: Shelves, orders: seq<seq<Item>>): System {
    System(initial, seq(|orders|, i requires 0 <= i < |orders| => Tx(orders[i], 0, map[], Running)), [])
  }

  predicate LockedByOther(sys: System, t: nat, p: ProductId) {
    exists u :: 0 <= u < |sys.txs| && u != t && sys.txs[u].phase.Running? && p in sys.txs[u].copies
  }

  function Put(sys: System, t: nat, tx: Tx): System
    requires t < |sys.txs|
  {
    sys.(txs := sys.txs[t := tx])
  }

  function Next(sys: System, e: Event): System {
    if e.tx >= |sys.txs| || !sys.txs[e.tx].phase.Running? then sys
    else
      var tx := sys.txs[e.tx];
      match e
      case Abort(t) => Put(sys, t, tx.(phase := Aborted))
      case Commit(t) =>
        if tx.done < |tx.items| then sys
        else Put(sys, t, tx.(phase := Committed))
             .(committed := sys.committed + tx.copies, commits := sys.commits + [t])
      case Lock(t) =>
        if tx.done >= |tx.items| then sys
        else
          var p := tx.items[tx.done].product;
          if p in tx.copies || LockedByOther(sys, t, p) then sys
          else if p !in sys.committed then Put(sys, t, tx.(phase := Aborted))
          else Put(sys, t, tx.(copies := tx.copies[p := sys.committed[p]]))
      case Write(t) =>
        if tx.done >= |tx.items| || tx.items[tx.done].product !in tx.copies then sys
        else
          var item := tx.items[tx.done];
          match ReserveStock(tx.copies[item.product], item.quantity)
          case Err(_) => Put(sys, t, tx.(phase := Aborted))
          case Ok(shelf) => Put(sys, t, tx.(copies := tx.copies[item.product := shelf], done := tx.done + 1))
  }

  function Play(sys: System, events: seq<Event>): System {
    if events == [] then sys else Next(Play(sys, events[..|events| - 1]), events[|events| - 1])
  }

  /** The chosen orders reserved one after the other, none of them failing. */
  function Serial(initial: Shelves, orders: seq<seq<Item>>, chosen: seq<nat>): Result<Shelves>
    requires forall k :: 0 <= k < |chosen| ==> chosen[k] < |orders|
  {
    if chosen == [] then Ok(initial)
    else
      match Serial(initial, orders, chosen[..|chosen| - 1])
      case Err(e) => Err(e)
      case Ok(s) => ApplyAll(s, ReserveTasks(orders[chosen[|chosen| - 1]]))
  }

  // ------------------------------------------------- the invariant

  /** Seen from the committed state, a running transaction has reserved its first lines. */
  ghost predicate InStep(s: Shelves, tx: Tx) {
    && tx.done <= |tx.items|
    && tx.copies.Keys <= s.Keys
    && (forall i :: 0 <= i < tx.done ==> tx.items[i].product in tx.copies)
    && ApplyAll(s, ReserveTasks(tx.items[..tx.done])) == Ok(s + tx.copies)
  }

  ghost predicate Disjoint(txs: seq<Tx>) {
    forall t, u :: 0 <= t < |txs| && 0 <= u < |txs| && t != u && txs[t].phase.Running? && txs[u].phase.Running?
      ==> txs[t].copies.Keys !! txs[u].copies.Keys
  }

  ghost predicate Inv(initial: Shelves, orders: seq<seq<Item>>, sys: System) {
    && |sys.txs| == |orders|
    && (forall t :: 0 <= t < |orders| ==> sys.txs[t].items == orders[t])
    && (forall t :: 0 <= t < |orders| && sys.txs[t].phase.Running? ==> InStep(sys.committed, sys.txs[t]))
    && Disjoint(sys.txs)
    && (forall k :: 0 <= k < |sys.commits| ==> sys.commits[k] < |orders|)
    && (forall t :: 0 <= t < |orders| ==> (sys.txs[t].phase.Committed? <==> t in sys.commits))
    && (forall j, k :: 0 <= j < k < |sys.commits| ==> sys.commits[j] != sys.commits[k])
    && Serial(initial, orders, sys.commits) == Ok(sys.committed)
  }

  /** Tasks read and write only the rows of their products. */
  lemma {:induction false} ApplyAllFrame(s: Shelves, s': Shelves, tasks: seq<Task>, rows: set<ProductId>)
    requires rows <= s.Keys && rows <= s'.Keys
    requires forall p :: p in rows ==> s[p] == s'[p]
    requires forall i :: 0 <= i < |tasks| ==> tasks[i].product in rows
    requires ApplyAll(s, tasks).Ok?
    ensures ApplyAll(s', tasks).Ok?
    ensures ApplyAll(s, tasks).value.Keys == s.Keys
    ensures ApplyAll(s', tasks).value.Keys == s'.Keys
    ensures forall p :: p in rows ==> ApplyAll(s', tasks).value[p] == ApplyAll(s, tasks).value[p]
    ensures forall p :: p in s' && p !in rows ==> ApplyAll(s', tasks).value[p] == s'[p]
  {
    if tasks != [] {
      ApplyAllFrame(s, s', tasks[..|tasks| - 1], rows);
    }
  }

  lemma InStepFrame(s: Shelves, s': Shelves, tx: Tx)
    requires InStep(s, tx)
    requires tx.copies.Keys <= s'.Keys && forall p :: p in tx.copies ==> s[p] == s'[p]
    ensures InStep(s', tx)
  {
    var tasks := ReserveTasks(tx.items[..tx.done]);
    ApplyAllFrame(s, s', tasks, tx.copies.Keys);
    assert ApplyAll(s', tasks).value == s' + tx.copies;
  }

  lemma InStepLock(s: Shelves, tx: Tx, p: ProductId)
    requires InStep(s, tx) && p in s && p !in tx.copies
    ensures InStep(s, tx.(copies := tx.copies[p := s[p]]))
  {
    assert s + tx.copies == s + tx.copies[p := s[p]];
  }

  lemma InStepWrite(s: Shelves, tx: Tx, shelf: Shelf)
    requires InStep(s, tx) && tx.done < |tx.items| && tx.items[tx.done].product in tx.copies
    requires var item := tx.items[tx.done];
             ReserveStock(tx.copies[item.product], item.quantity) == Ok(shelf)
    ensures var item := tx.items[tx.done];
            InStep(s, tx.(copies := tx.copies[item.product := shelf], done := tx.done + 1))
  {
    var item := tx.items[tx.done];
    var items := tx.items[..tx.done + 1];
    assert items[..|items| - 1] == tx.items[..tx.done];
    ReserveTasksFront(items);
    assert (s + tx.copies)[item.product := shelf] == s + tx.copies[item.product := shelf];
  }

  lemma SerialThen(initial: Shelves, orders: seq<seq<Item>>, chosen: seq<nat>, t: nat, s: Shelves)
    requires t < |orders| && forall k :: 0 <= k < |chosen| ==> chosen[k] < |orders|
    requires Serial(initial, orders, chosen) == Ok(s)
    ensures forall k :: 0 <= k < |chosen + [t]| ==> (chosen + [t])[k] < |orders|
    ensures Serial(initial, orders, chosen + [t]) == ApplyAll(s, ReserveTasks(orders[t]))
  {
    assert (chosen + [t])[..|chosen + [t]| - 1] == chosen;
  }

  /** Other running transactions do not notice a commit. */
  lemma CommitKeepsOthers(sys: System, t: nat, u: nat)
    requires t < |sys.txs| && u < |sys.txs| && u != t && Disjoint(sys.txs)
    requires sys.txs[t].phase.Running? && sys.txs[u].phase.Running? && InStep(sys.committed, sys.txs[u])
    ensures InStep(sys.committed + sys.txs[t].copies, sys.txs[u])
  {
    assert sys.txs[u].copies.Keys !! sys.txs[t].copies.Keys;
    InStepFrame(sys.committed, sys.committed + sys.txs[t].copies, sys.txs[u]);
  }

  lemma CommitKeepsInv(initial: Shelves, orders: seq<seq<Item>>, sys: System, t: nat)
    requires Inv(initial, orders, sys) && t < |orders|
    requires sys.txs[t].phase.Running? && sys.txs[t].done == |sys.txs[t].items|
    ensures Inv(initial, orders, Next(sys, Commit(t)))
  {
    var tx := sys.txs[t];
    var next := Next(sys, Commit(t));
    assert tx.items[..tx.done] == orders[t];
    SerialThen(initial, orders, sys.commits, t, sys.committed);
    forall u | 0 <= u < |orders| && next.txs[u].phase.Running? ensures InStep(next.committed, next.txs[u]) {
      CommitKeepsOthers(sys, t, u);
    }
  }

  /** A running transaction that takes no row of another keeps the locks disjoint. */
  lemma DisjointUpdate(txs: seq<Tx>, t: nat, tx: Tx)
    requires t < |txs| && Disjoint(txs)
    requires forall u :: 0 <= u < |txs| && u != t && txs[u].phase.Running? ==> tx.copies.Keys !! txs[u].copies.Keys
    ensures Disjoint(txs[t := tx])
  {
  }

  /** A running transaction that stays in step and takes no row of another keeps the invariant. */
  lemma PutKeepsInv(initial: Shelves, orders: seq<seq<Item>>, sys: System, t: nat, tx: Tx)
    requires Inv(initial, orders, sys) && t < |orders| && sys.txs[t].phase.Running?
    requires tx.phase.Running? && tx.items == orders[t] && InStep(sys.committed, tx)
    requires forall u :: 0 <= u < |sys.txs| && u != t && sys.txs[u].phase.Running? ==>
               tx.copies.Keys !! sys.txs[u].copies.Keys
    ensures Inv(initial, orders, Put(sys, t, tx))
  {
    DisjointUpdate(sys.txs, t, tx);
  }

  lemma LockKeepsInv(initial: Shelves, orders: seq<seq<Item>>, sys: System, t: nat)
    requires Inv(initial, orders, sys)
    ensures Inv(initial, orders, Next(sys, Lock(t)))
  {
    var next := Next(sys, Lock(t));
    if next != sys && next.txs[t].phase.Running? {
      var tx := sys.txs[t];
      InStepLock(sys.committed, tx, tx.items[tx.done].product);
      PutKeepsInv(initial, orders, sys, t, next.txs[t]);
    }
  }

  lemma WriteKeepsInv(initial: Shelves, orders: seq<seq<Item>>, sys: System, t: nat)
    requires Inv(initial, orders, sys)
    ensures Inv(initial, orders, Next(sys, Write(t)))
  {
    var next := Next(sys, Write(t));
    if next != sys && next.txs[t].phase.Running? {
      var tx := sys.txs[t];
      var p := tx.items[tx.done].product;
      InStepWrite(sys.committed, tx, next.txs[t].copies[p]);
      assert next.txs[t].copies.Keys == tx.copies.Keys;
      PutKeepsInv(initial, orders, sys, t, next.txs[t]);
    }
  }

  lemma AbortKeepsInv(initial: Shelves, orders: seq<seq<Item>>, sys: System, t: nat)
    requires Inv(initial, orders, sys)
    ensures Inv(initial, orders, Next(sys, Abort(t)))
  {
    assert Disjoint(Next(sys, Abort(t)).txs);
  }

  lemma StartsInv(initial: Shelves, orders: seq<seq<Item>>)
    ensures Inv(initial, orders, Start(initial, orders))
  {
    forall t | 0 <= t < |orders| ensures InStep(initial, Start(initial, orders).txs[t]) {
      assert initial + map[] == initial;
    }
  }

  lemma {:induction false} PlayKeepsInv(initial: Shelves, orders: seq<seq<Item>>, events: seq<Event>)
    ensures Inv(initial, orders, Play(Start(initial, orders), events))
  {
    if events == [] {
      StartsInv(initial, orders);
    } else {
      PlayKeepsInv(initial, orders, events[..|events| - 1]);
      var sys := Play(Start(initial, orders), events[..|events| - 1]);
      match events[|events| - 1] {
        case Lock(t) => LockKeepsInv(initial, orders, sys, t);
        case Write(t) => WriteKeepsInv(initial, orders, sys, t);
        case Abort(t) => AbortKeepsInv(initial, orders, sys, t);
        case Commit(t) =>
          if Next(sys, Commit(t)) != sys {
            CommitKeepsInv(initial, orders, sys, t);
          }
      }
    }
  }

  // ------------------------------------------------- the theorems

  /** Every interleaving ends as the committed orders would, run serially in commit order. */
  lemma {:induction false} Serializable(initial: Shelves, orders: seq<seq<Item>>, events: seq<Event>)
    ensures var sys := Play(Start(initial, orders), events);
            && (forall k :: 0 <= k < |sys.commits| ==> sys.commits[k] < |orders|)
            && Serial(initial, orders, sys.commits) == Ok(sys.committed)
            && (forall j, k :: 0 <= j < k < |sys.commits| ==> sys.commits[j] != sys.commits[k])
            && |sys.txs| == |orders|
            && (forall t :: 0 <= t < |orders| ==> (sys.txs[t].phase.Committed? <==> t in sys.commits))
  {
    PlayKeepsInv(initial, orders, events);
  }

  function TotalDemand(orders: seq<seq<Item>>, chosen: seq<nat>, p: ProductId): int
    requires forall k :: 0 <= k < |chosen| ==> chosen[k] < |orders|
  {
    if chosen == [] then 0
    else
      TotalDemand(orders, chosen[..|chosen| - 1], p) + Demand(orders[chosen[|chosen| - 1]], p)
  }

  /** Reserving one order holds its lines more and stays within the stock on hand. */
  lemma OrderHolds(s: Shelves, items: seq<Item>, p: ProductId)
    requires Positive(items) && ApplyAll(s, ReserveTasks(items)).Ok?
    ensures var next := Get(ApplyAll(s, ReserveTasks(items)).value, p);
            && HoldsMore(Get(s, p), next, Demand(items, p))
            && (Bounded(Get(s, p)) ==> Bounded(next))
  {
    ReserveAllIff(s, items);
    DemandPositive(items, p);
  }

  lemma HoldsMoreTwice(a: Shelf, b: Shelf, c: Shelf, m: int, n: int)
    requires HoldsMore(a, b, m) && HoldsMore(b, c, n)
    ensures HoldsMore(a, c, m + n)
  {
  }

  lemma {:induction false} SerialHolds(initial: Shelves, orders: seq<seq<Item>>, chosen: seq<nat>, p: ProductId)
    requires forall k :: 0 <= k < |chosen| ==> chosen[k] < |orders|
    requires forall t :: 0 <= t < |orders| ==> Positive(orders[t])
    requires Serial(initial, orders, chosen).Ok?
    ensures var s := Serial(initial, orders, chosen).value;
            && HoldsMore(Get(initial, p), Get(s, p), TotalDemand(orders, chosen, p))
            && (Bounded(Get(initial, p)) ==> Bounded(Get(s, p)))
  {
    if chosen != [] {
      var front := chosen[..|chosen| - 1];
      var items := orders[chosen[|chosen| - 1]];
      SerialHolds(initial, orders, front, p);
      var s := Serial(initial, orders, front).value;
      var next := ApplyAll(s, ReserveTasks(items)).value;
      OrderHolds(s, items, p);
      HoldsMoreTwice(Get(initial, p), Get(s, p), Get(next, p), TotalDemand(orders, front, p), Demand(items, p));
    }
  }

  /**
    No overselling: after any interleaving each product holds exactly the lines of the
    committed orders more than at the start, and never more than is on hand.
   */
  lemma {:induction false} NoOversell(initial: Shelves, orders: seq<seq<Item>>, events: seq<Event>, p: ProductId)
    requires forall t :: 0 <= t < |orders| ==> Positive(orders[t])
    ensures var sys := Play(Start(initial, orders), events);
            && (forall k :: 0 <= k < |sys.commits| ==> sys.commits[k] < |orders|)
            && HoldsMore(Get(initial, p), Get(sys.committed, p), TotalDemand(orders, sys.commits, p))
            && (Bounded(Get(initial, p)) ==> Bounded(Get(sys.committed, p)))
  {
    Serializable(initial, orders, events);
    var sys := Play(Start(initial, orders), events);
    SerialHolds(initial, orders, sys.commits, p);
  }

  // ------------------------------------------------- progress

  /** When one event ends a running transaction without committing it. */
  lemma AbortedIff(sys: System, e: Event, t: nat)
    requires t < |sys.txs| && sys.txs[t].phase.Running?
    ensures |Next(sys, e).txs| == |sys.txs|
    ensures var tx := sys.txs[t];
            Next(sys, e).txs[t].phase.Aborted? <==>
            && e.tx == t
            && (e.Abort? ||
                (&& tx.done < |tx.items|
                 && var item := tx.items[tx.done];
                    || (&& e.Lock? && item.product !in tx.copies && !LockedByOther(sys, t, item.product)
                        && item.product !in sys.committed)
                    || (&& e.Write? && item.product in tx.copies
                        && (ByProduct(tx.copies[item.product]).None? || Free(tx.copies[item.product]) < item.quantity))))
  {
  }

  /** What one event leaves of the others, and of the committed state unless it commits. */
  ghost predicate OnlyChanges(sys: System, next: System, t: nat) {
    && |next.txs| == |sys.txs| && next.committed == sys.committed
    && (forall u :: 0 <= u < |sys.txs| && u != t ==> next.txs[u] == sys.txs[u])
  }

  /** A lock is granted unless another running transaction holds the row, and a granted line is written if it fits. */
  lemma StepsOn(sys: System, t: nat)
    requires t < |sys.txs| && sys.txs[t].phase.Running? && sys.txs[t].done < |sys.txs[t].items|
    ensures OnlyChanges(sys, Next(sys, Lock(t)), t) && OnlyChanges(sys, Next(sys, Write(t)), t)
    ensures var tx := sys.txs[t];
            var p, next := tx.items[tx.done].product, Next(sys, Lock(t)).txs[t];
            && next.items == tx.items && next.done == tx.done
            && (next.phase.Running? && !LockedByOther(sys, t, p) ==> p in next.copies)
    ensures var tx := sys.txs[t];
            var p, next := tx.items[tx.done].product, Next(sys, Write(t)).txs[t];
            next.items == tx.items && (next.phase.Running? && p in tx.copies ==> next.done == tx.done + 1)
  {
  }

  lemma {:induction false} FitsPrefix(s: Shelves, items: seq<Item>, k: nat)
    requires Positive(items) && k <= |items| && Fits(s, items)
    ensures Fits(s, items[..k])
  {
    if k == |items| {
      assert items[..k] == items;
    } else {
      FitsFront(s, items);
      assert Front(items)[..k] == items[..k];
      FitsPrefix(s, Front(items), k);
    }
  }

  /** The lines up to the next one fit the committed stock exactly if the next one fits on top of the first ones. */
  lemma NextLineFitsIff(s: Shelves, tx: Tx)
    requires InStep(s, tx) && tx.done < |tx.items| && Positive(tx.items)
    ensures var item := tx.items[tx.done];
            Fits(s, tx.items[..tx.done + 1]) <==> ReserveStock(Get(s + tx.copies, item.product), item.quantity).Ok?
  {
    var items := tx.items[..tx.done + 1];
    assert Front(items) == tx.items[..tx.done];
    ReserveTasksFront(items);
    ReserveAllIff(s, items);
  }

  /**
    At any point of any interleaving a transaction that holds the row of its next line, or can
    have it, is ended by its own step exactly if its lines up to that one do not fit the
    committed stock.
   */
  lemma EndsOnlyIfUnfit(initial: Shelves, orders: seq<seq<Item>>, sys: System, t: nat)
    requires Inv(initial, orders, sys) && t < |orders| && Positive(orders[t])
    requires sys.txs[t].phase.Running? && sys.txs[t].done < |orders[t]|
    ensures var p := orders[t][sys.txs[t].done].product;
            var fits := Fits(sys.committed, orders[t][..sys.txs[t].done + 1]);
            && (p in sys.txs[t].copies ==> (Next(sys, Write(t)).txs[t].phase.Running? <==> fits))
            && (!Next(sys, Lock(t)).txs[t].phase.Running? ==> !fits)
  {
    var tx := sys.txs[t];
    var p := tx.items[tx.done].product;
    NextLineFitsIff(sys.committed, tx);
    if p in tx.copies {
      assert Get(sys.committed + tx.copies, p) == tx.copies[p];
    } else if p !in sys.committed {
      assert Get(sys.committed + tx.copies, p) == EmptyShelf;
    }
  }

  /** Locking and writing the next `n` lines one by one, and then committing. */
  function Finish(t: nat, n: nat): seq<Event> {
    if n == 0 then [Commit(t)] else [Lock(t), Write(t)] + Finish(t, n - 1)
  }

  /** No other running transaction holds a row of a line still to do. */
  ghost predicate Unlocked(sys: System, t: nat)
    requires t < |sys.txs|
  {
    forall i :: sys.txs[t].done <= i < |sys.txs[t].items| ==> !LockedByOther(sys, t, sys.txs[t].items[i].product)
  }

  lemma {:induction false} PlayFirst(sys: System, e: Event, rest: seq<Event>)
    ensures Play(sys, [e] + rest) == Play(Next(sys, e), rest)
  {
    if rest == [] {
      assert ([e] + rest)[..0] == [];
    } else {
      assert ([e] + rest)[..|rest|] == [e] + rest[..|rest| - 1];
      PlayFirst(sys, e, rest[..|rest| - 1]);
    }
  }

  lemma PlayFinish(sys: System, t: nat, n: nat)
    ensures Play(sys, Finish(t, 0)) == Next(sys, Commit(t))
    ensures n > 0 ==> Play(sys, Finish(t, n)) == Play(Next(Next(sys, Lock(t)), Write(t)), Finish(t, n - 1))
  {
    assert [Commit(t)] == [Commit(t)] + [];
    PlayFirst(sys, Commit(t), []);
    if n > 0 {
      assert Finish(t, n) == [Lock(t)] + ([Write(t)] + Finish(t, n - 1));
      PlayFirst(sys, Lock(t), [Write(t)] + Finish(t, n - 1));
      PlayFirst(Next(sys, Lock(t)), Write(t), Finish(t, n - 1));
    }
  }

  lemma {:induction false} EndedStays(sys: System, t: nat, n: nat)
    requires t < |sys.txs| && !sys.txs[t].phase.Running?
    ensures Play(sys, Finish(t, n)) == sys
  {
    PlayFinish(sys, t, n);
    if n > 0 {
      EndedStays(sys, t, n - 1);
    }
  }

  lemma StillUnlocked(sys: System, next: System, t: nat)
    requires t < |sys.txs| && OnlyChanges(sys, next, t) && Unlocked(sys, t)
    requires next.txs[t].items == sys.txs[t].items && sys.txs[t].done <= next.txs[t].done
    ensures Unlocked(next, t)
  {
    forall p ensures LockedByOther(next, t, p) ==> LockedByOther(sys, t, p) {
      if LockedByOther(next, t, p) {
        var u :| 0 <= u < |next.txs| && u != t && next.txs[u].phase.Running? && p in next.txs[u].copies;
        assert sys.txs[u] == next.txs[u];
      }
    }
  }

  /** The row of the next line is locked, or the transaction ends because its lines do not fit. */
  lemma LockTurn(initial: Shelves, orders: seq<seq<Item>>, sys: System, t: nat)
    requires Inv(initial, orders, sys) && t < |orders| && Positive(orders[t])
    requires sys.txs[t].phase.Running? && Unlocked(sys, t) && sys.txs[t].done < |orders[t]|
    ensures var locked := Next(sys, Lock(t));
            && Inv(initial, orders, locked) && locked.committed == sys.committed
            && (locked.txs[t].phase.Running? ==>
                  && Unlocked(locked, t) && locked.txs[t].done == sys.txs[t].done
                  && orders[t][sys.txs[t].done].product in locked.txs[t].copies)
            && (!locked.txs[t].phase.Running? ==> locked.txs[t].phase.Aborted? && !Fits(sys.committed, orders[t]))
  {
    StepsOn(sys, t);
    LockKeepsInv(initial, orders, sys, t);
    EndsOnlyIfUnfit(initial, orders, sys, t);
    if Next(sys, Lock(t)).txs[t].phase.Running? {
      StillUnlocked(sys, Next(sys, Lock(t)), t);
    } else {
      AbortedIff(sys, Lock(t), t);
      UnfitPrefix(sys.committed, orders[t], sys.txs[t].done + 1);
    }
  }

  lemma UnfitPrefix(s: Shelves, items: seq<Item>, k: nat)
    requires Positive(items) && k <= |items| && !Fits(s, items[..k])
    ensures !Fits(s, items)
  {
    if Fits(s, items) {
      FitsPrefix(s, items, k);
    }
  }

  /** With its row locked, the next line is written, or the transaction ends because its lines do not fit. */
  lemma WriteTurn(initial: Shelves, orders: seq<seq<Item>>, sys: System, t: nat)
    requires Inv(initial, orders, sys) && t < |orders| && Positive(orders[t])
    requires sys.txs[t].phase.Running? && Unlocked(sys, t) && sys.txs[t].done < |orders[t]|
    requires orders[t][sys.txs[t].done].product in sys.txs[t].copies
    ensures var written := Next(sys, Write(t));
            && Inv(initial, orders, written) && written.committed == sys.committed
            && (written.txs[t].phase.Running? ==> Unlocked(written, t) && written.txs[t].done == sys.txs[t].done + 1)
            && (!written.txs[t].phase.Running? ==> written.txs[t].phase.Aborted? && !Fits(sys.committed, orders[t]))
  {
    StepsOn(sys, t);
    WriteKeepsInv(initial, orders, sys, t);
    EndsOnlyIfUnfit(initial, orders, sys, t);
    if Next(sys, Write(t)).txs[t].phase.Running? {
      StillUnlocked(sys, Next(sys, Write(t)), t);
    } else {
      AbortedIff(sys, Write(t), t);
      UnfitPrefix(sys.committed, orders[t], sys.txs[t].done + 1);
    }
  }

  /** Some interleaving leads here. */
  ghost predicate Reachable(initial: Shelves, orders: seq<seq<Item>>, sys: System) {
    exists events :: sys == Play(Start(initial, orders), events)
  }

  lemma ReachableInv(initial: Shelves, orders: seq<seq<Item>>, sys: System)
    requires Reachable(initial, orders, sys)
    ensures Inv(initial, orders, sys)
  {
    var events :| sys == Play(Start(initial, orders), events);
    PlayKeepsInv(initial, orders, events);
  }

  lemma ReachableStep(initial: Shelves, orders: seq<seq<Item>>, sys: System, e: Event)
    requires Reachable(initial, orders, sys)
    ensures Reachable(initial, orders, Next(sys, e))
  {
    var events :| sys == Play(Start(initial, orders), events);
    assert (events + [e])[..|events|] == events;
    assert Next(sys, e) == Play(Start(initial, orders), events + [e]);
  }

  /** A running transaction with `n` lines to do, whose rows nobody else holds. */
  ghost predicate Ready(sys: System, items: seq<Item>, t: nat, n: nat) {
    && t < |sys.txs| && sys.txs[t].phase.Running? && sys.txs[t].items == items
    && sys.txs[t].done + n == |items| && Unlocked(sys, t)
  }

  lemma CommitTurn(initial: Shelves, orders: seq<seq<Item>>, sys: System, t: nat)
    requires Reachable(initial, orders, sys) && t < |orders| && Positive(orders[t]) && Ready(sys, orders[t], t, 0)
    ensures var end := Play(sys, Finish(t, 0));
            t < |end.txs| && end.txs[t].phase.Committed? && Fits(sys.committed, orders[t])
  {
    ReachableInv(initial, orders, sys);
    PlayFinish(sys, t, 0);
    assert sys.txs[t].items[..sys.txs[t].done] == orders[t];
    ReserveAllIff(sys.committed, orders[t]);
  }

  /** The first line of `Finish`: it is written, or the transaction has ended because its lines do not fit. */
  lemma LineTurn(initial: Shelves, orders: seq<seq<Item>>, sys: System, t: nat, n: nat) returns (written: System)
    requires Reachable(initial, orders, sys) && t < |orders| && Positive(orders[t])
    requires n > 0 && Ready(sys, orders[t], t, n)
    ensures Play(sys, Finish(t, n)) == Play(written, Finish(t, n - 1))
    ensures Reachable(initial, orders, written) && written.committed == sys.committed && t < |written.txs|
    ensures written.txs[t].phase.Running? ==> Ready(written, orders[t], t, n - 1)
    ensures !written.txs[t].phase.Running? ==> written.txs[t].phase.Aborted? && !Fits(sys.committed, orders[t])
  {
    PlayFinish(sys, t, n);
    ReachableInv(initial, orders, sys);
    var locked := Next(sys, Lock(t));
    written := Next(locked, Write(t));
    ReachableStep(initial, orders, sys, Lock(t));
    ReachableStep(initial, orders, locked, Write(t));
    LockTurn(initial, orders, sys, t);
    if locked.txs[t].phase.Running? {
      WriteTurn(initial, orders, locked, t);
    } else {
      assert written == locked;
    }
  }

  /** Finishing from `sys` ends in `end`, and commits exactly if the lines fit. */
  ghost predicate Finishes(sys: System, end: System, items: seq<Item>, t: nat, n: nat) {
    && end == Play(sys, Finish(t, n)) && t < |end.txs|
    && (end.txs[t].phase.Committed? <==> Fits(sys.committed, items))
  }

  /** From one line to the next. */
  lemma FinishesEarlier(sys: System, written: System, end: System, items: seq<Item>, t: nat, n: nat)
    requires n > 0 && Play(sys, Finish(t, n)) == Play(written, Finish(t, n - 1)) && written.committed == sys.committed
    requires Finishes(written, end, items, t, n - 1)
    ensures Finishes(sys, end, items, t, n)
  {
  }

  lemma FinishesEnded(sys: System, items: seq<Item>, t: nat, n: nat)
    requires t < |sys.txs| && sys.txs[t].phase.Aborted? && !Fits(sys.committed, items)
    ensures Finishes(sys, sys, items, t, n)
  {
    EndedStays(sys, t, n);
  }

  lemma {:induction false} FinishesFrom(initial: Shelves, orders: seq<seq<Item>>, sys: System, t: nat, n: nat)
      returns (end: System)
    requires Reachable(initial, orders, sys) && t < |orders| && Positive(orders[t]) && Ready(sys, orders[t], t, n)
    ensures Finishes(sys, end, orders[t], t, n)
    decreases n
  {
    if n == 0 {
      CommitTurn(initial, orders, sys, t);
      end := Play(sys, Finish(t, 0));
    } else {
      var written := LineTurn(initial, orders, sys, t, n);
      if written.txs[t].phase.Running? {
        end := FinishesFrom(initial, orders, written, t, n - 1);
      } else {
        end := written;
        FinishesEnded(written, orders[t], t, n - 1);
      }
      FinishesEarlier(sys, written, end, orders[t], t, n);
    }
  }

  /**
    After any interleaving, a running transaction with `n` lines to do whose rows nobody else
    holds goes on to commit if and only if its lines fit the committed stock.
   */
  lemma {:induction false} CommitsIffFits(initial: Shelves, orders: seq<seq<Item>>, sys: System, t: nat, n: nat)
    requires Reachable(initial, orders, sys) && t < |orders| && Positive(orders[t]) && Ready(sys, orders[t], t, n)
    ensures var end := Play(sys, Finish(t, n));
            t < |end.txs| && (end.txs[t].phase.Committed? <==> Fits(sys.committed, orders[t]))
  {
    var _ := FinishesFrom(initial, orders, sys, t, n);
  }

  /** An order on its own commits, line by line, if and only if its lines fit the stock. */
  lemma {:induction false} LoneOrderCommitsIffFits(initial: Shelves, items: seq<Item>)
    requires Positive(items)
    ensures var end := Play(Start(initial, [items]), Finish(0, |items|));
            |end.txs| > 0 && (end.txs[0].phase.Committed? <==> Fits(initial, items))
  {
    var start := Start(initial, [items]);
    assert Play(start, []) == start;
    CommitsIffFits(initial, [items], start, 0, |items|);
  }

  /**
    At any point of any interleaving: a transaction ends without committing only if it is
    aborted from outside or its lines up to the one it is at do not fit the committed stock.
   */
  lemma EndsOnlyWhenUnfit(initial: Shelves, orders: seq<seq<Item>>, sys: System, e: Event, t: nat)
    requires Reachable(initial, orders, sys) && t < |orders| && Positive(orders[t])
    requires t < |sys.txs| && sys.txs[t].phase.Running? && !e.Abort?
    ensures t < |Next(sys, e).txs|
    ensures Next(sys, e).txs[t].phase.Aborted? ==>
              sys.txs[t].done < |orders[t]| && !Fits(sys.committed, orders[t][..sys.txs[t].done + 1])
  {
    ReachableInv(initial, orders, sys);
    AbortedIff(sys, e, t);
    if Next(sys, e).txs[t].phase.Aborted? {
      EndsOnlyIfUnfit(initial, orders, sys, t);
    }
  }
}
