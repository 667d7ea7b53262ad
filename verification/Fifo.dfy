/**
  Storage batches and the first-in-first-out deduction over them.

  A batch is a row of the `storage` table; a sequence of batches lists the rows of one
  product in creation order. Quantities are thousandths of a unit (three decimals).
  The loop is specified by `Drain`, and `Drain` is tied to a queue of single units, each
  tagged with the batch it lies in: deducting takes units from the front of that queue.
 */
module Fifo {
  import opened Wrappers

  datatype Batch = Batch(id: nat, quantity: int, initial: int)

  /** Every row holds between nothing and what it was inserted with. */
  ghost predicate Sound(bs: seq<Batch>) {
    bs == [] || (0 <= bs[0].quantity <= bs[0].initial && Sound(bs[1..]))
  }

  ghost predicate DistinctIds(bs: seq<Batch>) {
    forall i, j :: 0 <= i < j < |bs| ==> bs[i].id != bs[j].id
  }

  /** Same rows in the same order; only quantities may differ. */
  ghost predicate SameRows(a: seq<Batch>, b: seq<Batch>) {
    |a| == |b| && forall i :: 0 <= i < |a| ==> a[i].id == b[i].id && a[i].initial == b[i].initial
  }

  function Sum(bs: seq<Batch>): int {
    if bs == [] then 0 else bs[0].quantity + Sum(bs[1..])
  }

  /** The rows after a deduction and the part of it that found no stock. */
  datatype Drained = Drained(batches: seq<Batch>, left: int)

  function Drain(bs: seq<Batch>, q: int): Drained {
    if bs == [] || q <= 0 then Drained(bs, q)
    else if bs[0].quantity <= 0 then
      var rest := Drain(bs[1..], q);
      Drained([bs[0]] + rest.batches, rest.left)
    else
      var deduct := Min(bs[0].quantity, q);
      var rest := Drain(bs[1..], q - deduct);
      Drained([bs[0].(quantity := bs[0].quantity - deduct)] + rest.batches, rest.left)
  }

  /** The query of the deduction loops: the rows that still hold stock, oldest first. */
  function Open(bs: seq<Batch>): seq<Batch> {
    if bs == [] then []
    else (if bs[0].quantity > 0 then [bs[0]] else []) + Open(bs[1..])
  }

  /** Saving an entity overwrites the row with its id. */
  function Save(bs: seq<Batch>, b: Batch): seq<Batch> {
    if bs == [] then []
    else if bs[0].id == b.id then [b] + bs[1..]
    else [bs[0]] + Save(bs[1..], b)
  }

  // ---------------------------------------------------------------- the loop

  /** The deduction loop shared by `deductFromStorage` and `adjust`. */
  method DeductLoop(rows: seq<Batch>, quantity: int) returns (saved: seq<Batch>, remaining: int)
    requires DistinctIds(rows)
    ensures Drained(saved, remaining) == Drain(rows, quantity)
  {
    saved, remaining := rows, quantity;
    var batches := Open(rows);
    var i := 0;
    while i < |batches| && remaining > 0
      invariant 0 <= i <= |batches|
      invariant DistinctIds(saved)
      invariant Drain(saved, remaining) == Drain(rows, quantity)
      invariant remaining > 0 ==> batches[i..] == Open(saved)
    {
      var deduct := Min(batches[i].quantity, remaining);
      var batch := batches[i].(quantity := batches[i].quantity - deduct);
      SaveOldest(saved, remaining);
      assert batches[i..][0] == batches[i] && batches[i..][1..] == batches[i + 1..];
      saved, remaining := Save(saved, batch), remaining - deduct;
      i := i + 1;
    }
    if remaining > 0 {
      DrainNothingOpen(saved, remaining);
    }
  }

  /** A first row that is used up stays as it is and serves nothing. */
  lemma DrainClosedFirst(bs: seq<Batch>, q: int)
    requires bs != [] && bs[0].quantity <= 0
    ensures Drain(bs, q) == Drained([bs[0]] + Drain(bs[1..], q).batches, Drain(bs[1..], q).left)
  {
    if q <= 0 {
      assert [bs[0]] + bs[1..] == bs;
    }
  }

  /** The rows once the oldest open batch has given `deduct` units. */
  ghost function Serve(bs: seq<Batch>, deduct: int): seq<Batch>
    requires Open(bs) != []
  {
    if bs[0].quantity > 0 then [bs[0].(quantity := bs[0].quantity - deduct)] + bs[1..]
    else [bs[0]] + Serve(bs[1..], deduct)
  }

  /** Serving the oldest open batch and then draining the rest is draining everything. */
  lemma {:induction false} DrainFirstOpen(bs: seq<Batch>, q: int)
    requires Open(bs) != [] && q > 0
    ensures var deduct := Min(Open(bs)[0].quantity, q);
            && Drain(bs, q) == Drain(Serve(bs, deduct), q - deduct)
            && (q > deduct ==> Open(Serve(bs, deduct)) == Open(bs)[1..])
  {
    if bs[0].quantity > 0 {
      DrainOpenFirst(bs, q);
    } else {
      DrainFirstOpen(bs[1..], q);
      var deduct := Min(Open(bs[1..])[0].quantity, q);
      DrainBehindFirst(bs, Serve(bs[1..], deduct), q, q - deduct);
    }
  }

  lemma DrainOpenFirst(bs: seq<Batch>, q: int)
    requires bs != [] && bs[0].quantity > 0 && q > 0
    ensures var deduct := Min(bs[0].quantity, q);
            var served := [bs[0].(quantity := bs[0].quantity - deduct)] + bs[1..];
            && Drain(bs, q) == Drain(served, q - deduct)
            && (q > deduct ==> Open(served) == Open(bs)[1..])
  {
    var deduct := Min(bs[0].quantity, q);
    assert ([bs[0].(quantity := bs[0].quantity - deduct)] + bs[1..])[1..] == bs[1..];
    DrainZero(bs[1..], q - deduct);
  }

  lemma DrainBehindFirst(bs: seq<Batch>, rest: seq<Batch>, q: int, more: int)
    requires bs != [] && bs[0].quantity <= 0 && Drain(bs[1..], q) == Drain(rest, more)
    ensures Drain(bs, q) == Drain([bs[0]] + rest, more)
    ensures Open(bs) == Open(bs[1..]) && Open([bs[0]] + rest) == Open(rest)
  {
    assert ([bs[0]] + rest)[1..] == rest;
    DrainClosedFirst(bs, q);
    DrainClosedFirst([bs[0]] + rest, more);
  }

  lemma DrainZero(bs: seq<Batch>, q: int)
    ensures q <= 0 ==> Drain(bs, q) == Drained(bs, q)
  {
  }

  lemma {:induction false} OpenIdFromRows(bs: seq<Batch>)
    requires Open(bs) != []
    ensures exists i :: 0 <= i < |bs| && bs[i] == Open(bs)[0]
  {
    if bs[0].quantity > 0 {
      assert bs[0] == Open(bs)[0];
    } else {
      OpenIdFromRows(bs[1..]);
      var i :| 0 <= i < |bs[1..]| && bs[1..][i] == Open(bs)[0];
      assert bs[i + 1] == Open(bs)[0];
    }
  }

  /** With distinct ids, saving the oldest open batch changes its row and no other. */
  lemma {:induction false} SaveServes(bs: seq<Batch>, deduct: int)
    requires DistinctIds(bs) && Open(bs) != []
    ensures var b := Open(bs)[0];
            Save(bs, b.(quantity := b.quantity - deduct)) == Serve(bs, deduct)
  {
    if bs[0].quantity <= 0 {
      OpenIdFromRows(bs[1..]);
      SaveServes(bs[1..], deduct);
    }
  }

  lemma {:induction false} SaveIds(bs: seq<Batch>, b: Batch)
    ensures |Save(bs, b)| == |bs|
    ensures forall i :: 0 <= i < |bs| ==> Save(bs, b)[i].id == bs[i].id
  {
    if bs != [] {
      SaveIds(bs[1..], b);
    }
  }

  /** One turn of the loop: what saving the oldest open batch does to the rest of the deduction. */
  lemma SaveOldest(bs: seq<Batch>, q: int)
    requires DistinctIds(bs) && Open(bs) != [] && q > 0
    ensures var b := Open(bs)[0];
            var deduct := Min(b.quantity, q);
            var saved := Save(bs, b.(quantity := b.quantity - deduct));
            && DistinctIds(saved)
            && Drain(saved, q - deduct) == Drain(bs, q)
            && (q > deduct ==> Open(saved) == Open(bs)[1..])
  {
    var b := Open(bs)[0];
    var deduct := Min(b.quantity, q);
    DrainFirstOpen(bs, q);
    SaveServes(bs, deduct);
    SaveIds(bs, b.(quantity := b.quantity - deduct));
    OpenIdFromRows(bs);
  }

  /** Whatever is asked, draining keeps the ids of the rows. */
  lemma {:induction false} DrainIds(bs: seq<Batch>, q: int)
    ensures |Drain(bs, q).batches| == |bs|
    ensures forall i :: 0 <= i < |bs| ==> Drain(bs, q).batches[i].id == bs[i].id
  {
    if bs != [] && q > 0 {
      DrainIds(bs[1..], if bs[0].quantity <= 0 then q else q - Min(bs[0].quantity, q));
    }
  }

  lemma {:induction false} DrainNothingOpen(bs: seq<Batch>, q: int)
    requires Open(bs) == []
    ensures Drain(bs, q) == Drained(bs, q)
  {
    if bs != [] && q > 0 {
      DrainNothingOpen(bs[1..], q);
    }
  }

  // ------------------------------------------------------- the queue of units

  /** Every unit of stock, oldest first, tagged with the batch it lies in. */
  ghost function Units(bs: seq<Batch>): seq<nat>
    requires Sound(bs)
  {
    if bs == [] then [] else Repeat(bs[0].id, bs[0].quantity) + Units(bs[1..])
  }

  lemma {:induction false} UnitsCount(bs: seq<Batch>)
    requires Sound(bs)
    ensures |Units(bs)| == Sum(bs)
  {
    if bs != [] {
      UnitsCount(bs[1..]);
    }
  }

  /** Draining keeps every row and keeps its quantity between zero and the initial one. */
  lemma {:induction false} DrainKeepsRows(bs: seq<Batch>, q: nat)
    requires Sound(bs)
    ensures Sound(Drain(bs, q).batches) && SameRows(bs, Drain(bs, q).batches)
  {
    if bs != [] && q > 0 {
      DrainKeepsRows(bs[1..], q - Min(bs[0].quantity, q));
    }
  }

  lemma UnitsOfPrepended(b: Batch, rest: seq<Batch>)
    requires Sound(rest) && 0 <= b.quantity <= b.initial
    ensures Sound([b] + rest)
    ensures Units([b] + rest) == Repeat(b.id, b.quantity) + Units(rest)
  {
    assert ([b] + rest)[1..] == rest;
  }

  /** What draining does to the first row, and that the rest is drained of what is left. */
  lemma DrainCons(bs: seq<Batch>, q: nat)
    requires Sound(bs) && bs != [] && q > 0
    ensures var deduct := Min(bs[0].quantity, q);
            var rest := Drain(bs[1..], q - deduct);
            && Drain(bs, q).left == rest.left
            && Drain(bs, q).batches == [bs[0].(quantity := bs[0].quantity - deduct)] + rest.batches
  {
  }

  /** The units that are left, and the shortfall. */
  lemma {:induction false} DrainUnits(bs: seq<Batch>, q: nat)
    requires Sound(bs)
    ensures |Units(bs)| == Sum(bs)
    ensures Sound(Drain(bs, q).batches)
    ensures Units(Drain(bs, q).batches) == Units(bs)[Min(q, Sum(bs))..]
    ensures Drain(bs, q).left == q - Min(q, Sum(bs))
  {
    UnitsCount(bs);
    if bs == [] || q == 0 {
      assert Units(bs)[0..] == Units(bs);
    } else {
      DrainCons(bs, q);
      DrainUnits(bs[1..], q - Min(bs[0].quantity, q));
      DropsUnitsCons(bs, q, Drain(bs[1..], q - Min(bs[0].quantity, q)));
    }
  }

  /** Deducting drops exactly the first `q` units, and reports what it could not find. */
  lemma {:induction false} DrainDropsUnits(bs: seq<Batch>, q: nat)
    requires Sound(bs)
    ensures Sound(Drain(bs, q).batches) && SameRows(bs, Drain(bs, q).batches)
    ensures |Units(bs)| == Sum(bs)
    ensures Units(Drain(bs, q).batches) == Units(bs)[Min(q, Sum(bs))..]
    ensures Drain(bs, q).left == q - Min(q, Sum(bs))
  {
    DrainKeepsRows(bs, q);
    DrainUnits(bs, q);
  }

  /** If the other rows dropped their share of the units, the whole list drops the first `q`. */
  lemma DropsUnitsCons(bs: seq<Batch>, q: nat, rest: Drained)
    requires Sound(bs) && bs != [] && q > 0 && Sound(rest.batches)
    requires |Units(bs)| == Sum(bs) && |Units(bs[1..])| == Sum(bs[1..])
    requires var more := q - Min(bs[0].quantity, q);
             && Units(rest.batches) == Units(bs[1..])[Min(more, Sum(bs[1..]))..]
             && rest.left == more - Min(more, Sum(bs[1..]))
    ensures var first := bs[0].(quantity := bs[0].quantity - Min(bs[0].quantity, q));
            && Sound([first] + rest.batches)
            && Units([first] + rest.batches) == Units(bs)[Min(q, Sum(bs))..]
            && rest.left == q - Min(q, Sum(bs))
  {
    var deduct := Min(bs[0].quantity, q);
    assert Sum(bs) == bs[0].quantity + Sum(bs[1..]);
    assert Min(q, Sum(bs)) == deduct + Min(q - deduct, Sum(bs[1..]));
    UnitsOfFirstTwo(bs, deduct, rest.batches, Min(q, Sum(bs)));
  }

  /** The units left when the first row gives `deduct` units and the others give the rest of `k`. */
  lemma UnitsOfFirstTwo(bs: seq<Batch>, deduct: nat, rest: seq<Batch>, k: nat)
    requires Sound(bs) && bs != [] && Sound(rest)
    requires deduct <= bs[0].quantity && deduct <= k <= |Units(bs)| && (k > deduct ==> deduct == bs[0].quantity)
    requires k - deduct <= |Units(bs[1..])| && Units(rest) == Units(bs[1..])[k - deduct..]
    ensures var first := bs[0].(quantity := bs[0].quantity - deduct);
            Sound([first] + rest) && Units([first] + rest) == Units(bs)[k..]
  {
    UnitsOfPrepended(bs[0].(quantity := bs[0].quantity - deduct), rest);
    DropFromRepeat(bs[0].id, bs[0].quantity, deduct, Units(bs[1..]), k);
  }

  lemma DropFromRepeat(id: nat, n: nat, deduct: nat, tail: seq<nat>, k: nat)
    requires deduct <= n && deduct <= k <= n + |tail|
    requires k > deduct ==> deduct == n
    ensures (Repeat(id, n) + tail)[k..] == Repeat(id, n - deduct) + tail[k - deduct..]
  {
  }

  /** The unit queue says everything: the same rows with the same units are equal. */
  lemma {:induction false} UnitsDetermineBatches(a: seq<Batch>, b: seq<Batch>)
    requires Sound(a) && Sound(b) && SameRows(a, b) && DistinctIds(a)
    requires Units(a) == Units(b)
    ensures a == b
  {
    if a != [] {
      var qa, qb := a[0].quantity, b[0].quantity;
      if qa < qb {
        NoForeignUnit(a, b, qa);
      } else if qb < qa {
        NoForeignUnit(b, a, qb);
      }
      assert Units(a[1..]) == Units(a)[qa..];
      assert Units(b[1..]) == Units(b)[qb..];
      UnitsDetermineBatches(a[1..], b[1..]);
    }
  }

  /** If `a` has fewer units of the first batch than `b`, the queues differ at that point. */
  lemma {:induction false} NoForeignUnit(a: seq<Batch>, b: seq<Batch>, n: nat)
    requires Sound(a) && Sound(b) && SameRows(a, b) && DistinctIds(a)
    requires a != [] && n == a[0].quantity < b[0].quantity
    ensures Units(a) != Units(b)
  {
    assert Units(b)[n] == b[0].id;
    if |Units(a)| > n {
      assert Units(a)[n] == Units(a[1..])[0];
      UnitsOwnedByRows(a[1..], 0);
    }
  }

  lemma {:induction false} UnitsOwnedByRows(bs: seq<Batch>, k: nat)
    requires Sound(bs) && k < |Units(bs)|
    ensures exists i :: 0 <= i < |bs| && bs[i].id == Units(bs)[k]
  {
    if k >= bs[0].quantity {
      UnitsOwnedByRows(bs[1..], k - bs[0].quantity);
      var i :| 0 <= i < |bs[1..]| && bs[1..][i].id == Units(bs[1..])[k - bs[0].quantity];
      assert bs[i + 1].id == Units(bs)[k];
    }
  }

  /** The first row gives `x`, then `y`; the others have given `rest`, then `more`. */
  lemma DrainConsTwice(bs: seq<Batch>, a: nat, b: nat, x: int, y: int, rest: Drained, more: Drained)
    requires Sound(bs) && bs != [] && a > 0 && b > 0
    requires x == Min(bs[0].quantity, a) && y == Min(bs[0].quantity - x, b)
    requires rest == Drain(bs[1..], a - x) && Sound(rest.batches) && more == Drain(rest.batches, b - y)
    ensures Drain(bs, a).left == rest.left
    ensures Drain(Drain(bs, a).batches, b) ==
            Drained([bs[0].(quantity := bs[0].quantity - (x + y))] + more.batches, more.left)
  {
    var first := bs[0].(quantity := bs[0].quantity - x);
    DrainCons(bs, a);
    assert ([first] + rest.batches)[1..] == rest.batches;
    DrainCons([first] + rest.batches, b);
  }

  /** The first row gives `x + y` at once. */
  lemma DrainConsOnce(bs: seq<Batch>, a: nat, b: nat, x: int, y: int, once: Drained)
    requires Sound(bs) && bs != [] && a > 0 && b > 0
    requires x == Min(bs[0].quantity, a) && y == Min(bs[0].quantity - x, b)
    requires once == Drain(bs[1..], (a - x) + (b - y))
    ensures Drain(bs, a + b) == Drained([bs[0].(quantity := bs[0].quantity - (x + y))] + once.batches, once.left)
  {
    assert Min(bs[0].quantity, a + b) == x + y && (a + b) - (x + y) == (a - x) + (b - y);
    DrainCons(bs, a + b);
  }

  lemma {:induction false} DrainedTwice(bs: seq<Batch>, a: nat, b: nat, first: Drained, second: Drained, once: Drained)
    requires Sound(bs)
    requires first == Drain(bs, a) && second == Drain(first.batches, b) && once == Drain(bs, a + b)
    ensures once == Drained(second.batches, first.left + second.left)
    decreases |bs|
  {
    if bs != [] && a > 0 && b > 0 {
      var x := Min(bs[0].quantity, a);
      var y := Min(bs[0].quantity - x, b);
      var rest := Drain(bs[1..], a - x);
      var more := Drain(rest.batches, b - y);
      var all := Drain(bs[1..], (a - x) + (b - y));
      assert Sound(rest.batches) by {
        DrainKeepsRows(bs[1..], a - x);
      }
      assert all == Drained(more.batches, rest.left + more.left) by {
        DrainedTwice(bs[1..], a - x, b - y, rest, more, all);
      }
      DrainConsTwice(bs, a, b, x, y, rest, more);
      DrainConsOnce(bs, a, b, x, y, all);
    }
  }

  /** Deducting `a` and then `b` is deducting `a + b`. */
  lemma {:induction false} DrainTwiceIsDrainOnce(bs: seq<Batch>, a: nat, b: nat)
    requires Sound(bs)
    ensures var first := Drain(bs, a);
            var second := Drain(first.batches, b);
            Drain(bs, a + b) == Drained(second.batches, first.left + second.left)
  {
    var first := Drain(bs, a);
    DrainedTwice(bs, a, b, first, Drain(first.batches, b), Drain(bs, a + b));
  }

  /** Emptied batches, then at most one that is partly used, then untouched ones. */
  ghost predicate EmptiedThenUntouched(before: seq<Batch>, after: seq<Batch>, k: nat) {
    && k <= |before| == |after|
    && (forall i :: 0 <= i < k ==> after[i].quantity == 0)
    && (forall i :: k < i < |before| ==> after[i] == before[i])
  }

  lemma {:induction false} DrainShape(bs: seq<Batch>, q: nat)
    requires Sound(bs)
    ensures exists k: nat :: EmptiedThenUntouched(bs, Drain(bs, q).batches, k)
  {
    if bs == [] || q == 0 {
      assert EmptiedThenUntouched(bs, Drain(bs, q).batches, 0);
    } else {
      var deduct := Min(bs[0].quantity, q);
      var rest := Drain(bs[1..], q - deduct).batches;
      DrainCons(bs, q);
      if q > deduct {
        DrainShape(bs[1..], q - deduct);
        var k: nat :| EmptiedThenUntouched(bs[1..], rest, k);
        ShapeOfPrepended(bs, bs[0].(quantity := 0), rest, k);
      } else {
        DrainZero(bs[1..], 0);
        assert EmptiedThenUntouched(bs, [bs[0].(quantity := bs[0].quantity - deduct)] + bs[1..], 0);
      }
    }
  }

  lemma ShapeOfPrepended(bs: seq<Batch>, first: Batch, rest: seq<Batch>, k: nat)
    requires bs != [] && first.quantity == 0 && EmptiedThenUntouched(bs[1..], rest, k)
    ensures EmptiedThenUntouched(bs, [first] + rest, k + 1)
  {
    forall i | k + 1 < i < |bs| ensures ([first] + rest)[i] == bs[i] {
      assert rest[i - 1] == bs[1..][i - 1];
    }
  }

  // ------------------------------------------------------------ consequences

  lemma {:induction false} DrainSum(bs: seq<Batch>, q: nat)
    requires Sound(bs)
    ensures Sum(bs) >= 0
    ensures Sum(Drain(bs, q).batches) == Sum(bs) - Min(q, Sum(bs))
    ensures Drain(bs, q).left > 0 <==> Sum(bs) < q
  {
    DrainDropsUnits(bs, q);
    UnitsCount(bs);
    UnitsCount(Drain(bs, q).batches);
  }

  lemma {:induction false} SumAppend(bs: seq<Batch>, b: Batch)
    ensures Sum(bs + [b]) == Sum(bs) + b.quantity
    ensures Sound(bs) && 0 <= b.quantity <= b.initial ==> Sound(bs + [b])
  {
    if bs != [] {
      assert (bs + [b])[1..] == bs[1..] + [b];
      SumAppend(bs[1..], b);
    } else {
      assert bs + [b] == [b];
    }
  }
}
