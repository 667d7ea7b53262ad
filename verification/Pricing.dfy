/**
  Prices, discounts, rounding and the split of a payment.

  Money that is not yet rounded is a `real` number of cents; what a `numeric(12,2)` column
  holds is an `int` number of cents. Percentages and discount values are in hundredths, so
  a fixed discount is a number of cents.
 */
module Pricing {
  import opened Wrappers

  /** One order line with the price and tax rate its product has at that moment. */
  datatype LineDto = LineDto(product: nat, quantity: int, price: int, taxRate: int, active: bool)

  datatype DiscountType = PERCENT | FIXED

  datatype Discount = Discount(kind: DiscountType, value: real)

  /** Half-up rounding to cents: `toFixed(2)` and a `numeric(12,2)` column on amounts >= 0. */
  function Cents(x: real): int {
    (x + 0.5).Floor
  }

  predicate CentExact(x: real) {
    x == x.Floor as real
  }

  predicate ValidLine(line: LineDto) {
    line.quantity > 0 && line.price >= 0 && line.taxRate >= 0
  }

  ghost predicate ValidLines(items: seq<LineDto>) {
    forall i :: 0 <= i < |items| ==> ValidLine(items[i])
  }

  function LineTotal(line: LineDto): real {
    line.price as real * (line.quantity as real / 1000.0)
  }

  function LineTax(line: LineDto): real {
    LineTotal(line) * (line.taxRate as real / 10000.0)
  }

  function Subtotal(items: seq<LineDto>): real {
    if items == [] then 0.0 else Subtotal(items[..|items| - 1]) + LineTotal(items[|items| - 1])
  }

  function Tax(items: seq<LineDto>): real {
    if items == [] then 0.0 else Tax(items[..|items| - 1]) + LineTax(items[|items| - 1])
  }

  /** The sum of the `line_total` columns. */
  function StoredLines(items: seq<LineDto>): int {
    if items == [] then 0 else StoredLines(items[..|items| - 1]) + Cents(LineTotal(items[|items| - 1]))
  }

  /** A missing type or a missing or zero value counts as no discount. */
  function Given(kind: Option<DiscountType>, value: Option<real>): Option<Discount> {
    if kind.Some? && value.Some? && value.value != 0.0 then Some(Discount(kind.value, value.value)) else None
  }

  /** The cashier's discount wins; otherwise the customer's default, if positive, applies. */
  function ChosenDiscount(given: Option<Discount>, hasCustomer: bool, default: Option<Discount>): Option<Discount> {
    if given.None? && hasCustomer && default.Some? && default.value.value > 0.0 then default else given
  }

  function DiscountAmount(subtotal: real, discount: Option<Discount>): real {
    match discount
    case None => 0.0
    case Some(d) =>
      var amount := if d.kind.PERCENT? then subtotal * (d.value / 10000.0) else d.value;
      if amount < subtotal then amount else subtotal
  }

  function Total(items: seq<LineDto>, discount: Option<Discount>): real {
    Subtotal(items) + Tax(items) - DiscountAmount(Subtotal(items), discount)
  }

  /** What is left to pay, as the order and its debt record it. */
  function NotPaid(total: real, cash: real, card: real): int {
    Cents(total - cash - card)
  }

  /** The change line of a receipt, from the stored columns. */
  function ReceiptChange(total: int, cash: int, card: int): int {
    Max(0, cash + card - total)
  }

  // ------------------------------------------------- rounding

  lemma CentsBounds(x: real)
    ensures x - 0.5 < Cents(x) as real <= x + 0.5
  {
  }

  /** Adding to a whole-cent column and rounding adds the rounded amount: no drift. */
  lemma CentsOntoWhole(n: int, x: real)
    ensures Cents(n as real + x) == n + Cents(x)
  {
    CentsBounds(x);
    CentsBounds(n as real + x);
  }

  lemma CentsOfExact(x: real)
    requires CentExact(x)
    ensures Cents(x) as real == x
  {
    CentsOntoWhole(x.Floor, 0.0);
  }

  lemma ProductNonNegative(a: real, b: real)
    requires a >= 0.0 && b >= 0.0
    ensures a * b >= 0.0
  {
  }

  lemma LineNonNegative(line: LineDto)
    requires ValidLine(line)
    ensures LineTotal(line) >= 0.0 && LineTax(line) >= 0.0
  {
    ProductNonNegative(line.price as real, line.quantity as real / 1000.0);
    ProductNonNegative(LineTotal(line), line.taxRate as real / 10000.0);
  }

  lemma {:induction false} SumsNonNegative(items: seq<LineDto>)
    requires ValidLines(items)
    ensures Subtotal(items) >= 0.0 && Tax(items) >= 0.0
  {
    if items != [] {
      SumsNonNegative(items[..|items| - 1]);
      LineNonNegative(items[|items| - 1]);
    }
  }

  /** 0 <= discount <= subtotal and tax <= total <= subtotal + tax, for every discount. */
  lemma PricingBounds(items: seq<LineDto>, discount: Option<Discount>)
    requires ValidLines(items) && (discount.Some? ==> discount.value.value >= 0.0)
    ensures 0.0 <= DiscountAmount(Subtotal(items), discount) <= Subtotal(items)
    ensures Tax(items) <= Total(items, discount) <= Subtotal(items) + Tax(items)
    ensures Total(items, discount) >= 0.0
  {
    SumsNonNegative(items);
    if discount.Some? {
      ProductNonNegative(Subtotal(items), discount.value.value / 10000.0);
    }
  }

  lemma {:induction false} StoredLinesBounds(items: seq<LineDto>)
    requires items != []
    ensures Subtotal(items) - |items| as real * 0.5 < StoredLines(items) as real
    ensures StoredLines(items) as real <= Subtotal(items) + |items| as real * 0.5
  {
    var front, last := items[..|items| - 1], items[|items| - 1];
    CentsBounds(LineTotal(last));
    if front != [] {
      StoredLinesBounds(front);
    }
  }

  /** The stored line totals add up to the stored subtotal to within half a cent a line. */
  lemma StoredLinesMatchSubtotal(items: seq<LineDto>)
    ensures -|items| <= 2 * (StoredLines(items) - Cents(Subtotal(items))) <= |items|
  {
    if items != [] {
      StoredLinesBounds(items);
      CentsBounds(Subtotal(items));
    }
  }

  /** Stored total and stored subtotal + tax - discount differ by at most one cent. */
  lemma {:induction false} StoredTotalMatchesParts(items: seq<LineDto>, discount: Option<Discount>)
    ensures var amount := DiscountAmount(Subtotal(items), discount);
            var parts := Cents(Subtotal(items)) + Cents(Tax(items)) - Cents(amount);
            -1 <= Cents(Total(items, discount)) - parts <= 1
  {
    CentsBounds(Subtotal(items));
    CentsBounds(Tax(items));
    CentsBounds(DiscountAmount(Subtotal(items), discount));
    CentsBounds(Total(items, discount));
  }

  // ------------------------------------------------- the amounts, in whole numbers

  /** The value of the lines in thousandths of a cent. */
  function Worth(items: seq<LineDto>): int {
    if items == [] then 0 else Worth(Front(items)) + Last(items).price * Last(items).quantity
  }

  /** Their tax in ten-millionths of a cent: thousandths of a unit times hundredths of a percent. */
  function Levied(items: seq<LineDto>): int {
    if items == [] then 0
    else Levied(Front(items)) + Last(items).price * Last(items).quantity * Last(items).taxRate
  }

  lemma ProductOfReals(a: int, b: int)
    ensures a as real * b as real == (a * b) as real
  {
  }

  lemma Regroup(a: real, b: real, n: real)
    requires n != 0.0
    ensures n * (a * (b / n)) == a * b
  {
    assert n * (b / n) == b;
    assert n * (a * (b / n)) == a * (n * (b / n));
  }

  /** One line: its total is price times quantity, its tax that times the rate, each to its scale. */
  lemma LineScale(line: LineDto)
    ensures 1000.0 * LineTotal(line) == (line.price * line.quantity) as real
    ensures 10000.0 * LineTax(line) == LineTotal(line) * line.taxRate as real
    ensures 10000000.0 * LineTax(line) == (line.price * line.quantity * line.taxRate) as real
  {
    Regroup(line.price as real, line.quantity as real, 1000.0);
    ProductOfReals(line.price, line.quantity);
    Regroup(LineTotal(line), line.taxRate as real, 10000.0);
    TaxScale(line);
  }

  lemma TaxScale(line: LineDto)
    requires 1000.0 * LineTotal(line) == (line.price * line.quantity) as real
    requires 10000.0 * LineTax(line) == LineTotal(line) * line.taxRate as real
    ensures 10000000.0 * LineTax(line) == (line.price * line.quantity * line.taxRate) as real
  {
    var rate := line.taxRate as real;
    assert 1000.0 * (LineTotal(line) * rate) == (1000.0 * LineTotal(line)) * rate;
    ProductOfReals(line.price * line.quantity, line.taxRate);
  }

  /** Subtotal and tax are the whole-number amounts, each to its scale. */
  lemma {:induction false} SumsScale(items: seq<LineDto>)
    ensures 1000.0 * Subtotal(items) == Worth(items) as real
    ensures 10000000.0 * Tax(items) == Levied(items) as real
  {
    if items != [] {
      SumsScale(Front(items));
      LineScale(Last(items));
    }
  }

  /** The stored subtotal and tax are the whole-number amounts rounded half up, for any lines at all. */
  lemma {:induction false} StoredSumsExact(items: seq<LineDto>)
    ensures Cents(Subtotal(items)) == (Worth(items) + 500) / 1000
    ensures Cents(Tax(items)) == (Levied(items) + 5000000) / 10000000
  {
    SumsScale(items);
    var n, m := (Worth(items) + 500) / 1000, (Levied(items) + 5000000) / 10000000;
    assert 1000 * n <= Worth(items) + 500 < 1000 * n + 1000;
    assert 10000000 * m <= Levied(items) + 5000000 < 10000000 * m + 10000000;
    assert n as real <= Subtotal(items) + 0.5 < n as real + 1.0;
    assert m as real <= Tax(items) + 0.5 < m as real + 1.0;
  }

  /** With one rate for all lines the tax is that rate of the subtotal. */
  lemma {:induction false} OneRate(items: seq<LineDto>, rate: int)
    requires forall i :: 0 <= i < |items| ==> items[i].taxRate == rate
    ensures 10000.0 * Tax(items) == rate as real * Subtotal(items)
  {
    if items != [] {
      OneRate(Front(items), rate);
      LineScale(Last(items));
      assert rate as real * Subtotal(items) ==
             rate as real * Subtotal(Front(items)) + rate as real * LineTotal(Last(items));
    }
  }

  lemma ProductMonotone(a: real, b: real, c: real)
    requires a >= 0.0 && b <= c
    ensures a * b <= a * c
  {
    ProductNonNegative(a, c - b);
    assert a * (c - b) == a * c - a * b;
  }

  lemma PercentScale(subtotal: real, value: real)
    requires subtotal >= 0.0 && value >= 0.0
    ensures var amount := DiscountAmount(subtotal, Some(Discount(PERCENT, value)));
            && (value <= 10000.0 ==> 10000.0 * amount == value * subtotal)
            && (value >= 10000.0 ==> amount == subtotal)
  {
    var part := value / 10000.0;
    assert 10000.0 * part == value;
    Regroup(subtotal, value, 10000.0);
    if value <= 10000.0 {
      ProductMonotone(subtotal, part, 1.0);
    }
    if value >= 10000.0 {
      ProductMonotone(subtotal, 1.0, part);
      assert subtotal * part >= subtotal;
    }
  }

  /** A percent discount is that part of the subtotal up to all of it; a fixed one is its value up to all of it. */
  lemma {:induction false} DiscountScale(subtotal: real, value: real)
    requires subtotal >= 0.0 && value >= 0.0
    ensures var amount := DiscountAmount(subtotal, Some(Discount(PERCENT, value)));
            && (value <= 10000.0 ==> 10000.0 * amount == value * subtotal)
            && (value >= 10000.0 ==> amount == subtotal)
    ensures var amount := DiscountAmount(subtotal, Some(Discount(FIXED, value)));
            && (value <= subtotal ==> amount == value)
            && (value >= subtotal ==> amount == subtotal)
  {
    PercentScale(subtotal, value);
  }

  // ------------------------------------------------- the payment split

  /** With tenders of whole cents the stored split is exact and a receipt shows no change. */
  lemma {:induction false} ExactSplit(total: real, cash: real, card: real)
    requires CentExact(cash) && CentExact(card) && cash + card <= total
    ensures Cents(total) == Cents(cash) + Cents(card) + NotPaid(total, cash, card)
    ensures ReceiptChange(Cents(total), Cents(cash), Cents(card)) == 0
    ensures NotPaid(total, cash, card) == 0 <==> Cents(total) == Cents(cash) + Cents(card)
  {
    CentsOfExact(cash);
    CentsOfExact(card);
    CentsOntoWhole(-(Cents(cash) + Cents(card)), total);
    CentsBounds(total - cash - card);
    assert -(Cents(cash) + Cents(card)) as real + total == total - cash - card;
  }

  /** An order starts fully paid exactly when less than half a cent is owed. */
  lemma PaidWhenUnderHalfCent(total: real, cash: real, card: real)
    requires cash + card <= total
    ensures NotPaid(total, cash, card) >= 0
    ensures NotPaid(total, cash, card) == 0 <==> total - cash - card < 0.5
  {
  }

  /** For any tenders at all the stored split is off by at most one cent. */
  lemma {:induction false} SplitWithinOneCent(total: real, cash: real, card: real)
    requires cash + card <= total
    ensures -1 <= Cents(total) - Cents(cash) - Cents(card) - NotPaid(total, cash, card) <= 1
    ensures ReceiptChange(Cents(total), Cents(cash), Cents(card)) <= 1
  {
    CentsBounds(total);
    CentsBounds(cash);
    CentsBounds(card);
    CentsBounds(total - cash - card);
  }

  /** The cent is really lost: half-cent tenders store two cents for a one-cent order. */
  lemma HalfCentTendersShowChange()
    ensures NotPaid(1.0, 0.5, 0.5) == 0
    ensures Cents(1.0) == 1 && Cents(0.5) == 1
    ensures ReceiptChange(Cents(1.0), Cents(0.5), Cents(0.5)) == 1
  {
  }
}
