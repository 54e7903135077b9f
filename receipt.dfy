/** Receipts and their global numbering (entity/Receipt.java). */
module Receipts {
  import opened Wrappers
  import opened Products
  import opened People

  /** One immutable receipt line: the product, the quantity sold and the unit
      price fixed at the time of sale. */
  datatype Line = Line(product: Product, quantity: int, price: real)

  /** What a line contributes to the receipt's total. */
  function LineTotal(l: Line): real {
    l.price * l.quantity as real
  }

  /** The sum of price times quantity over the lines, in order. */
  function LinesTotal(ls: seq<Line>): real {
    if ls == [] then 0.0 else LineTotal(ls[0]) + LinesTotal(ls[1..])
  }

  /** Appending a line adds exactly its price times quantity to the total. */
  lemma {:induction false} LinesTotalAppend(ls: seq<Line>, l: Line)
    ensures LinesTotal(ls + [l]) == LinesTotal(ls) + LineTotal(l)
  {
    if ls != [] {
      assert (ls + [l])[1..] == ls[1..] + [l];
      LinesTotalAppend(ls[1..], l);
    }
  }

  /** The lines `add` accepts: positive quantity and non-negative price. */
  predicate ValidLine(l: Line) {
    l.quantity > 0 && l.price >= 0.0
  }

  /** A receipt made only of accepted lines has a non-negative total. */
  lemma {:induction false} LinesTotalNonNegative(ls: seq<Line>)
    requires forall i | 0 <= i < |ls| :: ValidLine(ls[i])
    ensures LinesTotal(ls) >= 0.0
  {
    if ls != [] {
      assert ValidLine(ls[0]);
      LinesTotalNonNegative(ls[1..]);
    }
  }

  /** The three IllegalArgumentException cases of `add`, checked in this order. */
  datatype LineError = NullProduct | NonPositiveQuantity | NegativePrice

  /** The static COUNTER of the Java class, made an explicit shared object. */
  class ReceiptCounter {
    var count: nat

    constructor ()
      ensures count == 0
    {
      count := 0;
    }

    /** resetCounter: back to zero, for test isolation. */
    method Reset()
      modifies this
      ensures count == 0
    {
      count := 0;
    }
  }

  class Receipt {
    const number: int
    const cashier: Cashier
    var lines: seq<Line>

    /** Every line was accepted by `add`. */
    ghost predicate Valid()
      reads this
    {
      forall i | 0 <= i < |lines| :: ValidLine(lines[i])
    }

    /** Every receipt takes the next number: the counter goes up by exactly one
        and the new number is that counter value, hence positive. */
    constructor (cashier: Cashier, counter: ReceiptCounter)
      modifies counter
      ensures counter.count == old(counter.count) + 1
      ensures number == counter.count && number > 0
      ensures this.cashier == cashier && lines == [] && Valid()
    {
      counter.count := counter.count + 1;
      number := counter.count;
      this.cashier := cashier;
      lines := [];
    }

    /** Rejects a null product, then a non-positive quantity, then a negative
        price, leaving the lines unchanged; otherwise appends one line at the end. */
    method Add(product: Product?, quantity: int, price: real) returns (res: Outcome<LineError>)
      modifies this
      ensures product == null ==> res == Fail(NullProduct)
      ensures product != null && quantity <= 0 ==> res == Fail(NonPositiveQuantity)
      ensures product != null && quantity > 0 && price < 0.0 ==> res == Fail(NegativePrice)
      ensures res.Fail? <==> product == null || quantity <= 0 || price < 0.0
      ensures res.Fail? ==> lines == old(lines)
      ensures res.Pass? ==> product != null && lines == old(lines) + [Line(product, quantity, price)]
      ensures res.Pass? ==> ValidLine(Line(product, quantity, price))
      ensures res.Pass? ==> LinesTotal(lines) == LinesTotal(old(lines)) + price * quantity as real
      ensures old(Valid()) ==> Valid()
    {
      if product == null {
        return Fail(NullProduct);
      }
      if quantity <= 0 {
        return Fail(NonPositiveQuantity);
      }
      if price < 0.0 {
        return Fail(NegativePrice);
      }
      LinesTotalAppend(lines, Line(product, quantity, price));
      lines := lines + [Line(product, quantity, price)];
      res := Pass;
    }

    /** The receipt total, accumulated line by line. */
    method Total() returns (sum: real)
      ensures sum == LinesTotal(lines)
      ensures Valid() ==> sum >= 0.0
    {
      if Valid() {
        LinesTotalNonNegative(lines);
      }
      sum := 0.0;
      var i := 0;
      while i < |lines|
        invariant 0 <= i <= |lines|
        invariant sum == LinesTotal(lines[..i])
      {
        LinesTotalAppend(lines[..i], lines[i]);
        assert lines[..i + 1] == lines[..i] + [lines[i]];
        sum := sum + lines[i].price * lines[i].quantity as real;
        i := i + 1;
      }
      assert lines[..i] == lines;
    }
  }
}
