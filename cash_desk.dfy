/** Cash desks and their sequential identifiers (entity/CashDesk.java). */
module CashDesks {
  import opened Wrappers
  import opened People

  /** The decimal digit for `d`. */
  function DigitChar(d: nat): (c: char)
    requires d < 10
    ensures '0' <= c <= '9'
  {
    "0123456789"[d]
  }

  /** The decimal rendering of `n`, as Java's string concatenation produces it. */
  function Decimal(n: nat): (r: string)
    ensures |r| >= 1 && forall i | 0 <= i < |r| :: '0' <= r[i] <= '9'
    decreases n
  {
    if n < 10 then [DigitChar(n)] else Decimal(n / 10) + [DigitChar(n % 10)]
  }

  /** A desk identifier: "D" followed by the desk's sequence number. */
  function DeskId(n: nat): (r: string)
    ensures |r| >= 2 && r[0] == 'D' && forall i | 1 <= i < |r| :: '0' <= r[i] <= '9'
  {
    "D" + Decimal(n)
  }

  lemma {:induction false} DecimalShape(n: nat)
    ensures |Decimal(n)| >= 1
    ensures n < 10 <==> |Decimal(n)| == 1
    ensures Decimal(n)[|Decimal(n)| - 1] == DigitChar(n % 10)
    ensures n >= 10 ==> Decimal(n)[..|Decimal(n)| - 1] == Decimal(n / 10)
    decreases n
  {
    if n >= 10 {
      DecimalShape(n / 10);
    }
  }

  /** Different digits render as different characters. */
  lemma DigitCharInjective(a: nat, b: nat)
    requires a < 10 && b < 10
    ensures DigitChar(a) == DigitChar(b) ==> a == b
  {
  }

  /** Equal renderings end in the same digit and, for numbers of two or more
      digits, start with equal renderings of the numbers divided by ten. */
  lemma EqualDecimals(m: nat, n: nat)
    requires Decimal(m) == Decimal(n)
    ensures m % 10 == n % 10
    ensures m < 10 <==> n < 10
    ensures m >= 10 ==> Decimal(m / 10) == Decimal(n / 10)
  {
    DecimalShape(m);
    DecimalShape(n);
    var last := |Decimal(m)| - 1;
    assert DigitChar(m % 10) == Decimal(m)[last] == DigitChar(n % 10);
    DigitCharInjective(m % 10, n % 10);
    if m >= 10 {
      assert Decimal(m / 10) == Decimal(m)[..last] == Decimal(n / 10);
    }
  }

  /** Different sequence numbers give different decimal renderings. */
  lemma {:induction false} DecimalInjective(m: nat, n: nat)
    ensures Decimal(m) == Decimal(n) ==> m == n
    decreases m
  {
    if Decimal(m) == Decimal(n) {
      EqualDecimals(m, n);
      if m >= 10 {
        DecimalInjective(m / 10, n / 10);
      }
    }
  }

  /** Desks created with different sequence numbers have different ids. */
  lemma DeskIdInjective(m: nat, n: nat)
    ensures DeskId(m) == DeskId(n) ==> m == n
  {
    if DeskId(m) == DeskId(n) {
      assert Decimal(m) == DeskId(m)[1..];
      assert Decimal(n) == DeskId(n)[1..];
      DecimalInjective(m, n);
    }
  }

  /** The static `nextId` of the Java class, made an explicit shared object. */
  class DeskIdCounter {
    var nextId: nat

    constructor ()
      ensures nextId == 1
    {
      nextId := 1;
    }
  }

  /** The failure of assigning a cashier to an occupied desk: the desk's id and
      the occupant's name. */
  datatype DeskError = DeskOccupied(deskId: string, occupantName: string)

  class CashDesk {
    const id: string
    var currentCashier: Option<Cashier>
    var isOpen: bool

    /** Free and closed, or occupied and open: no other state. */
    ghost predicate Valid()
      reads this
    {
      isOpen == currentCashier.Some?
    }

    /** A new desk is free and closed and takes the next sequence number. */
    constructor (counter: DeskIdCounter)
      modifies counter
      ensures id == DeskId(old(counter.nextId)) && counter.nextId == old(counter.nextId) + 1
      ensures currentCashier == None && !isOpen && Valid()
    {
      id := DeskId(counter.nextId);
      counter.nextId := counter.nextId + 1;
      currentCashier := None;
      isOpen := false;
    }

    /** A desk in a valid state is occupied exactly when it is open. */
    predicate IsOccupied(): (r: bool)
      reads this
      ensures Valid() ==> (r <==> isOpen)
    {
      currentCashier.Some?
    }

    /** A free desk takes the cashier and opens; an occupied desk refuses, even
        for the cashier it already holds, and stays as it was. */
    method AssignCashier(cashier: Cashier) returns (res: Outcome<DeskError>)
      modifies this
      ensures old(currentCashier).None? ==> res == Pass && currentCashier == Some(cashier) && isOpen
      ensures old(currentCashier).Some? ==>
        && res == Fail(DeskOccupied(id, old(currentCashier).value.name))
        && currentCashier == old(currentCashier) && isOpen == old(isOpen)
      ensures old(Valid()) ==> Valid()
    {
      if currentCashier.None? {
        currentCashier := Some(cashier);
        isOpen := true;
        res := Pass;
      } else {
        res := Fail(DeskOccupied(id, currentCashier.value.name));
      }
    }

    /** Frees and closes an occupied desk; a free desk is left alone, so a second
        release changes nothing. */
    method ReleaseCashier()
      modifies this
      ensures old(currentCashier).Some? ==> currentCashier == None && !isOpen
      ensures old(currentCashier).None? ==> currentCashier == old(currentCashier) && isOpen == old(isOpen)
      ensures old(Valid()) ==> Valid() && currentCashier == None
    {
      if currentCashier.Some? {
        currentCashier := None;
        isOpen := false;
      }
    }
  }
}
