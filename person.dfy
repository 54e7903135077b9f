/** Cashiers and customers (entity/Cashier.java, entity/Customer.java, entity/Person.java). */
module People {
  import opened Wrappers

  /** A cashier never changes after construction, so it is a value; desks and
      lookups compare cashiers by `id`, as the Java code does. */
  datatype Cashier = Cashier(id: string, name: string, monthlySalary: real)

  /** The failure `pay` signals: the amount asked for and the balance held. */
  datatype PaymentError = InsufficientBudget(required: real, available: real)

  class Customer {
    const id: string
    const name: string
    var balance: real

    constructor (id: string, name: string, balance: real)
      ensures this.id == id && this.name == name && this.balance == balance
    {
      this.id := id;
      this.name := name;
      this.balance := balance;
    }

    /** Deducts `amt` when the balance covers it (paying exactly the balance
        succeeds and leaves zero); otherwise signals the shortfall and leaves the
        balance as it was. A non-negative balance stays non-negative. */
    method Pay(amt: real) returns (res: Outcome<PaymentError>)
      modifies this
      ensures res.Pass? <==> old(balance) >= amt
      ensures res.Pass? ==> balance == old(balance) - amt
      ensures res.Fail? ==> unchanged(this) && res.error == InsufficientBudget(amt, old(balance))
      ensures amt == old(balance) ==> res.Pass? && balance == 0.0
      ensures res.Pass? && old(balance) >= 0.0 ==> balance >= 0.0
    {
      if balance < amt {
        return Fail(InsufficientBudget(amt, balance));
      }
      balance := balance - amt;
      res := Pass;
    }
  }
}
