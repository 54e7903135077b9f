/** Sums that the store's financial read-outs and its cost-of-sold-goods
    accumulator are specified by (store/Store.java). */
module Accounting {
  import opened Products
  import opened People
  import opened Receipts

  /** The sum of the monthly salaries, in list order. */
  function SalarySum(cs: seq<Cashier>): real {
    if cs == [] then 0.0 else cs[0].monthlySalary + SalarySum(cs[1..])
  }

  lemma {:induction false} SalarySumAppend(cs: seq<Cashier>, c: Cashier)
    ensures SalarySum(cs + [c]) == SalarySum(cs) + c.monthlySalary
  {
    if cs != [] {
      assert (cs + [c])[1..] == cs[1..] + [c];
      SalarySumAppend(cs[1..], c);
    }
  }

  /** The sum of the receipt totals, in list order. */
  function ReceiptsTotal(rs: seq<Receipt>): real
    reads rs
  {
    if rs == [] then 0.0 else LinesTotal(rs[0].lines) + ReceiptsTotal(rs[1..])
  }

  lemma {:induction false} ReceiptsTotalAppend(rs: seq<Receipt>, r: Receipt)
    ensures ReceiptsTotal(rs + [r]) == ReceiptsTotal(rs) + LinesTotal(r.lines)
  {
    if rs != [] {
      assert (rs + [r])[1..] == rs[1..] + [r];
      ReceiptsTotalAppend(rs[1..], r);
    }
  }

  /** What `q` units of product id `k` cost the store at purchase price. */
  function SaleCost(inventory: map<string, Product>, k: string, q: int): real
    requires k in inventory
  {
    inventory[k].purchasePrice * q as real
  }

  /** The purchase-price cost of everything recorded as sold: the sum over the
      sold-quantity map of purchase price times quantity. */
  ghost function SoldCost(sold: map<string, int>, inventory: map<string, Product>): real
    requires sold.Keys <= inventory.Keys
    decreases |sold.Keys|
  {
    if sold.Keys == {} then 0.0
    else
      var k := SomeKey(sold);
      assert (sold - {k}).Keys == sold.Keys - {k};
      SaleCost(inventory, k, sold[k]) + SoldCost(sold - {k}, inventory)
  }

  /** Some key of a non-empty map: the order in which SoldCost adds up. */
  ghost function SomeKey(m: map<string, int>): (k: string)
    requires m.Keys != {}
    ensures k in m
  {
    var k :| k in m.Keys; k
  }

  /** The sum does not depend on which key is taken first. */
  lemma {:induction false} SoldCostRemove(sold: map<string, int>, inventory: map<string, Product>, k: string)
    requires sold.Keys <= inventory.Keys && k in sold
    ensures SoldCost(sold, inventory) == SaleCost(inventory, k, sold[k]) + SoldCost(sold - {k}, inventory)
    decreases |sold.Keys|
  {
    var j := SomeKey(sold);
    if j != k {
      var withoutJ, withoutK := sold - {j}, sold - {k};
      assert withoutJ.Keys == sold.Keys - {j};
      assert withoutK.Keys == sold.Keys - {k};
      assert withoutJ - {k} == withoutK - {j};
      SoldCostRemove(withoutJ, inventory, k);
      SoldCostRemove(withoutK, inventory, j);
      assert withoutJ[k] == sold[k] && withoutK[j] == sold[j];
    }
  }

  /** Recording `q` more units of `k` adds their purchase-price cost to the sum. */
  lemma {:induction false} SoldCostRecord(sold: map<string, int>, inventory: map<string, Product>, k: string, q: int)
    requires sold.Keys <= inventory.Keys && k in inventory
    ensures SoldCost(sold[k := SoldBefore(sold, k) + q], inventory) ==
            SoldCost(sold, inventory) + SaleCost(inventory, k, q)
  {
    var before := SoldBefore(sold, k);
    var after := sold[k := before + q];
    var rest := sold - {k};
    assert after - {k} == rest;
    SoldCostRemove(after, inventory, k);
    SaleCostAdd(inventory, k, before, q);
    if k in sold {
      SoldCostRemove(sold, inventory, k);
    } else {
      assert rest == sold;
    }
  }

  /** Purchase-price cost is additive in the quantity. */
  lemma SaleCostAdd(inventory: map<string, Product>, k: string, a: int, b: int)
    requires k in inventory
    ensures SaleCost(inventory, k, a + b) == SaleCost(inventory, k, a) + SaleCost(inventory, k, b)
  {
    assert (a + b) as real == a as real + b as real;
  }

  /** The quantity recorded for `k` so far, zero when there is none. */
  function SoldBefore(sold: map<string, int>, k: string): int {
    if k in sold then sold[k] else 0
  }

  /** The sum only looks at the products of the ids that were sold. */
  lemma {:induction false} SoldCostFrame(sold: map<string, int>, inventory: map<string, Product>,
                                         inventory': map<string, Product>)
    requires sold.Keys <= inventory.Keys && sold.Keys <= inventory'.Keys
    requires forall k | k in sold :: inventory[k] == inventory'[k]
    ensures SoldCost(sold, inventory) == SoldCost(sold, inventory')
    decreases |sold.Keys|
  {
    if sold.Keys != {} {
      var k :| k in sold.Keys;
      var rest := sold - {k};
      assert rest.Keys == sold.Keys - {k};
      SoldCostRemove(sold, inventory, k);
      SoldCostRemove(sold, inventory', k);
      assert SaleCost(inventory, k, sold[k]) == SaleCost(inventory', k, sold[k]);
      SoldCostFrame(rest, inventory, inventory');
    }
  }
}
