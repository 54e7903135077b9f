/** A complete store session with the figures of the profit test
    (src/test/java/org/informatics/store/FinancialTest.java): a cashier on 1000
    at the only desk, milk bought at 2.0 with ten days to expiry, five units
    sold at the 20 % groceries markup. */
module Scenarios {
  import opened Wrappers
  import opened Config
  import opened Products
  import opened People
  import opened Receipts
  import opened CashDesks
  import opened Accounting
  import opened Stores

  /** The pricing of the tests: 20 % and 25 % markups, a 3-day window, 30 % off. */
  function TestConfig(): (c: StoreConfig)
    ensures c.Valid()
  {
    StoreConfig(0.20, 0.25, 3, 0.30)
  }

  /** A new store with one cashier on 1000 and one free desk. */
  method OpenedStore() returns (store: Store, cashier: Cashier, desk: CashDesk)
    ensures fresh(store) && fresh(store.counter) && fresh(desk) && store.Valid() && store.cfg == TestConfig()
    ensures store.cashiers == [cashier] && cashier.id == "C1" && cashier.monthlySalary == 1000.0
    ensures store.cashDesks == [desk] && desk.currentCashier.None?
    ensures store.inventory == map[] && store.receipts == []
    ensures store.soldItems == map[] && store.costOfSoldGoods == 0.0
  {
    var receiptCounter := new ReceiptCounter();
    store := new Store(TestConfig(), receiptCounter);
    cashier := Cashier("C1", "Test Cashier", 1000.0);
    store.AddCashier(cashier);
    var deskCounter := new DeskIdCounter();
    desk := new CashDesk(deskCounter);
    store.AddCashDesk(desk);
  }

  /** Two desks made from the one shared counter get the ids "D" + 1 and
      "D" + 2, which differ, so the store accepts both. */
  method TwoDeskStore() returns (store: Store, first: CashDesk, second: CashDesk)
    ensures fresh(store) && store.Valid()
    ensures store.cashDesks == [first, second] && first.id == DeskId(1) && second.id == DeskId(2)
    ensures first.id != second.id
  {
    var receiptCounter := new ReceiptCounter();
    store := new Store(TestConfig(), receiptCounter);
    var deskCounter := new DeskIdCounter();
    first := new CashDesk(deskCounter);
    store.AddCashDesk(first);
    second := new CashDesk(deskCounter);
    DeskIdInjective(1, 2);
    store.AddCashDesk(second);
  }

  /** The same store with its cashier seated at the desk. */
  method StaffedStore() returns (store: Store, cashier: Cashier)
    ensures fresh(store) && fresh(store.counter) && store.Valid() && store.cfg == TestConfig()
    ensures store.cashiers == [cashier] && cashier.monthlySalary == 1000.0
    ensures store.inventory == map[] && store.receipts == []
    ensures store.soldItems == map[] && store.costOfSoldGoods == 0.0
    ensures store.GetAssignedDeskForCashier(cashier.id).Some?
  {
    var desk;
    store, cashier, desk := OpenedStore();
    var seated := store.AssignCashierToDesk(cashier.id, desk.id);
    assert seated.Pass?;
    store.SoleHolderAssigned(cashier.id, desk);
  }

  /** The staffed store with ten units of milk (purchase price 2.0, ten days to
      expiry) in stock. */
  method StockedStore(today: int) returns (store: Store, cashier: Cashier, milk: Product)
    ensures fresh(store) && fresh(store.counter) && fresh(milk) && store.Valid() && store.cfg == TestConfig()
    ensures store.cashiers == [cashier] && cashier.monthlySalary == 1000.0
    ensures store.inventory == map["F1" := milk] && milk.qty == 10 && milk.purchasePrice == 2.0
    ensures !milk.IsExpired(today) && milk.SalePrice(store.cfg, today) == 2.4
    ensures store.receipts == [] && store.costOfSoldGoods == 0.0
    ensures store.GetAssignedDeskForCashier(cashier.id).Some?
  {
    store, cashier := StaffedStore();
    milk := new Product("F1", "Milk", 2.0, Groceries, today + 10, 10);
    var added := store.AddProduct(milk);
    assert milk.SalePrice(store.cfg, today) == 2.4;
  }

  /** A customer with 200 buys five units of the milk: one receipt of one line
      at 2.40 a unit. */
  method MilkSale() returns (store: Store, milk: Product, customer: Customer, receipt: Receipt)
    ensures store.Valid() && SalarySum(store.cashiers) == 1000.0
    ensures store.receipts == [receipt] && receipt.lines == [Line(milk, 5, 2.4)]
    ensures store.costOfSoldGoods == 10.0 && milk.qty == 5 && customer.balance == 188.0
  {
    var today := 0;
    var cashier;
    store, cashier, milk := StockedStore(today);
    assert SalarySum(store.cashiers) == 1000.0 by {
      assert store.cashiers[1..] == [];
    }
    customer := new Customer("CU1", "Test Customer", 200.0);
    var sold := store.Sell(cashier, "F1", 5, customer, today);
    assert sold.Ok?;
    receipt := sold.value;
  }

  /** Turnover 12.00, cost of sold goods 10.00 and salaries 1000 give a profit
      of -998; five units stay in stock and the customer keeps 188. */
  method ProfitScenario() returns (profit: real, stock: int, balance: real)
    ensures profit == -998.0 && stock == 5 && balance == 188.0
  {
    var store, milk, customer, receipt := MilkSale();
    assert ReceiptsTotal(store.receipts) == 12.0 by {
      assert LinesTotal(receipt.lines) == 12.0 by {
        assert receipt.lines[1..] == [];
      }
      assert store.receipts[1..] == [];
    }
    profit := store.Profit();
    stock := milk.qty;
    balance := customer.balance;
  }
}
