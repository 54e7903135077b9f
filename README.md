# Retail store core, modelled in Dafny

This project models the in-memory retail core of a small Java store application.
It covers the following:

- **The store aggregate.** It holds the inventory of products by id, the cashiers,
  the cash desks, the recorded receipts, the sold quantity per product id, the
  cost of sold goods and the total cost of goods supplied.
- **The sale transaction and its variants.** `sell` and `addToReceipt` check in a
  fixed order. Then the customer pays, the stock, the sold count and the cost of
  sold goods are updated, and a receipt gets the line. `createReceipt` opens an
  empty receipt.
- **The cashier-to-desk assignment.** A cash desk is a Free/Occupied state
  machine with the invariant "open exactly when it holds a cashier". The store
  assigns a cashier to a desk and releases a desk. It also looks up the desk a
  cashier is working at.
- **Product pricing.** The sale price applies a category markup and a
  near-expiry discount whose window includes its first day. Expiry counts the
  expiry day itself as expired.
- **Receipts.** A receipt is an append-only list of validated lines. It takes its
  number from a global counter.
- **The customer's guarded payment.**
- **The validated pricing configuration.**
- **The financial read-outs.** Turnover, salary expenses and profit.

Module layout (one module per Java class of the core):

| module | file | Java source |
|---|---|---|
| `Wrappers` | wrappers.dfy | `Option`, `Result` and `Outcome` stand in for `Optional` and for thrown exceptions |
| `Config` | config.dfy | `StoreConfig`, as a datatype with a validating constructor function |
| `Products` | product.dfy | `Product`, as a class whose only mutable field is `qty` |
| `People` | person.dfy | `Cashier` (a value) and `Customer` (a class with a mutable balance) |
| `Receipts` | receipt.dfy | `Receipt` and its lines; the static counter becomes a `ReceiptCounter` object |
| `CashDesks` | cash_desk.dfy | `CashDesk`; the static id counter becomes a `DeskIdCounter` object |
| `Accounting` | accounting.dfy | the sums behind the store's read-outs and its cost-of-sold-goods invariant |
| `Stores` | store.dfy | `Store` |
| `Scenarios` | scenario.dfy | the profit test of `FinancialTest`, as a verified session |

Modelling choices:

- **Money.** `BigDecimal` amounts, and the configuration's rates, are exact `real`s.
- **Dates.** Dates are `int` day numbers. The "today" that the Java code reads
  from the system clock is a parameter `today`.
- **Errors.**
  - Each exception the core throws becomes a constructor of an error datatype,
    returned in a `Result` or `Outcome`.
  - `SaleError` has one kind per check of the sale path. A `PaymentRefused`
    kind carries the customer's `InsufficientBudget(required, available)`. A
    `LineRejected` kind carries the receipt's own refusal.
  - `AssignError` covers assignment and release.
- **Receipts.** Receipts are objects: `addToReceipt` changes a receipt that
  the caller holds.
- **Products.** Products are objects: a sale lowers the stock of the product
  that the inventory map points to.
- **Cashiers.** Cashiers are values: the Java class has only final fields, and
  desks and lookups compare cashiers by id.
- **Getters.** Getters are fields of the model: `getQuantity`, `isOpen`,
  `getLines`, `getReceiptCount`, `costOfSoldGoods`,
  `getTotalCostOfAllGoodsSupplied`, `getSoldItems` and the configuration
  getters. Copies returned by `getLines`, `getSoldItems` and the `list*`
  methods are values (`seq`/`map`), so changing them cannot reach the store.
- **The sale.** `sell` is split into named steps:
  - its two own checks;
  - `SettleLine`: the product checks, then payment, then `RecordSale`;
  - `IssueReceipt`: numbering the receipt and adding the line.

  The step `SettleAndIssue` joins the last two. `LineSettled` and
  `ProductRefusal` state the shared effects and refusals once.
- **Invariants.**
  - The store's `Valid()` holds four things:
    - the configuration is valid;
    - every desk is Free or Occupied;
    - no two desks share an id;
    - the stock invariant holds.
  - Desk ids come from one shared sequence counter, so distinct desks never
    share one (`DeskIdInjective`). `AddCashDesk` therefore asks for a desk whose
    id is not already taken by another desk; `TwoDeskStore` shows two desks from
    the one counter meeting it.
  - The stock invariant says that products are filed under their own ids and
    that every sold id is stocked.
  - It also says that `costOfSoldGoods` equals the purchase-price cost of the
    sold quantities (`SoldCost`).
  - "No cashier at two desks" is not an invariant of the store: a desk can be
    added already occupied. It is a predicate (`OneDeskPerCashier`) that
    assignment and release preserve.

Where the sources disagree:

- **`StoreConfig` types.** `StoreConfig` as written stores `double`s. `Product.salePrice` and the tests
  use its getters as `BigDecimal`s. The model follows `salePrice` and treats the
  rates as exact decimals.
- **Negative purchase price.** Nothing rejects a negative purchase price.
  When the unit price comes out negative (a negative purchase price, unless a
  full discount in the window makes it zero) and the customer's balance covers
  the charge, `sell` does the following:
  - the customer is charged (a negative amount, so the balance grows);
  - stock, sold count and cost of sold goods are updated;
  - a receipt number is taken;
  - only then does `Receipt.add` refuse the negative unit price.

  The model keeps exactly these partial effects on its `LineRejected` path.
- **`InsufficientBudgetException` arguments.** `Customer.pay`
  (src/main/java/org/informatics/entity/Customer.java:19) builds the exception
  from the amount and the balance, but the exception class
  (src/main/java/org/informatics/exception/InsufficientBudgetException.java:7)
  declares only a one-argument constructor taking the shortfall. The model
  follows `pay`: the refusal carries the amount and the balance, from which the
  shortfall is their difference.
- **Exceptions the tests expect.** The exception tests
  (src/test/java/org/informatics/store/ExceptionTest.java:80-117, 181-206)
  expect `addProduct` to throw `DuplicateProductException` and `sell` to throw
  `InvalidQuantityException` and `CashDeskNotAssignedException`. `Store`
  (src/main/java/org/informatics/store/Store.java:109-118, 140-146) instead
  returns `false` from `addProduct` and throws `IllegalArgumentException` and
  `IllegalStateException` from `sell`. The model follows `Store`: `AddProduct`
  returns a flag, and `Sell` reports `InvalidQuantity` and `NotAssigned`.

## Model

| member | source | states |
|---|---|---|
| Config.NewStoreConfig | src/main/java/org/informatics/config/StoreConfig.java:18-30 | Succeeds exactly when both markups are non-negative, the discount lies in [0, 1] and the day threshold is non-negative; a bad rate is reported before a bad day count; accepted values are stored unchanged and satisfy `Valid()` |
| Config.DefaultStoreConfig | src/main/java/org/informatics/config/StoreConfig.java:14-16 | The defaults 0.20, 0.25, 5, 0.30 pass the validating constructor and give a valid configuration |
| Products.Product.constructor | src/main/java/org/informatics/entity/Product.java:22-29 | Every field holds the given value |
| Products.Product.AddQuantity | src/main/java/org/informatics/entity/Product.java:51-54 | The stock becomes old stock plus `d`; all other fields are constants |
| Products.Product.SalePrice | src/main/java/org/informatics/entity/Product.java:61-78 | Outside the near-expiry window the price is the base price (purchase price times one plus the category markup); inside it, the base price times one minus the discount; under a valid configuration and a non-negative purchase price the price lies between zero and the base price |
| Products.ExpiredFromExpiryDay | src/main/java/org/informatics/entity/Product.java:56-59 | `IsExpired`: a product is expired on its expiry day and on every later day, and not on the day before |
| Products.DiscountAppliedIffInWindow | src/main/java/org/informatics/entity/Product.java:70-75 | With a positive discount and purchase price, the price is below the base price if and only if `expiry - days <= today < expiry` |
| Products.DiscountWindowBoundaries | src/main/java/org/informatics/entity/Product.java:56-75 | For a window of at least one day: the window includes its first day `expiry - days`, excludes the day before, and the expiry day itself is expired and undiscounted |
| Products.TestedSalePrices | src/test/java/org/informatics/store/NearExpiryDiscountTest.java:48-107 | Under markups 0.20/0.25, a 3-day window and 30 % off: 1.68, 2.40, 8.40, 12.00, 10.00 and 2.625 for the tested products and expiry dates |
| People.Customer.constructor | src/main/java/org/informatics/entity/Customer.java:11-14 | Id, name and balance hold the given values |
| People.Customer.Pay | src/main/java/org/informatics/entity/Customer.java:17-22 | Succeeds exactly when the balance covers the amount and then deducts it; otherwise reports the amount and the balance and changes nothing; paying exactly the balance leaves zero; a non-negative balance stays non-negative |
| Receipts.LinesTotalAppend | src/main/java/org/informatics/entity/Receipt.java:60-67 | Appending a line adds exactly its price times quantity to the total |
| Receipts.LinesTotalNonNegative | src/main/java/org/informatics/entity/Receipt.java:46-67 | A list of lines that `add` accepts has a non-negative total |
| Receipts.ReceiptCounter.constructor | src/main/java/org/informatics/entity/Receipt.java:20 | The counter starts at zero |
| Receipts.ReceiptCounter.Reset | src/main/java/org/informatics/entity/Receipt.java:73-75 | The counter is back at zero |
| Receipts.Receipt.constructor | src/main/java/org/informatics/entity/Receipt.java:20-28 | The counter rises by exactly one, the number is the new counter value (so positive), the receipt has no lines and is valid |
| Receipts.Receipt.Add | src/main/java/org/informatics/entity/Receipt.java:46-58 | Refuses a null product, then a non-positive quantity, then a negative price, leaving the lines alone; fails exactly in those cases; otherwise appends the one line at the end and the total grows by price times quantity; a receipt whose lines all passed the line checks keeps that property |
| Receipts.Receipt.Total | src/main/java/org/informatics/entity/Receipt.java:60-67 | The loop's sum equals the sum of price times quantity over the lines, and is non-negative for a receipt whose lines all passed the line checks |
| CashDesks.DigitChar | src/main/java/org/informatics/entity/CashDesk.java:18 | A digit below ten renders as a character between '0' and '9' |
| CashDesks.Decimal | src/main/java/org/informatics/entity/CashDesk.java:18 | The decimal rendering of a number is non-empty and made of digits only |
| CashDesks.DeskId | src/main/java/org/informatics/entity/CashDesk.java:18 | A desk id is "D" followed by at least one digit and digits only |
| CashDesks.DecimalShape | src/main/java/org/informatics/entity/CashDesk.java:18 | The decimal rendering of a number is non-empty, one digit exactly below ten, and ends with the last digit after the rendering of the number divided by ten |
| CashDesks.DecimalInjective | src/main/java/org/informatics/entity/CashDesk.java:18 | Different numbers have different decimal renderings |
| CashDesks.DeskIdInjective | src/main/java/org/informatics/entity/CashDesk.java:17-21 | Desks created with different sequence numbers get different ids |
| CashDesks.DeskIdCounter.constructor | src/main/java/org/informatics/entity/CashDesk.java:11 | Desk numbering starts at one |
| CashDesks.CashDesk.constructor | src/main/java/org/informatics/entity/CashDesk.java:17-21 | A new desk is free and closed, its id is "D" and the next sequence number, and the counter rises by one |
| CashDesks.CashDesk.IsOccupied | src/main/java/org/informatics/entity/CashDesk.java:35-37 | A desk in a valid state is occupied exactly when it is open |
| CashDesks.CashDesk.AssignCashier | src/main/java/org/informatics/entity/CashDesk.java:40-48 | A free desk takes the cashier and opens; an occupied desk refuses, naming its occupant, and stays as it was even for the same cashier; the Free/Occupied invariant is kept |
| CashDesks.CashDesk.ReleaseCashier | src/main/java/org/informatics/entity/CashDesk.java:50-56 | An occupied desk becomes free and closed; a free desk is unchanged, so release is idempotent; the invariant is kept |
| Accounting.SalarySumAppend | src/main/java/org/informatics/store/Store.java:237-243 | Adding a cashier adds exactly the salary to the salary sum |
| Accounting.ReceiptsTotalAppend | src/main/java/org/informatics/store/Store.java:224-230 | Adding a receipt adds exactly its total to the turnover |
| Accounting.SaleCostAdd | src/main/java/org/informatics/store/Store.java:170-171 | The purchase-price cost of a quantity is additive |
| Accounting.SoldCostRemove | src/main/java/org/informatics/store/Store.java:163-171 | The cost of sold goods, as a sum over the sold-quantity map, does not depend on the order of the ids |
| Accounting.SoldCostRecord | src/main/java/org/informatics/store/Store.java:163-171 | Raising (or creating) one id's sold count by `q` raises the sum by that product's purchase price times `q` |
| Accounting.SoldCostFrame | src/main/java/org/informatics/store/Store.java:109-118 | The sum depends only on the products of the ids that were sold |
| Stores.CashierIndex | src/main/java/org/informatics/store/Store.java:55-57 | The index of the first cashier with the id, or none when no cashier has it |
| Stores.DeskIndex | src/main/java/org/informatics/store/Store.java:51-53 | The index of the first desk with the id, or none when no desk has it |
| Stores.HolderIndex | src/main/java/org/informatics/store/Store.java:77-80 | The index of the first desk holding a cashier with the id, or none |
| Stores.OpenDeskIndex | src/main/java/org/informatics/store/Store.java:99-103 | The index of the first open desk holding a cashier with the id, or none |
| Stores.ElsewhereFrom | src/main/java/org/informatics/store/Store.java:66-70 | The index of the first desk holding the cashier under another desk id, or none |
| Stores.ElsewhereFirst | src/main/java/org/informatics/store/Store.java:66-70 | A desk that holds the cashier elsewhere with none such before it is the one the scan stops at |
| Stores.StockInvariantRecord | src/main/java/org/informatics/store/Store.java:161-171 | Recording a sale of `q > 0` units, with their purchase cost added to the cost of sold goods, keeps the stock invariant |
| Stores.StockInvariantAdd | src/main/java/org/informatics/store/Store.java:109-118 | Filing a product under its own new id keeps the stock invariant with the same sold counts and cost |
| Stores.Store.constructor | src/main/java/org/informatics/store/Store.java:35-37 | A new store is empty, with zero accumulators, and valid (so no two desks share an id) |
| Stores.Store.AddCashier | src/main/java/org/informatics/store/Store.java:39-41 | The cashier is appended; nothing else changes |
| Stores.Store.AddCashDesk | src/main/java/org/informatics/store/Store.java:43-45 | Given a desk whose id no other desk has, the desk is appended and the store stays valid; nothing else changes; a free desk keeps every cashier at one desk at most |
| Stores.Store.FindCashDeskById | src/main/java/org/informatics/store/Store.java:51-53 | None exactly when no desk has the id; otherwise the first desk that has it |
| Stores.Store.FindCashierById | src/main/java/org/informatics/store/Store.java:55-57 | None exactly when no cashier has the id; otherwise the first cashier that has it |
| Stores.Store.GetAssignedDeskForCashier | src/main/java/org/informatics/store/Store.java:99-103 | None exactly when no open desk holds a cashier with the id; otherwise the first such desk |
| Stores.Store.AssignRefusal | src/main/java/org/informatics/store/Store.java:59-74 | The first failing check of an assignment, in source order, each kind with its exact condition: unknown cashier, unknown desk, the cashier at another desk (the first one named), the desk held by another cashier (named) |
| Stores.Store.CheckAssignment | src/main/java/org/informatics/store/Store.java:59-74 | The checks with the desk scan return exactly AssignRefusal's error, or the cashier and desk the lookups find |
| Stores.Store.SeatCashier | src/main/java/org/informatics/store/Store.java:76-87 | Releases the first desk holding the cashier and seats the cashier at the desk, open; every other desk unchanged; no change when the cashier already sat there; afterwards this desk is the only one holding the cashier; one desk per cashier is preserved |
| Stores.Store.AssignCashierToDesk | src/main/java/org/informatics/store/Store.java:59-88 | Fails exactly when AssignRefusal names an error, with that error and no desk changed; otherwise the cashier is seated as SeatCashier states; re-assigning to the own desk changes nothing; on success the target is the only desk holding the cashier, so by SoleHolderAssigned it is the cashier's assigned desk; one desk per cashier is preserved |
| Stores.Store.SoleHolderAssigned | src/main/java/org/informatics/store/Store.java:99-103 | An open desk that is the only desk holding a cashier with the id is the desk the lookup returns for that id |
| Stores.Store.ReleaseCashierFromDesk | src/main/java/org/informatics/store/Store.java:90-97 | Fails exactly on an unknown desk, changing nothing; a free desk is left alone; otherwise the desk becomes free and closed while every other desk is unchanged, and, when no cashier sat at two desks, the former cashier then has no assigned desk |
| Stores.Store.AddProduct | src/main/java/org/informatics/store/Store.java:109-118 | Adds exactly when the id is new, raising the supplied cost by purchase price times quantity; on a taken id the original product and the supplied cost stay; sold counts and cost of sold goods never change |
| Stores.Store.Find | src/main/java/org/informatics/store/Store.java:120-122 | A product exactly when the id is stocked, namely the one filed under the id; under the stock invariant it carries that id |
| Stores.Store.ProductRefusal | src/main/java/org/informatics/store/Store.java:148-157 | The first product-side refusal, each with its exact condition: unknown id, expired, stock below the quantity (with requested and available); none exactly when all pass |
| Stores.Store.Charge | src/main/java/org/informatics/store/Store.java:158-160 | The amount charged is the line total of `qty` units at the sale price, and is non-negative under a valid configuration, a non-negative purchase price and quantity |
| Stores.Store.SettleLine | src/main/java/org/informatics/store/Store.java:148-171 | Returns the product-side refusal, else the payment refusal with the charge and the old balance, changing nothing on either; succeeds whenever all checks pass, and then the charge is paid, the stock falls by `qty` with no other product's stock moving, the sold count and the cost of sold goods rise, and the unit sale price is returned |
| Stores.Store.RecordSale | src/main/java/org/informatics/store/Store.java:161-171 | Stock down by `qty`, sold count up by `qty` (created when absent), cost of sold goods up by purchase price times `qty`; no other product's stock moves; the stock invariant is kept |
| Stores.Store.CountSale | src/main/java/org/informatics/store/Store.java:162-171 | The sold count and the cost of sold goods rise together so that the cost still equals the purchase-price cost of the sold counts |
| Stores.Store.Sell | src/main/java/org/informatics/store/Store.java:137-176 | Refusals in source order (quantity, open desk, product, stock, payment), each changing nothing; with all checks passed the line is settled, the counter rises by one and one fresh receipt holding the single line at the unit sale price is appended and returned; a negative unit price is refused by the receipt after the line was settled |
| Stores.Store.SettleAndIssue | src/main/java/org/informatics/store/Store.java:148-176 | The part of the sale after its own two checks, with the same effects as Sell states for it |
| Stores.Store.IssueReceipt | src/main/java/org/informatics/store/Store.java:172-175 | A new receipt takes the next number; with a non-negative price it holds the one line and is appended, raising turnover by price times quantity; with a negative price nothing is appended and turnover is unchanged |
| Stores.Store.AddToReceipt | src/main/java/org/informatics/store/Store.java:178-211 | The refusals and settlement of Sell without the desk check; the line is appended to the given receipt, which is returned, and the store's receipt list is unchanged |
| Stores.Store.CreateReceipt | src/main/java/org/informatics/store/Store.java:213-221 | Refused, taking no number, exactly when the cashier has no open desk; otherwise a fresh empty receipt with the next number is appended and turnover is unchanged |
| Stores.Store.Turnover | src/main/java/org/informatics/store/Store.java:224-230 | The loop's sum equals the sum of all receipt totals |
| Stores.Store.SalaryExpenses | src/main/java/org/informatics/store/Store.java:237-243 | The loop's sum equals the sum of all cashier salaries |
| Stores.Store.Profit | src/main/java/org/informatics/store/Store.java:254-256 | Profit equals turnover minus salary expenses minus cost of sold goods |
| Scenarios.TestConfig | src/test/java/org/informatics/store/FinancialTest.java:31-36 | The tests' pricing configuration is valid |
| Scenarios.OpenedStore | src/test/java/org/informatics/store/FinancialTest.java:37-44 | A new store with one cashier and one free desk |
| Scenarios.TwoDeskStore | src/main/java/org/informatics/entity/CashDesk.java:11-21 | Two desks made from one shared counter get the ids "D1" and "D2", which differ, and a store holding both is valid |
| Scenarios.StaffedStore | src/test/java/org/informatics/store/FinancialTest.java:46-50 | The assignment in the test set-up succeeds: the cashier has an assigned desk |
| Scenarios.StockedStore | src/test/java/org/informatics/store/FinancialTest.java:122 | The milk is stocked under "F1", not expired, and sells at 2.40 |
| Scenarios.MilkSale | src/test/java/org/informatics/store/FinancialTest.java:125 | Selling five units succeeds: one receipt with the line (milk, 5, 2.40), cost of sold goods 10.00, five left, the customer keeps 188 |
| Scenarios.ProfitScenario | src/test/java/org/informatics/store/FinancialTest.java:118-138 | The profit after that sale is 12.00 - 1000 - 10.00 = -998 |

## Left out

- `int` width: stock counts, sold counts, quantities, the receipt counter (`Receipt.COUNTER`, src/main/java/org/informatics/entity/Receipt.java:20-21) and the desk sequence (`CashDesk.nextId`, src/main/java/org/informatics/entity/CashDesk.java:11,18) are unbounded integers. Java's 32-bit wrap-around of `qty += d`, `currentQty + qty`, `++COUNTER` and `nextId++` is not modelled.
- `StoreConfig`'s `double` representation and rounding are not modelled: rates are exact reals, as `Product.salePrice` uses them.
- The system clock (`LocalDate.now()`, the receipt timestamp): the evaluation day is the parameter `today`, and receipts carry no time.
- `Receipt.save`, `Receipt.toString`, the file service, the console application and demo, and the console messages of `assignCashierToDesk` and `releaseCashier`: text and file output only.
- The service layer (`*ServiceImpl`, the service contracts) only delegates to `Store`. The restocking it declares has no implementation in `Store`.
- `Store.listCashDesks`, `listProducts`, `listReceipts`, `listCashiers`, `getReceiptCount` and `getConfig` return copies or fields; in the model these are the fields themselves.
- Null arguments other than the product passed to `Receipt.add` (a null cashier, customer, receipt or product map entry) are not modelled: Dafny references in those positions are non-null. The Java code would throw `NullPointerException` for them.
- The desk-assignment error inside `assignCashierToDesk` after the checks (`CashDeskOccupiedException` rethrown) cannot happen once the checks pass. SeatCashier proves that the desk accepts the cashier.
- Stores.Store.Sell: does not restate the turnover increase. IssueReceipt states it for the receipt that Sell appends.
