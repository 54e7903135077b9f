/** The store aggregate (store/Store.java): inventory, staff and desks, the sale
    transaction, desk assignment and the financial read-outs. */
module Stores {
  import opened Wrappers
  import opened Config
  import opened Products
  import opened People
  import opened Receipts
  import opened CashDesks
  import opened Accounting

  /** Why a sale line is refused, one kind per exception the sale path throws. */
  datatype SaleError =
    | InvalidQuantity(qty: int)                      // IllegalArgumentException
    | NotAssigned(cashierName: string)               // IllegalStateException
    | ProductNotFound(productId: string)
    | ProductExpired(productId: string)
    | InsufficientQuantity(productId: string, requested: int, available: int)
    | PaymentRefused(payment: PaymentError)          // InsufficientBudgetException
    | LineRejected(line: LineError)                  // thrown by Receipt.add

  /** Why a desk assignment or release fails. */
  datatype AssignError =
    | CashierNotFound(cashierId: string)
    | DeskNotFound(deskId: string)
    | CashierAlreadyAssigned(cashierId: string, otherDeskId: string)
    | DeskHeldByOther(deskId: string, occupantId: string)

  /** The desk currently holds a cashier with this id. */
  predicate Holds(d: CashDesk, cashierId: string)
    reads d
  {
    d.currentCashier.Some? && d.currentCashier.value.id == cashierId
  }

  // The source runs five separate first-match searches (three stream filters
  // and two desk scans), each with its own condition. They stay five
  // functions here so that each result is stated in terms of its own
  // condition; a shared search would need a predicate argument that reads the
  // desks, which every caller would then have to frame.

  /** Index of the first cashier with this id. */
  function CashierIndex(cs: seq<Cashier>, cashierId: string): (r: Option<nat>)
    ensures r.Some? ==> r.value < |cs| && cs[r.value].id == cashierId
    ensures r.Some? ==> forall j | 0 <= j < r.value :: cs[j].id != cashierId
    ensures r.None? ==> forall j | 0 <= j < |cs| :: cs[j].id != cashierId
  {
    if cs == [] then None
    else if cs[0].id == cashierId then Some(0)
    else match CashierIndex(cs[1..], cashierId)
      case None => None
      case Some(j) => Some(j + 1)
  }

  /** Index of the first desk with this id. */
  function DeskIndex(ds: seq<CashDesk>, deskId: string): (r: Option<nat>)
    ensures r.Some? ==> r.value < |ds| && ds[r.value].id == deskId
    ensures r.Some? ==> forall j | 0 <= j < r.value :: ds[j].id != deskId
    ensures r.None? ==> forall j | 0 <= j < |ds| :: ds[j].id != deskId
  {
    if ds == [] then None
    else if ds[0].id == deskId then Some(0)
    else match DeskIndex(ds[1..], deskId)
      case None => None
      case Some(j) => Some(j + 1)
  }

  /** Index of the first desk holding this cashier. */
  function HolderIndex(ds: seq<CashDesk>, cashierId: string): (r: Option<nat>)
    reads ds
    ensures r.Some? ==> r.value < |ds| && Holds(ds[r.value], cashierId)
    ensures r.Some? ==> forall j | 0 <= j < r.value :: !Holds(ds[j], cashierId)
    ensures r.None? ==> forall j | 0 <= j < |ds| :: !Holds(ds[j], cashierId)
  {
    if ds == [] then None
    else if Holds(ds[0], cashierId) then Some(0)
    else match HolderIndex(ds[1..], cashierId)
      case None => None
      case Some(j) => Some(j + 1)
  }

  /** Index of the first open desk holding this cashier. */
  function OpenDeskIndex(ds: seq<CashDesk>, cashierId: string): (r: Option<nat>)
    reads ds
    ensures r.Some? ==> r.value < |ds| && ds[r.value].isOpen && Holds(ds[r.value], cashierId)
    ensures r.Some? ==> forall j | 0 <= j < r.value :: !(ds[j].isOpen && Holds(ds[j], cashierId))
    ensures r.None? ==> forall j | 0 <= j < |ds| :: !(ds[j].isOpen && Holds(ds[j], cashierId))
  {
    if ds == [] then None
    else if ds[0].isOpen && Holds(ds[0], cashierId) then Some(0)
    else match OpenDeskIndex(ds[1..], cashierId)
      case None => None
      case Some(j) => Some(j + 1)
  }

  /** A desk holds the cashier but carries another id: assignment must fail. */
  predicate HeldElsewhere(d: CashDesk, cashierId: string, deskId: string)
    reads d
  {
    Holds(d, cashierId) && d.id != deskId
  }

  /** Products are filed under their own id, every sold id is a stocked one
      with a positive count, and the cost of sold goods is the purchase-price
      cost of the recorded sold quantities. */
  ghost predicate StockInvariant(inventory: map<string, Product>, sold: map<string, int>, cost: real) {
    && (forall id | id in inventory :: inventory[id].id == id)
    && sold.Keys <= inventory.Keys
    && (forall id | id in sold :: sold[id] > 0)
    && cost == SoldCost(sold, inventory)
  }

  /** Recording a sale of `q > 0` units of a stocked product keeps the stock
      invariant once its purchase cost is added to the cost of sold goods. */
  lemma StockInvariantRecord(inventory: map<string, Product>, sold: map<string, int>, cost: real, k: string, q: int,
                              sold': map<string, int>, cost': real)
    requires StockInvariant(inventory, sold, cost) && k in inventory && q > 0
    requires sold' == sold[k := SoldBefore(sold, k) + q]
    requires cost' == cost + inventory[k].purchasePrice * q as real
    ensures StockInvariant(inventory, sold', cost')
  {
    SoldCostRecord(sold, inventory, k, q);
  }

  /** Adding a product under a fresh id that is its own keeps the stock
      invariant with the same sold counts and cost. */
  lemma StockInvariantAdd(inventory: map<string, Product>, sold: map<string, int>, cost: real, p: Product)
    requires StockInvariant(inventory, sold, cost) && p.id !in inventory
    ensures StockInvariant(inventory[p.id := p], sold, cost)
  {
    SoldCostFrame(sold, inventory, inventory[p.id := p]);
  }

  /** Every desk is Free (closed, no cashier) or Occupied (open, a cashier). */
  ghost predicate DesksValid(ds: seq<CashDesk>)
    reads ds
  {
    forall i | 0 <= i < |ds| :: ds[i].Valid()
  }

  /** Two entries with the same id are the same desk: desk ids come from one
      shared sequence counter, so distinct desks never share one. */
  predicate UniqueDeskIds(ds: seq<CashDesk>) {
    forall i, j | 0 <= i < |ds| && 0 <= j < |ds| && ds[i].id == ds[j].id :: ds[i] == ds[j]
  }

  class Store {
    const cfg: StoreConfig
    /** The receipt numbering shared by every receipt (a static field in Java). */
    const counter: ReceiptCounter
    var inventory: map<string, Product>
    var receipts: seq<Receipt>
    var cashiers: seq<Cashier>
    var cashDesks: seq<CashDesk>
    var soldItems: map<string, int>
    var costOfSoldGoods: real
    var totalCostOfAllGoodsSupplied: real

    /** The stock invariant holds, every desk is Free or Occupied, no two
        desks share an id, and the pricing configuration is valid. */
    ghost predicate Valid()
      reads this, cashDesks
    {
      && cfg.Valid()
      && StockInvariant(inventory, soldItems, costOfSoldGoods)
      && DesksValid(cashDesks)
      && UniqueDeskIds(cashDesks)
    }

    /** No cashier sits at two desks. */
    ghost predicate OneDeskPerCashier()
      reads this, cashDesks
    {
      forall i, j | 0 <= i < |cashDesks| && 0 <= j < |cashDesks| ::
        cashDesks[i].currentCashier.Some? && cashDesks[j].currentCashier.Some? &&
        cashDesks[i].currentCashier.value.id == cashDesks[j].currentCashier.value.id
        ==> cashDesks[i] == cashDesks[j]
    }

    constructor (cfg: StoreConfig, counter: ReceiptCounter)
      requires cfg.Valid()
      ensures Valid() && OneDeskPerCashier()
      ensures this.cfg == cfg && this.counter == counter
      ensures inventory == map[] && receipts == [] && cashiers == [] && cashDesks == []
      ensures soldItems == map[] && costOfSoldGoods == 0.0 && totalCostOfAllGoodsSupplied == 0.0
    {
      this.cfg := cfg;
      this.counter := counter;
      inventory := map[];
      receipts := [];
      cashiers := [];
      cashDesks := [];
      soldItems := map[];
      costOfSoldGoods := 0.0;
      totalCostOfAllGoodsSupplied := 0.0;
    }

    method AddCashier(c: Cashier)
      requires Valid()
      modifies this
      ensures Valid()
      ensures cashiers == old(cashiers) + [c]
      ensures inventory == old(inventory) && receipts == old(receipts) && cashDesks == old(cashDesks)
      ensures soldItems == old(soldItems) && costOfSoldGoods == old(costOfSoldGoods)
      ensures totalCostOfAllGoodsSupplied == old(totalCostOfAllGoodsSupplied)
    {
      cashiers := cashiers + [c];
    }

    /** Appends a desk; a free desk keeps every cashier at one desk at most. The
        desk carries an id no other desk of the store has, as every desk made
        from the shared counter does (DeskIdInjective). */
    method AddCashDesk(desk: CashDesk)
      requires Valid() && desk.Valid()
      requires forall i | 0 <= i < |cashDesks| :: cashDesks[i].id == desk.id ==> cashDesks[i] == desk
      modifies this
      ensures Valid()
      ensures cashDesks == old(cashDesks) + [desk]
      ensures inventory == old(inventory) && receipts == old(receipts) && cashiers == old(cashiers)
      ensures soldItems == old(soldItems) && costOfSoldGoods == old(costOfSoldGoods)
      ensures totalCostOfAllGoodsSupplied == old(totalCostOfAllGoodsSupplied)
      ensures old(OneDeskPerCashier()) && !desk.IsOccupied() ==> OneDeskPerCashier()
    {
      cashDesks := cashDesks + [desk];
    }

    /** The first desk with this id, if any. */
    function FindCashDeskById(deskId: string): (r: Option<CashDesk>)
      reads this
      ensures r.None? <==> forall i | 0 <= i < |cashDesks| :: cashDesks[i].id != deskId
      ensures r.Some? ==> exists i | 0 <= i < |cashDesks| ::
        (cashDesks[i] == r.value && cashDesks[i].id == deskId && forall j | 0 <= j < i :: cashDesks[j].id != deskId)
    {
      match DeskIndex(cashDesks, deskId)
      case None => None
      case Some(i) => Some(cashDesks[i])
    }

    /** The first cashier with this id, if any. */
    function FindCashierById(cashierId: string): (r: Option<Cashier>)
      reads this
      ensures r.None? <==> forall i | 0 <= i < |cashiers| :: cashiers[i].id != cashierId
      ensures r.Some? ==> exists i | 0 <= i < |cashiers| ::
        (cashiers[i] == r.value && r.value.id == cashierId && forall j | 0 <= j < i :: cashiers[j].id != cashierId)
    {
      match CashierIndex(cashiers, cashierId)
      case None => None
      case Some(i) => Some(cashiers[i])
    }

    /** The first open desk whose cashier has this id, if any. */
    function GetAssignedDeskForCashier(cashierId: string): (r: Option<CashDesk>)
      reads this, cashDesks
      ensures r.None? <==> forall i | 0 <= i < |cashDesks| :: !(cashDesks[i].isOpen && Holds(cashDesks[i], cashierId))
      ensures r.Some? ==> exists i | 0 <= i < |cashDesks| ::
        (cashDesks[i] == r.value && r.value.isOpen && Holds(r.value, cashierId) &&
         forall j | 0 <= j < i :: !(cashDesks[j].isOpen && Holds(cashDesks[j], cashierId)))
    {
      match OpenDeskIndex(cashDesks, cashierId)
      case None => None
      case Some(i) => Some(cashDesks[i])
    }

    /** The first reason to refuse assigning cashier `cashierId` to desk
        `deskId`, in the order the assignment checks them: an unknown cashier,
        an unknown desk, the cashier sitting at a desk with another id (the
        first such desk is named), the desk held by a cashier with another id. */
    function AssignRefusal(cashierId: string, deskId: string): (r: Option<AssignError>)
      reads this, cashDesks
      ensures r == Some(CashierNotFound(cashierId)) <==> FindCashierById(cashierId).None?
      ensures r == Some(DeskNotFound(deskId)) <==>
        FindCashierById(cashierId).Some? && FindCashDeskById(deskId).None?
      ensures r.Some? && r.value.CashierAlreadyAssigned? <==>
        && FindCashierById(cashierId).Some? && FindCashDeskById(deskId).Some?
        && exists i | 0 <= i < |cashDesks| :: HeldElsewhere(cashDesks[i], cashierId, deskId)
      ensures r.Some? && r.value.CashierAlreadyAssigned? ==>
        exists i | 0 <= i < |cashDesks| ::
          && HeldElsewhere(cashDesks[i], cashierId, deskId)
          && r.value == CashierAlreadyAssigned(cashierId, cashDesks[i].id)
          && forall j | 0 <= j < i :: !HeldElsewhere(cashDesks[j], cashierId, deskId)
      ensures r.Some? && r.value.DeskHeldByOther? <==>
        && FindCashierById(cashierId).Some? && FindCashDeskById(deskId).Some?
        && (forall i | 0 <= i < |cashDesks| :: !HeldElsewhere(cashDesks[i], cashierId, deskId))
        && FindCashDeskById(deskId).value.currentCashier.Some?
        && FindCashDeskById(deskId).value.currentCashier.value.id != cashierId
      ensures r.Some? && r.value.DeskHeldByOther? ==>
        r.value == DeskHeldByOther(deskId, FindCashDeskById(deskId).value.currentCashier.value.id)
    {
      if FindCashierById(cashierId).None? then Some(CashierNotFound(cashierId))
      else if FindCashDeskById(deskId).None? then Some(DeskNotFound(deskId))
      else match ElsewhereFrom(cashDesks, cashierId, deskId)
        case Some(i) => Some(CashierAlreadyAssigned(cashierId, cashDesks[i].id))
        case None =>
          var desk := FindCashDeskById(deskId).value;
          if desk.currentCashier.Some? && desk.currentCashier.value.id != cashierId
          then Some(DeskHeldByOther(deskId, desk.currentCashier.value.id))
          else None
    }

    /** No desk changed its cashier or its open flag. */
    twostate predicate DesksUnchanged()
      reads this, cashDesks
    {
      && cashDesks == old(cashDesks)
      && forall i | 0 <= i < |cashDesks| ::
           cashDesks[i].currentCashier == old(cashDesks[i].currentCashier) &&
           cashDesks[i].isOpen == old(cashDesks[i].isOpen)
    }

    /** The effect of a successful assignment: `desk` holds `cashier` and is
        open; the first desk that held a cashier with this id, when it is
        another desk, is free and closed; every other desk is as it was. */
    twostate predicate Seated(cashier: Cashier, desk: CashDesk)
      reads this, cashDesks, desk
    {
      && cashDesks == old(cashDesks)
      && desk.currentCashier == Some(cashier) && desk.isOpen
      && var holder := old(HolderIndex(cashDesks, cashier.id));
      && forall i | 0 <= i < |cashDesks| && cashDesks[i] != desk ::
           if holder.Some? && cashDesks[i] == cashDesks[holder.value]
           then cashDesks[i].currentCashier == None && !cashDesks[i].isOpen
           else cashDesks[i].currentCashier == old(cashDesks[i].currentCashier) &&
                cashDesks[i].isOpen == old(cashDesks[i].isOpen)
    }

    /** The checks of `assignCashierToDesk`, with the scan over the desks for
        the cashier sitting elsewhere. On success, the cashier and the desk
        the lookups find. */
    method CheckAssignment(cashierId: string, deskId: string) returns (res: Result<(Cashier, CashDesk), AssignError>)
      ensures res.Err? <==> AssignRefusal(cashierId, deskId).Some?
      ensures res.Err? ==> res.error == AssignRefusal(cashierId, deskId).value
      ensures res.Ok? ==> FindCashierById(cashierId) == Some(res.value.0) && FindCashDeskById(deskId) == Some(res.value.1)
      ensures res.Ok? ==> res.value.0.id == cashierId && res.value.1.id == deskId
      ensures res.Ok? ==> res.value.1.currentCashier.None? || Holds(res.value.1, cashierId)
      ensures res.Ok? ==> forall i | 0 <= i < |cashDesks| :: !HeldElsewhere(cashDesks[i], cashierId, deskId)
    {
      var cashierIdx := CashierIndex(cashiers, cashierId);
      if cashierIdx.None? {
        return Err(CashierNotFound(cashierId));
      }
      var deskIdx := DeskIndex(cashDesks, deskId);
      if deskIdx.None? {
        return Err(DeskNotFound(deskId));
      }
      var desk := cashDesks[deskIdx.value];
      var i := 0;
      while i < |cashDesks|
        invariant 0 <= i <= |cashDesks|
        invariant forall j | 0 <= j < i :: !HeldElsewhere(cashDesks[j], cashierId, deskId)
      {
        var d := cashDesks[i];
        if d.currentCashier.Some? && d.currentCashier.value.id == cashierId && d.id != deskId {
          assert ElsewhereFrom(cashDesks, cashierId, deskId) == Some(i) by {
            ElsewhereFirst(cashDesks, cashierId, deskId, i);
          }
          return Err(CashierAlreadyAssigned(cashierId, d.id));
        }
        i := i + 1;
      }
      if desk.IsOccupied() && desk.currentCashier.value.id != cashierId {
        return Err(DeskHeldByOther(deskId, desk.currentCashier.value.id));
      }
      res := Ok((cashiers[cashierIdx.value], desk));
    }

    /** Releases the first desk holding the cashier's id and seats the cashier
        at `desk`, the first desk with its id, which is free or already holds
        that id, while no desk with another id holds it. */
    method SeatCashier(cashier: Cashier, desk: CashDesk)
      requires Valid()
      requires FindCashDeskById(desk.id) == Some(desk)
      requires desk.currentCashier.None? || Holds(desk, cashier.id)
      requires forall i | 0 <= i < |cashDesks| :: !HeldElsewhere(cashDesks[i], cashier.id, desk.id)
      modifies cashDesks
      ensures Valid()
      ensures Seated(cashier, desk)
      ensures old(desk.currentCashier) == Some(cashier) ==> DesksUnchanged()
      ensures forall i | 0 <= i < |cashDesks| && Holds(cashDesks[i], cashier.id) :: cashDesks[i] == desk
      ensures old(OneDeskPerCashier()) ==> OneDeskPerCashier()
    {
      var holder := HolderIndex(cashDesks, cashier.id);
      if holder.Some? {
        // every holder carries the desk's id and the desk is the first with
        // that id, so a holding desk is the first holder
        assert cashDesks[holder.value].id == desk.id;
        assert Holds(desk, cashier.id) ==> cashDesks[holder.value] == desk;
        cashDesks[holder.value].ReleaseCashier();
      }
      var outcome := desk.AssignCashier(cashier);
      assert outcome.Pass?;
    }

    /** Assigns a known cashier to a known desk. Fails, changing nothing, with
        the first refusal of AssignRefusal; otherwise the cashier is seated at
        the desk as Seated describes. Re-assigning a cashier to its own desk
        changes nothing, and no cashier ends up at two desks. */
    method AssignCashierToDesk(cashierId: string, deskId: string) returns (res: Outcome<AssignError>)
      requires Valid()
      modifies cashDesks
      ensures Valid()
      ensures res.Fail? <==> old(AssignRefusal(cashierId, deskId)).Some?
      ensures res.Fail? ==> res.error == old(AssignRefusal(cashierId, deskId)).value && DesksUnchanged()
      ensures res.Pass? ==> Seated(FindCashierById(cashierId).value, old(FindCashDeskById(deskId)).value)
      ensures res.Pass? && old(FindCashDeskById(deskId).value.currentCashier) == FindCashierById(cashierId)
        ==> DesksUnchanged()
      ensures res.Pass? ==> forall i | 0 <= i < |cashDesks| && Holds(cashDesks[i], cashierId) ::
        Some(cashDesks[i]) == old(FindCashDeskById(deskId))
      ensures old(OneDeskPerCashier()) ==> OneDeskPerCashier()
    {
      var checked := CheckAssignment(cashierId, deskId);
      if checked.Err? {
        return Fail(checked.error);
      }
      var (cashier, desk) := checked.value;
      SeatCashier(cashier, desk);
      res := Pass;
    }

    /** An open desk that is the only desk holding a cashier with this id is
        that cashier's assigned desk. */
    lemma SoleHolderAssigned(cashierId: string, desk: CashDesk)
      requires desk in cashDesks && desk.isOpen && Holds(desk, cashierId)
      requires forall i | 0 <= i < |cashDesks| && Holds(cashDesks[i], cashierId) :: cashDesks[i] == desk
      ensures GetAssignedDeskForCashier(cashierId) == Some(desk)
    {
    }

    /** Frees and closes the desk with this id; a free desk is left as it is.
        Afterwards (when no cashier sat at two desks) the former cashier has no
        assigned desk. */
    method ReleaseCashierFromDesk(deskId: string) returns (res: Outcome<AssignError>)
      requires Valid()
      modifies cashDesks
      ensures Valid()
      ensures res.Fail? <==> FindCashDeskById(deskId).None?
      ensures res.Fail? ==> res == Fail(DeskNotFound(deskId)) && DesksUnchanged()
      ensures res.Pass? ==>
        var desk := FindCashDeskById(deskId).value;
        desk.currentCashier == None && !desk.isOpen
      ensures res.Pass? && old(FindCashDeskById(deskId).value.currentCashier).None? ==> DesksUnchanged()
      ensures forall i | 0 <= i < |cashDesks| && (res.Fail? || cashDesks[i] != FindCashDeskById(deskId).value) ::
        cashDesks[i].currentCashier == old(cashDesks[i].currentCashier) && cashDesks[i].isOpen == old(cashDesks[i].isOpen)
      ensures old(OneDeskPerCashier()) ==> OneDeskPerCashier()
      ensures res.Pass? && old(OneDeskPerCashier()) && old(FindCashDeskById(deskId).value.currentCashier).Some? ==>
        GetAssignedDeskForCashier(old(FindCashDeskById(deskId).value.currentCashier).value.id).None?
    {
      var deskIdx := DeskIndex(cashDesks, deskId);
      if deskIdx.None? {
        return Fail(DeskNotFound(deskId));
      }
      var desk := cashDesks[deskIdx.value];
      if !desk.IsOccupied() {
        return Pass;
      }
      desk.ReleaseCashier();
      res := Pass;
    }

    /** Adds a product under its id unless the id is taken, in which case the
        original product and the supplied cost are kept. A new product adds its
        purchase price times its quantity to the total cost of goods supplied. */
    method AddProduct(p: Product) returns (added: bool)
      requires Valid()
      modifies this
      ensures Valid()
      ensures added <==> p.id !in old(inventory)
      ensures added ==> inventory == old(inventory)[p.id := p]
      ensures added ==> totalCostOfAllGoodsSupplied == old(totalCostOfAllGoodsSupplied) + p.purchasePrice * p.qty as real
      ensures !added ==> inventory == old(inventory)
      ensures !added ==> totalCostOfAllGoodsSupplied == old(totalCostOfAllGoodsSupplied)
      ensures receipts == old(receipts) && cashiers == old(cashiers) && cashDesks == old(cashDesks)
      ensures soldItems == old(soldItems) && costOfSoldGoods == old(costOfSoldGoods)
    {
      if p.id in inventory {
        return false;
      }
      StockInvariantAdd(inventory, soldItems, costOfSoldGoods, p);
      inventory := inventory[p.id := p];
      totalCostOfAllGoodsSupplied := totalCostOfAllGoodsSupplied + p.purchasePrice * p.qty as real;
      added := true;
    }

    /** The product filed under `id`, or none; a missing id is not an error.
        Under the stock invariant the product found carries that id. */
    function Find(id: string): (r: Option<Product>)
      reads this
      ensures r.Some? <==> id in inventory
      ensures r.Some? ==> r.value == inventory[id]
      ensures r.Some? && StockInvariant(inventory, soldItems, costOfSoldGoods) ==> r.value.id == id
    {
      if id in inventory then Some(inventory[id]) else None
    }

    /** What the customer pays for `qty` units at today's sale price: exactly
        the total of the receipt line the sale writes, and never negative for a
        product with a non-negative purchase price. */
    function Charge(p: Product, qty: int, today: int): (r: real)
      ensures r == LineTotal(Line(p, qty, p.SalePrice(cfg, today)))
      ensures cfg.Valid() && p.purchasePrice >= 0.0 && qty >= 0 ==> r >= 0.0
    {
      p.SalePrice(cfg, today) * qty as real
    }

    /** The first product-side reason to refuse a sale line, checked in the
        order of the sale path: an unknown id, an expired product, then a stock
        smaller than the requested quantity. */
    function ProductRefusal(productId: string, qty: int, today: int): (r: Option<SaleError>)
      reads this`inventory, inventory.Values
      ensures r == Some(ProductNotFound(productId)) <==> productId !in inventory
      ensures r == Some(ProductExpired(productId)) <==>
        productId in inventory && inventory[productId].IsExpired(today)
      ensures r.Some? && r.value.InsufficientQuantity? <==>
        productId in inventory && !inventory[productId].IsExpired(today) && inventory[productId].qty < qty
      ensures r.Some? && r.value.InsufficientQuantity? ==>
        r.value == InsufficientQuantity(productId, qty, inventory[productId].qty)
      ensures r.None? <==>
        productId in inventory && !inventory[productId].IsExpired(today) && inventory[productId].qty >= qty
    {
      if productId !in inventory then Some(ProductNotFound(productId))
      else if inventory[productId].IsExpired(today) then Some(ProductExpired(productId))
      else if inventory[productId].qty < qty then
        Some(InsufficientQuantity(productId, qty, inventory[productId].qty))
      else None
    }

    /** What a paid sale line did, relative to the state before it: the
        product-side checks passed and the customer could afford the charge;
        the customer paid it, the product's stock fell by `qty` while no other
        product's stock moved, the sold count rose by `qty`, and the purchase
        cost of those units joined the cost of sold goods. */
    twostate predicate LineSettled(productId: string, qty: int, cust: Customer, today: int)
      reads this`inventory, this`soldItems, this`costOfSoldGoods, inventory.Values, cust
    {
      && inventory == old(inventory)
      && old(ProductRefusal(productId, qty, today)).None?
      && var p := inventory[productId];
      && old(cust.balance) >= Charge(p, qty, today)
      && cust.balance == old(cust.balance) - Charge(p, qty, today)
      && p.qty == old(p.qty) - qty
      && (forall id | id in inventory && id != productId :: inventory[id].qty == old(inventory[id].qty))
      && soldItems == old(soldItems)[productId := SoldBefore(old(soldItems), productId) + qty]
      && costOfSoldGoods == old(costOfSoldGoods) + p.purchasePrice * qty as real
    }

    /** The shared middle of `sell` and `addToReceipt`: refuse a product-side
        failure, then a customer who cannot pay, changing nothing; otherwise
        take payment and record the sold units. The result is the unit sale
        price. */
    method SettleLine(productId: string, qty: int, cust: Customer, today: int) returns (res: Result<real, SaleError>)
      requires Valid() && qty > 0
      modifies this, inventory.Values, cust
      ensures Valid()
      ensures inventory == old(inventory) && receipts == old(receipts) && cashiers == old(cashiers)
      ensures cashDesks == old(cashDesks) && totalCostOfAllGoodsSupplied == old(totalCostOfAllGoodsSupplied)
      ensures old(ProductRefusal(productId, qty, today)).Some? ==>
        res == Err(old(ProductRefusal(productId, qty, today)).value)
      ensures old(ProductRefusal(productId, qty, today)).None? ==>
        var total := Charge(inventory[productId], qty, today);
        (old(cust.balance) < total ==> res == Err(PaymentRefused(InsufficientBudget(total, old(cust.balance)))))
      ensures res.Err? ==> unchanged(this, cust) && unchanged(inventory.Values)
      ensures res.Err? ==> !res.error.InvalidQuantity? && !res.error.NotAssigned? && !res.error.LineRejected?
      ensures (old(ProductRefusal(productId, qty, today)).None? &&
               old(cust.balance) >= Charge(inventory[productId], qty, today)) ==> res.Ok?
      ensures res.Ok? ==> LineSettled(productId, qty, cust, today)
      ensures res.Ok? ==> res.value == inventory[productId].SalePrice(cfg, today)
    {
      if productId !in inventory {
        return Err(ProductNotFound(productId));
      }
      var p := inventory[productId];
      if p.IsExpired(today) {
        return Err(ProductExpired(productId));
      }
      if p.qty < qty {
        return Err(InsufficientQuantity(productId, qty, p.qty));
      }
      var price := p.SalePrice(cfg, today);
      var paid := cust.Pay(Charge(p, qty, today));
      if paid.Fail? {
        return Err(PaymentRefused(paid.error));
      }
      RecordSale(productId, qty);
      res := Ok(price);
    }

    /** The bookkeeping of a paid line: the product's stock goes down by `qty`,
        its sold count up by `qty`, and its purchase cost for `qty` units joins
        the cost of sold goods; no other product's stock moves. */
    method RecordSale(productId: string, qty: int)
      requires Valid() && productId in inventory && qty > 0
      modifies this, inventory[productId]
      ensures Valid()
      ensures inventory == old(inventory) && receipts == old(receipts) && cashiers == old(cashiers)
      ensures cashDesks == old(cashDesks) && totalCostOfAllGoodsSupplied == old(totalCostOfAllGoodsSupplied)
      ensures inventory[productId].qty == old(inventory[productId].qty) - qty
      ensures soldItems == old(soldItems)[productId := SoldBefore(old(soldItems), productId) + qty]
      ensures costOfSoldGoods == old(costOfSoldGoods) + inventory[productId].purchasePrice * qty as real
      ensures forall id | id in inventory && id != productId :: inventory[id].qty == old(inventory[id].qty)
    {
      inventory[productId].AddQuantity(-qty);
      CountSale(productId, qty);
    }

    /** The bookkeeping half of a sale: the sold count and the cost of sold goods. */
    method CountSale(productId: string, qty: int)
      requires Valid() && productId in inventory && qty > 0
      modifies this`soldItems, this`costOfSoldGoods
      ensures Valid()
      ensures soldItems == old(soldItems)[productId := SoldBefore(old(soldItems), productId) + qty]
      ensures costOfSoldGoods == old(costOfSoldGoods) + inventory[productId].purchasePrice * qty as real
    {
      ghost var sold0, cost0 := soldItems, costOfSoldGoods;
      // the two updates below leave the desks alone, so their part of Valid
      // carries over
      assert DesksValid(cashDesks) && UniqueDeskIds(cashDesks);
      soldItems := soldItems[productId := SoldBefore(soldItems, productId) + qty];
      costOfSoldGoods := costOfSoldGoods + inventory[productId].purchasePrice * qty as real;
      StockInvariantRecord(inventory, sold0, cost0, productId, qty, soldItems, costOfSoldGoods);
      assert DesksValid(cashDesks) == old(DesksValid(cashDesks));
    }

    /** A one-line sale. A non-positive quantity is refused first, then a
        cashier without an open desk, then the product-side and payment checks
        of SettleLine; each refusal changes nothing. A sale that goes through
        appends one new receipt, numbered by the shared counter, holding the
        single line (product, quantity, unit sale price). When the unit price is
        negative (a negative purchase price) the receipt refuses the line after
        the payment and the sale were recorded and the number was taken, and no
        receipt is recorded. */
    method Sell(cashier: Cashier, productId: string, qty: int, cust: Customer, today: int)
      returns (res: Result<Receipt, SaleError>)
      requires Valid()
      modifies this, inventory.Values, cust, counter
      ensures Valid()
      ensures inventory == old(inventory) && cashiers == old(cashiers) && cashDesks == old(cashDesks)
      ensures totalCostOfAllGoodsSupplied == old(totalCostOfAllGoodsSupplied)
      ensures qty <= 0 ==> res == Err(InvalidQuantity(qty))
      ensures qty > 0 && old(GetAssignedDeskForCashier(cashier.id)).None? ==> res == Err(NotAssigned(cashier.name))
      ensures qty > 0 && old(GetAssignedDeskForCashier(cashier.id)).Some? ==>
        var refusal := old(ProductRefusal(productId, qty, today));
        (refusal.Some? ==> res == Err(refusal.value))
      ensures qty > 0 && old(GetAssignedDeskForCashier(cashier.id)).Some? &&
              old(ProductRefusal(productId, qty, today)).None? ==>
        var total := Charge(inventory[productId], qty, today);
        (old(cust.balance) < total ==> res == Err(PaymentRefused(InsufficientBudget(total, old(cust.balance)))))
      ensures (qty > 0 && old(GetAssignedDeskForCashier(cashier.id)).Some? &&
               old(ProductRefusal(productId, qty, today)).None? &&
               old(cust.balance) >= Charge(inventory[productId], qty, today)) ==> res.Ok? || res.error.LineRejected?
      ensures res.Err? && !res.error.LineRejected? ==>
        unchanged(this, cust, counter) && unchanged(inventory.Values)
      ensures res.Ok? || res.error.LineRejected? ==>
        && qty > 0 && old(GetAssignedDeskForCashier(cashier.id)).Some?
        && LineSettled(productId, qty, cust, today)
        && counter.count == old(counter.count) + 1
        && (res.Ok? <==> inventory[productId].SalePrice(cfg, today) >= 0.0)
      ensures res.Ok? ==>
        && fresh(res.value)
        && receipts == old(receipts) + [res.value]
        && res.value.cashier == cashier
        && res.value.number == counter.count
        && res.value.lines == [Line(inventory[productId], qty, inventory[productId].SalePrice(cfg, today))]
      ensures res.Err? ==> receipts == old(receipts)
      ensures res.Err? && res.error.LineRejected? ==> res.error.line == NegativePrice
    {
      if qty <= 0 {
        return Err(InvalidQuantity(qty));
      }
      if GetAssignedDeskForCashier(cashier.id).None? {
        return Err(NotAssigned(cashier.name));
      }
      res := SettleAndIssue(cashier, productId, qty, cust, today);
    }

    /** The part of `sell` after its own two checks: settle the line, then
        issue the receipt for it. */
    method SettleAndIssue(cashier: Cashier, productId: string, qty: int, cust: Customer, today: int)
      returns (res: Result<Receipt, SaleError>)
      requires Valid() && qty > 0
      modifies this, inventory.Values, cust, counter
      ensures Valid()
      ensures inventory == old(inventory) && cashiers == old(cashiers) && cashDesks == old(cashDesks)
      ensures totalCostOfAllGoodsSupplied == old(totalCostOfAllGoodsSupplied)
      ensures old(ProductRefusal(productId, qty, today)).Some? ==>
        res == Err(old(ProductRefusal(productId, qty, today)).value)
      ensures old(ProductRefusal(productId, qty, today)).None? ==>
        var total := Charge(inventory[productId], qty, today);
        (old(cust.balance) < total ==> res == Err(PaymentRefused(InsufficientBudget(total, old(cust.balance)))))
      ensures res.Err? && !res.error.LineRejected? ==>
        unchanged(this, cust, counter) && unchanged(inventory.Values)
      ensures res.Err? ==> !res.error.InvalidQuantity? && !res.error.NotAssigned?
      ensures (old(ProductRefusal(productId, qty, today)).None? &&
               old(cust.balance) >= Charge(inventory[productId], qty, today)) ==> res.Ok? || res.error.LineRejected?
      ensures res.Ok? || res.error.LineRejected? ==>
        && LineSettled(productId, qty, cust, today)
        && counter.count == old(counter.count) + 1
        && (res.Ok? <==> inventory[productId].SalePrice(cfg, today) >= 0.0)
      ensures res.Ok? ==>
        && fresh(res.value)
        && receipts == old(receipts) + [res.value]
        && res.value.cashier == cashier
        && res.value.number == counter.count
        && res.value.lines == [Line(inventory[productId], qty, inventory[productId].SalePrice(cfg, today))]
      ensures res.Err? ==> receipts == old(receipts)
      ensures res.Err? && res.error.LineRejected? ==> res.error.line == NegativePrice
    {
      var settled := SettleLine(productId, qty, cust, today);
      if settled.Err? {
        return Err(settled.error);
      }
      res := IssueReceipt(cashier, inventory[productId], qty, settled.value);
    }

    /** The receipt half of `sell`: a new receipt takes the next number and the
        line; it is recorded unless the receipt refuses a negative price, in
        which case the number stays taken. */
    method IssueReceipt(cashier: Cashier, p: Product, qty: int, price: real) returns (res: Result<Receipt, SaleError>)
      requires Valid() && qty > 0
      modifies this, counter
      ensures Valid()
      ensures counter.count == old(counter.count) + 1
      ensures res.Ok? <==> price >= 0.0
      ensures res.Ok? ==>
        && fresh(res.value)
        && receipts == old(receipts) + [res.value]
        && res.value.cashier == cashier
        && res.value.number == counter.count
        && res.value.lines == [Line(p, qty, price)]
      ensures res.Err? ==> res == Err(LineRejected(NegativePrice)) && receipts == old(receipts)
      ensures res.Ok? ==> ReceiptsTotal(receipts) == old(ReceiptsTotal(receipts)) + price * qty as real
      ensures res.Err? ==> ReceiptsTotal(receipts) == old(ReceiptsTotal(receipts))
      ensures inventory == old(inventory) && cashiers == old(cashiers) && cashDesks == old(cashDesks)
      ensures soldItems == old(soldItems) && costOfSoldGoods == old(costOfSoldGoods)
      ensures totalCostOfAllGoodsSupplied == old(totalCostOfAllGoodsSupplied)
    {
      var r := new Receipt(cashier, counter);
      var added := r.Add(p, qty, price);
      if added.Fail? {
        return Err(LineRejected(added.error));
      }
      ReceiptsTotalAppend(receipts, r);
      assert LinesTotal(r.lines) == price * qty as real by {
        assert r.lines[1..] == [];
      }
      receipts := receipts + [r];
      res := Ok(r);
    }

    /** Adds one line to an open receipt: the checks and updates of `sell`
        without the desk check. The line goes to the given receipt and the
        store's receipt list is left alone; a negative unit price is refused by
        the receipt after the payment and the sale were recorded. */
    method AddToReceipt(receipt: Receipt, productId: string, qty: int, cust: Customer, today: int)
      returns (res: Result<Receipt, SaleError>)
      requires Valid()
      modifies this, inventory.Values, cust, receipt
      ensures Valid()
      ensures inventory == old(inventory) && cashiers == old(cashiers) && cashDesks == old(cashDesks)
      ensures receipts == old(receipts) && totalCostOfAllGoodsSupplied == old(totalCostOfAllGoodsSupplied)
      ensures qty <= 0 ==> res == Err(InvalidQuantity(qty))
      ensures qty > 0 ==>
        var refusal := old(ProductRefusal(productId, qty, today));
        (refusal.Some? ==> res == Err(refusal.value))
      ensures qty > 0 && old(ProductRefusal(productId, qty, today)).None? ==>
        var total := Charge(inventory[productId], qty, today);
        (old(cust.balance) < total ==> res == Err(PaymentRefused(InsufficientBudget(total, old(cust.balance)))))
      ensures (qty > 0 && old(ProductRefusal(productId, qty, today)).None? &&
               old(cust.balance) >= Charge(inventory[productId], qty, today)) ==> res.Ok? || res.error.LineRejected?
      ensures res.Err? && !res.error.LineRejected? ==>
        unchanged(this, cust, receipt) && unchanged(inventory.Values)
      ensures res.Ok? || res.error.LineRejected? ==>
        && qty > 0
        && LineSettled(productId, qty, cust, today)
        && (res.Ok? <==> inventory[productId].SalePrice(cfg, today) >= 0.0)
      ensures res.Ok? ==> res.value == receipt
      ensures res.Ok? ==>
        receipt.lines == old(receipt.lines) + [Line(inventory[productId], qty, inventory[productId].SalePrice(cfg, today))]
      ensures res.Err? ==> receipt.lines == old(receipt.lines)
      ensures res.Err? && res.error.LineRejected? ==> res.error.line == NegativePrice
    {
      if qty <= 0 {
        return Err(InvalidQuantity(qty));
      }
      var settled := SettleLine(productId, qty, cust, today);
      if settled.Err? {
        return Err(settled.error);
      }
      var added := receipt.Add(inventory[productId], qty, settled.value);
      if added.Fail? {
        return Err(LineRejected(added.error));
      }
      res := Ok(receipt);
    }

    /** Opens an empty receipt for a cashier at an open desk and records it;
        a cashier without one is refused before any number is taken. */
    method CreateReceipt(cashier: Cashier) returns (res: Result<Receipt, SaleError>)
      requires Valid()
      modifies this, counter
      ensures Valid()
      ensures res.Err? <==> old(GetAssignedDeskForCashier(cashier.id)).None?
      ensures res.Err? ==> res == Err(NotAssigned(cashier.name))
      ensures res.Err? ==> receipts == old(receipts) && counter.count == old(counter.count)
      ensures res.Ok? ==>
        && fresh(res.value) && res.value.lines == [] && res.value.cashier == cashier
        && receipts == old(receipts) + [res.value]
        && counter.count == old(counter.count) + 1 && res.value.number == counter.count
      ensures inventory == old(inventory) && cashiers == old(cashiers) && cashDesks == old(cashDesks)
      ensures soldItems == old(soldItems) && costOfSoldGoods == old(costOfSoldGoods)
      ensures totalCostOfAllGoodsSupplied == old(totalCostOfAllGoodsSupplied)
      ensures ReceiptsTotal(receipts) == old(ReceiptsTotal(receipts))
    {
      if GetAssignedDeskForCashier(cashier.id).None? {
        return Err(NotAssigned(cashier.name));
      }
      var r := new Receipt(cashier, counter);
      ReceiptsTotalAppend(receipts, r);
      receipts := receipts + [r];
      res := Ok(r);
    }

    /** Turnover: the sum of the totals of all recorded receipts. */
    method Turnover() returns (total: real)
      ensures total == ReceiptsTotal(receipts)
    {
      total := 0.0;
      var i := 0;
      while i < |receipts|
        invariant 0 <= i <= |receipts|
        invariant total == ReceiptsTotal(receipts[..i])
      {
        var t := receipts[i].Total();
        ReceiptsTotalAppend(receipts[..i], receipts[i]);
        assert receipts[..i + 1] == receipts[..i] + [receipts[i]];
        total := total + t;
        i := i + 1;
      }
      assert receipts[..i] == receipts;
    }

    /** The sum of the monthly salaries of all cashiers. */
    method SalaryExpenses() returns (total: real)
      ensures total == SalarySum(cashiers)
    {
      total := 0.0;
      var i := 0;
      while i < |cashiers|
        invariant 0 <= i <= |cashiers|
        invariant total == SalarySum(cashiers[..i])
      {
        SalarySumAppend(cashiers[..i], cashiers[i]);
        assert cashiers[..i + 1] == cashiers[..i] + [cashiers[i]];
        total := total + cashiers[i].monthlySalary;
        i := i + 1;
      }
      assert cashiers[..i] == cashiers;
    }

    /** Profit: turnover minus salary expenses minus cost of sold goods. */
    method Profit() returns (profit: real)
      ensures profit == ReceiptsTotal(receipts) - SalarySum(cashiers) - costOfSoldGoods
    {
      var turnover := Turnover();
      var salaries := SalaryExpenses();
      profit := turnover - salaries - costOfSoldGoods;
    }
  }

  /** Index of the first desk holding the cashier under an id other than `deskId`. */
  function ElsewhereFrom(ds: seq<CashDesk>, cashierId: string, deskId: string): (r: Option<nat>)
    reads ds
    ensures r.Some? ==> r.value < |ds| && HeldElsewhere(ds[r.value], cashierId, deskId)
    ensures r.Some? ==> forall j | 0 <= j < r.value :: !HeldElsewhere(ds[j], cashierId, deskId)
    ensures r.None? ==> forall j | 0 <= j < |ds| :: !HeldElsewhere(ds[j], cashierId, deskId)
  {
    if ds == [] then None
    else if HeldElsewhere(ds[0], cashierId, deskId) then Some(0)
    else match ElsewhereFrom(ds[1..], cashierId, deskId)
      case None => None
      case Some(j) => Some(j + 1)
  }

  /** A desk holding the cashier elsewhere, with none before it, is the one
      ElsewhereFrom finds. */
  lemma {:induction false} ElsewhereFirst(ds: seq<CashDesk>, cashierId: string, deskId: string, i: nat)
    requires i < |ds| && HeldElsewhere(ds[i], cashierId, deskId)
    requires forall j | 0 <= j < i :: !HeldElsewhere(ds[j], cashierId, deskId)
    ensures ElsewhereFrom(ds, cashierId, deskId) == Some(i)
  {
    if i > 0 {
      ElsewhereFirst(ds[1..], cashierId, deskId, i - 1);
    }
  }
}
