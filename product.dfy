/** A stocked product and its pricing rule (entity/Product.java). Dates are day
    numbers; the evaluation day `today` is a parameter instead of the system clock. */
module Products {
  import opened Config

  /** The category that selects the markup (GROCERIES or NON_FOODS). */
  datatype GoodsType = Groceries | NonFoods

  class Product {
    const id: string
    const name: string
    const purchasePrice: real
    const kind: GoodsType
    const expiry: int
    /** The stock counter: the only field that changes after construction. */
    var qty: int

    constructor (id: string, name: string, price: real, kind: GoodsType, expiry: int, qty: int)
      ensures this.id == id && this.name == name && this.purchasePrice == price
      ensures this.kind == kind && this.expiry == expiry && this.qty == qty
    {
      this.id := id;
      this.name := name;
      this.purchasePrice := price;
      this.kind := kind;
      this.expiry := expiry;
      this.qty := qty;
    }

    /** Adds `d` (negative for a sale) to the stock; nothing else changes, the
        other fields being constants. */
    method AddQuantity(d: int)
      modifies this
      ensures qty == old(qty) + d
    {
      qty := qty + d;
    }

    /** Expired when the expiry day is not after `today`: same-day expiry counts. */
    predicate IsExpired(today: int) {
      expiry <= today
    }

    /** The markup of this product's category. */
    function Markup(cfg: StoreConfig): real {
      if kind == Groceries then cfg.groceriesMarkup else cfg.nonFoodsMarkup
    }

    /** The price before any near-expiry discount. */
    function BasePrice(cfg: StoreConfig): real {
      purchasePrice * (1.0 + Markup(cfg))
    }

    /** Not expired, and the day `expiry - days` is not after `today`. */
    predicate InDiscountWindow(cfg: StoreConfig, today: int) {
      !IsExpired(today) && expiry - cfg.daysForNearExpiryDiscount <= today
    }

    /** The sale price: markup always, and inside the near-expiry window the
        discount taken off the marked-up price. Under a valid configuration it
        lies between zero and the base price. */
    function SalePrice(cfg: StoreConfig, today: int): (r: real)
      ensures cfg.Valid() && purchasePrice >= 0.0 ==> 0.0 <= r <= BasePrice(cfg)
      ensures !InDiscountWindow(cfg, today) ==> r == BasePrice(cfg)
      ensures InDiscountWindow(cfg, today) ==> r == BasePrice(cfg) * (1.0 - cfg.discountPercentage)
    {
      var price := BasePrice(cfg);
      if InDiscountWindow(cfg, today) then
        assert cfg.Valid() && purchasePrice >= 0.0 ==> price >= 0.0 && price * (1.0 - cfg.discountPercentage) <= price;
        price * (1.0 - cfg.discountPercentage)
      else
        price
    }
  }

  /** With a positive discount and a positive purchase price, the sale price is
      below the base price exactly on the days of the near-expiry window, from
      `expiry - days` inclusive up to the day before expiry. */
  lemma DiscountAppliedIffInWindow(p: Product, cfg: StoreConfig, today: int)
    requires cfg.Valid() && cfg.discountPercentage > 0.0 && p.purchasePrice > 0.0
    ensures p.SalePrice(cfg, today) < p.BasePrice(cfg) <==>
            p.expiry - cfg.daysForNearExpiryDiscount <= today < p.expiry
  {
    var base := p.BasePrice(cfg);
    assert base >= p.purchasePrice > 0.0 by {
      assert p.Markup(cfg) >= 0.0;
      assert base == p.purchasePrice + p.purchasePrice * p.Markup(cfg);
    }
    if p.InDiscountWindow(cfg, today) {
      assert p.SalePrice(cfg, today) == base * (1.0 - cfg.discountPercentage);
      assert base * (1.0 - cfg.discountPercentage) == base - base * cfg.discountPercentage;
      assert base * cfg.discountPercentage > 0.0;
    }
  }

  /** Expiry is final: the expiry day and every later day count as expired,
      the day before does not. */
  lemma ExpiredFromExpiryDay(p: Product, today: int, later: int)
    requires today <= later
    ensures p.IsExpired(today) ==> p.IsExpired(later)
    ensures p.IsExpired(p.expiry) && !p.IsExpired(p.expiry - 1)
  {
  }

  /** The window includes its first day and ends before the expiry day. */
  lemma DiscountWindowBoundaries(p: Product, cfg: StoreConfig)
    requires cfg.daysForNearExpiryDiscount >= 1
    ensures p.InDiscountWindow(cfg, p.expiry - cfg.daysForNearExpiryDiscount)
    ensures !p.InDiscountWindow(cfg, p.expiry - cfg.daysForNearExpiryDiscount - 1)
    ensures p.IsExpired(p.expiry) && !p.InDiscountWindow(cfg, p.expiry)
  {
  }

  /** The figures of the near-expiry and pricing tests, with markups 0.20 / 0.25,
      a 3-day window and a 0.30 discount. */
  lemma TestedSalePrices(p: Product, today: int)
    ensures var cfg := StoreConfig(0.20, 0.25, 3, 0.30);
      && (p.kind == Groceries && p.purchasePrice == 2.00 && p.expiry == today + 2
          ==> p.SalePrice(cfg, today) == 1.68)
      && (p.kind == Groceries && p.purchasePrice == 2.00 && p.expiry in {today + 4, today + 10}
          ==> p.SalePrice(cfg, today) == 2.40)
      && (p.kind == Groceries && p.purchasePrice == 10.00 && p.expiry == today + 2
          ==> p.SalePrice(cfg, today) == 8.40)
      && (p.kind == Groceries && p.purchasePrice == 10.00 && p.expiry == today + 10
          ==> p.SalePrice(cfg, today) == 12.00)
      && (p.kind == NonFoods && p.purchasePrice == 8.00 && p.expiry == today + 365
          ==> p.SalePrice(cfg, today) == 10.00)
      && (p.kind == NonFoods && p.purchasePrice == 3.00 && p.expiry == today + 1
          ==> p.SalePrice(cfg, today) == 2.625)
  {
  }
}
