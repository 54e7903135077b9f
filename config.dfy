/** The pricing parameters of one store (config/StoreConfig.java). */
module Config {
  import opened Wrappers

  /** Immutable pricing parameters; the getters of the Java class are the fields. */
  datatype StoreConfig = StoreConfig(
    groceriesMarkup: real,
    nonFoodsMarkup: real,
    daysForNearExpiryDiscount: int,
    discountPercentage: real)
  {
    /** What the constructor's guards establish for every configuration it returns. */
    predicate Valid() {
      && groceriesMarkup >= 0.0
      && nonFoodsMarkup >= 0.0
      && 0.0 <= discountPercentage <= 1.0
      && daysForNearExpiryDiscount >= 0
    }
  }

  /** The two IllegalArgumentException messages of the constructor. */
  datatype ConfigError =
    | InvalidRates   // a negative markup, or a discount outside [0, 1]
    | NegativeDays   // a negative near-expiry day threshold

  /** The validating constructor: rates are checked first, then the day threshold;
      accepted values are stored unchanged. */
  function NewStoreConfig(groceriesMarkup: real, nonFoodsMarkup: real,
                          daysForNearExpiryDiscount: int, discountPercentage: real)
    : (r: Result<StoreConfig, ConfigError>)
    ensures r.Ok? <==>
      groceriesMarkup >= 0.0 && nonFoodsMarkup >= 0.0 &&
      0.0 <= discountPercentage <= 1.0 && daysForNearExpiryDiscount >= 0
    ensures r.Ok? ==>
      && r.value.Valid()
      && r.value.groceriesMarkup == groceriesMarkup
      && r.value.nonFoodsMarkup == nonFoodsMarkup
      && r.value.daysForNearExpiryDiscount == daysForNearExpiryDiscount
      && r.value.discountPercentage == discountPercentage
    ensures groceriesMarkup < 0.0 || nonFoodsMarkup < 0.0 ||
            discountPercentage < 0.0 || discountPercentage > 1.0
            ==> r == Err(InvalidRates)
    ensures r == Err(NegativeDays) <==>
      groceriesMarkup >= 0.0 && nonFoodsMarkup >= 0.0 &&
      0.0 <= discountPercentage <= 1.0 && daysForNearExpiryDiscount < 0
  {
    if groceriesMarkup < 0.0 || nonFoodsMarkup < 0.0 ||
       discountPercentage < 0.0 || discountPercentage > 1.0 then
      Err(InvalidRates)
    else if daysForNearExpiryDiscount < 0 then
      Err(NegativeDays)
    else
      Ok(StoreConfig(groceriesMarkup, nonFoodsMarkup, daysForNearExpiryDiscount, discountPercentage))
  }

  /** The no-argument constructor delegates to the validating one with the defaults. */
  function DefaultStoreConfig(): (c: StoreConfig)
    ensures NewStoreConfig(0.20, 0.25, 5, 0.30) == Ok(c)
    ensures c.Valid()
  {
    NewStoreConfig(0.20, 0.25, 5, 0.30).value
  }
}
