// Engine limits and the stateless pre-trade check.
module Config {
  import opened Api
  import opened Margin

  datatype EngineConfig = EngineConfig(
    maximumOrderPrice: Price,
    maximumOrderQuantity: Quantity,
    maximumOrderNotional: Quantity,
    maximumPositionQuantity: Quantity,
    maximumOpenOrderQuantity: Quantity,
    maximumAccountCredit: Quantity,
    initialMarginBasisPoints: Quantity,
    maximumReferenceDeviationBasisPoints: Quantity)
  {
    // A band no wider than the reference itself.
    predicate ProperBand() {
      maximumReferenceDeviationBasisPoints <= 10000
    }
  }

  const DEFAULT_CONFIG := EngineConfig(
    MAX_I64, MAX_U64, MAX_U64, MAX_U64, MAX_U64, MAX_U64, 10000, 1000)

  datatype PreTradeResult = Passed | QuantityLimit | NotionalLimit | FatFingerLimit

  // The engine has already refused every non-market order whose price is not positive.
  function PreTrade(config: EngineConfig, request: PlaceOrder): PreTradeResult
    requires request.orderType.Market? || request.price > 0
  {
    if request.quantity > config.maximumOrderQuantity then QuantityLimit
    else if request.orderType.Market? then Passed
    else if request.price > config.maximumOrderPrice then FatFingerLimit
    else if request.quantity > config.maximumOrderNotional / ToUint64(request.price) then NotionalLimit
    else Passed
  }

  function MarginFor(config: EngineConfig, request: PlaceOrder): Quantity {
    var notional :=
      if request.orderType.Market? then config.maximumOrderNotional
      else SaturatedMultiply(ToUint64(request.price), request.quantity);
    SaturatedMultiply(notional, config.initialMarginBasisPoints) / BASIS_POINTS_SCALE
  }

  // The check by division is the notional bound itself, so the product that the
  // margin starts from is exact.
  lemma NotionalIsExact(config: EngineConfig, request: PlaceOrder)
    requires !request.orderType.Market? && request.price > 0
    requires request.quantity <= config.maximumOrderQuantity && request.price <= config.maximumOrderPrice
    ensures PreTrade(config, request).Passed? <==>
      request.price * request.quantity <= config.maximumOrderNotional
    ensures PreTrade(config, request).Passed? ==>
      SaturatedMultiply(ToUint64(request.price), request.quantity) == request.price * request.quantity
  {
    DivisionBound(request.quantity, config.maximumOrderNotional, request.price);
    SaturatedMultiplyIsClamped(ToUint64(request.price), request.quantity);
  }

  // What an order must put up, in exact arithmetic: its notional -- the largest one
  // allowed, for a market order -- times the margin rate, capped at 64 bits, at 10000
  // basis points to the whole.
  function MarginOwed(config: EngineConfig, request: PlaceOrder): int {
    var notional := if request.orderType.Market? then config.maximumOrderNotional else request.price * request.quantity;
    var charge := notional * config.initialMarginBasisPoints;
    (if charge < 0x1_0000_0000_0000_0000 then charge else 0xFFFF_FFFF_FFFF_FFFF) / 10000
  }

  // Every request that passes the pre-trade check is charged exactly that.
  lemma MarginIsExact(config: EngineConfig, request: PlaceOrder)
    requires request.orderType.Market? || request.price > 0
    requires PreTrade(config, request).Passed?
    ensures MarginFor(config, request) == MarginOwed(config, request)
  {
    if request.orderType.Market? {
      SaturatedMultiplyIsClamped(config.maximumOrderNotional, config.initialMarginBasisPoints);
    } else {
      NotionalIsExact(config, request);
      SaturatedMultiplyIsClamped(
        SaturatedMultiply(ToUint64(request.price), request.quantity), config.initialMarginBasisPoints);
    }
  }

  // A market order reserves at least as much as any priced order that passes.
  lemma MarketMarginDominates(config: EngineConfig, market: PlaceOrder, priced: PlaceOrder)
    requires market.orderType.Market? && !priced.orderType.Market? && priced.price > 0
    requires PreTrade(config, priced).Passed?
    ensures MarginFor(config, priced) <= MarginFor(config, market)
  {
    NotionalIsExact(config, priced);
    var notional := SaturatedMultiply(ToUint64(priced.price), priced.quantity);
    SaturatedMultiplyMonotone(notional, config.maximumOrderNotional, config.initialMarginBasisPoints);
    DivideMonotone(
      SaturatedMultiply(notional, config.initialMarginBasisPoints),
      SaturatedMultiply(config.maximumOrderNotional, config.initialMarginBasisPoints), BASIS_POINTS_SCALE);
  }

  // ---- What a unit costs at least ----

  const TWO_63: int := 0x8000_0000_0000_0000

  // A margin whose product saturated.
  const MARGIN_CAP: Quantity := MAX_U64 / BASIS_POINTS_SCALE

  // One unit at price one.
  function UnitMargin(config: EngineConfig): Quantity {
    config.initialMarginBasisPoints / BASIS_POINTS_SCALE
  }

  // The largest quantity of a priced order that the limits on a single order let through.
  function LargestOrder(config: EngineConfig): Quantity {
    Min(Min(config.maximumOrderQuantity, config.maximumOrderNotional),
        Min(config.maximumOpenOrderQuantity, MAX_I64))
  }

  // `margin` for every `quantity` units.
  datatype Rate = Rate(margin: nat, quantity: nat)

  function RateOf(unit: nat, largest: nat): (rate: Rate)
    ensures rate.quantity > 0
  {
    if largest * unit <= MARGIN_CAP then Rate(unit, 1) else Rate(MARGIN_CAP, largest)
  }

  // The least rate at which priced orders are charged: unit by unit, or in one
  // order so large that its margin saturates.
  function LeastRate(config: EngineConfig): (rate: Rate)
    ensures rate.quantity > 0
  {
    RateOf(UnitMargin(config), LargestOrder(config))
  }

  // At the least rate, the credit does not carry 2^63 open units.
  predicate CreditBinds(config: EngineConfig) {
    TWO_63 * LeastRate(config).margin > config.maximumAccountCredit * LeastRate(config).quantity
  }

  // A margin is that of its units taken one by one, or the cap.
  lemma MarginOfUnits(config: EngineConfig, notional: Quantity, quantity: Quantity)
    requires quantity <= notional
    ensures var margin := SaturatedMultiply(notional, config.initialMarginBasisPoints) / BASIS_POINTS_SCALE;
      margin == MARGIN_CAP || margin >= quantity * UnitMargin(config)
  {
    var bps, unit := config.initialMarginBasisPoints, UnitMargin(config);
    SaturatedMultiplyIsClamped(notional, bps);
    if notional * bps <= MAX_U64 {
      MulMonotone(unit * BASIS_POINTS_SCALE, bps, notional);
      assert (notional * unit) * BASIS_POINTS_SCALE <= notional * bps;
      MulMonotone(0, notional, bps);
      DivisionBound(notional * unit, notional * bps, BASIS_POINTS_SCALE);
      MulMonotone(quantity, notional, unit);
    }
  }

  lemma RateCovers(margin: nat, quantity: nat, unit: nat, largest: nat)
    requires quantity <= largest && (margin == MARGIN_CAP || margin >= quantity * unit)
    ensures margin * RateOf(unit, largest).quantity >= RateOf(unit, largest).margin * quantity
  {
    MulMonotone(quantity, largest, unit);
    MulMonotone(quantity, largest, MARGIN_CAP);
    if largest * unit > MARGIN_CAP && margin >= quantity * unit {
      MulMonotone(quantity * unit, margin, largest);
      MulMonotone(MARGIN_CAP, largest * unit, quantity);
      SwapLast(quantity, unit, largest);
    }
  }

  lemma SwapLast(a: int, b: int, c: int)
    ensures (a * b) * c == (c * b) * a
  {
  }

  lemma PricedFitsLargest(config: EngineConfig, request: PlaceOrder)
    requires !request.orderType.Market? && request.price > 0 && PreTrade(config, request).Passed?
    requires request.quantity <= config.maximumOpenOrderQuantity && request.quantity <= MAX_I64
    ensures request.quantity <= LargestOrder(config)
    ensures MarginFor(config, request) == MARGIN_CAP ||
            MarginFor(config, request) >= request.quantity * UnitMargin(config)
  {
    NotionalIsExact(config, request);
    MulMonotone(1, request.price, request.quantity);
    MarginOfUnits(config, request.price * request.quantity, request.quantity);
  }

  // Every priced order that passes the limits on a single order is charged at least
  // at the least rate.
  lemma ChargedAtLeastRate(config: EngineConfig, request: PlaceOrder)
    requires !request.orderType.Market? && request.price > 0 && PreTrade(config, request).Passed?
    requires request.quantity <= config.maximumOpenOrderQuantity && request.quantity <= MAX_I64
    ensures MarginFor(config, request) * LeastRate(config).quantity >= LeastRate(config).margin * request.quantity
  {
    PricedFitsLargest(config, request);
    RateCovers(MarginFor(config, request), request.quantity, UnitMargin(config), LargestOrder(config));
  }
}
