// The reference-price band, in the program's 64-bit arithmetic.
module FatFinger {
  import opened Api
  import opened Config
  import opened Margin

  datatype FatFingerResult = Accepted | ReferencePriceUnavailable | OutsideReferenceBand

  // Unsigned 64-bit product, keeping the low bits.
  function WrapMul(a: Quantity, b: Quantity): Quantity {
    MulMonotone(0, a, b);
    a * b % TWO_64
  }

  // floor(reference * bps / 10000), split so as not to overflow.
  function DeviationAmount(reference: Price, bps: Quantity): Price {
    var units := ToUint64(reference);
    ToInt64(WrapAdd(WrapMul(units / 10000, bps), WrapMul(units % 10000, bps) / 10000))
  }

  function Evaluate(config: EngineConfig, request: PlaceOrder, reference: Price): FatFingerResult {
    if request.orderType.Market? then Accepted
    else if reference <= 0 then ReferencePriceUnavailable
    else
      var deviation := DeviationAmount(reference, config.maximumReferenceDeviationBasisPoints);
      var lower := reference - deviation;
      var upper := if deviation > MAX_I64 - reference then MAX_I64 else reference + deviation;
      if lower <= request.price <= upper then Accepted else OutsideReferenceBand
  }

  lemma WrapMulExact(a: Quantity, b: Quantity)
    requires a * b <= MAX_U64
    ensures WrapMul(a, b) == a * b
  {
    MulMonotone(0, a, b);
  }

  // With a valid configuration nothing overflows and the deviation is exact.
  lemma DeviationIsExact(reference: Price, bps: Quantity)
    requires reference > 0 && bps <= 10000
    ensures 0 <= reference * bps
    ensures DeviationAmount(reference, bps) == reference * bps / 10000
    ensures 0 <= DeviationAmount(reference, bps) <= reference
  {
    var w, r := reference / 10000, reference % 10000;
    assert reference == w * 10000 + r;
    MulMonotone(0, w, bps);
    MulMonotone(0, r, bps);
    MulMonotone(bps, 10000, w);
    MulMonotone(bps, 10000, r);
    assert w * bps <= w * 10000 && r * bps <= r * 10000;
    WrapMulExact(w, bps);
    WrapMulExact(r, bps);
    assert reference * bps == (w * bps) * 10000 + r * bps;
    DivideSplit(w * bps, r * bps, 10000);
    DivisionBound(r * bps / 10000, r * bps, 10000);
  }

  // A priced order passes exactly when its distance from the reference is at most
  // the configured fraction of it.
  lemma BandIsExact(config: EngineConfig, request: PlaceOrder, reference: Price)
    requires config.ProperBand() && !request.orderType.Market?
    ensures Evaluate(config, request, reference).Accepted? <==>
      && reference > 0
      && 10000 * (request.price - reference) <= reference * config.maximumReferenceDeviationBasisPoints
      && 10000 * (reference - request.price) <= reference * config.maximumReferenceDeviationBasisPoints
  {
    if reference > 0 {
      var bps := config.maximumReferenceDeviationBasisPoints;
      DeviationIsExact(reference, bps);
      var d := reference * bps / 10000;
      WithinFloor(request.price - reference, reference * bps);
      WithinFloor(reference - request.price, reference * bps);
    }
  }

  // x <= floor(n / 10000) exactly when 10000 * x <= n.
  lemma WithinFloor(x: int, n: nat)
    ensures x <= n / 10000 <==> 10000 * x <= n
  {
  }
}
