/**
 * The price rules of PriceCalculationService, each an Aviator expression over
 * Double inputs and decimal literals. Prices and rates are read as exact reals,
 * an idealisation of the double arithmetic Java performs on them.
 */
module PriceService {
  import opened JavaNumbers
  import MathFunctions
  import CustomFunctions

  /** The fields of a PriceCalculation request. */
  datatype PriceCalculation = PriceCalculation(
    originalPrice: real,
    quantity: int,
    discountRate: real,
    shippingFee: real,
    taxRate: real)

  /** `price * (1 - discount)` */
  function CalculateDiscountPrice(originalPrice: real, discountRate: real): (price: real)
    ensures discountRate == 0.0 ==> price == originalPrice
    ensures discountRate == 1.0 ==> price == 0.0
  {
    originalPrice * (1.0 - discountRate)
  }

  /** The service's discount and the `applyDiscount` function compute the same price. */
  lemma DiscountPriceIsApplyDiscount(price: real, rate: real)
    ensures CalculateDiscountPrice(price, rate)
         == CustomFunctions.ApplyDiscount(Double(price), Double(rate)).x
  {
  }

  /** A rate in [0, 1] on a non-negative price gives a price between 0 and the original. */
  lemma DiscountPriceBounds(price: real, rate: real)
    requires price >= 0.0 && 0.0 <= rate <= 1.0
    ensures 0.0 <= CalculateDiscountPrice(price, rate) <= price
  {
    CustomFunctions.ApplyDiscountBounds(Double(price), Double(rate));
  }

  /** `(price * quantity * (1 - discount) + shipping) * (1 + tax)`: the discount applies to the
      goods only, and the tax to goods and shipping together. */
  function CalculateFinalPrice(request: PriceCalculation): (total: real)
    ensures request.taxRate == 0.0 ==>
      total == CalculateDiscountPrice(request.originalPrice * request.quantity as real, request.discountRate)
               + request.shippingFee
  {
    (request.originalPrice * request.quantity as real * (1.0 - request.discountRate) + request.shippingFee)
      * (1.0 + request.taxRate)
  }

  /** Shipping is taxed but never discounted: it adds its taxed amount to the price of the
      same request shipped for free. */
  lemma FinalPriceShippingNotDiscounted(request: PriceCalculation)
    ensures CalculateFinalPrice(request)
         == CalculateFinalPrice(request.(shippingFee := 0.0)) + request.shippingFee * (1.0 + request.taxRate)
  {
  }

  /** The tax scales the whole untaxed total, goods and shipping alike. */
  lemma FinalPriceTaxScalesTotal(request: PriceCalculation)
    ensures CalculateFinalPrice(request) == CalculateFinalPrice(request.(taxRate := 0.0)) * (1.0 + request.taxRate)
  {
  }

  /** 100 x 2 at 10% off, 10 shipping, 5% tax: (180 + 10) * 1.05 = 199.5. */
  lemma FinalPriceExample()
    ensures CalculateFinalPrice(PriceCalculation(100.0, 2, 0.1, 10.0, 0.05)) == 199.5
  {
  }

  /** With no discount, shipping or tax the final price is the plain product. */
  lemma FinalPriceWithoutAdjustments(price: real, quantity: int)
    ensures CalculateFinalPrice(PriceCalculation(price, quantity, 0.0, 0.0, 0.0)) == price * quantity as real
  {
  }

  /** More shipping, with a non-negative tax, never lowers the final price. */
  lemma FinalPriceMonotoneInShipping(request: PriceCalculation, shipping': real)
    requires request.taxRate >= 0.0
    requires shipping' >= request.shippingFee
    ensures CalculateFinalPrice(request) <= CalculateFinalPrice(request.(shippingFee := shipping'))
  {
    var goods := request.originalPrice * request.quantity as real * (1.0 - request.discountRate);
    var t := 1.0 + request.taxRate;
    assert (goods + shipping') * t - (goods + request.shippingFee) * t == (shipping' - request.shippingFee) * t;
    assert (shipping' - request.shippingFee) * t >= 0.0 * t;
  }

  lemma DiscountPriceExample()
    ensures CalculateDiscountPrice(100.0, 0.2) == 80.0
  {
  }

  /** `price * (1 - min(level * 0.05, 0.2))`: five percent per level, at most twenty. */
  function CalculateVipDiscount(basePrice: real, vipLevel: int): (price: real)
    ensures basePrice >= 0.0 ==> price >= 0.8 * basePrice
    ensures vipLevel >= 4 ==> price == 0.8 * basePrice
    ensures vipLevel <= 4 ==> price == basePrice * (1.0 - 0.05 * vipLevel as real)
  {
    var cap := MathFunctions.Min(Decimal(vipLevel as real * 0.05), Decimal(0.2));
    assert basePrice >= 0.0 ==> basePrice * (1.0 - cap.x) >= basePrice * 0.8 by {
      if basePrice >= 0.0 {
        assert basePrice * (1.0 - cap.x) - basePrice * 0.8 == basePrice * (0.2 - cap.x);
        assert basePrice * (0.2 - cap.x) >= 0.0 * (0.2 - cap.x);
      }
    }
    basePrice * (1.0 - cap.x)
  }

  /** Level 3 takes 15% off: 100 becomes 85. */
  lemma VipDiscountExample()
    ensures CalculateVipDiscount(100.0, 3) == 85.0
  {
  }

  /** A higher level never costs more, for a non-negative price. */
  lemma VipDiscountMonotone(basePrice: real, level: int, level': int)
    requires basePrice >= 0.0
    requires level <= level'
    ensures CalculateVipDiscount(basePrice, level') <= CalculateVipDiscount(basePrice, level)
  {
    var c := MathFunctions.Min(Decimal(level as real * 0.05), Decimal(0.2));
    var c' := MathFunctions.Min(Decimal(level' as real * 0.05), Decimal(0.2));
    assert c.x <= c'.x;
    assert basePrice * (1.0 - c.x) - basePrice * (1.0 - c'.x) == basePrice * (c'.x - c.x);
    assert basePrice * (c'.x - c.x) >= 0.0 * (c'.x - c.x);
  }

  /** The cap has no lower end: a negative level raises the price (to 110 in exact arithmetic;
      Java's doubles give 110.00000000000001). */
  lemma VipDiscountNegativeLevel()
    ensures CalculateVipDiscount(100.0, -2) == 110.0
  {
  }

  /** `amount >= 500 ? amount - 80 : (amount >= 200 ? amount - 25 :
      (amount >= 100 ? amount - 10 : amount))` */
  function CalculateFullReduction(totalAmount: real): (price: real)
    ensures price <= totalAmount
    ensures totalAmount - price <= 80.0
    ensures totalAmount >= 0.0 ==> price >= 0.0
    ensures totalAmount < 100.0 ==> price == totalAmount
  {
    if totalAmount >= 500.0 then totalAmount - 80.0
    else if totalAmount >= 200.0 then totalAmount - 25.0
    else if totalAmount >= 100.0 then totalAmount - 10.0
    else totalAmount
  }

  /** The promotion table 满100减10, 满200减25, 满500减80: an order of at least the threshold may
      take that reduction off; any order may take nothing off. */
  predicate QualifiesForReduction(amount: real, off: real) {
    off == 0.0
    || (amount >= 100.0 && off == 10.0)
    || (amount >= 200.0 && off == 25.0)
    || (amount >= 500.0 && off == 80.0)
  }

  /** The reduction an amount earns, read off the table: each threshold reached offers its
      reduction, and the largest offer is taken. */
  function ReductionTier(amount: real): (off: real)
    ensures QualifiesForReduction(amount, off)
    ensures forall o :: QualifiesForReduction(amount, o) ==> o <= off
  {
    var offer100 := if amount >= 100.0 then 10.0 else 0.0;
    var offer200 := if amount >= 200.0 then 25.0 else 0.0;
    var offer500 := if amount >= 500.0 then 80.0 else 0.0;
    LargerOffer(LargerOffer(offer100, offer200), offer500)
  }

  /** The larger of two offers: a maximum taken by the table reading, not a call the
      expression makes. */
  function LargerOffer(x: real, y: real): real {
    if x >= y then x else y
  }

  /** The first-match chain of the full-reduction expression takes off exactly the largest
      reduction the table grants. */
  lemma FullReductionIsTierSubtraction(amount: real)
    ensures amount - CalculateFullReduction(amount) == ReductionTier(amount)
  {
  }

  /** A larger order never earns a smaller reduction. */
  lemma ReductionMonotone(amount: real, amount': real)
    requires amount <= amount'
    ensures amount - CalculateFullReduction(amount) <= amount' - CalculateFullReduction(amount')
  {
  }

  /** The paid amount is not monotone: reaching a threshold can make a larger order cheaper. */
  lemma FullReductionNotMonotone()
    ensures CalculateFullReduction(499.0) > CalculateFullReduction(500.0)
    ensures CalculateFullReduction(99.0) > CalculateFullReduction(100.0)
  {
  }

  lemma FullReductionExamples()
    ensures CalculateFullReduction(100.0) == 90.0
    ensures CalculateFullReduction(200.0) == 175.0
    ensures CalculateFullReduction(500.0) == 420.0
  {
  }

  /** The number of the tier bounds 10, 50 and 100 a quantity exceeds. */
  function BoundsExceeded(quantity: int): (k: nat)
    ensures k <= 3
  {
    (if quantity > 10 then 1 else 0) + (if quantity > 50 then 1 else 0) + (if quantity > 100 then 1 else 0)
  }

  /** The discount rate of each quantity tier: 1-10 none, 11-50 10%, 51-100 20%, above 30%. */
  function QuantityDiscount(quantity: int): (rate: real)
    ensures 0.0 <= rate <= 0.3
    ensures rate == 0.1 * BoundsExceeded(quantity) as real
  {
    if quantity <= 10 then 0.0
    else if quantity <= 50 then 0.1
    else if quantity <= 100 then 0.2
    else 0.3
  }

  /** `qty <= 10 ? qty * price : (qty <= 50 ? qty * price * 0.9 :
      (qty <= 100 ? qty * price * 0.8 : qty * price * 0.7))` */
  function CalculateTieredPrice(quantity: int, unitPrice: real): (total: real)
    ensures total == CalculateDiscountPrice(quantity as real * unitPrice, QuantityDiscount(quantity))
  {
    if quantity <= 10 then quantity as real * unitPrice
    else if quantity <= 50 then quantity as real * unitPrice * 0.9
    else if quantity <= 100 then quantity as real * unitPrice * 0.8
    else quantity as real * unitPrice * 0.7
  }

  /** The tier discount never shrinks as the quantity grows. */
  lemma QuantityDiscountMonotone(quantity: int, quantity': int)
    requires quantity <= quantity'
    ensures QuantityDiscount(quantity) <= QuantityDiscount(quantity')
  {
  }

  /** For non-negative inputs the total lies between 70% and 100% of the undiscounted total. */
  lemma TieredPriceBounds(quantity: int, unitPrice: real)
    requires quantity >= 0 && unitPrice >= 0.0
    ensures 0.7 * (quantity as real * unitPrice) <= CalculateTieredPrice(quantity, unitPrice)
    ensures CalculateTieredPrice(quantity, unitPrice) <= quantity as real * unitPrice
  {
    var gross := quantity as real * unitPrice;
    var d := QuantityDiscount(quantity);
    assert gross >= 0.0 by {
      assert quantity as real * unitPrice >= 0.0 * unitPrice;
    }
    assert CalculateTieredPrice(quantity, unitPrice) == gross - gross * d;
    assert gross * d >= 0.0 * d;
    assert gross * (0.3 - d) >= 0.0 * (0.3 - d);
  }

  /** Each upper bound is inclusive: 10, 50 and 100 items still pay the lower tier's rate. */
  lemma TieredPriceBoundaries(unitPrice: real)
    ensures CalculateTieredPrice(10, unitPrice) == 10.0 * unitPrice
    ensures CalculateTieredPrice(11, unitPrice) == 11.0 * unitPrice * 0.9
    ensures CalculateTieredPrice(50, unitPrice) == 50.0 * unitPrice * 0.9
    ensures CalculateTieredPrice(100, unitPrice) == 100.0 * unitPrice * 0.8
    ensures CalculateTieredPrice(101, unitPrice) == 101.0 * unitPrice * 0.7
  {
  }

  /** 60 items at 10 fall in the 20% tier: 480. Buying 11 items at 10 costs less than 10. */
  lemma TieredPriceExamples()
    ensures CalculateTieredPrice(60, 10.0) == 480.0
    ensures CalculateTieredPrice(11, 10.0) < CalculateTieredPrice(10, 10.0)
  {
  }
}
