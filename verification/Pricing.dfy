/** Units, exact rationals, and the two crossings out of exactness. */
module Money {
  import opened Outcomes
  import opened Rounding

  const PAISE_PER_RUPEE := 100
  const RATE_SCALE := 1000

  datatype DisplayUnit = PerGram | PerTenGram | PerKilogram

  function Grams(unit: DisplayUnit): (g: int)
    ensures g > 0
  {
    match unit
    case PerGram => 1
    case PerTenGram => 10
    case PerKilogram => 1000
  }

  datatype Rational = Rational(num: int, den: int)

  function AddRational(a: Rational, b: Rational): Rational {
    Rational(a.num * b.den + b.num * a.den, a.den * b.den)
  }

  function RationalToDisplayPaise(value: Rational, unit: DisplayUnit, precision: int, mode: RoundingMode)
    : Result<int, MoneyError>
  {
    RoundRationalToStep(value.num * Grams(unit), value.den * RATE_SCALE, precision, mode)
  }

  function RationalToRate(value: Rational): Result<int, MoneyError> {
    DivideAndRound(value.num, value.den, HalfEven)
  }

  // ----- What these mean as real numbers -----

  ghost function ValueOf(r: Rational): real
    requires r.den != 0
  {
    r.num as real / r.den as real
  }

  /** Milli-paise per gram, expressed in paise of a display unit. */
  ghost function InUnit(value: real, unit: DisplayUnit): real {
    value * Grams(unit) as real / 1000.0
  }

  ghost function Quantised(value: real, step: int, mode: RoundingMode): int
    requires step > 0
  {
    step * RoundReal(value / step as real, mode)
  }

  lemma SumOfRationals(a: Rational, b: Rational)
    requires a.den != 0 && b.den != 0
    ensures AddRational(a, b).den != 0
    ensures ValueOf(AddRational(a, b)) == ValueOf(a) + ValueOf(b)
  {
    var x, y := ValueOf(a), ValueOf(b);
    assert x * a.den as real == a.num as real && y * b.den as real == b.num as real;
    var s := AddRational(a, b);
    var d, e := a.den as real, b.den as real;
    assert s.den as real == d * e;
    assert s.num as real == a.num as real * e + b.num as real * d;
    assert (x + y) * (d * e) == (x * d) * e + (y * e) * d;
  }

  lemma ScaledRational(r: Rational, k: int)
    requires r.den != 0
    ensures (r.num * k) as real / r.den as real == ValueOf(r) * k as real
  {
    var x := ValueOf(r);
    assert x * r.den as real == r.num as real;
    assert (r.num * k) as real == r.num as real * k as real;
    assert x * k as real * r.den as real == x * r.den as real * k as real;
  }

  lemma DisplayIsQuantised(r: Rational, unit: DisplayUnit, precision: int, mode: RoundingMode)
    requires r.den != 0 && precision > 0
    ensures RationalToDisplayPaise(r, unit, precision, mode)
         == Success(Quantised(InUnit(ValueOf(r), unit), precision, mode))
  {
    var n, d := r.num * Grams(unit), r.den * RATE_SCALE;
    RationalStepIsOneRounding(n, d, precision, mode);
    ScaledRational(r, Grams(unit));
    NestedRatio(n, r.den, RATE_SCALE);
  }

  lemma StoredRateIsRounded(r: Rational)
    requires r.den != 0
    ensures RationalToRate(r) == Success(RoundReal(ValueOf(r), HalfEven))
  {
    DividesThenRounds(r.num, r.den, HalfEven);
  }

  /** Quantising moves a value by less than a step, and by at most half a step in the half modes. */
  lemma QuantisedError(value: real, step: int, mode: RoundingMode)
    requires step > 0
    ensures -(step as real) < Quantised(value, step, mode) as real - value < step as real
    ensures mode.HalfUp? || mode.HalfEven? ==>
      -(step as real) <= 2.0 * (Quantised(value, step, mode) as real - value) <= step as real
  {
    var s := step as real;
    var x := value / s;
    var q := RoundReal(x, mode);
    RoundingIsUnique(x, mode, q);
    assert x * s == value;
    var e := q as real - x;
    ErrorTimesStep(Quantised(value, step, mode) as real - value, e, s);
  }

  lemma ErrorTimesStep(error: real, e: real, s: real)
    requires s > 0.0 && -1.0 < e < 1.0 && error == e * s
    ensures -s < error < s
    ensures -0.5 <= e <= 0.5 ==> -s <= 2.0 * error <= s
  {
    Below(error, e, 1.0, s);
    Below(-error, -e, 1.0, s);
    Below(error, e, 0.5, s);
    Below(-error, -e, 0.5, s);
  }

  lemma Below(error: real, e: real, bound: real, s: real)
    requires s > 0.0 && error == e * s
    ensures e <= bound ==> error <= bound * s
    ensures e < bound ==> error < bound * s
  {
    assert (bound - e) * s == bound * s - error;
  }

  lemma QuantisedMonotone(x: real, y: real, step: int, mode: RoundingMode)
    requires step > 0 && x <= y
    ensures Quantised(x, step, mode) <= Quantised(y, step, mode)
  {
    var s := step as real;
    assert y / s - x / s == (y - x) / s;
    RoundRealMonotone(x / s, y / s, mode);
    StepMonotone(step, RoundReal(x / s, mode), RoundReal(y / s, mode));
  }

  lemma StepMonotone(step: int, a: int, b: int)
    requires step > 0 && a <= b
    ensures step * a <= step * b
  {
    assert step * b - step * a == step * (b - a);
  }
}

/** Fineness, and the multiplier from one fineness to another. */
module Purities {
  import opened Outcomes
  import opened Rounding

  datatype Purity = Purity(num: int, den: int)
  datatype PurityBasis = MarketConvention | FineRatio
  datatype Ratio = Ratio(num: int, den: int)

  predicate ValidPurity(p: Purity) { 0 < p.num <= p.den }

  function PurityRatio(from: Purity, to: Purity, basis: PurityBasis): Option<Ratio> {
    if !ValidPurity(from) || !ValidPurity(to) then None
    else if basis.MarketConvention? then Some(Ratio(to.num, to.den))
    else Some(Ratio(to.num * from.den, to.den * from.num))
  }

  predicate IsSamePurity(a: Purity, b: Purity) { a.num * b.den == b.num * a.den }

  ghost function Fineness(p: Purity): real
    requires p.den != 0
  {
    p.num as real / p.den as real
  }

  ghost function Multiplier(from: Purity, to: Purity, basis: PurityBasis): real
    requires ValidPurity(from) && ValidPurity(to)
  {
    if basis.MarketConvention? then Fineness(to) else FinenessPositive(from); Fineness(to) / Fineness(from)
  }

  lemma FinenessPositive(p: Purity)
    requires ValidPurity(p)
    ensures 0.0 < Fineness(p) <= 1.0
  {
    RatioAgainst(p.num, p.den, 0.0);
    RatioAgainst(p.num, p.den, 1.0);
  }

  /** The unevaluated ratio denotes the convention's multiplier, with a positive denominator. */
  lemma RatioDenotesMultiplier(from: Purity, to: Purity, basis: PurityBasis)
    requires ValidPurity(from) && ValidPurity(to)
    ensures PurityRatio(from, to, basis).Some?
    ensures var r := PurityRatio(from, to, basis).value;
            r.num > 0 && r.den > 0 && r.num as real / r.den as real == Multiplier(from, to, basis)
  {
    if basis.FineRatio? {
      FinenessPositive(from);
      RatioOfRatios(from.num, from.den, to.num, to.den);
    }
  }

  lemma RatioOfRatios(a: int, b: int, c: int, d: int)
    requires a > 0 && b > 0 && c > 0 && d > 0
    ensures a as real / b as real != 0.0
    ensures c * b > 0 && d * a > 0
    ensures (c * b) as real / (d * a) as real == (c as real / d as real) / (a as real / b as real)
  {
    var f, g := a as real / b as real, c as real / d as real;
    assert f * b as real == a as real && g * d as real == c as real;
    QuotientCross(f, g, a as real, b as real, c as real, d as real);
    assert (c * b) as real == c as real * b as real && (d * a) as real == d as real * a as real;
  }

  lemma QuotientCross(f: real, g: real, a: real, b: real, c: real, d: real)
    requires a > 0.0 && b > 0.0 && d > 0.0 && f * b == a && g * d == c
    ensures f != 0.0 && d * a != 0.0
    ensures c * b / (d * a) == g / f
  {
    var m := g / f;
    assert m * (d * a) == (m * f) * (d * b) == g * (d * b) == c * b;
  }

  /** Two purities count as the same exactly when their finenesses are equal numbers. */
  lemma SamePurityIsSameFineness(a: Purity, b: Purity)
    requires ValidPurity(a) && ValidPurity(b)
    ensures IsSamePurity(a, b) <==> Fineness(a) == Fineness(b)
  {
    var f, g := Fineness(a), Fineness(b);
    var d, e := a.den as real, b.den as real;
    assert f * d == a.num as real && g * e == b.num as real;
    assert (a.num * b.den) as real == f * d * e;
    assert (b.num * a.den) as real == g * e * d;
    if f != g {
      assert d * e > 0.0;
      assert (f - g) * (d * e) != 0.0;
    }
  }

  /** The fine ratio is the identity on equal finenesses and composes along a chain of conversions. */
  lemma FineRatioComposes(a: Purity, b: Purity, c: Purity)
    requires ValidPurity(a) && ValidPurity(b) && ValidPurity(c)
    ensures IsSamePurity(a, b) <==> Multiplier(a, b, FineRatio) == 1.0
    ensures Multiplier(a, b, FineRatio) * Multiplier(b, c, FineRatio) == Multiplier(a, c, FineRatio)
  {
    SamePurityIsSameFineness(a, b);
    FinenessPositive(a);
    FinenessPositive(b);
    FinenessPositive(c);
    var f, g, h := Fineness(a), Fineness(b), Fineness(c);
    assert (g / f) * f == g && (h / g) * g == h;
    assert ((g / f) * (h / g)) * f == h;
    if g / f == 1.0 { assert g == f; }
  }
}

/** The pricing engine: one function of a market rate and a tenant's rule. */
module PricingEngine {
  import opened Outcomes
  import opened Rounding
  import opened Money
  import opened Purities

  const BPS_SCALE := 10_000
  const MAX_ABSOLUTE_ADJUSTMENT := 10_000_000_000
  const MAX_ADJUSTMENT_BPS := 10_000

  datatype Adjustment = Absolute(milliPaisePerGram: int) | Percentage(bps: int)

  predicate ValidAdjustment(a: Adjustment) {
    match a
    case Absolute(amount) => Abs(amount) <= MAX_ABSOLUTE_ADJUSTMENT
    case Percentage(bps) => Abs(bps) <= MAX_ADJUSTMENT_BPS
  }

  function AdjustmentAmount(base: Rational, a: Adjustment): Option<Rational> {
    if !ValidAdjustment(a) then None
    else match a
      case Absolute(amount) => Some(Rational(amount, 1))
      case Percentage(bps) => Some(Rational(base.num * bps, base.den * BPS_SCALE))
  }

  datatype PricingInput = PricingInput(
    baseRate: int,
    basePurity: Purity,
    targetPurity: Purity,
    basis: PurityBasis,
    adjustment: Adjustment,
    unit: DisplayUnit,
    step: int,
    mode: RoundingMode,
    precision: int)

  datatype PricingResult = PricingResult(
    rawBaseRate: int,
    rawAdjustment: int,
    rawCustomerRate: int,
    baseDisplay: int,
    adjustmentDisplay: int,
    roundingDelta: int,
    rateDisplay: int)

  datatype PricingFailure =
    | NonPositiveBaseRate | BadStep | BadPrecision | BadPurity | BadAdjustment | NonPositiveRate
    | Arithmetic(error: MoneyError)
  {
    /** The failures the publication loop treats as a rule problem rather than a fault. */
    predicate IsPricingError() {
      NonPositiveBaseRate? || BadStep? || BadPrecision? || NonPositiveRate?
    }
  }

  function Lift<T>(r: Result<T, MoneyError>): Result<T, PricingFailure> {
    match r
    case Success(v) => Success(v)
    case Failure(e) => Failure(Arithmetic(e))
  }

  function ComputeCustomerRate(i: PricingInput): Result<PricingResult, PricingFailure> {
    if i.baseRate <= 0 then Failure(NonPositiveBaseRate)
    else if i.step <= 0 then Failure(BadStep)
    else if i.precision <= 0 then Failure(BadPrecision)
    else match PurityRatio(i.basePurity, i.targetPurity, i.basis)
      case None => Failure(BadPurity)
      case Some(ratio) =>
        var rawBase := Rational(i.baseRate * ratio.num, ratio.den);
        match AdjustmentAmount(rawBase, i.adjustment)
        case None => Failure(BadAdjustment)
        case Some(rawAdjustment) =>
          var rawCustomer := AddRational(rawBase, rawAdjustment);
          var rate :- Lift(RationalToDisplayPaise(rawCustomer, i.unit, i.step, i.mode));
          if rate <= 0 then Failure(NonPositiveRate)
          else
            var base :- Lift(RationalToDisplayPaise(rawBase, i.unit, i.precision, HalfEven));
            var adjustment :- Lift(RationalToDisplayPaise(rawAdjustment, i.unit, i.precision, HalfEven));
            var storedBase :- Lift(RationalToRate(rawBase));
            var storedAdjustment :- Lift(RationalToRate(rawAdjustment));
            var storedCustomer :- Lift(RationalToRate(rawCustomer));
            Success(PricingResult(
              storedBase, storedAdjustment, storedCustomer, base, adjustment, rate - base - adjustment, rate))
  }

  // ----- The price as an exact number -----

  /** Everything the engine checks before it computes a rate. */
  predicate Acceptable(i: PricingInput) {
    i.baseRate > 0 && i.step > 0 && i.precision > 0
    && ValidPurity(i.basePurity) && ValidPurity(i.targetPurity) && ValidAdjustment(i.adjustment)
  }

  ghost function BaseValue(i: PricingInput): real
    requires Acceptable(i)
  {
    i.baseRate as real * Multiplier(i.basePurity, i.targetPurity, i.basis)
  }

  ghost function AdjustmentValue(i: PricingInput): real
    requires Acceptable(i)
  {
    match i.adjustment
    case Absolute(amount) => amount as real
    case Percentage(bps) => BaseValue(i) * (bps as real / 10_000.0)
  }

  /** Market rate at the target fineness plus the shop's margin, in milli-paise per gram. */
  ghost function CustomerValue(i: PricingInput): real
    requires Acceptable(i)
  {
    BaseValue(i) + AdjustmentValue(i)
  }

  /** The authoritative figure: the exact value, in the display unit, rounded once. */
  ghost function CustomerPrice(i: PricingInput): int
    requires Acceptable(i)
  {
    Quantised(InUnit(CustomerValue(i), i.unit), i.step, i.mode)
  }

  ghost function Line(value: real, i: PricingInput): int
    requires Acceptable(i)
  {
    Quantised(InUnit(value, i.unit), i.precision, HalfEven)
  }

  /** The figures an input deserves. */
  ghost predicate Reports(r: PricingResult, i: PricingInput)
    requires Acceptable(i)
  {
    && r.rateDisplay == CustomerPrice(i)
    && r.baseDisplay == Line(BaseValue(i), i)
    && r.adjustmentDisplay == Line(AdjustmentValue(i), i)
    && r.rateDisplay == r.baseDisplay + r.adjustmentDisplay + r.roundingDelta
    && r.rawBaseRate == RoundReal(BaseValue(i), HalfEven)
    && r.rawAdjustment == RoundReal(AdjustmentValue(i), HalfEven)
    && r.rawCustomerRate == RoundReal(CustomerValue(i), HalfEven)
  }

  /** The engine prices an acceptable input exactly when its one rounding is positive, and every figure
      it reports is a single rounding of an exact value. */
  lemma PriceIsOneRounding(i: PricingInput)
    ensures ComputeCustomerRate(i).Success? <==> Acceptable(i) && CustomerPrice(i) > 0
    ensures Acceptable(i) && CustomerPrice(i) <= 0 ==> ComputeCustomerRate(i) == Failure(NonPositiveRate)
    ensures ComputeCustomerRate(i).Failure? ==>
      ComputeCustomerRate(i).error.IsPricingError()
        == (Acceptable(i) || i.baseRate <= 0 || i.step <= 0 || i.precision <= 0)
    ensures ComputeCustomerRate(i).Success? ==> Reports(ComputeCustomerRate(i).value, i)
  {
    if Acceptable(i) {
      RatioDenotesMultiplier(i.basePurity, i.targetPurity, i.basis);
      var ratio := PurityRatio(i.basePurity, i.targetPurity, i.basis).value;
      var base := Rational(i.baseRate * ratio.num, ratio.den);
      BaseDenotation(i, ratio);
      AdjustmentDenotation(i, base);
      var adjustment := AdjustmentAmount(base, i.adjustment).value;
      SumOfRationals(base, adjustment);
      var customer := AddRational(base, adjustment);
      DisplayIsQuantised(customer, i.unit, i.step, i.mode);
      DisplayIsQuantised(base, i.unit, i.precision, HalfEven);
      DisplayIsQuantised(adjustment, i.unit, i.precision, HalfEven);
      StoredRateIsRounded(base);
      StoredRateIsRounded(adjustment);
      StoredRateIsRounded(customer);
    }
  }

  /** Every reason for which the engine gives no price, in the order it looks for them. */
  lemma RejectionsAreExact(i: PricingInput)
    ensures var badAdjustment :=
        match i.adjustment
        case Absolute(amount) => amount < -10_000_000_000 || amount > 10_000_000_000
        case Percentage(bps) => bps < -10_000 || bps > 10_000;
      var badPurity :=
        i.basePurity.num <= 0 || i.basePurity.num > i.basePurity.den
        || i.targetPurity.num <= 0 || i.targetPurity.num > i.targetPurity.den;
      var r := ComputeCustomerRate(i);
      if i.baseRate <= 0 then r == Failure(NonPositiveBaseRate)
      else if i.step <= 0 then r == Failure(BadStep)
      else if i.precision <= 0 then r == Failure(BadPrecision)
      else if badPurity then r == Failure(BadPurity)
      else if badAdjustment then r == Failure(BadAdjustment)
      else Acceptable(i) && if CustomerPrice(i) <= 0 then r == Failure(NonPositiveRate) else r.Success?
  {
    PriceIsOneRounding(i);
    hide CustomerPrice, RationalToDisplayPaise, RationalToRate;
  }

  lemma BaseDenotation(i: PricingInput, ratio: Ratio)
    requires Acceptable(i) && ratio.den != 0
    requires ratio.num as real / ratio.den as real == Multiplier(i.basePurity, i.targetPurity, i.basis)
    ensures ValueOf(Rational(i.baseRate * ratio.num, ratio.den)) == BaseValue(i)
  {
    ScaledRational(Rational(ratio.num, ratio.den), i.baseRate);
  }

  lemma AdjustmentDenotation(i: PricingInput, base: Rational)
    requires Acceptable(i) && base.den != 0 && ValueOf(base) == BaseValue(i)
    ensures AdjustmentAmount(base, i.adjustment).Some?
    ensures AdjustmentAmount(base, i.adjustment).value.den != 0
    ensures ValueOf(AdjustmentAmount(base, i.adjustment).value) == AdjustmentValue(i)
  {
    if i.adjustment.Percentage? {
      NestedRatio(base.num * i.adjustment.bps, base.den, BPS_SCALE);
      ScaledRational(base, i.adjustment.bps);
    }
  }

  // ----- The result depends only on the numbers, not on how they are written -----

  /** Replacing a purity by an equal fineness changes no figure of the result. */
  lemma EqualFinenessEqualResult(i: PricingInput, from: Purity, to: Purity)
    requires Acceptable(i) && ValidPurity(from) && ValidPurity(to)
    requires IsSamePurity(from, i.basePurity) && IsSamePurity(to, i.targetPurity)
    ensures ComputeCustomerRate(i.(basePurity := from, targetPurity := to)) == ComputeCustomerRate(i)
  {
    var j := i.(basePurity := from, targetPurity := to);
    SamePurityIsSameFineness(from, i.basePurity);
    SamePurityIsSameFineness(to, i.targetPurity);
    EqualValuesEqualResult(i, j);
  }

  lemma EqualValuesEqualResult(i: PricingInput, j: PricingInput)
    requires Acceptable(i) && Acceptable(j)
    requires BaseValue(i) == BaseValue(j) && AdjustmentValue(i) == AdjustmentValue(j)
    requires i.unit == j.unit && i.step == j.step && i.mode == j.mode && i.precision == j.precision
    ensures ComputeCustomerRate(i) == ComputeCustomerRate(j)
  {
    PriceIsOneRounding(i);
    PriceIsOneRounding(j);
    assert CustomerPrice(i) == CustomerPrice(j);
  }

  // ----- Monotonicity -----

  /** No lower input in any of the quantities a caller can raise, everything else equal. */
  ghost predicate AtLeast(j: PricingInput, i: PricingInput)
    requires Acceptable(i) && Acceptable(j)
  {
    && j.baseRate >= i.baseRate
    && j.basePurity == i.basePurity && Fineness(j.targetPurity) >= Fineness(i.targetPurity)
    && j.basis == i.basis && j.unit == i.unit && j.step == i.step && j.mode == i.mode
    && match (i.adjustment, j.adjustment)
       case (Absolute(a), Absolute(b)) => a <= b
       case (Percentage(a), Percentage(b)) => a <= b
       case _ => false
  }

  lemma MultiplierPositive(from: Purity, to: Purity, basis: PurityBasis)
    requires ValidPurity(from) && ValidPurity(to)
    ensures Multiplier(from, to, basis) > 0.0
  {
    RatioDenotesMultiplier(from, to, basis);
    var r := PurityRatio(from, to, basis).value;
    RatioAgainst(r.num, r.den, 0.0);
  }

  lemma MultiplierMonotone(from: Purity, to: Purity, to': Purity, basis: PurityBasis)
    requires ValidPurity(from) && ValidPurity(to) && ValidPurity(to')
    requires Fineness(to) <= Fineness(to')
    ensures Multiplier(from, to, basis) <= Multiplier(from, to', basis)
  {
    FinenessPositive(from);
    if basis.FineRatio? {
      DividedMonotone(Fineness(to), Fineness(to'), Fineness(from));
    }
  }

  lemma DividedMonotone(x: real, y: real, s: real)
    requires s > 0.0 && x <= y
    ensures x / s <= y / s
  {
    assert y / s - x / s == (y - x) / s;
  }

  lemma ProductMonotone(a: real, a': real, b: real, b': real)
    requires 0.0 <= a <= a' && 0.0 <= b <= b'
    ensures a * b <= a' * b'
  {
    assert a' * b' - a * b == a' * (b' - b) + (a' - a) * b;
  }

  /** Raising the market rate, the fineness or the margin never lowers the price, and never turns a
      priced input into one rejected for a non-positive rate. */
  lemma PriceIsMonotone(i: PricingInput, j: PricingInput)
    requires Acceptable(i) && Acceptable(j) && AtLeast(j, i)
    ensures CustomerPrice(i) <= CustomerPrice(j)
    ensures ComputeCustomerRate(i).Success? ==>
      ComputeCustomerRate(j).Success?
      && ComputeCustomerRate(i).value.rateDisplay <= ComputeCustomerRate(j).value.rateDisplay
  {
    CustomerValueMonotone(i, j);
    var x, y := CustomerValue(i), CustomerValue(j);
    var g := Grams(i.unit) as real;
    assert x * g <= y * g by { assert (y - x) * g >= 0.0; }
    QuantisedMonotone(InUnit(x, i.unit), InUnit(y, i.unit), i.step, i.mode);
    PriceIsOneRounding(i);
    PriceIsOneRounding(j);
  }

  lemma BaseValueMonotone(i: PricingInput, j: PricingInput)
    requires Acceptable(i) && Acceptable(j) && AtLeast(j, i)
    ensures 0.0 <= BaseValue(i) <= BaseValue(j)
  {
    hide Multiplier, Fineness;
    MultiplierPositive(i.basePurity, i.targetPurity, i.basis);
    MultiplierMonotone(i.basePurity, i.targetPurity, j.targetPurity, i.basis);
    ProductMonotone(
      i.baseRate as real, j.baseRate as real,
      Multiplier(i.basePurity, i.targetPurity, i.basis), Multiplier(j.basePurity, j.targetPurity, j.basis));
  }

  lemma CustomerValueMonotone(i: PricingInput, j: PricingInput)
    requires Acceptable(i) && Acceptable(j) && AtLeast(j, i)
    ensures CustomerValue(i) <= CustomerValue(j)
  {
    hide BaseValue, ValidPurity;
    BaseValueMonotone(i, j);
    if i.adjustment.Percentage? {
      PercentageMonotone(BaseValue(i), BaseValue(j), i.adjustment.bps, j.adjustment.bps);
    }
  }

  lemma PercentageMonotone(base: real, base': real, bps: int, bps': int)
    requires 0.0 <= base <= base' && -10_000 <= bps <= bps'
    ensures base + base * (bps as real / 10_000.0) <= base' + base' * (bps' as real / 10_000.0)
  {
    var p, q := bps as real / 10_000.0, bps' as real / 10_000.0;
    ProductMonotone(base, base', 1.0 + p, 1.0 + q);
    assert base * (1.0 + p) == base + base * p;
    assert base' * (1.0 + q) == base' + base' * q;
  }

  // ----- The breakdown -----

  /** The residual line, from the exact values of the two components in the display unit. */
  ghost function Delta(base: real, adjustment: real, step: int, precision: int, mode: RoundingMode): int
    requires step > 0 && precision > 0
  {
    Quantised(base + adjustment, step, mode)
      - Quantised(base, precision, HalfEven) - Quantised(adjustment, precision, HalfEven)
  }

  lemma DeltaOf(i: PricingInput, r: PricingResult)
    requires Acceptable(i) && Reports(r, i)
    ensures r.roundingDelta
         == Delta(InUnit(BaseValue(i), i.unit), InUnit(AdjustmentValue(i), i.unit), i.step, i.precision, i.mode)
  {
    UnitSum(BaseValue(i), AdjustmentValue(i), i.unit);
  }

  lemma UnitSum(a: real, b: real, unit: DisplayUnit)
    ensures InUnit(a + b, unit) == InUnit(a, unit) + InUnit(b, unit)
  {
  }

  lemma DeltaBound(base: real, adjustment: real, step: int, precision: int, mode: RoundingMode)
    requires step > 0 && precision > 0
    ensures Abs(Delta(base, adjustment, step, precision, mode)) < step + precision
    ensures mode.HalfUp? || mode.HalfEven? ==>
      2 * Abs(Delta(base, adjustment, step, precision, mode)) <= step + 2 * precision
  {
    QuantisedError(base + adjustment, step, mode);
    QuantisedError(base, precision, HalfEven);
    QuantisedError(adjustment, precision, HalfEven);
  }

  /** The disclosed residual is bounded in every mode, and more tightly in the half modes. */
  lemma RoundingDeltaBound(i: PricingInput)
    requires ComputeCustomerRate(i).Success?
    ensures Abs(ComputeCustomerRate(i).value.roundingDelta) < i.step + i.precision
    ensures i.mode.HalfUp? || i.mode.HalfEven? ==>
      2 * Abs(ComputeCustomerRate(i).value.roundingDelta) <= i.step + 2 * i.precision
  {
    PriceIsOneRounding(i);
    DeltaOf(i, ComputeCustomerRate(i).value);
    DeltaBound(InUnit(BaseValue(i), i.unit), InUnit(AdjustmentValue(i), i.unit), i.step, i.precision, i.mode);
  }

  /** What rounding half to even discards from a number. */
  ghost function Residue(x: real): real { x - RoundReal(x, HalfEven) as real }

  /** Whether the parts dropped from two summands leave the sum of their roundings as the rounding of
      their sum. The mode is the one the sum is rounded in; `sum` settles its ties. */
  ghost predicate Absorbed(dropped: real, mode: RoundingMode, sum: int) {
    match mode
    case Floor => 0.0 <= dropped < 1.0
    case Ceil => -1.0 < dropped <= 0.0
    case HalfUp => -0.5 <= dropped <= 0.5 && (dropped == 0.5 ==> sum < 0) && (dropped == -0.5 ==> sum > 0)
    case HalfEven => -0.5 <= dropped <= 0.5 && (dropped == 0.5 || dropped == -0.5 ==> sum % 2 == 0)
  }

  ghost predicate FractionsCancel(x: real, y: real, mode: RoundingMode) {
    Absorbed(Residue(x) + Residue(y), mode, RoundReal(x, HalfEven) + RoundReal(y, HalfEven))
  }

  lemma RoundingsAddUp(x: real, y: real, mode: RoundingMode)
    ensures FractionsCancel(x, y, mode)
       <==> RoundReal(x + y, mode) == RoundReal(x, HalfEven) + RoundReal(y, HalfEven)
  {
    RoundingIsUnique(x + y, mode, RoundReal(x, HalfEven) + RoundReal(y, HalfEven));
  }

  lemma DeltaZero(base: real, adjustment: real, step: int, mode: RoundingMode)
    requires step > 0
    ensures Delta(base, adjustment, step, step, mode) == 0
       <==> FractionsCancel(base / step as real, adjustment / step as real, mode)
  {
    var x, y := base / step as real, adjustment / step as real;
    QuotientSum(base, adjustment, step as real);
    RoundingsAddUp(x, y, mode);
    StepFactor(step, RoundReal(x + y, mode), RoundReal(x, HalfEven), RoundReal(y, HalfEven));
  }

  lemma QuotientSum(a: real, b: real, s: real)
    requires s != 0.0
    ensures (a + b) / s == a / s + b / s
  {
  }

  lemma StepFactor(step: int, total: int, a: int, b: int)
    requires step > 0
    ensures step * total - step * a - step * b == 0 <==> total == a + b
  {
    assert step * total - step * a - step * b == step * (total - a - b);
  }

  /** At equal precisions the residual vanishes exactly when the fractions dropped from the two component
      lines cancel within the mode's own window. */
  lemma DeltaIsZeroExactlyWhen(i: PricingInput)
    requires ComputeCustomerRate(i).Success? && i.step == i.precision
    ensures Acceptable(i)
    ensures ComputeCustomerRate(i).value.roundingDelta == 0
       <==> FractionsCancel(
              InUnit(BaseValue(i), i.unit) / i.step as real,
              InUnit(AdjustmentValue(i), i.unit) / i.step as real, i.mode)
  {
    PriceIsOneRounding(i);
    DeltaOf(i, ComputeCustomerRate(i).value);
    DeltaZero(InUnit(BaseValue(i), i.unit), InUnit(AdjustmentValue(i), i.unit), i.step, i.mode);
  }

  lemma IntegerResidue(k: int, mode: RoundingMode)
    ensures RoundReal(k as real, mode) == k
  {
    RoundingIsUnique(k as real, mode, k);
  }

  lemma ResidueBound(x: real)
    ensures -0.5 <= Residue(x) <= 0.5
    ensures Residue(x) == 0.5 || Residue(x) == -0.5 ==> RoundReal(x, HalfEven) % 2 == 0
  {
    RoundingIsUnique(x, HalfEven, RoundReal(x, HalfEven));
  }

  /** Rounding a whole amount added to x half to even: the two lines add up unless x is a tie and the
      amount is odd. */
  lemma WholeAmountAddsUp(x: real, k: int)
    ensures FractionsCancel(x, k as real, HalfEven) <==> -0.5 < Residue(x) < 0.5 || k % 2 == 0
  {
    IntegerResidue(k, HalfEven);
    ResidueBound(x);
  }

  /** The promised case: equal precisions, half to even, and an absolute margin that is an even number of
      precision steps in the display unit. */
  lemma EvenMarginHasNoDelta(i: PricingInput, k: int)
    requires ComputeCustomerRate(i).Success? && i.step == i.precision && i.mode == HalfEven
    requires i.adjustment.Absolute? && i.adjustment.milliPaisePerGram * Grams(i.unit) == (2 * k) * i.step * 1000
    ensures ComputeCustomerRate(i).value.roundingDelta == 0
  {
    PriceIsOneRounding(i);
    DeltaOf(i, ComputeCustomerRate(i).value);
    EvenStepsAddUp(InUnit(BaseValue(i), i.unit), i.adjustment.milliPaisePerGram, i.unit, k, i.step);
  }

  lemma EvenStepsAddUp(base: real, amount: int, unit: DisplayUnit, k: int, step: int)
    requires step > 0 && amount * Grams(unit) == (2 * k) * step * 1000
    ensures Delta(base, InUnit(amount as real, unit), step, step, HalfEven) == 0
  {
    hide InUnit, Delta, RoundReal;
    WholeSteps(amount, unit, 2 * k, step);
    WholeAmountAddsUp(base / step as real, 2 * k);
    DeltaZero(base, InUnit(amount as real, unit), step, HalfEven);
  }

  lemma WholeSteps(amount: int, unit: DisplayUnit, k: int, step: int)
    requires step > 0 && amount * Grams(unit) == k * step * 1000
    ensures InUnit(amount as real, unit) / step as real == k as real
  {
    var scaled := amount * Grams(unit);
    assert amount as real * Grams(unit) as real == scaled as real;
    WholeStepsOf(scaled, k, step);
  }

  lemma WholeStepsOf(scaled: int, k: int, step: int)
    requires step > 0 && scaled == k * step * 1000
    ensures scaled as real / 1000.0 / step as real == k as real
  {
    var m := k * step;
    assert scaled as real / 1000.0 == m as real;
    assert m as real == k as real * step as real;
  }

  /** Equal precisions alone are not enough: an odd margin over a rate that falls on a tie. */
  lemma EqualPrecisionsCanLeaveADelta() returns (i: PricingInput)
    ensures i.step == i.precision && i.mode == HalfEven
    ensures ComputeCustomerRate(i).Success? && ComputeCustomerRate(i).value.roundingDelta == 1
  {
    i := PricingInput(10_500, Purity(1, 1), Purity(1, 1), MarketConvention, Absolute(1000), PerGram, 1, HalfEven, 1);
  }

  // ----- The database's checks on a published row -----

  /** The stored sum balances exactly when the two fractions dropped at storage precision cancel; it is
      never off by more than one. */
  lemma StoredSumBalancesExactlyWhen(i: PricingInput)
    requires ComputeCustomerRate(i).Success?
    ensures Acceptable(i)
    ensures var r := ComputeCustomerRate(i).value;
      FractionsCancel(BaseValue(i), AdjustmentValue(i), HalfEven)
        == (r.rawBaseRate + r.rawAdjustment == r.rawCustomerRate)
      && Abs(r.rawCustomerRate - r.rawBaseRate - r.rawAdjustment) <= 1
  {
    PriceIsOneRounding(i);
    RoundingsAddUp(BaseValue(i), AdjustmentValue(i), HalfEven);
    ResidueBound(BaseValue(i));
    ResidueBound(AdjustmentValue(i));
    ResidueBound(CustomerValue(i));
  }

  /** For an absolute margin: exactly when the base is not a tie, or the margin is even. A margin typed in
      whole paise is a multiple of 1000, so its row always balances. */
  lemma AbsoluteMarginBalances(i: PricingInput)
    requires ComputeCustomerRate(i).Success? && i.adjustment.Absolute?
    ensures Acceptable(i)
    ensures var r := ComputeCustomerRate(i).value;
      (r.rawBaseRate + r.rawAdjustment == r.rawCustomerRate)
        == (-0.5 < Residue(BaseValue(i)) < 0.5 || i.adjustment.milliPaisePerGram % 2 == 0)
  {
    StoredSumBalancesExactlyWhen(i);
    WholeAmountAddsUp(BaseValue(i), i.adjustment.milliPaisePerGram);
  }

  /** A percentage margin can break the balance the table insists on: 3% over 22-carat gold, from a quote of
      153727.08 rupees for 10 grams. */
  lemma PercentageMarginCanFailTheCheck() returns (i: PricingInput)
    ensures ComputeCustomerRate(i).Success? && i.adjustment.Percentage?
    ensures var r := ComputeCustomerRate(i).value; r.rawBaseRate + r.rawAdjustment == r.rawCustomerRate + 1
  {
    i := PricingInput(1_537_270_800, Purity(999, 1000), Purity(916, 1000), MarketConvention, Percentage(300),
                      PerTenGram, 100, HalfUp, 1);
    assert PurityRatio(i.basePurity, i.targetPurity, i.basis) == Some(Ratio(916, 1000));
    var base, margin := Rational(1_408_140_052_800, 1000), Rational(422_442_015_840_000, 10_000_000);
    assert AdjustmentAmount(base, i.adjustment) == Some(margin);
    assert RationalToRate(base) == Success(1_408_140_053) && RationalToRate(margin) == Success(42_244_202);
    assert AddRational(base, margin) == Rational(14_503_842_543_840_000_000, 10_000_000_000);
    assert RationalToRate(AddRational(base, margin)) == Success(1_450_384_254);
  }

  /** Both displayed component lines agree with their stored amounts within the tolerance of the table's
      checks, for every priced input. */
  lemma DisplayedLinesMatchStored(i: PricingInput)
    requires ComputeCustomerRate(i).Success?
    ensures var r := ComputeCustomerRate(i).value;
      Abs(r.baseDisplay * 1000 - r.rawBaseRate * Grams(i.unit)) <= 1000 * i.precision
      && Abs(r.adjustmentDisplay * 1000 - r.rawAdjustment * Grams(i.unit)) <= 1000 * i.precision
  {
    PriceIsOneRounding(i);
    LineMatchesStored(BaseValue(i), i.unit, i.precision);
    LineMatchesStored(AdjustmentValue(i), i.unit, i.precision);
  }

  lemma LineMatchesStored(v: real, unit: DisplayUnit, precision: int)
    requires precision > 0
    ensures Abs(Quantised(InUnit(v, unit), precision, HalfEven) * 1000 - RoundReal(v, HalfEven) * Grams(unit))
         <= 1000 * precision
  {
    QuantisedError(InUnit(v, unit), precision, HalfEven);
    ResidueBound(v);
    var shown, stored := Quantised(InUnit(v, unit), precision, HalfEven), RoundReal(v, HalfEven);
    assert -500.0 <= v * Grams(unit) as real - (stored * Grams(unit)) as real <= 500.0;
    assert -500.0 * precision as real <= (shown * 1000) as real - v * Grams(unit) as real <= 500.0 * precision as real;
  }

  /** The configured margin is shown as configured exactly when it is a whole number of precision steps in
      the display unit, whatever the rounding of the final rate. */
  lemma MarginShownAsConfigured(i: PricingInput)
    requires ComputeCustomerRate(i).Success? && i.adjustment.Absolute?
    ensures ComputeCustomerRate(i).value.adjustmentDisplay * 1000 == i.adjustment.milliPaisePerGram * Grams(i.unit)
       <==> exists k :: i.adjustment.milliPaisePerGram * Grams(i.unit) == k * i.precision * 1000
  {
    PriceIsOneRounding(i);
    hide ComputeCustomerRate, Quantised, BaseValue, CustomerPrice;
    var amount := i.adjustment.milliPaisePerGram;
    assert amount as real * Grams(i.unit) as real == (amount * Grams(i.unit)) as real;
    ShownExactly(amount * Grams(i.unit), i.precision);
  }

  lemma ShownExactly(amount: int, precision: int)
    requires precision > 0
    ensures Quantised(amount as real / 1000.0, precision, HalfEven) * 1000 == amount
       <==> exists k :: amount == k * precision * 1000
  {
    var q := RoundReal(amount as real / 1000.0 / precision as real, HalfEven);
    assert precision * q * 1000 == q * precision * 1000;
    if k :| amount == k * precision * 1000 {
      WholeStepsOf(amount, k, precision);
      IntegerResidue(k, HalfEven);
    }
  }
}
