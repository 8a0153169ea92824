/** Failure-carrying results, used wherever the service throws. */
module Outcomes {
  datatype Option<+T> = None | Some(value: T)

  datatype Result<+T, +E> = Success(value: T) | Failure(error: E) {
    predicate IsFailure() { Failure? }
    function PropagateFailure<U>(): Result<U, E> requires Failure? { Failure(error) }
    function Extract(): T requires Success? { value }
  }
}

/**
 Integer division with an explicit rounding decision, and its reference: rounding a real number.

 The program works on JavaScript bigints, whose `/` truncates toward zero; Dafny's `/` is Euclidean,
 so truncation is defined first. `RoundReal` never mentions a numerator or a denominator: it is what a
 reader means by "round this number", and every law of the integer code is a consequence of the one
 theorem `DividesThenRounds` that the two agree.
 */
module Rounding {
  import opened Outcomes

  datatype RoundingMode = HalfUp | HalfEven | Ceil | Floor

  datatype MoneyError = DivisionByZero | NonPositiveStep | NotARupeeAmount | NotRepresentable

  function Abs(n: int): int { if n < 0 then -n else n }

  function TruncDiv(n: int, d: int): int
    requires d != 0
  {
    var q := Abs(n) / Abs(d);
    if (n < 0) == (d < 0) then q else -q
  }

  function TruncMod(n: int, d: int): int
    requires d != 0
  {
    n - d * TruncDiv(n, d)
  }

  function DivideAndRound(numerator: int, denominator: int, mode: RoundingMode): Result<int, MoneyError> {
    if denominator == 0 then Failure(DivisionByZero)
    else
      var n := if denominator < 0 then -numerator else numerator;
      var d := if denominator < 0 then -denominator else denominator;
      Success(Settle(n < 0, TruncDiv(n, d), TruncMod(n, d), d, mode))
  }

  /** The decision itself, from a truncated quotient, its remainder, and the sign of the numerator. */
  function Settle(isNegative: bool, quotient: int, remainder: int, d: int, mode: RoundingMode): int {
    if remainder == 0 then quotient
    else
      var awayFromZero := if isNegative then quotient - 1 else quotient + 1;
      var doubled := Abs(remainder) * 2;
      match mode
      case Floor => if isNegative then quotient - 1 else quotient
      case Ceil => if isNegative then quotient else quotient + 1
      case HalfUp => if doubled >= d then awayFromZero else quotient
      case HalfEven =>
        if doubled > d then awayFromZero
        else if doubled < d then quotient
        else if TruncMod(quotient, 2) == 0 then quotient else awayFromZero
  }

  function RoundToStep(value: int, step: int, mode: RoundingMode): Result<int, MoneyError> {
    if step <= 0 then Failure(NonPositiveStep)
    else if step == 1 then Success(value)
    else
      var q :- DivideAndRound(value, step, mode);
      Success(q * step)
  }

  function RoundRationalToStep(numerator: int, denominator: int, step: int, mode: RoundingMode)
    : Result<int, MoneyError>
  {
    if step <= 0 then Failure(NonPositiveStep)
    else if denominator == 0 then Failure(DivisionByZero)
    else
      var q :- DivideAndRound(numerator, denominator * step, mode);
      Success(q * step)
  }

  // ----- The reference: rounding a real number to an integer -----

  ghost function RoundReal(x: real, mode: RoundingMode): int {
    var below := x.Floor;
    var fraction := x - below as real;
    match mode
    case Floor => below
    case Ceil => -((-x).Floor)
    case HalfUp =>
      if fraction < 0.5 then below else if fraction > 0.5 then below + 1
      else if x < 0.0 then below else below + 1
    case HalfEven =>
      if fraction < 0.5 then below else if fraction > 0.5 then below + 1
      else if below % 2 == 0 then below else below + 1
  }

  /** Truncating division splits n into a multiple of d and a remainder carrying n's sign. */
  lemma TruncatingSplit(n: int, d: int)
    requires d > 0
    ensures n == d * TruncDiv(n, d) + TruncMod(n, d)
    ensures Abs(TruncMod(n, d)) < d
    ensures n >= 0 ==> TruncMod(n, d) >= 0
    ensures n <= 0 ==> TruncMod(n, d) <= 0
  {
    assert Abs(n) == d * (Abs(n) / d) + Abs(n) % d;
  }

  lemma RatioAgainst(r: int, d: int, c: real)
    requires d > 0
    ensures r as real / d as real < c <==> r as real < c * d as real
    ensures r as real / d as real == c <==> r as real == c * d as real
  {
    var f := r as real / d as real;
    assert f * d as real == r as real;
    if f < c {
      assert (c - f) * d as real > 0.0;
    } else if f > c {
      assert (f - c) * d as real > 0.0;
    }
  }

  /** A proper fraction r/d as a real, compared with 0, 1 and 1/2 exactly as r is with 0, d and d/2. */
  lemma ProperFraction(r: int, d: int) returns (f: real)
    requires d > 0 && Abs(r) < d
    ensures f == r as real / d as real && -1.0 < f < 1.0
    ensures f < 0.0 <==> r < 0
    ensures f == 0.0 <==> r == 0
    ensures f < 0.5 <==> 2 * r < d
    ensures f == 0.5 <==> 2 * r == d
    ensures f < -0.5 <==> 2 * r < -d
    ensures f == -0.5 <==> 2 * r == -d
  {
    f := r as real / d as real;
    RatioAgainst(r, d, 0.5);
    RatioAgainst(r, d, -0.5);
    RatioAgainst(r, d, 0.0);
    RatioAgainst(r, d, 1.0);
    RatioAgainst(r, d, -1.0);
  }

  lemma QuotientPlusFraction(n: int, d: int, q: int, r: int)
    requires d > 0 && n == d * q + r
    ensures n as real / d as real == q as real + r as real / d as real
  {
    assert n as real == d as real * q as real + r as real;
  }

  /** The real floor of q + f, for a proper fraction f. */
  lemma FloorOfSplit(q: int, f: real)
    requires -1.0 < f < 1.0
    ensures (q as real + f).Floor == if f < 0.0 then q - 1 else q
  {
  }

  /** The integer code is one rounding of the exact quotient, for every sign of both operands. */
  lemma DividesThenRounds(n: int, d: int, mode: RoundingMode)
    ensures d == 0 ==> DivideAndRound(n, d, mode) == Failure(DivisionByZero)
    ensures d != 0 ==> DivideAndRound(n, d, mode) == Success(RoundReal(n as real / d as real, mode))
  {
    if d > 0 {
      PositiveDenominator(n, d, mode);
    } else if d < 0 {
      PositiveDenominator(-n, -d, mode);
      NegatedRatio(n, d);
    }
  }

  lemma NegatedRatio(n: int, d: int)
    requires d != 0
    ensures (-n) as real / (-d) as real == n as real / d as real
  {
    var f := n as real / d as real;
    assert f * d as real == n as real;
    assert f * (-d) as real == (-n) as real;
  }

  /** The decision, given the split of the quotient into a whole part and a proper fraction. */
  lemma SettleRounds(isNegative: bool, q: int, r: int, d: int, mode: RoundingMode)
    requires d > 0 && Abs(r) < d
    requires if isNegative then q <= 0 && r <= 0 else q >= 0 && r >= 0
    ensures Settle(isNegative, q, r, d, mode) == RoundReal(q as real + r as real / d as real, mode)
  {
    var f := ProperFraction(r, d);
    FloorOfSplit(q, f);
    FloorOfSplit(-q, -f);
    assert -(q as real + f) == (-q) as real + -f;
    EvenUnderTruncation(q);
  }

  lemma EvenUnderTruncation(q: int)
    ensures TruncMod(q, 2) == 0 <==> q % 2 == 0
  {
  }

  lemma PositiveDenominator(n: int, d: int, mode: RoundingMode)
    requires d > 0
    ensures DivideAndRound(n, d, mode) == Success(RoundReal(n as real / d as real, mode))
  {
    var q, r := TruncDiv(n, d), TruncMod(n, d);
    TruncatingSplit(n, d);
    QuotientSign(n, d);
    QuotientPlusFraction(n, d, q, r);
    SettleRounds(n < 0, q, r, d, mode);
  }

  lemma QuotientSign(n: int, d: int)
    requires d > 0
    ensures if n < 0 then TruncDiv(n, d) <= 0 else TruncDiv(n, d) >= 0
  {
    NegativeFactor(d, Abs(n) / d);
  }

  lemma NegativeFactor(d: int, q: int)
    requires d > 0
    ensures q < 0 ==> d * q + d <= 0
  {
    if q < 0 {
      NonNegativeProduct(d, -q - 1);
      assert d * (-q - 1) == -(d * q + d);
    }
  }

  lemma NonNegativeProduct(a: nat, b: nat)
    ensures a * b >= 0
  {
  }

  // ----- What rounding means, and the laws it obeys -----

  /** Each mode's own definition: an interval, and for the half modes a tie rule. */
  ghost predicate IsRounding(x: real, mode: RoundingMode, q: int) {
    match mode
    case Floor => q as real <= x < q as real + 1.0
    case Ceil => q as real - 1.0 < x <= q as real
    case HalfUp =>
      -0.5 <= x - q as real <= 0.5
      && (x - q as real == 0.5 ==> q < 0)
      && (x - q as real == -0.5 ==> q > 0)
    case HalfEven =>
      -0.5 <= x - q as real <= 0.5
      && (x - q as real == 0.5 || x - q as real == -0.5 ==> q % 2 == 0)
  }

  /** The reference satisfies its mode's definition, and nothing else does. */
  lemma RoundingIsUnique(x: real, mode: RoundingMode, q: int)
    ensures IsRounding(x, mode, q) <==> q == RoundReal(x, mode)
  {
    var below := x.Floor;
    if IsRounding(x, mode, q) {
      assert below - 1 <= q <= below + 2;
    }
  }

  lemma RoundRealMonotone(x: real, y: real, mode: RoundingMode)
    requires x <= y
    ensures RoundReal(x, mode) <= RoundReal(y, mode)
  {
    RoundingIsUnique(x, mode, RoundReal(x, mode));
    RoundingIsUnique(y, mode, RoundReal(y, mode));
  }

  /** Negating the number swaps floor with ceil and only negates the half modes. */
  lemma RoundRealMirror(x: real)
    ensures RoundReal(-x, Floor) == -RoundReal(x, Ceil)
    ensures RoundReal(-x, Ceil) == -RoundReal(x, Floor)
    ensures RoundReal(-x, HalfUp) == -RoundReal(x, HalfUp)
    ensures RoundReal(-x, HalfEven) == -RoundReal(x, HalfEven)
  {
    RoundingIsUnique(x, HalfUp, RoundReal(x, HalfUp));
    RoundingIsUnique(-x, HalfUp, -RoundReal(x, HalfUp));
    RoundingIsUnique(x, HalfEven, RoundReal(x, HalfEven));
    RoundingIsUnique(-x, HalfEven, -RoundReal(x, HalfEven));
  }

  /** Multiplying both operands by any non-zero k changes nothing, even when k flips both signs. */
  lemma ScaleInvariance(n: int, d: int, k: int, mode: RoundingMode)
    requires d != 0 && k != 0
    ensures DivideAndRound(n * k, d * k, mode) == DivideAndRound(n, d, mode)
  {
    DividesThenRounds(n, d, mode);
    DividesThenRounds(n * k, d * k, mode);
    CommonFactor(n, d, k);
  }

  lemma CommonFactor(n: int, d: int, k: int)
    requires d != 0 && k != 0
    ensures d * k != 0
    ensures (n * k) as real / (d * k) as real == n as real / d as real
  {
    var f := n as real / d as real;
    assert f * d as real == n as real;
    var a, b, c := n as real, d as real, k as real;
    assert (n * k) as real == a * c && (d * k) as real == b * c;
    assert f * (b * c) == (f * b) * c;
  }

  /** Over a positive denominator a larger numerator never rounds lower. */
  lemma DivideAndRoundMonotone(n: int, n': int, d: int, mode: RoundingMode)
    requires d > 0 && n <= n'
    ensures DivideAndRound(n, d, mode).value <= DivideAndRound(n', d, mode).value
  {
    DividesThenRounds(n, d, mode);
    DividesThenRounds(n', d, mode);
    RatioMonotone(n, n', d);
    RoundRealMonotone(n as real / d as real, n' as real / d as real, mode);
  }

  lemma RatioMonotone(n: int, n': int, d: int)
    requires d > 0 && n <= n'
    ensures n as real / d as real <= n' as real / d as real
  {
    RatioAgainst(n, d, n' as real / d as real);
    assert (n' as real / d as real) * d as real == n' as real;
  }

  /** On the integer code: negating the numerator swaps floor with ceil and only negates the half modes. */
  lemma DivideAndRoundMirror(n: int, d: int, mode: RoundingMode)
    requires d != 0
    ensures DivideAndRound(-n, d, Mirror(mode)).value == -DivideAndRound(n, d, mode).value
  {
    hide DivideAndRound, RoundReal;
    MirroredRatio(n, d);
    RoundRealMirror(n as real / d as real);
    DividesThenRounds(n, d, mode);
    DividesThenRounds(-n, d, Mirror(mode));
  }

  function Mirror(mode: RoundingMode): RoundingMode {
    match mode
    case Floor => Ceil
    case Ceil => Floor
    case _ => mode
  }

  lemma MirroredRatio(n: int, d: int)
    requires d != 0
    ensures (-n) as real / d as real == -(n as real / d as real)
  {
    var f := n as real / d as real;
    assert f * d as real == n as real;
    assert (-f) * d as real == (-n) as real;
  }

  /** Rounding the exact rational n/d to a step is the step times the rounding of (n/d)/step. */
  lemma RationalStepIsOneRounding(n: int, d: int, step: int, mode: RoundingMode)
    requires d != 0 && step > 0
    ensures RoundRationalToStep(n, d, step, mode)
         == Success(step * RoundReal(n as real / d as real / step as real, mode))
  {
    hide DivideAndRound, RoundReal;
    NestedRatio(n, d, step);
    DividesThenRounds(n, d * step, mode);
    var q := RoundReal(n as real / d as real / step as real, mode);
    assert q * step == step * q;
  }

  lemma NestedRatio(n: int, d: int, s: int)
    requires d != 0 && s != 0
    ensures d * s != 0
    ensures n as real / (d * s) as real == n as real / d as real / s as real
  {
    var f := n as real / d as real;
    var g := f / s as real;
    assert f * d as real == n as real && g * s as real == f;
    var a, b := d as real, s as real;
    assert (d * s) as real == a * b;
    assert g * (a * b) == (g * b) * a;
  }

  /** The integer form is the rational form over 1. */
  lemma StepIsRationalStep(value: int, step: int, mode: RoundingMode)
    requires step > 0
    ensures RoundToStep(value, step, mode) == RoundRationalToStep(value, 1, step, mode)
    ensures RoundToStep(value, step, mode) == Success(step * RoundReal(value as real / step as real, mode))
  {
    RationalStepIsOneRounding(value, 1, step, mode);
    DividesThenRounds(value, step, mode);
    WholeRoundsToItself(value, mode);
    OverOne(value);
    hide DivideAndRound, RoundRationalToStep, RoundReal;
  }

  lemma OverOne(n: int)
    ensures n as real / 1 as real == n as real
  {
  }

  lemma WholeRoundsToItself(n: int, mode: RoundingMode)
    ensures RoundReal(n as real, mode) == n
  {
    RoundingIsUnique(n as real, mode, n);
  }

  /** A rounded value is a multiple of the step, and every mode leaves it where it is. */
  lemma RoundToStepIdempotent(value: int, step: int, mode: RoundingMode, mode': RoundingMode)
    requires step > 0
    ensures RoundToStep(value, step, mode).value % step == 0
    ensures RoundToStep(RoundToStep(value, step, mode).value, step, mode') == RoundToStep(value, step, mode)
  {
    StepIsRationalStep(value, step, mode);
    var q := RoundReal(value as real / step as real, mode);
    MultipleOfStep(q, step);
    StepIsRationalStep(step * q, step, mode');
    RoundingIsUnique(q as real, mode', q);
  }

  lemma MultipleOfStep(q: int, step: int)
    requires step > 0
    ensures (step * q) % step == 0
    ensures (step * q) as real / step as real == q as real
  {
    var m := step * q;
    var gap := q - m / step;
    assert m % step == step * gap;
    assert 0 <= step * gap < step;
    assert gap == 0;
    assert m as real == step as real * q as real;
  }
}
