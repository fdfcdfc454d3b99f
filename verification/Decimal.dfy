/** Fixed-point money: an `i128` mantissa and a decimal scale (decimal.rs).
    `Value` reads a decimal as the rational it denotes; every law is about that reading. */
module Decimals {
  import opened Wrappers
  import opened Collections
  import opened Text
  import opened Rationals

  const MAX: int := 0x7FFF_FFFF_FFFF_FFFF_FFFF_FFFF_FFFF_FFFF
  const MIN: int := -MAX - 1
  const U128_MAX: int := 2 * MAX + 1
  /** The largest power of ten an `i128` holds. */
  const MAX_POWER: nat := 38

  type i128 = x: int | MIN <= x <= MAX

  datatype Mode = HalfEven | HalfUp | Down

  datatype MoneyError = Overflow | DivByZero

  datatype Decimal = Decimal(mantissa: i128, scale: nat)

  const ZERO: Decimal := Decimal(0, 0)

  // ---- denoted values ----

  function Value(d: Decimal): real { Rational(d.mantissa, d.scale) }

  lemma Pow10Fits(n: nat)
    ensures Pow10(n) <= MAX <==> n <= MAX_POWER
  {
    Pow10At38();
    if n <= 38 { Pow10Monotone(n, 38); } else { Pow10Monotone(39, n); }
  }

  // ---- parsing and printing ----

  /** Unsigned `digits(.digits)?` as its digits' value and the number of decimals. */
  function ParseBody(body: string): Option<(nat, nat)>
  {
    var parts := Split(body, '.');
    var whole, frac := parts[0], if |parts| > 1 then parts[1] else "";
    if |parts| > 2 || whole == "" || !AllDigits(whole) || !AllDigits(frac) then None
    else Some((NumeralValue(whole + frac, 10), |frac|))
  }

  function Parse(s: string): Option<Decimal>
  {
    var t := Trim(s);
    if t == "" then None
    else
      var neg := t[0] == '-';
      var body := ParseBody(if neg then t[1..] else t);
      if body.None? || body.value.0 > MAX then None
      else
        var m: int := body.value.0;
        Some(Decimal(if neg then -m else m, body.value.1))
  }

  function Abs(x: int): nat { if x < 0 then -x else x }

  function PlainBody(digits: string, s: nat): string
  {
    if s == 0 then digits
    else if |digits| > s then digits[..|digits| - s] + "." + digits[|digits| - s..]
    else "0" + "." + (Zeros(s - |digits|) + digits)
  }

  function ToPlainString(d: Decimal): string
  {
    var body := PlainBody(Numeral(Abs(d.mantissa), 10), d.scale);
    if d.mantissa < 0 then "-" + body else body
  }

  lemma ParseTwoParts(whole: string, frac: string)
    requires whole != "" && AllDigits(whole) && AllDigits(frac)
    ensures ParseBody(whole + "." + frac) == Some((NumeralValue(whole + frac, 10), |frac|))
  {
    SplitHead(whole, frac, '.');
    SplitWhole(frac, '.');
    assert whole + "." + frac == whole + (['.'] + frac);
  }

  lemma ZerosCons(k: nat, s: string)
    ensures Zeros(k + 1) + s == "0" + (Zeros(k) + s)
  {
    assert Zeros(k + 1) == "0" + Zeros(k);
  }

  lemma ParseOnePart(whole: string)
    requires whole != "" && AllDigits(whole)
    ensures ParseBody(whole) == Some((NumeralValue(whole, 10), 0))
  {
    SplitWhole(whole, '.');
    assert whole + "" == whole;
  }

  lemma ParseSmall(k: nat, digits: string)
    requires AllDigits(digits)
    ensures ParseBody("0" + "." + (Zeros(k) + digits)) == Some((NumeralValue(digits, 10), k + |digits|))
  {
    hide ParseBody, NumeralValue;
    var frac := Zeros(k) + digits;
    ParseTwoParts("0", frac);
    assert |frac| == k + |digits|;
    assert NumeralValue("0" + frac, 10) == NumeralValue(digits, 10) by {
      LeadingZeros(k + 1, digits, 10);
      ZerosCons(k, digits);
    }
  }

  lemma ParseWide(digits: string, s: nat)
    requires AllDigits(digits) && 1 <= s < |digits|
    ensures ParseBody(PlainBody(digits, s)) == Some((NumeralValue(digits, 10), s))
  {
    hide ParseBody, NumeralValue;
    var k := |digits| - s;
    assert digits[..k] + digits[k..] == digits;
    ParseTwoParts(digits[..k], digits[k..]);
  }

  lemma PlainBodyCases(digits: string, s: nat)
    requires |digits| >= 1
    ensures s == 0 ==> PlainBody(digits, s) == digits
    ensures s >= |digits| ==> PlainBody(digits, s) == "0" + "." + (Zeros(s - |digits|) + digits)
  {}

  lemma ParsePlainBody(digits: string, s: nat)
    requires AllDigits(digits) && |digits| >= 1
    ensures ParseBody(PlainBody(digits, s)) == Some((NumeralValue(digits, 10), s))
  {
    hide *;
    PlainBodyCases(digits, s);
    if s == 0 {
      ParseOnePart(digits);
    } else if |digits| > s {
      ParseWide(digits, s);
    } else {
      ParseSmall(s - |digits|, digits);
    }
  }

  lemma PlainBodyEnds(digits: string, s: nat)
    requires AllDigits(digits) && |digits| >= 1
    ensures var body := PlainBody(digits, s);
            body != "" && IsDigit(body[0]) && IsDigit(body[|body| - 1])
  {}

  /** The printed form parses back to the same mantissa and scale for every decimal but
      those whose mantissa is `i128::MIN`, whose digits do not fit before the sign is applied. */
  lemma PrintParse(d: Decimal)
    ensures Parse(ToPlainString(d)) == Some(d) <==> d.mantissa != MIN
    ensures d.mantissa == MIN ==> Parse(ToPlainString(d)) == None
  {
    hide ParseBody, NumeralValue, Numeral, PlainBody;
    var digits := Numeral(Abs(d.mantissa), 10);
    var body := PlainBody(digits, d.scale);
    NumeralRoundTrip(Abs(d.mantissa), 10);
    ParsePlainBody(digits, d.scale);
    PlainBodyEnds(digits, d.scale);
    var t := ToPlainString(d);
    assert Trim(t) == t;
    if d.mantissa < 0 { assert t[1..] == body; }
  }

  // ---- rescaling, addition, order ----

  function Clamp(x: int): i128 { if x > MAX then MAX else if x < MIN then MIN else x }

  /** Widening to `scale`; the multiplication saturates. The power of ten itself must exist. */
  function Rescaled(d: Decimal, scale: nat): Decimal
    requires scale - d.scale <= MAX_POWER
  {
    if scale <= d.scale then d
    else Decimal(Clamp(d.mantissa * Pow10(scale - d.scale)), scale)
  }

  predicate Alignable(a: Decimal, b: Decimal)
  {
    a.scale - b.scale <= MAX_POWER && b.scale - a.scale <= MAX_POWER
  }

  /** Mantissa of `d` at a scale at least its own, without saturation. */
  function Aligned(d: Decimal, scale: nat): int
    requires d.scale <= scale
  {
    d.mantissa * Pow10(scale - d.scale)
  }

  lemma AlignedValue(d: Decimal, scale: nat)
    requires d.scale <= scale
    ensures Rational(Aligned(d, scale), scale) == Value(d)
  {
    RationalRescale(d.mantissa, d.scale, scale - d.scale);
  }

  function Add(a: Decimal, b: Decimal): Decimal
    requires Alignable(a, b)
  {
    var scale := Max(a.scale, b.scale);
    Decimal(Clamp(Rescaled(a, scale).mantissa + Rescaled(b, scale).mantissa), scale)
  }

  /** Nothing saturates when `a` and `b` are brought to one scale and added. */
  predicate SumFits(a: Decimal, b: Decimal)
  {
    var scale := Max(a.scale, b.scale);
    MIN <= Aligned(a, scale) <= MAX && MIN <= Aligned(b, scale) <= MAX
    && MIN <= Aligned(a, scale) + Aligned(b, scale) <= MAX
  }

  /** Addition is exact on the denoted rationals precisely when nothing saturates. */
  lemma AddExact(a: Decimal, b: Decimal)
    requires Alignable(a, b)
    ensures Value(Add(a, b)) == Value(a) + Value(b) <==> SumFits(a, b)
  {
    var scale := Max(a.scale, b.scale);
    AlignedValue(a, scale);
    AlignedValue(b, scale);
    hide Rational, Pow10;
    PowZero();
    RationalOrder(Aligned(a, scale), Aligned(b, scale), scale);
    RationalOrder(Add(a, b).mantissa, Aligned(a, scale) + Aligned(b, scale), scale);
    assert a.scale == scale || b.scale == scale;
  }

  lemma PowZero()
    ensures Pow10(0) == 1
  {}

  function Neg(a: Decimal): Decimal
    requires a.mantissa != MIN
  {
    Decimal(-a.mantissa, a.scale)
  }

  lemma NegValue(a: Decimal)
    requires a.mantissa != MIN
    ensures Value(Neg(a)) == -Value(a) && Neg(Neg(a)) == a
  {
    hide Rational;
    RationalOrder(a.mantissa, -a.mantissa, a.scale);
  }

  datatype Ordering = Less | Equal | Greater

  function CompareInt(a: int, b: int): Ordering
  {
    if a < b then Less else if a == b then Equal else Greater
  }

  function CompareReal(a: real, b: real): Ordering
  {
    if a < b then Less else if a == b then Equal else Greater
  }

  /** `Ord::cmp`; `==` on decimals is `Cmp(a, b) == Equal`. */
  function Cmp(a: Decimal, b: Decimal): Ordering
    requires Alignable(a, b)
  {
    var scale := Max(a.scale, b.scale);
    CompareInt(Rescaled(a, scale).mantissa, Rescaled(b, scale).mantissa)
  }

  /** Widening clips `a` onto the very mantissa `b` has: the one case `Cmp` misjudges. */
  predicate ClipsOnto(a: Decimal, b: Decimal)
  {
    a.scale < b.scale
    && var m := Aligned(a, b.scale); (m > MAX || m < MIN) && Clamp(m) == b.mantissa
  }

  /** `Cmp` is the order of the denoted rationals, and it fails exactly when widening one
      operand saturates onto the other's mantissa (and then it answers `Equal`). */
  lemma CmpNumeric(a: Decimal, b: Decimal)
    requires Alignable(a, b)
    ensures Cmp(a, b) == CompareReal(Value(a), Value(b)) <==> !ClipsOnto(a, b) && !ClipsOnto(b, a)
    ensures ClipsOnto(a, b) || ClipsOnto(b, a) ==> Cmp(a, b) == Equal
  {
    var scale := Max(a.scale, b.scale);
    AlignedValue(a, scale);
    AlignedValue(b, scale);
    hide Rational, Pow10;
    PowZero();
    RationalOrder(Aligned(a, scale), Aligned(b, scale), scale);
    assert a.scale == scale || b.scale == scale;
  }

  /** It does happen: a tenth of the largest mantissa, and the largest, compare equal. */
  lemma CmpClips()
    ensures var (a, b) := (Decimal(MAX, 0), Decimal(MAX, 1));
            && Alignable(a, b) && ClipsOnto(a, b)
            && Cmp(a, b) == Equal && Value(a) != Value(b)
  {
    var a, b := Decimal(MAX, 0), Decimal(MAX, 1);
    assert Pow10(1) == 10;
    assert ClipsOnto(a, b);
    CmpNumeric(a, b);
    hide Value, Cmp;
  }

  // ---- multiplication ----

  function Mul(a: Decimal, b: Decimal): Result<Decimal, MoneyError>
  {
    var m := a.mantissa * b.mantissa;
    if MIN <= m <= MAX then Ok(Decimal(m, a.scale + b.scale)) else Err(Overflow)
  }

  /** A product is exact or refused; it is refused only when it does not fit. */
  lemma MulExact(a: Decimal, b: Decimal)
    ensures Mul(a, b).Ok? ==> Value(Mul(a, b).value) == Value(a) * Value(b)
    ensures Mul(a, b).Ok? <==> MIN <= a.mantissa * b.mantissa <= MAX
  {
    hide Rational;
    RationalProduct(a.mantissa, b.mantissa, a.scale, b.scale);
  }

  // ---- rounding ----

  /** `m` is the integer that `x` rounds to under `mode`. */
  ghost predicate RoundsTo(m: int, x: real, mode: Mode)
  {
    var e := m as real - x;
    match mode
    case Down => if x >= 0.0 then 0.0 <= m as real <= x < m as real + 1.0 else m as real - 1.0 < x <= m as real <= 0.0
    case HalfUp => -0.5 <= e <= 0.5 && (e == 0.5 ==> m > 0) && (e == -0.5 ==> m < 0)
    case HalfEven => -0.5 <= e <= 0.5 && (e == 0.5 || e == -0.5 ==> m % 2 == 0)
  }

  /** The rounded integer is determined by the rational and the mode. */
  lemma RoundsToUnique(m: int, k: int, x: real, mode: Mode)
    requires RoundsTo(m, x, mode) && RoundsTo(k, x, mode)
    ensures m == k
  {
    if m < k { NotBoth(m, k, x, mode); } else if k < m { NotBoth(k, m, x, mode); }
  }

  lemma NotBoth(m: int, k: int, x: real, mode: Mode)
    requires RoundsTo(m, x, mode) && RoundsTo(k, x, mode)
    ensures m >= k
  {
    assert m + 1 <= k ==> m as real + 1.0 <= k as real;
    assert m + 1 < k ==> m as real + 1.0 < k as real;
  }

  lemma RoundsToSymmetric(m: int, x: real, mode: Mode)
    requires RoundsTo(m, x, mode)
    ensures RoundsTo(-m, -x, mode)
  {}

  /** The decision shared by `round` and `div_round`, on `u128` magnitudes. */
  function ApplyRounding(q: nat, r: nat, unit: nat, mode: Mode): Result<nat, MoneyError>
  {
    if r == 0 || mode == Down then Ok(q)
    else if 2 * r > U128_MAX then Err(Overflow)
    else if 2 * r < unit || (2 * r == unit && mode == HalfEven && q % 2 == 0) then Ok(q)
    else if q + 1 > U128_MAX then Err(Overflow)
    else Ok(q + 1)
  }

  /** With a divisor that is an `i128` magnitude, neither the doubled remainder nor the
      carry overflows, and the answer is the exact quotient rounded. */
  lemma ApplyRoundingExact(n: nat, unit: nat, mode: Mode)
    requires 0 < unit <= -MIN && n <= -MIN
    ensures ApplyRounding(n / unit, n % unit, unit, mode).Ok?
    ensures RoundsTo(ApplyRounding(n / unit, n % unit, unit, mode).value, Quot(n as real, unit as real), mode)
  {
    hide Quot;
    QuotientBound(n, unit);
    FractionOf(n, unit);
    Decide(n / unit, n % unit, unit, Quot(n as real, unit as real), mode);
  }

  lemma Decide(q: nat, r: nat, unit: nat, x: real, mode: Mode)
    requires r < unit <= -MIN && q <= -MIN && q as real <= x < q as real + 1.0 && (x == q as real <==> r == 0)
    requires (x < q as real + 0.5 <==> 2 * r < unit) && (x == q as real + 0.5 <==> 2 * r == unit)
    ensures ApplyRounding(q, r, unit, mode).Ok?
    ensures RoundsTo(ApplyRounding(q, r, unit, mode).value, x, mode)
  {}

  function Signed(neg: bool, m: int): int { if neg then -m else m }

  /** Magnitude and sign handled apart, as both rounding operations do it. */
  function RoundedQuotient(num: int, den: int, mode: Mode): Result<int, MoneyError>
    requires den != 0
  {
    var n, d := Abs(num), Abs(den);
    match ApplyRounding(n / d, n % d, d, mode)
    case Err(e) => Err(e)
    case Ok(m) => Ok(Signed((num < 0) != (den < 0), m))
  }

  lemma RoundedQuotientExact(num: i128, den: i128, mode: Mode)
    requires den != 0
    ensures RoundedQuotient(num, den, mode).Ok?
    ensures RoundsTo(RoundedQuotient(num, den, mode).value, Quot(num as real, den as real), mode)
  {
    var n, d := Abs(num), Abs(den);
    ApplyRoundingExact(n, d, mode);
    var m := ApplyRounding(n / d, n % d, d, mode).value;
    SignedQuotient(num, den);
    RoundsToSymmetric(m, Quot(n as real, d as real), mode);
  }

  lemma SignedQuotient(num: int, den: int)
    requires den != 0
    ensures var x := Quot(Abs(num) as real, Abs(den) as real);
            Quot(num as real, den as real) == if (num < 0) != (den < 0) then -x else x
  {
    hide Quot;
    NegatedQuotient(num as real, den as real);
    NegatedQuotient(-num as real, den as real);
  }

  /** `self / divisor` as a mantissa at `scale`. */
  function DivRound(a: Decimal, b: Decimal, scale: nat, mode: Mode): Result<Decimal, MoneyError>
  {
    if b.mantissa == 0 then Err(DivByZero)
    else
      var p := scale + b.scale - a.scale;
      if Abs(p) > MAX_POWER then Err(Overflow)
      else
        var num := if p >= 0 then a.mantissa * Pow10(p) else a.mantissa;
        var den := if p >= 0 then b.mantissa else b.mantissa * Pow10(-p);
        assert den != 0;
        if !(MIN <= num <= MAX) || !(MIN <= den <= MAX) then Err(Overflow)
        else
          match RoundedQuotient(num, den, mode)
          case Err(e) => Err(e)
          case Ok(m) => if Abs(m) > MAX then Err(Overflow) else Ok(Decimal(m, scale))
  }

  /** The scaled numerator and divisor both have `i128` mantissas. */
  predicate DivScales(a: Decimal, b: Decimal, scale: nat)
  {
    var p := scale + b.scale - a.scale;
    Abs(p) <= MAX_POWER
    && if p >= 0 then MIN <= a.mantissa * Pow10(p) <= MAX else MIN <= b.mantissa * Pow10(-p) <= MAX
  }

  /** The exact quotient in units of the target scale. */
  ghost function QuotientAt(a: Decimal, b: Decimal, scale: nat): real
    requires b.mantissa != 0
  {
    NonZero(b);
    Count(Quot(Value(a), Value(b)), scale)
  }

  lemma NonZero(b: Decimal)
    requires b.mantissa != 0
    ensures Value(b) != 0.0
  {
    hide Rational;
    RationalOrder(b.mantissa, 0, b.scale);
  }

  /** A division that answers Ok gives the exact rational quotient rounded to the scale
      under the mode; it refuses a zero divisor, operands that do not scale, and a rounded
      quotient with no `i128` mantissa, and nothing else. */
  lemma DivRoundExact(a: Decimal, b: Decimal, scale: nat, mode: Mode)
    ensures DivRound(a, b, scale, mode) == Err(DivByZero) <==> b.mantissa == 0
    ensures b.mantissa != 0 && !DivScales(a, b, scale) ==> DivRound(a, b, scale, mode) == Err(Overflow)
    ensures b.mantissa != 0 && DivScales(a, b, scale) ==>
              exists m :: RoundsTo(m, QuotientAt(a, b, scale), mode)
                && DivRound(a, b, scale, mode) == if Abs(m) <= MAX then Ok(Decimal(m, scale)) else Err(Overflow)
  {
    hide Rational, Quot, Pow10, RoundsTo, RoundedQuotient, Count;
    if b.mantissa != 0 && DivScales(a, b, scale) {
      NonZero(b);
      var p := scale + b.scale - a.scale;
      if p >= 0 {
        RatioUp(a.mantissa, a.scale, b.mantissa, b.scale, scale, p);
        RoundedQuotientExact(a.mantissa * Pow10(p), b.mantissa, mode);
        assert RoundsTo(RoundedQuotient(a.mantissa * Pow10(p), b.mantissa, mode).value, QuotientAt(a, b, scale), mode);
      } else {
        RatioDown(a.mantissa, a.scale, b.mantissa, b.scale, scale, -p);
        RoundedQuotientExact(a.mantissa, b.mantissa * Pow10(-p), mode);
        assert RoundsTo(RoundedQuotient(a.mantissa, b.mantissa * Pow10(-p), mode).value, QuotientAt(a, b, scale), mode);
      }
    }
  }

  /** Changing the sign of either operand changes the sign of the rounded quotient. */
  lemma RoundedQuotientSigns(num: int, den: int, mode: Mode)
    requires den != 0
    ensures var (r, s, t) := (RoundedQuotient(num, den, mode), RoundedQuotient(-num, den, mode), RoundedQuotient(num, -den, mode));
            if r.Ok? then s == t == Ok(-r.value) else s == t == r
  {
    hide ApplyRounding;
    if num == 0 { NothingRounded(Abs(den), mode); }
  }

  lemma NothingRounded(unit: nat, mode: Mode)
    requires unit > 0
    ensures ApplyRounding(0 / unit, 0 % unit, unit, mode) == Ok(0)
  {}

  /** `i128::MIN` is no multiple of ten, so scaling by a power of ten treats both signs alike. */
  lemma ScaledSigns(m: i128, p: nat)
    requires m != MIN
    ensures (-m) * Pow10(p) == -(m * Pow10(p))
    ensures MIN <= m * Pow10(p) <= MAX <==> MIN <= -(m * Pow10(p)) <= MAX
  {
    if p > 0 {
      var k := Pow10(p - 1);
      assert m * Pow10(p) == 10 * (m * k);
      hide Pow10;
      TensDiffer(m * k);
    }
  }

  lemma TensDiffer(k: int)
    ensures 10 * k != MIN && 10 * k != -MIN
  {}

  /** Division is symmetric in sign under every mode: negating either operand keeps every refusal
      and negates every answer. */
  lemma DivRoundSymmetric(a: Decimal, b: Decimal, scale: nat, mode: Mode)
    ensures a.mantissa != MIN ==> Opposite(DivRound(a, b, scale, mode), DivRound(Neg(a), b, scale, mode))
    ensures b.mantissa != MIN ==> Opposite(DivRound(a, b, scale, mode), DivRound(a, Neg(b), scale, mode))
  {
    hide Pow10, RoundedQuotient;
    if b.mantissa != 0 {
      var p := scale + b.scale - a.scale;
      if Abs(p) <= MAX_POWER {
        var num := if p >= 0 then a.mantissa * Pow10(p) else a.mantissa;
        var den := if p >= 0 then b.mantissa else b.mantissa * Pow10(-p);
        assert den != 0;
        RoundedQuotientSigns(num, den, mode);
        if p >= 0 && a.mantissa != MIN { ScaledSigns(a.mantissa, p); }
        if p < 0 && b.mantissa != MIN { ScaledSigns(b.mantissa, -p); }
      }
    }
  }

  /** The same refusal, or answers of one scale and opposite mantissas. */
  predicate Opposite(r: Result<Decimal, MoneyError>, s: Result<Decimal, MoneyError>)
  {
    if r.Err? then s == r
    else s.Ok? && s.value.scale == r.value.scale && s.value.mantissa == -(r.value.mantissa as int)
  }

  /** The rounded magnitude, with both of the source's fallbacks. */
  function RoundMagnitude(n: nat, factor: nat, mode: Mode): (m: nat)
    requires factor > 0
    ensures m <= MAX
  {
    var rounded := ApplyRounding(n / factor, n % factor, factor, mode);
    var m := if rounded.Ok? then rounded.value else n / factor;
    if m > MAX then MAX else m
  }

  /** The single rounding primitive. A drop of more than 38 digits leaves the value as it is. */
  function Round(d: Decimal, target: nat, mode: Mode): Decimal
    requires target - d.scale <= MAX_POWER
  {
    if target >= d.scale then Rescaled(d, target)
    else if d.scale - target > MAX_POWER then d
    else Decimal(Signed(d.mantissa < 0, RoundMagnitude(Abs(d.mantissa), Pow10(d.scale - target), mode)), target)
  }

  /** Neither fallback is ever taken: `round` gives the exact value rounded. */
  lemma RoundExact(d: Decimal, target: nat, mode: Mode)
    requires 0 < d.scale - target <= MAX_POWER
    ensures Round(d, target, mode).scale == target
    ensures RoundsTo(Round(d, target, mode).mantissa, Count(Value(d), target), mode)
  {
    hide Round, RoundedQuotient, RoundsTo, Pow10, Count, Quot, Rational;
    var factor := Pow10(d.scale - target);
    Pow10Fits(d.scale - target);
    RoundIsQuotient(d, target, mode);
    RoundedQuotientExact(d.mantissa, factor, mode);
    CountDrop(d.mantissa, d.scale, target);
  }

  /** Rounding is symmetric in sign, except where widening saturates. */
  lemma RoundSymmetric(d: Decimal, target: nat, mode: Mode)
    requires d.mantissa != MIN && target - d.scale <= MAX_POWER
    ensures Round(Neg(d), target, mode).scale == Round(d, target, mode).scale
    ensures Round(Neg(d), target, mode).mantissa == -(Round(d, target, mode).mantissa as int)
            <==> (target > d.scale ==> MIN <= Aligned(d, target) <= MAX)
  {
    hide Pow10, RoundMagnitude;
    if target > d.scale {
      ScaledSigns(d.mantissa, target - d.scale);
    } else if d.mantissa == 0 && 0 < d.scale - target <= MAX_POWER {
      ZeroMagnitude(Pow10(d.scale - target), mode);
    }
  }

  lemma ZeroMagnitude(factor: nat, mode: Mode)
    requires factor > 0
    ensures RoundMagnitude(0, factor, mode) == 0
  {
    NothingRounded(factor, mode);
  }

  lemma RoundIsQuotient(d: Decimal, target: nat, mode: Mode)
    requires 0 < d.scale - target <= MAX_POWER
    ensures Round(d, target, mode).scale == target
    ensures RoundedQuotient(d.mantissa, Pow10(d.scale - target), mode) == Ok(Round(d, target, mode).mantissa)
  {
    var factor := Pow10(d.scale - target);
    Pow10Fits(d.scale - target);
    RoundedQuotientExact(d.mantissa, factor, mode);
    hide ApplyRounding, RoundsTo, Pow10;
    assert factor >= 10 by { PowerOfTen(d.scale - target); }
    RoundedBelow(Abs(d.mantissa), factor, mode);
  }

  lemma PowerOfTen(n: nat)
    requires n > 0
    ensures Pow10(n) >= 10
  {}

  lemma RoundedBelow(n: nat, factor: nat, mode: Mode)
    requires n <= -MIN && factor >= 10
    ensures ApplyRounding(n / factor, n % factor, factor, mode).Ok? ==>
              ApplyRounding(n / factor, n % factor, factor, mode).value <= MAX
  {
    QuotientBound(n, factor);
  }

  /** Widening never rounds: it keeps the value unless the mantissa saturates. */
  lemma RoundWidens(d: Decimal, target: nat, mode: Mode)
    requires 0 <= target - d.scale <= MAX_POWER
    ensures Value(Round(d, target, mode)) == Value(d) <==> MIN <= Aligned(d, target) <= MAX
  {
    AlignedValue(d, target);
    hide Rational, Pow10;
    PowZero();
    RationalOrder(Round(d, target, mode).mantissa, Aligned(d, target), target);
  }

  // ---- sums of rounded lines ----

  /** One unit in the last place at `scale`. */
  function Unit(scale: nat): real { Rational(1, scale) }

  /** A line that `round` brings to `target` without saturating or giving up. */
  predicate Roundable(d: Decimal, target: nat)
  {
    if target >= d.scale then target - d.scale <= MAX_POWER && MIN <= Aligned(d, target) <= MAX
    else d.scale - target <= MAX_POWER
  }

  /** Rounding moves a value by at most half a unit, or by less than one unit under `Down`. */
  lemma RoundError(d: Decimal, target: nat, mode: Mode)
    requires Roundable(d, target)
    ensures Round(d, target, mode).scale == target
    ensures Within(Value(Round(d, target, mode)) - Value(d), Unit(target), mode)
  {
    hide Round, Rational, RoundsTo, Aligned, Count;
    if target >= d.scale {
      RationalOrder(0, 1, target);
      RoundWidens(d, target, mode);
      RoundScale(d, target, mode);
    } else {
      RoundExact(d, target, mode);
      ScaledError(Round(d, target, mode).mantissa, Value(d), target, mode);
    }
  }

  lemma RoundScale(d: Decimal, target: nat, mode: Mode)
    requires 0 <= target - d.scale <= MAX_POWER
    ensures Round(d, target, mode).scale == target
  {}

  /** Half a unit at most, or less than one unit under `Down`. */
  predicate Within(e: real, unit: real, mode: Mode)
  {
    if mode == Down then -unit < e < unit else -0.5 * unit <= e <= 0.5 * unit
  }

  lemma ScaledError(m: int, v: real, target: nat, mode: Mode)
    requires RoundsTo(m, Count(v, target), mode)
    ensures Within(Rational(m, target) - v, Unit(target), mode)
  {
    hide Rational, Count;
    CountError(m, v, target);
  }

  /** Lines rounded one by one and added up. */
  function SumRounded(lines: seq<Decimal>, target: nat, mode: Mode): (sum: Decimal)
    requires target <= MAX_POWER && forall d <- lines :: Roundable(d, target)
    ensures sum.scale == if lines == [] then 0 else target
  {
    if lines == [] then ZERO
    else
      var line := lines[|lines| - 1];
      RoundError(line, target, mode);
      Add(SumRounded(lines[..|lines| - 1], target, mode), Round(line, target, mode))
  }

  ghost function ExactSum(lines: seq<Decimal>): real
  {
    if lines == [] then 0.0 else ExactSum(lines[..|lines| - 1]) + Value(lines[|lines| - 1])
  }

  /** No running total saturates. */
  predicate TotalsFit(lines: seq<Decimal>, target: nat, mode: Mode)
    requires target <= MAX_POWER && forall d <- lines :: Roundable(d, target)
  {
    lines == []
    || (TotalsFit(lines[..|lines| - 1], target, mode)
        && SumFits(SumRounded(lines[..|lines| - 1], target, mode), Round(lines[|lines| - 1], target, mode)))
  }

  /** n half-units of the target scale; n whole units under `Down`. */
  function ErrorBound(n: nat, target: nat, mode: Mode): real
  {
    n as real * (if mode == Down then Unit(target) else 0.5 * Unit(target))
  }

  lemma ErrorBoundStep(n: nat, target: nat, mode: Mode)
    ensures ErrorBound(0, target, mode) == 0.0
    ensures ErrorBound(n + 1, target, mode) == ErrorBound(n, target, mode) + if mode == Down then Unit(target) else 0.5 * Unit(target)
  {
    hide Unit;
    var u := if mode == Down then Unit(target) else 0.5 * Unit(target);
    assert (n + 1) as real == n as real + 1.0;
    assert (n as real + 1.0) * u == n as real * u + u;
  }

  /** The sum of n rounded lines is within n half-units of the exact sum (n units under `Down`). */
  lemma {:induction false} SumRoundedError(lines: seq<Decimal>, target: nat, mode: Mode)
    requires target <= MAX_POWER && forall d <- lines :: Roundable(d, target)
    requires TotalsFit(lines, target, mode)
    ensures var e := Value(SumRounded(lines, target, mode)) - ExactSum(lines);
            var bound := ErrorBound(|lines|, target, mode);
            -bound <= e <= bound && (mode == Down && lines != [] ==> -bound < e < bound)
  {
    hide Round, Unit, Add, SumFits, Value, ErrorBound;
    if lines == [] {
      ErrorBoundStep(0, target, mode);
      ZeroValue();
    } else {
      var init, line := lines[..|lines| - 1], lines[|lines| - 1];
      SumRoundedError(init, target, mode);
      RoundError(line, target, mode);
      AddExact(SumRounded(init, target, mode), Round(line, target, mode));
      ErrorBoundStep(|init|, target, mode);
    }
  }

  lemma ZeroValue()
    ensures Value(ZERO) == 0.0
  {}
}
