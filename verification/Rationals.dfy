/** Rationals with a power-of-ten denominator, and the few facts about quotients of reals
    that the decimal laws need. `Quot` is kept folded in proofs: the solver reasons about it
    through the lemmas below rather than through nonlinear division. */
module Rationals {

  function Quot(x: real, y: real): real
    requires y != 0.0
  {
    x / y
  }

  lemma QuotTimes(x: real, y: real)
    requires y != 0.0
    ensures Quot(x, y) * y == x
  {}

  lemma QuotIs(q: real, x: real, y: real)
    requires y != 0.0 && q * y == x
    ensures Quot(x, y) == q
  {}

  lemma PositiveProduct(x: real, u: real)
    requires x > 0.0 && u > 0.0
    ensures x * u > 0.0
  {}

  lemma Below(x: real, y: real, u: real)
    requires x < y && u > 0.0
    ensures x * u < y * u
  {
    PositiveProduct(y - x, u);
    assert (y - x) * u == y * u - x * u;
  }

  lemma RealScale(x: real, y: real, u: real)
    requires u > 0.0
    ensures x < y <==> x * u < y * u
    ensures x == y <==> x * u == y * u
  {
    if x < y { Below(x, y, u); } else if y < x { Below(y, x, u); }
  }

  lemma NonZeroProduct(p: real, q: real)
    requires p != 0.0 && q != 0.0
    ensures p * q != 0.0
  {}

  lemma NegatedQuotient(x: real, y: real)
    requires y != 0.0
    ensures Quot(-x, y) == -Quot(x, y) && Quot(x, -y) == -Quot(x, y)
  {
    hide Quot;
    QuotTimes(x, y);
    QuotIs(-Quot(x, y), -x, y);
    QuotIs(-Quot(x, y), x, -y);
  }

  lemma CancelRight(k: real, n: real, w: real)
    requires w != 0.0 && k * w == n * w
    ensures k == n
  {
    assert (k - n) * w == 0.0;
  }

  lemma CastProduct(a: int, b: int)
    ensures (a * b) as real == a as real * b as real
  {}

  // ---- powers of ten ----

  function Pow10(n: nat): (p: nat)
    ensures p >= 1
  {
    if n == 0 then 1 else 10 * Pow10(n - 1)
  }

  /** The same power as a real, never zero. */
  function Ten(n: nat): (p: real)
    ensures p > 0.0
  {
    Pow10(n) as real
  }

  lemma {:induction false} Pow10Add(a: nat, b: nat)
    ensures Pow10(a + b) == Pow10(a) * Pow10(b)
  {
    if a > 0 {
      Pow10Add(a - 1, b);
      assert 10 * (Pow10(a - 1) * Pow10(b)) == (10 * Pow10(a - 1)) * Pow10(b);
    }
  }

  lemma TenAdd(a: nat, b: nat)
    ensures Ten(a + b) == Ten(a) * Ten(b)
  {
    Pow10Add(a, b);
    hide Pow10;
    CastProduct(Pow10(a), Pow10(b));
  }

  lemma {:induction false} Pow10Monotone(a: nat, b: nat)
    requires a <= b
    ensures Pow10(a) <= Pow10(b)
  {
    if a < b { Pow10Monotone(a, b - 1); }
  }

  lemma Pow10At38()
    ensures Pow10(38) == 100000000000000000000000000000000000000
  {
    assert Pow10(10) == 10000000000;
    assert Pow10(19) == 10000000000000000000 by { Pow10Add(10, 9); assert Pow10(9) == 1000000000; }
    Pow10Add(19, 19);
  }

  /** `m * 10^-s`. */
  function Rational(m: int, s: nat): real { Quot(m as real, Ten(s)) }

  lemma RationalTimes(m: int, s: nat)
    ensures Rational(m, s) * Ten(s) == m as real
  {
    QuotTimes(m as real, Ten(s));
  }

  lemma RationalRescale(m: int, s: nat, k: nat)
    ensures Rational(m * Pow10(k), s + k) == Rational(m, s)
  {
    hide Pow10, Ten, Rational;
    TenAdd(s, k);
    TenIsPow10(k);
    CastProduct(m, Pow10(k));
    RationalTimes(m * Pow10(k), s + k);
    RationalTimes(m, s);
    assert Rational(m, s) * Ten(s + k) == (Rational(m, s) * Ten(s)) * Ten(k);
    CancelRight(Rational(m * Pow10(k), s + k), Rational(m, s), Ten(s + k));
  }

  lemma TenIsPow10(k: nat)
    ensures Ten(k) == Pow10(k) as real
  {}

  lemma RationalProduct(m: int, k: int, s: nat, t: nat)
    ensures Rational(m * k, s + t) == Rational(m, s) * Rational(k, t)
  {
    hide Rational, Ten;
    TenAdd(s, t);
    CastProduct(m, k);
    RationalTimes(m, s);
    RationalTimes(k, t);
    RationalTimes(m * k, s + t);
    var x, y := Rational(m, s), Rational(k, t);
    assert (x * y) * (Ten(s) * Ten(t)) == (x * Ten(s)) * (y * Ten(t)) by { Regroup(x, y, Ten(s), Ten(t)); }
    CancelRight(Rational(m * k, s + t), x * y, Ten(s + t));
  }

  lemma Regroup(a: real, b: real, c: real, d: real)
    ensures (a * b) * (c * d) == (a * c) * (b * d)
  {
    assert (a * b) * (c * d) == a * (b * (c * d));
    assert b * (c * d) == c * (b * d);
    assert a * (c * (b * d)) == (a * c) * (b * d);
  }

  lemma RationalOrder(a: int, b: int, s: nat)
    ensures Rational(a, s) == Rational(b, s) <==> a == b
    ensures Rational(a, s) < Rational(b, s) <==> a < b
    ensures Rational(a, s) + Rational(b, s) == Rational(a + b, s)
    ensures Rational(0, s) == 0.0
  {
    hide Ten, Rational;
    RationalTimes(a, s);
    RationalTimes(b, s);
    RationalTimes(0, s);
    RationalTimes(a + b, s);
    RealScale(Rational(a, s), Rational(b, s), Ten(s));
    RealScale(Rational(a, s) + Rational(b, s), Rational(a + b, s), Ten(s));
    RealScale(Rational(0, s), 0.0, Ten(s));
    assert (Rational(a, s) + Rational(b, s)) * Ten(s) == Rational(a, s) * Ten(s) + Rational(b, s) * Ten(s);
  }

  /** Dropping digits: a value at scale `s`, counted in units of a coarser scale. */
  lemma RationalDrop(m: int, s: nat, target: nat)
    requires target <= s
    ensures Rational(m, s) * Ten(target) == Quot(m as real, Ten(s - target))
  {
    hide Quot, Ten, Rational;
    TenAdd(s - target, target);
    assert s - target + target == s;
    RationalTimes(m, s);
    var x := Rational(m, s) * Ten(target);
    assert x * Ten(s - target) == Rational(m, s) * (Ten(s - target) * Ten(target));
    QuotIs(x, m as real, Ten(s - target));
  }

  // ---- counting in units ----

  /** `v` in units of the last place at scale `target`. */
  function Count(v: real, target: nat): real { v * Ten(target) }

  lemma CountDrop(m: int, s: nat, target: nat)
    requires target <= s
    ensures Count(Rational(m, s), target) == Quot(m as real, Pow10(s - target) as real)
  {
    hide Quot, Rational, Pow10;
    TenIsPow10(s - target);
    RationalDrop(m, s, target);
  }

  /** A quotient of rationals, counted at a scale, as one fraction of integers: the
      numerator carries the spare power of ten, or the divisor does. */
  lemma RatioUp(m: int, s: nat, k: int, t: nat, scale: nat, p: nat)
    requires k != 0 && p == scale + t - s && Rational(k, t) != 0.0
    ensures Count(Quot(Rational(m, s), Rational(k, t)), scale) == Quot((m * Pow10(p)) as real, k as real)
  {
    hide Quot, Rational, Pow10, Ten;
    TenIsPow10(p);
    TenAdd(t, scale);
    TenAdd(p, s);
    CastProduct(m, Pow10(p));
    assert p + s == t + scale;
    RationalTimes(m, s);
    RationalTimes(k, t);
    var x := Quot(Rational(m, s), Rational(k, t));
    QuotTimes(Rational(m, s), Rational(k, t));
    CrossUp(x, Rational(k, t), Rational(m, s), Ten(s), Ten(t), Ten(scale), Ten(p), m as real, k as real);
    QuotIs(x * Ten(scale), (m * Pow10(p)) as real, k as real);
  }

  lemma CrossUp(x: real, y: real, z: real, a: real, b: real, c: real, f: real, m: real, k: real)
    requires x * y == z && z * a == m && y * b == k && b * c == f * a
    ensures (x * c) * k == m * f
  {
    assert (x * c) * (y * b) == (x * y) * (b * c) by { Regroup(x, c, y, b); }
    assert z * (f * a) == (z * a) * f;
  }

  lemma RatioDown(m: int, s: nat, k: int, t: nat, scale: nat, p: nat)
    requires k != 0 && p == s - scale - t && Rational(k, t) != 0.0
    ensures k * Pow10(p) != 0
    ensures Count(Quot(Rational(m, s), Rational(k, t)), scale) == Quot(m as real, (k * Pow10(p)) as real)
  {
    hide Quot, Rational, Pow10, Ten;
    TenIsPow10(p);
    TenAdd(t, scale);
    TenAdd(p, t + scale);
    CastProduct(k, Pow10(p));
    assert p + (t + scale) == s;
    RationalTimes(m, s);
    RationalTimes(k, t);
    var x := Quot(Rational(m, s), Rational(k, t));
    QuotTimes(Rational(m, s), Rational(k, t));
    CrossDown(x, Rational(k, t), Rational(m, s), Ten(s), Ten(t), Ten(scale), Ten(p), m as real, k as real);
    NonZeroProduct(k as real, Ten(p));
    QuotIs(x * Ten(scale), m as real, (k * Pow10(p)) as real);
  }

  lemma CrossDown(x: real, y: real, z: real, a: real, b: real, c: real, f: real, m: real, k: real)
    requires x * y == z && z * a == m && y * b == k && a == f * (b * c)
    ensures (x * c) * (k * f) == m
  {
    assert (x * c) * (y * b) == (x * y) * (b * c) by { Regroup(x, c, y, b); }
    assert ((x * c) * k) * f == (x * c) * (k * f);
    assert (z * (b * c)) * f == z * (f * (b * c));
  }

  /** A difference of values, compared with a unit, is the difference of counts compared with one. */
  lemma CountError(m: int, v: real, target: nat)
    ensures var (e, u, n) := (Rational(m, target) - v, Rational(1, target), m as real - Count(v, target));
            && (e < u <==> n < 1.0) && (e > -u <==> n > -1.0)
            && (e <= 0.5 * u <==> n <= 0.5) && (e >= -0.5 * u <==> n >= -0.5)
  {
    hide Rational, Ten;
    RationalTimes(m, target);
    RationalTimes(1, target);
    var e, u, p := Rational(m, target) - v, Rational(1, target), Ten(target);
    assert e * p == Rational(m, target) * p - v * p;
    AgainstOne(e, u, p, e * p);
    AgainstOne(-e, u, p, -(e * p));
  }

  lemma AgainstOne(e: real, u: real, p: real, n: real)
    requires p > 0.0 && u * p == 1.0 && e * p == n
    ensures (e < u <==> n < 1.0) && (e <= 0.5 * u <==> n <= 0.5)
  {
    RealScale(e, u, p);
    assert (0.5 * u) * p == 0.5 * (u * p);
    RealScale(e, 0.5 * u, p);
  }

  // ---- integer quotients against exact ones ----

  /** The exact quotient lies in the unit above the integer one, at the place the remainder tells. */
  lemma FractionOf(n: nat, unit: nat)
    requires unit > 0
    ensures var (x, q, r) := (Quot(n as real, unit as real), (n / unit) as real, n % unit);
            && q <= x < q + 1.0 && (x == q <==> r == 0)
            && (x < q + 0.5 <==> 2 * r < unit) && (x == q + 0.5 <==> 2 * r == unit)
  {
    var q, r := n / unit, n % unit;
    assert n == q * unit + r;
    CastProduct(q, unit);
    QuotTimes(n as real, unit as real);
    hide Quot;
    var x, u := Quot(n as real, unit as real), unit as real;
    var f := x - q as real;
    assert f * u == x * u - q as real * u;
    AgainstRemainder(f, u, r as real);
    AgainstHalf(f, u, r as real);
    assert f < 0.5 <==> 2 * r < unit;
    assert f == 0.5 <==> 2 * r == unit;
  }

  lemma AgainstRemainder(f: real, u: real, r: real)
    requires u > 0.0 && 0.0 <= r < u && f * u == r
    ensures 0.0 <= f < 1.0 && (f == 0.0 <==> r == 0.0)
  {
    RealScale(f, 0.0, u);
    RealScale(f, 1.0, u);
  }

  lemma AgainstHalf(f: real, u: real, r: real)
    requires u > 0.0 && f * u == r
    ensures (f < 0.5 <==> r < 0.5 * u) && (f == 0.5 <==> r == 0.5 * u)
  {
    RealScale(f, 0.5, u);
  }

  lemma QuotientBound(n: nat, unit: nat)
    requires unit > 0
    ensures n / unit <= n
    ensures unit >= 10 ==> 10 * (n / unit) <= n
  {
    var q, r := n / unit, n % unit;
    assert n == q * unit + r;
    ProductAtLeast(q, unit, 1);
    if unit >= 10 { ProductAtLeast(q, unit, 10); }
  }

  lemma ProductAtLeast(q: nat, unit: nat, k: nat)
    requires unit >= k
    ensures k * q <= q * unit
  {
    assert q * unit == k * q + q * (unit - k);
  }
}
