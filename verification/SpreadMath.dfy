/** Spread percentages: exact division, optional FX conversion, and half-up rounding to hundredths. */
module SpreadMath {

  /** Nearest integer, ties away from zero (ROUND_HALF_UP of the decimal module). */
  function RoundHalfUp(x: real): int {
    if x >= 0.0 then (x + 0.5).Floor else -((-x + 0.5).Floor)
  }

  function Abs(x: real): real {
    if x < 0.0 then -x else x
  }

  /** What rounding means: n is the result exactly when it is within a half of x and, at a tie, further from
      zero than x. */
  lemma RoundHalfUpExact(x: real, n: int)
    ensures n == RoundHalfUp(x) <==>
            Abs(n as real - x) < 0.5 || (Abs(n as real - x) == 0.5 && Abs(n as real) > Abs(x))
  {
    var r := RoundHalfUp(x);
    assert Abs(r as real - x) < 0.5 || (Abs(r as real - x) == 0.5 && Abs(r as real) > Abs(x));
    if n < r {
      assert n as real <= r as real - 1.0;
    } else if n > r {
      assert n as real >= r as real + 1.0;
    }
  }

  lemma RoundHalfUpMonotone(x: real, y: real)
    requires x <= y
    ensures RoundHalfUp(x) <= RoundHalfUp(y)
  {
  }

  /** Price of one exchange in units of the other, converting KRW to USDT when a rate is given. */
  function Ratio(priceA: real, priceB: real, fx: real): real
    requires priceB != 0.0 && fx != 0.0
  {
    priceA / fx / priceB
  }

  /** Hundredths of a percent by which a ratio exceeds one. */
  function Quantise(ratio: real): int {
    RoundHalfUp((ratio - 1.0) * 100.0 * 100.0)
  }

  /** The spread in hundredths of a percent; same-currency pairs use the rate 1. */
  function SpreadPct(priceA: real, priceB: real, fx: real): int
    requires priceB != 0.0 && fx != 0.0
  {
    Quantise(Ratio(priceA, priceB, fx))
  }

  /** The ratio as read back from a rounded percentage. */
  function FromPct(pct: int): real {
    1.0 + pct as real / 10000.0
  }

  /** The quantised percentage is within 0.005 of the exact one. */
  lemma QuantiseWithinHalfCent(ratio: real)
    ensures Abs(Quantise(ratio) as real / 100.0 - (ratio - 1.0) * 100.0) <= 0.005
    ensures Abs(FromPct(Quantise(ratio)) - ratio) <= 0.00005
    ensures ratio > 0.0 ==> FromPct(Quantise(ratio)) >= 0.0
  {
    var x := (ratio - 1.0) * 100.0 * 100.0;
    RoundHalfUpExact(x, RoundHalfUp(x));
    if ratio > 0.0 {
      RoundHalfUpMonotone(-10000.0, x);
      RoundHalfUpExact(-10000.0, -10000);
    }
  }

  lemma ScaleReal(a: real, b: real, c: real)
    requires a <= b && c >= 0.0
    ensures a * c <= b * c
  {
  }

  lemma DivideMonotone(a: real, b: real, d: real)
    requires a <= b && d > 0.0
    ensures a / d <= b / d
  {
    ScaleReal(a, b, 1.0 / d);
    assert a / d == a * (1.0 / d) && b / d == b * (1.0 / d);
  }

  lemma NonNegativeQuotient(a: real, d: real)
    requires a >= 0.0 && d > 0.0
    ensures a / d >= 0.0
  {
    DivideMonotone(0.0, a, d);
  }

  lemma DivideAntitone(a: real, c: real, d: real)
    requires a >= 0.0 && 0.0 < c <= d
    ensures a / d <= a / c
  {
    var q := a / d;
    assert q * d == a;
    NonNegativeQuotient(a, d);
    ScaleReal(c, d, q);
    assert q * c <= a;
    DivideMonotone(q * c, a, c);
    assert q * c / c == q;
  }

  /** Raising the first price never lowers the spread; raising the second never raises it. */
  lemma SpreadMonotone(lowA: real, highA: real, lowB: real, highB: real, fx: real)
    requires 0.0 < lowA <= highA && 0.0 < lowB <= highB && fx > 0.0
    ensures SpreadPct(lowA, highB, fx) <= SpreadPct(highA, highB, fx)
    ensures SpreadPct(lowA, highB, fx) <= SpreadPct(lowA, lowB, fx)
  {
    DivideMonotone(lowA, highA, fx);
    DivideMonotone(lowA / fx, highA / fx, highB);
    PositiveQuotient(lowA, fx);
    DivideAntitone(lowA / fx, lowB, highB);
    QuantiseMonotone(Ratio(lowA, highB, fx), Ratio(highA, highB, fx));
    QuantiseMonotone(Ratio(lowA, highB, fx), Ratio(lowA, lowB, fx));
  }

  lemma QuantiseMonotone(low: real, high: real)
    requires low <= high
    ensures Quantise(low) <= Quantise(high)
  {
    RoundHalfUpMonotone((low - 1.0) * 100.0 * 100.0, (high - 1.0) * 100.0 * 100.0);
  }

  lemma PositiveQuotient(a: real, d: real)
    requires a > 0.0 && d > 0.0
    ensures a / d > 0.0
  {
    NonNegativeQuotient(a, d);
    assert a / d * d == a;
  }

  /** Exact ratios chain: through b, and with the conversion done once. */
  lemma RatiosChain(a: real, b: real, c: real, fxAB: real, fxBC: real)
    requires a > 0.0 && b > 0.0 && c > 0.0 && fxAB > 0.0 && fxBC > 0.0
    ensures fxAB * fxBC > 0.0
    ensures Ratio(a, b, fxAB) * Ratio(b, c, fxBC) == Ratio(a, c, fxAB * fxBC)
  {
    var p, q := a / fxAB / b, b / fxBC / c;
    var fx := fxAB * fxBC;
    assert p * b * fxAB == a by { assert p * b == a / fxAB; }
    assert q * c * fxBC == b by { assert q * c == b / fxBC; }
    assert p * q * c * fx == a by {
      assert p * q * c * fx == p * fxAB * (q * c * fxBC);
      assert p * fxAB * b == p * b * fxAB;
    }
    assert a / fx == p * q * c by { CancelFactor(p * q * c, fx, a); }
    CancelFactor(p * q, c, a / fx);
  }

  lemma CancelFactor(x: real, d: real, y: real)
    requires d > 0.0 && x * d == y
    ensures y / d == x
  {
  }

  lemma Expand(x: real, y: real, u: real, v: real)
    ensures (x + u) * (y + v) == x * y + x * v + y * u + u * v
  {
    assert (x + u) * (y + v) == x * (y + v) + u * (y + v);
  }

  lemma SumOfErrors(total: real, exact: real, u: real, v: real, w: real, bu: real, bv: real, bw: real)
    requires total == exact + u + v + w
    requires Abs(u) <= bu && Abs(v) <= bv && Abs(w) <= bw
    ensures Abs(total - exact) <= bu + bv + bw
  {
  }

  /** Error propagation for a product of two approximations. */
  lemma ProductError(x: real, y: real, u: real, v: real, e: real)
    requires 0.0 <= e && Abs(u) <= e && Abs(v) <= e && x >= 0.0 && y >= 0.0
    ensures Abs((x + u) * (y + v) - x * y) <= x * e + y * e + e * e
  {
    Expand(x, y, u, v);
    AbsProduct(x, v, x, e);
    AbsProduct(y, u, y, e);
    AbsProduct(u, v, e, e);
    SumOfErrors((x + u) * (y + v), x * y, x * v, y * u, u * v, x * e, y * e, e * e);
  }

  /** The direct ratio and the ratio through a third exchange agree up to the rounding of three spreads. */
  predicate ChainsWithin(xac: real, xab: real, xbc: real) {
    Abs(xac - xab * xbc) <= 0.00005 * (1.0 + xab + xbc + 0.00005)
  }

  lemma ChainError(xab: real, xbc: real, xac: real, u: real, v: real, w: real)
    requires Abs(u) <= 0.00005 && Abs(v) <= 0.00005 && Abs(w) <= 0.00005
    requires xab >= 0.0 && xbc >= 0.0 && (xab + u) * (xbc + v) == xac + w
    ensures ChainsWithin(xac, xab, xbc)
  {
    ProductError(xab, xbc, u, v, 0.00005);
  }

  lemma AbsProduct(u: real, v: real, bu: real, bv: real)
    requires Abs(u) <= bu && Abs(v) <= bv
    ensures Abs(u * v) <= bu * bv
  {
    assert Abs(u * v) == Abs(u) * Abs(v);
    ScaleReal(Abs(u), bu, Abs(v));
    assert bu * Abs(v) == Abs(v) * bu && bu * bv == bv * bu;
    ScaleReal(Abs(v), bv, bu);
  }

  lemma ApproximateChain(xab: real, xbc: real, xac: real, ab: real, bc: real, ac: real)
    requires Abs(xab - ab) <= 0.00005 && Abs(xbc - bc) <= 0.00005 && Abs(xac - ac) <= 0.00005
    requires xab >= 0.0 && xbc >= 0.0 && ab * bc == ac
    ensures ChainsWithin(xac, xab, xbc)
  {
    ChainError(xab, xbc, xac, ab - xab, bc - xbc, ac - xac);
  }

  /** Quantised ratios compose whenever the exact ones do. */
  lemma QuantisedChain(ab: real, bc: real, ac: real)
    requires ab > 0.0 && bc > 0.0 && ab * bc == ac
    ensures ChainsWithin(FromPct(Quantise(ac)), FromPct(Quantise(ab)), FromPct(Quantise(bc)))
  {
    QuantiseWithinHalfCent(ab);
    QuantiseWithinHalfCent(bc);
    QuantiseWithinHalfCent(ac);
    ApproximateChain(FromPct(Quantise(ab)), FromPct(Quantise(bc)), FromPct(Quantise(ac)), ab, bc, ac);
  }

  /** Rounded spreads compose: going from a to c directly or through b differs by at most
      e (1 + X_ab + X_bc + e), e being the rounding error 0.00005 of one spread. */
  lemma SpreadsCompose(a: real, b: real, c: real, fxAB: real, fxBC: real)
    requires a > 0.0 && b > 0.0 && c > 0.0 && fxAB > 0.0 && fxBC > 0.0
    ensures fxAB * fxBC > 0.0
    ensures ChainsWithin(FromPct(SpreadPct(a, c, fxAB * fxBC)), FromPct(SpreadPct(a, b, fxAB)), FromPct(SpreadPct(b, c, fxBC)))
  {
    RatiosChain(a, b, c, fxAB, fxBC);
    PositiveQuotient(a, fxAB);
    PositiveQuotient(a / fxAB, b);
    PositiveQuotient(b, fxBC);
    PositiveQuotient(b / fxBC, c);
    QuantisedChain(Ratio(a, b, fxAB), Ratio(b, c, fxBC), Ratio(a, c, fxAB * fxBC));
  }

  lemma SpreadsComposeAt(a: real, b: real, c: real, fxAB: real, fxBC: real, fxAC: real)
    requires a > 0.0 && b > 0.0 && c > 0.0 && fxAB > 0.0 && fxBC > 0.0 && fxAC == fxAB * fxBC
    ensures fxAC > 0.0
    ensures ChainsWithin(FromPct(SpreadPct(a, c, fxAC)), FromPct(SpreadPct(a, b, fxAB)), FromPct(SpreadPct(b, c, fxBC)))
  {
    SpreadsCompose(a, b, c, fxAB, fxBC);
  }

  /** n is x rounded to the nearest integer, ties away from zero. */
  predicate RoundsTo(n: int, x: real) {
    Abs(n as real - x) < 0.5 || (Abs(n as real - x) == 0.5 && Abs(n as real) > Abs(x))
  }

  lemma RatioDivides(priceA: real, priceB: real, fx: real)
    requires priceB != 0.0 && fx != 0.0
    ensures priceB * fx != 0.0 && Ratio(priceA, priceB, fx) == priceA / (priceB * fx)
  {
    var x := priceA / fx;
    assert x * fx == priceA;
    var y := x / priceB;
    assert y * priceB == x;
    assert y * (priceB * fx) == (y * priceB) * fx;
    QuotientOf(y, priceB * fx, priceA);
  }

  lemma RatioAtOne(priceA: real, priceB: real)
    requires priceB != 0.0
    ensures Ratio(priceA, priceB, 1.0) == priceA / priceB
  {
    assert priceA / 1.0 == priceA;
  }

  lemma QuotientOf(y: real, d: real, a: real)
    requires d != 0.0 && y * d == a
    ensures a / d == y
  {
  }

  /** The exact percentage by which a exceeds b. */
  function ExactPct(a: real, b: real): real
    requires b != 0.0
  {
    (a / b - 1.0) * 100.0
  }

  lemma QuantisesExactPct(a: real, b: real, ratio: real)
    requires b != 0.0 && ratio == a / b
    ensures RoundsTo(Quantise(ratio), ExactPct(a, b) * 100.0)
    ensures Abs(Quantise(ratio) as real / 100.0 - ExactPct(a, b)) <= 0.005
  {
    assert ExactPct(a, b) == (ratio - 1.0) * 100.0;
    assert ExactPct(a, b) * 100.0 == (ratio - 1.0) * 10_000.0;
    RoundHalfUpExact((ratio - 1.0) * 10_000.0, Quantise(ratio));
    QuantiseWithinHalfCent(ratio);
  }

  /** The exact percentage by which a KRW price exceeds a USDT price at a rate of KRW per USDT. */
  function KimchiPct(krw: real, usdt: real, rate: real): real
    requires usdt != 0.0 && rate != 0.0
  {
    RatioDivides(krw, usdt, rate);
    ExactPct(krw, usdt * rate)
  }

  lemma QuantisesKimchiPct(krw: real, usdt: real, rate: real)
    requires usdt != 0.0 && rate != 0.0
    ensures RoundsTo(SpreadPct(krw, usdt, rate), KimchiPct(krw, usdt, rate) * 100.0)
    ensures Abs(SpreadPct(krw, usdt, rate) as real / 100.0 - KimchiPct(krw, usdt, rate)) <= 0.005
  {
    RatioDivides(krw, usdt, rate);
    QuantisesExactPct(krw, usdt * rate, Ratio(krw, usdt, rate));
  }
}
