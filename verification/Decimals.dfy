/** Exact decimals as sign, coefficient and exponent, and the context-free sum and
    product over them (money/fiat.py, accounting/lots.py exact_mul). */
module Decimals {
  import opened Common

  /** `Decimal.as_tuple()`, the digit tuple read as one number. */
  datatype Decimal = Decimal(negative: bool, coefficient: nat, exponent: int)

  function PowInt(base: nat, n: nat): (p: nat)
    requires base > 0
    ensures p > 0
  {
    if n == 0 then 1 else base * PowInt(base, n - 1)
  }

  /** `x * 10**e` for an exponent of either sign. */
  function Scale(x: real, e: int): real
    decreases if e < 0 then -e else e
  {
    if e == 0 then x else if e > 0 then Scale(10.0 * x, e - 1) else Scale(x / 10.0, e + 1)
  }

  function Signed(d: Decimal): int {
    if d.negative then -(d.coefficient as int) else d.coefficient
  }

  /** The number a decimal denotes. */
  function Value(d: Decimal): real {
    Scale(Signed(d) as real, d.exponent)
  }

  lemma {:induction false} ScaleStep(x: real, e: int)
    ensures Scale(10.0 * x, e) == Scale(x, e + 1)
    decreases if e < 0 then -e else e
  {
    if e < 0 {
      assert 10.0 * x / 10.0 == x;
    }
  }

  lemma {:induction false} ScaleAdds(x: real, y: real, e: int)
    ensures Scale(x + y, e) == Scale(x, e) + Scale(y, e)
    decreases if e < 0 then -e else e
  {
    if e > 0 {
      ScaleAdds(10.0 * x, 10.0 * y, e - 1);
      assert 10.0 * (x + y) == 10.0 * x + 10.0 * y;
    } else if e < 0 {
      ScaleAdds(x / 10.0, y / 10.0, e + 1);
      assert (x + y) / 10.0 == x / 10.0 + y / 10.0;
    }
  }

  lemma {:induction false} ScaleComposes(x: real, a: int, b: int)
    ensures Scale(Scale(x, a), b) == Scale(x, a + b)
    decreases if a < 0 then -a else a
  {
    if a > 0 {
      ScaleComposes(10.0 * x, a - 1, b);
      ScaleStep(x, a - 1 + b);
    } else if a < 0 {
      ScaleComposes(x / 10.0, a + 1, b);
      ScaleStep(x / 10.0, a + b);
    }
  }

  lemma MulAssoc(x: real, y: real, z: real)
    ensures (x * y) * z == x * (y * z)
  {
  }

  lemma SameScale(x: real, y: real, e: int)
    requires x == y
    ensures Scale(x, e) == Scale(y, e)
  {
  }

  lemma SameProduct(a: real, b: real, y: real)
    requires a == b
    ensures a * y == b * y
  {
  }

  lemma {:induction false} ScaleOfProduct(x: real, y: real, e: int)
    ensures Scale(x, e) * y == Scale(x * y, e)
    decreases if e < 0 then -e else e
  {
    if e > 0 {
      var w := 10.0 * x;
      ScaleOfProduct(w, y, e - 1);
      MulAssoc(10.0, x, y);
      SameScale(w * y, 10.0 * (x * y), e - 1);
      SameProduct(Scale(x, e), Scale(w, e - 1), y);
    } else if e < 0 {
      var z := x / 10.0;
      ScaleOfProduct(z, y, e + 1);
      assert x * y == (10.0 * z) * y;
      MulAssoc(10.0, z, y);
      SameScale(x * y / 10.0, z * y, e + 1);
      SameProduct(Scale(x, e), Scale(z, e + 1), y);
    }
  }

  /** `Quantity.as_decimal`: exact at any length. */
  function AsDecimal(raw: int, decimals: nat): (d: Decimal)
    ensures Signed(d) == raw
  {
    Decimal(raw < 0, if raw < 0 then -raw else raw, 0 - decimals)
  }

  /** The units of two quantities at one scale add up. */
  lemma UnitsAdd(a: int, b: int, decimals: nat)
    ensures Value(AsDecimal(a + b, decimals)) == Value(AsDecimal(a, decimals)) + Value(AsDecimal(b, decimals))
  {
    ScaleAdds(a as real, b as real, 0 - decimals);
  }

  lemma NothingIsZero(decimals: nat)
    ensures Value(AsDecimal(0, decimals)) == 0.0
  {
    UnitsAdd(0, 0, decimals);
    assert 0 + 0 == 0;
  }

  // ------------------------------------------------------------ product

  /** `exact_mul`: sign by exclusive or, coefficients multiplied, exponents added. */
  function ExactMul(a: Decimal, b: Decimal): Decimal {
    Decimal(a.negative != b.negative, a.coefficient * b.coefficient, a.exponent + b.exponent)
  }

  lemma SignedProduct(a: Decimal, b: Decimal)
    ensures Signed(ExactMul(a, b)) as real == Signed(a) as real * Signed(b) as real
  {
    assert Signed(ExactMul(a, b)) == Signed(a) * Signed(b);
  }

  lemma ProductOfScales(x: real, y: real, a: int, b: int)
    ensures Scale(x, a) * Scale(y, b) == Scale(x * y, b + a)
  {
    var v, p := Scale(y, b), y * x;
    ScaleOfProduct(x, v, a);
    ScaleOfProduct(y, x, b);
    MulCommutes(x, v);
    MulCommutes(x, y);
    SameScale(x * v, Scale(p, b), a);
    ScaleComposes(p, b, a);
    SameScale(p, x * y, b + a);
  }

  /** The product is exact at any magnitude, and keeps its trailing zeros. */
  lemma ExactMulIsProduct(a: Decimal, b: Decimal)
    ensures Value(ExactMul(a, b)) == Value(a) * Value(b)
    ensures ExactMul(a, b).exponent == a.exponent + b.exponent
  {
    var x, y := Signed(a) as real, Signed(b) as real;
    ProductOfScales(x, y, a.exponent, b.exponent);
    SignedProduct(a, b);
    SameScale(x * y, Signed(ExactMul(a, b)) as real, b.exponent + a.exponent);
  }

  lemma MulCommutes(x: real, y: real)
    ensures x * y == y * x
  {
  }

  // ---------------------------------------------------------------- sum

  /** `_coefficient_at`: how many `10**exponent` the value is. */
  function CoefficientAt(d: Decimal, exponent: int): int
    requires exponent <= d.exponent
  {
    Signed(d) * PowInt(10, d.exponent - exponent)
  }

  /** `_exact_sum`. */
  function ExactSum(a: Decimal, b: Decimal): Decimal {
    var exponent := Min(a.exponent, b.exponent);
    var total := CoefficientAt(a, exponent) + CoefficientAt(b, exponent);
    Decimal(total < 0, if total < 0 then -total else total, exponent)
  }

  lemma {:induction false} ScaleByPower(n: int, k: nat)
    ensures Scale(n as real, k) == (n * PowInt(10, k)) as real
    decreases k
  {
    if k > 0 {
      ScaleByPower(10 * n, k - 1);
      assert (10 * n) * PowInt(10, k - 1) == n * (10 * PowInt(10, k - 1));
    }
  }

  /** A quantity is its raw units over the power of ten of its decimals. */
  lemma UnitsDivided(raw: int, decimals: nat)
    ensures Value(AsDecimal(raw, decimals)) == raw as real / PowInt(10, decimals) as real
  {
    var (p, v) := (PowInt(10, decimals), Value(AsDecimal(raw, decimals)));
    ScaleByPower(1, decimals);
    ScaleComposes(raw as real, 0 - decimals, decimals);
    ScaleOfProduct(1.0, v, decimals);
    SameScale(1.0 * v, v, decimals);
    DividedBy(v, p as real, raw as real);
  }

  lemma DividedBy(v: real, p: real, x: real)
    requires p > 0.0 && v * p == x
    ensures v == x / p
  {
  }

  lemma CoefficientIsExact(d: Decimal, exponent: int)
    requires exponent <= d.exponent
    ensures Scale(CoefficientAt(d, exponent) as real, exponent) == Value(d)
  {
    ScaleByPower(Signed(d), d.exponent - exponent);
    ScaleComposes(Signed(d) as real, d.exponent - exponent, exponent);
  }

  /** The sum is exact at any magnitudes. */
  lemma ExactSumIsSum(a: Decimal, b: Decimal)
    ensures Value(ExactSum(a, b)) == Value(a) + Value(b)
    ensures ExactSum(a, b).exponent <= a.exponent && ExactSum(a, b).exponent <= b.exponent
  {
    var exponent := Min(a.exponent, b.exponent);
    CoefficientIsExact(a, exponent);
    CoefficientIsExact(b, exponent);
    ScaleAdds(CoefficientAt(a, exponent) as real, CoefficientAt(b, exponent) as real, exponent);
  }

  lemma {:induction false} ScaleNegates(x: real, e: int)
    ensures Scale(-x, e) == -Scale(x, e)
    decreases if e < 0 then -e else e
  {
    if e > 0 {
      ScaleNegates(10.0 * x, e - 1);
    } else if e < 0 {
      ScaleNegates(x / 10.0, e + 1);
    }
  }

  lemma {:induction false} ScaleKeepsSign(x: real, e: int)
    ensures Scale(x, e) < 0.0 <==> x < 0.0
    decreases if e < 0 then -e else e
  {
    if e > 0 {
      ScaleKeepsSign(10.0 * x, e - 1);
    } else if e < 0 {
      ScaleKeepsSign(x / 10.0, e + 1);
    }
  }

  /** `copy_negate`. */
  function Negate(d: Decimal): (r: Decimal)
    ensures Value(r) == -Value(d)
  {
    ScaleNegates(Signed(d) as real, d.exponent);
    d.(negative := !d.negative)
  }

  const ZERO := Decimal(false, 0, 0)
}
