/** The single rounding boundary (accounting/lots.py fraction_to_money). */
module Fractions {
  import opened Decimals
  import opened Rounding

  datatype Ratio = Ratio(num: int, den: int)

  /** `d` divides `n`. */
  ghost predicate Divides(d: int, n: int)
    requires d > 0
  {
    exists q: int :: n == d * q
  }

  /** A `Fraction` is always in lowest terms with a positive denominator. */
  ghost predicate Lowest(f: Ratio) {
    && f.den > 0
    && (forall d: int | d > 1 :: !(Divides(d, f.num) && Divides(d, f.den)))
  }

  /** The decimal expansion terminates within `k` places. */
  ghost predicate TerminatesBy(f: Ratio, k: nat)
    requires f.den > 0
  {
    Divides(f.den, f.num * PowInt(10, k))
  }

  // --------------------------------------------------------- divisibility

  lemma OddTimesOdd(d: int, q: int)
    requires d % 2 != 0 && q % 2 != 0
    ensures (d * q) % 2 != 0
  {
    var a, b := d / 2, q / 2;
    assert d * q == (2 * a + 1) * (2 * b + 1) == 2 * (2 * a * b + a + b) + 1;
  }

  /** A divisor not divisible by 2 survives halving. */
  lemma StripTwo(d: int, n: int)
    requires d > 0 && d % 2 != 0 && Divides(d, 2 * n)
    ensures Divides(d, n)
  {
    var q :| 2 * n == d * q;
    if q % 2 != 0 {
      OddTimesOdd(d, q);
    }
    assert n == d * (q / 2);
  }

  lemma SmallProducts(r: int, s: int)
    requires 1 <= r <= 4 && 1 <= s <= 4
    ensures (r * s) % 5 != 0
  {
    assert r == 1 || r == 2 || r == 3 || r == 4;
  }

  lemma NotFiveTimesNotFive(d: int, q: int)
    requires d % 5 != 0 && q % 5 != 0
    ensures (d * q) % 5 != 0
  {
    var a, r, b, s := d / 5, d % 5, q / 5, q % 5;
    SmallProducts(r, s);
    Expand(a, r, b, s);
    FivesDropOut(5 * (a * b) + a * s + b * r, r * s);
  }

  lemma Expand(a: int, r: int, b: int, s: int)
    ensures (5 * a + r) * (5 * b + s) == 5 * (5 * (a * b) + a * s + b * r) + r * s
  {
  }

  lemma FivesDropOut(k: int, x: int)
    ensures (5 * k + x) % 5 == x % 5
  {
  }

  /** A divisor not divisible by 5 survives division by 5. */
  lemma StripFive(d: int, n: int)
    requires d > 0 && d % 5 != 0 && Divides(d, 5 * n)
    ensures Divides(d, n)
  {
    var q :| 5 * n == d * q;
    if q % 5 != 0 {
      NotFiveTimesNotFive(d, q);
    }
    assert n == d * (q / 5);
  }

  lemma {:induction false} StripTen(d: int, n: int, k: nat)
    requires d > 0 && d % 2 != 0 && d % 5 != 0 && Divides(d, n * PowInt(10, k))
    ensures Divides(d, n)
  {
    if k == 0 {
      assert n * PowInt(10, 0) == n;
    } else {
      var m := n * PowInt(10, k - 1);
      assert n * PowInt(10, k) == 10 * m == 2 * (5 * m);
      StripTwo(d, 5 * m);
      StripFive(d, m);
      StripTen(d, n, k - 1);
    }
  }

  lemma {:induction false} TenPower(k: nat)
    ensures PowInt(10, k) == PowInt(2, k) * PowInt(5, k)
  {
    if k > 0 {
      TenPower(k - 1);
      var a, b := PowInt(2, k - 1), PowInt(5, k - 1);
      assert 10 * (a * b) == (2 * a) * (5 * b);
    }
  }

  lemma {:induction false} PowerAdds(base: nat, m: nat, n: nat)
    requires base > 0
    ensures PowInt(base, m + n) == PowInt(base, m) * PowInt(base, n)
  {
    if m > 0 {
      PowerAdds(base, m - 1, n);
      var a, b := PowInt(base, m - 1), PowInt(base, n);
      assert base * (a * b) == (base * a) * b;
    }
  }

  /** The only common factor left once the twos and fives are out divides the
      numerator, so it is one. */
  lemma ResidualIsOne(f: Ratio, residual: int, rest: int, k: nat)
    requires Lowest(f) && residual > 0 && residual % 2 != 0 && residual % 5 != 0
    requires f.den == residual * rest && TerminatesBy(f, k)
    ensures residual == 1
  {
    var q :| f.num * PowInt(10, k) == f.den * q;
    assert f.den * q == residual * (rest * q);
    StripTen(residual, f.num, k);
    assert Divides(residual, f.den);
  }

  lemma Shuffle(a: int, b: int, c: int, d: int)
    ensures (a * b) * (c * d) == (a * c) * (b * d)
  {
    assert (a * b) * (c * d) == a * (b * (c * d));
    assert b * (c * d) == c * (b * d);
    assert a * (c * (b * d)) == (a * c) * (b * d);
  }

  lemma Associate(a: int, b: int, c: int)
    ensures a * (b * c) == (a * b) * c == b * (a * c)
  {
  }

  /** Without a residual the expansion terminates at the larger count. */
  lemma TerminatesAtMax(f: Ratio, twos: nat, fives: nat)
    requires f.den > 0 && f.den == PowInt(2, twos) * PowInt(5, fives)
    ensures TerminatesBy(f, if twos > fives then twos else fives)
  {
    hide PowInt;
    var k := if twos > fives then twos else fives;
    TenPower(k);
    PowerAdds(2, twos, k - twos);
    PowerAdds(5, fives, k - fives);
    var b, d := PowInt(2, k - twos), PowInt(5, k - fives);
    Shuffle(PowInt(2, twos), b, PowInt(5, fives), d);
    Associate(f.num, f.den, b * d);
    assert f.num * PowInt(10, k) == f.den * (f.num * (b * d));
  }

  /** A common factor cancels from both sides. */
  lemma CancelFactor(p: int, d: int, n: int)
    requires p > 0 && d > 0 && p * d > 0 && Divides(p * d, p * n)
    ensures Divides(d, n)
  {
    var q :| p * n == (p * d) * q;
    assert (p * d) * q == p * (d * q);
    Cancel(p, n, d * q);
  }

  lemma Cancel(p: int, x: int, y: int)
    requires p > 0 && p * x == p * y
    ensures x == y
  {
    assert p * (x - y) == 0;
  }

  lemma FactorDivides(d: int, e: int, n: int)
    requires d > 0 && e > 0 && d * e > 0 && Divides(d * e, n)
    ensures Divides(d, n)
  {
    var q :| n == (d * e) * q;
    assert n == d * (e * q);
  }

  lemma TenOut(n: int, k: nat)
    requires k > 0
    ensures n * PowInt(10, k) == 2 * ((5 * n) * PowInt(10, k - 1))
    ensures n * PowInt(10, k) == 5 * ((2 * n) * PowInt(10, k - 1))
  {
    var p := PowInt(10, k - 1);
    assert n * (10 * p) == 10 * (n * p);
    assert (5 * n) * p == 5 * (n * p);
    assert (2 * n) * p == 2 * (n * p);
  }

  lemma PowStep(base: nat, k: nat)
    requires base > 0 && k > 0
    ensures PowInt(base, k) == base * PowInt(base, k - 1) && PowInt(base, k - 1) > 0 && PowInt(base, k) > 0
  {
  }

  lemma TwoDivides(n: int)
    requires Divides(2, n)
    ensures n % 2 == 0
  {
    var q :| n == 2 * q;
  }

  lemma FiveDivides(n: int)
    requires Divides(5, n)
    ensures n % 5 == 0
  {
    var q :| n == 5 * q;
  }

  lemma NoTens(n: int)
    ensures n * PowInt(10, 0) == n
  {
  }

  lemma {:induction false} TwosNeedPlaces(n: int, twos: nat, k: nat)
    requires n % 2 != 0 && Divides(PowInt(2, twos), n * PowInt(10, k))
    ensures twos <= k
    decreases k
  {
    hide PowInt, Divides;
    if twos > 0 {
      var half := PowInt(2, twos - 1);
      PowStep(2, twos);
      if k == 0 {
        NoTens(n);
        FactorDivides(2, half, n);
        TwoDivides(n);
      } else {
        TenOut(n, k);
        CancelFactor(2, half, (5 * n) * PowInt(10, k - 1));
        OddTimesOdd(5, n);
        TwosNeedPlaces(5 * n, twos - 1, k - 1);
      }
    }
  }

  lemma {:induction false} FivesNeedPlaces(n: int, fives: nat, k: nat)
    requires n % 5 != 0 && Divides(PowInt(5, fives), n * PowInt(10, k))
    ensures fives <= k
    decreases k
  {
    hide PowInt, Divides;
    if fives > 0 {
      var fifth := PowInt(5, fives - 1);
      PowStep(5, fives);
      if k == 0 {
        NoTens(n);
        FactorDivides(5, fifth, n);
        FiveDivides(n);
      } else {
        TenOut(n, k);
        CancelFactor(5, fifth, (2 * n) * PowInt(10, k - 1));
        NotFiveTimesNotFive(2, n);
        FivesNeedPlaces(2 * n, fives - 1, k - 1);
      }
    }
  }

  /** In lowest terms a prime of the denominator is not one of the numerator. */
  lemma PrimeNotShared(f: Ratio, p: int, rest: int)
    requires Lowest(f) && p > 1 && f.den == p * rest
    ensures f.num % p != 0
  {
    assert Divides(p, f.den);
    assert f.num == p * (f.num / p) + f.num % p;
  }

  lemma TwosAtMost(f: Ratio, twos: nat, rest: int, k: nat)
    requires Lowest(f) && rest > 0 && f.den == PowInt(2, twos) * rest && TerminatesBy(f, k)
    ensures twos <= k
  {
    if twos > 0 {
      FactorDivides(PowInt(2, twos), rest, f.num * PowInt(10, k));
      Associate(2, PowInt(2, twos - 1), rest);
      PrimeNotShared(f, 2, PowInt(2, twos - 1) * rest);
      TwosNeedPlaces(f.num, twos, k);
    }
  }

  lemma FivesAtMost(f: Ratio, fives: nat, rest: int, k: nat)
    requires Lowest(f) && rest > 0 && f.den == PowInt(5, fives) * rest && TerminatesBy(f, k)
    ensures fives <= k
  {
    if fives > 0 {
      FactorDivides(PowInt(5, fives), rest, f.num * PowInt(10, k));
      Associate(5, PowInt(5, fives - 1), rest);
      PrimeNotShared(f, 5, PowInt(5, fives - 1) * rest);
      FivesNeedPlaces(f.num, fives, k);
    }
  }

  /** No shorter expansion exists. */
  lemma MaxIsShortest(f: Ratio, twos: nat, fives: nat, k: nat)
    requires Lowest(f) && f.den == PowInt(2, twos) * PowInt(5, fives) && TerminatesBy(f, k)
    ensures twos <= k && fives <= k
  {
    TwosAtMost(f, twos, PowInt(5, fives), k);
    FivesAtMost(f, fives, PowInt(2, twos), k);
  }

  /** A fraction has a finite decimal expansion exactly when its lowest-terms
      denominator has no prime factor but 2 and 5. */
  lemma TerminatesIffTwosAndFives(f: Ratio, residual: int, twos: nat, fives: nat)
    requires Lowest(f) && residual > 0 && residual % 2 != 0 && residual % 5 != 0
    requires f.den == residual * (PowInt(2, twos) * PowInt(5, fives))
    ensures (exists k: nat :: TerminatesBy(f, k)) <==> residual == 1
  {
    if k: nat :| TerminatesBy(f, k) {
      ResidualIsOne(f, residual, PowInt(2, twos) * PowInt(5, fives), k);
    }
    if residual == 1 {
      TerminatesAtMax(f, twos, fives);
    }
  }

  lemma QuotientIs(n: int, d: int, q: int)
    requires d > 0 && n == d * q
    ensures n / d == q
  {
    var p := n / d;
    assert n == d * p + n % d;
    if p < q {
      ScaleUp(d, p + 1, q);
    } else if q < p {
      ScaleUp(d, q + 1, p);
    }
  }

  lemma ScaleUp(d: int, x: int, y: int)
    requires d > 0 && x <= y
    ensures d * x <= d * y
    ensures d * x == d * (x - 1) + d
  {
    assert d * (y - x) >= 0;
  }

  /** Floor division by a divisor is exact, for either sign. */
  lemma ExactQuotient(n: int, d: int)
    requires d > 0 && Divides(d, n)
    ensures (n / d) * d == n
  {
    var q :| n == d * q;
    QuotientIs(n, d, q);
  }

  /** The value of a terminating fraction written out at `scale` places. */
  lemma WrittenOut(num: int, den: int, scaled: int, scale: nat)
    requires scaled * den == num * PowInt(10, scale)
    ensures Scale(scaled as real, 0 - scale) * den as real == num as real
  {
    ScaleByPower(num, scale);
    ScaleOfProduct(scaled as real, den as real, 0 - scale);
    RealProduct(scaled, den);
    SameScale(scaled as real * den as real, Scale(num as real, scale), 0 - scale);
    ScaleComposes(num as real, scale, 0 - scale);
  }

  lemma RealProduct(a: int, b: int)
    ensures (a * b) as real == a as real * b as real
  {
  }

  lemma NoPower(n: int)
    ensures n * PowInt(2, 0) == n == n * PowInt(5, 0)
  {
  }

  /** One more power taken out of a number. */
  lemma PowerOut(n: int, base: nat, k: nat)
    requires base > 0
    ensures (base * n) * PowInt(base, k) == n * PowInt(base, k + 1)
  {
    Associate(n, base, PowInt(base, k));
  }

  /** The first loop of `fraction_to_money`. */
  method StripTwos(n: int) returns (residual: int, twos: nat)
    requires n > 0
    ensures residual > 0 && residual % 2 != 0 && n == residual * PowInt(2, twos)
  {
    hide PowInt;
    residual, twos := n, 0;
    NoPower(n);
    while residual % 2 == 0
      invariant residual > 0 && n == residual * PowInt(2, twos)
      decreases residual
    {
      PowerOut(residual / 2, 2, twos);
      residual, twos := residual / 2, twos + 1;
    }
  }

  /** The second loop: what is left stays odd. */
  method StripFives(n: int) returns (residual: int, fives: nat)
    requires n > 0 && n % 2 != 0
    ensures residual > 0 && residual % 2 != 0 && residual % 5 != 0 && n == residual * PowInt(5, fives)
  {
    hide PowInt;
    residual, fives := n, 0;
    NoPower(n);
    while residual % 5 == 0
      invariant residual > 0 && residual % 2 != 0 && n == residual * PowInt(5, fives)
      decreases residual
    {
      PowerOut(residual / 5, 5, fives);
      residual, fives := residual / 5, fives + 1;
    }
  }

  lemma Gather(den: int, odd: int, residual: int, a: int, b: int)
    requires den == odd * a && odd == residual * b
    ensures den == residual * (a * b)
  {
    Associate(residual, b, a);
  }

  function ValueOf(f: Ratio): real
    requires f.den > 0
  {
    f.num as real / f.den as real
  }

  /** A quotient of two integers under a 28-digit context. */
  ghost predicate Divides28(d: Ratio -> Decimal) {
    forall f: Ratio | f.den > 0 :: Nearest(ValueOf(f), Value(d(f)))
  }

  type Division = d: Ratio -> Decimal | Divides28(d)
    ghost witness (f: Ratio) => if f.den > 0 then Quotient(f) else ZERO

  ghost function Quotient(f: Ratio): (d: Decimal)
    requires f.den > 0
    ensures Nearest(ValueOf(f), Value(d))
  {
    assert Nearest(ValueOf(f), Rounded(ValueOf(f)));
    var d: Decimal :| d.coefficient < TEN_28 && Value(d) == Rounded(ValueOf(f));
    d
  }

  lemma QuotientEquals(f: Ratio, v: real)
    requires f.den > 0 && v * f.den as real == f.num as real
    ensures v == ValueOf(f)
  {
  }

  lemma WrittenBack(f: Ratio, n: int, k: nat)
    requires f.den > 0 && Scale(n as real, 0 - k) == ValueOf(f)
    ensures n * f.den == f.num * PowInt(10, k)
  {
    var x, y, v := n as real, f.den as real, ValueOf(f);
    var z := x * y;
    ScaleOfProduct(x, y, 0 - k);
    SameProduct(Scale(x, 0 - k), v, y);
    assert v * y == f.num as real;
    assert Scale(z, 0 - k) == f.num as real;
    RealProduct(n, f.den);
    assert z == (n * f.den) as real;
    ScaleComposes(z, 0 - k, k);
    SameScale(Scale(z, 0 - k), f.num as real, k);
    ScaleByPower(f.num, k);
  }

  lemma DividesOther(d: int, q: int, n: int)
    requires d > 0 && q * d == n
    ensures Divides(d, n)
  {
    assert n == d * q;
  }

  lemma Reaches(f: Ratio, n: int, k: nat)
    requires f.den > 0 && n * f.den == f.num * PowInt(10, k)
    ensures Scale(n as real, 0 - k) == ValueOf(f)
  {
    WrittenOut(f.num, f.den, n, k);
    QuotientEquals(f, Scale(n as real, 0 - k));
  }

  /** A decimal denotes the fraction exactly when its expansion terminates. */
  lemma TerminatesIffExpands(f: Ratio)
    requires f.den > 0
    ensures Terminates(ValueOf(f)) <==> exists k: nat :: TerminatesBy(f, k)
  {
    if Terminates(ValueOf(f)) {
      var d: Decimal :| Value(d) == ValueOf(f);
      if d.exponent < 0 {
        WrittenBack(f, Signed(d), -d.exponent);
        DividesOther(f.den, Signed(d), f.num * PowInt(10, -d.exponent));
        assert TerminatesBy(f, -d.exponent);
      } else {
        ScaleByPower(Signed(d), d.exponent);
        WrittenBack(f, Signed(d) * PowInt(10, d.exponent), 0);
        DividesOther(f.den, Signed(d) * PowInt(10, d.exponent), f.num * PowInt(10, 0));
        assert TerminatesBy(f, 0);
      }
    }
    if k: nat :| TerminatesBy(f, k) {
      var q :| f.num * PowInt(10, k) == f.den * q;
      Reaches(f, q, k);
      assert Value(DecimalOf(q, 0 - k)) == ValueOf(f);
    }
  }

  /** `fraction_to_money`, with the context's division as a parameter. */
  method FractionToMoney(f: Ratio, divide: Division) returns (amount: Decimal, exact: bool)
    requires Lowest(f)
    // it is the one boundary there is
    ensures forall fx: Boundary :: fx(ValueOf(f)) == Crossed(Value(amount), exact)
    // the flag says exactly whether a finite expansion exists
    ensures exact <==> exists k: nat :: TerminatesBy(f, k)
    // when it does, the amount is the fraction, for either sign,
    ensures exact ==> Value(amount) * f.den as real == f.num as real
    // at the fewest places that can hold it
    ensures exact ==> amount.exponent <= 0 && TerminatesBy(f, -amount.exponent)
    ensures exact ==> forall k: nat | TerminatesBy(f, k) :: -amount.exponent <= k
  {
    TerminatesIffExpands(f);
    amount, exact := Cross(f, divide);
    if exact {
      QuotientEquals(f, Value(amount));
    }
    assert CrossesTo(ValueOf(f), Crossed(Value(amount), exact));
    forall fx: Boundary
      ensures fx(ValueOf(f)) == Crossed(Value(amount), exact)
    {
      assert CrossesTo(ValueOf(f), fx(ValueOf(f)));
      CrossingIsUnique(ValueOf(f), fx(ValueOf(f)), Crossed(Value(amount), exact));
    }
  }

  /** Its two loops and two branches. */
  method Cross(f: Ratio, divide: Division) returns (amount: Decimal, exact: bool)
    requires Lowest(f)
    ensures exact <==> exists k: nat :: TerminatesBy(f, k)
    ensures exact ==> Value(amount) * f.den as real == f.num as real
    ensures exact ==> amount.exponent <= 0 && TerminatesBy(f, -amount.exponent)
    ensures exact ==> forall k: nat | TerminatesBy(f, k) :: -amount.exponent <= k
    ensures !exact ==> Nearest(ValueOf(f), Value(amount))
  {
    var odd, twos := StripTwos(f.den);
    var residual, fives := StripFives(odd);
    Gather(f.den, odd, residual, PowInt(2, twos), PowInt(5, fives));
    TerminatesIffTwosAndFives(f, residual, twos, fives);
    if residual != 1 {
      return divide(f), false;
    }
    exact := true;
    amount := AtScale(f, if twos > fives then twos else fives, twos, fives);
    forall k: nat | TerminatesBy(f, k)
      ensures -amount.exponent <= k
    {
      MaxIsShortest(f, twos, fives, k);
    }
  }

  /** The exact branch, at the shortest terminating scale. */
  method AtScale(f: Ratio, scale: nat, ghost twos: nat, ghost fives: nat) returns (amount: Decimal)
    requires f.den > 0 && f.den == PowInt(2, twos) * PowInt(5, fives)
    requires scale == if twos > fives then twos else fives
    ensures Value(amount) * f.den as real == f.num as real
    ensures amount.exponent == 0 - scale && TerminatesBy(f, scale)
  {
    hide PowInt, Divides;
    TerminatesAtMax(f, twos, fives);
    ghost var n := f.num * PowInt(10, scale);
    var scaled := f.num * PowInt(10, scale) / f.den;
    ExactQuotient(n, f.den);
    WrittenOut(f.num, f.den, scaled, scale);
    amount := Decimal(scaled < 0, if scaled < 0 then -scaled else scaled, 0 - scale);
    assert Signed(amount) == scaled;
  }
}
