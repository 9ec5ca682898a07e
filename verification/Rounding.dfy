/** Rounding a number to the 28 significant digits of a decimal context
    (accounting/lots.py SIGNIFICANT_DIGITS, and Python's default context). */
module Rounding {
  import opened Decimals

  /** Coefficients of at most 28 digits are those below this. */
  const TEN_28: int := 10000000000000000000000000000
  const TEN_27: int := 1000000000000000000000000000

  /** Some decimal, of any length, denotes the number. */
  ghost predicate Terminates(v: real) {
    exists d: Decimal :: Value(d) == v
  }

  /** Some decimal of at most 28 digits does. */
  ghost predicate Fits(v: real) {
    exists d: Decimal :: d.coefficient < TEN_28 && Value(d) == v
  }

  function Distance(a: real, b: real): real {
    if a < b then b - a else a - b
  }

  /** `w` is what rounding `v` to 28 digits may give: no 28-digit decimal is nearer. */
  ghost predicate Nearest(v: real, w: real) {
    && Fits(w)
    && (forall u :: Fits(u) ==> Distance(w, v) <= Distance(u, v))
  }

  // ------------------------------------------------------------- scaling

  lemma ScaleCompares(x: real, y: real, e: int)
    ensures Scale(x, e) <= Scale(y, e) <==> x <= y
    ensures Distance(Scale(x, e), Scale(y, e)) == Scale(Distance(x, y), e)
  {
    ScaleAdds(y - x, x, e);
    ScaleKeepsSign(y - x, e);
    ScaleNegates(y - x, e);
  }

  lemma ScaleInverts(x: real, e: int)
    ensures Scale(Scale(x, e), -e) == x
  {
    ScaleComposes(x, e, -e);
  }

  /** A decimal seen from another exponent. */
  lemma ValueAt(d: Decimal, e: int)
    ensures Scale(Value(d), -e) == Scale(Signed(d) as real, d.exponent - e)
  {
    ScaleComposes(Signed(d) as real, d.exponent, -e);
  }

  function DecimalOf(n: int, e: int): (d: Decimal)
    ensures Signed(d) == n && d.exponent == e && d.coefficient == (if n < 0 then -n else n)
  {
    Decimal(n < 0, if n < 0 then -n else n, e)
  }

  // ----------------------------------------------------------- magnitude

  lemma ScaleStepDown(x: real, e: int)
    ensures Scale(x / 10.0, e) == Scale(x, e - 1)
  {
    ScaleStep(x / 10.0, e - 1);
  }

  lemma TenthIsLower(m: real, unit: real)
    requires m >= unit > 0.0
    ensures 0 <= (m / 10.0 / unit).Floor < (m / unit).Floor
  {
    var q := m / unit;
    assert q * unit == m;
    assert q >= 1.0;
    assert (q / 10.0) * unit == m / 10.0;
    assert m / 10.0 / unit == q / 10.0;
  }

  /** The exponent that brings a number of at least 28 digits down to 28. */
  function Down(m: real): (e: nat)
    requires m >= TEN_27 as real
    ensures TEN_27 as real <= Scale(m, 0 - e) < TEN_28 as real
    decreases (m / TEN_28 as real).Floor
  {
    if m < TEN_28 as real then 0
    else
      TenthIsLower(m, TEN_28 as real);
      var e := Down(m / 10.0);
      ScaleStepDown(m, 0 - e);
      e + 1
  }

  lemma TenfoldIsHigher(m: real, unit: real)
    requires 0.0 < m < unit
    ensures 0 <= (unit / (10.0 * m)).Floor < (unit / m).Floor
  {
    var q := unit / m;
    assert q * m == unit;
    assert q >= 1.0;
    assert (q / 10.0) * (10.0 * m) == unit;
    assert unit / (10.0 * m) == q / 10.0;
  }

  /** The exponent that brings a small number up to 28 digits. */
  function Up(m: real): (e: nat)
    requires 0.0 < m < TEN_28 as real
    ensures TEN_27 as real <= Scale(m, e) < TEN_28 as real
    decreases (TEN_27 as real / m).Floor
  {
    if m >= TEN_27 as real then 0
    else
      TenfoldIsHigher(m, TEN_27 as real);
      var e := Up(10.0 * m);
      ScaleStep(m, e);
      e + 1
  }

  /** The exponent at which a positive number has 28 digits before the point. */
  function Magnitude(m: real): (e: int)
    requires m > 0.0
    ensures TEN_27 as real <= Scale(m, -e) < TEN_28 as real
  {
    if m >= TEN_27 as real then Down(m) else 0 - Up(m)
  }

  // ------------------------------------------------------------- nearest

  /** The integer nearest `x`, and how near it is. */
  function Whole(x: real): (n: int)
    ensures Distance(n as real, x) <= 0.5
  {
    (x + 0.5).Floor
  }

  lemma WholeIsNearest(x: real, n: int)
    ensures Distance(Whole(x) as real, x) <= Distance(n as real, x)
  {
    hide Whole;
    var w := Whole(x);
    if n < w {
      assert n as real <= w as real - 1.0;
    } else if n > w {
      assert n as real >= w as real + 1.0;
    }
  }

  /** A number between 27 and 28 digits before the point is no further from its nearest
      integer than from any 28-digit decimal. */
  lemma NoneNearerAt(x: real, d: Decimal, e: int)
    requires TEN_27 as real <= Distance(x, 0.0) < TEN_28 as real && d.coefficient < TEN_28
    ensures Distance(Whole(x) as real, x) <= Distance(Scale(Signed(d) as real, d.exponent - e), x)
  {
    var k := d.exponent - e;
    var y := Scale(Signed(d) as real, k);
    if k >= 0 {
      ScaleByPower(Signed(d), k);
      WholeIsNearest(x, Signed(d) * PowInt(10, k));
    } else {
      FewDigitsAreSmall(Signed(d), k);
      var edge := if x < 0.0 then -TEN_27 else TEN_27;
      WholeIsNearest(x, edge);
    }
  }

  lemma {:induction false} FewDigitsAreSmall(n: int, k: int)
    requires -TEN_28 < n < TEN_28 && k < 0
    ensures Distance(Scale(n as real, k), 0.0) < TEN_27 as real
    decreases -k
  {
    var ten: real := TEN_28 as real;
    ScaleShrinks(ten, k);
    ScaleCompares(n as real, ten, k);
    ScaleCompares(-ten, n as real, k);
    ScaleCompares(ten, n as real, k);
    ScaleCompares(n as real, -ten, k);
    ScaleNegates(ten, k);
  }

  lemma {:induction false} ScaleShrinks(x: real, k: int)
    requires x > 0.0 && k < 0
    ensures Scale(x, k) <= x / 10.0
    decreases -k
  {
    if k < -1 {
      ScaleShrinks(x / 10.0, k + 1);
    }
  }

  lemma WholeFits(x: real, e: int)
    requires Distance(x, 0.0) < TEN_28 as real
    ensures Fits(Scale(Whole(x) as real, e))
  {
    var n := Whole(x);
    if n == TEN_28 || n == -TEN_28 {
      var edge := if n < 0 then -TEN_27 else TEN_27;
      ScaleStep(edge as real, e);
      assert Value(DecimalOf(edge, e + 1)) == Scale(n as real, e);
    } else {
      assert Value(DecimalOf(n, e)) == Scale(n as real, e);
    }
  }

  /** Every number has a nearest 28-digit decimal. */
  lemma NearestExists(v: real) returns (w: real)
    ensures Nearest(v, w)
  {
    if v == 0.0 {
      w := 0.0;
      assert Value(DecimalOf(0, 0)) == 0.0;
    } else {
      var e := Magnitude(Distance(v, 0.0));
      var x := Scale(v, -e);
      ScaleCompares(v, 0.0, -e);
      ZeroScales(-e);
      w := Scale(Whole(x) as real, e);
      WholeFits(x, e);
      forall u | Fits(u)
        ensures Distance(w, v) <= Distance(u, v)
      {
        var d: Decimal :| d.coefficient < TEN_28 && Value(d) == u;
        ScaleInverts(v, -e);
        ScaleInverts(u, -e);
        ValueAt(d, e);
        NoneNearerAt(x, d, e);
        NearerScales(Whole(x) as real, Scale(u, -e), x, e);
      }
    }
  }

  lemma NearerScales(a: real, b: real, x: real, e: int)
    requires Distance(a, x) <= Distance(b, x)
    ensures Distance(Scale(a, e), Scale(x, e)) <= Distance(Scale(b, e), Scale(x, e))
  {
    ScaleCompares(a, x, e);
    ScaleCompares(b, x, e);
    ScaleCompares(Distance(a, x), Distance(b, x), e);
  }

  lemma {:induction false} ZeroScales(e: int)
    ensures Scale(0.0, e) == 0.0
    decreases if e < 0 then -e else e
  {
    if e > 0 {
      ZeroScales(e - 1);
    } else if e < 0 {
      ZeroScales(e + 1);
    }
  }

  ghost function Rounded(v: real): (w: real)
    ensures Nearest(v, w)
  {
    SomeNearest(v);
    var w :| Nearest(v, w);
    w
  }

  lemma SomeNearest(v: real)
    ensures exists w :: Nearest(v, w)
  {
    var w := NearestExists(v);
  }

  lemma SumTerminates(a: real, b: real)
    requires Terminates(a) && Terminates(b)
    ensures Terminates(a + b)
  {
    var x: Decimal :| Value(x) == a;
    var y: Decimal :| Value(y) == b;
    ExactSumIsSum(x, y);
    assert Value(ExactSum(x, y)) == a + b;
  }

  lemma HalfTerminates(a: real)
    requires Terminates(a)
    ensures Terminates(a / 2.0)
  {
    var x: Decimal :| Value(x) == a;
    var h := Decimal(false, 5, -1);
    ExactMulIsProduct(x, h);
    assert Value(h) == 0.5;
    assert Value(ExactMul(x, h)) == a / 2.0;
  }

  /** Only a number half way between two 28-digit decimals has two nearest ones, and
      such a number terminates. */
  lemma NearestIsUnique(v: real, a: real, b: real)
    requires !Terminates(v) && Nearest(v, a) && Nearest(v, b)
    ensures a == b
  {
    if a != b {
      SumTerminates(a, b);
      HalfTerminates(a + b);
      assert false;
    }
  }

  // ------------------------------------------------------ the two crossings

  /** What crossing from a fraction to `Money` yields. */
  datatype Crossed = Crossed(amount: real, exact: bool)

  /** A terminating value crosses unchanged; any other is rounded, and says so. */
  ghost predicate CrossesTo(v: real, c: Crossed) {
    if Terminates(v) then c == Crossed(v, true) else !c.exact && Nearest(v, c.amount)
  }

  ghost predicate Faithful(f: real -> Crossed) {
    forall v: real :: CrossesTo(v, f(v))
  }

  ghost function Crossing(v: real): (c: Crossed)
    ensures CrossesTo(v, c)
  {
    if Terminates(v) then Crossed(v, true) else Crossed(Rounded(v), false)
  }

  /** `fraction_to_money`: there is one such function, and module Fractions computes it. */
  type Boundary = f: real -> Crossed | Faithful(f)
    ghost witness (v: real) => Crossing(v)

  lemma CrossingIsUnique(v: real, c: Crossed, d: Crossed)
    requires CrossesTo(v, c) && CrossesTo(v, d)
    ensures c == d
  {
    if !Terminates(v) {
      NearestIsUnique(v, c.amount, d.amount);
    }
  }

  /** What the flag of a crossing says. */
  lemma ExactMeansUnchanged(fx: Boundary, v: real)
    ensures fx(v).exact <==> Terminates(v)
    ensures fx(v).exact ==> fx(v).amount == v
  {
    assert CrossesTo(v, fx(v));
  }

  /** A decimal context of 28 digits, whatever it does with ties. */
  type Context = f: real -> real | Rounds(f)
    ghost witness (v: real) => Rounded(v)

  ghost predicate Rounds(f: real -> real) {
    forall v: real :: Nearest(v, f(v))
  }

  /** The sum a context returns fits, and is the sum exactly when that fits. */
  lemma ContextKeeps(add: Context, v: real)
    ensures Fits(add(v))
    ensures add(v) == v <==> Fits(v)
  {
    assert Nearest(v, add(v));
  }
}
