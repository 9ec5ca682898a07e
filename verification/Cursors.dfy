/** Sync cursor tokens (ledger/cursors.py). */
module Cursors {
  import opened Common
  import opened Strings

  const TOKEN_LENGTH: nat := 20

  function Digit(d: nat): (c: char)
    requires d < 10
    ensures '0' <= c <= '9' && Figure(c) == d
  {
    '0' + d as char
  }

  function Figure(c: char): nat
    requires '0' <= c <= '9'
  {
    (c - '0') as nat
  }

  /** `f"{n:0{width}d}"`. */
  function Padded(n: nat, width: nat): (s: string)
    ensures |s| >= width && AllDigits(s)
    decreases n, width
  {
    if n == 0 && width == 0 then ""
    else Padded(n / 10, if width == 0 then 0 else width - 1) + [Digit(n % 10)]
  }

  predicate AllDigits(s: string) {
    forall k | 0 <= k < |s| :: '0' <= s[k] <= '9'
  }

  /** `int(s)`. */
  function Number(s: string): nat
    requires AllDigits(s)
  {
    if s == "" then 0 else 10 * Number(s[..|s| - 1]) + Figure(s[|s| - 1])
  }

  function EncodeCursor(seqno: int): Result<string> {
    if seqno < 0 then Err(CursorError) else Ok(Padded(seqno, TOKEN_LENGTH))
  }

  function DecodeCursor(token: Option<string>): Result<nat> {
    match token
    case None => Ok(0)
    case Some(t) => if |t| != TOKEN_LENGTH || !AllDigits(t) then Err(CursorError) else Ok(Number(t))
  }

  function PowerOfTen(e: nat): (p: nat)
    ensures p >= 1
  {
    if e == 0 then 1 else 10 * PowerOfTen(e - 1)
  }

  lemma {:induction false} PaddedNumber(n: nat, width: nat)
    ensures Number(Padded(n, width)) == n
    decreases n, width
  {
    if n > 0 || width > 0 {
      PaddedNumber(n / 10, if width == 0 then 0 else width - 1);
      var s := Padded(n, width);
      assert s[..|s| - 1] == Padded(n / 10, if width == 0 then 0 else width - 1);
    }
  }

  /** The padding is exact just when the number fits. */
  lemma {:induction false} PaddedFits(n: nat, width: nat)
    ensures |Padded(n, width)| == width <==> n < PowerOfTen(width)
    decreases n, width
  {
    if width > 0 {
      PaddedFits(n / 10, width - 1);
    }
  }

  lemma {:induction false} NumberFits(s: string)
    requires AllDigits(s)
    ensures Number(s) < PowerOfTen(|s|)
  {
    if s != "" {
      NumberFits(s[..|s| - 1]);
    }
  }

  lemma {:induction false} NumberPadded(s: string)
    requires AllDigits(s)
    ensures Padded(Number(s), |s|) == s
  {
    if s != "" {
      NumberPadded(s[..|s| - 1]);
      var (n, f) := (Number(s[..|s| - 1]), Figure(s[|s| - 1]));
      assert Number(s) == 10 * n + f && Number(s) / 10 == n && Number(s) % 10 == f;
      assert s == s[..|s| - 1] + [s[|s| - 1]];
    }
  }

  /** A cursor survives the trip through its token exactly when it fits 20 digits;
      one that does not is refused when it comes back, never read as another. */
  lemma TokenRoundTrip(seqno: nat)
    ensures DecodeCursor(Some(EncodeCursor(seqno).value)) ==
            if seqno < PowerOfTen(TOKEN_LENGTH) then Ok(seqno) else Err(CursorError)
    ensures PowerOfTen(TOKEN_LENGTH) == 100000000000000000000
    ensures forall n: int :: EncodeCursor(n).Ok? <==> n >= 0
    ensures forall n: int :: n < 0 ==> EncodeCursor(n) == Err(CursorError)
  {
    TwentyPlaces();
    PaddedNumber(seqno, TOKEN_LENGTH);
    PaddedFits(seqno, TOKEN_LENGTH);
  }

  /** Every token that decodes is the encoding of what it decodes to. */
  lemma TokenIsCanonical(token: string)
    requires DecodeCursor(Some(token)).Ok?
    ensures EncodeCursor(DecodeCursor(Some(token)).value) == Ok(token)
    ensures DecodeCursor(Some(token)).value < PowerOfTen(TOKEN_LENGTH)
  {
    NumberPadded(token);
    NumberFits(token);
  }

  /** The worth of a leading figure: `figure * place`. */
  function Worth(figure: nat, place: nat): nat {
    if figure == 0 then 0 else Worth(figure - 1, place) + place
  }

  lemma {:induction false} WorthShifts(figure: nat, place: nat)
    ensures Worth(figure, 10 * place) == 10 * Worth(figure, place)
  {
    if figure > 0 {
      WorthShifts(figure - 1, place);
    }
  }

  lemma {:induction false} WorthGrows(f: nat, g: nat, place: nat)
    requires f <= g
    ensures f < g ==> Worth(f, place) + place <= Worth(g, place)
  {
    if f < g {
      WorthGrows(f, g - 1, place);
    }
  }

  lemma {:induction false} LeadingDigit(s: string)
    requires AllDigits(s) && s != ""
    ensures Number(s) == Worth(Figure(s[0]), PowerOfTen(|s| - 1)) + Number(s[1..])
  {
    var n := |s| - 1;
    if n > 0 {
      LeadingDigit(s[..n]);
      assert s[..n][1..] == s[1..][..n - 1] && s[1..][n - 1] == s[n] && s[..n][0] == s[0];
      WorthShifts(Figure(s[0]), PowerOfTen(n - 1));
    } else {
      SingleDigit(s);
    }
  }

  lemma SingleDigit(s: string)
    requires AllDigits(s) && |s| == 1
    ensures Number(s) == Worth(Figure(s[0]), 1) + Number(s[1..])
  {
    assert s[..0] == s[1..] == "";
    OnesWorth(Figure(s[0]));
  }

  lemma {:induction false} OnesWorth(figure: nat)
    ensures Worth(figure, 1) == figure
  {
    if figure > 0 {
      OnesWorth(figure - 1);
    }
  }

  /** On tokens of one length, lexicographic order is numeric order. */
  lemma {:induction false} OrderOfDigits(a: string, b: string)
    requires AllDigits(a) && AllDigits(b) && |a| == |b|
    ensures Precedes(a, b) <==> Number(a) < Number(b)
  {
    if a != "" {
      OrderOfDigits(a[1..], b[1..]);
      LeadingDigit(a);
      LeadingDigit(b);
      NumberFits(a[1..]);
      NumberFits(b[1..]);
      var f, g, p := Figure(a[0]), Figure(b[0]), PowerOfTen(|a| - 1);
      if f <= g {
        WorthGrows(f, g, p);
      } else {
        WorthGrows(g, f, p);
      }
    }
  }

  /** For the sequences that fit, token order is sequence order. */
  lemma FittingTokenOrder(a: nat, b: nat)
    requires a < PowerOfTen(TOKEN_LENGTH) && b < PowerOfTen(TOKEN_LENGTH)
    ensures Precedes(EncodeCursor(a).value, EncodeCursor(b).value) <==> a < b
  {
    PaddedFits(a, TOKEN_LENGTH);
    PaddedFits(b, TOKEN_LENGTH);
    PaddedNumber(a, TOKEN_LENGTH);
    PaddedNumber(b, TOKEN_LENGTH);
    OrderOfDigits(Padded(a, TOKEN_LENGTH), Padded(b, TOKEN_LENGTH));
  }

  // ------------------------------------------------ tokens of any length

  /** A string comes before a longer one when it comes before its first part, or is it. */
  lemma {:induction false} PrecedesByPrefix(a: string, b: string)
    requires |a| <= |b|
    ensures Precedes(a, b) <==> Precedes(a, b[..|a|]) || (a == b[..|a|] && |a| < |b|)
  {
    if a != "" {
      PrecedesByPrefix(a[1..], b[1..]);
      assert b[..|a|][1..] == b[1..][..|a| - 1];
      assert a == [a[0]] + a[1..] && b[..|a|] == [b[0]] + b[..|a|][1..];
    }
  }

  lemma TenTimes(n: nat, figure: nat, p: nat)
    requires p > 0 && figure < 10
    ensures (10 * n + figure) / (10 * p) == n / p
  {
    var q, r := n / p, n % p;
    assert n == p * q + r;
    Split(p, q);
    assert 10 * n + figure == (10 * p) * q + (10 * r + figure);
    DivIs(10 * n + figure, 10 * p, q, 10 * r + figure);
  }

  lemma Split(p: nat, q: nat)
    ensures 10 * (p * q) == (10 * p) * q
  {
  }

  lemma DivIs(n: nat, d: nat, q: nat, r: nat)
    requires d > 0 && r < d && n == d * q + r
    ensures n / d == q
  {
    var x, y := n / d, n % d;
    assert n == d * x + y;
    if x < q {
      Grows(d, x + 1, q);
    } else if q < x {
      Grows(d, q + 1, x);
    }
  }

  lemma Grows(d: nat, x: nat, y: nat)
    requires x <= y
    ensures d * x <= d * y
    ensures x > 0 ==> d * x == d * (x - 1) + d
  {
  }

  /** The first figures of a number are the number without its last places. */
  lemma {:induction false} NumberOfPrefix(s: string, k: nat)
    requires AllDigits(s) && k <= |s|
    ensures Number(s[..k]) == Number(s) / PowerOfTen(|s| - k)
  {
    if k == |s| {
      assert s[..k] == s;
    } else {
      var n := |s| - 1;
      NumberOfPrefix(s[..n], k);
      assert s[..n][..k] == s[..k];
      TenTimes(Number(s[..n]), Figure(s[n]), PowerOfTen(n - k));
    }
  }

  /** A token longer than its width is as short as its number allows. */
  lemma {:induction false} PaddedIsShort(n: nat, width: nat)
    ensures |Padded(n, width)| > width ==> n >= PowerOfTen(|Padded(n, width)| - 1)
    decreases n, width
  {
    if n > 0 || width > 0 {
      var w := if width == 0 then 0 else width - 1;
      PaddedIsShort(n / 10, w);
    }
  }

  lemma {:induction false} PowersGrow(m: nat, n: nat)
    requires m <= n
    ensures PowerOfTen(m) <= PowerOfTen(n)
  {
    if m < n {
      PowersGrow(m, n - 1);
    }
  }

  /** A greater sequence never has a shorter token. */
  lemma TokensGrow(a: nat, b: nat)
    requires a < b
    ensures TOKEN_LENGTH <= |EncodeCursor(a).value| <= |EncodeCursor(b).value|
  {
    var s, t := Padded(a, TOKEN_LENGTH), Padded(b, TOKEN_LENGTH);
    if |t| < |s| {
      PaddedIsShort(a, TOKEN_LENGTH);
      PaddedNumber(b, TOKEN_LENGTH);
      NumberFits(t);
      PowersGrow(|t|, |s| - 1);
    }
  }

  lemma {:induction false} SameNumberSameDigits(a: string, b: string)
    requires AllDigits(a) && AllDigits(b) && |a| == |b|
    ensures a == b <==> Number(a) == Number(b)
  {
    NumberPadded(a);
    NumberPadded(b);
  }

  /** For sequences of any size, the token of a lower one comes first exactly when the
      lower one is no more than the higher without the places its token is longer by: for
      tokens of one length, always. */
  lemma TokenOrder(a: nat, b: nat)
    requires a < b
    ensures var (s, t) := (EncodeCursor(a).value, EncodeCursor(b).value);
      |s| <= |t| && (Precedes(s, t) <==> a <= b / PowerOfTen(|t| - |s|))
  {
    var s, t := Padded(a, TOKEN_LENGTH), Padded(b, TOKEN_LENGTH);
    TokensGrow(a, b);
    PaddedNumber(a, TOKEN_LENGTH);
    PaddedNumber(b, TOKEN_LENGTH);
    PrecedesByPrefix(s, t);
    OrderOfDigits(s, t[..|s|]);
    SameNumberSameDigits(s, t[..|s|]);
    NumberOfPrefix(t, |s|);
    assert t[..|t|] == t;
  }

  /** 2 * 10**19 is below 10**20, and its token comes after. */
  lemma LongTokenComesFirst()
    ensures var (a, b) := (20000000000000000000, 100000000000000000000);
      a < b && !Precedes(EncodeCursor(a).value, EncodeCursor(b).value)
  {
    var a: nat, b: nat := 20000000000000000000, 100000000000000000000;
    var s, t := Padded(a, TOKEN_LENGTH), Padded(b, TOKEN_LENGTH);
    TwentyPlaces();
    PaddedFits(a, TOKEN_LENGTH);
    PaddedFits(b, TOKEN_LENGTH);
    PaddedIsShort(b, TOKEN_LENGTH);
    assert |s| == 20;
    if |t| > 21 {
      PowersGrow(21, |t| - 1);
    }
    TokenOrder(a, b);
  }

  lemma TwentyPlaces()
    ensures PowerOfTen(20) == 100000000000000000000 && PowerOfTen(21) == 1000000000000000000000 && PowerOfTen(1) == 10
  {
    assert PowerOfTen(7) == 10000000;
    assert PowerOfTen(14) == 100000000000000;
  }
}
