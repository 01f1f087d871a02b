/** Decimal answers: how the expected answer is computed and how a submitted one is normalized. */
module Answers {
  import opened Basics

  /** The decimal number ±coeff / 10^places. The sign is kept on zero. */
  datatype Decimal = Decimal(negative: bool, coeff: nat, places: nat)

  datatype Operation = Add | Subtract | Multiply | Divide

  function Pow10(n: nat): (p: nat)
    ensures p >= 1
  {
    if n == 0 then 1 else 10 * Pow10(n - 1)
  }

  // ---- Rounding ----

  /** n/d rounded to an integer, ties upwards. */
  function HalfUp(n: nat, d: nat): nat
    requires d > 0
  {
    (2 * n + d) / (2 * d)
  }

  /** n/d rounded to an integer, ties to the even neighbour. */
  function HalfEven(n: nat, d: nat): nat
    requires d > 0
  {
    var q, rest := n / d, n % d;
    if 2 * rest > d || (2 * rest == d && q % 2 == 1) then q + 1 else q
  }

  /** Two places, half up: `quantize(Decimal("0.00"), ROUND_HALF_UP)`. */
  function Quantize(x: Decimal): Decimal {
    Decimal(x.negative, HalfUp(100 * x.coeff, Pow10(x.places)), 2)
  }

  // ---- Text ----

  function Digit(d: nat): (ch: char)
    requires d < 10
  {
    "0123456789"[d]
  }

  predicate IsDigit(ch: char) {
    '0' <= ch <= '9'
  }

  predicate AllDigits(s: string) {
    forall i :: 0 <= i < |s| ==> IsDigit(s[i])
  }

  function Digits(n: nat): (s: string)
    ensures AllDigits(s) && |s| >= 1
  {
    if n < 10 then [Digit(n)] else Digits(n / 10) + [Digit(n % 10)]
  }

  function Nat(s: string): nat
    requires AllDigits(s)
  {
    if s == [] then 0 else 10 * Nat(s[..|s| - 1]) + (s[|s| - 1] as int - '0' as int)
  }

  function ToText(x: Decimal): string
    requires x.places == 2
  {
    (if x.negative then "-" else "") + Digits(x.coeff / 100) + "."
    + [Digit(x.coeff % 100 / 10), Digit(x.coeff % 10)]
  }

  /** The characters `str.strip` removes. */
  predicate IsSpace(ch: char) {
    var n := ch as int;
    || 9 <= n <= 13 || 28 <= n <= 32 || n == 133 || n == 160 || n == 5760 || 8192 <= n <= 8202
    || n == 8232 || n == 8233 || n == 8239 || n == 8287 || n == 12288
  }

  function Strip(s: string): string {
    if s == [] then s
    else if IsSpace(s[0]) then Strip(s[1..])
    else if IsSpace(s[|s| - 1]) then Strip(s[..|s| - 1])
    else s
  }

  function PointIn(s: string): (p: nat)
    ensures p <= |s|
    ensures p < |s| ==> s[p] == '.'
    ensures forall i :: 0 <= i < p ==> s[i] != '.'
  {
    if s == [] || s[0] == '.' then 0 else 1 + PointIn(s[1..])
  }

  /** An unsigned number: digits, and optionally a point and more digits. */
  function ParseMagnitude(negative: bool, s: string): Option<Decimal> {
    var p := PointIn(s);
    if !AllDigits(s[..p]) || p == 0 then None
    else if p == |s| then Some(Decimal(negative, Nat(s), 0))
    else if !AllDigits(s[p + 1..]) || p + 1 == |s| then None
    else Some(Decimal(negative, Nat(s[..p] + s[p + 1..]), |s| - p - 1))
  }

  function Parse(s: string): Option<Decimal> {
    if s != [] && (s[0] == '+' || s[0] == '-') then ParseMagnitude(s[0] == '-', s[1..])
    else ParseMagnitude(false, s)
  }

  // ---- The two entry points ----

  const PRECISION: nat := 28

  /** The value of `abs(x)`, which rounds to 28 significant digits, times 10^places. */
  function RoundedMagnitude(x: Decimal): nat {
    var n := |Digits(x.coeff)|;
    if n <= PRECISION then x.coeff
    else HalfEven(x.coeff, Pow10(n - PRECISION)) * Pow10(n - PRECISION)
  }

  predicate OutOfRange(x: Decimal) {
    RoundedMagnitude(x) > 10000 * Pow10(x.places)
  }

  function MergeZero(x: Decimal): Decimal {
    if x.coeff == 0 then x.(negative := false) else x
  }

  function Normalize(answer: string): Option<string> {
    if |answer| > 64 then None
    else
      var x := Parse(Strip(answer));
      if x.None? || OutOfRange(x.value) then None
      else Some(ToText(MergeZero(Quantize(x.value))))
  }

  /** Places kept by a quotient of 28 significant digits. */
  function QuotientPlaces(left: nat, right: nat): int
    requires left > 0 && right > 0
    decreases if left < right then right - left else 0
  {
    if left >= right then PRECISION - |Digits(left / right)| else 1 + QuotientPlaces(10 * left, right)
  }

  function Quotient(left: nat, right: nat, places: nat): Decimal
    requires right > 0
  {
    Decimal(false, HalfEven(left * Pow10(places), right), places)
  }

  function Result(left: nat, right: nat, operation: Operation): Decimal
    requires left > 0 && right > 0
    requires operation.Divide? ==> QuotientPlaces(left, right) >= 0
  {
    match operation
    case Add => Decimal(false, left + right, 0)
    case Subtract => if left < right then Decimal(true, right - left, 0) else Decimal(false, left - right, 0)
    case Multiply => Decimal(false, left * right, 0)
    case Divide => Quotient(left, right, QuotientPlaces(left, right))
  }

  function Calculate(left: nat, right: nat, operation: Operation): string
    requires left > 0 && right > 0
    requires operation.Divide? ==> QuotientPlaces(left, right) >= 0
  {
    ToText(Quantize(Result(left, right, operation)))
  }

  // ---- Powers and digits ----

  lemma {:induction false} Pow10Add(a: nat, b: nat)
    ensures Pow10(a + b) == Pow10(a) * Pow10(b)
  {
    if a > 0 {
      Pow10Add(a - 1, b);
      assert Pow10(a + b) == 10 * Pow10(a - 1 + b);
    }
  }

  lemma {:induction false} NatDigits(n: nat)
    ensures Nat(Digits(n)) == n
  {
    if n >= 10 {
      NatDigits(n / 10);
      assert Digits(n)[..|Digits(n)| - 1] == Digits(n / 10);
    }
  }

  /** The number of digits locates a number between two powers of ten. */
  lemma {:induction false} DigitCount(n: nat)
    requires n > 0
    ensures Pow10(|Digits(n)| - 1) <= n < Pow10(|Digits(n)|)
  {
    if n >= 10 {
      DigitCount(n / 10);
    }
  }

  lemma NatSnoc(front: string, last: char)
    requires AllDigits(front) && IsDigit(last)
    ensures AllDigits(front + [last])
    ensures Nat(front + [last]) == 10 * Nat(front) + (last as int - '0' as int)
  {
    assert (front + [last])[..|front|] == front;
  }

  lemma {:induction false} NatAppend(s: string, t: string)
    requires AllDigits(s) && AllDigits(t)
    ensures Nat(s + t) == Nat(s) * Pow10(|t|) + Nat(t)
  {
    if t == [] {
      assert s + t == s;
    } else {
      var front, last := t[..|t| - 1], t[|t| - 1];
      assert t == front + [last] && s + t == (s + front) + [last];
      NatAppend(s, front);
      NatSnoc(front, last);
      NatSnoc(s + front, last);
      MulAssoc(Nat(s), Pow10(|front|), 10);
    }
  }

  lemma {:induction false} DigitBound(n: nat, k: nat)
    requires n < Pow10(k) && k > 0
    ensures |Digits(n)| <= k
  {
    if n >= 10 {
      DigitBound(n / 10, k - 1);
    }
  }

  // ---- Rounding twice equals rounding once ----

  /**
   Let n/p approximate left/right with an error below 1/(200*right), exactly where the quotient
   terminates within p. Rounding the approximation half up to two places gives the same cents as
   rounding the true quotient.
   */
  lemma DoubleRounding(left: nat, right: nat, n: nat, p: nat)
    requires right > 0 && p > 0 && p % 1000 == 0
    requires -(p as int) < 200 * (n * right - left * p) < p
    requires (left * p) % right == 0 ==> n * right == left * p
    ensures HalfUp(100 * n, p) == HalfUp(100 * left, right)
  {
    var h := HalfUp(100 * left, right);
    FloorBounds(200 * left + right, 2 * right);
    UpperCents(left, right, n, p, h);
    LowerCents(left, right, n, p, h);
    FloorIs(200 * n + p, 2 * p, h);
  }

  lemma UpperCents(left: nat, right: nat, n: nat, p: nat, h: nat)
    requires right > 0 && p > 0 && 200 * (n * right - left * p) < p
    requires 200 * left + right < 2 * right * (h + 1)
    ensures 200 * n + p < 2 * p * (h + 1)
  {
    var a, b := 200 * left + right, 2 * right * (h + 1) - 1;
    assert a * p <= b * p by {
      MulLe(a, b, p);
    }
    assert a * p == 200 * (left * p) + right * p by {
      MulSum(200 * left, right, p);
    }
    assert b * p == 2 * p * (h + 1) * right - p by {
      MulSum(2 * right * (h + 1), -1, p);
      MulShuffle(2, right, h + 1, p);
    }
    assert (200 * n + p) * right == 200 * (n * right) + right * p by {
      MulSum(200 * n, p, right);
    }
    MulCancelStrict(200 * n + p, 2 * p * (h + 1), right);
  }

  lemma LowerCents(left: nat, right: nat, n: nat, p: nat, h: nat)
    requires right > 0 && p > 0 && p % 1000 == 0 && -(p as int) < 200 * (n * right - left * p)
    requires (left * p) % right == 0 ==> n * right == left * p
    requires 2 * right * h <= 200 * left + right
    ensures 2 * p * h <= 200 * n + p
  {
    var a, b := 2 * right * h, 200 * left + right;
    assert a * p == 2 * p * h * right by {
      MulShuffle(2, right, h, p);
    }
    assert b * p == 200 * (left * p) + right * p by {
      MulSum(200 * left, right, p);
    }
    assert (200 * n + p) * right == 200 * (n * right) + right * p by {
      MulSum(200 * n, p, right);
    }
    if a == b {
      TieIsExact(left, right, h, p);
    } else {
      assert a * p + p <= b * p by {
        MulLe(a + 1, b, p);
        MulSum(a, 1, p);
      }
    }
    MulCancel(2 * p * h, 200 * n + p, right);
  }

  lemma MulSum(a: int, b: int, k: int)
    ensures (a + b) * k == a * k + b * k
  {
  }

  lemma MulShuffle(two: int, a: int, b: int, c: int)
    ensures two * a * b * c == two * c * b * a
  {
    assert a * b * c == c * b * a;
  }

  lemma FloorBounds(n: nat, d: nat)
    requires d > 0
    ensures d * (n / d) <= n < d * (n / d + 1)
  {
  }

  lemma FloorIs(n: nat, d: nat, q: nat)
    requires d > 0 && d * q <= n < d * (q + 1)
    ensures n / d == q
  {
    var r := n / d;
    assert d * r <= n < d * (r + 1);
    if r < q {
      MulLe(r + 1, q, d);
    } else if r > q {
      MulLe(q + 1, r, d);
    }
  }

  lemma MulLe(a: int, b: int, k: nat)
    requires a <= b
    ensures a * k <= b * k
  {
  }

  lemma MulCancel(a: int, b: int, k: nat)
    requires k > 0 && a * k <= b * k
    ensures a <= b
  {
    if a > b {
      assert (b + 1) * k <= a * k by { MulLe(b + 1, a, k); }
    }
  }

  lemma MulCancelStrict(a: int, b: int, k: nat)
    requires k > 0 && a * k < b * k
    ensures a < b
  {
    if a >= b {
      MulLe(b, a, k);
    }
  }

  /** A quotient half way between two cents has at most three places. */
  lemma TieIsExact(left: nat, right: nat, h: nat, p: nat)
    requires right > 0 && p % 1000 == 0 && 2 * right * h == 200 * left + right
    ensures (left * p) % right == 0
  {
    var k := p / 1000;
    var m := 5 * (2 * h - 1) * k;
    assert h >= 1;
    assert left * p == left * 1000 * k;
    assert left * 1000 == 5 * (200 * left) == 5 * (2 * h - 1) * right;
    assert left * p == m * right by {
      assert left * 1000 * k == 5 * (2 * h - 1) * right * k;
    }
    MulMod(m, right);
  }

  /** Rounding half up gives the nearest integer, and the larger one on a tie. */
  lemma HalfUpNearest(n: nat, d: nat)
    requires d > 0
    ensures 2 * n - d < 2 * d * HalfUp(n, d) <= 2 * n + d
  {
    FloorBounds(2 * n + d, 2 * d);
    assert 2 * d * (HalfUp(n, d) + 1) == 2 * d * HalfUp(n, d) + 2 * d;
  }

  /** Rounding half to even gives the nearest integer, and the even one on a tie. */
  lemma HalfEvenNearest(n: nat, d: nat)
    requires d > 0
    ensures 2 * n - d <= 2 * d * HalfEven(n, d) <= 2 * n + d
    ensures 2 * d * HalfEven(n, d) in {2 * n - d, 2 * n + d} ==> HalfEven(n, d) % 2 == 0
  {
    var q, rest := n / d, n % d;
    assert n == d * q + rest && 0 <= rest < d;
    assert 2 * d * (q + 1) == 2 * (d * q) + 2 * d && 2 * d * q == 2 * (d * q);
  }

  lemma NearestIsHalfUp(n: nat, d: nat, h: nat)
    requires d > 0 && 2 * n - d < 2 * d * h <= 2 * n + d
    ensures h == HalfUp(n, d)
  {
    assert 2 * d * (h + 1) == 2 * d * h + 2 * d;
    FloorIs(2 * n + d, 2 * d, h);
  }

  lemma MulMod(m: nat, d: nat)
    requires d > 0
    ensures (m * d) % d == 0
  {
    FloorIs(m * d, d, m);
  }

  lemma HalfEvenError(n: nat, d: nat)
    requires d > 0
    ensures -(d as int) <= 2 * (HalfEven(n, d) * d - n) <= d
    ensures n % d == 0 ==> HalfEven(n, d) * d == n
  {
    assert n == d * (n / d) + n % d;
  }

  lemma SmallQuotient(n: nat, d: nat, m: nat)
    requires d > 0 && n < m * d
    ensures n / d < m
  {
    FloorBounds(n, d);
    MulCancelStrict(n / d, m, d);
  }

  lemma {:induction false} ManyPlaces(left: nat, right: nat)
    requires 0 < left && 0 < right && left / right < Pow10(9)
    ensures QuotientPlaces(left, right) >= 19
    decreases if left < right then right - left else 0
  {
    if left >= right {
      DigitBound(left / right, 9);
    } else {
      if 10 * left >= right {
        SmallQuotient(10 * left, right, 10);
        DigitBound(10 * left / right, 9);
      } else {
        assert 10 * left / right == 0 by { FloorIs(10 * left, right, 0); }
        ManyPlaces(10 * left, right);
      }
    }
  }

  lemma DigitsBetween(n: nat, k: nat)
    requires k >= 1 && Pow10(k - 1) <= n < Pow10(k)
    ensures |Digits(n)| == k
  {
    DigitCount(n);
    var m := |Digits(n)|;
    if m < k {
      Pow10Grows(m, k - 1);
    } else if m > k {
      Pow10Grows(k, m - 1);
    }
  }

  lemma ScaledBetween(left: nat, right: nat, q: nat, u: nat)
    requires right * q <= left < right * (q + 1) && u >= 1
    ensures right * (q * u) <= left * u < right * ((q + 1) * u)
  {
    assert right * q * u <= left * u by {
      MulLe(right * q, left, u);
    }
    assert left * u < right * (q + 1) * u by {
      MulLe(left + 1, right * (q + 1), u);
      MulSum(left, 1, u);
    }
    MulAssoc(right, u, q);
    MulAssoc(right, u, q + 1);
  }

  lemma ScaledPowers(q: nat, k: nat, p: nat)
    requires k >= 1 && Pow10(k - 1) <= q < Pow10(k)
    ensures Pow10(k - 1 + p) <= q * Pow10(p) && (q + 1) * Pow10(p) <= Pow10(k + p)
  {
    Pow10Add(k - 1, p);
    Pow10Add(k, p);
    MulLe(Pow10(k - 1), q, Pow10(p));
    MulLe(q + 1, Pow10(k), Pow10(p));
  }

  /** `n` is the whole part of `a` over `d`. */
  predicate IsFloor(n: nat, a: nat, d: nat) {
    d * n <= a < d * (n + 1)
  }

  lemma FloorBetween(n: nat, a: nat, d: nat, low: nat, high: nat)
    requires d > 0 && IsFloor(n, a, d) && d * low <= a < d * high
    ensures low <= n < high
  {
    MulCancelStrict(low, n + 1, d);
    MulCancelStrict(n, high, d);
  }

  /** Scaling a quotient by a power of ten adds that many digits, whatever the remainder brings. */
  lemma ScaledDigits(left: nat, right: nat, q: nat, p: nat, a: nat, n: nat)
    requires right > 0 && q > 0 && IsFloor(q, left, right) && a == left * Pow10(p) && IsFloor(n, a, right)
    ensures |Digits(n)| == |Digits(q)| + p
  {
    var k := |Digits(q)|;
    DigitCount(q);
    ScaledBetween(left, right, q, Pow10(p));
    ScaledPowers(q, k, p);
    FloorBetween(n, a, right, q * Pow10(p), (q + 1) * Pow10(p));
    DigitsBetween(n, k + p);
  }

  lemma WholePart(left: nat, right: nat) returns (q: nat)
    requires left >= right > 0
    ensures q == left / right > 0 && IsFloor(q, left, right)
  {
    q := left / right;
    FloorBounds(left, right);
    FloorBetween(q, left, right, 1, left + 1);
  }

  lemma {:induction false} PlacesKeep(left: nat, right: nat, places: nat, a: nat, n: nat)
    requires left > 0 && right > 0 && places == QuotientPlaces(left, right)
    requires a == left * Pow10(places) && IsFloor(n, a, right)
    ensures |Digits(n)| == PRECISION
    decreases if left < right then right - left else 0
  {
    if left >= right {
      LongQuotient(left, right, places, a, n);
    } else {
      ShortQuotient(left, right, places, a);
      PlacesKeep(10 * left, right, places - 1, a, n);
    }
  }

  lemma LongQuotient(left: nat, right: nat, places: nat, a: nat, n: nat)
    requires left >= right > 0 && places == QuotientPlaces(left, right)
    requires a == left * Pow10(places) && IsFloor(n, a, right)
    ensures |Digits(n)| == PRECISION
  {
    var q := WholePart(left, right);
    ScaledDigits(left, right, q, places, a, n);
  }

  lemma ShortPlaces(left: nat, right: nat, places: nat)
    requires 0 < left < right && places == QuotientPlaces(left, right)
    ensures places >= 1 && places - 1 == QuotientPlaces(10 * left, right)
  {
    assert left / right < Pow10(9) by {
      SmallQuotient(left, right, 1);
    }
    ManyPlaces(left, right);
  }

  lemma TenTimes(left: nat, places: nat)
    requires places >= 1
    ensures left * Pow10(places) == 10 * left * Pow10(places - 1)
  {
    PowTimes(places - 1);
    MulAssoc(left, Pow10(places - 1), 10);
  }

  lemma ShortQuotient(left: nat, right: nat, places: nat, a: nat)
    requires 0 < left < right && places == QuotientPlaces(left, right) && a == left * Pow10(places)
    ensures places >= 1 && places - 1 == QuotientPlaces(10 * left, right) && a == 10 * left * Pow10(places - 1)
  {
    ShortPlaces(left, right, places);
    TenTimes(left, places);
  }

  /** A division is worked out to 28 significant digits: so many has the quotient, scaled by its places. */
  lemma KeepsDigits(left: nat, right: nat, places: nat, n: nat)
    requires left > 0 && right > 0 && places == QuotientPlaces(left, right)
    requires right * n <= left * Pow10(places) < right * (n + 1)
    ensures |Digits(n)| == 28
  {
    PlacesKeep(left, right, places, left * Pow10(places), n);
  }

  lemma {:induction false} Pow10Grows(a: nat, b: nat)
    requires a <= b
    ensures Pow10(a) <= Pow10(b)
  {
    if a < b {
      Pow10Grows(a, b - 1);
    }
  }

  lemma ThousandDivides(n: nat)
    requires n >= 3
    ensures Pow10(n) % 1000 == 0
  {
    Pow10Add(n - 3, 3);
    assert Pow10(3) == 1000;
    MulMod(Pow10(n - 3), 1000);
  }

  /** The expected answer of a division is the true quotient rounded half up to two places: the
      intermediate rounding to 28 digits never shows. */
  lemma DivisionIsExact(left: nat, right: nat)
    requires 0 < left && 0 < right < Pow10(9) && left / right < Pow10(9)
    ensures QuotientPlaces(left, right) >= 0
    ensures Quantize(Result(left, right, Divide)) == Decimal(false, HalfUp(100 * left, right), 2)
    ensures Calculate(left, right, Divide) == ToText(Decimal(false, HalfUp(100 * left, right), 2))
  {
    ManyPlaces(left, right);
    var places := QuotientPlaces(left, right);
    var p := Pow10(places);
    var n := HalfEven(left * p, right);
    HalfEvenError(left * p, right);
    ThousandDivides(places);
    assert 100 * right < p by {
      Pow10Grows(11, places);
      assert Pow10(11) == 100 * Pow10(9);
    }
    DoubleRounding(left, right, n, p);
  }

  // ---- Printing and parsing ----

  lemma {:induction false} PointAfterDigits(s: string, t: string)
    requires AllDigits(s)
    ensures PointIn(s + "." + t) == |s|
  {
    if s != [] {
      assert (s + "." + t)[1..] == s[1..] + "." + t;
      PointAfterDigits(s[1..], t);
    }
  }

  lemma StripIdle(s: string)
    requires s != [] && !IsSpace(s[0]) && !IsSpace(s[|s| - 1])
    ensures Strip(s) == s
  {
  }

  lemma DigitsOfTail(c: nat)
    ensures var tail := [Digit(c % 100 / 10), Digit(c % 10)];
            AllDigits(tail) && Nat(tail) == c % 100
  {
    TwoDigits(c % 100 / 10, c % 10);
  }

  lemma TwoDigits(a: nat, b: nat)
    requires a < 10 && b < 10
    ensures AllDigits([Digit(a), Digit(b)]) && Nat([Digit(a), Digit(b)]) == 10 * a + b
  {
    assert [Digit(a), Digit(b)][..1] == [Digit(a)];
    assert Nat([Digit(a)]) == a;
  }

  function Body(c: nat): string {
    Digits(c / 100) + "." + [Digit(c % 100 / 10), Digit(c % 10)]
  }

  /** A point separates the whole digits from the places. */
  lemma ParseParts(negative: bool, whole: string, tail: string)
    requires whole != [] && tail != [] && AllDigits(whole) && AllDigits(tail)
    ensures ParseMagnitude(negative, whole + "." + tail) == Some(Decimal(negative, Nat(whole + tail), |tail|))
  {
    var s := whole + "." + tail;
    PointAfterDigits(whole, tail);
    assert s[..|whole|] == whole && s[|whole| + 1..] == tail;
  }

  lemma ParseBody(negative: bool, c: nat)
    ensures ParseMagnitude(negative, Body(c)) == Some(Decimal(negative, c, 2))
  {
    var whole, tail := Digits(c / 100), [Digit(c % 100 / 10), Digit(c % 10)];
    DigitsOfTail(c);
    NatDigits(c / 100);
    NatAppend(whole, tail);
    assert Pow10(2) == 100;
    ParseParts(negative, whole, tail);
  }

  lemma BodyEnds(c: nat)
    ensures |Body(c)| >= 4 && IsDigit(Body(c)[0]) && IsDigit(Body(c)[|Body(c)| - 1])
  {
    NatDigits(c / 100);
    assert Body(c)[0] == Digits(c / 100)[0];
    assert Body(c)[|Body(c)| - 1] == Digit(c % 10);
  }

  lemma SignedText(x: Decimal)
    requires x.places == 2
    ensures ToText(x) == if x.negative then "-" + Body(x.coeff) else Body(x.coeff)
  {
  }

  lemma ParseSigned(negative: bool, body: string)
    requires body != [] && IsDigit(body[0])
    ensures Parse(if negative then "-" + body else body) == ParseMagnitude(negative, body)
  {
    assert ("-" + body)[1..] == body;
  }

  /** Printing two places and parsing gives the number back. */
  lemma ParseText(x: Decimal)
    requires x.places == 2
    ensures Parse(Strip(ToText(x))) == Some(x)
  {
    BodyEnds(x.coeff);
    SignedText(x);
    StripIdle(ToText(x));
    ParseSigned(x.negative, Body(x.coeff));
    ParseBody(x.negative, x.coeff);
  }

  /** Canonical answers: two places, in range, and no negative zero. */
  predicate Canonical(x: Decimal) {
    x.places == 2 && x.coeff <= 1000000 && (x.coeff == 0 ==> !x.negative)
  }

  lemma HalfUpWhole(n: nat, d: nat)
    requires d > 0
    ensures HalfUp(n * d, d) == n
  {
    FloorIs(2 * (n * d) + d, 2 * d, n);
  }

  lemma NormalizeFixes(x: Decimal)
    requires Canonical(x)
    ensures Normalize(ToText(x)) == Some(ToText(x))
  {
    ParseText(x);
    assert Pow10(2) == 100 && Pow10(5) == 100000 && Pow10(7) == 10000000;
    DigitBound(x.coeff / 100, 5);
    DigitBound(x.coeff, 7);
    HalfUpWhole(x.coeff, 100);
    assert x.coeff * 100 == 100 * x.coeff;
  }

  // ---- The range check ----

  // The powers 10^24, 10^27 and 10^28 are written with a variable exponent `e == 24`.

  lemma PowTimes(n: nat)
    ensures Pow10(n + 1) == 10 * Pow10(n)
    ensures Pow10(n + 4) == 10000 * Pow10(n)
    ensures Pow10(n + 5) == 100000 * Pow10(n)
  {
    assert Pow10(n + 2) == 100 * Pow10(n);
    assert Pow10(n + 3) == 1000 * Pow10(n);
  }

  lemma HalfEvenBelow(c: nat, g: nat, m: nat)
    requires g > 0 && c < m * g
    ensures HalfEven(c, g) * g <= m * g
  {
    FloorBounds(c, g);
    MulCancelStrict(c / g, m, g);
    MulLe(HalfEven(c, g), m, g);
  }

  lemma RoundedLong(x: Decimal, n: nat, e: nat)
    requires e == 24 && n == |Digits(x.coeff)| > e + 4
    ensures RoundedMagnitude(x) == HalfEven(x.coeff, Pow10(n - e - 4)) * Pow10(n - e - 4)
  {
    assert n - PRECISION == n - e - 4;
  }

  lemma NearArith(c: nat, g: nat, m: nat)
    requires g > 0 && 10 * g <= c < m * g
    ensures var r := HalfEven(c, g) * g;
            20 * r >= 19 * c && r <= m * g
  {
    HalfEvenError(c, g);
    HalfEvenBelow(c, g, m);
  }

  lemma PowSplit(a: nat, b: nat, n: nat)
    requires a + b == n
    ensures Pow10(a) * Pow10(b) == Pow10(n)
  {
    Pow10Add(a, b);
  }

  /** A number of a+b digits, measured in units of its last b digits. */
  lemma DigitSpan(c: nat, a: nat, b: nat)
    requires c > 0 && a >= 2 && |Digits(c)| == a + b
    ensures 10 * Pow10(b) <= c < Pow10(a) * Pow10(b)
    ensures Pow10(a) * Pow10(b) == Pow10(a + b)
  {
    DigitCount(c);
    PowTimes(b);
    Pow10Grows(b + 1, a + b - 1);
    PowSplit(a, b, a + b);
  }

  /** Rounding to 28 digits moves a number by at most half a unit of its last kept digit. */
  lemma RoundedNear(x: Decimal, n: nat, e: nat)
    requires e == 24 && n == |Digits(x.coeff)| > e + 4 && x.coeff > 0
    ensures var r := RoundedMagnitude(x);
            && 20 * r >= 19 * x.coeff
            && r <= Pow10(n)
  {
    var a, b := e + 4, n - e - 4;
    DigitSpan(x.coeff, a, b);
    RoundedLong(x, n, e);
    NearArith(x.coeff, Pow10(b), Pow10(a));
  }

  lemma AboveArith(c: nat, p: nat, u: nat)
    requires c >= 100000 * p && p >= 1 && u >= 1
    ensures c * u > (10000 * u + 5) * p
  {
    MulLe(100000 * p, c, u);
    MulLe(10000 * u + 6, 100000 * u, p);
    MulSum(10000 * u + 5, 1, p);
    assert 100000 * u * p == 100000 * p * u;
  }

  /** The magnitude exceeds 10000 + 5*10^-e. */
  predicate Beyond(x: Decimal, e: nat) {
    x.coeff * Pow10(e) > (10000 * Pow10(e) + 5) * Pow10(x.places)
  }

  lemma RangeAbove(x: Decimal, n: nat, e: nat)
    requires e == 24 && x.coeff > 0 && n == |Digits(x.coeff)| > x.places + 5
    ensures OutOfRange(x)
    ensures Beyond(x, e)
  {
    var p := Pow10(x.places);
    assert x.coeff >= 100000 * p by {
      DigitCount(x.coeff);
      Pow10Grows(x.places + 5, n - 1);
      PowTimes(x.places);
    }
    assert 20 * RoundedMagnitude(x) >= 19 * x.coeff by {
      if n > e + 4 {
        RoundedNear(x, n, e);
      }
    }
    AboveArith(x.coeff, p, Pow10(e));
  }

  lemma BelowArith(c: nat, p: nat, u: nat)
    requires c <= 10000 * p
    ensures c * u <= (10000 * u + 5) * p
  {
    MulLe(c, 10000 * p, u);
    MulSum(10000 * u, 5, p);
    assert 10000 * u * p == 10000 * p * u;
  }

  lemma RangeBelow(x: Decimal, n: nat, e: nat)
    requires e == 24 && x.coeff > 0 && n == |Digits(x.coeff)| < x.places + 5
    ensures !OutOfRange(x)
    ensures !Beyond(x, e)
  {
    var p := Pow10(x.places);
    assert Pow10(n) <= 10000 * p by {
      Pow10Grows(n, x.places + 4);
      PowTimes(x.places);
    }
    assert x.coeff < Pow10(n) by {
      DigitCount(x.coeff);
    }
    assert RoundedMagnitude(x) <= Pow10(n) by {
      if n > e + 4 {
        RoundedNear(x, n, e);
      }
    }
    BelowArith(x.coeff, p, Pow10(e));
  }

  lemma ShortArith(c: nat, p: nat, u: nat)
    requires 10 * p <= u && p >= 1
    ensures c > 10000 * p <==> c * u > (10000 * u + 5) * p
  {
    if c > 10000 * p {
      MulLe(10000 * p + 1, c, u);
      MulSum(10000 * p, 1, u);
      MulSum(10000 * u, 5, p);
      assert 10000 * u * p == 10000 * p * u;
    } else {
      BelowArith(c, p, u);
    }
  }

  lemma RoundedShort(x: Decimal)
    requires |Digits(x.coeff)| <= PRECISION
    ensures OutOfRange(x) <==> x.coeff > 10000 * Pow10(x.places)
  {
  }

  lemma BeyondShort(x: Decimal, e: nat)
    requires x.places < e
    ensures Beyond(x, e) <==> x.coeff > 10000 * Pow10(x.places)
  {
    assert 10 * Pow10(x.places) <= Pow10(e) by {
      Pow10Grows(x.places + 1, e);
      PowTimes(x.places);
    }
    ShortArith(x.coeff, Pow10(x.places), Pow10(e));
  }

  lemma RangeShort(x: Decimal, e: nat)
    requires e == 24 && x.coeff > 0 && |Digits(x.coeff)| == x.places + 5 <= e + 4
    ensures OutOfRange(x) <==> Beyond(x, e)
  {
    RoundedShort(x);
    BeyondShort(x, e);
  }

  lemma LongArith(c: nat, g: nat, t: nat)
    requires t >= 1
    ensures 2 * c > 2 * (10000 * t * g) + g <==> c * (10 * t) > (10000 * (10 * t) + 5) * (t * g)
  {
    var mg := 10000 * t * g;
    assert c * (10 * t) == (10 * c) * t;
    assert (10000 * (10 * t) + 5) * (t * g) == (10 * mg + 5 * g) * t by {
      MulAssoc(10000 * (10 * t) + 5, g, t);
      MulSum(10000 * (10 * t), 5, g);
      assert 10000 * (10 * t) * g == 10 * mg;
    }
    MulGreater(10 * c, 10 * mg + 5 * g, t);
  }

  lemma TieArith(c: nat, g: nat, m: nat)
    requires g > 0 && c >= m * g && m % 2 == 0
    ensures HalfEven(c, g) * g > m * g <==> 2 * c > 2 * (m * g) + g
  {
    HalfEvenAbove(c, g, m);
    MulGreater(HalfEven(c, g), m, g);
  }

  lemma TieLong(c: nat, g: nat, t: nat, p: nat, u: nat)
    requires g > 0 && t >= 1 && p == t * g && u == 10 * t && c >= 10000 * p
    ensures HalfEven(c, g) * g > 10000 * p <==> c * u > (10000 * u + 5) * p
  {
    assert 10000 * p == 10000 * t * g by {
      MulShuffle(1, 10000, t, g);
    }
    TieArith(c, g, 10000 * t);
    LongArith(c, g, t);
  }

  lemma BeyondLong(x: Decimal, e: nat)
    requires e >= 1 && x.places + 1 >= e && x.coeff >= 10000 * Pow10(x.places)
    ensures var g := Pow10(x.places + 1 - e);
            Beyond(x, e) <==> HalfEven(x.coeff, g) * g > 10000 * Pow10(x.places)
  {
    var c, p, g, t := x.coeff, Pow10(x.places), Pow10(x.places + 1 - e), Pow10(e - 1);
    assert t * g == p by {
      PowSplit(e - 1, x.places + 1 - e, x.places);
    }
    assert Pow10(e) == 10 * t by {
      PowTimes(e - 1);
    }
    TieLong(c, g, t, p, Pow10(e));
  }

  lemma RangeLong(x: Decimal, e: nat)
    requires e == 24 && x.coeff > 0 && |Digits(x.coeff)| == x.places + 5 > e + 4
    ensures OutOfRange(x) <==> Beyond(x, e)
  {
    assert x.coeff >= 10000 * Pow10(x.places) by {
      DigitCount(x.coeff);
      PowTimes(x.places);
    }
    RoundedLong(x, x.places + 5, e);
    BeyondLong(x, e);
  }

  lemma MulAssoc(a: int, b: int, c: int)
    ensures a * (c * b) == (a * b) * c
  {
  }

  lemma MulGreater(a: int, b: int, k: int)
    requires k > 0
    ensures a * k > b * k <==> a > b
  {
    if a > b {
      MulLe(b + 1, a, k);
      MulSum(b, 1, k);
    } else {
      MulLe(a, b, k);
    }
  }

  /** Above an even bound, a tie falls back onto the bound. */
  lemma MulOrder(q: nat, m: nat, g: nat)
    ensures q < m ==> q * g + g <= m * g
    ensures q > m ==> m * g + g <= q * g
  {
    if q < m {
      MulLe(q + 1, m, g);
      MulSum(q, 1, g);
    } else if q > m {
      MulLe(m + 1, q, g);
      MulSum(m, 1, g);
    }
  }

  lemma HalfEvenAbove(c: nat, g: nat, m: nat)
    requires g > 0 && c >= m * g && m % 2 == 0
    ensures HalfEven(c, g) > m <==> 2 * c > 2 * (m * g) + g
  {
    var q, r := c / g, c % g;
    var qg, mg := q * g, m * g;
    assert c == qg + r && 0 <= r < g;
    assert (q < m ==> qg + g <= mg) && (q > m ==> mg + g <= qg) by {
      MulOrder(q, m, g);
    }
  }

  lemma RangeExactAt(x: Decimal, e: nat)
    requires e == 24
    ensures OutOfRange(x) <==> Beyond(x, e)
  {
    var n := |Digits(x.coeff)|;
    if x.coeff > 0 {
      if n > x.places + 5 {
        RangeAbove(x, n, e);
      } else if n < x.places + 5 {
        RangeBelow(x, n, e);
      } else if n <= e + 4 {
        RangeShort(x, e);
      } else {
        RangeLong(x, e);
      }
    }
  }

  /**
   The check compares the magnitude after rounding to 28 digits, so it lets pass exactly the
   magnitudes up to 10000 + 5*10^-24, a little more than the 10000 it names.
   */
  lemma RangeExact(x: Decimal)
    ensures OutOfRange(x) <==> Beyond(x, 24)
  {
    RangeExactAt(x, 24);
  }

  // ---- What a normal form depends on ----

  /** Two decimals denote the same number; a zero has no sign. */
  predicate SameValue(x: Decimal, y: Decimal) {
    && x.coeff * Pow10(y.places) == y.coeff * Pow10(x.places)
    && (x.coeff != 0 ==> x.negative == y.negative)
  }

  lemma RatioShift(a: int, d: nat, b: int, f: nat)
    requires a * f == b * d
    ensures (2 * a + d) * f == (2 * b + f) * d
  {
    MulSum(2 * a, d, f);
    MulSum(2 * b, f, d);
  }

  /** If `2dh <= x < 2d(h+1)` and `x/d == y/f`, then `2fh <= y < 2f(h+1)`. */
  lemma RatioFloor(x: nat, d: nat, y: nat, f: nat, h: nat)
    requires d > 0 && f > 0 && x * f == y * d
    requires 2 * d * h <= x < 2 * d * (h + 1)
    ensures 2 * f * h <= y < 2 * f * (h + 1)
  {
    MulShuffle(2, d, h, f);
    MulShuffle(2, d, h + 1, f);
    MulLe(2 * d * h, x, f);
    MulCancel(2 * f * h, y, d);
    MulGreater(2 * d * (h + 1), x, f);
    MulCancelStrict(y, 2 * f * (h + 1), d);
  }

  lemma HalfUpRatio(a: nat, d: nat, b: nat, f: nat)
    requires d > 0 && f > 0 && a * f == b * d
    ensures HalfUp(a, d) == HalfUp(b, f)
  {
    var h := HalfUp(a, d);
    FloorBounds(2 * a + d, 2 * d);
    RatioShift(a, d, b, f);
    RatioFloor(2 * a + d, d, 2 * b + f, f, h);
    FloorIs(2 * b + f, 2 * f, h);
  }

  lemma RatioArith(a: nat, p: nat, b: nat, q: nat, u: nat, v: nat)
    requires p > 0 && q > 0 && a * q == b * p
    ensures a * u > v * p <==> b * u > v * q
  {
    assert a * u * q == b * u * p by {
      assert a * q * u == b * p * u;
    }
    assert v * p * q == v * q * p;
    MulGreater(a * u, v * p, q);
    MulGreater(b * u, v * q, p);
  }

  lemma RangeByValue(x: Decimal, y: Decimal, e: nat)
    requires e == 24 && SameValue(x, y)
    ensures OutOfRange(x) <==> OutOfRange(y)
  {
    RangeExactAt(x, e);
    RangeExactAt(y, e);
    RatioArith(x.coeff, Pow10(x.places), y.coeff, Pow10(y.places), Pow10(e), 10000 * Pow10(e) + 5);
  }

  lemma QuantizeByValue(x: Decimal, y: Decimal)
    requires SameValue(x, y)
    ensures MergeZero(Quantize(x)) == MergeZero(Quantize(y))
  {
    HalfUpRatio(100 * x.coeff, Pow10(x.places), 100 * y.coeff, Pow10(y.places));
    if x.coeff == 0 {
      assert y.coeff == 0 by {
        MulGreater(y.coeff, 0, Pow10(x.places));
      }
    }
  }

  lemma SameNormalForm(a: string, b: string)
    requires Parse(Strip(a)).Some? && Parse(Strip(b)).Some?
    requires SameValue(Parse(Strip(a)).value, Parse(Strip(b)).value)
    ensures Normalize(a) == Normalize(b)
       <==> ((|a| <= 64 <==> |b| <= 64) || OutOfRange(Parse(Strip(a)).value))
  {
    RangeByValue(Parse(Strip(a)).value, Parse(Strip(b)).value, 24);
    QuantizeByValue(Parse(Strip(a)).value, Parse(Strip(b)).value);
  }

  lemma InRangeCents(c: nat, p: nat, u: nat)
    requires u > 5000 && p > 0 && c * u <= (10000 * u + 5) * p
    ensures HalfUp(100 * c, p) <= 1000000
  {
    var h := HalfUp(100 * c, p);
    FloorBounds(200 * c + p, 2 * p);
    if h > 1000000 {
      MulLe(1000001, h, 2 * p);
      assert 200 * c >= 2000001 * p;
      MulLe(2000001 * p, 200 * c, u);
      assert 2000001 * p * u == 2000001 * (p * u) && 200 * c * u == 200 * (c * u);
      MulSum(10000 * u, 5, p);
      assert 10000 * u * p == 10000 * (p * u);
      MulLe(5001, u, p);
    }
  }

  lemma NormalizedIsCanonical(x: Decimal, e: nat)
    requires e == 24 && !OutOfRange(x)
    ensures Canonical(MergeZero(Quantize(x)))
  {
    RangeExactAt(x, e);
    assert Pow10(e) > 5000 by {
      Pow10Grows(4, e);
      assert Pow10(4) == 10000;
    }
    InRangeCents(x.coeff, Pow10(x.places), Pow10(e));
  }

  /** A normal form is its own normal form; in particular signed zeros have merged. */
  lemma NormalizeIdempotent(a: string)
    requires Normalize(a).Some?
    ensures Normalize(Normalize(a).value) == Normalize(a)
    ensures Normalize(a).value != "-0.00"
  {
    var x := Parse(Strip(a)).value;
    NormalizedIsCanonical(x, 24);
    NormalizeFixes(MergeZero(Quantize(x)));
    NoNegativeZero(MergeZero(Quantize(x)));
  }

  lemma TextsDiffer(x: Decimal, y: Decimal)
    requires x.places == y.places == 2 && x != y
    ensures ToText(x) != ToText(y)
  {
    ParseText(x);
    ParseText(y);
  }

  lemma NegativeZeroText()
    ensures ToText(Decimal(true, 0, 2)) == "-0.00"
  {
    assert Digits(0) == "0";
  }

  lemma NoNegativeZero(x: Decimal)
    requires Canonical(x)
    ensures ToText(x) != "-0.00"
  {
    TextsDiffer(x, Decimal(true, 0, 2));
    NegativeZeroText();
  }

  lemma SmallOperands(left: nat, right: nat)
    requires left <= 99 && 1 <= right <= 99
    ensures right < Pow10(9) && left / right < Pow10(9)
  {
    Pow10Grows(2, 9);
    assert Pow10(2) == 100;
    FloorBounds(left, right);
    MulCancelStrict(left / right, 100, right);
  }

  /** The exact result of a drawn expression, rounded half up to cents. */
  function TrueCents(left: nat, right: nat, operation: Operation): Decimal
    requires right > 0
  {
    match operation
    case Add => Decimal(false, 100 * (left + right), 2)
    case Subtract => if left < right then Decimal(true, 100 * (right - left), 2) else Decimal(false, 100 * (left - right), 2)
    case Multiply => Decimal(false, 100 * (left * right), 2)
    case Divide => Decimal(false, HalfUp(100 * left, right), 2)
  }

  lemma DivideCents(left: nat, right: nat)
    requires 1 <= left <= 99 && 1 <= right <= 99
    ensures QuotientPlaces(left, right) >= 0
    ensures Quantize(Result(left, right, Divide)) == TrueCents(left, right, Divide)
  {
    assert right < Pow10(9) && left / right < Pow10(9) by {
      SmallOperands(left, right);
    }
    DivisionIsExact(left, right);
  }

  lemma WholeCents(negative: bool, n: nat)
    ensures Quantize(Decimal(negative, n, 0)) == Decimal(negative, 100 * n, 2)
  {
    HalfUpWhole(100 * n, 1);
  }

  lemma SmallProduct(left: nat, right: nat)
    requires left <= 99 && right <= 99
    ensures left * right <= 9801
  {
    MulLe(left, 99, right);
  }

  lemma SmallCents(left: nat, right: nat, operation: Operation)
    requires 1 <= left <= 99 && 1 <= right <= 99
    ensures var x := TrueCents(left, right, operation); Canonical(x) && x.coeff < 1000000
  {
    match operation
    case Multiply => SmallProduct(left, right);
    case Divide => HalfUpBound(left, right);
    case _ =>
  }

  /** What the generator computes is the exact result, rounded once. */
  lemma ResultIsTrue(left: nat, right: nat, operation: Operation)
    requires 1 <= left <= 99 && 1 <= right <= 99
    ensures operation.Divide? ==> QuotientPlaces(left, right) >= 0
    ensures Quantize(Result(left, right, operation)) == TrueCents(left, right, operation)
  {
    if operation.Divide? {
      DivideCents(left, right);
    } else {
      var x := Result(left, right, operation);
      WholeCents(x.negative, x.coeff);
    }
  }

  /** Every expected answer the challenge generator can produce is already in normal form. */
  lemma CalculateIsNormal(left: nat, right: nat, operation: Operation)
    requires 1 <= left <= 99 && 1 <= right <= 99
    ensures operation.Divide? ==> QuotientPlaces(left, right) >= 0
    ensures Normalize(Calculate(left, right, operation)) == Some(Calculate(left, right, operation))
  {
    ResultIsTrue(left, right, operation);
    SmallCents(left, right, operation);
    NormalizeFixes(TrueCents(left, right, operation));
  }

  lemma ManyCents(c: nat, p: nat)
    requires p > 0 && c >= 10000 * p
    ensures HalfUp(100 * c, p) >= 1000000
  {
    var h := HalfUp(100 * c, p);
    FloorBounds(200 * c + p, 2 * p);
    MulCancelStrict(1000000, h + 1, 2 * p);
  }

  lemma BeyondCents(c: nat, p: nat, u: nat)
    requires p > 0 && c * u > (10000 * u + 5) * p
    ensures HalfUp(100 * c, p) >= 1000000
  {
    if c <= 10000 * p {
      BelowArith(c, p, u);
    }
    ManyCents(c, p);
  }

  lemma FewCentsInRange(x: Decimal, e: nat)
    requires e == 24 && Quantize(x).coeff < 1000000
    ensures !OutOfRange(x)
  {
    RangeExactAt(x, e);
    if OutOfRange(x) {
      BeyondCents(x.coeff, Pow10(x.places), Pow10(e));
    }
  }

  lemma ParsedRightAnswer(answer: string, left: nat, right: nat, operation: Operation)
    requires 1 <= left <= 99 && 1 <= right <= 99
    ensures operation.Divide? ==> QuotientPlaces(left, right) >= 0
    ensures Normalize(answer) == Some(Calculate(left, right, operation))
       <==> && |answer| <= 64 && Parse(Strip(answer)).Some?
            && MergeZero(Quantize(Parse(Strip(answer)).value)) == TrueCents(left, right, operation)
  {
    var cents := TrueCents(left, right, operation);
    ResultIsTrue(left, right, operation);
    SmallCents(left, right, operation);
    if |answer| <= 64 && Parse(Strip(answer)).Some? {
      var x := Parse(Strip(answer)).value;
      var rounded := MergeZero(Quantize(x));
      if rounded == cents {
        FewCentsInRange(x, 24);
      } else {
        TextsDiffer(rounded, cents);
      }
    }
  }

  lemma HalfUpBound(left: nat, right: nat)
    requires left <= 99 && right > 0
    ensures HalfUp(100 * left, right) <= 9900
  {
    var n, d := 200 * left + right, 2 * right;
    assert d * (n / d) <= n by {
      FloorBounds(n, d);
    }
    assert n < 9901 * d;
    MulCancelStrict(n / d, 9901, d);
  }

  function Zeros(n: nat): (s: string)
    ensures |s| == n && AllDigits(s)
  {
    if n == 0 then "" else Zeros(n - 1) + "0"
  }

  lemma {:induction false} NatZeros(n: nat)
    ensures Nat(Zeros(n)) == 0
  {
    if n > 0 {
      assert Zeros(n)[..n - 1] == Zeros(n - 1);
      NatZeros(n - 1);
    }
  }

  lemma {:induction false} ZerosAre(s: string)
    requires forall i :: 0 <= i < |s| ==> s[i] == '0'
    ensures Zeros(|s|) == s
  {
    if s != [] {
      ZerosAre(s[..|s| - 1]);
    }
  }

  lemma NatTenThousand()
    ensures Nat("10000") == 10000
  {
    assert "10000"[..4] == "1000" && "1000"[..3] == "100" && "100"[..2] == "10" && "10"[..1] == "1";
    assert Nat("1") == 1 && Nat("10") == 10 && Nat("100") == 100 && Nat("1000") == 1000;
  }

  lemma DigitTail(n: nat, d: nat)
    requires d < 10
    ensures AllDigits(Zeros(n) + [Digit(d)]) && Nat(Zeros(n) + [Digit(d)]) == d && |Zeros(n) + [Digit(d)]| == n + 1
  {
    assert (Zeros(n) + [Digit(d)])[..n] == Zeros(n);
    NatZeros(n);
  }

  lemma UnitsAfter(whole: string, tail: string, e: nat, d: nat)
    requires AllDigits(whole) && AllDigits(tail) && Nat(tail) == d && |tail| == e
    ensures Nat(whole + tail) == Nat(whole) * Pow10(e) + d
  {
    NatAppend(whole, tail);
  }

  /** Zeros and a final digit after the point add that many units of the last place. */
  lemma LastPlace(whole: string, e: nat, d: nat)
    requires whole != [] && AllDigits(whole) && e >= 1 && d < 10
    ensures ParseMagnitude(false, whole + "." + (Zeros(e - 1) + [Digit(d)]))
         == Some(Decimal(false, Nat(whole) * Pow10(e) + d, e))
  {
    DigitTail(e - 1, d);
    TailUnits(whole, Zeros(e - 1) + [Digit(d)], e, d);
  }

  lemma TailUnits(whole: string, tail: string, e: nat, d: nat)
    requires whole != [] && AllDigits(whole) && AllDigits(tail) && Nat(tail) == d && |tail| == e >= 1
    ensures ParseMagnitude(false, whole + "." + tail) == Some(Decimal(false, Nat(whole) * Pow10(e) + d, e))
  {
    UnitsAfter(whole, tail, e, d);
    ParseParts(false, whole, tail);
  }

  /** Ten thousand and `d` units of the last of `e` places. */
  function Loose(e: nat, d: nat): string
    requires e >= 1 && d < 10
  {
    "10000." + (Zeros(e - 1) + [Digit(d)])
  }

  lemma LooseText(e: nat, d: nat)
    requires e >= 1 && d < 10
    ensures Parse(Loose(e, d)) == Some(Decimal(false, 10000 * Pow10(e) + d, e))
  {
    var whole, tail := "10000", Zeros(e - 1) + [Digit(d)];
    assert Nat(whole) == 10000 by {
      NatTenThousand();
    }
    LastPlace(whole, e, d);
    assert "10000." + tail == whole + "." + tail;
  }

  lemma LooseShape(e: nat, d: nat)
    requires e >= 1 && d < 10
    ensures Strip(Loose(e, d)) == Loose(e, d) && |Loose(e, d)| == e + 6
  {
    var a := Loose(e, d);
    assert a[0] == '1' && a[|a| - 1] == Digit(d) && IsDigit(Digit(d));
    StripIdle(a);
  }

  lemma LooseRange(e: nat, d: nat)
    requires e == 24
    ensures OutOfRange(Decimal(false, 10000 * Pow10(e) + d, e)) <==> d > 5
  {
    RangeExactAt(Decimal(false, 10000 * Pow10(e) + d, e), e);
    MulGreater(10000 * Pow10(e) + d, 10000 * Pow10(e) + 5, Pow10(e));
  }

  lemma LooseCents(p: nat, d: nat)
    requires p > 2000 && d < 10
    ensures HalfUp(100 * (10000 * p + d), p) == 1000000
  {
    FloorIs(200 * (10000 * p + d) + p, 2 * p, 1000000);
  }

  lemma LooseQuantized(e: nat, d: nat)
    requires e == 24 && d < 10
    ensures MergeZero(Quantize(Decimal(false, 10000 * Pow10(e) + d, e))) == Decimal(false, 1000000, 2)
  {
    assert Pow10(e) > 2000 by {
      Pow10Grows(4, e);
      assert Pow10(4) == 10000;
    }
    LooseCents(Pow10(e), d);
  }

  lemma TenThousandText()
    ensures ToText(Decimal(false, 1000000, 2)) == "10000.00"
  {
    assert Digits(10) == "10";
    assert Digits(1000) == "1000";
    assert Digits(10000) == "10000";
  }

  lemma NormalizedAs(a: string, x: Decimal, y: Decimal)
    requires |a| <= 64 && Strip(a) == a && Parse(a) == Some(x) && MergeZero(Quantize(x)) == y
    ensures Normalize(a) == if OutOfRange(x) then None else Some(ToText(y))
  {
  }

  lemma LooseFacts(e: nat, d: nat, x: Decimal)
    requires e == 24 && d < 10 && x == Decimal(false, 10000 * Pow10(e) + d, e)
    ensures MergeZero(Quantize(x)) == Decimal(false, 1000000, 2)
    ensures OutOfRange(x) <==> d > 5
  {
    LooseQuantized(e, d);
    LooseRange(e, d);
  }

  lemma LooseNormal(e: nat, d: nat)
    requires e == 24 && d < 10
    ensures Normalize(Loose(e, d)) == if d <= 5 then Some("10000.00") else None
  {
    LooseShape(e, d);
    LooseText(e, d);
    var x := Parse(Loose(e, d)).value;
    LooseFacts(e, d, x);
    NormalizedAs(Loose(e, d), x, Decimal(false, 1000000, 2));
    TenThousandText();
  }

  /** For one unit of the 24th place the text is "10000.000000000000000000000001". */
  lemma LooseLiteral()
    ensures Loose(24, 1) == "10000.000000000000000000000001"
  {
    forall i | 0 <= i < 23 ensures "00000000000000000000000"[i] == '0' {
      ZeroAt(i);
    }
    ZerosAre("00000000000000000000000");
  }

  lemma ZeroAt(i: nat)
    requires i < 23
    ensures "00000000000000000000000"[i] == '0'
  {
  }

  /**
   The check for at most 10000 lets numbers above 10000 through, up to five units of the 24th place,
   and they are then read as 10000.
   */
  lemma LooseAnswer(d: nat)
    requires d < 10
    ensures Parse(Loose(24, d)).Some?
    ensures var x := Parse(Loose(24, d)).value;
            x.places == 24 && (x.coeff > 10000 * Pow10(x.places) <==> d > 0)
    ensures Normalize(Loose(24, d)) == if d <= 5 then Some("10000.00") else None
  {
    var e: nat := 24;
    LooseText(e, d);
    LooseNormal(e, d);
  }
}
