/**
 * Division of 64-bit integers by means of the processor's instruction that divides 64 by 32 bits. Machine integers
 * are numbers with their range stated, and every operation that could wrap is reduced explicitly.
 */
module Division {
  import opened Basics

  const B := 0x1_0000_0000
  const BB := 0x1_0000_0000_0000_0000
  const HALF := 0x8000_0000_0000_0000

  predicate U32(x: int) { 0 <= x < B }
  predicate U64(x: int) { 0 <= x < BB }
  predicate I64(x: int) { -HALF <= x < HALF }

  function Pow2(k: nat): (r: int)
    ensures r >= 1
  {
    if k == 0 then 1 else 2 * Pow2(k - 1)
  }

  lemma Twice(a: int, b: int)
    ensures 2 * a * b == 2 * (a * b)
  {}

  lemma {:induction false} Pow2Add(a: nat, b: nat)
    ensures Pow2(a) * Pow2(b) == Pow2(a + b)
  {
    if a > 0 {
      Pow2Add(a - 1, b);
      Twice(Pow2(a - 1), Pow2(b));
    }
  }

  /** Product, quotient and remainder by name, for proofs that use no more than the laws below. */
  function Mul(a: int, b: int): int {
    a * b
  }

  function Quot(n: int, d: int): int
    requires d > 0
  {
    n / d
  }

  function Rem(n: int, d: int): int
    requires d > 0
  {
    n % d
  }

  /** A result is cut to 64 bits. */
  function Wrap(x: int): (r: int)
    ensures U64(r) && (U64(x) ==> r == x)
  {
    x % BB
  }

  /** The instruction traps if the divisor is zero or the quotient needs more than 32 bits. */
  function Divl(n: int, d: int): (r: Option<int>)
    requires U64(n) && U32(d)
    ensures r.Some? <==> d > 0 && Quot(n, d) < B
    ensures r.Some? ==> r.value == Quot(n, d) && U32(r.value)
  {
    if d == 0 || n / d >= B then None else Some(n / d)
  }

  // ---------- Facts about division ----------

  /** The quotient is the number that leaves a remainder in range. */
  lemma QuotientIs(n: int, d: int, q: int)
    requires d > 0 && q * d <= n < (q + 1) * d
    ensures n / d == q
  {
    var t := n / d;
    assert t * d <= n < (t + 1) * d;
    Ordered(t, q, d);
    Ordered(q, t, d);
  }

  lemma Ordered(a: int, b: int, d: int)
    requires d > 0 && a * d < (b + 1) * d
    ensures a <= b
  {
    if a > b {
      Scale(b + 1, a, d);
    }
  }

  lemma Scale(a: int, b: int, d: int)
    requires a <= b && d >= 0
    ensures a * d <= b * d
  {}

  lemma DivTwice(n: int, a: int, b: int)
    requires n >= 0 && a > 0 && b > 0
    ensures a * b > 0 && n / a / b == n / (a * b)
  {
    var x := n / a;
    var y := x / b;
    assert y * b <= x < (y + 1) * b;
    assert x * a <= n < (x + 1) * a;
    Scale(y * b, x, a);
    Scale(x + 1, (y + 1) * b, a);
    assert y * b * a == y * (a * b) && (y + 1) * b * a == (y + 1) * (a * b);
    QuotientIs(n, a * b, y);
  }

  // ---------- Leading zeros ----------

  /** `x` is what is left of `x0` after a shift by `n` bits: all of it. */
  ghost predicate Shifted(x0: int, n: int, x: int) {
    n >= 0 && 0 < x < B && x == Mul(x0, Pow2(n))
  }

  /** The number of leading zero bits is the shift that brings the highest bit to the top. */
  method Nlz(x0: int) returns (n: int)
    requires 0 < x0 < B
    ensures 0 <= n <= 31 && B / 2 <= Mul(x0, Pow2(n)) < B
  {
    hide Pow2;
    hide Mul;
    SmallPowers();
    NotShifted(x0);
    var x := x0;
    n := 0;
    n, x := NlzTest(n, x, 16, 0x1_0000, x0);
    n, x := NlzTest(n, x, 8, 0x100, x0);
    n, x := NlzTest(n, x, 4, 0x10, x0);
    n, x := NlzTest(n, x, 2, 4, x0);
    if x <= 0x7FFF_FFFF {
      ShiftMore(x0, n, x, 1, 2);
      n := n + 1;
    }
  }

  /** One test: if the highest `bits` bits are all zero, they are shifted out. */
  method NlzTest(n0: int, x: int, bits: int, f: int, ghost x0: int) returns (n: int, y: int)
    requires 2 <= f <= 0x1_0000 && B % f == 0 && bits > 0 && f == Pow2(bits) && Shifted(x0, n0, x)
    requires x * f * f >= B
    ensures Shifted(x0, n, y) && y * f >= B && (n == n0 || n == n0 + bits)
  {
    hide Pow2;
    hide Mul;
    n, y := n0, x;
    LastBelow(x, f);
    if x <= B / f - 1 {
      ShiftMore(x0, n, x, bits, f);
      n := n + bits;
      y := x * f % B;
    }
  }

  lemma LastBelow(x: int, f: int)
    requires f > 0 && B % f == 0
    ensures x <= B / f - 1 <==> x * f < B
  {
    assert B / f * f == B;
    if x <= B / f - 1 {
      Scale(x + 1, B / f, f);
    } else {
      Scale(B / f, x, f);
    }
  }

  lemma NotShifted(x0: int)
    requires 0 < x0 < B
    ensures Shifted(x0, 0, x0)
  {}

  lemma SmallPowers()
    ensures Pow2(0) == 1 && Pow2(1) == 2 && Pow2(2) == 4 && Pow2(4) == 0x10 && Pow2(8) == 0x100 && Pow2(16) == 0x1_0000
    ensures Pow2(31) == B / 2 && Pow2(32) == B
  {
    assert Pow2(1) == 2 && Pow2(2) == 4;
    Pow2Add(2, 2);
    Pow2Add(4, 4);
    Pow2Add(8, 8);
    Pow2Add(16, 16);
    assert Pow2(32) == 2 * Pow2(31);
  }

  /** Shifting left by `bits` loses nothing as long as the result fits. */
  lemma ShiftMore(x0: int, n: int, x: int, bits: int, f: int)
    requires Shifted(x0, n, x) && bits >= 0 && f == Pow2(bits) && x * f < B
    ensures x * f % B == x * f && Shifted(x0, n + bits, x * f)
  {
    hide Pow2;
    Pow2Add(n, bits);
    assert x * f == x0 * (Pow2(n) * Pow2(bits));
    Scale(1, f, x);
  }

  // ---------- A divisor of 32 bits ----------

  /** Long division in two digits; the second digit fits, so the instruction does not trap. */
  lemma TwoDigits(n1: int, n0: int, t: int, m: int, q: int, d: int)
    requires 0 < d && 0 <= n0 < B && n1 == t * d + m && 0 <= m < d
    requires q * d <= B * m + n0 < (q + 1) * d
    ensures q < B && (B * n1 + n0) / d == q + B * t
  {
    Ordered(q, B - 1, d);
    Distribute(q, B * t, d);
    Distribute(q + 1, B * t, d);
    assert B * t * d == B * (t * d);
    QuotientIs(B * n1 + n0, d, q + B * t);
  }

  lemma Distribute(a: int, b: int, d: int)
    ensures (a + b) * d == a * d + b * d
  {}

  lemma Below(a: int, b: int, d: int)
    requires a < b && d > 0
    ensures a * d < b * d
  {}

  lemma Quotient(n: int, d: int)
    requires d > 0
    ensures n / d * d <= n < (n / d + 1) * d && n / d * d + n % d == n
    ensures n >= 0 ==> n / d >= 0
  {
    assert n / d * d + n % d == n;
    Distribute(n / d, 1, d);
  }

  // ---------- A longer divisor ----------

  lemma MulLaws(a: int, b: int, d: int)
    ensures Mul(a, b) == Mul(b, a) && Mul(a + b, d) == Mul(a, d) + Mul(b, d) && Mul(Mul(a, b), d) == Mul(Mul(a, d), b)
    ensures a < b && d > 0 ==> Mul(a, d) < Mul(b, d)
    ensures a <= b && d >= 0 ==> Mul(a, d) <= Mul(b, d)
    ensures Mul(a, d) < Mul(b, d) && d > 0 ==> a < b
    ensures Mul(1, d) == d && Mul(0, d) == 0
  {
    Distribute(a, b, d);
    if a < b && d > 0 {
      Below(a, b, d);
    }
    if b <= a && d > 0 {
      Scale(b, a, d);
    }
  }

  /** A divisor that is too small by `e` gives the quotient or one more if the error is less than one. */
  lemma OneMore(n: int, v: int, e: int, t: int, q: int)
    requires n >= 0 && v > 0 && e >= 0 && t >= 0 && Mul(n, e) < Mul(v, v + e)
    requires Mul(t, v + e) <= n < Mul(t + 1, v + e) && Mul(q, v) <= n < Mul(q + 1, v)
    ensures t <= q <= t + 1
  {
    hide Mul;
    var d := v + e;
    MulLaws(v, d, t);
    MulLaws(t, v, 0);
    MulLaws(t, d, 0);
    MulLaws(t, q + 1, v);
    assert t <= q;
    MulLaws(v, e, n);
    MulLaws(n, d, v);
    MulLaws(n, v, 0);
    MulLaws(n, e, 0);
    MulLaws(v, d, 0);
    assert Mul(n, d) < Mul(n + d, v);
    MulLaws(t + 1, 1, d);
    MulLaws(n + d, Mul(t + 2, d), v);
    MulLaws(t + 2, d, v);
    assert Mul(n, d) < Mul(Mul(t + 2, v), d);
    MulLaws(n, Mul(t + 2, v), d);
    MulLaws(q, t + 2, v);
  }

  /** Cutting off less than `m` from 31 or more leading bits is such a small error, since (m - 2)^2 >= 0. */
  lemma SmallError(n: int, l: int, m: int, e: int)
    requires 0 <= n < BB && m >= 2 && l >= B / 2 && 0 <= e < m
    ensures Mul(l, m) > 0 && Mul(n, e) < Mul(Mul(l, m), Mul(l, m) + e)
  {
    var v, h := Mul(l, m), B / 2 * m;
    assert Mul(B / 2, m) == h;
    assert Mul(BB, e) == BB * e;
    HalfSquare(m);
    hide Mul;
    MulLaws(B / 2, l, m);
    MulLaws(h, v, h);
    MulLaws(h, v, 0);
    MulLaws(h, v, v);
    MulLaws(v, v + e, v);
    MulLaws(v, v + e, 0);
    MulLaws(n, BB, e);
    MulLaws(0, n, e);
    assert Mul(v, v + e) >= Mul(h, h) >= BB * (m - 1);
    if e == 0 {
      MulLaws(e, n, 0);
      MulLaws(n, e, 0);
    }
  }

  lemma HalfSquare(m: int)
    requires m >= 2
    ensures Mul(B / 2 * m, B / 2 * m) >= BB * (m - 1) > 0
  {
    assert (m - 2) * (m - 2) == m * m - 4 * m + 4;
    assert (m - 2) * (m - 2) >= 0;
    assert (B / 2 * m) * (B / 2 * m) == (B / 2) * (B / 2) * (m * m);
  }

  /** The divisor cut down to its leading bits gives the quotient or one more. */
  lemma Estimate(n: int, d: int, m: int)
    requires U64(n) && d >= 0 && m >= 2 && B / 2 <= d / m
    ensures var v := d / m * m; 0 < v <= d && n / d <= n / v <= n / d + 1
  {
    var l, e := d / m, d % m;
    Quotient(d, m);
    SmallError(n, l, m, e);
    var v := l * m;
    Quotient(n, v);
    Quotient(n, d);
    OneMore(n, v, e, n / d, n / v);
  }

  /** The shifted divisor keeps all its bits, and its upper half are the leading bits of the divisor. */
  lemma {:induction false} Normalized(d: int, p: int, m: int)
    requires U64(d) && d >= B && p >= 1 && m >= 1 && p * m == B && B / 2 <= d / B * p < B
    ensures d * p < BB && d * p / B == d / m && B / 2 <= d / m < B
  {
    var d1 := d / B;
    assert d1 * B <= d < (d1 + 1) * B;
    assert d1 * p < m * p;
    Ordered(d1, m - 1, p);
    Scale(d1 + 1, m, p);
    Below(d, (d1 + 1) * B, p);
    assert (d1 + 1) * B * p == (d1 + 1) * p * B;
    Scale((d1 + 1) * p, B, B);
    DivTwice(d * p, p, m);
    QuotientIs(d * p, p, d) by { Distribute(d, 1, p); }
    Scale(d1 * B, d, p);
    assert d1 * B * p == d1 * p * B;
  }

  /** The digit that the instruction computes, shifted, is the quotient by the leading bits of the divisor. */
  lemma DigitShifted(n: int, l: int, h: int)
    requires U64(n) && B / 2 <= l < B && h >= 1
    ensures n / 2 / l < B && l * (2 * h) > 0 && n / 2 / l / h == n / (l * (2 * h))
  {
    var k := n / 2 / l;
    Quotient(n / 2, l);
    Scale(B / 2, l, B);
    Ordered(k, B - 1, l);
    DivTwice(n / 2, l, h);
    DivTwice(n, 2, l * h);
    assert 2 * (l * h) == l * (2 * h);
  }

  /** The correction: with the quotient or one more in hand, the remainder decides. */
  lemma Corrected(n: int, d: int, q: int)
    requires U64(n) && 0 < d <= n && n / d <= q <= n / d + 1
    ensures q >= 1 && 0 <= (q - 1) * d <= n
    ensures n - (q - 1) * d < d <==> q - 1 == n / d
  {
    var t := n / d;
    Quotient(n, d);
    assert t >= 1 by { Ordered(1, t, d); }
    Scale(q - 1, t, d);
    Scale(0, q - 1, d);
    Distribute(t, -1, d);
  }

  lemma ShortDivision(n: int, d: int)
    requires U64(n) && 0 < d < B
    ensures var n1, n0 := n / B, n % B;
            && 0 <= Rem(n1, d) && U64(B * Rem(n1, d) + n0) && Quot(B * Rem(n1, d) + n0, d) < B
            && Quot(B * Rem(n1, d) + n0, d) + B * Quot(n1, d) == Quot(n, d) && U64(Quot(n, d))
  {
    var n1, n0 := n / B, n % B;
    var t, m := n1 / d, n1 % d;
    Quotient(n1, d);
    Quotient(B * m + n0, d);
    TwoDigits(n1, n0, t, m, (B * m + n0) / d, d);
    Quotient(n, d);
    Scale(1, d, n / d);
  }

  lemma LongDivision(n: int, d: int, s: nat)
    requires U64(n) && U64(d) && B <= d <= n && s <= 31 && B / 2 <= Mul(d / B, Pow2(s)) < B
    ensures var divisor := Wrap(Mul(d, Pow2(s))) / B;
            && 0 < divisor && U32(divisor) && Quot(n / 2, divisor) < B
            && var q := Quot(Quot(n / 2, divisor), Pow2(31 - s));
            && Quot(n, d) <= q <= Quot(n, d) + 1 && q >= 1 && U64(q) && 0 <= Mul(q - 1, d) <= n
            && (n - Mul(q - 1, d) < d <==> q - 1 == Quot(n, d))
  {
    hide Pow2;
    var m, h := Pow2(32 - s), Pow2(31 - s);
    SmallPowers();
    Pow2Add(s, 32 - s);
    Pow2Add(1, 31 - s);
    Normalized(d, Pow2(s), m);
    DigitShifted(n, d / m, h);
    Estimate(n, d, m);
    var q := n / 2 / (d / m) / h;
    Corrected(n, d, q);
    Scale(1, d, q - 1);
  }

  /** The quotient, for all operands; division by zero traps, and nothing else does. */
  method Udiv64(n: int, d: int) returns (r: Option<int>)
    requires U64(n) && U64(d)
    ensures r == if d == 0 then None else Some(Quot(n, d))
  {
    hide Quot;
    hide Rem;
    hide Mul;
    hide Pow2;
    hide Divl;
    hide Wrap;
    if d / B == 0 {
      var n1, n0, d0 := n / B, n % B, d % B;
      if d0 == 0 {
        return None;
      }
      ShortDivision(n, d0);
      var digit := Divl(B * Rem(n1, d0) + n0, d0);
      if digit == None {
        return None;
      }
      return Some(Wrap(digit.value + B * Quot(n1, d0)));
    } else if n < d {
      SmallDividend(n, d);
      return Some(0);
    } else {
      var d1 := d / B;
      var s := Nlz(d1);
      LongDivision(n, d, s);
      var digit := Divl(n / 2, Wrap(Mul(d, Pow2(s))) / B);
      if digit == None {
        return None;
      }
      var q := Quot(digit.value, Pow2(31 - s));
      return Some(if Wrap(n - Wrap(Mul(q - 1, d))) < d then Wrap(q - 1) else q);
    }
  }

  lemma SmallDividend(n: int, d: int)
    requires 0 <= n < d
    ensures Quot(n, d) == 0
  {
    QuotientIs(n, d, 0);
  }

  // ---------- Signed operands ----------

  /** 64 bits read as a number with a sign. */
  function AsSigned(x: int): (r: int)
    requires U64(x)
    ensures I64(r)
  {
    if x >= HALF then x - BB else x
  }

  function Abs(x: int): nat {
    if x < 0 then -x else x
  }

  /** `q` is the quotient rounded toward zero: the remainder is smaller than the divisor and has the dividend's sign. */
  predicate Truncates(n: int, d: int, q: int) {
    var rem := n - Mul(q, d);
    Abs(rem) < Abs(d) && (rem == 0 || (rem < 0 <==> n < 0))
  }

  /** The quotient of the absolute values, with the sign of the operands, is the quotient rounded toward zero. */
  lemma SignedQuotient(n: int, d: int, q: int)
    requires d != 0 && q == Quot(Abs(n), Abs(d))
    ensures Truncates(n, d, if (n < 0) == (d < 0) then q else -q)
  {
    hide Mul;
    var a: int := Abs(d);
    QuotientByName(Abs(n), a);
    MulSigns(q, a);
  }

  lemma QuotientByName(n: int, d: int)
    requires n >= 0 && d > 0
    ensures Quot(n, d) >= 0 && Mul(Quot(n, d), d) <= n < Mul(Quot(n, d), d) + d
  {
    Quotient(n, d);
  }

  lemma MulSigns(a: int, b: int)
    ensures Mul(a, -b) == Mul(-a, b) == -Mul(a, b) && Mul(-a, -b) == Mul(a, b)
  {}

  lemma QuotientRange(n: int, d: int)
    requires 0 <= n <= HALF && d > 0
    ensures 0 <= Quot(n, d) <= HALF && (Quot(n, d) == HALF ==> n == HALF && d == 1)
  {
    Quotient(n, d);
    var q := n / d;
    Scale(1, d, q);
    assert d >= 2 ==> 2 * q <= q * d by {
      if d >= 2 { Scale(2, d, q); }
    }
  }

  /** Division rounds toward zero for all operands but one pair, whose quotient is out of range. */
  method Sdiv64(n: int, d: int) returns (r: Option<int>)
    requires I64(n) && I64(d)
    ensures r == None <==> d == 0
    ensures d != 0 ==> I64(r.value) && (Truncates(n, d, r.value) <==> !(n == -HALF && d == -1))
    ensures n == -HALF && d == -1 ==> r == Some(-HALF)
  {
    hide Quot;
    hide Mul;
    hide Wrap;
    var nAbs := if n >= 0 then n else Wrap(-n);
    var dAbs := if d >= 0 then d else Wrap(-d);
    var q := Udiv64(nAbs, dAbs);
    if q == None {
      return None;
    }
    SignedQuotient(n, d, q.value);
    QuotientRange(nAbs, dAbs);
    OutOfRange();
    WrapMinus(q.value);
    r := Some(if (n < 0) == (d < 0) then AsSigned(q.value) else AsSigned(Wrap(-AsSigned(q.value))));
  }

  lemma OutOfRange()
    ensures !Truncates(-HALF, -1, -HALF) && Quot(HALF, 1) == HALF
  {}

  lemma WrapMinus(q: int)
    requires 0 <= q <= HALF
    ensures AsSigned(Wrap(-AsSigned(q))) == -q
  {}
}
