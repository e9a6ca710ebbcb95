/** The 64-bit division routines of lib/arithmetic.c, which build on a 64-by-32-bit
    hardware divide.  Integers are unbounded here, so every width is written out. */
module Division {
  import opened BitTricks

  const B32: int := 0x1_0000_0000
  const B64: int := 0x1_0000_0000_0000_0000
  const B63: int := 0x8000_0000_0000_0000

  type uint32 = x: int | 0 <= x < 0x1_0000_0000
  type uint64 = x: int | 0 <= x < 0x1_0000_0000_0000_0000
  type int64 = x: int | -0x8000_0000_0000_0000 <= x < 0x8000_0000_0000_0000

  const INT64_MIN: int64 := -0x8000_0000_0000_0000

  /** `divl`: traps unless the quotient fits in 32 bits, so that is what it requires. */
  function Divl(n: uint64, d: uint32): (q: uint32)
    requires d != 0 && n / d < B32
  {
    n / d
  }

  // ----- leading zeros -----

  /** `n` is the number of leading zero bits of the nonzero 32-bit word `x`. */
  ghost predicate IsLeadingZeros(x: uint32, n: nat) {
    n <= 31 && B32 / 2 <= x * Pow2(n) < B32
  }

  lemma ShiftMore(x0: nat, n: nat, x: nat, k: nat)
    requires x == x0 * Pow2(n)
    ensures x * Pow2(k) == x0 * Pow2(n + k)
  {
    PowAdd(n, k);
    assert x * Pow2(k) == x0 * (Pow2(n) * Pow2(k));
  }

  /** `nlz`. */
  method Nlz(x0: uint32) returns (n: nat)
    requires x0 != 0
    ensures IsLeadingZeros(x0, n)
  {
    hide Pow2;
    PowValues();
    var x: nat := x0;
    n := 0;
    if x <= 0x0000_FFFF {
      ShiftMore(x0, n, x, 16);
      n, x := n + 16, x * 0x1_0000;
    }
    assert 0x1_0000 <= x < B32 && x == x0 * Pow2(n) && n <= 16;
    if x <= 0x00FF_FFFF {
      ShiftMore(x0, n, x, 8);
      n, x := n + 8, x * 0x100;
    }
    assert 0x100_0000 <= x < B32 && x == x0 * Pow2(n) && n <= 24;
    if x <= 0x0FFF_FFFF {
      ShiftMore(x0, n, x, 4);
      n, x := n + 4, x * 16;
    }
    assert 0x1000_0000 <= x < B32 && x == x0 * Pow2(n) && n <= 28;
    if x <= 0x3FFF_FFFF {
      ShiftMore(x0, n, x, 2);
      n, x := n + 2, x * 4;
    }
    assert 0x4000_0000 <= x < B32 && x == x0 * Pow2(n) && n <= 30;
    if x <= 0x7FFF_FFFF {
      ShiftMore(x0, n, x, 1);
      n := n + 1;
    }
  }

  // ----- quotients -----

  lemma QuotientIs(n: nat, d: nat, q: nat)
    requires d > 0 && q * d <= n < (q + 1) * d
    ensures n / d == q
  {
    var k, r := n / d, n % d;
    assert n == k * d + r;
    if k < q {
      MulMono(k + 1, q, d);
    } else if k > q {
      MulMono(q + 1, k, d);
    }
  }

  lemma QuotientBounds(n: nat, d: nat)
    requires d > 0
    ensures n / d * d <= n < (n / d + 1) * d
  {
    assert n == n / d * d + n % d;
  }

  lemma DivDiv(a: nat, b: nat, c: nat)
    requires b > 0 && c > 0
    ensures b * c > 0 && a / b / c == a / (b * c)
  {
    var p, q := a / b, a / b / c;
    QuotientBounds(a, b);
    QuotientBounds(p, c);
    MulMono(q * c, p, b);
    MulMono(p + 1, (q + 1) * c, b);
    assert q * (b * c) == q * c * b && (q + 1) * (b * c) == (q + 1) * c * b;
    assert b * c > 0;
    QuotientIs(a, b * c, q);
  }

  lemma QuotientBelow(t: nat, d: nat, b: nat)
    requires d > 0 && t < b * d
    ensures t / d < b
  {
    QuotientBounds(t, d);
    if t / d >= b {
      MulMono(b, t / d, d);
    }
  }

  lemma Distribute(a: nat, b: nat, d: nat)
    ensures (a + b) * d == a * d + b * d
  {
  }

  lemma ShiftBounds(t: nat, d: nat, m: nat, u: nat)
    requires u * d <= t < (u + 1) * d
    ensures (m + u) * d <= m * d + t < (m + u + 1) * d
  {
    Distribute(m, u, d);
    Distribute(m, u + 1, d);
  }

  lemma QuotientShift(t: nat, d: nat, m: nat, x: nat)
    requires d > 0 && x == m * d + t
    ensures x / d == m + t / d
  {
    var u := t / d;
    QuotientBounds(t, d);
    ShiftBounds(t, d, m, u);
    QuotientIs(x, d, m + u);
  }

  lemma NarrowSplit(n1: nat, n0: nat, d: nat, b: nat)
    requires d > 0 && n0 < b
    ensures var t := b * (n1 % d) + n0;
      t < b * d && b * n1 + n0 == b * (n1 / d) * d + t
  {
    var k, r := n1 / d, n1 % d;
    assert n1 == k * d + r;
    assert b * n1 == b * (k * d) + b * r;
    assert b * (k * d) == b * k * d;
    assert b * (r + 1) <= b * d by { MulMono(r + 1, d, b); }
  }

  /** The divisor fits in 32 bits: the two partial quotients add up, and the one left to
      the hardware does not trap. */
  lemma NarrowQuotient(n: uint64, d: uint32, n1: nat, n0: nat, k: nat, t: nat)
    requires d != 0 && n1 == n / B32 && n0 == n % B32 && k == n1 / d && t == B32 * (n1 % d) + n0
    ensures t < B64 && t / d < B32 && t / d + B32 * k == n / d
  {
    NarrowSplit(n1, n0, d, B32);
    MulMono2(B32, d, B32);
    QuotientBelow(t, d, B32);
    QuotientShift(t, d, B32 * k, n);
  }

  // ----- the estimate for a wide divisor -----

  /** Shifting the divisor left by `s` and keeping its upper word `v` loses less than one
      unit of `c`; `p` and `c` stand for 2^s and 2^(32-s). */
  lemma UpperWord(d: nat, p: nat, c: nat, v: nat)
    requires p > 0 && c > 0 && p * c == B32 && v == d * p / B32
    ensures v * c <= d <= v * c + c - 1
  {
    QuotientBounds(d * p, B32);
    assert v * B32 == (v * c) * p && (v + 1) * B32 == (v * c + c) * p;
    if d < v * c {
      MulMono(d + 1, v * c, p);
    }
    if d >= v * c + c {
      MulMono(v * c + c, d, p);
    }
  }

  /** Dividing by a little less than `d` overshoots by at most one. */
  lemma EstimateOff(n: nat, d: nat, e: nat, excess: nat)
    requires 0 < e <= d <= e + excess
    requires (n / d + 1) * excess <= e
    ensures n / d <= n / e <= n / d + 1
  {
    var q, k := n / d, n / e;
    QuotientBounds(n, d);
    QuotientBounds(n, e);
    if k < q {
      MulMono(k + 1, q, e);
      MulMono2(q, e, d);
    }
    MulMono2(q + 1, d, e + excess);
    Distribute(q + 1, 1, e);
    Distribute(e, excess, q + 1);
    if k > q + 1 {
      MulMono(q + 2, k, e);
    }
  }

  lemma MulMono2(a: nat, b: nat, c: nat)
    requires b <= c
    ensures a * b <= a * c
  {
    assert a * (c - b) >= 0;
  }

  lemma QuotientAtLeast(t: nat, d: nat, m: nat)
    requires d > 0 && m * d <= t
    ensures t / d >= m
  {
    QuotientBounds(t, d);
    if t / d < m {
      MulMono(t / d + 1, m, d);
    }
  }

  /** The shifted divisor fits in 64 bits and has its top bit set. */
  lemma Normalised(d: nat, p: nat, c: nat)
    requires p * c == B32 && B32 / 2 <= d / B32 * p < B32
    ensures d * p < B64 && B32 / 2 <= d * p / B32 < B32
  {
    var d1 := d / B32;
    QuotientBounds(d, B32);
    if d1 >= c {
      MulMono(c, d1, p);
    }
    MulMono(d1 + 1, c, p);
    MulMono(d + 1, (d1 + 1) * B32, p);
    assert (d1 + 1) * B32 * p == (d1 + 1) * p * B32;
    assert d * p < B32 * B32;
    MulMono(d1 * B32, d, p);
    assert d1 * B32 * p == (d1 * p) * B32;
    QuotientBelow(d * p, B32, B32);
    QuotientAtLeast(d * p, B32, d1 * p);
  }

  lemma Rearrange(p: nat, b: nat, c: nat)
    ensures 2 * p * (b * c) == 2 * b * (p * c)
  {
    assert p * (b * c) == b * (p * c);
  }

  lemma SmallQuotient(q: nat, p: nat, c: nat, k: nat)
    requires p * c == B32 && k == B32 / 2 * c && q * k < B64
    ensures q < 2 * p
  {
    Rearrange(p, B32 / 2, c);
    if q >= 2 * p {
      MulMono(2 * p, q, k);
    }
  }

  lemma LossBound(p: nat, c: nat)
    requires p * c == B32 && (c == 2 || c >= 4)
    ensures 2 * p * (c - 1) <= B32 / 2 * c
  {
    assert 2 * p * (c - 1) == 2 * (p * c) - 2 * p;
  }

  /** The quotient is small enough for the loss in the divisor not to matter. */
  lemma LossIsSmall(n: nat, d: nat, p: nat, c: nat, v: nat)
    requires p > 0 && p * c == B32 && (c == 2 || c >= 4) && n < B64
    requires B32 / 2 <= v && v * c <= d && d > 0
    ensures (n / d + 1) * (c - 1) <= v * c
  {
    var q, k := n / d, B32 / 2 * c;
    QuotientBounds(n, d);
    MulMono(B32 / 2, v, c);
    MulMono2(q, k, d);
    SmallQuotient(q, p, c, k);
    MulMono(q + 1, 2 * p, c - 1);
    LossBound(p, c);
  }

  lemma Collapse(n: nat, v: nat, h: nat)
    requires v > 0 && h > 0
    ensures v * (2 * h) > 0 && n / 2 / v / h == n / (v * (2 * h))
  {
    DivDiv(n, 2, v);
    DivDiv(n, 2 * v, h);
    assert 2 * v * h == v * (2 * h);
  }

  lemma ShiftSplit(s: nat)
    requires s <= 31
    ensures var c := 2 * Pow2(31 - s); Pow2(s) * c == B32 && (c == 2 || c >= 4)
  {
    hide Pow2;
    PowValues();
    PowAdd(s, 31 - s);
    Rearrange(Pow2(s), 1, Pow2(31 - s));
  }

  /** The estimate never traps and is the quotient or one more. */
  lemma WideEstimate(n: uint64, d: uint64, s: nat)
    requires B32 <= d && IsLeadingZeros(d / B32, s)
    ensures d * Pow2(s) < B64
    ensures var v := d * Pow2(s) / B32;
      0 < v < B32 && n / 2 / v < B32 && n / d <= n / 2 / v / Pow2(31 - s) <= n / d + 1
  {
    var p, h := Pow2(s), Pow2(31 - s);
    var c := 2 * h;
    ShiftSplit(s);
    Normalised(d, p, c);
    var v := d * p / B32;
    QuotientBelow(n / 2, v, B32);
    Collapse(n, v, h);
    UpperWord(d, p, c, v);
    LossIsSmall(n, d, p, c, v);
    EstimateOff(n, d, v * c, c - 1);
  }

  // ----- the routines -----

  /** `udiv64`: the quotient, for every dividend and every nonzero divisor. */
  method UDiv64(n: uint64, d: uint64) returns (q: uint64)
    requires d != 0
    ensures q == n / d
  {
    SmallDivisor(d);
    if d / B32 == 0 {
      q := NarrowDivide(n, d);
    } else if n < d {
      QuotientIs(n, d, 0);
      q := 0;
    } else {
      q := WideDivide(n, d);
    }
  }

  lemma SmallDivisor(d: uint64)
    ensures d / B32 == 0 <==> d < B32
  {
  }

  method NarrowDivide(n: uint64, d: uint32) returns (q: uint64)
    requires d != 0
    ensures q == n / d
  {
    var n1, n0 := n / B32, n % B32;
    var k, t := n1 / d, B32 * (n1 % d) + n0;
    NarrowQuotient(n, d, n1, n0, k, t);
    q := Divl(t, d) + B32 * k;
  }

  lemma NoWrap(x: int, m: nat)
    requires 0 <= x < m
    ensures x % m == x
  {
  }

  method WideDivide(n: uint64, d: uint64) returns (q: uint64)
    requires B32 <= d <= n
    ensures q == n / d
  {
    var s := Nlz(d / B32);
    WideEstimate(n, d, s);
    NoWrap(d * Pow2(s), B64);
    var v := d * Pow2(s) % B64 / B32;
    var e := Divl(n / 2, v) / Pow2(31 - s);
    Corrected(n, d, e);
    NoWrap(n - (e - 1) * d, B64);
    q := if (n - (e - 1) * d) % B64 < d then e - 1 else e;
  }

  /** The comparison that corrects the estimate does not wrap around. */
  lemma Corrected(n: uint64, d: uint64, e: nat)
    requires 0 < d <= n && n / d <= e <= n / d + 1
    ensures e > 0 && 0 <= n - (e - 1) * d < B64
    ensures n - (e - 1) * d < d <==> e == n / d + 1
  {
    QuotientBounds(n, d);
    QuotientAtLeast(n, d, 1);
    Distribute(n / d, 1, d);
    Distribute(n / d - 1, 1, d);
    MulMono(0, e - 1, d);
  }

  /** `umod64` returns only 32 bits: it is the remainder exactly when that fits. */
  method UMod64(n: uint64, d: uint64) returns (r: uint32)
    requires d != 0
    ensures r == n % d % B32
    ensures r == n % d <==> n % d < B32
  {
    var q := UDiv64(n, d);
    Remainder(n, d);
    r := (n - d * q) % B64 % B32;
  }

  lemma Remainder(n: uint64, d: uint64)
    requires d != 0
    ensures (n - d * (n / d)) % B64 == n % d
  {
    var q, r := n / d, n % d;
    assert n == d * q + r;
    NoWrap(r, B64);
  }

  /** Division of mathematical integers that truncates toward zero. */
  ghost function Truncated(n: int, d: int): int
    requires d != 0
  {
    var q := Magnitude(n) / Magnitude(d);
    if (n < 0) == (d < 0) then q else -q
  }

  function Magnitude(x: int): nat { if x < 0 then -x else x }

  /** Conversion to int64 by wrapping around. */
  function ToInt64(x: int): int { (x + B63) % B64 - B63 }

  lemma ToInt64Fits(x: int)
    ensures -B63 <= x < B63 ==> ToInt64(x) == x
    ensures x == B63 ==> ToInt64(x) == -B63
    ensures -B63 <= ToInt64(x) < B63
  {
  }

  /** `sdiv64`: truncates toward zero, except where the quotient is not an int64. */
  method SDiv64(n: int64, d: int64) returns (q: int64)
    requires d != 0
    ensures q == Truncated(n, d) <==> !(n == INT64_MIN && d == -1)
    ensures n == INT64_MIN && d == -1 ==> q == INT64_MIN
  {
    var qAbs := UDiv64(Magnitude(n), Magnitude(d));
    QuotientMagnitude(Magnitude(n), Magnitude(d));
    ToInt64Fits(qAbs);
    ToInt64Fits(-ToInt64(qAbs));
    q := if (n < 0) == (d < 0) then ToInt64(qAbs) else ToInt64(-ToInt64(qAbs));
  }

  lemma QuotientMagnitude(a: nat, b: nat)
    requires a <= B63 && 0 < b
    ensures a / b <= B63 && (a / b == B63 ==> a == B63 && b == 1)
    ensures b == 1 ==> a / b == a
  {
    QuotientBelow(a, b, a + 1) by { MulMono2(a + 1, 1, b); }
    if b >= 2 {
      QuotientBelow(a, b, B63) by { MulMono2(B63, 2, b); }
    }
  }
}
