/** The bit operations of lib/kernel/bitmap.c and lib/kernel/hash.c on unsigned numbers. */
module BitTricks {

  /** Bitwise and. */
  function And(x: nat, y: nat): nat {
    if x == 0 || y == 0 then 0 else 2 * And(x / 2, y / 2) + x % 2 * (y % 2)
  }

  function Pow2(k: nat): (p: nat)
    ensures p > 0
  {
    if k == 0 then 1 else 2 * Pow2(k - 1)
  }

  lemma {:induction false} PowAdd(a: nat, b: nat)
    ensures Pow2(a + b) == Pow2(a) * Pow2(b)
    decreases b
  {
    if b > 0 {
      PowAdd(a, b - 1);
      TwiceProduct(Pow2(a), Pow2(b - 1), Pow2(b));
    }
  }

  lemma TwiceProduct(x: nat, y: nat, y2: nat)
    requires y2 == 2 * y
    ensures x * y2 == 2 * (x * y)
  {
  }

  lemma PowValues()
    ensures Pow2(0) == 1 && Pow2(1) == 2 && Pow2(2) == 4 && Pow2(4) == 16 && Pow2(8) == 0x100
    ensures Pow2(16) == 0x1_0000 && Pow2(31) == 0x8000_0000 && Pow2(32) == 0x1_0000_0000
  {
    assert Pow2(2) == 4 && Pow2(4) == 16;
    PowAdd(4, 4);
    PowAdd(8, 8);
    PowAdd(16, 16);
    assert Pow2(32) == 2 * Pow2(31);
  }

  ghost predicate IsPow2(x: nat) { exists k: nat :: x == Pow2(k) }

  /** `turn_off_least_1bit`. */
  function TurnOffLeast(x: nat): nat
    requires x > 0
  {
    And(x, x - 1)
  }

  lemma Remainder(h: nat, d: nat, q: nat, r: nat)
    requires d > 0 && h == q * d + r && r < d
    ensures h % d == r
  {
    var q' := h / d;
    assert h == q' * d + h % d;
    if q' < q {
      MulMono(q' + 1, q, d);
    } else if q < q' {
      MulMono(q + 1, q', d);
    }
  }

  lemma MulMono(i: nat, j: nat, s: nat)
    requires i <= j
    ensures i * s <= j * s
  {
  }

  lemma AndOdd(h: nat, n: nat)
    ensures And(h, 2 * n + 1) == 2 * And(h / 2, n) + h % 2
  {
    var y := 2 * n + 1;
    assert y / 2 == n && y % 2 == 1;
    BitTimes(h % 2);
  }

  lemma BitTimes(b: nat)
    requires b < 2
    ensures b * 1 == b && b * b == b
  {
  }

  lemma SplitStep(h: nat, half: nat, bit: nat, q: nat, m: nat, r: nat)
    requires h == 2 * half + bit && half == q * m + r && r < m && bit < 2
    ensures h == q * (2 * m) + (2 * r + bit) && 2 * r + bit < 2 * m
  {
    assert q * (2 * m) == 2 * (q * m);
  }

  lemma {:induction false} MaskSplit(h: nat, k: nat) returns (q: nat)
    ensures h == q * Pow2(k) + And(h, Pow2(k) - 1) && And(h, Pow2(k) - 1) < Pow2(k)
  {
    if k == 0 {
      q := h;
    } else {
      hide And;
      var m := Pow2(k - 1);
      q := MaskSplit(h / 2, k - 1);
      AndOdd(h, m - 1);
      SplitStep(h, h / 2, h % 2, q, m, And(h / 2, m - 1));
    }
  }

  /** Masking with a power of two less one is the remainder. */
  lemma MaskIsMod(h: nat, k: nat)
    ensures And(h, Pow2(k) - 1) == h % Pow2(k)
  {
    hide And, Pow2;
    var q := MaskSplit(h, k);
    Remainder(h, Pow2(k), q, And(h, Pow2(k) - 1));
  }

  lemma {:induction false} AndSelf(x: nat)
    ensures And(x, x) == x
  {
    if x > 0 {
      AndSelf(x / 2);
      BitTimes(x % 2);
    }
  }

  lemma EvenPow(y: nat)
    requires y > 0
    ensures IsPow2(2 * y) <==> IsPow2(y)
  {
    if IsPow2(y) {
      var k: nat :| y == Pow2(k);
      assert 2 * y == Pow2(k + 1);
    }
    if IsPow2(2 * y) {
      var k: nat :| 2 * y == Pow2(k);
      assert y == Pow2(k - 1);
    }
  }

  lemma OddPow(y: nat, k: nat)
    requires 2 * y + 1 == Pow2(k)
    ensures y == 0
  {
  }

  lemma OddLowest(x: nat)
    requires x % 2 == 1
    ensures TurnOffLeast(x) == x - 1 && (x == 1 <==> IsPow2(x))
    ensures forall k: nat :: Pow2(k) <= x && !IsPow2(x) ==> Pow2(k) <= x - 1
  {
    var y := x / 2;
    AndSelf(y);
    assert (x - 1) / 2 == y;
    assert y == 0 ==> x == Pow2(0);
    forall k: nat | Pow2(k) == x ensures y == 0 {
      OddPow(y, k);
    }
  }

  lemma EvenLowest(x: nat, y: nat)
    requires x == 2 * y && y > 0
    ensures TurnOffLeast(x) == 2 * TurnOffLeast(y) && (IsPow2(x) <==> IsPow2(y))
    ensures forall k: nat :: Pow2(k) <= x ==> k == 0 || Pow2(k - 1) <= y
  {
    EvenPow(y);
    assert (x - 1) / 2 == y - 1;
  }

  /** What remains when the lowest bit goes: nothing exactly for a power of two, else a
      smaller number above the same powers of two. */
  lemma {:induction false} LowestBit(x: nat)
    requires x > 0
    ensures TurnOffLeast(x) < x
    ensures TurnOffLeast(x) == 0 <==> IsPow2(x)
    ensures forall k: nat :: Pow2(k) <= x && !IsPow2(x) ==> Pow2(k) <= TurnOffLeast(x)
  {
    if x % 2 == 1 {
      OddLowest(x);
    } else {
      var y := x / 2;
      LowestBit(y);
      EvenLowest(x, y);
      hide TurnOffLeast, IsPow2;
      forall k: nat | Pow2(k) <= x && !IsPow2(x) ensures Pow2(k) <= TurnOffLeast(x) {
        assert Pow2(0) <= y;
        assert k > 0 ==> Pow2(k - 1) <= TurnOffLeast(y);
      }
    }
  }

  // ----- single bits -----

  /** Bit number `k`. */
  predicate BitAt(x: nat, k: nat)
    decreases k
  {
    if k == 0 then x % 2 == 1 else BitAt(x / 2, k - 1)
  }

  /** Bitwise or. */
  function Or(x: nat, y: nat): nat {
    if x == 0 then y else if y == 0 then x
    else 2 * Or(x / 2, y / 2) + if x % 2 == 1 || y % 2 == 1 then 1 else 0
  }

  /** Bitwise complement of an `n`-bit word. */
  function Not(x: nat, n: nat): nat
    requires x < Pow2(n)
  {
    Pow2(n) - 1 - x
  }

  lemma {:induction false} ZeroBit(k: nat)
    ensures !BitAt(0, k)
  {
    if k > 0 {
      ZeroBit(k - 1);
    }
  }

  lemma {:induction false} AndBit(x: nat, y: nat, k: nat)
    ensures BitAt(And(x, y), k) <==> BitAt(x, k) && BitAt(y, k)
    decreases k
  {
    ZeroBit(k);
    if x > 0 && y > 0 {
      assert And(x, y) / 2 == And(x / 2, y / 2) && And(x, y) % 2 == x % 2 * (y % 2);
      if k > 0 {
        AndBit(x / 2, y / 2, k - 1);
      }
    }
  }

  lemma {:induction false} OrBit(x: nat, y: nat, k: nat)
    ensures BitAt(Or(x, y), k) <==> BitAt(x, k) || BitAt(y, k)
    decreases k
  {
    ZeroBit(k);
    if x > 0 && y > 0 {
      assert Or(x, y) / 2 == Or(x / 2, y / 2);
      if k > 0 {
        OrBit(x / 2, y / 2, k - 1);
      }
    }
  }

  lemma {:induction false} AndBound(x: nat, y: nat)
    ensures And(x, y) <= x
  {
    if x > 0 && y > 0 {
      AndBound(x / 2, y / 2);
    }
  }

  lemma {:induction false} OrBound(x: nat, y: nat, n: nat)
    requires x < Pow2(n) && y < Pow2(n)
    ensures Or(x, y) < Pow2(n)
    decreases n
  {
    if x > 0 && y > 0 {
      OrBound(x / 2, y / 2, n - 1);
    }
  }

  lemma {:induction false} PowBit(j: nat, k: nat)
    ensures BitAt(Pow2(j), k) <==> j == k
    decreases j
  {
    if j == 0 {
      ZeroBit(if k == 0 then 0 else k - 1);
    } else {
      assert Pow2(j) % 2 == 0 && Pow2(j) / 2 == Pow2(j - 1);
      if k > 0 {
        PowBit(j - 1, k - 1);
      }
    }
  }

  lemma {:induction false} NotBit(x: nat, n: nat, k: nat)
    requires x < Pow2(n) && k < n
    ensures BitAt(Not(x, n), k) <==> !BitAt(x, k)
    decreases n
  {
    var y := Not(x, n);
    assert y == 2 * Pow2(n - 1) - 1 - x;
    assert y / 2 == Pow2(n - 1) - 1 - x / 2 && y % 2 == 1 - x % 2;
    if k > 0 {
      NotBit(x / 2, n - 1, k - 1);
    }
  }

  lemma {:induction false} PowGrows(j: nat, n: nat)
    requires j < n
    ensures Pow2(j) < Pow2(n)
    decreases n
  {
    if j < n - 1 {
      PowGrows(j, n - 1);
    }
  }

  /** A word masked with a single bit is nonzero exactly if it has that bit. */
  lemma {:induction false} TestBit(x: nat, k: nat)
    ensures And(x, Pow2(k)) != 0 <==> BitAt(x, k)
    decreases k
  {
    ZeroBit(k);
    if x > 0 && k > 0 {
      TestBit(x / 2, k - 1);
      assert Pow2(k) % 2 == 0 && Pow2(k) / 2 == Pow2(k - 1);
    }
  }
}
