/**
 Binary digits of natural numbers: exclusive or digit by digit, and multiplication by odd numbers.
 */
module Bits {
  import opened Arithmetic

  /** Binary digit `j`, least significant first. */
  function Bit(n: nat, j: nat): (d: nat)
    ensures d < 2
    decreases j
  {
    if j == 0 then n % 2 else Bit(n / 2, j - 1)
  }

  /** Bitwise exclusive or. */
  function Xor(a: nat, b: nat): nat
    decreases a + b
  {
    if a == 0 && b == 0 then 0 else (a + b) % 2 + 2 * Xor(a / 2, b / 2)
  }

  lemma {:induction false} ZeroBit(j: nat)
    ensures Bit(0, j) == 0
  {
    if j > 0 {
      ZeroBit(j - 1);
    }
  }

  /** A digit of the exclusive or is set exactly when it is set in one of the two numbers alone. */
  lemma {:induction false} XorBit(a: nat, b: nat, j: nat)
    ensures Bit(Xor(a, b), j) == 1 <==> Bit(a, j) != Bit(b, j)
    decreases j
  {
    XorHalves(a, b);
    if j > 0 {
      XorBit(a / 2, b / 2, j - 1);
    }
  }

  lemma XorHalves(a: nat, b: nat)
    ensures Xor(a, b) % 2 == (a + b) % 2 && Xor(a, b) / 2 == Xor(a / 2, b / 2)
  {
    hide Xor;
    XorParts(a, b, a / 2, b / 2);
    TwoParts((a + b) % 2, Xor(a / 2, b / 2));
  }

  lemma XorParts(a: nat, b: nat, x: nat, y: nat)
    requires x == a / 2 && y == b / 2
    ensures Xor(a, b) == (a + b) % 2 + 2 * Xor(x, y)
  {
  }

  lemma TwoParts(d: nat, c: nat)
    requires d < 2
    ensures (d + 2 * c) % 2 == d && (d + 2 * c) / 2 == c
  {
  }

  /** Numbers with the same digits are equal. */
  lemma {:induction false} BitsDetermine(a: nat, b: nat)
    requires forall j: nat :: Bit(a, j) == Bit(b, j)
    ensures a == b
    decreases a + b
  {
    assert Bit(a, 0) == Bit(b, 0);
    if a + b > 0 {
      forall j: nat
        ensures Bit(a / 2, j) == Bit(b / 2, j)
      {
        assert Bit(a, j + 1) == Bit(b, j + 1);
      }
      BitsDetermine(a / 2, b / 2);
    }
  }

  function Pow2(n: nat): (p: nat)
    ensures p >= 1
  {
    if n == 0 then 1 else 2 * Pow2(n - 1)
  }

  lemma {:induction false} PowerSum(m: nat, n: nat)
    ensures Pow2(m + n) == Pow2(m) * Pow2(n)
  {
    if m > 0 {
      PowerSum(m - 1, n);
      assert 2 * (Pow2(m - 1) * Pow2(n)) == 2 * Pow2(m - 1) * Pow2(n);
    }
  }

  lemma PowersOfTwo()
    ensures Pow2(27) == 0x800_0000 && Pow2(30) == 0x4000_0000 && Pow2(31) == 0x8000_0000
    ensures Pow2(64) == 0x1_0000_0000_0000_0000
  {
    assert Pow2(11) == 0x800 && Pow2(14) == 0x4000 && Pow2(15) == 0x8000 && Pow2(16) == 0x1_0000;
    PowerSum(16, 11);
    PowerSum(16, 14);
    PowerSum(16, 15);
    PowerSum(16, 16);
    PowerSum(32, 32);
  }

  /** Below 2^n every digit from `n` on is zero, and the other way round. */
  lemma {:induction false} HighBits(a: nat, n: nat)
    ensures a < Pow2(n) <==> forall j: nat :: n <= j ==> Bit(a, j) == 0
    decreases a + n
  {
    if n > 0 {
      HighBits(a / 2, n - 1);
      if a < Pow2(n) {
        forall j: nat | n <= j
          ensures Bit(a, j) == 0
        {
          assert Bit(a / 2, j - 1) == 0;
        }
      } else {
        var j: nat :| n - 1 <= j && Bit(a / 2, j) != 0;
        assert Bit(a, j + 1) != 0;
      }
    } else if a == 0 {
      forall j: nat
        ensures Bit(a, j) == 0
      {
        ZeroBit(j);
      }
    } else if a == 1 {
      assert Bit(a, 0) == 1;
    } else {
      HighBits(a / 2, 0);
      var j: nat :| Bit(a / 2, j) != 0;
      assert Bit(a, j + 1) != 0;
    }
  }

  /** Exclusive or stays below a power of two. */
  lemma {:induction false} XorBelow(a: nat, b: nat, n: nat)
    requires a < Pow2(n) && b < Pow2(n)
    ensures Xor(a, b) < Pow2(n)
  {
    XorHalves(a, b);
    if n > 0 {
      XorBelow(a / 2, b / 2, n - 1);
    }
  }

  /** The shift right by `s` digits. */
  function Shift(a: nat, s: nat): nat
    decreases s
  {
    if s == 0 then a else Shift(a / 2, s - 1)
  }

  /** A shift right drops the lowest digits. */
  lemma {:induction false} ShiftedBit(a: nat, s: nat, j: nat)
    ensures Bit(Shift(a, s), j) == Bit(a, j + s)
    decreases s
  {
    if s > 0 {
      ShiftedBit(a / 2, s - 1, j);
    }
  }

  lemma {:induction false} ShiftShrinks(a: nat, s: nat)
    ensures Shift(a, s) <= a
    decreases s
  {
    if s > 0 {
      ShiftShrinks(a / 2, s - 1);
    }
  }

  /** A shift right is a division by a power of two. */
  lemma {:induction false} ShiftDivides(a: nat, s: nat, p: nat)
    requires p == Pow2(s)
    ensures Shift(a, s) == a / p
    decreases s
  {
    if s > 0 {
      HalveTwice(a, Pow2(s - 1));
      ShiftDivides(a / 2, s - 1, Pow2(s - 1));
    }
  }

  lemma HalveTwice(a: nat, p: nat)
    requires p >= 1
    ensures a / (2 * p) == a / 2 / p
  {
    var q, r := a / 2 / p, a / 2 % p;
    assert a / 2 == p * q + r;
    assert a == 2 * p * q + (2 * r + a % 2) by {
      assert 2 * (p * q) == 2 * p * q;
    }
    DivUnique(a, 2 * p, q, 2 * r + a % 2);
  }

  /** Xoring a number with a shift of itself loses nothing. */
  lemma XorShiftInjective(a: nat, b: nat, s: nat, n: nat)
    requires s >= 1 && a < Pow2(n) && b < Pow2(n) && Xor(a, Shift(a, s)) == Xor(b, Shift(b, s))
    ensures a == b
  {
    hide Xor, Shift, Pow2;
    forall j: nat
      ensures Bit(a, j) == Bit(b, j)
    {
      SameBit(a, b, s, n, j);
    }
    BitsDetermine(a, b);
  }

  lemma {:induction false} SameBit(a: nat, b: nat, s: nat, n: nat, j: nat)
    requires s >= 1 && a < Pow2(n) && b < Pow2(n) && Xor(a, Shift(a, s)) == Xor(b, Shift(b, s))
    ensures Bit(a, j) == Bit(b, j)
    decreases n - j
  {
    hide Xor, Shift, Pow2, Bit;
    if n <= j {
      HighBits(a, n);
      HighBits(b, n);
    } else {
      SameBit(a, b, s, n, j + s);
      ShiftedBit(a, s, j);
      ShiftedBit(b, s, j);
      XorBit(a, Shift(a, s), j);
      XorBit(b, Shift(b, s), j);
    }
  }

  // ----- Odd factors -----

  /** A power of two that divides a product with an odd factor divides the other factor. */
  lemma {:induction false} OddFactor(d: nat, m: nat, n: nat)
    requires m % 2 == 1 && d * m % Pow2(n) == 0
    ensures d % Pow2(n) == 0
    decreases n
  {
    if n > 0 {
      var p := Pow2(n - 1);
      EvenProduct(d, m, 2 * p, d * m / (2 * p));
      HalfProduct(d / 2, m, p, d * m / (2 * p));
      OddFactor(d / 2, m, n - 1);
      TwiceMultiple(d / 2, p);
    }
  }

  lemma EvenProduct(d: nat, m: nat, p: nat, q: nat)
    requires m % 2 == 1 && p % 2 == 0 && p >= 1 && d * m % p == 0 && q == d * m / p
    ensures d % 2 == 0 && d * m == p * q
  {
    var h := p / 2;
    assert d * m == p * q == 2 * (h * q) by {
      assert p == 2 * h;
      assert 2 * h * q == 2 * (h * q);
    }
    if d % 2 == 1 {
      OddTimesOdd(d / 2, m / 2);
    }
  }

  lemma OddTimesOdd(a: nat, b: nat)
    ensures (2 * a + 1) * (2 * b + 1) == 2 * (2 * (a * b) + a + b) + 1
  {
  }

  lemma HalfProduct(d: nat, m: nat, p: nat, q: nat)
    requires p >= 1 && 2 * d * m == 2 * p * q
    ensures d * m % p == 0
  {
    assert d * m == p * q;
    MultipleOf(p, q);
  }

  lemma MultipleOf(p: nat, q: nat)
    requires p >= 1
    ensures p * q % p == 0
  {
    DivUnique(p * q, p, q, 0);
  }

  lemma TwiceMultiple(d: nat, p: nat)
    requires p >= 1 && d % p == 0
    ensures 2 * d % (2 * p) == 0
  {
    var q := d / p;
    assert 2 * d == 2 * p * q;
    MultipleOf(2 * p, q);
  }

  /** Multiplication by an odd number modulo a power of two loses nothing. */
  lemma OddInjective(a: nat, b: nat, m: nat, n: nat, p: nat)
    requires m % 2 == 1 && p == Pow2(n) && a < p && b < p && a * m % p == b * m % p
    ensures a == b
  {
    if a < b {
      OddApart(a, b, m, n, p);
    } else if b < a {
      OddApart(b, a, m, n, p);
    }
  }

  lemma OddApart(a: nat, b: nat, m: nat, n: nat, p: nat)
    requires m % 2 == 1 && p == Pow2(n) && a < b < p
    ensures a * m % p != b * m % p
  {
    hide Pow2;
    var d := b - a;
    Distribute(a, b, d, m);
    if a * m % p == b * m % p {
      SameRemainder(b * m, a * m, p);
      OddFactor(d, m, n);
      NoSmallMultiple(d, p);
    }
  }

  lemma Distribute(a: nat, b: nat, d: nat, m: nat)
    requires a + d == b
    ensures a * m + d * m == b * m
  {
  }

  lemma NoSmallMultiple(d: nat, p: nat)
    requires d < p && d % p == 0
    ensures d == 0
  {
    DivUnique(d, p, 0, d);
  }

  lemma SameRemainder(x: nat, y: nat, p: nat)
    requires p >= 1 && x >= y && x % p == y % p
    ensures (x - y) % p == 0
  {
    var u, v := x / p, y / p;
    QuotientOrder(p, u, x % p, v, y % p);
    assert x - y == p * u - p * v == p * (u - v);
    MultipleOf(p, u - v);
  }

  lemma QuotientOrder(p: nat, u: nat, r: nat, v: nat, t: nat)
    requires r < p && p * u + r >= p * v + t
    ensures u >= v
  {
    if u < v {
      MulGap(p, u, v);
    }
  }
}
