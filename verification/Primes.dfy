/**
 The prime search behind the n-gram table sizes.
 */
module Primes {

  ghost predicate Divides(d: int, n: int)
  {
    exists k: int :: n == d * k
  }

  ghost predicate IsPrime(n: int)
  {
    n >= 2 && forall d :: 2 <= d < n ==> !Divides(d, n)
  }

  lemma ModDecidesDivides(d: int, n: int)
    requires d >= 1
    ensures n % d == 0 <==> Divides(d, n)
  {
    if n % d == 0 {
      assert n == d * (n / d);
    }
    if Divides(d, n) {
      var k :| n == d * k;
      MultipleMod(d, k);
    }
  }

  lemma MultipleMod(d: int, k: int)
    requires d >= 1
    ensures (d * k) % d == 0
  {
    var x := d * k;
    assert x == k * d + 0;
    ModUnique(x, d, k, 0);
  }

  lemma ModUnique(x: int, d: int, q: int, r: int)
    requires d >= 1 && x == q * d + r && 0 <= r < d
    ensures x % d == r
  {
    var k := q - x / d;
    assert k * d == q * d - x / d * d;
    MultipleSize(k, d);
  }

  lemma MultipleSize(k: int, d: int)
    requires d >= 1
    ensures k >= 1 ==> k * d >= d
    ensures k <= -1 ==> k * d <= -d
  {
  }

  // ----- Deciding primality -----

  /** Integer square root. */
  method Isqrt(n: nat) returns (r: nat)
    ensures r * r <= n < (r + 1) * (r + 1)
  {
    r := 0;
    while (r + 1) * (r + 1) <= n
      invariant r * r <= n
      decreases n - r * r
    {
      r := r + 1;
    }
  }

  /** A proper divisor or its cofactor is at most the square root. */
  lemma SmallDivisor(n: int, d: int, r: nat) returns (a: int)
    requires 2 <= d < n && Divides(d, n) && n < (r + 1) * (r + 1)
    ensures 2 <= a <= r && Divides(a, n)
  {
    var k :| n == d * k;
    Cofactor(d, k, n);
    if d <= r {
      a := d;
    } else {
      a := k;
      assert n == k * d;
      if k > r {
        ProductLarge(d, k, r + 1);
      }
    }
  }

  lemma Cofactor(d: int, k: int, n: int)
    requires 2 <= d < n && n == d * k
    ensures 2 <= k < n
  {
    assert k <= 1 ==> d * k <= d;
    assert k >= n ==> d * k >= 2 * k;
  }

  lemma ProductLarge(a: int, b: int, c: int)
    requires a >= c >= 0 && b >= c
    ensures a * b >= c * c
  {
    assert a * b >= c * b;
    assert c * b >= c * c;
  }

  lemma EvenTimes(a: int, k: int)
    ensures a % 2 == 0 ==> (a * k) % 2 == 0
  {
    if a % 2 == 0 {
      var b := a / 2;
      assert a * k == 2 * (b * k);
    }
  }

  /** An odd number without odd divisors up to its square root is prime. */
  lemma NoSmallDivisor(n: int, r: nat)
    requires n >= 3 && n % 2 == 1 && n < (r + 1) * (r + 1)
    requires forall a :: 3 <= a <= r && a % 2 == 1 ==> !Divides(a, n)
    ensures IsPrime(n)
  {
    forall e | 2 <= e < n
      ensures !Divides(e, n)
    {
      if Divides(e, n) {
        var a := SmallDivisor(n, e, r);
        var k :| n == a * k;
        EvenTimes(a, k);
      }
    }
  }

  /** The trial loop over odd candidates up to `r`. */
  method FindOddDivisor(n: int, r: nat) returns (found: bool, d: int)
    ensures found ==> 3 <= d <= r && Divides(d, n)
    ensures !found ==> forall a :: 3 <= a <= r && a % 2 == 1 ==> !Divides(a, n)
  {
    d := 3;
    while d <= r
      invariant d >= 3 && d % 2 == 1
      invariant forall a :: 3 <= a < d && a % 2 == 1 ==> !Divides(a, n)
    {
      ModDecidesDivides(d, n);
      if n % d == 0 {
        return true, d;
      }
      d := d + 2;
    }
    found := false;
  }

  /** Trial division by two and by odd numbers up to the square root. */
  method TestPrime(n: int) returns (prime: bool)
    ensures prime <==> IsPrime(n)
  {
    if n < 2 {
      return false;
    }
    if n % 2 == 0 {
      ModDecidesDivides(2, n);
      return n == 2;
    }
    var r := Isqrt(n);
    var found, d := FindOddDivisor(n, r);
    if found {
      BelowSquare(d, r, n);
      return false;
    }
    NoSmallDivisor(n, r);
    prime := true;
  }

  lemma BelowSquare(d: int, r: int, n: int)
    requires 3 <= d <= r && r * r <= n
    ensures d < n
  {
    assert r * r >= 3 * r;
  }

  // ----- There is always a larger prime -----

  function Factorial(k: nat): (f: nat)
    ensures f >= 1
  {
    if k == 0 then 1 else k * Factorial(k - 1)
  }

  lemma {:induction false} DividesFactorial(d: nat, k: nat)
    requires 1 <= d <= k
    ensures Divides(d, Factorial(k))
  {
    if d == k {
      assert Factorial(k) == d * Factorial(k - 1);
    } else {
      DividesFactorial(d, k - 1);
      var m :| Factorial(k - 1) == d * m;
      assert Factorial(k) == d * (k * m);
    }
  }

  /** Every number from two on has a prime divisor. */
  lemma {:induction false} PrimeDivisor(n: nat) returns (p: nat)
    requires n >= 2
    ensures IsPrime(p) && Divides(p, n)
    decreases n
  {
    if IsPrime(n) {
      p := n;
      assert n == n * 1;
    } else {
      var d :| 2 <= d < n && Divides(d, n);
      p := PrimeDivisor(d);
      var j :| d == p * j;
      var k :| n == d * k;
      assert n == p * (j * k);
    }
  }

  lemma PrimeAbove(k: int) returns (p: nat)
    ensures IsPrime(p) && p > k
  {
    var b := if k < 0 then 0 else k;
    var f := Factorial(b);
    p := PrimeDivisor(f + 1);
    if p <= b {
      DividesFactorial(p, b);
      NotNeighbours(p, f);
    }
  }

  lemma NotNeighbours(p: int, f: int)
    requires p >= 2 && Divides(p, f)
    ensures !Divides(p, f + 1)
  {
    var i :| f == p * i;
    forall j
      ensures f + 1 != p * j
    {
      assert p * j - p * i == (j - i) * p;
      MultipleSize(j - i, p);
    }
  }

  // ----- The n-th prime after a start -----

  /** How many primes lie in `(lo, hi]`. */
  ghost function PrimesIn(lo: int, hi: int): nat
    decreases hi - lo
  {
    if hi <= lo then 0 else PrimesIn(lo, hi - 1) + if IsPrime(hi) then 1 else 0
  }

  /** `p` is the `count`-th prime after `start` (`start` itself for none). */
  ghost predicate IsNthAfter(start: int, count: nat, p: int)
  {
    && PrimesIn(start, p) == count
    && (if count == 0 then p == start else start < p && IsPrime(p))
  }

  lemma {:induction false} PrimesInGrows(lo: int, a: int, b: int)
    requires a <= b
    ensures PrimesIn(lo, a) <= PrimesIn(lo, b)
    decreases b - a
  {
    if a < b {
      PrimesInGrows(lo, a, b - 1);
    }
  }

  /** A larger count gives a larger prime, so the search result is determined. */
  lemma NthIncreasing(start: int, i: nat, j: nat, p: int, q: int)
    requires IsNthAfter(start, i, p) && IsNthAfter(start, j, q) && i < j
    ensures p < q
  {
    if q <= p {
      PrimesInGrows(start, q, p);
    }
  }

  lemma NthUnique(start: int, count: nat, p: int, q: int)
    requires IsNthAfter(start, count, p) && IsNthAfter(start, count, q)
    ensures p == q
  {
    if count > 0 {
      if p < q {
        PrimesInGrows(start, p, q - 1);
      } else if q < p {
        PrimesInGrows(start, q, p - 1);
      }
    }
  }

  /** Steps from prime to prime; terminates from every start because a prime lies above every bound. */
  method NthPrimeAfter(start: int, count: nat) returns (p: int)
    ensures IsNthAfter(start, count, p)
  {
    p := start;
    for i := 0 to count
      invariant IsNthAfter(start, i, p)
    {
      ghost var found := p;
      ghost var above := PrimeAbove(p);
      p := p + 1;
      var prime := TestPrime(p);
      while !prime
        invariant start <= found < p <= above && PrimesIn(start, p - 1) == i
        invariant prime <==> IsPrime(p)
        decreases above - p
      {
        p := p + 1;
        prime := TestPrime(p);
      }
    }
  }
}
