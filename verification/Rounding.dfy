/**
 Round to nearest, ties to even, on an increasing grid of codes `0..top`.
 */
module Rounding {

  ghost predicate Increasing(grid: nat -> real, top: nat)
  {
    forall a: nat, b: nat :: a < b <= top ==> grid(a) < grid(b)
  }

  function Distance(x: real, y: real): real
  {
    if x < y then y - x else x - y
  }

  /** No code is nearer to `x`, and only an even code may be as near as another. */
  ghost predicate NearestEven(grid: nat -> real, top: nat, x: real, code: nat)
  {
    && code <= top
    && forall c: nat :: c <= top ==>
         || Distance(x, grid(code)) < Distance(x, grid(c))
         || (Distance(x, grid(code)) == Distance(x, grid(c)) && (c == code || code % 2 == 0))
  }

  /** Rounding a magnitude between two neighbouring codes. */
  lemma RoundBetween(grid: nat -> real, top: nat, x: real, q: nat, r: nat)
    requires Increasing(grid, top)
    requires q < top && grid(q) <= x <= grid(q + 1)
    requires var twice, gap := 2.0 * (x - grid(q)), grid(q + 1) - grid(q);
             r == if twice > gap || (twice == gap && q % 2 == 1) then q + 1 else q
    ensures NearestEven(grid, top, x, r)
  {
    forall c: nat | c <= top
      ensures || Distance(x, grid(r)) < Distance(x, grid(c))
              || (Distance(x, grid(r)) == Distance(x, grid(c)) && (c == r || r % 2 == 0))
    {
      assert c < q ==> grid(c) < grid(q);
      assert q + 1 < c ==> grid(q + 1) < grid(c);
    }
  }

  lemma RoundAbove(grid: nat -> real, top: nat, x: real)
    requires Increasing(grid, top) && grid(top) <= x
    ensures NearestEven(grid, top, x, top)
  {
    assert forall c: nat :: c < top ==> grid(c) < grid(top);
  }

  /** The specification determines the result. */
  lemma NearestEvenUnique(grid: nat -> real, top: nat, x: real, a: nat, b: nat)
    requires Increasing(grid, top) && NearestEven(grid, top, x, a) && NearestEven(grid, top, x, b)
    ensures a == b
  {
    assert Distance(x, grid(a)) == Distance(x, grid(b));
    if a + 1 < b && Distance(x, grid(a)) == Distance(x, grid(b)) {
      BetweenIsNearer(grid, top, x, a, b);
    } else if b + 1 < a && Distance(x, grid(a)) == Distance(x, grid(b)) {
      BetweenIsNearer(grid, top, x, b, a);
    }
  }

  lemma BetweenIsNearer(grid: nat -> real, top: nat, x: real, a: nat, b: nat)
    requires Increasing(grid, top) && a + 1 < b <= top && Distance(x, grid(a)) == Distance(x, grid(b))
    ensures Distance(x, grid(a + 1)) < Distance(x, grid(a))
  {
    assert grid(a) < grid(a + 1) < grid(b);
  }

  /** Rounding is monotone. */
  lemma NearestEvenMonotone(grid: nat -> real, top: nat, x: real, y: real, a: nat, b: nat)
    requires Increasing(grid, top) && NearestEven(grid, top, x, a) && NearestEven(grid, top, y, b) && x <= y
    ensures a <= b
  {
    if b < a {
      assert grid(b) < grid(a);
      assert Distance(x, grid(a)) <= Distance(x, grid(b));
      assert Distance(y, grid(b)) <= Distance(y, grid(a));
      assert x == y;
      NearestEvenUnique(grid, top, x, a, b);
    }
  }

  /** A magnitude on the grid rounds to itself. */
  lemma NearestEvenExact(grid: nat -> real, top: nat, code: nat, r: nat)
    requires Increasing(grid, top) && code <= top && NearestEven(grid, top, grid(code), r)
    ensures r == code
  {
    assert Distance(grid(code), grid(r)) == 0.0;
  }

  // ----- Scaling by powers of two -----

  /** `x` times 2^k. */
  function Scale(x: real, k: int): real
    decreases if k < 0 then -k else k
  {
    if k == 0 then x else if k > 0 then 2.0 * Scale(x, k - 1) else Scale(x, k + 1) / 2.0
  }

  lemma {:induction false} ScaleAdd(x: real, y: real, k: int)
    ensures Scale(x + y, k) == Scale(x, k) + Scale(y, k)
    decreases if k < 0 then -k else k
  {
    if k > 0 {
      ScaleAdd(x, y, k - 1);
    } else if k < 0 {
      ScaleAdd(x, y, k + 1);
    }
  }

  lemma {:induction false} ScaleLess(x: real, y: real, k: int)
    ensures x < y <==> Scale(x, k) < Scale(y, k)
    ensures x == y <==> Scale(x, k) == Scale(y, k)
    decreases if k < 0 then -k else k
  {
    if k > 0 {
      ScaleLess(x, y, k - 1);
    } else if k < 0 {
      ScaleLess(x, y, k + 1);
    }
  }

  lemma {:induction false} ScaleZero(k: int)
    ensures Scale(0.0, k) == 0.0
    decreases if k < 0 then -k else k
  {
    if k > 0 {
      ScaleZero(k - 1);
    } else if k < 0 {
      ScaleZero(k + 1);
    }
  }

  lemma {:induction false} ScaleMono(x: real, j: int, k: int)
    requires x >= 0.0 && j <= k
    ensures Scale(x, j) <= Scale(x, k)
    decreases k - j
  {
    if j < k {
      ScaleMono(x, j, k - 1);
      ScaleZero(k - 1);
      ScaleLess(x, 0.0, k - 1);
      assert Scale(x, k) == 2.0 * Scale(x, k - 1);
    }
  }

  lemma ScaleDouble(x: real, k: int)
    ensures Scale(x, k + 1) == Scale(2.0 * x, k)
  {
    ScaleAdd(x, x, k);
  }

  lemma Scale4(x: real, k: int)
    ensures Scale(x, k + 4) == Scale(16.0 * x, k)
  {
    ScaleDouble(x, k + 3);
    ScaleDouble(2.0 * x, k + 2);
    ScaleDouble(4.0 * x, k + 1);
    ScaleDouble(8.0 * x, k);
  }

  /** Thirteen binary places: the width difference of the two mantissas. */
  lemma Scale13(x: real, k: int)
    ensures Scale(x, k + 13) == Scale(8192.0 * x, k)
  {
    Scale4(x, k + 9);
    Scale4(16.0 * x, k + 5);
    Scale4(256.0 * x, k + 1);
    ScaleDouble(4096.0 * x, k);
  }

  // ----- Rounding on shifted-out bits -----

  /** The rounding decision made on the bits shifted out. */
  predicate RoundsUp(remainder: nat, halfway: nat, kept: nat)
  {
    remainder > halfway || (remainder == halfway && kept % 2 != 0)
  }

  /** Deciding on the integer bits is deciding on the scaled grid. */
  lemma RoundScaled(grid: nat -> real, top: nat, q: nat, kept: real, rem: nat, half: nat, k: int, r: nat)
    requires Increasing(grid, top) && q < top && rem < 2 * half
    requires grid(q) == Scale(kept, k)
    requires grid(q + 1) == Scale(kept + 2.0 * half as real, k)
    requires r == q + if RoundsUp(rem, half, q) then 1 else 0
    ensures NearestEven(grid, top, Scale(kept + rem as real, k), r)
  {
    var x, h := Scale(rem as real, k), Scale(half as real, k);
    ScaleAdd(kept, rem as real, k);
    ScaleAdd(kept, 2.0 * half as real, k);
    ScaleAdd(half as real, half as real, k);
    ScaleZero(k);
    ScaleLess(rem as real, 0.0, k);
    ScaleLess(rem as real, half as real, k);
    ScaleLess(rem as real, 2.0 * half as real, k);
    RoundBetween(grid, top, grid(q) + x, q, r);
  }
}
