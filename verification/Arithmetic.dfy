/**
 Division, products and ceilings, as the other modules need them.
 */
module Arithmetic {

  /** Quotient and remainder of a row-major position. */
  lemma DivModProduct(i: nat, s: nat, r: nat)
    requires r < s
    ensures (i * s + r) / s == i && (i * s + r) % s == r
  {
    assert i * s + r == s * i + r;
    DivUnique(i * s + r, s, i, r);
  }

  lemma DivUnique(x: nat, s: nat, q: nat, r: nat)
    requires s >= 1 && r < s && x == s * q + r
    ensures x / s == q && x % s == r
  {
    var p, t := x / s, x % s;
    assert s * p + t == s * q + r;
    if p < q {
      MulGap(s, p, q);
    } else if q < p {
      MulGap(s, q, p);
    }
  }

  lemma MulGap(s: nat, a: nat, b: nat)
    requires a < b
    ensures s * a + s <= s * b
  {
    assert s * (a + 1) <= s * b;
  }

  lemma FlatBound(c: nat, rows: nat, k: nat, t: nat)
    requires c < rows && t < k
    ensures c * k + t < rows * k
  {
    assert (c + 1) * k <= rows * k;
  }

  lemma QuotientBelow(p: nat, a: nat, s: nat)
    requires s >= 1 && p < a * s
    ensures p / s < a
  {
    if a <= p / s {
      MulLe(s, a, p / s);
    }
  }

  lemma MulLe(s: nat, a: nat, b: nat)
    requires a <= b
    ensures s * a <= s * b
  {
  }

  /** Smallest integer not below `x`. */
  function Ceil(x: real): (c: int)
    ensures (c - 1) as real < x <= c as real
  {
    if x.Floor as real == x then x.Floor else x.Floor + 1
  }
}
