/**
 Conversion between IEEE 754 binary32 and binary16 bit patterns.

 Magnitudes are exact reals in units of 2^-24, the smallest binary16 subnormal. Bit fields are
 read and joined with `/`, `%` and `+`; the fields never overlap, so `+` is the code's `|`.
 */
module HalfFloat {
  import opened Bytes
  import opened Rounding

  /** The binary16 pattern of infinity; larger codes are NaNs. */
  const INFINITY := 0x7C00

  // ----- Shifts -----

  /** `q << k`. */
  function Shl(q: nat, k: nat): nat
  {
    if k == 0 then q else 2 * Shl(q, k - 1)
  }

  /** `m >> k`. */
  function Shr(m: nat, k: nat): nat
  {
    if k == 0 then m else Shr(m, k - 1) / 2
  }

  /** `m & ((1 << k) - 1)`: what `m >> k` drops. */
  function Low(m: nat, k: nat): (r: nat)
    ensures r < Shl(1, k) && m == Shl(Shr(m, k), k) + r
  {
    if k == 0 then 0
    else
      var r := Low(m, k - 1);
      ShlHalf(Shr(m, k - 1), k - 1);
      if Shr(m, k - 1) % 2 == 1 then r + Shl(1, k - 1) else r
  }

  lemma {:induction false} ShlAdd(a: nat, b: nat, k: nat)
    ensures Shl(a + b, k) == Shl(a, k) + Shl(b, k)
  {
    if k > 0 {
      ShlAdd(a, b, k - 1);
    }
  }

  /** Dropping one more bit moves it from the kept part to the dropped part. */
  lemma ShlHalf(q: nat, k: nat)
    ensures Shl(q, k) == Shl(q / 2, k + 1) + Shl(q % 2, k)
    ensures Shl(0, k) == 0
  {
    ShlAdd(q / 2, q / 2, k);
    ShlAdd(q / 2 + q / 2, q % 2, k);
    assert q / 2 + q / 2 + q % 2 == q;
    ShlAdd(0, 0, k);
  }

  /** Shifting left is scaling. */
  lemma {:induction false} ShlScale(q: nat, n: nat, k: int)
    ensures Scale(Shl(q, n) as real, k) == Scale(q as real, k + n)
    decreases n
  {
    if n > 0 {
      ShlScale(q, n - 1, k + 1);
      ScaleDouble(Shl(q, n - 1) as real, k);
    }
  }

  lemma {:induction false} ShrBound(m: nat, k: nat, n: nat)
    requires m < Shl(n, k)
    ensures Shr(m, k) < n
    decreases k
  {
    if k > 0 {
      ShlAdd(n, n, k - 1);
      ShrBound(m, k - 1, 2 * n);
    }
  }

  // ----- Exact values -----

  function SingleExp(bits: nat): nat
  {
    (bits / 0x80_0000) % 0x100
  }

  function SingleMant(bits: nat): nat
  {
    bits % 0x80_0000
  }

  predicate SingleFinite(bits: nat)
  {
    SingleExp(bits) != 0xFF
  }

  predicate IsNaN(bits: nat)
  {
    SingleExp(bits) == 0xFF && SingleMant(bits) != 0
  }

  /** Magnitude of a finite binary32 with the given exponent and mantissa fields. */
  function SingleMag(exp: nat, mant: nat): real
  {
    if exp == 0 then Scale(mant as real, exp - 125) else Scale((mant + 0x80_0000) as real, exp - 126)
  }

  /**
   Magnitude of a binary16 pattern without its sign. The value given to `INFINITY` is that of
   2^16, where an unbounded exponent range would continue.
   */
  function HalfMag(code: nat): real
  {
    var e, m := code / 0x400, code % 0x400;
    if e == 0 then m as real else Scale((m + 0x400) as real, e - 1)
  }

  /** Round to nearest, ties to even, with overflow to infinity (IEEE 754-2019 section 4.3.1). */
  ghost predicate NearestHalf(x: real, code: nat)
  {
    NearestEven(HalfMag, INFINITY, x, code)
  }

  // ----- The binary16 grid -----

  /** In a normal binade a code's successor is one unit further, also across the carry. */
  lemma NormalCodes(e: nat, m: nat)
    requires 1 <= e && m < 0x400
    ensures HalfMag(e * 0x400 + m) == Scale((m + 0x400) as real, e - 1)
    ensures HalfMag(e * 0x400 + m + 1) == Scale((m + 0x401) as real, e - 1)
  {
    var q := e * 0x400 + m;
    assert q / 0x400 == e && q % 0x400 == m;
    if m == 0x3FF {
      assert (q + 1) / 0x400 == e + 1 && (q + 1) % 0x400 == 0;
      ScaleDouble(1024.0, e - 1);
    } else {
      assert (q + 1) / 0x400 == e && (q + 1) % 0x400 == m + 1;
    }
  }

  /** Subnormal codes are their own magnitude, up to the first normal one. */
  lemma SubnormalCodes(q: nat)
    requires q <= 0x400
    ensures HalfMag(q) == q as real
  {
  }

  lemma HalfStep(code: nat)
    ensures HalfMag(code) < HalfMag(code + 1)
  {
    if code < 0x400 {
      SubnormalCodes(code);
      SubnormalCodes(code + 1);
    } else {
      var e, m := code / 0x400, code % 0x400;
      NormalCodes(e, m);
      ScaleLess((m + 0x400) as real, (m + 0x401) as real, e - 1);
    }
  }

  lemma {:induction false} HalfMagIncreasing(a: nat, b: nat)
    requires a < b
    ensures HalfMag(a) < HalfMag(b)
    decreases b
  {
    HalfStep(b - 1);
    if a < b - 1 {
      HalfMagIncreasing(a, b - 1);
    }
  }

  lemma HalfIncreasing()
    ensures Increasing(HalfMag, INFINITY)
  {
    forall a: nat, b: nat | a < b <= INFINITY
      ensures HalfMag(a) < HalfMag(b)
    {
      HalfMagIncreasing(a, b);
    }
  }

  /** The largest finite magnitude and the one at infinity, in the binade of the former. */
  lemma TopCodes()
    ensures HalfMag(INFINITY - 1) == Scale(2047.0, 29) && HalfMag(INFINITY) == Scale(2048.0, 29)
  {
    NormalCodes(30, 0x3FF);
  }

  /** Overflow to infinity happens exactly from 65520 upward. */
  lemma OverflowThreshold(x: real, code: nat)
    requires NearestHalf(x, code)
    ensures code == INFINITY <==> x >= Scale(65520.0, 24)
  {
    var q := INFINITY - 1;
    HalfIncreasing();
    TopCodes();
    Threshold();
    var grid := HalfMag;
    assert grid(q) == Scale(2047.0, 29) && grid(q + 1) == Scale(2048.0, 29);
    RoundAtTop(grid, x, code, Scale(2047.0, 29), Scale(2048.0, 29), Scale(65520.0, 24));
  }

  lemma RoundAtTop(grid: nat -> real, x: real, code: nat, last: real, above: real, middle: real)
    requires Increasing(grid, INFINITY) && NearestEven(grid, INFINITY, x, code)
    requires grid(INFINITY - 1) == last && grid(INFINITY) == above && 2.0 * middle == last + above
    ensures code == INFINITY <==> x >= middle
  {
    var q := INFINITY - 1;
    assert last < above;
    if x >= grid(q + 1) {
      RoundAbove(grid, INFINITY, x);
      NearestEvenUnique(grid, INFINITY, x, code, INFINITY);
    } else if x >= grid(q) {
      var r := if 2.0 * (x - grid(q)) >= grid(q + 1) - grid(q) then INFINITY else q;
      RoundBetween(grid, INFINITY, x, q, r);
      NearestEvenUnique(grid, INFINITY, x, code, r);
    } else {
      RoundBetween(grid, INFINITY, grid(q), q, q);
      NearestEvenMonotone(grid, INFINITY, x, grid(q), code, q);
    }
  }

  /** 65520 lies halfway between the largest finite half and 2^16. */
  lemma Threshold()
    ensures 2.0 * Scale(65520.0, 24) == Scale(2047.0, 29) + Scale(2048.0, 29)
    ensures Scale(2047.0, 29) < Scale(2048.0, 29)
  {
    ScaleAdd(2047.0, 2048.0, 29);
    Scale4(4095.0, 25);
    ScaleDouble(65520.0, 24);
    ScaleLess(2047.0, 2048.0, 29);
    assert Scale(65520.0, 25) == 2.0 * Scale(65520.0, 24);
  }

  // ----- The branches of the conversion -----

  /** Two neighbouring normal codes, scaled to the position of the mantissa bits. */
  lemma NormalGrid(e: nat, hi: nat)
    requires 1 <= e <= 30 && hi < 0x400
    ensures HalfMag(e * 0x400 + hi) == Scale(8192.0 * (hi + 0x400) as real, e - 14)
    ensures HalfMag(e * 0x400 + hi + 1) == Scale(8192.0 * (hi + 0x400) as real + 8192.0, e - 14)
  {
    NormalCodes(e, hi);
    Scale13((hi + 0x400) as real, e - 14);
    Scale13((hi + 0x401) as real, e - 14);
  }

  lemma NormalBranch(exp: nat, mant: nat, r: nat)
    requires 113 <= exp <= 142 && mant < 0x80_0000
    requires r == (exp - 112) * 0x400 + mant / 0x2000 + if RoundsUp(mant % 0x2000, 0x1000, mant / 0x2000) then 1 else 0
    ensures NearestHalf(SingleMag(exp, mant), r)
  {
    hide RoundsUp, NearestHalf;
    var hi, rem := mant / 0x2000, mant % 0x2000;
    assert (mant + 0x80_0000) as real == 8192.0 * (hi + 0x400) as real + rem as real;
    RoundsUpAlike(rem, 0x1000, hi, (exp - 112) * 0x400 + hi);
    NormalRounds(exp, hi, rem, (exp - 112) * 0x400 + hi, r);
  }

  lemma RoundsUpAlike(rem: nat, half: nat, hi: nat, q: nat)
    requires q % 2 == hi % 2
    ensures RoundsUp(rem, half, hi) == RoundsUp(rem, half, q)
  {
  }

  lemma NormalRounds(exp: nat, hi: nat, rem: nat, q: nat, r: nat)
    requires 113 <= exp <= 142 && hi < 0x400 && rem < 0x2000 && q == (exp - 112) * 0x400 + hi
    requires r == q + if RoundsUp(rem, 0x1000, q) then 1 else 0
    ensures NearestHalf(Scale(8192.0 * (hi + 0x400) as real + rem as real, exp - 126), r)
  {
    hide HalfMag, RoundsUp, NearestEven, Scale, Increasing;
    NormalGrid(exp - 112, hi);
    HalfIncreasing();
    var grid := HalfMag;
    assert grid(q) == HalfMag(q) && grid(q + 1) == HalfMag(q + 1);
    RoundScaled(grid, INFINITY, q, 8192.0 * (hi + 0x400) as real, rem, 0x1000, exp - 126, r);
  }

  lemma SubnormalBranch(exp: nat, mant: nat, r: nat)
    requires 102 <= exp <= 112 && mant < 0x80_0000
    requires var shift := 126 - exp; var m := mant + 0x80_0000;
             r == Shr(m, shift) + if RoundsUp(Low(m, shift), Shl(1, shift - 1), Shr(m, shift)) then 1 else 0
    ensures r <= 0x400 && NearestHalf(SingleMag(exp, mant), r)
  {
    var shift, m := 126 - exp, mant + 0x80_0000;
    var q, rem := Shr(m, shift), Low(m, shift);
    SubnormalKept(m, shift);
    SubnormalGrid(q, shift);
    HalfIncreasing();
    var grid := HalfMag;
    assert grid(q) == HalfMag(q) && grid(q + 1) == HalfMag(q + 1);
    RoundScaled(grid, INFINITY, q, Shl(q, shift) as real, rem, Shl(1, shift - 1), exp - 126, r);
  }

  /** Two neighbouring subnormal codes, scaled to the position of the mantissa bits. */
  lemma SubnormalGrid(q: nat, shift: nat)
    requires q < 0x400 && shift >= 1
    ensures HalfMag(q) == Scale(Shl(q, shift) as real, 0 - shift as int)
    ensures HalfMag(q + 1) == Scale(Shl(q, shift) as real + 2.0 * Shl(1, shift - 1) as real, 0 - shift as int)
  {
    SubnormalCodes(q);
    SubnormalCodes(q + 1);
    ShlScale(q, shift, 0 - shift as int);
    ShlScale(q + 1, shift, 0 - shift as int);
    ShlAdd(q, 1, shift);
  }

  /** The bits kept of a subnormal fit its ten-bit field. */
  lemma SubnormalKept(m: nat, shift: nat)
    requires m < 0x100_0000 && 14 <= shift
    ensures Shr(m, shift) < 0x400
  {
    ShlGrows(0x400, 14, shift);
    assert Shl(0x400, 14) == 0x100_0000;
    ShrBound(m, shift, 0x400);
  }

  lemma {:induction false} ShlGrows(q: nat, j: nat, k: nat)
    requires j <= k
    ensures Shl(q, j) <= Shl(q, k)
    decreases k
  {
    if j < k {
      ShlGrows(q, j, k - 1);
    }
  }

  lemma TinyBranch(exp: nat, mant: nat)
    requires exp <= 101 && mant < 0x80_0000
    ensures NearestHalf(SingleMag(exp, mant), 0)
  {
    var m := if exp == 0 then mant else mant + 0x80_0000;
    var k := if exp == 0 then exp - 125 else exp - 126;
    var x := SingleMag(exp, mant);
    ScaleMono(m as real, k, -25);
    ScaleLess(m as real, 16777216.0, -25);
    ScaleZero(k);
    ScaleLess(m as real, 0.0, k);
    HalfUnit();
    HalfIncreasing();
    var grid := HalfMag;
    assert grid(0 + 1) == HalfMag(1) == 1.0 && grid(0) == HalfMag(0) == 0.0;
    RoundBetween(grid, INFINITY, x, 0, 0);
  }

  lemma HalfUnit()
    ensures Scale(16777216.0, -25) == 0.5
  {
    Scale13(2048.0, -25);
    Scale4(128.0, -12);
    Scale4(8.0, -8);
    assert Scale(8.0, -4) == 0.5;
  }

  lemma HugeBranch(exp: nat, mant: nat)
    requires 143 <= exp && mant < 0x80_0000
    ensures NearestHalf(SingleMag(exp, mant), INFINITY)
  {
    HugeMag(exp, mant);
    HalfIncreasing();
    TopCodes();
    var grid := HalfMag;
    assert grid(INFINITY) == Scale(2048.0, 29);
    RoundAbove(grid, INFINITY, SingleMag(exp, mant));
  }

  lemma HugeMag(exp: nat, mant: nat)
    requires 143 <= exp
    ensures SingleMag(exp, mant) >= Scale(2048.0, 29)
  {
    var m := (mant + 0x80_0000) as real;
    ScaleMono(m, 17, exp - 126);
    ScaleLess(m, 8388608.0, 17);
    Scale4(2048.0, 25);
    Scale4(32768.0, 21);
    Scale4(524288.0, 17);
  }

  // ----- The conversions -----

  /** What either narrowing promises: sign kept, finite values rounded, infinity kept, NaN kept a NaN. */
  ghost predicate Narrowed(bits: nat, r: nat)
  {
    && r < U16_LIMIT
    && r / 0x8000 == bits / 0x8000_0000
    && (SingleFinite(bits) ==> NearestHalf(SingleMag(SingleExp(bits), SingleMant(bits)), r % 0x8000))
    && (!SingleFinite(bits) && !IsNaN(bits) ==> r % 0x8000 == INFINITY)
    && (IsNaN(bits) ==> r % 0x8000 > INFINITY)
  }

  /** Joining the sign to a rounded magnitude. */
  lemma JoinSign(bits: nat, code: nat)
    requires bits < U32_LIMIT && SingleFinite(bits)
    requires NearestHalf(SingleMag(SingleExp(bits), SingleMant(bits)), code)
    ensures Narrowed(bits, bits / 0x8000_0000 * 0x8000 + code)
  {
    var r := bits / 0x8000_0000 * 0x8000 + code;
    assert r / 0x8000 == bits / 0x8000_0000 && r % 0x8000 == code;
  }

  /** The finite part of the narrowing: exponent and mantissa fields to a code without sign. */
  method NarrowMagnitude(exp: nat, mant: nat) returns (code: nat)
    requires exp < 0xFF && mant < 0x80_0000
    ensures NearestHalf(SingleMag(exp, mant), code)
  {
    var halfExp := exp as int - 127 + 15;
    if halfExp >= 0x1F {
      HugeBranch(exp, mant);
      return 0x7C00;
    }
    if halfExp <= 0 {
      if halfExp < -10 {
        TinyBranch(exp, mant);
        return 0;
      }
      var mantissa := mant + 0x80_0000;
      var shift := 14 - halfExp;
      var halfMant := Shr(mantissa, shift);
      var remainder := Low(mantissa, shift);
      var halfway := Shl(1, shift - 1);
      if remainder > halfway || (remainder == halfway && halfMant % 2 != 0) {
        halfMant := halfMant + 1;
      }
      SubnormalBranch(exp, mant, halfMant);
      return halfMant;
    }
    var halfExpBits := halfExp * 0x400;
    var halfMant := mant / 0x2000;
    var remainder := mant % 0x2000;
    NormalBranch(exp, mant, halfExpBits + halfMant + if RoundsUp(remainder, 0x1000, halfMant) then 1 else 0);
    if remainder > 0x1000 || (remainder == 0x1000 && halfMant % 2 != 0) {
      halfMant := halfMant + 1;
      if halfMant == 0x400 {
        halfMant := 0;
        halfExpBits := halfExpBits + 0x400;
        if halfExpBits >= 0x7C00 {
          return 0x7C00;
        }
      }
    }
    code := halfExpBits + halfMant;
  }

  /** Narrows binary32 to binary16 with round to nearest, ties to even; NaN payload bits are kept. */
  method F32ToF16Bits(bits: nat) returns (r: nat)
    requires bits < U32_LIMIT
    ensures Narrowed(bits, r)
    ensures IsNaN(bits) ==>
              r % 0x400 == if SingleMant(bits) / 0x2000 == 0 then 1 else SingleMant(bits) / 0x2000
  {
    var sign := bits / 0x8000_0000 * 0x8000;
    var exp := SingleExp(bits);
    var mant := SingleMant(bits);
    if exp == 0xFF {
      if mant == 0 {
        return sign + 0x7C00;
      }
      var payload := if mant / 0x2000 == 0 then 1 else mant / 0x2000;
      return sign + 0x7C00 + payload;
    }
    var code := NarrowMagnitude(exp, mant);
    JoinSign(bits, code);
    r := sign + code;
  }

  /** The finite part of the second narrowing, which has no overflow test after the carry. */
  method NarrowMagnitudeUnchecked(exp: nat, mant: nat) returns (code: nat)
    requires exp < 0xFF && mant < 0x80_0000
    ensures NearestHalf(SingleMag(exp, mant), code)
  {
    var he := exp as int - 127 + 15;
    if he >= 31 {
      HugeBranch(exp, mant);
      return 0x7C00;
    }
    if he <= 0 {
      if he < -10 {
        TinyBranch(exp, mant);
        return 0;
      }
      var m := mant + 0x80_0000;
      var shift := 14 - he;
      var hm := Shr(m, shift);
      var rem := Low(m, shift);
      var half := Shl(1, shift - 1);
      if rem > half || (rem == half && hm % 2 != 0) {
        hm := hm + 1;
      }
      SubnormalBranch(exp, mant, hm);
      return hm;
    }
    var heBits := he * 0x400;
    var hm := mant / 0x2000;
    var rem := mant % 0x2000;
    NormalBranch(exp, mant, heBits + hm + if RoundsUp(rem, 0x1000, hm) then 1 else 0);
    if rem > 0x1000 || (rem == 0x1000 && hm % 2 != 0) {
      hm := hm + 1;
      if hm == 0x400 {
        hm := 0;
        heBits := heBits + 0x400;
      }
    }
    code := heBits + hm;
  }

  /** The second narrowing in the repository; every NaN becomes the quiet one. */
  method F32ToF16BitsQuiet(bits: nat) returns (r: nat)
    requires bits < U32_LIMIT
    ensures Narrowed(bits, r)
    ensures IsNaN(bits) ==> r % 0x400 == 0x200
  {
    var sign := bits / 0x8000_0000 * 0x8000;
    var exp := SingleExp(bits);
    var mant := SingleMant(bits);
    if exp == 0xFF {
      return if mant == 0 then sign + 0x7C00 else sign + 0x7E00;
    }
    var code := NarrowMagnitudeUnchecked(exp, mant);
    JoinSign(bits, code);
    r := sign + code;
  }

  /** Shifts a subnormal fraction up to its leading bit, counting the exponent down. */
  method Normalize(f: nat) returns (frac: nat, exp: nat)
    requires 1 <= f < 0x400
    ensures 103 <= exp < 113 && 0x400 <= frac < 0x800
    ensures f as real == Scale(frac as real, exp - 113)
  {
    frac, exp := f, 113;
    while frac / 0x400 % 2 == 0
      invariant 103 <= exp <= 113 && 1 <= frac < 0x800
      invariant exp == 113 ==> frac == f
      invariant f as real == Scale(frac as real, exp - 113)
      decreases exp
    {
      assert frac < 0x400;
      if exp == 103 {
        ScaleLess(frac as real, 1024.0, -10);
        TenBits();
        assert false;
      }
      ScaleDouble(frac as real, exp - 114);
      frac := frac * 2;
      exp := exp - 1;
    }
  }

  lemma TenBits()
    ensures Scale(1024.0, -10) == 1.0
  {
    Scale4(64.0, -10);
    Scale4(4.0, -6);
    assert Scale(4.0, -2) == 1.0;
  }

  /** The fields of a pattern put together from sign, exponent and mantissa. */
  lemma SingleFields(sign: nat, exp: nat, mant: nat)
    requires sign < 2 && exp < 0x100 && mant < 0x80_0000
    ensures var bits := sign * 0x8000_0000 + exp * 0x80_0000 + mant;
            && bits < U32_LIMIT && bits / 0x8000_0000 == sign
            && SingleExp(bits) == exp && SingleMant(bits) == mant
  {
    var bits := sign * 0x8000_0000 + exp * 0x80_0000 + mant;
    assert bits / 0x80_0000 == sign * 0x100 + exp;
  }

  /** A normalised subnormal has the binary32 fields it is given. */
  lemma WidenedSubnormal(f: nat, frac: nat, n: nat)
    requires 103 <= n < 113 && 0x400 <= frac < 0x800 && f as real == Scale(frac as real, n - 113)
    ensures SingleMag(n, frac % 0x400 * 0x2000) == f as real
  {
    var mant := frac % 0x400 * 0x2000;
    Scale13(frac as real, n - 126);
    assert (mant + 0x80_0000) as real == 8192.0 * frac as real;
  }

  lemma WidenedNormal(e: nat, f: nat)
    requires 1 <= e < 31 && f < 0x400
    ensures SingleMag(e + 112, f * 0x2000) == HalfMag(e * 0x400 + f)
  {
    NormalCodes(e, f);
    Scale13((f + 0x400) as real, e - 14);
    assert (f * 0x2000 + 0x80_0000) as real == 8192.0 * (f + 0x400) as real;
  }

  /** The finite part of the widening: binary16 fields to binary32 fields of the same value. */
  method WidenMagnitude(e: nat, f: nat) returns (exp: nat, mant: nat)
    requires e < 31 && f < 0x400
    ensures exp < 0xFF && mant < 0x80_0000 && SingleMag(exp, mant) == HalfMag(e * 0x400 + f)
  {
    if e == 0 {
      SubnormalCodes(f);
      if f == 0 {
        ScaleZero(-125);
        return 0, 0;
      }
      var frac, n := Normalize(f);
      exp, mant := n, frac % 0x400 * 0x2000;
      WidenedSubnormal(f, frac, n);
    } else {
      exp, mant := e + 112, f * 0x2000;
      WidenedNormal(e, f);
    }
  }

  /** Widens binary16 to binary32 exactly. */
  method F16ToF32(h: nat) returns (bits: nat)
    requires h < U16_LIMIT
    ensures bits < U32_LIMIT && bits / 0x8000_0000 == h / 0x8000
    ensures h % 0x8000 < INFINITY ==>
              SingleFinite(bits) && SingleMag(SingleExp(bits), SingleMant(bits)) == HalfMag(h % 0x8000)
    ensures h % 0x8000 >= INFINITY ==> SingleExp(bits) == 0xFF && SingleMant(bits) == h % 0x400 * 0x2000
  {
    var s := h / 0x8000 * 0x8000_0000;
    var e := h / 0x400 % 0x20;
    var f := h % 0x400;
    assert h % 0x8000 == e * 0x400 + f;
    if e == 31 {
      SingleFields(h / 0x8000, 0xFF, f * 0x2000);
      bits := s + 0x7F80_0000 + f * 0x2000;
    } else {
      var exp, mant := WidenMagnitude(e, f);
      SingleFields(h / 0x8000, exp, mant);
      bits := s + exp * 0x80_0000 + mant;
    }
  }

  /** Widening then narrowing gives back every one of the 65536 patterns, NaN payloads included. */
  method WidenThenNarrow(h: nat) returns (r: nat)
    requires h < U16_LIMIT
    ensures r == h
  {
    var bits := F16ToF32(h);
    r := F32ToF16Bits(bits);
    if h % 0x8000 < INFINITY {
      HalfIncreasing();
      NearestEvenExact(HalfMag, INFINITY, h % 0x8000, r % 0x8000);
    }
  }

  /** The two narrowings differ exactly on NaNs whose payload is not the quiet one. */
  method CompareNarrowings(bits: nat) returns (a: nat, b: nat)
    requires bits < U32_LIMIT
    ensures Narrowed(bits, a) && Narrowed(bits, b)
    ensures a == b <==> !IsNaN(bits) || SingleMant(bits) / 0x2000 == 0x200
  {
    a := F32ToF16Bits(bits);
    b := F32ToF16BitsQuiet(bits);
    if SingleFinite(bits) {
      HalfIncreasing();
      var x := SingleMag(SingleExp(bits), SingleMant(bits));
      NearestEvenUnique(HalfMag, INFINITY, x, a % 0x8000, b % 0x8000);
    }
  }

  /** The value of a finite binary32 pattern, and of a binary16 pattern; the code for infinity stands for 65536. */
  function SingleValue(bits: nat): real
  {
    var mag := SingleMag(SingleExp(bits), SingleMant(bits));
    if bits / 0x8000_0000 == 0 then mag else -mag
  }

  function HalfValue(r: nat): real
  {
    var mag := HalfMag(r % 0x8000);
    if r / 0x8000 == 0 then mag else -mag
  }

  /** Narrowing keeps the order of magnitudes. */
  lemma MagnitudesMonotone(bits1: nat, bits2: nat, r1: nat, r2: nat)
    requires SingleFinite(bits1) && SingleFinite(bits2) && Narrowed(bits1, r1) && Narrowed(bits2, r2)
    requires SingleMag(SingleExp(bits1), SingleMant(bits1)) <= SingleMag(SingleExp(bits2), SingleMant(bits2))
    ensures HalfMag(r1 % 0x8000) <= HalfMag(r2 % 0x8000)
  {
    HalfIncreasing();
    var x, y := SingleMag(SingleExp(bits1), SingleMant(bits1)), SingleMag(SingleExp(bits2), SingleMant(bits2));
    NearestEvenMonotone(HalfMag, INFINITY, x, y, r1 % 0x8000, r2 % 0x8000);
    if r1 % 0x8000 < r2 % 0x8000 {
      HalfMagIncreasing(r1 % 0x8000, r2 % 0x8000);
    }
  }

  lemma SingleMagNonNegative(exp: nat, mant: nat)
    ensures SingleMag(exp, mant) >= 0.0
  {
    var f, k := if exp == 0 then mant else mant + 0x80_0000, if exp == 0 then exp - 125 else exp - 126;
    ScaleZero(k);
    ScaleLess(f as real, 0.0, k);
  }

  lemma HalfMagNonNegative(code: nat)
    ensures HalfMag(0) == 0.0 <= HalfMag(code)
  {
    if code > 0 {
      HalfMagIncreasing(0, code);
    }
  }

  /** Zero narrows to zero. */
  lemma ZeroNarrows(bits: nat, r: nat)
    requires SingleFinite(bits) && Narrowed(bits, r) && SingleMag(SingleExp(bits), SingleMant(bits)) == 0.0
    ensures HalfMag(r % 0x8000) == 0.0
  {
    HalfIncreasing();
    HalfMagNonNegative(0);
    var grid := HalfMag;
    assert grid(0) == HalfMag(0);
    NearestEvenExact(grid, INFINITY, 0, r % 0x8000);
  }

  /** Among finite patterns of either sign narrowing keeps the order. */
  lemma NarrowingMonotone(bits1: nat, bits2: nat, r1: nat, r2: nat)
    requires SingleFinite(bits1) && SingleFinite(bits2) && Narrowed(bits1, r1) && Narrowed(bits2, r2)
    requires SingleValue(bits1) <= SingleValue(bits2)
    ensures HalfValue(r1) <= HalfValue(r2)
  {
    hide SingleMag, HalfMag, NearestHalf;
    SingleMagNonNegative(SingleExp(bits1), SingleMant(bits1));
    SingleMagNonNegative(SingleExp(bits2), SingleMant(bits2));
    HalfMagNonNegative(r1 % 0x8000);
    HalfMagNonNegative(r2 % 0x8000);
    var positive1, positive2 := bits1 / 0x8000_0000 == 0, bits2 / 0x8000_0000 == 0;
    if positive1 && positive2 {
      MagnitudesMonotone(bits1, bits2, r1, r2);
    } else if positive1 {
      ZeroNarrows(bits1, r1);
      ZeroNarrows(bits2, r2);
    } else if !positive2 {
      MagnitudesMonotone(bits2, bits1, r2, r1);
    }
  }

  // ----- Checkpoint tensors -----

  function Bf16At(bytes: seq<byte>, i: nat): nat
    requires 2 * i + 1 < |bytes|
  {
    bytes[2 * i] as nat + 256 * bytes[2 * i + 1] as nat
  }

  /** bfloat16 is the upper half of a binary32. */
  function Bf16ToF32(bits: nat): nat
  {
    bits * 0x1_0000
  }

  predicate FiniteAt(bytes: seq<byte>, i: nat)
    requires 2 * i + 1 < |bytes|
  {
    SingleFinite(Bf16ToF32(Bf16At(bytes, i)))
  }

  /** 16-bit words laid end to end, the low byte of each first. */
  function Laid(words: seq<nat>): (s: seq<byte>)
    ensures |s| == 2 * |words|
  {
    if words == [] then [] else ToLE(words[0], 2) + Laid(words[1..])
  }

  predicate Words(words: seq<nat>)
  {
    forall i :: 0 <= i < |words| ==> words[i] < 0x1_0000
  }

  /** Eight exponent bits above seven fraction bits; all exponent bits set means infinity or NaN. */
  function Bf16Exp(w: nat): nat
  {
    w / 0x80 % 0x100
  }

  predicate Bf16Finite(w: nat)
  {
    Bf16Exp(w) != 255
  }

  /**
   Magnitude of a finite bfloat16 word, in units of 2^-24: the fraction times 2^-133 for exponent 0,
   else (1 + fraction / 128) times 2^(exponent - 127).
   */
  function Bf16Mag(w: nat): real
  {
    if Bf16Exp(w) == 0 then Scale((w % 0x80) as real, -109) else Scale((w % 0x80 + 0x80) as real, Bf16Exp(w) - 110)
  }

  /** The word's sign and the nearest binary16 magnitude. */
  ghost predicate Bf16Narrowed(w: nat, r: nat)
  {
    r < 0x1_0000 && r / 0x8000 == w / 0x8000 && NearestHalf(Bf16Mag(w), r % 0x8000)
  }

  /** Every tensor of even length is some sequence of words. */
  lemma {:induction false} EvenIsLaid(bytes: seq<byte>) returns (words: seq<nat>)
    requires |bytes| % 2 == 0
    ensures Words(words) && Laid(words) == bytes
    decreases |bytes|
  {
    if bytes == [] {
      words := [];
    } else {
      var rest := EvenIsLaid(bytes[2..]);
      var w: nat := bytes[0] as nat + 256 * bytes[1] as nat;
      words := [w] + rest;
      assert words[1..] == rest;
      TwoBytes(w);
      assert bytes == [bytes[0], bytes[1]] + bytes[2..];
    }
  }

  lemma TwoBytes(w: nat)
    requires w < 0x1_0000
    ensures ToLE(w, 2) == [w % 256, w / 256]
  {
    assert ToLE(w / 256, 1) == [w / 256 % 256] + ToLE(w / 256 / 256, 0);
  }

  /** Word `i` of the tensor is read back. */
  lemma {:induction false} LaidReads(words: seq<nat>, i: nat)
    requires Words(words) && i < |words|
    ensures Bf16At(Laid(words), i) == words[i]
    decreases |words|
  {
    TwoBytes(words[0]);
    var s, rest := Laid(words), Laid(words[1..]);
    if i > 0 {
      LaidReads(words[1..], i - 1);
      assert s[2 * i] == rest[2 * (i - 1)] && s[2 * i + 1] == rest[2 * (i - 1) + 1];
    }
  }

  lemma Bf16Fields(w: nat)
    requires w < 0x1_0000
    ensures var v := Bf16ToF32(w);
            && v < U32_LIMIT && v / 0x8000_0000 == w / 0x8000
            && SingleExp(v) == Bf16Exp(w) && SingleMant(v) == w % 0x80 * 0x1_0000
  {
  }

  /** Widened to binary32 a bfloat16 word keeps sign, exponent and value. */
  lemma Bf16Widens(w: nat)
    requires w < 0x1_0000
    ensures var v := Bf16ToF32(w);
            && v < U32_LIMIT && v / 0x8000_0000 == w / 0x8000 && (SingleFinite(v) <==> Bf16Finite(w))
            && SingleMag(SingleExp(v), SingleMant(v)) == Bf16Mag(w)
  {
    hide Scale;
    Bf16Fields(w);
    if Bf16Exp(w) == 0 {
      Scale16((w % 0x80) as real, -125);
    } else {
      Scale16((w % 0x80 + 0x80) as real, Bf16Exp(w) - 126);
    }
  }

  lemma Scale16(x: real, k: int)
    ensures Scale(x, k + 16) == Scale(65536.0 * x, k)
  {
    Scale4(x, k + 12);
    Scale4(16.0 * x, k + 8);
    Scale4(256.0 * x, k + 4);
    Scale4(4096.0 * x, k);
  }

  lemma LaidNarrows(words: seq<nat>, i: nat, r: nat)
    requires Words(words) && i < |words|
    ensures FiniteAt(Laid(words), i) <==> Bf16Finite(words[i])
    ensures Bf16Finite(words[i]) && Narrowed(Bf16ToF32(Bf16At(Laid(words), i)), r) ==> Bf16Narrowed(words[i], r)
  {
    hide NearestHalf, SingleMag, Bf16Mag, Bf16ToF32, Bf16Finite, SingleFinite, Laid;
    LaidReads(words, i);
    Bf16Widens(words[i]);
  }

  /** The conversion in terms of the words of the tensor. */
  ghost predicate Converts(words: seq<nat>, ok: bool, out: seq<nat>)
  {
    && (ok <==> forall i :: 0 <= i < |words| ==> Bf16Finite(words[i]))
    && (ok ==> |out| == |words| && forall i :: 0 <= i < |words| ==> Bf16Narrowed(words[i], out[i]))
  }

  lemma LaidConverts(words: seq<nat>, bytes: seq<byte>, ok: bool, out: seq<nat>)
    requires Words(words) && Laid(words) == bytes
    requires ok <==> forall i: nat :: 2 * i + 1 < |bytes| ==> FiniteAt(bytes, i)
    requires ok ==> 2 * |out| == |bytes|
    requires ok ==> forall i: nat :: i < |out| ==> Narrowed(Bf16ToF32(Bf16At(bytes, i)), out[i])
    ensures Converts(words, ok, out)
  {
    hide Bf16At, Bf16Finite, FiniteAt, Narrowed, Bf16Narrowed, Words;
    forall i: nat | i < |words|
      ensures FiniteAt(bytes, i) <==> Bf16Finite(words[i])
      ensures ok ==> Bf16Narrowed(words[i], out[i])
    {
      LaidNarrows(words, i, if ok then out[i] else 0);
    }
  }

  /** Converts a little-endian bfloat16 tensor, refusing odd lengths and non-finite weights. */
  method Bf16BytesToFp16(bytes: seq<byte>) returns (ok: bool, out: seq<nat>)
    ensures |bytes| % 2 == 1 ==> !ok
    ensures forall words :: Words(words) && Laid(words) == bytes ==> Converts(words, ok, out)
  {
    ok, out := ConvertWords(bytes);
    forall words | Words(words) && Laid(words) == bytes
      ensures Converts(words, ok, out)
    {
      LaidConverts(words, bytes, ok, out);
    }
  }

  method ConvertWords(bytes: seq<byte>) returns (ok: bool, out: seq<nat>)
    ensures ok <==> |bytes| % 2 == 0 && forall i: nat :: 2 * i + 1 < |bytes| ==> FiniteAt(bytes, i)
    ensures ok ==> 2 * |out| == |bytes|
    ensures ok ==> forall i: nat :: i < |out| ==> Narrowed(Bf16ToF32(Bf16At(bytes, i)), out[i])
  {
    out := [];
    if |bytes| % 2 != 0 {
      return false, [];
    }
    for j := 0 to |bytes| / 2
      invariant |out| == j
      invariant forall i: nat :: i < j ==> FiniteAt(bytes, i)
      invariant forall i: nat :: i < j ==> Narrowed(Bf16ToF32(Bf16At(bytes, i)), out[i])
    {
      var v := Bf16ToF32(Bf16At(bytes, j));
      if !SingleFinite(v) {
        assert !FiniteAt(bytes, j);
        return false, [];
      }
      var h := F32ToF16Bits(v);
      out := out + [h];
    }
    ok := true;
  }
}
