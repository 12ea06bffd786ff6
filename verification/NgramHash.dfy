/**
 What the n-gram ids are, told from the tokens and the multipliers alone: every binary digit of a hash
 is a parity, every token of an n-gram counts, and the rows hold the hashes' remainders in their slices.
 */
module NgramHash {
  import opened Arithmetic
  import opened Bits
  import opened NgramIds

  // ----- The hash of an n-gram -----

  /**
   The token `k` places back from position `p` of the sequence: the end token when an end token lies
   between, or when the sequence starts later. Positions before the sequence are padding.
   */
  function Back(ids: seq<Token>, eos: Token, p: int, k: nat): Token
    requires p < |ids|
  {
    if k <= p && NoEosIn(ids, eos, p - k, p) then ids[p - k] else eos
  }

  /** How many of the first `n` products have binary digit `j` set. */
  function SetDigits(t: Tables, ids: seq<Token>, p: int, n: nat, j: nat): nat
    requires p < |ids| && n <= |t.multipliers|
  {
    if n == 0 then 0
    else
      SetDigits(t, ids, p, n - 1, j) + Bit(Back(ids, t.eos, p, n - 1) * t.multipliers[n - 1] % TWO64, j)
  }

  /** Every digit of the hash is the parity of the products' digits. */
  ghost predicate IsHash(hash: nat, t: Tables, ids: seq<Token>, p: int, n: nat)
    requires p < |ids| && n <= |t.multipliers|
  {
    forall j: nat :: Bit(hash, j) == SetDigits(t, ids, p, n, j) % 2
  }

  lemma HashUnique(u: nat, v: nat, t: Tables, ids: seq<Token>, p: int, n: nat)
    requires p < |ids| && n <= |t.multipliers| && IsHash(u, t, ids, p, n) && IsHash(v, t, ids, p, n)
    ensures u == v
  {
    BitsDetermine(u, v);
  }

  /** The shift of the padded history is the token that many places back. */
  lemma ShiftIsBack(t: Tables, ids: seq<Token>, p: int, k: nat)
    requires k < |t.multipliers| && -(|t.multipliers| - 1) <= p < |ids|
    ensures ShiftAt(History(t, ids), t.eos, k, |t.multipliers| - 1 + p) == Back(ids, t.eos, p, k)
  {
    var ctx, history := |t.multipliers| - 1, History(t, ids);
    ShiftMeaning(history, t.eos, k, ctx + p);
    if k <= p {
      HistoryEos(t, ids, p - k, p);
    }
  }

  lemma HistoryEos(t: Tables, ids: seq<Token>, lo: nat, hi: nat)
    requires |t.multipliers| >= 1 && lo <= hi <= |ids|
    ensures var ctx := |t.multipliers| - 1;
            NoEosIn(History(t, ids), t.eos, ctx + lo, ctx + hi) <==> NoEosIn(ids, t.eos, lo, hi)
  {
    var ctx, history := |t.multipliers| - 1, History(t, ids);
    assert forall j :: lo <= j < hi ==> ids[j] == history[ctx + j];
    assert forall j :: ctx + lo <= j < ctx + hi ==> history[j] == ids[j - ctx];
  }

  /** One more product is xored onto a hash. */
  lemma HashStep(hash: nat, last: nat, t: Tables, ids: seq<Token>, p: int, n: nat)
    requires p < |ids| && 1 <= n <= |t.multipliers| && IsHash(hash, t, ids, p, n - 1)
    requires last == Back(ids, t.eos, p, n - 1) * t.multipliers[n - 1] % TWO64
    ensures IsHash(Xor(hash, last), t, ids, p, n)
  {
    hide Xor, Bit, Back;
    forall j: nat
      ensures Bit(Xor(hash, last), j) == SetDigits(t, ids, p, n, j) % 2
    {
      XorBit(hash, last, j);
    }
  }

  lemma FirstHash(t: Tables, ids: seq<Token>, p: int)
    requires p < |ids| && |t.multipliers| >= 1
    ensures IsHash(Back(ids, t.eos, p, 0) * t.multipliers[0] % TWO64, t, ids, p, 1)
  {
    hide Bit, Back;
    var first := Back(ids, t.eos, p, 0) * t.multipliers[0] % TWO64;
    forall j: nat
      ensures Bit(first, j) == SetDigits(t, ids, p, 1, j) % 2
    {
      assert SetDigits(t, ids, p, 0, j) == 0;
    }
  }

  /** The computed hash is the one with the parities as its digits. */
  lemma {:induction false} MixedIsHash(t: Tables, ids: seq<Token>, p: int, n: nat)
    requires 1 <= n <= |t.multipliers| && -(|t.multipliers| - 1) <= p < |ids|
    ensures IsHash(Mixed(t, History(t, ids), |t.multipliers| - 1 + p, n), t, ids, p, n)
    decreases n
  {
    hide Xor, Back, IsHash, ShiftAt, History;
    ShiftIsBack(t, ids, p, n - 1);
    if n == 1 {
      FirstHash(t, ids, p);
    } else {
      MixedIsHash(t, ids, p, n - 1);
      HashStep(Mixed(t, History(t, ids), |t.multipliers| - 1 + p, n - 1),
               WrapMul(Back(ids, t.eos, p, n - 1), t.multipliers[n - 1]), t, ids, p, n);
    }
  }

  // ----- Every token counts -----

  /** Digit `j` of the product with the token `k` places back. */
  function Digit(t: Tables, ids: seq<Token>, p: int, k: nat, j: nat): nat
    requires p < |ids| && k < |t.multipliers|
  {
    Bit(Back(ids, t.eos, p, k) * t.multipliers[k] % TWO64, j)
  }

  lemma {:induction false} DigitsApart(t: Tables, a: seq<Token>, p: int, b: seq<Token>, q: int, n: nat, k: nat, j: nat)
    requires p < |a| && q < |b| && n <= |t.multipliers|
    requires forall i: nat :: i < n && i != k ==> Back(a, t.eos, p, i) == Back(b, t.eos, q, i)
    ensures k >= n ==> SetDigits(t, a, p, n, j) == SetDigits(t, b, q, n, j)
    ensures k < n ==> SetDigits(t, a, p, n, j) - Digit(t, a, p, k, j) == SetDigits(t, b, q, n, j) - Digit(t, b, q, k, j)
    decreases n
  {
    hide Back, Bit;
    if n > 0 {
      DigitsApart(t, a, p, b, q, n - 1, k, j);
    }
  }

  /** Different words times an odd number differ in some digit. */
  lemma WordsApart(x: nat, y: nat, m: nat) returns (j: nat)
    requires x < TWO64 && y < TWO64 && x != y && m % 2 == 1
    ensures Bit(x * m % TWO64, j) != Bit(y * m % TWO64, j)
  {
    hide Bit, Pow2;
    PowersOfTwo();
    if x * m % TWO64 == y * m % TWO64 {
      OddInjective(x, y, m, 64, TWO64);
    }
    j := DigitApart(x * m % TWO64, y * m % TWO64);
  }

  lemma DigitApart(u: nat, v: nat) returns (j: nat)
    requires u != v
    ensures Bit(u, j) != Bit(v, j)
  {
    if forall i: nat :: Bit(u, i) == Bit(v, i) {
      BitsDetermine(u, v);
    }
    j :| Bit(u, j) != Bit(v, j);
  }

  /**
   Two n-grams that differ in one token have different hashes: its multiplier is odd, so its product
   differs, and no other product can hide that.
   */
  lemma OneTokenChangesHash(u: nat, v: nat, t: Tables, a: seq<Token>, p: int, b: seq<Token>, q: int, n: nat, k: nat)
    requires p < |a| && q < |b| && k < n <= |t.multipliers|
    requires IsHash(u, t, a, p, n) && IsHash(v, t, b, q, n)
    requires t.multipliers[k] % 2 == 1 && Back(a, t.eos, p, k) < TWO64 && Back(b, t.eos, q, k) < TWO64
    requires forall i: nat :: i < n ==> (Back(a, t.eos, p, i) != Back(b, t.eos, q, i) <==> i == k)
    ensures u != v
  {
    hide Back, SetDigits, Bit;
    var j := WordsApart(Back(a, t.eos, p, k), Back(b, t.eos, q, k), t.multipliers[k]);
    DigitsApart(t, a, p, b, q, n, k, j);
    ParityApart(SetDigits(t, a, p, n, j), SetDigits(t, b, q, n, j), Digit(t, a, p, k, j), Digit(t, b, q, k, j));
    assert Bit(u, j) != Bit(v, j);
  }

  lemma ParityApart(x: nat, y: nat, d: nat, e: nat)
    requires d < 2 && e < 2 && d != e && x - d == y - e
    ensures x % 2 != y % 2
  {
  }

  // ----- The rows -----

  /** The signed 64-bit integer that agrees with `n` modulo 2^64. */
  predicate IsSignedWord(id: int, n: nat)
  {
    -TWO63 <= id < TWO63 && (id - n) % TWO64 == 0
  }

  /** Head `h` looks up an n-gram of `h / headsPerNgram + 2` tokens: the hash's remainder behind the head's offset. */
  ghost predicate IsId(id: int, t: Tables, ids: seq<Token>, p: int, h: nat)
    requires p < |ids|
  {
    && HeadOk(t, h)
    && exists hash: nat ::
         && IsHash(hash, t, ids, p, h / t.headsPerNgram + 2)
         && IsSignedWord(id, hash % t.sizes[h] + t.offsets[h])
  }

  /** One id per head at one position. */
  ghost predicate IsRow(row: seq<int>, t: Tables, ids: seq<Token>, p: int)
    requires p < |ids|
  {
    |row| == |t.sizes| && forall h :: 0 <= h < |row| ==> IsId(row[h], t, ids, p, h)
  }

  lemma PlacedIs(r: nat, offset: nat)
    ensures IsSignedWord(Placed(r, offset), r + offset)
    ensures r + offset < TWO63 ==> Placed(r, offset) == r + offset
  {
    var n := r + offset;
    assert n == TWO64 * (n / TWO64) + n % TWO64;
  }

  lemma HeadIdIs(t: Tables, ids: seq<Token>, p: int, h: nat)
    requires HeadOk(t, h) && -(|t.multipliers| - 1) <= p < |ids|
    ensures IsId(HeadId(t, History(t, ids), |t.multipliers| - 1 + p, h), t, ids, p, h)
  {
    var n := h / t.headsPerNgram + 2;
    var hash := Mixed(t, History(t, ids), |t.multipliers| - 1 + p, n);
    MixedIsHash(t, ids, p, n);
    PlacedIs(hash % t.sizes[h], t.offsets[h]);
  }

  lemma SignedWordUnique(x: int, y: int, n: nat)
    requires IsSignedWord(x, n) && IsSignedWord(y, n)
    ensures x == y && (n < TWO63 ==> x == n)
  {
    var u, v := (x - n) / TWO64, (y - n) / TWO64;
    assert x == n + TWO64 * u && y == n + TWO64 * v;
  }

  /** An id is determined by the tokens; in a slice that ends at or below 2^63 it is the remainder plus the offset. */
  lemma IdIs(id: int, t: Tables, ids: seq<Token>, p: int, h: nat, hash: nat)
    requires p < |ids| && HeadOk(t, h) && IsHash(hash, t, ids, p, h / t.headsPerNgram + 2)
    ensures IsId(id, t, ids, p, h) <==> IsSignedWord(id, hash % t.sizes[h] + t.offsets[h])
    ensures t.offsets[h] + t.sizes[h] <= TWO63 ==> (IsId(id, t, ids, p, h) <==> id == hash % t.sizes[h] + t.offsets[h])
  {
    hide IsHash, IsSignedWord;
    var n, place := h / t.headsPerNgram + 2, hash % t.sizes[h] + t.offsets[h];
    if IsId(id, t, ids, p, h) {
      var g: nat :| IsHash(g, t, ids, p, n) && IsSignedWord(id, g % t.sizes[h] + t.offsets[h]);
      HashUnique(g, hash, t, ids, p, n);
    }
    PlacedIs(hash % t.sizes[h], t.offsets[h]);
    if IsSignedWord(id, place) {
      SignedWordUnique(id, Placed(hash % t.sizes[h], t.offsets[h]), place);
    }
  }

  /** The rows of ids for a token sequence. An empty sequence keeps its padding rows: `[-0:]` keeps everything. */
  method NgramRows(t: Tables, ids: seq<Token>) returns (rows: seq<seq<int>>)
    requires Valid(t)
    ensures |rows| == if ids == [] then |t.multipliers| - 1 else |ids|
    ensures forall p :: 0 <= p < |ids| ==> IsRow(rows[p], t, ids, p)
    ensures ids == [] ==> forall p :: 0 <= p < |rows| ==> IsRow(rows[p], t, ids, p - |rows|)
  {
    hide IsRow;
    var ctx := |t.multipliers| - 1;
    var history := History(t, ids);
    var all: seq<seq<int>> := [];
    for i := 0 to |history|
      invariant |all| == i
      invariant forall q :: 0 <= q < i ==> IsRow(all[q], t, ids, q - ctx)
    {
      var row := Row(t, ids, i);
      all := all + [row];
    }
    rows := if |ids| == 0 then all else all[|all| - |ids|..];
    assert forall p :: 0 <= p < |ids| ==> rows[p] == all[ctx + p];
  }

  method Row(t: Tables, ids: seq<Token>, i: nat) returns (row: seq<int>)
    requires Valid(t) && i < |History(t, ids)|
    ensures IsRow(row, t, ids, i - (|t.multipliers| - 1))
  {
    hide Mixed, HeadId, HeadOk, IsId;
    row := [];
    for h := 0 to |t.sizes|
      invariant |row| == h
      invariant forall g :: 0 <= g < h ==> IsId(row[g], t, ids, i - (|t.multipliers| - 1), g)
    {
      HeadInRange(t, h);
      HeadIdIs(t, ids, i - (|t.multipliers| - 1), h);
      row := row + [HeadId(t, History(t, ids), i, h)];
    }
  }

  // ----- The multipliers' words -----

  lemma AddGamma(a: nat, b: nat)
    requires a < TWO64 && b < TWO64 && (a + GAMMA) % TWO64 == (b + GAMMA) % TWO64
    ensures a == b
  {
  }

  lemma ShiftBelow(a: nat, s: nat, p: nat, n: nat)
    requires a < Pow2(n) && p == Pow2(s)
    ensures Shift(a, s) == a / p && Shift(a, s) < Pow2(n)
  {
    ShiftDivides(a, s, p);
    ShiftShrinks(a, s);
  }

  /** One stage: a xor with the own shift, times an odd number, modulo 2^64. */
  lemma StageInjective(a: nat, b: nat, s: nat, x: nat, y: nat, m: nat)
    requires a < TWO64 && b < TWO64 && s >= 1 && m % 2 == 1
    requires x == Shift(a, s) < TWO64 && y == Shift(b, s) < TWO64
    requires Xor(a, x) * m % TWO64 == Xor(b, y) * m % TWO64
    ensures a == b
  {
    hide Pow2, Xor, Shift;
    PowersOfTwo();
    XorBelow(a, x, 64);
    XorBelow(b, y, 64);
    OddInjective(Xor(a, x), Xor(b, y), m, 64, TWO64);
    XorShiftInjective(a, b, s, 64);
  }

  /** The mixing function maps different words to different words. */
  lemma SplitMixInjective(a: nat, b: nat)
    requires a < TWO64 && b < TWO64 && SplitMix64(a) == SplitMix64(b)
    ensures a == b
  {
    hide Xor, Pow2, Shift;
    var a0, b0 := (a + GAMMA) % TWO64, (b + GAMMA) % TWO64;
    var a1, b1 := Xor(a0, a0 / 0x4000_0000) * M1 % TWO64, Xor(b0, b0 / 0x4000_0000) * M1 % TWO64;
    var a2, b2 := Xor(a1, a1 / 0x800_0000) * M2 % TWO64, Xor(b1, b1 / 0x800_0000) * M2 % TWO64;
    PowersOfTwo();
    ShiftBelow(a0, 30, 0x4000_0000, 64);
    ShiftBelow(b0, 30, 0x4000_0000, 64);
    ShiftBelow(a1, 27, 0x800_0000, 64);
    ShiftBelow(b1, 27, 0x800_0000, 64);
    ShiftBelow(a2, 31, 0x8000_0000, 64);
    ShiftBelow(b2, 31, 0x8000_0000, 64);
    StageInjective(a2, b2, 31, a2 / 0x8000_0000, b2 / 0x8000_0000, 1);
    StageInjective(a1, b1, 27, a1 / 0x800_0000, b1 / 0x800_0000, M2);
    StageInjective(a0, b0, 30, a0 / 0x4000_0000, b0 / 0x4000_0000, M1);
    AddGamma(a, b);
  }

  /** Digits of `v` against those `s` places higher, the number so described times `m`, modulo 2^64. */
  ghost predicate IsStage(out: nat, v: nat, s: nat, m: nat)
  {
    exists u: nat :: (forall j: nat :: Bit(u, j) == 1 <==> Bit(v, j) != Bit(v, j + s)) && out == u * m % TWO64
  }

  lemma StageIs(out: nat, v: nat, s: nat, p: nat, m: nat)
    requires v < TWO64 && p == Pow2(s) && Shift(v, s) == v / p && out == Xor(v, v / p) * m % TWO64
    ensures IsStage(out, v, s, m)
  {
    hide Bit, Xor, Shift, Pow2;
    var u := Xor(v, Shift(v, s));
    forall j: nat
      ensures Bit(u, j) == 1 <==> Bit(v, j) != Bit(v, j + s)
    {
      XorBit(v, Shift(v, s), j);
      ShiftedBit(v, s, j);
    }
  }

  /** The three stages of the mixing function, digit by digit. */
  lemma SplitMixStages(value: nat)
    ensures exists v1: nat, v2: nat ::
              && IsStage(v1, (value + 0x9E37_79B9_7F4A_7C15) % TWO64, 30, 0xBF58_476D_1CE4_E5B9)
              && IsStage(v2, v1, 27, 0x94D0_49BB_1331_11EB)
              && IsStage(SplitMix64(value), v2, 31, 1)
  {
    hide Xor, Pow2, Shift, IsStage;
    var v0 := (value + GAMMA) % TWO64;
    var v1 := Xor(v0, v0 / 0x4000_0000) * M1 % TWO64;
    var v2 := Xor(v1, v1 / 0x800_0000) * M2 % TWO64;
    PowersOfTwo();
    ShiftBelow(v0, 30, 0x4000_0000, 64);
    ShiftBelow(v1, 27, 0x800_0000, 64);
    ShiftBelow(v2, 31, 0x8000_0000, 64);
    StageIs(v1, v0, 30, 0x4000_0000, M1);
    StageIs(v2, v1, 27, 0x800_0000, M2);
    StageIs(SplitMix64(value), v2, 31, 0x8000_0000, 1);
  }

  /** A multiplier is odd, and its half the word of its position modulo the bound. */
  lemma MultiplierIs(vocab: nat, seed: int, i: nat)
    ensures var m, half := Multiplier(vocab, seed, i), HalfBound(vocab);
            && m % 2 == 1 && m / 2 < half
            && (SplitMix64((seed + 0x9E37_79B9_7F4A_7C15 * (i + 1)) % TWO64) - m / 2) % half == 0
  {
    hide SplitMix64, HalfBound;
    var word, half := SplitMix64((seed + GAMMA * (i + 1)) % TWO64), HalfBound(vocab);
    assert (2 * (word % half) + 1) / 2 == word % half;
    RestDivides(word, half);
  }

  lemma RestDivides(word: nat, half: nat)
    requires half >= 1
    ensures (word - word % half) % half == 0
  {
    assert word - word % half == half * (word / half);
    MultipleOf(half, word / half);
  }

  /** The words behind the multipliers of two positions differ. */
  lemma WordsDiffer(seed: int, i: nat, j: nat)
    requires i < j < TWO64
    ensures SplitMix64((seed + GAMMA * (i + 1)) % TWO64) != SplitMix64((seed + GAMMA * (j + 1)) % TWO64)
  {
    if (seed + GAMMA * (i + 1)) % TWO64 == (seed + GAMMA * (j + 1)) % TWO64 {
      SameStart(seed, i, j);
    } else if SplitMix64((seed + GAMMA * (i + 1)) % TWO64) == SplitMix64((seed + GAMMA * (j + 1)) % TWO64) {
      SplitMixInjective((seed + GAMMA * (i + 1)) % TWO64, (seed + GAMMA * (j + 1)) % TWO64);
    }
  }

  lemma SameStart(seed: int, i: nat, j: nat)
    requires i < j < TWO64
    ensures (seed + GAMMA * (i + 1)) % TWO64 != (seed + GAMMA * (j + 1)) % TWO64
  {
    PowersOfTwo();
    var d := j - i;
    if (seed + GAMMA * (i + 1)) % TWO64 == (seed + GAMMA * (j + 1)) % TWO64 {
      SameWord(seed, i, j, d);
      OddFactor(d, GAMMA, 64);
      NoSmallMultiple(d, TWO64);
    }
  }

  lemma SameWord(seed: int, i: nat, j: nat, d: nat)
    requires j == i + d && (seed + GAMMA * (i + 1)) % TWO64 == (seed + GAMMA * (j + 1)) % TWO64
    ensures d * GAMMA % TWO64 == 0
  {
    var x, y := seed + GAMMA * (i + 1), seed + GAMMA * (j + 1);
    SameRest(x, y);
    assert y == x + d * GAMMA;
  }

  lemma SameRest(x: int, y: int)
    requires x % TWO64 == y % TWO64
    ensures (y - x) % TWO64 == 0
  {
  }
}
